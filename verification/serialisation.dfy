/**
 * The public-input codec: decimal strings to field elements
 * (`deserialize_circuit_inputs`), and a vector of field elements to a
 * sequence of 32-byte canonical encodings and back
 * (`InputsSerialisationWrapper`).
 */
module Serialisation {
  import opened Wrappers
  import opened Field
  import opened Errors

  // ---------------------------------------------------------------------
  // Decimal strings

  /** 2^128 - 1, the largest `u128`. */
  const U128_MAX: nat := 340282366920938463463374607431768211455

  predicate IsDigit(ch: char)
  {
    '0' <= ch <= '9'
  }

  function DigitValue(ch: char): nat
    requires IsDigit(ch)
  {
    (ch as int) - ('0' as int)
  }

  predicate AllDigits(ds: string)
  {
    forall i :: 0 <= i < |ds| ==> IsDigit(ds[i])
  }

  function Pow10(n: nat): (r: nat)
    ensures r >= 1
  {
    if n == 0 then 1 else 10 * Pow10(n - 1)
  }

  /** The positional value of a digit string, most significant digit first. */
  function DecimalValue(ds: string): nat
    requires AllDigits(ds)
  {
    if ds == [] then 0 else DecimalValue(ds[..|ds| - 1]) * 10 + DigitValue(ds[|ds| - 1])
  }

  /** The digits after an optional leading '+'. */
  function Unsigned(s: string): string
  {
    if |s| > 0 && s[0] == '+' then s[1..] else s
  }

  /** The leading digit's share of a digit string's value. */
  lemma {:induction false} DecimalValueFront(ds: string)
    requires AllDigits(ds) && |ds| > 0
    ensures DecimalValue(ds) == DigitValue(ds[0]) * Pow10(|ds| - 1) + DecimalValue(ds[1..])
    decreases |ds|
  {
    var n := |ds|;
    if n > 1 {
      var init := ds[..n - 1];
      DecimalValueFront(init);
      assert init[1..] == ds[1..][..n - 2];
      var d0, p := DigitValue(ds[0]), Pow10(n - 2);
      calc {
        DecimalValue(ds);
        DecimalValue(init) * 10 + DigitValue(ds[n - 1]);
        (d0 * p + DecimalValue(init[1..])) * 10 + DigitValue(ds[n - 1]);
        { assert (d0 * p) * 10 == d0 * (10 * p); }
        d0 * Pow10(n - 1) + (DecimalValue(init[1..]) * 10 + DigitValue(ds[n - 1]));
        d0 * Pow10(n - 1) + DecimalValue(ds[1..]);
      }
    }
  }

  /**
   * The digit loop of `u128::from_str`, left to right: a non-digit is
   * `InvalidDigit`, a multiplication or addition past `U128_MAX` is `PosOverflow`.
   */
  function Accumulate(acc: nat, ds: string): (r: Result<nat, ParseIntError>)
    requires acc <= U128_MAX
    ensures r.Err? ==> r.error != Empty
    decreases |ds|
  {
    if ds == [] then Ok(acc)
    else if !IsDigit(ds[0]) then Err(InvalidDigit)
    else if acc * 10 > U128_MAX then Err(PosOverflow)
    else if acc * 10 + DigitValue(ds[0]) > U128_MAX then Err(PosOverflow)
    else Accumulate(acc * 10 + DigitValue(ds[0]), ds[1..])
  }

  /** The checked loop succeeds exactly when the unchecked value fits in a `u128`. */
  lemma {:induction false} AccumulateMeaning(acc: nat, ds: string)
    requires acc <= U128_MAX
    ensures Accumulate(acc, ds).Ok? <==>
      AllDigits(ds) && acc * Pow10(|ds|) + DecimalValue(ds) <= U128_MAX
    ensures Accumulate(acc, ds).Ok? ==>
      Accumulate(acc, ds).value == acc * Pow10(|ds|) + DecimalValue(ds)
    decreases |ds|
  {
    if ds != [] && IsDigit(ds[0]) {
      var d, rest, p := DigitValue(ds[0]), ds[1..], Pow10(|ds| - 1);
      var next := acc * 10 + d;
      assert AllDigits(ds) <==> AllDigits(rest) by {
        assert forall i :: 1 <= i < |ds| ==> ds[i] == rest[i - 1];
      }
      if AllDigits(ds) {
        ShiftDigit(acc, d, p, ds);
        AtLeastItself(next, p);
      }
      if next <= U128_MAX {
        AccumulateMeaning(next, rest);
      }
    }
  }

  /** Reading one more digit into the accumulator: the value read so far is unchanged. */
  lemma ShiftDigit(acc: nat, d: nat, p: nat, ds: string)
    requires AllDigits(ds) && |ds| > 0 && d == DigitValue(ds[0]) && p == Pow10(|ds| - 1)
    ensures acc * Pow10(|ds|) + DecimalValue(ds) == (acc * 10 + d) * p + DecimalValue(ds[1..])
  {
    DecimalValueFront(ds);
    var q, v, vr := Pow10(|ds|), DecimalValue(ds), DecimalValue(ds[1..]);
    assert q == 10 * p;
    assert v == d * p + vr;
    Distribute(acc, d, p);
  }

  lemma Distribute(acc: nat, d: nat, p: nat)
    ensures (acc * 10 + d) * p == acc * (10 * p) + d * p
  {
  }

  lemma AtLeastItself(a: nat, p: nat)
    requires p >= 1
    ensures a * p >= a
  {
  }

  /** `u128::from_str`. */
  function ParseU128(s: string): (r: Result<nat, ParseIntError>)
    ensures r.Ok? <==>
      Unsigned(s) != [] && AllDigits(Unsigned(s)) && DecimalValue(Unsigned(s)) <= U128_MAX
    ensures r.Ok? ==> r.value == DecimalValue(Unsigned(s))
    ensures r == Err(Empty) <==> s == []
  {
    if s == [] then Err(Empty)
    else if (s[0] == '+' || s[0] == '-') && |s| == 1 then Err(InvalidDigit)
    else
      AccumulateMeaning(0, Unsigned(s));
      Accumulate(0, Unsigned(s))
  }

  /** `Fr::from_u128`: every `u128` is below r, so nothing is reduced. */
  function FromU128(n: nat): (x: Fe)
    requires n <= U128_MAX
  {
    n
  }

  /** One vector of strings, collected into a `Result`: the first failure wins. */
  function ParseVector(v: seq<string>): (r: Result<seq<Fe>, FibonacciError>)
    ensures r.Ok? <==> forall i :: 0 <= i < |v| ==> ParseU128(v[i]).Ok?
    ensures r.Ok? ==> |r.value| == |v|
    ensures r.Ok? ==> forall i :: 0 <= i < |v| ==> r.value[i] == ParseU128(v[i]).value
    ensures r.Err? ==>
      && r.error.ParseFailure?
      && exists i :: 0 <= i < |v| && ParseU128(v[i]) == Err(r.error.kind) &&
           forall j :: 0 <= j < i ==> ParseU128(v[j]).Ok?
  {
    if v == [] then Ok([])
    else
      match ParseU128(v[0])
      case Err(e) => Err(ParseFailure(e))
      case Ok(n) =>
        match ParseVector(v[1..])
        case Err(e) =>
          assert forall j :: 1 <= j < |v| ==> v[j] == v[1..][j - 1];
          Err(e)
        case Ok(rest) => Ok([FromU128(n)] + rest)
  }

  /**
   * `deserialize_circuit_inputs`. The map is walked in `HashMap` order and the
   * first failure is returned, so which failing string's error is reported is
   * left open here.
   */
  ghost function DeserializeCircuitInputs(m: map<string, seq<string>>): (r: Result<map<string, seq<Fe>>, FibonacciError>)
    ensures r.Ok? <==> forall k, i :: k in m && 0 <= i < |m[k]| ==> ParseU128(m[k][i]).Ok?
    ensures r.Ok? ==> r.value.Keys == m.Keys
    ensures r.Ok? ==> forall k :: k in m ==> |r.value[k]| == |m[k]|
    ensures r.Ok? ==> forall k, i :: k in m && 0 <= i < |m[k]| ==> r.value[k][i] == ParseU128(m[k][i]).value
    ensures r.Err? ==>
      && r.error.ParseFailure?
      && exists k, i :: k in m && 0 <= i < |m[k]| && ParseU128(m[k][i]) == Err(r.error.kind)
  {
    if forall k :: k in m ==> ParseVector(m[k]).Ok? then
      Ok(map k | k in m :: ParseVector(m[k]).value)
    else
      var k :| k in m && ParseVector(m[k]).Err?;
      Err(ParseVector(m[k]).error)
  }

  /** The test vector: {"out": ["1", "2"]} becomes {"out": [1, 2]}. */
  lemma DeserializeOneTwo()
    ensures DeserializeCircuitInputs(map["out" := ["1", "2"]]) == Ok(map["out" := [1, 2]])
  {
    var m := map["out" := ["1", "2"]];
    assert DecimalValue("1") == 1 && DecimalValue("2") == 2;
    assert ParseU128("1") == Ok(1) && ParseU128("2") == Ok(2);
    var r := DeserializeCircuitInputs(m);
    assert r.Ok?;
    assert r.value.Keys == {"out"};
    assert |r.value["out"]| == 2;
    assert r.value["out"][0] == 1 && r.value["out"][1] == 2;
    assert r.value["out"] == [1, 2];
    var expected: map<string, seq<Fe>> := map["out" := [1, 2]];
    assert r.value == expected;
  }

  // ---------------------------------------------------------------------
  // The 32-byte codec

  /** What `serialize` hands the serde serializer: the declared length, then the elements. */
  datatype SerializedSeq = SerializedSeq(declaredLen: nat, elements: seq<seq<Byte>>)

  function EncodeInputs(v: seq<Fe>): SerializedSeq
  {
    SerializedSeq(|v|, seq(|v|, i requires 0 <= i < |v| => ToBytes(v[i])))
  }

  /** `Serialize for InputsSerialisationWrapper`. */
  method Serialize(v: seq<Fe>) returns (s: SerializedSeq)
    ensures s == EncodeInputs(v)
    ensures s.declaredLen == |v| && |s.elements| == |v|
    ensures forall i :: 0 <= i < |v| ==> s.elements[i] == ToBytes(v[i]) && |s.elements[i]| == ENCODED_LEN
  {
    var elements: seq<seq<Byte>> := [];
    for i := 0 to |v|
      invariant |elements| == i
      invariant forall j :: 0 <= j < i ==> elements[j] == ToBytes(v[j])
    {
      elements := elements + [ToBytes(v[i])];
    }
    s := SerializedSeq(|v|, elements);
  }

  /** An element `from_bytes` accepts: 32 bytes denoting a value below r. */
  predicate Canonical(bytes: seq<Byte>)
  {
    |bytes| == ENCODED_LEN && FromBytes(bytes).Some?
  }

  /** How `deserialize` ends: the vector, a serde error, or the `expect` panic. */
  datatype DeserializeOutcome =
    | Decoded(inputs: seq<Fe>)
    | Rejected(at: nat)   // the element is not a 32-byte array
    | Panicked(at: nat)   // "Invalid bytes"

  /** The index of the first element that is not canonical, or the length. */
  function FirstNonCanonical(elements: seq<seq<Byte>>): (k: nat)
    ensures k <= |elements|
    ensures forall j :: 0 <= j < k ==> Canonical(elements[j])
    ensures k < |elements| ==> !Canonical(elements[k])
  {
    if elements == [] then 0
    else if !Canonical(elements[0]) then 0
    else 1 + FirstNonCanonical(elements[1..])
  }

  function DecodeInputs(elements: seq<seq<Byte>>): DeserializeOutcome
  {
    var k := FirstNonCanonical(elements);
    if k == |elements| then
      Decoded(seq(|elements|, i requires 0 <= i < |elements| => FromBytes(elements[i]).value))
    else if |elements[k]| != ENCODED_LEN then Rejected(k)
    else Panicked(k)
  }

  /** `Deserialize for InputsSerialisationWrapper` (`visit_seq`). */
  method Deserialize(elements: seq<seq<Byte>>) returns (r: DeserializeOutcome)
    ensures r == DecodeInputs(elements)
    ensures r.Decoded? <==> forall i :: 0 <= i < |elements| ==> Canonical(elements[i])
    ensures r.Decoded? ==> |r.inputs| == |elements|
    ensures r.Decoded? ==> forall i :: 0 <= i < |elements| ==> ToBytes(r.inputs[i]) == elements[i]
  {
    var vec: seq<Fe> := [];
    var i := 0;
    while i < |elements|
      invariant 0 <= i <= |elements|
      invariant |vec| == i
      invariant forall j :: 0 <= j < i ==> Canonical(elements[j]) && vec[j] == FromBytes(elements[j]).value
    {
      var bytes := elements[i];
      if |bytes| != ENCODED_LEN {
        return Rejected(i);
      }
      var x := FromBytes(bytes);
      if x.None? {
        return Panicked(i);
      }
      vec := vec + [x.value];
      i := i + 1;
    }
    return Decoded(vec);
  }

  /** Round trip: decoding an encoding gives back the vector, in order. */
  lemma RoundTrip(v: seq<Fe>)
    ensures EncodeInputs(v).declaredLen == |v|
    ensures DecodeInputs(EncodeInputs(v).elements) == Decoded(v)
  {
    var elements := EncodeInputs(v).elements;
    forall i | 0 <= i < |v|
      ensures Canonical(elements[i]) && FromBytes(elements[i]).value == v[i]
    {
      DecodeEncode(v[i]);
    }
    assert FirstNonCanonical(elements) == |elements|;
  }

  /** And the other way: whatever decodes is the encoding of what it decodes to. */
  lemma DecodedIsEncoding(elements: seq<seq<Byte>>)
    requires DecodeInputs(elements).Decoded?
    ensures EncodeInputs(DecodeInputs(elements).inputs).elements == elements
  {
  }
}
