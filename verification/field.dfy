/**
 * The scalar field Fr of the BN254 curve, and its canonical 32-byte encoding.
 * Only addition, subtraction and multiplication are used by the circuit.
 */
module Field {
  import opened Wrappers

  /** The order r of the BN254 scalar field. */
  const P: nat := 21888242871839275222246405745257275088548364400416034343698204186575808495617

  /** A field element, in canonical form. */
  type Fe = x: int | 0 <= x < P

  type Byte = x: int | 0 <= x < 256

  /** Width in bytes of a field element's encoding. */
  const ENCODED_LEN: nat := 32

  function Add(x: Fe, y: Fe): Fe { (x + y) % P }

  function Sub(x: Fe, y: Fe): Fe { (x - y) % P }

  function Mul(x: Fe, y: Fe): Fe { (x * y) % P }

  /** a - b is zero in the field exactly when a and b are the same element. */
  lemma SubZeroIff(x: Fe, y: Fe)
    ensures Sub(x, y) == 0 <==> x == y
  {
    if x != y {
      assert -(P as int) < x - y < P;
    }
  }

  // ---------------------------------------------------------------------
  // Little-endian byte strings

  function Pow256(n: nat): (r: nat)
    ensures r > 0
  {
    if n == 0 then 1 else 256 * Pow256(n - 1)
  }

  /** 2^256, the number of distinct 32-byte strings, exceeds the modulus. */
  lemma ModulusFitsEncoding()
    ensures P < Pow256(ENCODED_LEN)
  {
    Pow256Add(1, 1);
    Pow256Add(2, 2);
    Pow256Add(4, 4);
    Pow256Add(8, 8);
    Pow256Add(16, 16);
    assert Pow256(32) == 0x1_0000_0000_0000_0000_0000_0000_0000_0000_0000_0000_0000_0000_0000_0000_0000_0000;
  }

  lemma {:induction false} Pow256Add(m: nat, n: nat)
    ensures Pow256(m + n) == Pow256(m) * Pow256(n)
  {
    if m > 0 {
      Pow256Add(m - 1, n);
    }
  }

  /** The number a little-endian byte string denotes. */
  function LeValue(bs: seq<Byte>): nat
  {
    if bs == [] then 0 else bs[0] + 256 * LeValue(bs[1..])
  }

  /** The n low-order bytes of x, least significant first. */
  function LeBytes(x: nat, n: nat): (bs: seq<Byte>)
    ensures |bs| == n
  {
    if n == 0 then [] else [x % 256] + LeBytes(x / 256, n - 1)
  }

  lemma {:induction false} LeBytesThenValue(x: nat, n: nat)
    requires x < Pow256(n)
    ensures LeValue(LeBytes(x, n)) == x
  {
    if n > 0 {
      LeBytesThenValue(x / 256, n - 1);
      assert LeBytes(x, n)[1..] == LeBytes(x / 256, n - 1);
    }
  }

  lemma {:induction false} LeValueThenBytes(bs: seq<Byte>)
    ensures LeBytes(LeValue(bs), |bs|) == bs
  {
    if bs != [] {
      LeValueThenBytes(bs[1..]);
      ByteDigits(bs[0], LeValue(bs[1..]));
    }
  }

  /** The low byte and the rest of b + 256 * r. */
  lemma ByteDigits(b: Byte, r: nat)
    ensures (b + 256 * r) % 256 == b && (b + 256 * r) / 256 == r
  {
  }

  /** The n-byte string of all 0xff bytes denotes 256^n - 1. */
  lemma {:induction false} AllOnesValue(n: nat)
    ensures LeValue(seq(n, _ => 255)) == Pow256(n) - 1
  {
    if n > 0 {
      AllOnesValue(n - 1);
      assert seq(n, _ => 255)[1..] == seq(n - 1, _ => 255);
    }
  }

  // ---------------------------------------------------------------------
  // The canonical encoding

  /** Fr::to_bytes: the canonical little-endian encoding. */
  function ToBytes(x: Fe): (bs: seq<Byte>)
    ensures |bs| == ENCODED_LEN
    ensures LeValue(bs) == x
  {
    ModulusFitsEncoding();
    LeBytesThenValue(x, ENCODED_LEN);
    LeBytes(x, ENCODED_LEN)
  }

  /** Fr::from_bytes: defined exactly on canonical encodings (value below r). */
  function FromBytes(bs: seq<Byte>): (r: Option<Fe>)
    requires |bs| == ENCODED_LEN
    ensures r.Some? <==> LeValue(bs) < P
    ensures r.Some? ==> ToBytes(r.value) == bs
  {
    var v := LeValue(bs);
    if v < P then
      LeValueThenBytes(bs);
      Some(v)
    else
      None
  }

  /** Decoding an encoding gives back the element. */
  lemma DecodeEncode(x: Fe)
    ensures FromBytes(ToBytes(x)) == Some(x)
  {
  }

  /** Distinct elements have distinct encodings. */
  lemma ToBytesInjective(x: Fe, y: Fe)
    requires ToBytes(x) == ToBytes(y)
    ensures x == y
  {
    DecodeEncode(x);
    DecodeEncode(y);
  }

  /** Not every 32-byte array is an encoding: all 0xff bytes exceed r. */
  lemma NonCanonicalBytesRejected()
    ensures FromBytes(seq(ENCODED_LEN, _ => 255)) == None
  {
    AllOnesValue(ENCODED_LEN);
    ModulusFitsEncoding();
  }
}
