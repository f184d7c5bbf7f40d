# Fibonacci PLONKish circuit: a Dafny model

This project models the core of a sample zero-knowledge circuit. The circuit proves
knowledge of the Fibonacci sequence over the BN254 scalar field `Fr`. The project also
models the codec that carries the circuit's public input.

**The circuit** (`FibonacciChip`, `FibonacciCircuit`):

- `configure` allocates three advice columns `a, b, c`, one selector and one instance
  column. It enables equality on all four and registers the gate `s * (a + b - c)`.
- `synthesize` lays out one row per region:
  - the first row copies instance slots 0 and 1 into `a` and `b`;
  - each of the seven iterations of `3..10` copies the previous row's `b, c` into `a, b`
    and sets `c = a + b`;
  - the last `c` is bound to instance slot 2.
- The model keeps these as imperative code:
  - `Plonkish.ConstraintSystem` is a class that `configure` mutates;
  - `Fibonacci.Layouter` is a class holding the assignment table (rows of `a, b, c` and
    the selector bit) and the list of copy constraints;
  - the chip methods write into it, and `Fibonacci.Synthesize` is the loop.
- A pure predicate, `Satisfied`, says when a table, its copies and an instance column
  meet every gate and every copy constraint. `Fib` is the recurrence.
- The proofs connect the two. For seeds `(x, y)` and declared output `out`, the
  synthesised table is satisfiable exactly when `out` is term 9 of the recurrence. For
  seeds `(1, 1)` that term is 55.

**Proof generation and verification** go through an ideal backend:

- the prover records whether the witness satisfied the constraint system;
- the verifier accepts exactly when it did and the public input matches the one proved.

**The older copy** of the circuit, `src/circuit.rs`, has the same chip, `configure`,
`synthesize` and input extraction:

- src/circuit.rs:78-190 match circuit/src/circuit.rs:54-166;
- src/circuit.rs:200-249 match circuit/src/circuit.rs:176-223;
- src/circuit.rs:263-274 match circuit/src/circuit.rs:235-248, except that the older copy
  takes the circuit size `k` from the SRS (src/circuit.rs:259) where the newer one fixes
  4 (circuit/src/circuit.rs:238).

The `Fibonacci` members model all of these. Only its `verify_halo2_proof` differs, and
`LegacyCircuit` models it.

**The codec** (`circuit/src/serialisation.rs`):

- decimal strings are parsed as `u128` and mapped into `Fr`, with the error cases of
  `u128::from_str` written out;
- a vector of field elements becomes a sequence of 32-byte canonical little-endian
  encodings, and is decoded back.

**Field elements** are the integers below the BN254 scalar modulus
r = 21888242871839275222246405745257275088548364400416034343698204186575808495617.
`+`, `-` and `*` are taken modulo r.

## Model

| member | source | states |
|---|---|---|
| Field.SubZeroIff | circuit/src/circuit.rs:78 | `a + b - c` is zero in `Fr` exactly when `c = a + b` in `Fr` |
| Field.ModulusFitsEncoding | circuit/src/serialisation.rs:43 | r < 256^32, so every field element has a 32-byte encoding |
| Field.ToBytes | circuit/src/serialisation.rs:43 | `to_bytes` yields 32 bytes whose little-endian value is the element |
| Field.FromBytes | circuit/src/serialisation.rs:69 | `from_bytes` succeeds exactly when the bytes denote a value below r; the element it returns encodes back to the same bytes |
| Field.DecodeEncode | circuit/src/serialisation.rs:69 | `from_bytes(to_bytes(x)) = Some(x)` for every element |
| Field.ToBytesInjective | circuit/src/serialisation.rs:97-99 | elements with equal encodings are equal, so comparing bytes compares elements |
| Field.NonCanonicalBytesRejected | circuit/src/serialisation.rs:69 | the all-0xFF array is not a canonical encoding and is refused |
| Plonkish.ConstraintSystem.constructor | circuit/src/circuit.rs:186-188 | key generation starts from a constraint system with no columns, selectors, equality columns or gates |
| Plonkish.ConstraintSystem.AdviceColumn | circuit/src/circuit.rs:55-57 | `advice_column` returns the next advice column and changes nothing else |
| Plonkish.ConstraintSystem.NewSelector | circuit/src/circuit.rs:58 | `selector` returns the next selector and changes nothing else |
| Plonkish.ConstraintSystem.InstanceColumn | circuit/src/circuit.rs:59 | `instance_column` returns the next instance column and changes nothing else |
| Plonkish.ConstraintSystem.EnableEquality | circuit/src/circuit.rs:62-65 | `enable_equality` adds an allocated column to the permutation argument once; only allocated columns are ever in it |
| Plonkish.ConstraintSystem.CreateGate | circuit/src/circuit.rs:69-79 | `create_gate` appends a gate with at least one constraint and changes nothing else |
| Fibonacci.Configure | circuit/src/circuit.rs:54-88 | exactly 3 advice columns, 1 selector and 1 instance column are allocated; equality is enabled on `a, b, c` and the instance column in that order; the one gate `s * (a + b - c)` is registered |
| Fibonacci.ConfigureCircuit | circuit/src/circuit.rs:186-188 | on the empty constraint system the configuration is advice 0, 1, 2, selector 0 and instance 0 |
| Fibonacci.Layouter.constructor | circuit/src/circuit.rs:193-197 | synthesis starts from an empty table and no copy constraints, over the given configuration and instance column |
| Fibonacci.Layouter.AssignRegion | circuit/src/circuit.rs:98 | a one-row region is placed below every row used so far, as a blank row |
| Fibonacci.Layouter.EnableSelector | circuit/src/circuit.rs:101 | sets the selector bit of one row and nothing else |
| Fibonacci.Layouter.AssignAdvice | circuit/src/circuit.rs:119-124 | writes one advice cell and returns its handle; no copy constraint is added |
| Fibonacci.Layouter.AssignAdviceFromInstance | circuit/src/circuit.rs:103-117 | writes the instance slot's value into the advice cell and adds the copy constraint from the instance cell to it |
| Fibonacci.Layouter.CopyAdvice | circuit/src/circuit.rs:144-145 | writes the source cell's value into the target cell and adds the copy constraint from the source to it |
| Fibonacci.Layouter.ConstrainInstance | circuit/src/circuit.rs:165 | adds the copy constraint from a cell to an instance slot and leaves the table alone |
| Fibonacci.AssignFirstRow | circuit/src/circuit.rs:94-129 | appends the row `(instance[0], instance[1], instance[0] + instance[1])` with the selector on; adds the copies instance 0 → a and instance 1 → b; returns the three cells |
| Fibonacci.AssignRow | circuit/src/circuit.rs:132-157 | appends the row `(prev b, prev c, prev b + prev c)` with the selector on; adds the copies prev b → a and prev c → b; returns only the new `c` cell |
| Fibonacci.ExposePublic | circuit/src/circuit.rs:159-166 | binds the given cell to the given instance slot and leaves the table alone |
| Fibonacci.FibRecurrence | circuit/src/circuit.rs:200-207 | the sequence the loop computes satisfies term(n+2) = term(n) + term(n+1) in `Fr` |
| Fibonacci.TermRecurrence | circuit/src/circuit.rs:123 | the same recurrence over halo2 values: known terms add, and unknown inputs give unknown terms |
| Fibonacci.Synthesize | circuit/src/circuit.rs:193-212 | builds exactly 8 gated rows, row k holding terms k, k+1 and k+2; the copy constraints are the first row's two instance copies, then (previous b → a, previous c → b) for each later row, then last c → instance slot 2 |
| Fibonacci.GateMeansAddition | circuit/src/circuit.rs:78 | on a fully assigned row the gate holds exactly when the selector being on implies `c = a + b` |
| Fibonacci.RowCopiesIncluded | circuit/src/circuit.rs:203-207 | the copies of an earlier row remain among those of any longer layout |
| Fibonacci.SatisfiedRowsFollowRecurrence | circuit/src/circuit.rs:200-209 | in any assignment of the 8-row layout meeting every gate and copy constraint, row k is terms k, k+1, k+2 of the instance seeds |
| Fibonacci.SatisfiedForcesOutput | circuit/src/circuit.rs:209 | any satisfying assignment forces instance slot 2 to be term 9 of the seeds |
| Fibonacci.SynthesizedCopiesHold | circuit/src/circuit.rs:103-117 | every copy constraint of the synthesised rows holds on the synthesised table |
| Fibonacci.SynthesizedGatesHold | circuit/src/circuit.rs:119-124 | every row synthesis fills meets the "add" gate, whatever the declared output: the gates hold by construction |
| Fibonacci.SynthesizedWitnessSatisfiedIff | circuit/src/circuit.rs:193-212 | the witness synthesis builds satisfies every gate and copy constraint if and only if the declared output is term 9 of the seeds |
| Fibonacci.FibonacciOfOneOne | circuit/src/circuit.rs:361 | term 9 of the seeds (1, 1) is 55 |
| Fibonacci.WithoutWitnesses | circuit/src/circuit.rs:181-183 | the key-generation circuit is the default one, with no public input |
| Fibonacci.InstanceValues | circuit/src/circuit.rs:220-222 | at key generation no instance value is known; when proving, the instance column holds the circuit's public input |
| Fibonacci.LayoutIndependentOfInputs | circuit/src/circuit.rs:181-212 | whatever the public input and mode, the layout has the same 8 gated rows as the key-generation layout, whose values are all unknown |
| Fibonacci.CopiesUseEqualityColumns | circuit/src/circuit.rs:62-65 | every copy constraint of the layout joins columns that `configure` enabled equality on |
| Fibonacci.CopiesUpToColumns | circuit/src/circuit.rs:144-145 | the per-row copy constraints only join `a, b, c` and the instance column |
| Fibonacci.PublicInput | circuit/src/circuit.rs:235-248 | fails exactly when `"out"` is missing or empty; otherwise the public input is `[1, 1, out[0]]` |
| Fibonacci.GenerateHalo2Proof | circuit/src/circuit.rs:225-272 | succeeds exactly when the input extraction does; returns the public input and a proof made for it |
| Fibonacci.VerifyHalo2Proof | circuit/src/circuit.rs:274-293 | `Ok(true)` exactly when the backend accepts, otherwise the verification error |
| Fibonacci.GenerateThenVerify | circuit/src/circuit.rs:416-453 | for any input map with an `"out"` value, generation succeeds, and verification of the result is `Ok(true)` exactly when `out[0] = 55` |
| Fibonacci.PublicInputMismatchRejected | circuit/src/circuit.rs:381-413 | the proof for (1, 1, 55) verifies against (1, 1, 55) and is rejected against (1, 1, 56) |
| LegacyCircuit.VerifyHalo2Proof | src/circuit.rs:311-346 | the older verifier returns `Ok(true)` whatever the backend decides |
| LegacyCircuit.AcceptsWrongOutput | src/circuit.rs:331-345 | for `{"out": [56]}` the backend rejects the generated proof, yet the older verifier returns `Ok(true)` |
| Serialisation.DecimalValueFront | circuit/src/serialisation.rs:24 | a digit string's value is its leading digit times a power of ten plus the value of the rest |
| Serialisation.Accumulate | circuit/src/serialisation.rs:24 | the digit loop of `u128::from_str` reports only `InvalidDigit` or `PosOverflow` |
| Serialisation.AccumulateMeaning | circuit/src/serialisation.rs:24 | the checked left-to-right loop succeeds exactly when every character is a digit and the decimal value fits in a `u128`, and then yields that value |
| Serialisation.ParseU128 | circuit/src/serialisation.rs:24-26 | accepts exactly an optional `+` followed by a non-empty run of digits whose value is at most 2^128 - 1, and returns that value; the error is `Empty` exactly for the empty string |
| Serialisation.ParseVector | circuit/src/serialisation.rs:20-29 | succeeds exactly when every string parses, keeping length and order, element i being the parsed value; otherwise it reports the first failing string's error |
| Serialisation.DeserializeCircuitInputs | circuit/src/serialisation.rs:14-34 | succeeds exactly when every string of every vector parses; then the key set, each vector's length and order, and each value are preserved; otherwise the error is that of some failing string, and no partial map is returned |
| Serialisation.DeserializeOneTwo | circuit/src/serialisation.rs:103-111 | `{"out": ["1", "2"]}` becomes `{"out": [1, 2]}` |
| Serialisation.Serialize | circuit/src/serialisation.rs:36-47 | the declared length is the vector's length and element i is the 32-byte encoding of v[i] |
| Serialisation.FirstNonCanonical | circuit/src/serialisation.rs:68-70 | the index where decoding stops: every earlier element is a canonical encoding and this one is not |
| Serialisation.Deserialize | circuit/src/serialisation.rs:63-72 | decodes every element in order when all are canonical 32-byte encodings, each decoded element re-encoding to its bytes; otherwise it stops at the first bad element with a serde error (wrong length) or the `Invalid bytes` panic |
| Serialisation.RoundTrip | circuit/src/serialisation.rs:87-100 | deserialising a serialised vector gives back the same vector, of the same length, in order |
| Serialisation.DecodedIsEncoding | circuit/src/serialisation.rs:63-72 | whatever decodes is exactly the encoding of what it decodes to |

## Left out

- Proving backends, commitment schemes and transcripts are left out: HyperPlonk, Gemini, KZG, SHPLONK, Keccak256 and Blake2b. They are foreign cryptographic libraries.
  - Proof generation and verification go through `Fibonacci.Prove` and `Fibonacci.BackendVerify`, an ideal backend.
  - That backend accepts a proof exactly when the prover's witness satisfied the constraint system and the public input equals the one proved.
  - The real backend's error values, such as the sumcheck consistency failure, collapse into one verification error.
- The randomness passed to the prover and verifier, the circuit size `k`, and the `Halo2Circuit` wrapper are left out.
- SRS and key files, bincode framing and JSON are left out. They are I/O or library serialisers.
  - `Serialisation.Serialize` models the sequence handed to the serializer: a declared length and the element arrays.
  - `Serialisation.Deserialize` models the sequence of element arrays handed to the visitor.
- The `prove`/`verify` wrappers, key generators, binaries, integration tests and `dev-graph` plotting are not part of this model. They are glue, process handling or rendering.
- The older copy takes the circuit size `k` from the SRS (src/circuit.rs:259, 284) instead of fixing 4. `k` is left out, as above. Its `println!` calls are output only.
- The Montgomery representation of `Fr` is left out. The 32-byte encoding is the canonical little-endian one.
- `Serialisation.DeserializeCircuitInputs` is a ghost function, and it does not say which failing string's error is reported. The source walks a `HashMap` in an unspecified order and returns the first error met. Within one vector, `Serialisation.ParseVector` does pin the first failing string.
- The error messages of `FibonacciError` are strings in the source. Here they are the kinds `MissingOut`, `ParseFailure` (with the `u128` error kind) and `VerifyingProofError`.
- The table has 8 gated rows: the first row plus the 7 iterations of `3..10`. It has no ninth gated row, and its last `c` is the sequence's term with index 9, as the source comments it (`F[9]`).
- Region placement follows the simple floor planner: one region per row, in call order. Other floor planners are not modelled.
- `rand` in `CircuitExt` is left out. It is `unimplemented!()` and never called.

## Findings

| source | as written | input that shows it | evidently intended | confidence | as-written member | corrected member |
|---|---|---|---|---|---|---|
| src/circuit.rs:331-345 | `verify_halo2_proof` runs the backend, prints its result and returns `Ok(true)` unconditionally | the proof generated from `{"out": [56]}`, checked against public input `[1, 1, 56]` | return `Ok(true)` only when the backend accepts, and the verification error otherwise, as circuit/src/circuit.rs:287-292 does | high, not executed | LegacyCircuit.AcceptsWrongOutput | Fibonacci.VerifyHalo2Proof |
