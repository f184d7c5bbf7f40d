/**
 * The older copy of the circuit (src/circuit.rs). Its chip, `configure`,
 * `synthesize` and the input extraction of `generate_halo2_proof` are the
 * same as those of the Fibonacci module; only `verify_halo2_proof` differs:
 * it runs the backend, prints the result and returns `Ok(true)` regardless.
 */
module LegacyCircuit {
  import opened Wrappers
  import opened Field
  import opened Errors
  import Fibonacci

  /** `verify_halo2_proof` of the older copy: the backend's verdict is dropped. */
  function VerifyHalo2Proof(proof: Fibonacci.Proof, inputs: seq<Fe>): (r: Result<bool, FibonacciError>)
    ensures r == Ok(true)
  {
    var verdict := Fibonacci.BackendVerify(proof, inputs);
    Ok(true)
  }

  /**
   * The older verifier accepts the proof generated for the wrong output 56,
   * which the backend, and the newer verifier, reject.
   */
  lemma AcceptsWrongOutput()
    ensures var generated := Fibonacci.GenerateHalo2Proof(map["out" := [56]]);
      && generated.Ok?
      && !Fibonacci.BackendVerify(generated.value.0, generated.value.1)
      && Fibonacci.VerifyHalo2Proof(generated.value.0, generated.value.1) == Err(VerifyingProofError)
      && VerifyHalo2Proof(generated.value.0, generated.value.1) == Ok(true)
  {
    Fibonacci.GenerateThenVerify(map["out" := [56]]);
  }
}
