/** What a reproduction records: which of the original's inputs it takes over, and which it replaces. */
module Reproduction {
  import opened Bridge
  import opened CanonicalJson
  import opened Digests
  import opened Ledger
  import opened Push
  import opened Qiskit
  import opened RunIdentity
  import opened Statevector
  import opened Wrappers

  /**
   reproduce_run on the original's own backend row: the stored circuit, shots and seeds again, against a drifted
   calibration, always at optimization level 1 and with counts of its own.
   */
  function Reproduce(w: World, r: Request, row: Backend, drifted: Value, engine: string): Request {
    IrRoundTrip(w.gates, ToIr(r.circuit));
    Request(Rebuilt(IrOf(IrToDict(ToIr(r.circuit)))), r.key, row.kind, row.basis, row.coupling, drifted,
            r.shots, r.shots, Or(Some(r.seed), 1337), Or(Some(r.seedTranspiler), 42), 1, engine, None)
  }

  /**
   The reproduction hashes the original's circuit and shots; it hashes the original's seeds exactly when they are not
   zero, and its execution parameters exactly when the original ran on the same engine at level 1.
   */
  lemma ReproducedInputs(w: World, r: Request, row: Backend, drifted: Value, engine: string, identity: Digest)
    requires NoDirectives(w.gates) && WellFormedIr(w.gates, ToIr(r.circuit))
    ensures var a, b := InputsOf(w, r, row.identity), InputsOf(w, Reproduce(w, r, row, drifted, engine), identity);
            && b.circuit == a.circuit && b.shots == a.shots
            && (b.seedSimulator == a.seedSimulator <==> r.seed != 0)
            && (b.seedTranspiler == a.seedTranspiler <==> r.seedTranspiler != 0)
            && (b.executionParams == a.executionParams <==> r.level == 1 && r.engine == engine)
  {
    IrRoundTrip(w.gates, ToIr(r.circuit));
    RebuiltIsSame(w.gates, ToIr(r.circuit));
    var p, q := ParamFields(r.level, r.engine), ParamFields(1, engine);
    assert p == q ==> p[0].value == q[0].value && p[1].value == q[1].value;
  }

  /** With such an original it also hashes the same transpiled circuit, if the captured one is restorable. */
  lemma ReproducedCompilation(w: World, r: Request, row: Backend, drifted: Value, engine: string, identity: Digest)
    requires NoDirectives(w.gates) && WellFormedIr(w.gates, ToIr(r.circuit)) && Restorable(r.circuit)
    requires r.basis == row.basis && r.coupling == row.coupling && r.level == 1 && r.seedTranspiler != 0
    ensures InputsOf(w, Reproduce(w, r, row, drifted, engine), identity).compilation ==
            InputsOf(w, r, row.identity).compilation
  {
    IrRoundTrip(w.gates, ToIr(r.circuit));
    RebuiltIsSame(w.gates, ToIr(r.circuit));
    PreparedIsPortable(r.circuit);
  }
}
