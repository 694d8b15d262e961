/**
 Qiskit circuits as the ledger sees them: their registers and operations, the intermediate form, and what is left
 of a circuit for the transpiler once its final measurements are removed.
 */
module Qiskit {
  import opened Statevector

  /** An operation with the classical bits it touches; measurements and barriers are operations like gates. */
  datatype Op = Op(gate: Gate, clbits: seq<nat>)

  datatype Register = Register(name: string, bits: seq<nat>)

  datatype QCircuit = QCircuit(
    nQubits: nat,
    qregs: seq<Register>,
    clbits: set<nat>,
    cregs: seq<Register>,
    phase: real,
    ops: seq<Op>)

  predicate IsDirective(op: Op) {
    op.gate.name == "measure" || op.gate.name == "barrier"
  }

  // --- the intermediate form ---------------------------------------------------------------------

  function NonDirectives(ops: seq<Op>): seq<Op> {
    if ops == [] then []
    else
      var last := ops[|ops| - 1];
      NonDirectives(ops[..|ops| - 1]) + (if IsDirective(last) then [] else [last])
  }

  function GatesOf(ops: seq<Op>): seq<Gate> {
    seq(|ops|, i requires 0 <= i < |ops| => ops[i].gate)
  }

  /** The intermediate form keeps the gates; registers, classical bits and the global phase are dropped. */
  function ToIr(qc: QCircuit): Circuit {
    Circuit(qc.nQubits, GatesOf(NonDirectives(qc.ops)))
  }

  lemma {:induction false} NonDirectiveIff(ops: seq<Op>, op: Op)
    ensures op in NonDirectives(ops) <==> op in ops && !IsDirective(op)
  {
    if ops != [] {
      var n := |ops| - 1;
      NonDirectiveIff(ops[..n], op);
      assert ops == ops[..n] + [ops[n]];
    }
  }

  /** qiskit_to_ir */
  method QiskitToIr(qc: QCircuit) returns (ir: Circuit)
    ensures ir == ToIr(qc)
  {
    var gates: seq<Gate> := [];
    for i := 0 to |qc.ops|
      invariant gates == GatesOf(NonDirectives(qc.ops[..i]))
    {
      assert qc.ops[..i + 1][..i] == qc.ops[..i];
      if !IsDirective(qc.ops[i]) {
        gates := gates + [qc.ops[i].gate];
      }
    }
    assert qc.ops[..|qc.ops|] == qc.ops;
    ir := Circuit(qc.nQubits, gates);
  }

  // --- rebuilding a circuit ------------------------------------------------------------------------

  function Plain(gates: seq<Gate>): seq<Op> {
    seq(|gates|, i requires 0 <= i < |gates| => Op(gates[i], []))
  }

  /** The one register of QuantumCircuit(n). */
  function DefaultRegisters(n: nat): seq<Register> {
    if n == 0 then [] else [Register("q", seq(n, i requires 0 <= i < n => i))]
  }

  /** QuantumCircuit(n) with the gates appended: no classical bits and no phase. */
  function Rebuilt(ir: Circuit): QCircuit {
    QCircuit(ir.nQubits, DefaultRegisters(ir.nQubits), {}, [], 0.0, Plain(ir.gates))
  }

  // --- what the transpiler is given ------------------------------------------------------------------

  predicate Touches(op: Op, qubits: set<nat>) {
    exists i :: 0 <= i < |op.gate.qubits| && op.gate.qubits[i] in qubits
  }

  function QubitsOf(op: Op): set<nat> {
    set i | 0 <= i < |op.gate.qubits| :: op.gate.qubits[i]
  }

  function BitsOf(bits: seq<nat>): set<nat> {
    set i | 0 <= i < |bits| :: bits[i]
  }

  /** Removes the measurements and barriers that nothing else follows on their qubits. */
  function StripFinal(ops: seq<Op>, blocked: set<nat>): seq<Op>
    decreases |ops|
  {
    if ops == [] then []
    else
      var last := ops[|ops| - 1];
      if IsDirective(last) && !Touches(last, blocked) then StripFinal(ops[..|ops| - 1], blocked)
      else StripFinal(ops[..|ops| - 1], blocked + QubitsOf(last)) + [last]
  }

  /** The classical bits of the removed operations. */
  function Freed(ops: seq<Op>, blocked: set<nat>): set<nat>
    decreases |ops|
  {
    if ops == [] then {}
    else
      var last := ops[|ops| - 1];
      if IsDirective(last) && !Touches(last, blocked) then Freed(ops[..|ops| - 1], blocked) + BitsOf(last.clbits)
      else Freed(ops[..|ops| - 1], blocked + QubitsOf(last))
  }

  function Used(ops: seq<Op>): set<nat> {
    if ops == [] then {} else Used(ops[..|ops| - 1]) + BitsOf(ops[|ops| - 1].clbits)
  }

  /** The classical bits that some measurement writes. */
  function Measured(ops: seq<Op>): set<nat> {
    if ops == [] then {}
    else Measured(ops[..|ops| - 1]) + (if IsDirective(ops[|ops| - 1]) then BitsOf(ops[|ops| - 1].clbits) else {})
  }

  predicate FallsIdle(r: Register, idle: set<nat>) {
    r.bits != [] && BitsOf(r.bits) <= idle
  }

  function KeptRegisters(cregs: seq<Register>, idle: set<nat>): seq<Register> {
    if cregs == [] then []
    else
      var last := cregs[|cregs| - 1];
      KeptRegisters(cregs[..|cregs| - 1], idle) + (if FallsIdle(last, idle) then [] else [last])
  }

  function RegisterBits(cregs: seq<Register>): set<nat> {
    if cregs == [] then {} else RegisterBits(cregs[..|cregs| - 1]) + BitsOf(cregs[|cregs| - 1].bits)
  }

  /**
   What execute() hands to the transpiler: with classical bits, the circuit without its final measurements and
   without the registers and bits that fall idle with them; all other registers stay declared.
   */
  function Prepared(qc: QCircuit): QCircuit {
    if qc.clbits == {} then qc
    else
      var kept := StripFinal(qc.ops, {});
      var idle := Freed(qc.ops, {}) - Used(kept);
      var cregs := KeptRegisters(qc.cregs, idle);
      qc.(clbits := qc.clbits - (idle - RegisterBits(cregs)), cregs := cregs, ops := kept)
  }

  // --- when capture and replay agree ---------------------------------------------------------------------

  predicate NoneInterior(ops: seq<Op>) {
    forall i, j :: 0 <= i < j < |ops| && IsDirective(ops[i]) && !IsDirective(ops[j]) ==>
      !Touches(ops[i], QubitsOf(ops[j]))
  }

  predicate HasDirective(ops: seq<Op>) {
    exists i :: 0 <= i < |ops| && IsDirective(ops[i])
  }

  predicate Unconditioned(ops: seq<Op>) {
    forall op :: op in ops && !IsDirective(op) ==> op.clbits == []
  }

  predicate AllMeasured(cregs: seq<Register>, measured: set<nat>) {
    forall i :: 0 <= i < |cregs| ==> FallsIdle(cregs[i], measured)
  }

  /**
   The circuit has the default qubit register and no phase; its gates read no classical bit; measurements and barriers
   come last on their qubits, and every classical bit and register takes the outcome of such a measurement.
   */
  predicate Restorable(qc: QCircuit) {
    && qc.qregs == DefaultRegisters(qc.nQubits) && qc.phase == 0.0
    && Unconditioned(qc.ops) && NoneInterior(qc.ops) && (qc.clbits == {} ==> !HasDirective(qc.ops))
    && qc.clbits <= Measured(qc.ops) && AllMeasured(qc.cregs, Measured(qc.ops))
  }

  lemma {:induction false} StripsAll(ops: seq<Op>, blocked: set<nat>)
    requires NoneInterior(ops)
    requires forall i :: 0 <= i < |ops| && IsDirective(ops[i]) ==> !Touches(ops[i], blocked)
    ensures StripFinal(ops, blocked) == NonDirectives(ops) && Freed(ops, blocked) == Measured(ops)
    decreases |ops|
  {
    if ops != [] {
      var n := |ops| - 1;
      if IsDirective(ops[n]) {
        StripsAll(ops[..n], blocked);
      } else {
        forall i | 0 <= i < n && IsDirective(ops[i])
          ensures !Touches(ops[i], blocked + QubitsOf(ops[n]))
        {
          assert !Touches(ops[i], blocked) && !Touches(ops[i], QubitsOf(ops[n]));
        }
        StripsAll(ops[..n], blocked + QubitsOf(ops[n]));
      }
    }
  }

  lemma TouchesMore(op: Op, fewer: set<nat>, more: set<nat>)
    requires Touches(op, fewer) && fewer <= more
    ensures Touches(op, more)
  {
    var i :| 0 <= i < |op.gate.qubits| && op.gate.qubits[i] in fewer;
    assert op.gate.qubits[i] in more;
  }

  lemma {:induction false} StripKeepsBlocked(ops: seq<Op>, blocked: set<nat>, i: nat)
    requires i < |ops| && IsDirective(ops[i]) && Touches(ops[i], blocked)
    ensures HasDirective(StripFinal(ops, blocked))
    decreases |ops|
  {
    var n := |ops| - 1;
    var stripped := StripFinal(ops, blocked);
    if i == n {
      assert IsDirective(stripped[|stripped| - 1]);
    } else {
      if IsDirective(ops[n]) && !Touches(ops[n], blocked) {
        StripKeepsBlocked(ops[..n], blocked, i);
      } else {
        TouchesMore(ops[i], blocked, blocked + QubitsOf(ops[n]));
        StripKeepsBlocked(ops[..n], blocked + QubitsOf(ops[n]), i);
        var k :| 0 <= k < |stripped| - 1 && IsDirective(stripped[..|stripped| - 1][k]);
        assert IsDirective(stripped[k]);
      }
    }
  }

  lemma {:induction false} StripKeepsInterior(ops: seq<Op>, blocked: set<nat>, i: nat, j: nat)
    requires i < j < |ops| && IsDirective(ops[i]) && !IsDirective(ops[j]) && Touches(ops[i], QubitsOf(ops[j]))
    ensures HasDirective(StripFinal(ops, blocked))
    decreases |ops|
  {
    var n := |ops| - 1;
    var stripped := StripFinal(ops, blocked);
    if IsDirective(ops[n]) && !Touches(ops[n], blocked) {
      StripKeepsInterior(ops[..n], blocked, i, j);
    } else {
      if j == n {
        TouchesMore(ops[i], QubitsOf(ops[n]), blocked + QubitsOf(ops[n]));
        StripKeepsBlocked(ops[..n], blocked + QubitsOf(ops[n]), i);
      } else {
        StripKeepsInterior(ops[..n], blocked + QubitsOf(ops[n]), i, j);
      }
      var k :| 0 <= k < |stripped| - 1 && IsDirective(stripped[..|stripped| - 1][k]);
      assert IsDirective(stripped[k]);
    }
  }

  /** Stripping leaves no measurement or barrier exactly when none is followed by a gate on its qubits. */
  lemma {:induction false} StripsAllIff(ops: seq<Op>)
    ensures !HasDirective(StripFinal(ops, {})) <==> NoneInterior(ops)
    ensures NoneInterior(ops) ==> StripFinal(ops, {}) == NonDirectives(ops) && Freed(ops, {}) == Measured(ops)
  {
    if NoneInterior(ops) {
      assert forall op :: !Touches(op, {});
      StripsAll(ops, {});
      forall i | 0 <= i < |NonDirectives(ops)|
        ensures !IsDirective(NonDirectives(ops)[i])
      {
        NonDirectiveIff(ops, NonDirectives(ops)[i]);
      }
    } else {
      var i, j :| 0 <= i < j < |ops| && IsDirective(ops[i]) && !IsDirective(ops[j]) &&
          Touches(ops[i], QubitsOf(ops[j]));
      StripKeepsInterior(ops, {}, i, j);
    }
  }

  lemma {:induction false} WithoutDirectives(ops: seq<Op>)
    requires !HasDirective(ops)
    ensures NonDirectives(ops) == ops && Measured(ops) == {}
  {
    if ops != [] {
      var n := |ops| - 1;
      assert forall i :: 0 <= i < n ==> ops[..n][i] == ops[i];
      assert !IsDirective(ops[n]);
      WithoutDirectives(ops[..n]);
      assert ops == ops[..n] + [ops[n]];
    }
  }

  lemma PlainGates(gates: seq<Gate>)
    requires forall i :: 0 <= i < |gates| ==> !IsDirective(Op(gates[i], []))
    ensures GatesOf(NonDirectives(Plain(gates))) == gates
  {
    var ops := Plain(gates);
    assert forall i :: 0 <= i < |ops| ==> ops[i] == Op(gates[i], []);
    WithoutDirectives(ops);
    assert GatesOf(ops) == gates;
  }

  /** The gates alone make up the operations exactly when no gate reads a classical bit. */
  lemma {:induction false} PlainIff(ops: seq<Op>)
    ensures NonDirectives(ops) == Plain(GatesOf(NonDirectives(ops))) <==> Unconditioned(ops)
  {
    var kept := NonDirectives(ops);
    if kept == Plain(GatesOf(kept)) {
      forall op | op in ops && !IsDirective(op)
        ensures op.clbits == []
      {
        NonDirectiveIff(ops, op);
        var i :| 0 <= i < |kept| && kept[i] == op;
        assert Plain(GatesOf(kept))[i].clbits == [];
      }
    }
    if Unconditioned(ops) {
      forall i | 0 <= i < |kept|
        ensures kept[i] == Plain(GatesOf(kept))[i]
      {
        NonDirectiveIff(ops, kept[i]);
      }
    }
  }

  lemma {:induction false} PlainUsesNothing(gates: seq<Gate>, n: nat)
    requires n <= |gates|
    ensures Used(Plain(gates)[..n]) == {}
  {
    if n > 0 {
      PlainUsesNothing(gates, n - 1);
      assert Plain(gates)[..n][..n - 1] == Plain(gates)[..n - 1];
    }
  }

  lemma {:induction false} NoRegisterKeptIff(cregs: seq<Register>, idle: set<nat>)
    ensures KeptRegisters(cregs, idle) == [] <==> AllMeasured(cregs, idle)
  {
    if cregs != [] {
      var n := |cregs| - 1;
      NoRegisterKeptIff(cregs[..n], idle);
      assert forall i :: 0 <= i < n ==> cregs[..n][i] == cregs[i];
      if AllMeasured(cregs[..n], idle) && FallsIdle(cregs[n], idle) {
        forall i | 0 <= i < |cregs|
          ensures FallsIdle(cregs[i], idle)
        {
          assert i < n ==> FallsIdle(cregs[..n][i], idle);
        }
      }
      if AllMeasured(cregs, idle) {
        forall i | 0 <= i < n
          ensures FallsIdle(cregs[..n][i], idle)
        {
          assert FallsIdle(cregs[i], idle);
        }
      }
    }
  }

  lemma NothingLeft(a: set<nat>, b: set<nat>)
    ensures a - b == {} <==> a <= b
  {
    if !(a <= b) {
      var x :| x in a && x !in b;
      assert x in a - b;
    }
  }

  lemma WithClassicalBits(qc: QCircuit)
    requires qc.clbits != {} && NoneInterior(qc.ops) && Unconditioned(qc.ops)
    ensures Prepared(qc).ops == Plain(ToIr(qc).gates)
    ensures Prepared(qc).cregs == [] && Prepared(qc).clbits == {} <==>
            qc.clbits <= Measured(qc.ops) && AllMeasured(qc.cregs, Measured(qc.ops))
  {
    var gates := ToIr(qc).gates;
    StripsAllIff(qc.ops);
    PlainIff(qc.ops);
    PlainUsesNothing(gates, |gates|);
    assert Plain(gates)[..|gates|] == Plain(gates);
    NoRegisterKeptIff(qc.cregs, Measured(qc.ops));
    var measured := Measured(qc.ops);
    assert Freed(qc.ops, {}) - Used(StripFinal(qc.ops, {})) == measured;
    if AllMeasured(qc.cregs, measured) {
      assert Prepared(qc).clbits == qc.clbits - measured;
      NothingLeft(qc.clbits, measured);
    }
  }

  /** The transpiler is given the same circuit at capture and at replay exactly when the captured one is restorable. */
  lemma PreparedIsPortable(qc: QCircuit)
    ensures Prepared(qc) == Rebuilt(ToIr(qc)) <==> Restorable(qc)
  {
    PlainIff(qc.ops);
    var rebuilt := Rebuilt(ToIr(qc));
    assert forall i :: 0 <= i < |rebuilt.ops| ==> rebuilt.ops[i].gate == NonDirectives(qc.ops)[i].gate;
    assert !HasDirective(rebuilt.ops) by {
      if i :| 0 <= i < |rebuilt.ops| && IsDirective(rebuilt.ops[i]) {
        NonDirectiveIff(qc.ops, NonDirectives(qc.ops)[i]);
      }
    }
    if qc.clbits == {} {
      if !HasDirective(qc.ops) {
        WithoutDirectives(qc.ops);
        NoneInteriorWithout(qc.ops);
        NoRegisterKeptIff(qc.cregs, {});
        NothingFallsIdle(qc.cregs);
      }
    } else {
      StripsAllIff(qc.ops);
      if NoneInterior(qc.ops) && Unconditioned(qc.ops) {
        WithClassicalBits(qc);
      }
    }
  }

  lemma NoneInteriorWithout(ops: seq<Op>)
    requires !HasDirective(ops)
    ensures NoneInterior(ops)
  {}

  lemma {:induction false} NothingFallsIdle(cregs: seq<Register>)
    ensures KeptRegisters(cregs, {}) == cregs
  {
    if cregs != [] {
      var n := |cregs| - 1;
      NothingFallsIdle(cregs[..n]);
      assert cregs[n].bits != [] ==> cregs[n].bits[0] in BitsOf(cregs[n].bits);
      assert cregs == cregs[..n] + [cregs[n]];
    }
  }

  // --- two captures ----------------------------------------------------------------------------------------

  function Named(name: string, qubits: seq<nat>): Op {
    Op(Gate(name, qubits, []), [])
  }

  function Measure(q: nat, c: nat): Op {
    Op(Gate("measure", [q], []), [c])
  }

  /** h(0), cx(0, 1) and measure_all(), which adds a register of its own. */
  function BellPair(clbits: set<nat>, cregs: seq<Register>): QCircuit {
    QCircuit(2, DefaultRegisters(2), clbits + {2, 3}, cregs + [Register("meas", [2, 3])], 0.0,
             [Named("h", [0]), Named("cx", [0, 1]), Named("barrier", [0, 1]), Measure(0, 2), Measure(1, 3)])
  }

  /** The capture in the client's own documentation starts from QuantumCircuit(2, 2). */
  const DOCUMENTED := BellPair({0, 1}, [Register("c", [0, 1])])

  /** The same from QuantumCircuit(2). */
  const PLAIN_BELL := BellPair({}, [])

  lemma OneBit(b: nat)
    ensures BitsOf([b]) == {b}
  {
    assert [b][0] == b;
  }

  lemma BellPairMeasures(clbits: set<nat>, cregs: seq<Register>)
    ensures Measured(BellPair(clbits, cregs).ops) == {2, 3}
    ensures ToIr(BellPair(clbits, cregs)) == Circuit(2, [Gate("h", [0], []), Gate("cx", [0, 1], [])])
  {
    var ops := BellPair(clbits, cregs).ops;
    assert ops[..4][..3] == ops[..3] && ops[..3][..2] == ops[..2] && ops[..2][..1] == ops[..1] && ops[..1][..0] == [];
    assert NonDirectives(ops[..1]) == ops[..1] && NonDirectives(ops[..2]) == ops[..2];
    assert NonDirectives(ops[..3]) == ops[..2] && NonDirectives(ops[..4]) == ops[..2] && NonDirectives(ops) == ops[..2];
    OneBit(2);
    OneBit(3);
    assert Measured(ops[..1]) == {} && Measured(ops[..2]) == {} && Measured(ops[..3]) == {} &&
           Measured(ops[..4]) == {2};
  }

  lemma BellPairShape(clbits: set<nat>, cregs: seq<Register>)
    ensures Unconditioned(BellPair(clbits, cregs).ops) && NoneInterior(BellPair(clbits, cregs).ops)
  {}

  /** Register c is measured by nobody, so the documented capture is not restorable. */
  lemma DocumentedCapture()
    ensures !Restorable(DOCUMENTED)
  {
    BellPairMeasures({0, 1}, [Register("c", [0, 1])]);
    assert 0 in DOCUMENTED.clbits && 0 !in Measured(DOCUMENTED.ops);
  }

  /** Without that register it is. */
  lemma PlainCapture()
    ensures Restorable(PLAIN_BELL) && ToIr(PLAIN_BELL) == ToIr(DOCUMENTED)
  {
    BellPairMeasures({0, 1}, [Register("c", [0, 1])]);
    BellPairMeasures({}, []);
    BellPairShape({}, []);
    var meas := PLAIN_BELL.cregs[0];
    assert BitsOf(meas.bits) <= {2, 3};
    assert PLAIN_BELL.clbits == {2, 3};
  }
}
