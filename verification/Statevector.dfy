/**
 The pure-Python statevector engine: 1-qubit unitaries by tensor contraction along one axis,
 CX by flipping a sub-view in place, and the read-out of outcome probabilities.
 */
module Statevector {
  import opened Wrappers
  import opened Amplitudes
  import opened MultiIndex
  import opened Sums

  datatype Gate = Gate(name: string, qubits: seq<nat>, params: seq<real>)

  datatype Circuit = Circuit(nQubits: nat, gates: seq<Gate>)

  // --- one-qubit gates ----------------------------------------------------------------

  /** np.tensordot(u, state, axes=([1],[q])): u's row index comes first, then the other axes. */
  function TensorDot(u: Matrix, s: seq<Complex>, q: nat, n: nat): (r: seq<Complex>)
    requires |s| == Pow2(n) && q < n
    ensures |r| == |s|
  {
    seq(Pow2(n), i requires 0 <= i < Pow2(n) =>
      var idx := Unravel(i, n);
      var (x, y) := u.Row(idx[0]);
      Dot(x, s[Ravel(Insert(idx[1..], q, false))], y, s[Ravel(Insert(idx[1..], q, true))]))
  }

  /** np.moveaxis(state, 0, q) */
  function MoveAxis(s: seq<Complex>, q: nat, n: nat): (r: seq<Complex>)
    requires |s| == Pow2(n) && q < n
    ensures |r| == |s|
  {
    seq(Pow2(n), i requires 0 <= i < Pow2(n) =>
      var idx := Unravel(i, n);
      s[Ravel([idx[q]] + Remove(idx, q))])
  }

  function Apply1q(s: seq<Complex>, u: Matrix, q: nat, n: nat): (r: seq<Complex>)
    requires |s| == Pow2(n) && q < n
    ensures |r| == |s|
  {
    MoveAxis(TensorDot(u, s, q, n), q, n)
  }

  /** The amplitude of u at i, given those at i and at its partner j, where b is i's own bit. */
  function Mix(u: Matrix, b: bool, atI: Complex, atJ: Complex): Complex {
    if b then Dot(u.u10, atJ, u.u11, atI) else Dot(u.u00, atI, u.u01, atJ)
  }

  /** Contracting axis q mixes exactly the pairs of positions that differ in coordinate q. */
  lemma {:induction false} Apply1qAt(s: seq<Complex>, u: Matrix, q: nat, n: nat, i: nat)
    requires |s| == Pow2(n) && q < n && i < Pow2(n)
    ensures Apply1q(s, u, q, n)[i] == Mix(u, Unravel(i, n)[q], s[i], s[Partner(i, q, n)])
  {
    var idx := Unravel(i, n);
    var moved := [idx[q]] + Remove(idx, q);
    UnravelRavel(moved);
    assert moved[1..] == Remove(idx, q);
    InsertRemove(idx, q, false);
    InsertRemove(idx, q, true);
    RavelUnravel(i, n);
    assert idx[q := idx[q]] == idx;
    assert Apply1q(s, u, q, n)[i] == TensorDot(u, s, q, n)[Ravel(moved)];
  }

  /**
   In terms of flat positions and bits: the amplitude at i is rewritten from those at i and at
   i -/+ 2**(n-1-q), with the matrix row chosen by bit n-1-q of i.
   */
  lemma Apply1qOnBits(s: seq<Complex>, u: Matrix, q: nat, n: nat, i: nat)
    requires |s| == Pow2(n) && q < n && i < Pow2(n)
    ensures var d := Pow2(n - 1 - q);
            if BitOf(i, n - 1 - q) then i >= d && Apply1q(s, u, q, n)[i] == Dot(u.u10, s[i - d], u.u11, s[i])
            else i + d < Pow2(n) && Apply1q(s, u, q, n)[i] == Dot(u.u00, s[i], u.u01, s[i + d])
  {
    Apply1qAt(s, u, q, n, i);
    AxisIsBit(i, q, n);
    PartnerDistance(i, q, n);
  }

  // --- CX -----------------------------------------------------------------------------

  /** state[..., 1 at axis c, ...]: the amplitudes whose control bit is set, without axis c. */
  function ControlView(s: seq<Complex>, c: nat, n: nat): (r: seq<Complex>)
    requires |s| == Pow2(n) && c < n
    ensures |r| == Pow2(n - 1)
  {
    seq(Pow2(n - 1), j requires 0 <= j < Pow2(n - 1) => s[Ravel(Insert(Unravel(j, n - 1), c, true))])
  }

  /** np.flip(sub, axis=a) */
  function FlipAxis(s: seq<Complex>, a: nat, n: nat): (r: seq<Complex>)
    requires |s| == Pow2(n) && a < n
    ensures |r| == |s|
  {
    seq(Pow2(n), j requires 0 <= j < Pow2(n) => s[Partner(j, a, n)])
  }

  /** Where the amplitude stored at i after CX comes from. */
  function CxSource(i: nat, c: nat, t: nat, n: nat): (j: nat)
    requires i < Pow2(n) && c < n && t < n
    ensures j < Pow2(n)
  {
    if Unravel(i, n)[c] then Partner(i, t, n) else i
  }

  /** CX as a permutation of flat positions. */
  function Cx(s: seq<Complex>, c: nat, t: nat, n: nat): (r: seq<Complex>)
    requires |s| == Pow2(n) && c < n && t < n
    ensures |r| == |s|
  {
    seq(Pow2(n), i requires 0 <= i < Pow2(n) => s[CxSource(i, c, t, n)])
  }

  /** The slot of the control view that holds flat position i. */
  function Slot(i: nat, c: nat, n: nat): (j: nat)
    requires i < Pow2(n) && c < n
    ensures j < Pow2(n - 1)
  {
    Ravel(Remove(Unravel(i, n), c))
  }

  lemma SlotPosition(j: nat, c: nat, n: nat)
    requires c < n && j < Pow2(n - 1)
    ensures var i := Ravel(Insert(Unravel(j, n - 1), c, true));
            Unravel(i, n)[c] && Slot(i, c, n) == j
  {
    var idx := Insert(Unravel(j, n - 1), c, true);
    UnravelRavel(idx);
    RemoveInsert(Unravel(j, n - 1), c, true);
    RavelUnravel(j, n - 1);
  }

  lemma PositionOfSlot(i: nat, c: nat, n: nat)
    requires c < n && i < Pow2(n) && Unravel(i, n)[c]
    ensures Ravel(Insert(Unravel(Slot(i, c, n), n - 1), c, true)) == i
  {
    var idx := Unravel(i, n);
    UnravelRavel(Remove(idx, c));
    InsertRemove(idx, c, true);
    assert idx[c := true] == idx;
    RavelUnravel(i, n);
  }

  /** The flipped view, read back at position i, is the amplitude with the target bit flipped. */
  lemma {:induction false} FlippedView(s: seq<Complex>, c: nat, t: nat, n: nat, i: nat)
    requires |s| == Pow2(n) && c < n && t < n && c != t && i < Pow2(n) && Unravel(i, n)[c]
    ensures FlipAxis(ControlView(s, c, n), AxisWithout(c, t), n - 1)[Slot(i, c, n)] == s[Partner(i, t, n)]
  {
    var idx := Unravel(i, n);
    var rest := Remove(idx, c);
    UnravelRavel(rest);
    PartnerIndex(Slot(i, c, n), AxisWithout(c, t), n - 1);
    ToggleWithout(idx, c, t);
  }

  /** Whether flat position i belongs to one of the first j slots of the control view. */
  predicate Written(i: nat, j: nat, c: nat, n: nat)
    requires i < Pow2(n) && c < n
  {
    Unravel(i, n)[c] && Slot(i, c, n) < j
  }

  lemma WrittenNext(i: nat, j: nat, c: nat, n: nat)
    requires i < Pow2(n) && c < n && j < Pow2(n - 1)
    ensures var p := Ravel(Insert(Unravel(j, n - 1), c, true));
            Written(i, j + 1, c, n) <==> Written(i, j, c, n) || i == p
  {
    SlotPosition(j, c, n);
    if Unravel(i, n)[c] {
      PositionOfSlot(i, c, n);
    }
  }

  lemma AllWritten(s: seq<Complex>, c: nat, t: nat, n: nat, i: nat)
    requires |s| == Pow2(n) && c < n && t < n && c != t && i < Pow2(n)
    ensures var sub := FlipAxis(ControlView(s, c, n), AxisWithout(c, t), n - 1);
            Cx(s, c, t, n)[i] == if Written(i, Pow2(n - 1), c, n) then sub[Slot(i, c, n)] else s[i]
  {
    if Unravel(i, n)[c] {
      FlippedView(s, c, t, n, i);
    }
  }

  /** _apply_cx: overwrites the control view, in place, with its flip along the target axis. */
  method ApplyCx(state: array<Complex>, c: nat, t: nat, n: nat)
    requires state.Length == Pow2(n) && c < n && t < n && c != t
    modifies state
    ensures state[..] == Cx(old(state[..]), c, t, n)
  {
    ghost var before := state[..];
    var sub := ControlView(state[..], c, n);
    sub := FlipAxis(sub, if t < c then t else t - 1, n - 1);
    for j := 0 to |sub|
      invariant forall i :: 0 <= i < Pow2(n) ==>
        state[i] == if Written(i, j, c, n) then sub[Slot(i, c, n)] else before[i]
    {
      var p := Ravel(Insert(Unravel(j, n - 1), c, true));
      SlotPosition(j, c, n);
      state[p] := sub[j];
      forall i | 0 <= i < Pow2(n)
        ensures Written(i, j + 1, c, n) <==> Written(i, j, c, n) || i == p
      {
        WrittenNext(i, j, c, n);
      }
    }
    forall i | 0 <= i < Pow2(n)
      ensures state[i] == Cx(before, c, t, n)[i]
    {
      AllWritten(before, c, t, n, i);
    }
  }

  // --- circuits -----------------------------------------------------------------------

  /** What the engine needs of a gate it applies: parameters present, qubits in range and distinct. */
  predicate WellFormed(g: Gate, n: nat) {
    && (g.name in {"h", "x", "sx", "rz"} ==> |g.qubits| >= 1 && g.qubits[0] < n)
    && (g.name == "rz" ==> |g.params| >= 1)
    && (g.name == "cx" ==> |g.qubits| >= 2 && g.qubits[0] < n && g.qubits[1] < n && g.qubits[0] != g.qubits[1])
  }

  predicate Supported(name: string) {
    name in {"h", "x", "sx", "rz", "cx", "id", "barrier", "measure"}
  }

  function MatrixOf(k: Numerics, g: Gate): Matrix
    requires g.name == "rz" ==> |g.params| >= 1
  {
    if g.name == "h" then k.H()
    else if g.name == "x" then X
    else if g.name == "sx" then SX
    else if g.name == "rz" then k.Rz(g.params[0])
    else IDENTITY
  }

  /** One supported gate, as a map of amplitude vectors. */
  function ApplyGate(k: Numerics, g: Gate, s: seq<Complex>, n: nat): (r: seq<Complex>)
    requires |s| == Pow2(n) && WellFormed(g, n)
    ensures |r| == |s|
  {
    if g.name in {"h", "x", "sx", "rz"} then Apply1q(s, MatrixOf(k, g), g.qubits[0], n)
    else if g.name == "cx" then Cx(s, g.qubits[0], g.qubits[1], n)
    else s
  }

  function RunGates(k: Numerics, gates: seq<Gate>, s: seq<Complex>, n: nat): (r: Result<seq<Complex>>)
    requires |s| == Pow2(n) && forall g :: g in gates ==> WellFormed(g, n)
    ensures r.Ok? ==> |r.value| == |s|
  {
    if gates == [] then Ok(s)
    else if !Supported(gates[0].name) then Err("unsupported gate")
    else RunGates(k, gates[1..], ApplyGate(k, gates[0], s, n), n)
  }

  function ZeroState(n: nat): (s: seq<Complex>)
    ensures |s| == Pow2(n)
  {
    [ONE] + seq(Pow2(n) - 1, i => ZERO)
  }

  predicate ValidCircuit(circ: Circuit) {
    forall g :: g in circ.gates ==> WellFormed(g, circ.nQubits)
  }

  /** One round of the loop: a 1-qubit gate makes a new state, CX overwrites the old one. */
  method Step(k: Numerics, g: Gate, state: array<Complex>, n: nat) returns (next: array<Complex>)
    requires state.Length == Pow2(n) && WellFormed(g, n) && Supported(g.name)
    modifies state
    ensures next.Length == Pow2(n) && (next == state || fresh(next))
    ensures next[..] == ApplyGate(k, g, old(state[..]), n)
  {
    if g.name in {"h", "x", "sx", "rz"} {
      var after := Apply1q(state[..], MatrixOf(k, g), g.qubits[0], n);
      next := new Complex[Pow2(n)](i requires 0 <= i < |after| => after[i]);
      assert next[..] == after;
    } else {
      if g.name == "cx" {
        ApplyCx(state, g.qubits[0], g.qubits[1], n);
      }
      next := state;
    }
  }

  /** _statevector: fails exactly on an unsupported gate name. */
  method Run(k: Numerics, circ: Circuit) returns (r: Result<seq<Complex>>)
    requires ValidCircuit(circ)
    ensures r == RunGates(k, circ.gates, ZeroState(circ.nQubits), circ.nQubits)
    ensures r.Ok? <==> forall g :: g in circ.gates ==> Supported(g.name)
  {
    var n := circ.nQubits;
    var state := new Complex[Pow2(n)](i => ZERO);
    state[0] := ONE;
    assert state[..] == ZeroState(n);
    for j := 0 to |circ.gates|
      invariant state.Length == Pow2(n) && fresh(state)
      invariant forall i :: 0 <= i < j ==> Supported(circ.gates[i].name)
      invariant RunGates(k, circ.gates, ZeroState(n), n) == RunGates(k, circ.gates[j..], state[..], n)
    {
      var g := circ.gates[j];
      assert g in circ.gates;
      assert circ.gates[j..][0] == g && circ.gates[j..][1..] == circ.gates[j + 1..];
      if !Supported(g.name) {
        return Err("unsupported gate");
      }
      state := Step(k, g, state, n);
    }
    return Ok(state[..]);
  }

  // --- the norm -----------------------------------------------------------------------

  function Weights(s: seq<Complex>): (w: seq<real>)
    ensures |w| == |s|
  {
    seq(|s|, i requires 0 <= i < |s| => s[i].Norm2())
  }

  /** Sum of |amp|^2. */
  function Norm(s: seq<Complex>): real {
    Sum(Weights(s))
  }

  lemma NormHalves(s: seq<Complex>, m: nat)
    requires m <= |s|
    ensures Norm(s) == Norm(s[..m]) + Norm(s[m..])
  {
    assert Weights(s) == Weights(s[..m]) + Weights(s[m..]);
    SumAppend(Weights(s[..m]), Weights(s[m..]));
  }

  /** Position i and its partner along axis q carry the same joint weight in s and s'. */
  ghost predicate SamePairWeight(s: seq<Complex>, s': seq<Complex>, q: nat, n: nat, i: nat)
    requires |s| == |s'| == Pow2(n) && q < n && i < Pow2(n)
  {
    s[i].Norm2() + s[Partner(i, q, n)].Norm2() == s'[i].Norm2() + s'[Partner(i, q, n)].Norm2()
  }

  lemma TopPairs(s: seq<Complex>, s': seq<Complex>, n: nat)
    requires |s| == |s'| == Pow2(n) && n > 0
    requires forall i :: 0 <= i < Pow2(n) ==> SamePairWeight(s, s', 0, n, i)
    ensures var half := Pow2(n - 1);
            Norm(s[..half]) + Norm(s[half..]) == Norm(s'[..half]) + Norm(s'[half..])
  {
    var half := Pow2(n - 1);
    var lo, hi, lo', hi' := s[..half], s[half..], s'[..half], s'[half..];
    forall i | 0 <= i < half
      ensures lo[i].Norm2() + hi[i].Norm2() == lo'[i].Norm2() + hi'[i].Norm2()
    {
      PartnerHalves(i, 0, n);
      assert SamePairWeight(s, s', 0, n, i);
    }
    SumPairs(Weights(lo), Weights(hi), Weights(lo'), Weights(hi'));
  }

  lemma PairInLowerHalf(s: seq<Complex>, s': seq<Complex>, q: nat, n: nat, i: nat, half: nat)
    requires |s| == |s'| == Pow2(n) && 0 < q < n && half == Pow2(n - 1) && i < half <= |s|
    requires SamePairWeight(s, s', q, n, i)
    ensures SamePairWeight(s[..half], s'[..half], q - 1, n - 1, i)
  {
    PartnerHalves(i, q, n);
    var j := Partner(i, q - 1, n - 1);
    assert s[..half][i] == s[i] && s[..half][j] == s[j] && s'[..half][i] == s'[i] && s'[..half][j] == s'[j];
  }

  lemma PairInUpperHalf(s: seq<Complex>, s': seq<Complex>, q: nat, n: nat, i: nat, half: nat)
    requires |s| == |s'| == Pow2(n) && 0 < q < n && half == Pow2(n - 1) && i < half && half + i < |s|
    requires SamePairWeight(s, s', q, n, half + i)
    ensures SamePairWeight(s[half..], s'[half..], q - 1, n - 1, i)
  {
    var k := half + i;
    PartnerHalves(k, q, n);
    assert k - half == i;
    var j := Partner(i, q - 1, n - 1);
    assert Partner(k, q, n) == half + j;
    assert s[half..][i] == s[half + i] && s[half..][j] == s[half + j];
    assert s'[half..][i] == s'[half + i] && s'[half..][j] == s'[half + j];
  }

  /** If every pair of partners along axis q keeps its joint weight, the whole vector does. */
  lemma {:induction false} PairwiseNorm(s: seq<Complex>, s': seq<Complex>, q: nat, n: nat)
    requires |s| == |s'| == Pow2(n) && q < n
    requires forall i :: 0 <= i < Pow2(n) ==> SamePairWeight(s, s', q, n, i)
    ensures Norm(s) == Norm(s')
  {
    var half := Pow2(n - 1);
    var lo, hi, lo', hi' := s[..half], s[half..], s'[..half], s'[half..];
    NormHalves(s, half);
    NormHalves(s', half);
    if q == 0 {
      TopPairs(s, s', n);
    } else {
      var p, m := q - 1, n - 1;
      forall i | 0 <= i < half
        ensures SamePairWeight(lo, lo', p, m, i) && SamePairWeight(hi, hi', p, m, i)
      {
        PairInLowerHalf(s, s', q, n, i, half);
        PairInUpperHalf(s, s', q, n, i, half);
      }
      PairwiseNorm(lo, lo', p, m);
      PairwiseNorm(hi, hi', p, m);
    }
  }

  lemma {:induction false} Apply1qKeepsNorm(s: seq<Complex>, u: Matrix, q: nat, n: nat)
    requires |s| == Pow2(n) && q < n && u.Unitary()
    ensures Norm(Apply1q(s, u, q, n)) == Norm(s)
  {
    var s' := Apply1q(s, u, q, n);
    forall i | 0 <= i < Pow2(n)
      ensures SamePairWeight(s, s', q, n, i)
    {
      var j := Partner(i, q, n);
      PartnerIndex(i, q, n);
      Apply1qAt(s, u, q, n, i);
      Apply1qAt(s, u, q, n, j);
      UnitaryKeepsNorm(u, s[i], s[j]);
      UnitaryKeepsNorm(u, s[j], s[i]);
    }
    PairwiseNorm(s, s', q, n);
  }

  lemma {:induction false} CxKeepsNorm(s: seq<Complex>, c: nat, t: nat, n: nat)
    requires |s| == Pow2(n) && c < n && t < n && c != t
    ensures Norm(Cx(s, c, t, n)) == Norm(s)
  {
    var s' := Cx(s, c, t, n);
    forall i | 0 <= i < Pow2(n)
      ensures SamePairWeight(s, s', t, n, i)
    {
      PartnerIndex(i, t, n);
    }
    PairwiseNorm(s, s', t, n);
  }

  lemma {:induction false} ZerosWeighNothing(m: nat)
    ensures Norm(seq(m, i => ZERO)) == 0.0
  {
    var w := Weights(seq(m, i => ZERO));
    if m > 0 {
      assert w[1..] == Weights(seq(m - 1, i => ZERO));
      ZerosWeighNothing(m - 1);
    }
  }

  lemma ZeroStateNorm(n: nat)
    ensures Norm(ZeroState(n)) == 1.0
  {
    NormHalves(ZeroState(n), 1);
    ZerosWeighNothing(Pow2(n) - 1);
    assert ZeroState(n)[..1] == [ONE] && ZeroState(n)[1..] == seq(Pow2(n) - 1, i => ZERO);
    assert Weights([ONE]) == [] + [1.0];
    SumSnoc([], 1.0);
  }

  lemma {:induction false} RotationsKeepNorm(k: Numerics, t: real, s: seq<Complex>, q: nat, n: nat)
    requires k.Valid() && |s| == Pow2(n) && q < n
    ensures Norm(Apply1q(s, k.H(), q, n)) == Norm(s)
    ensures Norm(Apply1q(s, k.Rz(t), q, n)) == Norm(s)
  {
    HUnitary(k);
    RzUnitary(k, t);
    Apply1qKeepsNorm(s, k.H(), q, n);
    Apply1qKeepsNorm(s, k.Rz(t), q, n);
  }

  lemma {:induction false} FlipsKeepNorm(s: seq<Complex>, q: nat, n: nat)
    requires |s| == Pow2(n) && q < n
    ensures Norm(Apply1q(s, X, q, n)) == Norm(s)
    ensures Norm(Apply1q(s, SX, q, n)) == Norm(s)
  {
    XUnitary();
    SxUnitary();
    Apply1qKeepsNorm(s, X, q, n);
    Apply1qKeepsNorm(s, SX, q, n);
  }

  lemma {:induction false} GateKeepsNorm(k: Numerics, g: Gate, s: seq<Complex>, n: nat)
    requires k.Valid() && |s| == Pow2(n) && WellFormed(g, n)
    ensures Norm(ApplyGate(k, g, s, n)) == Norm(s)
  {
    if g.name == "h" {
      RotationsKeepNorm(k, 0.0, s, g.qubits[0], n);
    } else if g.name == "rz" {
      RotationsKeepNorm(k, g.params[0], s, g.qubits[0], n);
    } else if g.name == "x" || g.name == "sx" {
      FlipsKeepNorm(s, g.qubits[0], n);
    } else if g.name == "cx" {
      CxKeepsNorm(s, g.qubits[0], g.qubits[1], n);
    }
  }

  /** Every circuit keeps the norm, over its whole run. */
  lemma {:induction false} RunKeepsNorm(k: Numerics, gates: seq<Gate>, s: seq<Complex>, n: nat)
    requires k.Valid() && |s| == Pow2(n) && forall g :: g in gates ==> WellFormed(g, n)
    ensures var r := RunGates(k, gates, s, n); r.Ok? ==> Norm(r.value) == Norm(s)
  {
    if gates != [] && Supported(gates[0].name) {
      GateKeepsNorm(k, gates[0], s, n);
      RunKeepsNorm(k, gates[1..], ApplyGate(k, gates[0], s, n), n);
    }
  }

  // --- gate algebra on every n-qubit state --------------------------------------------

  /** Two matrices on the same qubit compose to their product. */
  lemma {:induction false} ApplyProduct(s: seq<Complex>, u: Matrix, m: Matrix, q: nat, n: nat)
    requires |s| == Pow2(n) && q < n
    ensures Apply1q(Apply1q(s, m, q, n), u, q, n) == Apply1q(s, u.Times(m), q, n)
  {
    var mid := Apply1q(s, m, q, n);
    forall i | 0 <= i < Pow2(n)
      ensures Apply1q(mid, u, q, n)[i] == Apply1q(s, u.Times(m), q, n)[i]
    {
      var j := Partner(i, q, n);
      PartnerIndex(i, q, n);
      Apply1qAt(mid, u, q, n, i);
      Apply1qAt(s, m, q, n, i);
      Apply1qAt(s, m, q, n, j);
      Apply1qAt(s, u.Times(m), q, n, i);
      if Unravel(i, n)[q] {
        ProductRow(u.u10, u.u11, m, s[j], s[i]);
      } else {
        ProductRow(u.u00, u.u01, m, s[i], s[j]);
      }
    }
  }

  lemma {:induction false} ApplyIdentity(s: seq<Complex>, q: nat, n: nat)
    requires |s| == Pow2(n) && q < n
    ensures Apply1q(s, IDENTITY, q, n) == s
  {
    forall i | 0 <= i < Pow2(n)
      ensures Apply1q(s, IDENTITY, q, n)[i] == s[i]
    {
      Apply1qAt(s, IDENTITY, q, n, i);
    }
  }

  /** H and X are involutions and SX is a square root of X, on every state and every qubit. */
  lemma {:induction false} OneQubitLaws(k: Numerics, s: seq<Complex>, q: nat, n: nat)
    requires k.Valid() && |s| == Pow2(n) && q < n
    ensures Apply1q(Apply1q(s, k.H(), q, n), k.H(), q, n) == s
    ensures Apply1q(Apply1q(s, X, q, n), X, q, n) == s
    ensures Apply1q(Apply1q(s, SX, q, n), SX, q, n) == Apply1q(s, X, q, n)
  {
    HSquared(k);
    XSquared();
    SxSquared();
    ApplyProduct(s, k.H(), k.H(), q, n);
    ApplyProduct(s, X, X, q, n);
    ApplyProduct(s, SX, SX, q, n);
    ApplyIdentity(s, q, n);
  }

  /** Rotations by t and t' with conjugate phases cancel. */
  lemma {:induction false} RzLaw(k: Numerics, s: seq<Complex>, t: real, t': real, q: nat, n: nat)
    requires k.Valid() && |s| == Pow2(n) && q < n && k.phase(t') == k.phase(t).Conj()
    ensures Apply1q(Apply1q(s, k.Rz(t), q, n), k.Rz(t'), q, n) == s
  {
    RzCancels(k, t, t');
    ApplyProduct(s, k.Rz(t'), k.Rz(t), q, n);
    ApplyIdentity(s, q, n);
  }

  lemma {:induction false} CxSourceTwice(i: nat, c: nat, t: nat, n: nat)
    requires i < Pow2(n) && c < n && t < n && c != t
    ensures CxSource(CxSource(i, c, t, n), c, t, n) == i
  {
    PartnerIndex(i, t, n);
    assert Toggle(Unravel(i, n), t)[c] == Unravel(i, n)[c];
  }

  lemma {:induction false} CxInvolution(s: seq<Complex>, c: nat, t: nat, n: nat)
    requires |s| == Pow2(n) && c < n && t < n && c != t
    ensures Cx(Cx(s, c, t, n), c, t, n) == s
  {
    forall i | 0 <= i < Pow2(n)
      ensures Cx(Cx(s, c, t, n), c, t, n)[i] == s[i]
    {
      CxSourceTwice(i, c, t, n);
    }
  }

  lemma {:induction false} OneQubitGatesCommute(s: seq<Complex>, u: Matrix, p: nat, v: Matrix, q: nat, n: nat)
    requires |s| == Pow2(n) && p < n && q < n && p != q
    ensures Apply1q(Apply1q(s, u, p, n), v, q, n) == Apply1q(Apply1q(s, v, q, n), u, p, n)
  {
    forall i | 0 <= i < Pow2(n)
      ensures Apply1q(Apply1q(s, u, p, n), v, q, n)[i] == Apply1q(Apply1q(s, v, q, n), u, p, n)[i]
    {
      var jp, jq := Partner(i, p, n), Partner(i, q, n);
      var jpq := Partner(jp, q, n);
      PartnerIndex(i, p, n);
      PartnerIndex(i, q, n);
      PartnersCommute(i, p, q, n);
      Apply1qAt(Apply1q(s, u, p, n), v, q, n, i);
      Apply1qAt(s, u, p, n, i);
      Apply1qAt(s, u, p, n, jq);
      Apply1qAt(Apply1q(s, v, q, n), u, p, n, i);
      Apply1qAt(s, v, q, n, i);
      Apply1qAt(s, v, q, n, jp);
      MixesCommute(u, Unravel(i, n)[p], v, Unravel(i, n)[q], s[i], s[jp], s[jq], s[jpq]);
    }
  }

  lemma MixesCommute(u: Matrix, bu: bool, v: Matrix, bv: bool, a: Complex, ap: Complex, aq: Complex, apq: Complex)
    ensures Mix(v, bv, Mix(u, bu, a, ap), Mix(u, bu, aq, apq)) == Mix(u, bu, Mix(v, bv, a, aq), Mix(v, bv, ap, apq))
  {
    var (x, y) := v.Row(bv);
    var (z, w) := u.Row(bu);
    if bv && bu {
      DotsCommute(x, y, z, w, apq, aq, ap, a);
    } else if bv {
      DotsCommute(x, y, z, w, aq, apq, a, ap);
    } else if bu {
      DotsCommute(x, y, z, w, ap, a, apq, aq);
    } else {
      DotsCommute(x, y, z, w, a, ap, aq, apq);
    }
  }

  lemma {:induction false} CxSourceIndex(i: nat, c: nat, t: nat, q: nat, n: nat)
    requires i < Pow2(n) && c < n && t < n && q < n && q != t && q != c
    ensures Unravel(CxSource(i, c, t, n), n)[q] == Unravel(i, n)[q]
    ensures CxSource(Partner(i, q, n), c, t, n) == Partner(CxSource(i, c, t, n), q, n)
  {
    PartnerIndex(i, t, n);
    PartnerIndex(i, q, n);
    PartnersCommute(i, t, q, n);
  }

  lemma {:induction false} CxCommutesWith1q(s: seq<Complex>, c: nat, t: nat, u: Matrix, q: nat, n: nat)
    requires |s| == Pow2(n) && c < n && t < n && c != t && q < n && q != c && q != t
    ensures Apply1q(Cx(s, c, t, n), u, q, n) == Cx(Apply1q(s, u, q, n), c, t, n)
  {
    forall i | 0 <= i < Pow2(n)
      ensures Apply1q(Cx(s, c, t, n), u, q, n)[i] == Cx(Apply1q(s, u, q, n), c, t, n)[i]
    {
      CxSourceIndex(i, c, t, q, n);
      Apply1qAt(Cx(s, c, t, n), u, q, n, i);
      Apply1qAt(s, u, q, n, CxSource(i, c, t, n));
    }
  }

  lemma {:induction false} CxSourcesCommute(i: nat, c: nat, t: nat, d: nat, u: nat, n: nat)
    requires i < Pow2(n) && c < n && t < n && d < n && u < n
    requires c != t && d != u && c != d && c != u && t != d && t != u
    ensures CxSource(CxSource(i, c, t, n), d, u, n) == CxSource(CxSource(i, d, u, n), c, t, n)
  {
    CxSourceIndex(i, c, t, d, n);
    CxSourceIndex(i, c, t, u, n);
  }

  lemma {:induction false} CxCommutesWithCx(s: seq<Complex>, c: nat, t: nat, d: nat, u: nat, n: nat)
    requires |s| == Pow2(n) && c < n && t < n && d < n && u < n
    requires c != t && d != u && c != d && c != u && t != d && t != u
    ensures Cx(Cx(s, c, t, n), d, u, n) == Cx(Cx(s, d, u, n), c, t, n)
  {
    forall i | 0 <= i < Pow2(n)
      ensures Cx(Cx(s, c, t, n), d, u, n)[i] == Cx(Cx(s, d, u, n), c, t, n)[i]
    {
      CxSourcesCommute(i, c, t, d, u, n);
    }
  }

  /** The qubits a gate acts on; none for id, barrier and measure. */
  function ActsOn(g: Gate, n: nat): set<nat>
    requires WellFormed(g, n)
  {
    if g.name in {"h", "x", "sx", "rz"} then {g.qubits[0]}
    else if g.name == "cx" then {g.qubits[0], g.qubits[1]}
    else {}
  }

  /** Gates on disjoint qubits commute, on every n-qubit state. */
  lemma {:induction false} DisjointGatesCommute(k: Numerics, g: Gate, h: Gate, s: seq<Complex>, n: nat)
    requires |s| == Pow2(n) && WellFormed(g, n) && WellFormed(h, n) && ActsOn(g, n) !! ActsOn(h, n)
    ensures ApplyGate(k, h, ApplyGate(k, g, s, n), n) == ApplyGate(k, g, ApplyGate(k, h, s, n), n)
  {
    var oneG, oneH := g.name in {"h", "x", "sx", "rz"}, h.name in {"h", "x", "sx", "rz"};
    if oneG {
      assert g.qubits[0] in ActsOn(g, n);
    }
    if oneH {
      assert h.qubits[0] in ActsOn(h, n);
    }
    if g.name == "cx" {
      assert g.qubits[0] in ActsOn(g, n) && g.qubits[1] in ActsOn(g, n);
    }
    if h.name == "cx" {
      assert h.qubits[0] in ActsOn(h, n) && h.qubits[1] in ActsOn(h, n);
    }
    if oneG && oneH {
      OneQubitGatesCommute(s, MatrixOf(k, g), g.qubits[0], MatrixOf(k, h), h.qubits[0], n);
    } else if oneG && h.name == "cx" {
      CxCommutesWith1q(s, h.qubits[0], h.qubits[1], MatrixOf(k, g), g.qubits[0], n);
    } else if g.name == "cx" && oneH {
      CxCommutesWith1q(s, g.qubits[0], g.qubits[1], MatrixOf(k, h), h.qubits[0], n);
    } else if g.name == "cx" && h.name == "cx" {
      CxCommutesWithCx(s, g.qubits[0], g.qubits[1], h.qubits[0], h.qubits[1], n);
    }
  }
}
