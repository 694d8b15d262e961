/** How many qubits the read-out cutoff allows: a Hadamard on every qubit leaves nothing at forty. */
module Underflow {
  import opened Amplitudes
  import opened MultiIndex
  import opened Readout
  import opened Statevector
  import opened Sums
  import opened Wrappers

  function Power(x: real, m: nat): real {
    if m == 0 then 1.0 else x * Power(x, m - 1)
  }

  /** h on qubits 0 to m-1 */
  function Hadamards(m: nat): (gates: seq<Gate>)
    ensures |gates| == m
    ensures forall q :: 0 <= q < m ==> gates[q] == Gate("h", [q], [])
  {
    if m == 0 then [] else Hadamards(m - 1) + [Gate("h", [m - 1], [])]
  }

  /** Qubits m and above are zero at position i. */
  predicate ZerosFrom(i: nat, n: nat, m: nat)
    requires i < Pow2(n)
  {
    forall q :: m <= q < n ==> !Unravel(i, n)[q]
  }

  /** Equal amplitudes on the positions where qubits m and above are zero, and nothing elsewhere. */
  ghost predicate UniformBelow(s: seq<Complex>, n: nat, m: nat, c: real) {
    && |s| == Pow2(n)
    && forall i :: 0 <= i < Pow2(n) ==> s[i] == if ZerosFrom(i, n, m) then Complex(c, 0.0) else ZERO
  }

  lemma {:induction false} ZeroIsFirst(i: nat, n: nat)
    requires i < Pow2(n)
    ensures ZerosFrom(i, n, 0) <==> i == 0
  {
    if i == 0 {
      ZeroIndex(n);
    } else if ZerosFrom(i, n, 0) {
      ZeroIndex(n);
      assert Unravel(i, n) == Unravel(0, n);
      UnravelInjective(i, 0, n);
    }
  }

  lemma StartsUniform(n: nat)
    ensures UniformBelow(ZeroState(n), n, 0, 1.0)
  {
    forall i | 0 <= i < Pow2(n)
      ensures ZeroState(n)[i] == if ZerosFrom(i, n, 0) then Complex(1.0, 0.0) else ZERO
    {
      ZeroIsFirst(i, n);
    }
  }

  lemma {:induction false} ZerosOfPartner(i: nat, n: nat, m: nat)
    requires i < Pow2(n) && m < n
    ensures ZerosFrom(Partner(i, m, n), n, m + 1) <==> ZerosFrom(i, n, m + 1)
    ensures Unravel(Partner(i, m, n), n)[m] == !Unravel(i, n)[m]
    ensures ZerosFrom(i, n, m) <==> ZerosFrom(i, n, m + 1) && !Unravel(i, n)[m]
    ensures ZerosFrom(Partner(i, m, n), n, m) <==> ZerosFrom(i, n, m + 1) && Unravel(i, n)[m]
  {
    PartnerIndex(i, m, n);
    var idx, other := Unravel(i, n), Unravel(Partner(i, m, n), n);
    assert forall q :: m < q < n ==> other[q] == idx[q];
  }

  /** A Hadamard row on two amplitudes of which at most one, by the position's own bit b, is not zero. */
  lemma SpreadMix(u: Matrix, h: real, c: real, b: bool, z: bool, atI: Complex, atJ: Complex, mixed: Complex)
    requires u == RealMatrix(h, h, h, -h) && mixed == Mix(u, b, atI, atJ)
    requires atI == if z && !b then Complex(c, 0.0) else ZERO
    requires atJ == if z && b then Complex(c, 0.0) else ZERO
    ensures mixed == if z then Complex(h * c, 0.0) else ZERO
  {}

  /** r is s with u applied to qubit q, position by position. */
  ghost predicate Mixed(r: seq<Complex>, s: seq<Complex>, u: Matrix, q: nat, n: nat) {
    && |r| == |s| == Pow2(n) && q < n
    && forall i :: 0 <= i < Pow2(n) ==> r[i] == Mix(u, Unravel(i, n)[q], s[i], s[Partner(i, q, n)])
  }

  lemma {:induction false} Apply1qMixes(s: seq<Complex>, u: Matrix, q: nat, n: nat)
    requires |s| == Pow2(n) && q < n
    ensures Mixed(Apply1q(s, u, q, n), s, u, q, n)
  {
    forall i | 0 <= i < Pow2(n)
      ensures Apply1q(s, u, q, n)[i] == Mix(u, Unravel(i, n)[q], s[i], s[Partner(i, q, n)])
    {
      Apply1qAt(s, u, q, n, i);
    }
  }

  lemma HadamardSpreads(r: seq<Complex>, s: seq<Complex>, h: real, n: nat, m: nat, c: real) returns (p: real)
    requires UniformBelow(s, n, m, c) && Mixed(r, s, RealMatrix(h, h, h, -h), m, n)
    ensures p == h * c && UniformBelow(r, n, m + 1, p)
  {
    p := h * c;
    forall i | 0 <= i < Pow2(n)
      ensures r[i] == if ZerosFrom(i, n, m + 1) then Complex(p, 0.0) else ZERO
    {
      ZerosOfPartner(i, n, m);
      SpreadMix(RealMatrix(h, h, h, -h), h, c, Unravel(i, n)[m], ZerosFrom(i, n, m + 1), s[i], s[Partner(i, m, n)],
        r[i]);
    }
  }

  lemma {:induction false} RunSnoc(k: Numerics, gates: seq<Gate>, g: Gate, s: seq<Complex>, n: nat)
    requires |s| == Pow2(n) && forall f :: f in gates + [g] ==> WellFormed(f, n) && Supported(f.name)
    ensures forall f :: f in gates ==> WellFormed(f, n)
    ensures RunGates(k, gates, s, n).Ok?
    ensures RunGates(k, gates + [g], s, n) == Ok(ApplyGate(k, g, RunGates(k, gates, s, n).value, n))
    decreases |gates|
  {
    assert forall f :: f in gates ==> f in gates + [g];
    assert g in gates + [g];
    if gates == [] {
      assert gates + [g] == [g];
    } else {
      assert gates[0] in gates + [g];
      assert (gates + [g])[0] == gates[0] && (gates + [g])[1..] == gates[1..] + [g];
      assert forall f :: f in gates[1..] + [g] ==> f in gates + [g];
      RunSnoc(k, gates[1..], g, ApplyGate(k, gates[0], s, n), n);
    }
  }

  lemma {:induction false} HadamardsFit(m: nat, n: nat)
    requires m <= n
    ensures forall f :: f in Hadamards(m) ==> WellFormed(f, n) && Supported(f.name)
  {
    forall f | f in Hadamards(m)
      ensures WellFormed(f, n) && Supported(f.name)
    {
      var q :| 0 <= q < m && Hadamards(m)[q] == f;
    }
  }

  lemma {:induction false} HadamardsSpread(k: Numerics, n: nat, m: nat) returns (s: seq<Complex>, p: real)
    requires m <= n
    ensures forall f :: f in Hadamards(m) ==> WellFormed(f, n)
    ensures RunGates(k, Hadamards(m), ZeroState(n), n) == Ok(s)
    ensures p == Power(k.isqrt2, m) && UniformBelow(s, n, m, p)
  {
    HadamardsFit(m, n);
    if m == 0 {
      StartsUniform(n);
      s, p := ZeroState(n), 1.0;
    } else {
      var l := m - 1;
      var before, c := HadamardsSpread(k, n, l);
      RunSnoc(k, Hadamards(l), Gate("h", [l], []), ZeroState(n), n);
      s := Apply1q(before, k.H(), l, n);
      Apply1qMixes(before, k.H(), l, n);
      p := HadamardSpreads(s, before, k.isqrt2, n, l, c);
    }
  }

  lemma {:induction false} PowerSquared(h: real, m: nat) returns (p: real, w: real)
    requires h * h == 0.5
    ensures p == Power(h, m) && w == p * p && w * Pow2(m) as real == 1.0
  {
    if m == 0 {
      p, w := 1.0, 1.0;
    } else {
      var p', w' := PowerSquared(h, m - 1);
      p, w := h * p', 0.5 * w';
      SquareStep(h, p', w');
      assert Pow2(m) as real == 2.0 * Pow2(m - 1) as real;
      HalfDouble(w', Pow2(m - 1) as real);
    }
  }

  lemma SquareStep(h: real, p: real, w: real)
    requires h * h == 0.5 && w == p * p
    ensures 0.5 * w == (h * p) * (h * p)
  {
    assert (h * p) * (h * p) == (h * h) * (p * p);
  }

  lemma HalfDouble(w: real, t: real)
    ensures (0.5 * w) * (2.0 * t) == w * t
  {}

  /** Every outcome of the uniform state has probability 2**-n. */
  lemma UniformWeights(k: Numerics, n: nat) returns (s: seq<Complex>, w: real)
    requires k.Valid()
    ensures forall f :: f in Hadamards(n) ==> WellFormed(f, n)
    ensures RunGates(k, Hadamards(n), ZeroState(n), n) == Ok(s) && |s| == Pow2(n)
    ensures w * Pow2(n) as real == 1.0 && forall i :: 0 <= i < Pow2(n) ==> s[i].Norm2() == w
  {
    var c;
    s, c := HadamardsSpread(k, n, n);
    var p;
    p, w := PowerSquared(k.isqrt2, n);
    forall i | 0 <= i < Pow2(n)
      ensures s[i].Norm2() == w
    {
      assert ZerosFrom(i, n, n);
      RealNorm(p, w);
    }
  }

  lemma RealNorm(p: real, w: real)
    requires w == p * p
    ensures Complex(p, 0.0).Norm2() == w
  {}

  lemma ScaleAtLeast(w: real, t: real, c: real)
    requires w >= c && t > 0.0
    ensures w * t >= c * t
  {
    assert (w - c) * t >= 0.0;
  }

  lemma BelowCutoff(w: real, t: real)
    requires w * t == 1.0 && t > 1000000000000.0
    ensures w < CUTOFF
  {
    if w >= CUTOFF {
      ScaleAtLeast(w, t, CUTOFF);
    }
  }

  lemma Pow2Of40()
    ensures Pow2(40) == 1099511627776
  {
    Pow2Of39();
    assert Pow2(40) == 2 * Pow2(39);
  }

  lemma {:induction false} HadamardsLeaveNothing(k: Numerics, n: nat)
    requires k.Valid() && n >= 40
    ensures ValidCircuit(Circuit(n, Hadamards(n))) && !KeepsSomething(k, Circuit(n, Hadamards(n)))
  {
    var s, w := UniformWeights(k, n);
    Pow2Monotone(40, n);
    Pow2Of40();
    BelowCutoff(w, Pow2(n) as real);
    forall key
      ensures key !in Distribution(s, n)
    {
      DistributionEntries(s, n, key);
    }
  }

  /** The read-out of the circuit is not empty, unless the engine rejects the circuit. */
  predicate KeepsSomething(k: Numerics, circ: Circuit)
    requires ValidCircuit(circ)
  {
    match RunGates(k, circ.gates, ZeroState(circ.nQubits), circ.nQubits)
    case Ok(s) => Distribution(s, circ.nQubits) != map[]
    case Err(_) => true
  }

  /** Exactly up to 39 qubits does every circuit leave an outcome to sample from. */
  lemma SomethingIsKeptIff(k: Numerics, n: nat)
    requires k.Valid()
    ensures (forall circ: Circuit :: circ.nQubits == n && ValidCircuit(circ) ==> KeepsSomething(k, circ)) <==> n <= 39
  {
    if n <= 39 {
      forall circ: Circuit | circ.nQubits == n && ValidCircuit(circ)
        ensures KeepsSomething(k, circ)
      {
        SomethingIsKept(k, circ);
      }
    } else {
      HadamardsLeaveNothing(k, n);
    }
  }
}
