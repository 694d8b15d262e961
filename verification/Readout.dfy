/** Read-out of the statevector: outcome probabilities under reversed binary keys. */
module Readout {
  import opened Wrappers
  import opened Amplitudes
  import opened MultiIndex
  import opened Statevector
  import opened Sums

  /** Outcomes below this probability are dropped. */
  const CUTOFF := 0.000000000001

  function Digit(b: bool): char {
    if b then '1' else '0'
  }

  /** format(i, "0{n}b"): n binary digits, most significant first. */
  function Format(i: nat, n: nat): (r: string)
    requires i < Pow2(n)
    ensures |r| == if n == 0 then 1 else n
  {
    if n == 0 then "0" else seq(n, q requires 0 <= q < n => Digit(Unravel(i, n)[q]))
  }

  /** s[::-1] */
  function Reverse(s: string): (r: string)
    ensures |r| == |s|
  {
    seq(|s|, k requires 0 <= k < |s| => s[|s| - 1 - k])
  }

  function Key(i: nat, n: nat): string
    requires i < Pow2(n)
  {
    Reverse(Format(i, n))
  }

  /** Character k of a key is the bit of qubit n-1-k. */
  lemma {:induction false} KeyCharacter(i: nat, n: nat, k: nat)
    requires i < Pow2(n) && k < n
    ensures |Key(i, n)| == n && Key(i, n)[k] == Digit(Unravel(i, n)[n - 1 - k])
  {
    var f := Format(i, n);
    assert Reverse(f)[k] == f[n - 1 - k];
  }

  lemma {:induction false} KeyInjective(i: nat, j: nat, n: nat)
    requires i < Pow2(n) && j < Pow2(n) && Key(i, n) == Key(j, n)
    ensures i == j
  {
    forall q | 0 <= q < n
      ensures Unravel(i, n)[q] == Unravel(j, n)[q]
    {
      KeyCharacter(i, n, n - 1 - q);
      KeyCharacter(j, n, n - 1 - q);
    }
    assert Unravel(i, n) == Unravel(j, n);
    UnravelInjective(i, j, n);
  }

  /** The keys read as the vendor connectors document them: character q is qubit q. */
  ghost predicate KeysMatchConnectors(n: nat) {
    forall i, q :: 0 <= i < Pow2(n) && 0 <= q < n ==> Key(i, n)[q] == Digit(Unravel(i, n)[q])
  }

  /** The engine's keys run the other way round, so they agree with that reading only below two qubits. */
  lemma KeyOrder(n: nat)
    ensures KeysMatchConnectors(n) <==> n <= 1
  {
    if n <= 1 {
      forall i, q | 0 <= i < Pow2(n) && 0 <= q < n
        ensures Key(i, n)[q] == Digit(Unravel(i, n)[q])
      {
        KeyCharacter(i, n, q);
      }
    } else {
      TopIndex(n);
      KeyCharacter(Pow2(n - 1), n, 0);
    }
  }

  /** The position whose only one is qubit 0. */
  lemma TopIndex(n: nat)
    requires n >= 2
    ensures Pow2(n - 1) < Pow2(n) && Unravel(Pow2(n - 1), n)[0] && !Unravel(Pow2(n - 1), n)[n - 1]
  {
    var rest := Unravel(0, n - 1);
    ZeroIndex(n - 1);
    assert Unravel(Pow2(n - 1), n) == [true] + rest;
    assert ([true] + rest)[n - 1] == rest[n - 2];
  }

  lemma {:induction false} ZeroIndex(n: nat)
    ensures forall q :: 0 <= q < n ==> !Unravel(0, n)[q]
  {
    if n > 0 {
      ZeroIndex(n - 1);
      assert Unravel(0, n) == [false] + Unravel(0, n - 1);
    }
  }

  // --- the distribution ---------------------------------------------------------------

  /** The entries that the first m of the 2**n probabilities contribute. */
  function Kept(probs: seq<real>, n: nat, m: nat): map<string, real>
    requires |probs| == Pow2(n) && m <= |probs|
  {
    if m == 0 then map[]
    else
      var p, before := probs[m - 1], Kept(probs, n, m - 1);
      if p < CUTOFF then before else before[Key(m - 1, n) := p]
  }

  function Distribution(s: seq<Complex>, n: nat): map<string, real>
    requires |s| == Pow2(n)
  {
    Kept(Weights(s), n, |s|)
  }

  /** ideal_distribution */
  method IdealDistribution(k: Numerics, circ: Circuit) returns (r: Result<map<string, real>>)
    requires ValidCircuit(circ)
    ensures match RunGates(k, circ.gates, ZeroState(circ.nQubits), circ.nQubits)
            case Ok(s) => r == Ok(Distribution(s, circ.nQubits))
            case Err(e) => r == Err(e)
  {
    var run := Run(k, circ);
    if run.Err? {
      return Err(run.error);
    }
    var out := ReadOut(Weights(run.value), circ.nQubits);
    return Ok(out);
  }

  method ReadOut(probs: seq<real>, n: nat) returns (out: map<string, real>)
    requires |probs| == Pow2(n)
    ensures out == Kept(probs, n, |probs|)
  {
    out := map[];
    for i := 0 to |probs|
      invariant out == Kept(probs, n, i)
    {
      if probs[i] < CUTOFF {
        continue;
      }
      out := out[Key(i, n) := probs[i]];
    }
  }

  /** Every key of the read-out is that of a position whose probability is at least the cutoff. */
  lemma {:induction false} KeptOnly(probs: seq<real>, n: nat, m: nat, key: string) returns (i: nat)
    requires |probs| == Pow2(n) && m <= |probs| && key in Kept(probs, n, m)
    ensures i < m && probs[i] >= CUTOFF && key == Key(i, n)
  {
    if probs[m - 1] >= CUTOFF && key == Key(m - 1, n) {
      i := m - 1;
    } else {
      i := KeptOnly(probs, n, m - 1, key);
    }
  }

  lemma {:induction false} KeysDiffer(i: nat, j: nat, n: nat)
    requires i < j < Pow2(n)
    ensures Key(i, n) != Key(j, n)
  {
    if Key(i, n) == Key(j, n) {
      KeyInjective(i, j, n);
    }
  }

  /** Every probability at or above the cutoff is read out, under its own key. */
  lemma {:induction false} KeptAll(probs: seq<real>, n: nat, m: nat, i: nat)
    requires |probs| == Pow2(n) && i < m <= |probs| && probs[i] >= CUTOFF
    ensures Key(i, n) in Kept(probs, n, m) && Kept(probs, n, m)[Key(i, n)] == probs[i]
  {
    if i < m - 1 {
      KeptAll(probs, n, m - 1, i);
      KeysDiffer(i, m - 1, n);
    }
  }

  /** The read-out, key by key, of any circuit's final state. */
  lemma {:induction false} DistributionEntries(s: seq<Complex>, n: nat, key: string)
    requires |s| == Pow2(n)
    ensures key in Distribution(s, n) <==>
            exists i :: 0 <= i < Pow2(n) && key == Key(i, n) && s[i].Norm2() >= CUTOFF
    ensures forall i :: 0 <= i < Pow2(n) && key == Key(i, n) && s[i].Norm2() >= CUTOFF ==>
              key in Distribution(s, n) && Distribution(s, n)[key] == s[i].Norm2()
  {
    if key in Distribution(s, n) {
      var i := KeptOnly(Weights(s), n, |s|, key);
      assert s[i].Norm2() == Weights(s)[i];
    }
    forall i | 0 <= i < Pow2(n) && key == Key(i, n) && s[i].Norm2() >= CUTOFF
      ensures key in Distribution(s, n) && Distribution(s, n)[key] == s[i].Norm2()
    {
      KeptAll(Weights(s), n, |s|, i);
    }
  }

  /** The total of the probabilities below the cutoff among the first m. */
  function Dropped(probs: seq<real>, m: nat): (d: real)
    requires m <= |probs|
  {
    if m == 0 then 0.0
    else Dropped(probs, m - 1) + (if probs[m - 1] < CUTOFF then probs[m - 1] else 0.0)
  }

  lemma {:induction false} DroppedBound(probs: seq<real>, m: nat)
    requires m <= |probs| && forall p :: p in probs ==> p >= 0.0
    ensures 0.0 <= Dropped(probs, m) <= m as real * CUTOFF
    ensures m > 0 ==> Dropped(probs, m) < m as real * CUTOFF
  {
    if m > 0 {
      DroppedBound(probs, m - 1);
      assert probs[m - 1] in probs;
    }
  }

  lemma WeightsNonNegative(s: seq<Complex>)
    ensures forall p :: p in Weights(s) ==> p >= 0.0
  {
    forall z: Complex
      ensures z.Norm2() >= 0.0
    {
      assert z.re * z.re >= 0.0 && z.im * z.im >= 0.0;
    }
  }

  /** Nothing is lost but what is dropped: kept plus dropped is the total of the prefix. */
  lemma {:induction false} KeptPlusDropped(probs: seq<real>, n: nat, m: nat)
    requires |probs| == Pow2(n) && m <= |probs|
    ensures SumValues(Kept(probs, n, m)) + Dropped(probs, m) == Sum(probs[..m])
  {
    if m > 0 {
      KeptPlusDropped(probs, n, m - 1);
      assert probs[..m] == probs[..m - 1] + [probs[m - 1]];
      SumSnoc(probs[..m - 1], probs[m - 1]);
      if probs[m - 1] >= CUTOFF {
        KeyIsNew(probs, n, m);
        var before, key := Kept(probs, n, m - 1), Key(m - 1, n);
        SumInsert(Kept(probs, n, m), key);
        assert Kept(probs, n, m) - {key} == before;
      }
    }
  }

  lemma KeyIsNew(probs: seq<real>, n: nat, m: nat)
    requires |probs| == Pow2(n) && 0 < m <= |probs|
    ensures Key(m - 1, n) !in Kept(probs, n, m - 1)
  {
    if Key(m - 1, n) in Kept(probs, n, m - 1) {
      var i := KeptOnly(probs, n, m - 1, Key(m - 1, n));
      KeyInjective(i, m - 1, n);
    }
  }

  /**
   For every circuit whose gates are supported, the read-out probabilities sum to a value in
   (1 - 2**n * CUTOFF, 1].
   */
  lemma {:induction false} DistributionSum(k: Numerics, circ: Circuit)
    requires k.Valid() && ValidCircuit(circ)
    ensures match RunGates(k, circ.gates, ZeroState(circ.nQubits), circ.nQubits)
            case Ok(s) => 1.0 - Pow2(circ.nQubits) as real * CUTOFF < SumValues(Distribution(s, circ.nQubits)) <= 1.0
            case Err(_) => true
  {
    var n := circ.nQubits;
    var r := RunGates(k, circ.gates, ZeroState(n), n);
    if r.Ok? {
      var probs := Weights(r.value);
      ZeroStateNorm(n);
      RunKeepsNorm(k, circ.gates, ZeroState(n), n);
      KeptPlusDropped(probs, n, |probs|);
      assert probs[..|probs|] == probs;
      WeightsNonNegative(r.value);
      DroppedBound(probs, |probs|);
    }
  }

  lemma {:induction false} Pow2Monotone(a: nat, b: nat)
    requires a <= b
    ensures Pow2(a) <= Pow2(b)
    decreases b - a
  {
    if a < b {
      Pow2Monotone(a + 1, b);
    }
  }

  /** Up to 39 qubits some outcome always survives the cutoff, so renormalising never divides by zero. */
  lemma {:induction false} SomethingIsKept(k: Numerics, circ: Circuit)
    requires k.Valid() && ValidCircuit(circ) && circ.nQubits <= 39
    ensures match RunGates(k, circ.gates, ZeroState(circ.nQubits), circ.nQubits)
            case Ok(s) => SumValues(Distribution(s, circ.nQubits)) > 0.0 && Distribution(s, circ.nQubits) != map[]
            case Err(_) => true
  {
    DistributionSum(k, circ);
    Pow2Monotone(circ.nQubits, 39);
    Pow2Of39();
  }

  lemma Pow2Of39()
    ensures Pow2(39) == 549755813888
  {
    assert Pow2(10) == 1024;
    Pow2Add(10, 9);
    Pow2Add(10, 10);
    Pow2Add(20, 19);
  }
}
