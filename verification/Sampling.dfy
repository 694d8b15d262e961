/** Sampling counts from a read-out, with depolarising and read-out noise; the random draws are arbitrary inputs. */
module Sampling {
  import opened MultiIndex
  import opened Readout
  import opened Wrappers

  // --- read-out noise ----------------------------------------------------------------------------

  datatype Rates = Rates(meas1Prep0: Option<real>, meas0Prep1: Option<real>, readoutError: Option<real>)

  type Calibration = map<nat, Rates>

  /** Python's "x or default". */
  function Or(x: Option<real>, default: real): real {
    if x.None? || x.value == 0.0 then default else x.value
  }

  /** The chance that a qubit prepared as ch is read the other way. */
  function Rate(q: Rates, ch: char): real {
    Or(if ch == '0' then q.meas1Prep0 else q.meas0Prep1, Or(q.readoutError, 0.0) * 0.5)
  }

  function Opposite(ch: char): char {
    if ch == '0' then '1' else '0'
  }

  predicate Flips(ch: char, place: nat, calib: Calibration, draw: real) {
    place in calib && draw < Rate(calib[place], ch)
  }

  /** One character after read-out; a character without calibration is read as it is. */
  function ReadAs(ch: char, place: nat, calib: Calibration, draw: real): char {
    if Flips(ch, place, calib, draw) then Opposite(ch) else ch
  }

  function Flipped(bit: string, calib: Option<Calibration>, draws: nat -> real): (r: string)
    ensures |r| == |bit|
  {
    seq(|bit|, k requires 0 <= k < |bit| => if calib.None? then bit[k] else ReadAs(bit[k], k, calib.value, draws(k)))
  }

  /** _readout_flip, with the draw used for each place */
  method ReadoutFlip(bit: string, calib: Option<Calibration>, draws: nat -> real) returns (r: string)
    ensures r == Flipped(bit, calib, draws)
  {
    r := bit;
    if calib.None? {
      return;
    }
    for k := 0 to |bit|
      invariant |r| == |bit|
      invariant forall j :: 0 <= j < |bit| ==>
                r[j] == if j < k then ReadAs(bit[j], j, calib.value, draws(j)) else bit[j]
    {
      if k in calib.value {
        if draws(k) < Rate(calib.value[k], r[k]) {
          r := r[k := Opposite(r[k])];
        }
      }
    }
  }

  /** Place k of a key holds the outcome of qubit n-1-k, and is flipped at the rates calibrated for qubit k. */
  lemma {:induction false} ReadoutIsMirrored(i: nat, n: nat, k: nat, calib: Calibration, draws: nat -> real)
    requires i < Pow2(n) && k < n
    ensures |Key(i, n)| == n
    ensures Flipped(Key(i, n), Some(calib), draws)[k] == ReadAs(Digit(Unravel(i, n)[n - 1 - k]), k, calib, draws(k))
  {
    KeyCharacter(i, n, k);
    FlippedAt(Key(i, n), calib, draws, k, Digit(Unravel(i, n)[n - 1 - k]));
  }

  lemma FlippedAt(bit: string, calib: Calibration, draws: nat -> real, k: nat, ch: char)
    requires k < |bit| && bit[k] == ch
    ensures Flipped(bit, Some(calib), draws)[k] == ReadAs(ch, k, calib, draws(k))
  {}

  /** rng.random() */
  ghost predicate UnitDraws(draws: nat -> real) {
    forall k :: 0.0 <= draws(k) < 1.0
  }

  /** Every outcome is read at the rates of the qubit whose bit it holds. */
  ghost predicate ReadAtOwnRates(n: nat, calib: Calibration) {
    forall i: nat, k: nat, draws: nat -> real :: i < Pow2(n) && k < n && UnitDraws(draws) ==>
      ReadByOwner(n, calib, i, k, draws)
  }

  predicate ReadByOwner(n: nat, calib: Calibration, i: nat, k: nat, draws: nat -> real)
    requires i < Pow2(n) && k < n
  {
    Flipped(Key(i, n), Some(calib), draws)[k] == ReadAs(Digit(Unravel(i, n)[n - 1 - k]), n - 1 - k, calib, draws(k))
  }

  /** The chance that the outcome ch of a qubit is flipped: none without calibration. */
  function FlipChance(calib: Calibration, q: nat, ch: char): (p: real)
    ensures 0.0 <= p <= 1.0
    ensures forall draw :: 0.0 <= draw < 1.0 ==> (Flips(ch, q, calib, draw) <==> draw < p)
  {
    if q !in calib || Rate(calib[q], ch) < 0.0 then 0.0
    else if Rate(calib[q], ch) > 1.0 then 1.0
    else Rate(calib[q], ch)
  }

  predicate MirrorImages(n: nat, calib: Calibration) {
    forall q: nat, ch :: q < n && (ch == '0' || ch == '1') ==>
      FlipChance(calib, q, ch) == FlipChance(calib, n - 1 - q, ch)
  }

  /** A position whose every bit is b. */
  lemma UniformPosition(n: nat, b: bool) returns (i: nat)
    ensures i < Pow2(n) && forall q :: 0 <= q < n ==> Unravel(i, n)[q] == b
  {
    var idx := seq(n, q => b);
    i := Ravel(idx);
    UnravelRavel(idx);
  }

  lemma {:induction false} OwnRatesAt(n: nat, calib: Calibration, i: nat, k: nat, draw: real)
    requires ReadAtOwnRates(n, calib) && i < Pow2(n) && k < n && 0.0 <= draw < 1.0
    ensures var ch := Digit(Unravel(i, n)[n - 1 - k]); Flips(ch, k, calib, draw) <==> Flips(ch, n - 1 - k, calib, draw)
  {
    var draws := (j: nat) => draw;
    ReadoutIsMirrored(i, n, k, calib, draws);
    assert UnitDraws(draws);
    assert ReadByOwner(n, calib, i, k, draws);
  }

  /** A draw between two different chances tells them apart. */
  lemma DrawSeparates(n: nat, calib: Calibration, k: nat, b: bool, low: nat, high: nat)
    requires ReadAtOwnRates(n, calib) && k < n && low + high == n - 1 && (k == low || k == high)
    ensures FlipChance(calib, low, Digit(b)) >= FlipChance(calib, high, Digit(b))
  {
    var p := FlipChance(calib, low, Digit(b));
    if p < FlipChance(calib, high, Digit(b)) {
      var i := UniformPosition(n, b);
      OwnRatesAt(n, calib, i, k, p);
    }
  }

  /** The mirroring goes unnoticed exactly when the qubits q and n-1-q are calibrated to the same chances. */
  lemma MirroringUnnoticedIff(n: nat, calib: Calibration)
    ensures ReadAtOwnRates(n, calib) <==> MirrorImages(n, calib)
  {
    if ReadAtOwnRates(n, calib) {
      forall q: nat, ch | q < n && (ch == '0' || ch == '1')
        ensures FlipChance(calib, q, ch) == FlipChance(calib, n - 1 - q, ch)
      {
        DrawSeparates(n, calib, q, ch == '1', q, n - 1 - q);
        DrawSeparates(n, calib, q, ch == '1', n - 1 - q, q);
      }
    }
    if MirrorImages(n, calib) {
      forall i: nat, k: nat, draws: nat -> real | i < Pow2(n) && k < n && UnitDraws(draws)
        ensures ReadByOwner(n, calib, i, k, draws)
      {
        ReadoutIsMirrored(i, n, k, calib, draws);
        var ch := Digit(Unravel(i, n)[n - 1 - k]);
        assert FlipChance(calib, k, ch) == FlipChance(calib, n - 1 - k, ch);
        assert Flips(ch, k, calib, draws(k)) <==> Flips(ch, n - 1 - k, calib, draws(k));
      }
    }
  }

  // --- counts ------------------------------------------------------------------------------------

  /** A shot: whether it depolarised, the bits it drew before read-out, and its read-out draws. */
  datatype Shot = Shot(depolarised: bool, bits: string, draws: nat -> real)

  type Counts = map<string, nat>

  /** A depolarised shot draws the key of any position, another one a key of the read-out. */
  ghost predicate ValidShot(s: Shot, dist: map<string, real>, n: nat) {
    if s.depolarised then exists v :: 0 <= v < Pow2(n) && s.bits == Key(v, n) else s.bits in dist
  }

  function Outcomes(shots: seq<Shot>, calib: Option<Calibration>): (r: seq<string>)
    ensures |r| == |shots|
  {
    if shots == [] then []
    else
      var last := shots[|shots| - 1];
      Outcomes(shots[..|shots| - 1], calib) + [Flipped(last.bits, calib, last.draws)]
  }

  lemma {:induction false} TallyNext(shots: seq<Shot>, calib: Option<Calibration>, i: nat, bit: string)
    requires i < |shots| && bit == Flipped(shots[i].bits, calib, shots[i].draws)
    ensures Tally(Outcomes(shots[..i + 1], calib)) == CountOne(Tally(Outcomes(shots[..i], calib)), bit)
  {
    assert shots[..i + 1][..i] == shots[..i];
    var before := Outcomes(shots[..i], calib);
    assert (before + [bit])[..i] == before;
  }

  function CountOne(counts: Counts, bit: string): Counts {
    counts[bit := 1 + if bit in counts then counts[bit] else 0]
  }

  function Tally(outcomes: seq<string>): Counts {
    if outcomes == [] then map[] else CountOne(Tally(outcomes[..|outcomes| - 1]), outcomes[|outcomes| - 1])
  }

  predicate AllDepolarised(shots: seq<Shot>) {
    forall i :: 0 <= i < |shots| ==> shots[i].depolarised
  }

  /** The sampling loop of run_counts; choosing from an empty read-out raises. */
  method RunCounts(dist: map<string, real>, calib: Option<Calibration>, shots: seq<Shot>) returns (r: Result<Counts>)
    ensures r.Err? <==> dist == map[] && !AllDepolarised(shots)
    ensures r.Ok? ==> r.value == Tally(Outcomes(shots, calib))
  {
    var counts: Counts := map[];
    var nothing := dist == map[];
    for i := 0 to |shots|
      invariant counts == Tally(Outcomes(shots[..i], calib))
      invariant nothing ==> forall j :: 0 <= j < i ==> shots[j].depolarised
    {
      if nothing && !shots[i].depolarised {
        return Err("a cannot be empty");
      }
      var bit := ReadoutFlip(shots[i].bits, calib, shots[i].draws);
      TallyNext(shots, calib, i, bit);
      counts := CountOne(counts, bit);
    }
    assert shots[..|shots|] == shots;
    return Ok(counts);
  }

  /** Every counted outcome is an n-character string over the read-out's alphabet. */
  lemma {:induction false} OutcomesAreBits(dist: map<string, real>, n: nat, calib: Option<Calibration>,
      shots: seq<Shot>, i: nat)
    requires i < |shots| && ValidShot(shots[i], dist, n)
    requires forall key :: key in dist ==> exists v :: 0 <= v < Pow2(n) && key == Key(v, n)
    ensures |Outcomes(shots, calib)[i]| == if n == 0 then 1 else n
    decreases |shots|
  {
    var last := |shots| - 1;
    if i < last {
      OutcomesAreBits(dist, n, calib, shots[..last], i);
    } else {
      var v :| 0 <= v < Pow2(n) && shots[i].bits == Key(v, n);
    }
  }

  function Occurrences(outcomes: seq<string>, key: string): nat {
    if outcomes == [] then 0
    else Occurrences(outcomes[..|outcomes| - 1], key) + (if outcomes[|outcomes| - 1] == key then 1 else 0)
  }

  /** Each outcome is counted as often as it was drawn, and nothing else is counted. */
  lemma {:induction false} TallyCounts(outcomes: seq<string>, key: string)
    ensures key in Tally(outcomes) <==> Occurrences(outcomes, key) > 0
    ensures key in Tally(outcomes) ==> Tally(outcomes)[key] == Occurrences(outcomes, key)
  {
    if outcomes != [] {
      TallyCounts(outcomes[..|outcomes| - 1], key);
    }
  }

  ghost function Total(counts: Counts): nat
    decreases |counts|
  {
    if counts == map[] then 0
    else
      var k :| k in counts;
      assert (counts - {k}).Keys == counts.Keys - {k};
      counts[k] + Total(counts - {k})
  }

  lemma {:induction false} TotalWithout(counts: Counts, k: string)
    requires k in counts
    ensures Total(counts) == counts[k] + Total(counts - {k})
    decreases |counts|
  {
    var j :| j in counts && Total(counts) == counts[j] + Total(counts - {j});
    if j != k {
      assert (counts - {j}).Keys == counts.Keys - {j} && (counts - {k}).Keys == counts.Keys - {k};
      TotalWithout(counts - {j}, k);
      TotalWithout(counts - {k}, j);
      assert counts - {j} - {k} == counts - {k} - {j};
    }
  }

  /** No shot is lost or counted twice. */
  lemma {:induction false} CountsAddUp(outcomes: seq<string>)
    ensures Total(Tally(outcomes)) == |outcomes|
  {
    if outcomes != [] {
      var n := |outcomes| - 1;
      var before, after, last := Tally(outcomes[..n]), Tally(outcomes), outcomes[n];
      CountsAddUp(outcomes[..n]);
      TotalWithout(after, last);
      assert after - {last} == before - {last};
      if last in before {
        TotalWithout(before, last);
      } else {
        assert before - {last} == before;
      }
    }
  }
}
