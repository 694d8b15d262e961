/** The public pages' picture of each device: a fold over its snapshots, oldest first, and its ranking. */
module CorpusView {
  import opened CanonicalJson
  import opened Dicts
  import opened Sorting
  import opened CorpusTable

  /** A stored snapshot, with its primary key and the licence columns. */
  datatype Snapshot = Snapshot(
    id: string,
    provider: string,
    backend: string,
    captured: int,
    metrics: map<string, Metric>,
    licence: string)

  datatype DeviceKey = DeviceKey(provider: string, backend: string)

  function DeviceOf(r: Snapshot): DeviceKey {
    DeviceKey(r.provider, r.backend)
  }

  function SnapshotSource(r: Snapshot): Metric {
    if "source" in r.metrics && Truthy(r.metrics["source"]) then r.metrics["source"] else MStr(r.provider)
  }

  /** The sort key (date, metric count, id). */
  predicate Older(a: Snapshot, b: Snapshot) {
    || a.captured < b.captured
    || (a.captured == b.captured && |a.metrics| < |b.metrics|)
    || (a.captured == b.captured && |a.metrics| == |b.metrics| && KeyLess(a.id, b.id))
  }

  datatype Device = Device(
    metrics: map<string, Metric>,
    dates: map<string, int>,
    sources: map<string, Metric>,
    source: Metric,
    captured: int,
    licence: string,
    firstCaptured: int,
    snapshots: nat)

  type View = Dict<DeviceKey, Device>

  /** The metrics a snapshot measures: its source is not one of them, and nulls do not count. */
  predicate Carries(r: Snapshot, metric: string) {
    metric != "source" && metric in r.metrics && r.metrics[metric] != MNull
  }

  function Measured(r: Snapshot): map<string, Metric> {
    map metric | metric in r.metrics && Carries(r, metric) :: r.metrics[metric]
  }

  function NewDevice(r: Snapshot): Device {
    Device(map[], map[], map[], SnapshotSource(r), r.captured, r.licence, r.captured, 0)
  }

  function Absorb(d: Device, r: Snapshot): Device {
    var measured := Measured(r);
    Device(
      d.metrics + measured + map["source" := SnapshotSource(r)],
      d.dates + map metric | metric in measured :: r.captured,
      d.sources + map metric | metric in measured :: SnapshotSource(r),
      SnapshotSource(r), r.captured, r.licence, d.firstCaptured, d.snapshots + 1)
  }

  function AddSnapshot(v: View, r: Snapshot): View {
    var key := DeviceOf(r);
    Put(v, key, Absorb(if key in v.at then v.at[key] else NewDevice(r), r))
  }

  function Fold(rows: seq<Snapshot>): View
    decreases |rows|
  {
    if rows == [] then Dict([], map[]) else AddSnapshot(Fold(rows[..|rows| - 1]), rows[|rows| - 1])
  }

  /** merged_devices */
  method MergedDevices(rows: seq<Snapshot>) returns (v: View)
    ensures v == Fold(Sort(rows, Older))
  {
    var sorted := Sort(rows, Older);
    v := Dict([], map[]);
    for i := 0 to |sorted|
      invariant v == Fold(sorted[..i])
    {
      assert sorted[..i + 1][..i] == sorted[..i];
      var r := sorted[i];
      var key := DeviceOf(r);
      var d := NewDevice(r);
      if key in v.at {
        d := v.at[key];
      }
      v := Put(v, key, Absorb(d, r));
    }
    assert sorted[..|sorted|] == sorted;
  }

  // --- the declarative view ------------------------------------------------------------------

  /** Row i is the last one of its device that carries the metric. */
  ghost predicate LastCarrier(rows: seq<Snapshot>, key: DeviceKey, metric: string, i: nat)
    requires i < |rows|
  {
    && DeviceOf(rows[i]) == key && Carries(rows[i], metric)
    && forall j :: i < j < |rows| ==> DeviceOf(rows[j]) != key || !Carries(rows[j], metric)
  }

  /** The device's value, date and source for a metric are those of one row. */
  ghost predicate Shows(v: View, key: DeviceKey, metric: string, r: Snapshot) {
    && key in v.at
    && metric in v.at[key].metrics && metric in v.at[key].dates && metric in v.at[key].sources
    && metric in r.metrics
    && v.at[key].metrics[metric] == r.metrics[metric]
    && v.at[key].dates[metric] == r.captured
    && v.at[key].sources[metric] == SnapshotSource(r)
  }

  lemma CarrierIsShown(v: View, r: Snapshot, metric: string)
    requires Carries(r, metric)
    ensures Shows(AddSnapshot(v, r), DeviceOf(r), metric, r)
  {}

  lemma OtherRowKeepsShown(v: View, r: Snapshot, key: DeviceKey, metric: string, shown: Snapshot)
    requires Shows(v, key, metric, shown) && metric != "source" && (DeviceOf(r) != key || !Carries(r, metric))
    ensures Shows(AddSnapshot(v, r), key, metric, shown)
  {}

  lemma {:induction false} FoldShowsLast(rows: seq<Snapshot>, key: DeviceKey, metric: string, i: nat)
    requires i < |rows| && LastCarrier(rows, key, metric, i)
    ensures Shows(Fold(rows), key, metric, rows[i])
    decreases |rows|
  {
    var last := |rows| - 1;
    if i < last {
      assert rows[..last][i] == rows[i];
      assert LastCarrier(rows[..last], key, metric, i);
      FoldShowsLast(rows[..last], key, metric, i);
      OtherRowKeepsShown(Fold(rows[..last]), rows[last], key, metric, rows[i]);
    } else {
      CarrierIsShown(Fold(rows[..last]), rows[last], metric);
    }
  }

  predicate HasMetric(v: View, key: DeviceKey, metric: string) {
    key in v.at && metric in v.at[key].metrics
  }

  lemma AddShows(v: View, r: Snapshot, key: DeviceKey, metric: string)
    requires metric != "source"
    ensures HasMetric(AddSnapshot(v, r), key, metric) <==>
            (DeviceOf(r) == key && Carries(r, metric)) || HasMetric(v, key, metric)
  {}

  lemma {:induction false} FoldShowsNothingElse(rows: seq<Snapshot>, key: DeviceKey, metric: string)
    requires metric != "source" && HasMetric(Fold(rows), key, metric)
    ensures exists i :: 0 <= i < |rows| && LastCarrier(rows, key, metric, i)
    decreases |rows|
  {
    var last := |rows| - 1;
    AddShows(Fold(rows[..last]), rows[last], key, metric);
    if DeviceOf(rows[last]) == key && Carries(rows[last], metric) {
      assert LastCarrier(rows, key, metric, last);
    } else {
      FoldShowsNothingElse(rows[..last], key, metric);
      var i :| 0 <= i < last && LastCarrier(rows[..last], key, metric, i);
      LastCarrierStays(rows, key, metric, i);
    }
  }

  lemma LastCarrierStays(rows: seq<Snapshot>, key: DeviceKey, metric: string, i: nat)
    requires i < |rows| - 1 && LastCarrier(rows[..|rows| - 1], key, metric, i)
    requires DeviceOf(rows[|rows| - 1]) != key || !Carries(rows[|rows| - 1], metric)
    ensures LastCarrier(rows, key, metric, i)
  {
    forall j | i < j < |rows|
      ensures DeviceOf(rows[j]) != key || !Carries(rows[j], metric)
    {
      if j < |rows| - 1 {
        assert rows[..|rows| - 1][j] == rows[j];
      }
    }
  }

  predicate DistinctIds(rows: seq<Snapshot>) {
    forall i, j :: 0 <= i < j < |rows| ==> rows[i].id != rows[j].id
  }

  lemma OlderIsWeakOrder()
    ensures WeakOrder(Older)
  {
    forall a, b | Older(a, b)
      ensures !Older(b, a)
    {
      KeyLessTotal(a.id, b.id);
    }
    forall a, b, c | Older(a, c)
      ensures Older(a, b) || Older(b, c)
    {
      KeyLessTotal(a.id, b.id);
      KeyLessTotal(b.id, c.id);
      if KeyLess(b.id, a.id) && KeyLess(a.id, c.id) {
        KeyLessTransitive(b.id, a.id, c.id);
      }
    }
  }

  lemma DistinctIdsDoNotTie(rows: seq<Snapshot>)
    requires DistinctIds(rows)
    ensures NoTies(rows, Older)
  {
    forall i, j | 0 <= i < j < |rows|
      ensures Older(rows[i], rows[j]) || Older(rows[j], rows[i])
    {
      KeyLessTotal(rows[i].id, rows[j].id);
    }
  }

  /** r carries the metric, and every other row of its device that does is older. */
  ghost predicate Newest(rows: seq<Snapshot>, key: DeviceKey, metric: string, r: Snapshot) {
    && r in rows && DeviceOf(r) == key && Carries(r, metric)
    && forall s :: s in rows && DeviceOf(s) == key && Carries(s, metric) && s != r ==> Older(s, r)
  }

  /** Each metric's value, date and source come from the newest row that carries it. */
  lemma {:induction false} ShowsNewest(rows: seq<Snapshot>, key: DeviceKey, metric: string, r: Snapshot)
    requires DistinctIds(rows) && Newest(rows, key, metric, r)
    ensures Shows(Fold(Sort(rows, Older)), key, metric, r)
  {
    var sorted := Sort(rows, Older);
    OlderIsWeakOrder();
    DistinctIdsDoNotTie(rows);
    SortStrict(rows, Older);
    SortElements(rows, Older);
    var i :| 0 <= i < |sorted| && sorted[i] == r;
    forall j | i < j < |sorted|
      ensures DeviceOf(sorted[j]) != key || !Carries(sorted[j], metric)
    {
      assert Older(sorted[i], sorted[j]);
      assert sorted[j] in sorted;
    }
    FoldShowsLast(sorted, key, metric, i);
  }

  /** A device shows a metric exactly when one of its rows carries it. */
  lemma {:induction false} ShowsIffCarried(rows: seq<Snapshot>, key: DeviceKey, metric: string)
    requires DistinctIds(rows) && metric != "source"
    ensures HasMetric(Fold(Sort(rows, Older)), key, metric) <==>
            exists r :: r in rows && DeviceOf(r) == key && Carries(r, metric)
  {
    var sorted := Sort(rows, Older);
    var v := Fold(sorted);
    SortElements(rows, Older);
    if HasMetric(v, key, metric) {
      FoldShowsNothingElse(sorted, key, metric);
      var i :| 0 <= i < |sorted| && LastCarrier(sorted, key, metric, i);
      assert sorted[i] in rows;
    }
    if r :| r in rows && DeviceOf(r) == key && Carries(r, metric) {
      var i :| 0 <= i < |sorted| && sorted[i] == r;
      var j := LastCarrierFrom(sorted, key, metric, i);
      FoldShowsLast(sorted, key, metric, j);
    }
  }

  lemma {:induction false} LastCarrierFrom(rows: seq<Snapshot>, key: DeviceKey, metric: string, i: nat) returns (j: nat)
    requires i < |rows| && DeviceOf(rows[i]) == key && Carries(rows[i], metric)
    ensures j < |rows| && LastCarrier(rows, key, metric, j)
    decreases |rows| - i
  {
    if k :| i < k < |rows| && DeviceOf(rows[k]) == key && Carries(rows[k], metric) {
      j := LastCarrierFrom(rows, key, metric, k);
    } else {
      j := i;
    }
  }

  /** The view does not depend on the order in which the rows were fetched. */
  lemma {:induction false} FetchOrderIgnored(x: seq<Snapshot>, y: seq<Snapshot>)
    requires DistinctIds(x) && DistinctIds(y) && forall r :: r in x <==> r in y
    ensures Fold(Sort(x, Older)) == Fold(Sort(y, Older))
  {
    OlderIsWeakOrder();
    DistinctIdsDoNotTie(x);
    DistinctIdsDoNotTie(y);
    SortIgnoresOrder(x, y, Older);
  }

  // --- the devices listed ----------------------------------------------------------------------

  function SnapshotTotal(v: View, order: seq<DeviceKey>): int
    requires forall i :: 0 <= i < |order| ==> order[i] in v.at
  {
    if order == [] then 0
    else v.at[order[|order| - 1]].snapshots + SnapshotTotal(v, order[..|order| - 1])
  }

  lemma {:induction false} TotalUnchanged(v: View, w: View, order: seq<DeviceKey>)
    requires forall i :: 0 <= i < |order| ==>
      order[i] in v.at && order[i] in w.at && v.at[order[i]].snapshots == w.at[order[i]].snapshots
    ensures SnapshotTotal(v, order) == SnapshotTotal(w, order)
    decreases |order|
  {
    if order != [] {
      TotalUnchanged(v, w, order[..|order| - 1]);
    }
  }

  /** Counting one more snapshot for one listed device raises the total by one. */
  lemma {:induction false} TotalBumped(v: View, w: View, order: seq<DeviceKey>, at: nat)
    requires at < |order| && forall i, j :: 0 <= i < j < |order| ==> order[i] != order[j]
    requires forall i :: 0 <= i < |order| ==> order[i] in v.at && order[i] in w.at
    requires forall i :: 0 <= i < |order| ==>
      w.at[order[i]].snapshots == v.at[order[i]].snapshots + (if i == at then 1 else 0)
    ensures SnapshotTotal(w, order) == SnapshotTotal(v, order) + 1
    decreases |order|
  {
    var last := |order| - 1;
    if at == last {
      TotalUnchanged(v, w, order[..last]);
    } else {
      TotalBumped(v, w, order[..last], at);
    }
  }

  lemma {:induction false} CountsAgain(v: View, r: Snapshot, at: nat)
    requires Listed(v) && at < |v.keys| && v.keys[at] == DeviceOf(r)
    ensures var w := AddSnapshot(v, r);
            w.keys == v.keys && (forall i :: 0 <= i < |v.keys| ==> v.keys[i] in w.at) &&
            SnapshotTotal(w, v.keys) == SnapshotTotal(v, v.keys) + 1
  {
    var w := AddSnapshot(v, r);
    forall i | 0 <= i < |v.keys|
      ensures v.keys[i] in w.at
      ensures w.at[v.keys[i]].snapshots == v.at[v.keys[i]].snapshots + (if i == at then 1 else 0)
    {
      if i != at {
        assert v.keys[i] != v.keys[at];
      }
    }
    TotalBumped(v, w, v.keys, at);
  }

  lemma {:induction false} CountsFirst(v: View, r: Snapshot)
    requires Listed(v) && DeviceOf(r) !in v.at
    ensures var w := AddSnapshot(v, r);
            (forall i :: 0 <= i < |w.keys| ==> w.keys[i] in w.at) &&
            SnapshotTotal(w, w.keys) == SnapshotTotal(v, v.keys) + 1
  {
    var w := AddSnapshot(v, r);
    assert w.keys[..|w.keys| - 1] == v.keys;
    TotalUnchanged(v, w, v.keys);
  }

  lemma {:induction false} AddCounts(v: View, r: Snapshot)
    requires Listed(v)
    ensures var w := AddSnapshot(v, r);
            Listed(w) && SnapshotTotal(w, w.keys) == SnapshotTotal(v, v.keys) + 1
  {
    PutListed(v, DeviceOf(r), AddSnapshot(v, r).at[DeviceOf(r)]);
    if DeviceOf(r) in v.at {
      var at :| 0 <= at < |v.keys| && v.keys[at] == DeviceOf(r);
      CountsAgain(v, r, at);
    } else {
      CountsFirst(v, r);
    }
  }

  /** No snapshot is lost or counted twice: the devices' snapshot counts add up to the rows. */
  lemma {:induction false} SnapshotsAddUp(rows: seq<Snapshot>)
    ensures Listed(Fold(rows)) && SnapshotTotal(Fold(rows), Fold(rows).keys) == |rows|
    decreases |rows|
  {
    if rows != [] {
      SnapshotsAddUp(rows[..|rows| - 1]);
      AddCounts(Fold(rows[..|rows| - 1]), rows[|rows| - 1]);
    }
  }

  // --- the leaderboard ---------------------------------------------------------------------------

  datatype Standing = Standing(device: DeviceKey, value: Metric, captured: int, source: Metric)

  datatype Ranked = Ranked(standing: Standing, rank: nat)

  /** The metric's values are all numbers or all strings: others Python cannot sort. */
  predicate Sortable(v: View, metric: string) {
    || (forall key :: key in v.at && metric in v.at[key].metrics ==> v.at[key].metrics[metric].MNum?)
    || (forall key :: key in v.at && metric in v.at[key].metrics ==> v.at[key].metrics[metric].MStr?)
  }

  /** Python's order on numbers and on strings; it is asked for values of one kind only. */
  predicate MetricLess(a: Metric, b: Metric) {
    match (a, b)
    case (MNum(x), MNum(y)) => x < y
    case (MStr(x), MStr(y)) => KeyLess(x, y)
    case (MNull, _) => !b.MNull?
    case (MNum(_), MStr(_)) => true
    case _ => false
  }

  lemma BetterOrder(higher: bool)
    ensures WeakOrder(Better(higher))
  {
    forall a: Standing, b: Standing
      ensures Better(higher)(a, b) ==> !Better(higher)(b, a)
    {
      MetricOrder(a.value, b.value, a.value);
    }
    forall a: Standing, b: Standing, c: Standing
      ensures Better(higher)(a, c) ==> Better(higher)(a, b) || Better(higher)(b, c)
    {
      MetricOrder(a.value, b.value, c.value);
      MetricOrder(c.value, b.value, a.value);
    }
  }

  lemma MetricOrder(a: Metric, b: Metric, c: Metric)
    ensures MetricLess(a, b) ==> !MetricLess(b, a)
    ensures MetricLess(a, c) ==> MetricLess(a, b) || MetricLess(b, c)
  {
    if a.MStr? && b.MStr? {
      KeyLessTotal(a.s, b.s);
    }
    if a.MStr? && b.MStr? && c.MStr? {
      KeyLessTotal(b.s, c.s);
      if KeyLess(b.s, a.s) && KeyLess(a.s, c.s) {
        KeyLessTransitive(b.s, a.s, c.s);
      }
    }
  }

  function StandingFor(v: View, key: DeviceKey, metric: string): Standing
    requires HasMetric(v, key, metric)
  {
    var d := v.at[key];
    Standing(key, d.metrics[metric],
          if metric in d.dates then d.dates[metric] else d.captured,
          if metric in d.sources then d.sources[metric] else d.source)
  }

  function Standings(v: View, metric: string, order: seq<DeviceKey>): seq<Standing> {
    if order == [] then []
    else
      var key := order[|order| - 1];
      Standings(v, metric, order[..|order| - 1]) +
      (if HasMetric(v, key, metric) then [StandingFor(v, key, metric)] else [])
  }

  function Better(higher: bool): (Standing, Standing) -> bool {
    (a: Standing, b: Standing) => if higher then MetricLess(b.value, a.value) else MetricLess(a.value, b.value)
  }

  /** fleet_leaderboard, over the merged devices. */
  method Leaderboard(v: View, metric: string, higher: bool) returns (board: seq<Ranked>)
    requires Sortable(v, metric)
    ensures |board| == |Standings(v, metric, v.keys)|
    ensures forall i :: 0 <= i < |board| ==>
              board[i] == Ranked(Sort(Standings(v, metric, v.keys), Better(higher))[i], i + 1)
  {
    var standings: seq<Standing> := [];
    for i := 0 to |v.keys|
      invariant standings == Standings(v, metric, v.keys[..i])
    {
      assert v.keys[..i + 1][..i] == v.keys[..i];
      if HasMetric(v, v.keys[i], metric) {
        standings := standings + [StandingFor(v, v.keys[i], metric)];
      }
    }
    assert v.keys[..|v.keys|] == v.keys;
    standings := Sort(standings, Better(higher));
    board := [];
    for i := 0 to |standings|
      invariant |board| == i && forall j :: 0 <= j < i ==> board[j] == Ranked(standings[j], j + 1)
    {
      board := board + [Ranked(standings[i], i + 1)];
    }
  }

  lemma {:induction false} StandingsExactly(v: View, metric: string, order: seq<DeviceKey>, e: Standing)
    ensures e in Standings(v, metric, order) <==>
            exists i :: 0 <= i < |order| && HasMetric(v, order[i], metric) && e == StandingFor(v, order[i], metric)
    decreases |order|
  {
    if order != [] {
      var last := |order| - 1;
      StandingsExactly(v, metric, order[..last], e);
      assert forall i :: 0 <= i < last ==> order[..last][i] == order[i];
      if i :| 0 <= i < |order| && HasMetric(v, order[i], metric) && e == StandingFor(v, order[i], metric) {
        if i < last {
          assert HasMetric(v, order[..last][i], metric) && e == StandingFor(v, order[..last][i], metric);
        }
      }
    }
  }

  /** The leaderboard lists exactly the devices that have the metric, best first. */
  lemma {:induction false} LeaderboardRanks(v: View, metric: string, higher: bool)
    requires Listed(v)
    ensures var ranked := Sort(Standings(v, metric, v.keys), Better(higher));
            && (forall e :: e in ranked <==> HasMetric(v, e.device, metric) && e == StandingFor(v, e.device, metric))
            && forall i, j :: 0 <= i < j < |ranked| ==>
                 if higher then !MetricLess(ranked[i].value, ranked[j].value)
                 else !MetricLess(ranked[j].value, ranked[i].value)
  {
    var all := Standings(v, metric, v.keys);
    var ranked := Sort(all, Better(higher));
    BetterOrder(higher);
    SortSorted(all, Better(higher));
    SortElements(all, Better(higher));
    forall e
      ensures e in ranked <==> HasMetric(v, e.device, metric) && e == StandingFor(v, e.device, metric)
    {
      StandingsExactly(v, metric, v.keys, e);
      if HasMetric(v, e.device, metric) {
        assert e.device in v.keys;
        var i :| 0 <= i < |v.keys| && v.keys[i] == e.device;
      }
    }
    forall i, j | 0 <= i < j < |ranked|
      ensures if higher then !MetricLess(ranked[i].value, ranked[j].value)
              else !MetricLess(ranked[j].value, ranked[i].value)
    {
      assert !Better(higher)(ranked[j], ranked[i]);
    }
  }
}
