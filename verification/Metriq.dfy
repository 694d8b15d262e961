/** Building device histories from benchmark files: grouping, the per-day merge and the deadline cut. */
module Metriq {
  import opened CanonicalJson
  import opened CorpusTable
  import opened Dicts
  import opened Sorting
  import opened Wrappers

  datatype Device = Device(maker: string, backend: string)

  /** A data file whose path has been taken apart; name is the path's last component. */
  datatype File = File(device: Device, benchmark: string, name: string, path: string)

  datatype Stamp = NoStamp | BadStamp | At(seconds: int)

  /**
    * What fetching a file gives: no document, an empty list or another document that is not a dict, or a dict;
    * results holds the numeric entries and qubits is 0.0 when absent.
    */
  datatype Fetched = Failed | Malformed | Doc(results: map<string, real>, score: Option<real>, stamp: Stamp,
    qubits: real)

  datatype Benchmark = Benchmark(metric: string, fields: seq<string>)

  const BENCHMARKS: map<string, Benchmark> := map[
    "eplg" := Benchmark("eplg", ["eplg_10"]),
    "clops" := Benchmark("clops", ["clops_score", "steady_state_clops"]),
    "bseq" := Benchmark("bseq", ["largest_connected_size"]),
    "quantum_fourier_transform" := Benchmark("qft_accuracy", ["accuracy_score"]),
    "linear_ramp_qaoa" := Benchmark("qaoa_ratio", ["effective_approx_ratio", "approx_ratio"])
  ]

  /** _first: the first field present, else the score. */
  function First(results: map<string, real>, score: Option<real>, fields: seq<string>): Option<real>
    decreases |fields|
  {
    if fields == [] then score
    else if fields[0] in results then Some(results[fields[0]])
    else First(results, score, fields[1..])
  }

  datatype Record = Record(metric: string, value: real, captured: int, qubits: real, path: string)

  /**
   The measurement in a file: none when it cannot be used, an error when it is not a dict or its timestamp cannot be
   read.
   */
  function Measure(f: File, doc: Fetched): (m: Result<Option<Record>>)
    ensures m.Ok? && m.value.Some? ==> m.value.value.metric != "n_qubits"
  {
    if f.benchmark !in BENCHMARKS || doc.Failed? then Ok(None)
    else if doc.Malformed? then Err("the document is not a dict")
    else
      var value := First(doc.results, doc.score, BENCHMARKS[f.benchmark].fields);
      if value.None? || doc.stamp.NoStamp? then Ok(None)
      else if doc.stamp.BadStamp? then Err("Invalid isoformat string")
      else Ok(Some(Record(BENCHMARKS[f.benchmark].metric, value.value, doc.stamp.seconds, doc.qubits, f.path)))
  }

  datatype Provenance = Provenance(metric: string, value: real, captured: int, path: string)

  datatype Day = Day(captured: int, metrics: map<string, Metric>, provenance: Dict<string, Provenance>)

  type Days = Dict<int, Day>

  type Devices = Dict<Device, Days>

  function DayNumber(captured: int): int {
    captured / 86400
  }

  function NewDay(r: Record): Day {
    Day(r.captured, map[], Dict([], map[]))
  }

  /** A measurement counts when nothing of the day is later, or when it is the first of its metric. */
  predicate Taken(d: Day, r: Record) {
    r.captured >= d.captured || r.metric !in d.metrics
  }

  function AddToDay(d: Day, r: Record, round: real -> real): Day {
    var metrics := if Taken(d, r) then d.metrics[r.metric := MNum(round(r.value))] else d.metrics;
    var provenance :=
      if Taken(d, r) then Put(d.provenance, r.metric, Provenance(r.metric, r.value, r.captured, r.path))
      else d.provenance;
    Day(if d.captured < r.captured then r.captured else d.captured,
        if r.qubits != 0.0 then metrics["n_qubits" := MNum(r.qubits)] else metrics,
        provenance)
  }

  function AddToDays(days: Days, r: Record, round: real -> real): Days {
    var n := DayNumber(r.captured);
    Put(days, n, AddToDay(if n in days.at then days.at[n] else NewDay(r), r, round))
  }

  function AddRecord(all: Devices, device: Device, r: Record, round: real -> real): Devices {
    Put(all, device, AddToDays(if device in all.at then all.at[device] else Dict([], map[]), r, round))
  }

  ghost predicate DaysListed(days: Days) {
    Listed(days) && forall n :: n in days.at ==> Listed(days.at[n].provenance)
  }

  ghost predicate AllListed(all: Devices) {
    Listed(all) && forall device :: device in all.at ==> DaysListed(all.at[device])
  }

  lemma AddToDaysListed(days: Days, r: Record, round: real -> real)
    requires DaysListed(days)
    ensures DaysListed(AddToDays(days, r, round))
  {
    var n := DayNumber(r.captured);
    var day := if n in days.at then days.at[n] else NewDay(r);
    PutListed(day.provenance, r.metric, Provenance(r.metric, r.value, r.captured, r.path));
    PutListed(days, n, AddToDay(day, r, round));
  }

  lemma AddRecordListed(all: Devices, device: Device, r: Record, round: real -> real)
    requires AllListed(all)
    ensures AllListed(AddRecord(all, device, r, round))
  {
    var days: Days := if device in all.at then all.at[device] else Dict([], map[]);
    AddToDaysListed(days, r, round);
    PutListed(all, device, AddToDays(days, r, round));
  }

  predicate DeviceLess(a: Device, b: Device) {
    KeyLess(a.maker, b.maker) || (a.maker == b.maker && KeyLess(a.backend, b.backend))
  }

  predicate FileLess(a: File, b: File) {
    DeviceLess(a.device, b.device) || (a.device == b.device && KeyLess(a.name, b.name))
  }

  /** Only files of a known benchmark are entries. */
  function Known(files: seq<File>): (entries: seq<File>)
    ensures forall i :: 0 <= i < |entries| ==> entries[i].benchmark in BENCHMARKS
  {
    if files == [] then []
    else
      var last := files[|files| - 1];
      Known(files[..|files| - 1]) + (if last.benchmark in BENCHMARKS then [last] else [])
  }

  function Entries(files: seq<File>): seq<File> {
    Sort(Known(files), FileLess)
  }

  type Meter = File -> Result<Option<Record>>

  function MeterOf(fetch: string -> Fetched): Meter {
    (f: File) => Measure(f, fetch(f.path))
  }

  /** Everything collected from a list of entries. */
  function Collect(entries: seq<File>, measure: Meter, round: real -> real): Result<Devices>
    decreases |entries|
  {
    if entries == [] then Ok(Dict([], map[]))
    else
      var f := entries[|entries| - 1];
      match Collect(entries[..|entries| - 1], measure, round)
      case Err(e) => Err(e)
      case Ok(all) =>
        match measure(f)
        case Err(e) => Err(e)
        case Ok(None) => Ok(all)
        case Ok(Some(r)) => Ok(AddRecord(all, f.device, r, round))
  }

  lemma {:induction false} CollectListed(entries: seq<File>, measure: Meter, round: real -> real)
    requires Collect(entries, measure, round).Ok?
    ensures AllListed(Collect(entries, measure, round).value)
    decreases |entries|
  {
    if entries != [] {
      var last := |entries| - 1;
      CollectListed(entries[..last], measure, round);
      if measure(entries[last]).value.Some? {
        AddRecordListed(Collect(entries[..last], measure, round).value, entries[last].device,
                        measure(entries[last]).value.value, round);
      }
    }
  }

  // --- publishing ----------------------------------------------------------------------------

  datatype Snap = Snap(captured: int, metrics: map<string, Metric>, provenance: seq<(string, Provenance)>)

  datatype Series = Series(device: Device, snapshots: seq<Snap>)

  function SnapOf(day: Day): Snap
    requires Listed(day.provenance)
  {
    Snap(day.captured, day.metrics["source" := MStr("metriq")], SortedItems(day.provenance, KeyLess))
  }

  lemma DayItemsListed(days: Days, items: seq<(int, Day)>)
    requires DaysListed(days) && forall i :: 0 <= i < |items| ==>
             items[i].0 in days.at && items[i].1 == days.at[items[i].0]
    ensures forall i :: 0 <= i < |items| ==> Listed(items[i].1.provenance)
  {
    forall i | 0 <= i < |items|
      ensures Listed(items[i].1.provenance)
    {
      var n := items[i].0;
      assert n in days.at;
    }
  }

  function Snapshots(days: Days): seq<Snap>
    requires DaysListed(days)
  {
    var items := SortedItems(days, (a: int, b: int) => a < b);
    DayItemsListed(days, items);
    seq(|items|, i requires 0 <= i < |items| => SnapOf(items[i].1))
  }

  function Publish(all: Devices): seq<Series>
    requires AllListed(all)
  {
    var items := SortedItems(all, DeviceLess);
    seq(|items|, i requires 0 <= i < |items| => Series(items[i].0, Snapshots(items[i].1)))
  }

  // --- the deadline ------------------------------------------------------------------------------

  predicate Boundary(entries: seq<File>, i: nat)
    requires i < |entries|
  {
    i == 0 || entries[i].device != entries[i - 1].device
  }

  /** Where a build stops, when late(i) says that the clock is past the deadline at entry i. */
  function Cut(entries: seq<File>, late: nat -> bool, i: nat): (cut: nat)
    requires i <= |entries|
    ensures i <= cut <= |entries|
    ensures cut < |entries| ==> Boundary(entries, cut) && late(cut)
    decreases |entries| - i
  {
    if i == |entries| then i
    else if Boundary(entries, i) && late(i) then i
    else Cut(entries, late, i + 1)
  }

  lemma CollectNext(entries: seq<File>, i: nat, measure: Meter, round: real -> real)
    requires i < |entries| && Collect(entries[..i], measure, round).Ok?
    ensures var m, before := measure(entries[i]), Collect(entries[..i], measure, round);
            Collect(entries[..i + 1], measure, round) ==
            if m.Err? then Err(m.error)
            else if m.value.None? then before
            else Ok(AddRecord(before.value, entries[i].device, m.value.value, round))
  {
    assert entries[..i + 1][..i] == entries[..i];
  }

  /** build_series */
  method BuildSeries(files: seq<File>, fetch: string -> Fetched, late: nat -> bool, round: real -> real)
    returns (built: Result<seq<Series>>, complete: bool)
    ensures var entries := Entries(files);
            var collected := Collect(entries[..Cut(entries, late, 0)], MeterOf(fetch), round);
            && (collected.Err? ==> built == Err(collected.error))
            && (collected.Ok? ==> AllListed(collected.value) && built == Ok(Publish(collected.value)))
            && (collected.Ok? ==> (complete <==> Cut(entries, late, 0) == |entries|))
  {
    var entries := Entries(files);
    ghost var measure := MeterOf(fetch);
    var devices: Devices := Dict([], map[]);
    var current: Option<Device> := None;
    complete := true;
    var i := 0;
    while i < |entries|
      invariant 0 <= i <= |entries| && complete
      invariant current == if i == 0 then None else Some(entries[i - 1].device)
      invariant Cut(entries, late, i) == Cut(entries, late, 0)
      invariant Collect(entries[..i], measure, round) == Ok(devices)
    {
      var f := entries[i];
      if Some(f.device) != current {
        if late(i) {
          complete := false;
          break;
        }
        current := Some(f.device);
      }
      CollectNext(entries, i, measure, round);
      match Measure(f, fetch(f.path)) {
        case Err(e) =>
          CollectFailsOn(entries, i + 1, Cut(entries, late, 0), measure, round);
          return Err(e), complete;
        case Ok(None) =>
        case Ok(Some(r)) =>
          devices := AddRecord(devices, f.device, r, round);
      }
      i := i + 1;
    }
    assert i == Cut(entries, late, 0);
    CollectListed(entries[..i], measure, round);
    built := Ok(Publish(devices));
  }

  lemma {:induction false} CollectFailsOn(entries: seq<File>, i: nat, n: nat, measure: Meter, round: real -> real)
    requires i <= n <= |entries| && Collect(entries[..i], measure, round).Err?
    ensures Collect(entries[..n], measure, round) == Err(Collect(entries[..i], measure, round).error)
    decreases n
  {
    if i < n {
      CollectFailsOn(entries, i, n - 1, measure, round);
      assert entries[..n][..n - 1] == entries[..n - 1];
    }
  }
}
