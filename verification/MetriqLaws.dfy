/**
 What a history build promises: a cut-short build is a whole-device prefix, and a day is a merge of its
 measurements.
 */
module MetriqLaws {
  import opened CanonicalJson
  import opened CorpusTable
  import opened Dicts
  import opened Metriq
  import opened Sorting
  import opened Wrappers

  // --- the order of the entries ----------------------------------------------------------------

  lemma DeviceOrder()
    ensures WeakOrder(DeviceLess)
    ensures forall a, b :: a == b || DeviceLess(a, b) || DeviceLess(b, a)
  {
    forall a, b
      ensures a == b || DeviceLess(a, b) || DeviceLess(b, a)
      ensures DeviceLess(a, b) ==> !DeviceLess(b, a)
    {
      KeyLessTotal(a.maker, b.maker);
      KeyLessTotal(a.backend, b.backend);
    }
    forall a, b, c | DeviceLess(a, c)
      ensures DeviceLess(a, b) || DeviceLess(b, c)
    {
      KeyLessTotal(a.maker, b.maker);
      KeyLessTotal(b.maker, c.maker);
      KeyLessTotal(a.backend, b.backend);
      KeyLessTotal(b.backend, c.backend);
      if KeyLess(b.maker, a.maker) && KeyLess(a.maker, c.maker) {
        KeyLessTransitive(b.maker, a.maker, c.maker);
      }
      if KeyLess(b.backend, a.backend) && KeyLess(a.backend, c.backend) {
        KeyLessTransitive(b.backend, a.backend, c.backend);
      }
    }
  }

  lemma FileOrder()
    ensures WeakOrder(FileLess)
  {
    DeviceOrder();
    forall a, b
      ensures FileLess(a, b) ==> !FileLess(b, a)
    {
      KeyLessTotal(a.name, b.name);
    }
    forall a, b, c | FileLess(a, c)
      ensures FileLess(a, b) || FileLess(b, c)
    {
      KeyLessTotal(a.name, b.name);
      KeyLessTotal(b.name, c.name);
      if KeyLess(b.name, a.name) && KeyLess(a.name, c.name) {
        KeyLessTransitive(b.name, a.name, c.name);
      }
      assert DeviceLess(a.device, c.device) ==> DeviceLess(a.device, b.device) || DeviceLess(b.device, c.device);
    }
  }

  ghost predicate ByDevice(entries: seq<File>) {
    forall i, j :: 0 <= i < j < |entries| ==> !DeviceLess(entries[j].device, entries[i].device)
  }

  lemma EntriesByDevice(files: seq<File>)
    ensures ByDevice(Entries(files))
  {
    FileOrder();
    SortSorted(Known(files), FileLess);
  }

  /** No device has entries on both sides of a cut. */
  ghost predicate Separate(entries: seq<File>, cut: nat) {
    forall i, j :: 0 <= i < cut <= j < |entries| ==> entries[i].device != entries[j].device
  }

  lemma BoundarySeparates(entries: seq<File>, cut: nat)
    requires ByDevice(entries) && cut <= |entries| && (cut < |entries| ==> Boundary(entries, cut))
    ensures Separate(entries, cut)
  {
    DeviceOrder();
    forall i, j | 0 <= i < cut <= j < |entries|
      ensures entries[i].device != entries[j].device
    {
      var before, after := entries[cut - 1].device, entries[cut].device;
      assert DeviceLess(before, after);
      assert i == cut - 1 || !DeviceLess(before, entries[i].device);
      assert j == cut || !DeviceLess(entries[j].device, after);
    }
  }

  // --- a cut-short build ---------------------------------------------------------------------------

  lemma {:induction false} CollectedBefore(entries: seq<File>, n: nat, measure: Meter, round: real -> real)
    requires n <= |entries| && Collect(entries, measure, round).Ok?
    ensures Collect(entries[..n], measure, round).Ok?
  {
    if Collect(entries[..n], measure, round).Err? {
      CollectFailsOn(entries, n, |entries|, measure, round);
      assert entries[..|entries|] == entries;
    }
  }

  ghost predicate Occurs(entries: seq<File>, n: nat, device: Device)
    requires n <= |entries|
  {
    exists i :: 0 <= i < n && entries[i].device == device
  }

  lemma {:induction false} CollectKeys(entries: seq<File>, measure: Meter, round: real -> real, device: Device)
    requires entries != [] && Collect(entries, measure, round).Ok?
    requires device in Collect(entries, measure, round).value.at && device != entries[|entries| - 1].device
    ensures Collect(entries[..|entries| - 1], measure, round).Ok?
    ensures device in Collect(entries[..|entries| - 1], measure, round).value.at
  {}

  lemma {:induction false} CollectedOccur(entries: seq<File>, measure: Meter, round: real -> real, device: Device)
    requires Collect(entries, measure, round).Ok? && device in Collect(entries, measure, round).value.at
    ensures Occurs(entries, |entries|, device)
    decreases |entries|
  {
    var last := |entries| - 1;
    if entries[last].device != device {
      CollectKeys(entries, measure, round, device);
      CollectedOccur(entries[..last], measure, round, device);
      var i :| 0 <= i < last && entries[..last][i].device == device;
      assert entries[i].device == device;
    }
  }

  lemma CollectedOccurBefore(entries: seq<File>, cut: nat, measure: Meter, round: real -> real, device: Device)
    requires cut <= |entries| && Collect(entries[..cut], measure, round).Ok?
    requires device in Collect(entries[..cut], measure, round).value.at
    ensures Occurs(entries, cut, device)
  {
    CollectedOccur(entries[..cut], measure, round, device);
    var i :| 0 <= i < cut && entries[..cut][i].device == device;
    assert entries[i].device == device;
  }

  /** big is small with other devices added behind it. */
  ghost predicate Extends(small: Devices, big: Devices) {
    small.keys <= big.keys && forall device :: device in small.at ==>
      device in big.at && big.at[device] == small.at[device]
  }

  ghost predicate KeysSorted(all: Devices) {
    StrictlySorted(all.keys, DeviceLess)
  }

  ghost predicate AllBelow(keys: seq<Device>, device: Device) {
    forall i :: 0 <= i < |keys| ==> DeviceLess(keys[i], device)
  }

  lemma SnocSorted(keys: seq<Device>, device: Device)
    requires StrictlySorted(keys, DeviceLess)
    requires AllBelow(keys, device)
    ensures StrictlySorted(keys + [device], DeviceLess)
  {}

  /** The devices come in ascending order already. */
  lemma {:induction false} CollectSorted(entries: seq<File>, measure: Meter, round: real -> real)
    requires ByDevice(entries) && Collect(entries, measure, round).Ok?
    ensures KeysSorted(Collect(entries, measure, round).value)
    decreases |entries|
  {
    if entries != [] {
      var last := |entries| - 1;
      var device := entries[last].device;
      CollectSorted(entries[..last], measure, round);
      CollectListed(entries[..last], measure, round);
      var keys := Collect(entries[..last], measure, round).value.keys;
      if device !in Collect(entries[..last], measure, round).value.at {
        KeysBelow(entries, measure, round);
        SnocSorted(keys, device);
      }
    }
  }

  lemma KeysBelow(entries: seq<File>, measure: Meter, round: real -> real)
    requires entries != [] && ByDevice(entries) && Collect(entries[..|entries| - 1], measure, round).Ok?
    requires entries[|entries| - 1].device !in Collect(entries[..|entries| - 1], measure, round).value.at
    ensures AllBelow(Collect(entries[..|entries| - 1], measure, round).value.keys, entries[|entries| - 1].device)
  {
    var last := |entries| - 1;
    var before := Collect(entries[..last], measure, round).value;
    CollectListed(entries[..last], measure, round);
    DeviceOrder();
    forall i | 0 <= i < |before.keys|
      ensures DeviceLess(before.keys[i], entries[last].device)
    {
      CollectedOccurBefore(entries, last, measure, round, before.keys[i]);
    }
  }

  lemma SeparateFromCut(entries: seq<File>, cut: nat, n: nat, measure: Meter, round: real -> real)
    requires Separate(entries, cut) && cut <= n < |entries| && Collect(entries[..cut], measure, round).Ok?
    ensures entries[n].device !in Collect(entries[..cut], measure, round).value.at
  {
    if entries[n].device in Collect(entries[..cut], measure, round).value.at {
      CollectedOccurBefore(entries, cut, measure, round, entries[n].device);
    }
  }

  lemma ExtendsFurther(small: Devices, big: Devices, device: Device, r: Record, round: real -> real)
    requires Extends(small, big) && device !in small.at
    ensures Extends(small, AddRecord(big, device, r, round))
  {}

  lemma PrefixCollected(entries: seq<File>, n: nat, measure: Meter, round: real -> real)
    requires n < |entries| && Collect(entries[..n + 1], measure, round).Ok?
    ensures Collect(entries[..n], measure, round).Ok?
  {
    assert entries[..n + 1][..n] == entries[..n];
  }

  lemma GrowsByOne(small: Devices, entries: seq<File>, k: nat, n: nat, measure: Meter, round: real -> real)
    requires k + 1 == n <= |entries| && entries[k].device !in small.at
    requires Collect(entries[..k], measure, round).Ok? && Collect(entries[..n], measure, round).Ok?
    requires Extends(small, Collect(entries[..k], measure, round).value)
    ensures Extends(small, Collect(entries[..n], measure, round).value)
  {
    CollectNext(entries, k, measure, round);
    var m := measure(entries[k]);
    if m.Ok? && m.value.Some? {
      ExtendsFurther(small, Collect(entries[..k], measure, round).value, entries[k].device, m.value.value, round);
    }
  }

  ghost predicate Unseen(small: Devices, entries: seq<File>, cut: nat) {
    forall j :: cut <= j < |entries| ==> entries[j].device !in small.at
  }

  lemma {:induction false} BuildGrows(small: Devices, entries: seq<File>, cut: nat, n: nat, measure: Meter,
      round: real -> real)
    requires Unseen(small, entries, cut) && cut <= n <= |entries| && Collect(entries[..n], measure, round).Ok?
    requires Collect(entries[..cut], measure, round) == Ok(small)
    ensures Extends(small, Collect(entries[..n], measure, round).value)
    decreases n
  {
    if n == cut {
      assert entries[..n] == entries[..cut];
    } else {
      var k := n - 1;
      PrefixCollected(entries, k, measure, round);
      BuildGrows(small, entries, cut, k, measure, round);
      GrowsByOne(small, entries, k, n, measure, round);
    }
  }

  /** A full build adds to a cut one only devices that occur behind the cut. */
  lemma {:induction false} RestBehind(entries: seq<File>, cut: nat, n: nat, measure: Meter, round: real -> real,
      device: Device)
    requires cut <= n <= |entries|
    requires Collect(entries[..n], measure, round).Ok? && Collect(entries[..cut], measure, round).Ok?
    requires device in Collect(entries[..n], measure, round).value.at
    requires device !in Collect(entries[..cut], measure, round).value.at
    ensures exists j :: cut <= j < n && entries[j].device == device
    decreases n
  {
    if cut < n {
      assert entries[..n][..n - 1] == entries[..n - 1];
      if entries[n - 1].device != device {
        CollectKeys(entries[..n], measure, round, device);
        RestBehind(entries, cut, n - 1, measure, round, device);
      }
    }
  }

  lemma PublishedLength(all: Devices)
    requires AllListed(all)
    ensures |Publish(all)| == |all.keys|
  {}

  lemma PublishedAt(all: Devices, i: nat)
    requires AllListed(all) && KeysSorted(all) && i < |all.keys|
    ensures i < |Publish(all)| && all.keys[i] in all.at && DaysListed(all.at[all.keys[i]])
    ensures Publish(all)[i] == Series(all.keys[i], Snapshots(all.at[all.keys[i]]))
  {
    DeviceOrder();
    SortedIsFixed(all.keys, DeviceLess);
  }

  lemma PublishExtends(small: Devices, big: Devices)
    requires AllListed(small) && AllListed(big) && Extends(small, big) && KeysSorted(small) && KeysSorted(big)
    ensures Publish(small) <= Publish(big)
  {
    forall i | 0 <= i < |Publish(small)|
      ensures Publish(small)[i] == Publish(big)[i]
    {
      assert small.keys[i] == big.keys[i];
      PublishedAt(small, i);
      PublishedAt(big, i);
    }
    PublishedLength(small);
    PublishedLength(big);
  }

  /** What part publishes is a prefix, and it has exactly the devices that occur before the cut. */
  ghost predicate WholeDevices(entries: seq<File>, cut: nat, part: Devices, full: Devices)
    requires cut <= |entries|
  {
    && AllListed(part) && AllListed(full)
    && Publish(part) <= Publish(full)
    && (forall device :: device in part.at ==> device in full.at && part.at[device] == full.at[device])
    && (forall device :: device in part.at <==> device in full.at && Occurs(entries, cut, device))
  }

  lemma {:induction false} PartHasWhatOccurs(entries: seq<File>, cut: nat, measure: Meter, round: real -> real,
      device: Device)
    requires Separate(entries, cut) && cut <= |entries|
    requires Collect(entries, measure, round).Ok? && Collect(entries[..cut], measure, round).Ok?
    requires device in Collect(entries, measure, round).value.at
    ensures device in Collect(entries[..cut], measure, round).value.at <==> Occurs(entries, cut, device)
  {
    assert entries[..|entries|] == entries;
    if device in Collect(entries[..cut], measure, round).value.at {
      CollectedOccurBefore(entries, cut, measure, round, device);
    } else {
      RestBehind(entries, cut, |entries|, measure, round, device);
    }
  }

  lemma {:induction false} BoundaryCutsWholeDevices(entries: seq<File>, cut: nat, measure: Meter, round: real -> real)
    requires ByDevice(entries) && Collect(entries, measure, round).Ok?
    requires cut <= |entries| && (cut < |entries| ==> Boundary(entries, cut))
    ensures Collect(entries[..cut], measure, round).Ok?
    ensures WholeDevices(entries, cut, Collect(entries[..cut], measure, round).value,
            Collect(entries, measure, round).value)
  {
    assert entries[..|entries|] == entries;
    BoundarySeparates(entries, cut);
    CollectedBefore(entries, cut, measure, round);
    forall j | cut <= j < |entries|
      ensures entries[j].device !in Collect(entries[..cut], measure, round).value.at
    {
      SeparateFromCut(entries, cut, j, measure, round);
    }
    BuildGrows(Collect(entries[..cut], measure, round).value, entries, cut, |entries|, measure, round);
    CollectSorted(entries, measure, round);
    CollectSorted(entries[..cut], measure, round);
    var part, full := Collect(entries[..cut], measure, round).value, Collect(entries, measure, round).value;
    CollectListed(entries, measure, round);
    CollectListed(entries[..cut], measure, round);
    PublishExtends(part, full);
    forall device | device in full.at
      ensures device in part.at <==> Occurs(entries, cut, device)
    {
      PartHasWhatOccurs(entries, cut, measure, round, device);
    }
  }

  /**
    * A build that stops at the deadline publishes a prefix of what the full build publishes, history by
    * identical history, and leaves out exactly the devices whose files all come after the cut.
    */
  lemma DeadlineCutsWholeDevices(files: seq<File>, fetch: string -> Fetched, late: nat -> bool, round: real -> real)
    requires Collect(Entries(files), MeterOf(fetch), round).Ok?
    ensures Collect(Entries(files)[..Cut(Entries(files), late, 0)], MeterOf(fetch), round).Ok?
    ensures WholeDevices(Entries(files), Cut(Entries(files), late, 0),
                         Collect(Entries(files)[..Cut(Entries(files), late, 0)], MeterOf(fetch), round).value,
                         Collect(Entries(files), MeterOf(fetch), round).value)
  {
    EntriesByDevice(files);
    BoundaryCutsWholeDevices(Entries(files), Cut(Entries(files), late, 0), MeterOf(fetch), round);
  }

  // --- a day's measurements --------------------------------------------------------------------------

  /** The measurements among the entries that fall on one day of one device. */
  function RecordsOf(entries: seq<File>, measure: Meter, device: Device, n: int): seq<Record>
    decreases |entries|
  {
    if entries == [] then []
    else
      var f := entries[|entries| - 1];
      var m := measure(f);
      RecordsOf(entries[..|entries| - 1], measure, device, n) +
      (if m.Ok? && m.value.Some? && f.device == device && DayNumber(m.value.value.captured) == n
       then [m.value.value] else [])
  }

  function DayOf(records: seq<Record>, round: real -> real): Day
    requires records != []
    decreases |records|
  {
    var last := |records| - 1;
    AddToDay(if last == 0 then NewDay(records[0]) else DayOf(records[..last], round), records[last], round)
  }

  function Lookup(all: Devices, device: Device, n: int): Option<Day> {
    if device in all.at && n in all.at[device].at then Some(all.at[device].at[n]) else None
  }

  lemma AddRecordLookup(all: Devices, f: Device, r: Record, round: real -> real, device: Device, n: int)
    ensures Lookup(AddRecord(all, f, r, round), device, n) ==
            if f == device && DayNumber(r.captured) == n then
              Some(AddToDay(if Lookup(all, device, n).Some? then Lookup(all, device, n).value else NewDay(r), r, round))
            else Lookup(all, device, n)
  {}

  lemma {:induction false} CollectLookup(entries: seq<File>, measure: Meter, round: real -> real, device: Device,
      n: int)
    requires entries != [] && Collect(entries, measure, round).Ok?
    ensures var f := entries[|entries| - 1];
            var before := Collect(entries[..|entries| - 1], measure, round);
            var m := measure(f);
            && before.Ok? && m.Ok?
            && Lookup(Collect(entries, measure, round).value, device, n) ==
               if m.value.Some? && f.device == device && DayNumber(m.value.value.captured) == n then
                 var r := m.value.value;
                 Some(AddToDay(if Lookup(before.value, device, n).Some? then Lookup(before.value, device, n).value
                               else NewDay(r), r, round))
               else Lookup(before.value, device, n)
  {
    var f := entries[|entries| - 1];
    var m := measure(f);
    if m.Ok? && m.value.Some? {
      var before := Collect(entries[..|entries| - 1], measure, round).value;
      AddRecordLookup(before, f.device, m.value.value, round, device, n);
    }
  }

  /** The two-level grouping loses and mixes nothing: each day is the merge of its own measurements, in file order. */
  lemma {:induction false} DayIsItsMeasurements(
      entries: seq<File>, measure: Meter, round: real -> real, device: Device, n: int)
    requires Collect(entries, measure, round).Ok?
    ensures var records := RecordsOf(entries, measure, device, n);
            Lookup(Collect(entries, measure, round).value, device, n) ==
            if records == [] then None else Some(DayOf(records, round))
    decreases |entries|
  {
    if entries != [] {
      CollectLookup(entries, measure, round, device, n);
      DayIsItsMeasurements(entries[..|entries| - 1], measure, round, device, n);
      var records, before := RecordsOf(entries, measure, device, n),
          RecordsOf(entries[..|entries| - 1], measure, device, n);
      if |records| > |before| {
        assert before == records[..|before|];
      } else {
        assert before == records;
      }
      DayOfSnoc(records, before, round);
    }
  }

  lemma {:induction false} DayOfSnoc(records: seq<Record>, before: seq<Record>, round: real -> real)
    ensures |records| == |before| + 1 && before == records[..|before|] ==>
              DayOf(records, round) ==
              AddToDay(if before == [] then NewDay(records[|before|]) else DayOf(before, round),
                       records[|before|], round)
  {}

  /** No benchmark's metric is called n_qubits. */
  ghost predicate NoQubitCounts(records: seq<Record>) {
    forall i :: 0 <= i < |records| ==> records[i].metric != "n_qubits"
  }

  lemma {:induction false} RecordsMeasureBenchmarks(entries: seq<File>, fetch: string -> Fetched, device: Device,
      n: int)
    ensures NoQubitCounts(RecordsOf(entries, MeterOf(fetch), device, n))
    decreases |entries|
  {
    if entries != [] {
      var f := entries[|entries| - 1];
      assert MeterOf(fetch)(f) == Measure(f, fetch(f.path));
      RecordsMeasureBenchmarks(entries[..|entries| - 1], fetch, device, n);
    }
  }

  /** The day is dated by its latest measurement, used or not. */
  lemma {:induction false} CapturedIsLatest(records: seq<Record>, round: real -> real)
    requires records != []
    ensures var d := DayOf(records, round);
            && (forall i :: 0 <= i < |records| ==> records[i].captured <= d.captured)
            && exists i :: 0 <= i < |records| && records[i].captured == d.captured
    decreases |records|
  {
    var last := |records| - 1;
    if last > 0 {
      CapturedIsLatest(records[..last], round);
      var before := DayOf(records[..last], round);
      assert forall i :: 0 <= i < last ==> records[..last][i] == records[i];
      var i :| 0 <= i < last && records[..last][i].captured == before.captured;
      if before.captured < records[last].captured {
        assert records[last].captured == DayOf(records, round).captured;
      } else {
        assert records[i].captured == DayOf(records, round).captured;
      }
    } else {
      assert records[0].captured == DayOf(records, round).captured;
    }
  }

  /** A metric is shown exactly when it was measured that day, and then its provenance is too. */
  lemma {:induction false} MetricsHaveProvenance(records: seq<Record>, round: real -> real, metric: string)
    requires records != [] && NoQubitCounts(records) && metric != "n_qubits"
    ensures var d := DayOf(records, round);
            && (metric in d.metrics <==> metric in d.provenance.at)
            && (metric in d.metrics <==> exists i :: 0 <= i < |records| && records[i].metric == metric)
    decreases |records|
  {
    var last := |records| - 1;
    if last > 0 {
      MetricsHaveProvenance(records[..last], round, metric);
      assert forall i :: 0 <= i < last ==> records[..last][i] == records[i];
    }
  }

  /** No earlier measurement of the day carries a later time. */
  ghost predicate UpToDate(records: seq<Record>, i: nat)
    requires i < |records|
  {
    forall j :: 0 <= j < i ==> records[j].captured <= records[i].captured
  }

  /**
    * Record i is the one shown for the metric: the last that was up to date when it came, or the first
    * of the metric when none was.
    */
  ghost predicate Decides(records: seq<Record>, metric: string, i: nat)
    requires i < |records|
  {
    && records[i].metric == metric
    && (forall j :: i < j < |records| && records[j].metric == metric ==> !UpToDate(records, j))
    && (UpToDate(records, i) || forall j :: 0 <= j < i ==> records[j].metric != metric)
  }

  ghost predicate ShownFor(d: Day, metric: string, r: Record, round: real -> real) {
    && metric in d.metrics && d.metrics[metric] == MNum(round(r.value))
    && metric in d.provenance.at && d.provenance.at[metric] == Provenance(metric, r.value, r.captured, r.path)
  }

  lemma TakenIff(records: seq<Record>, round: real -> real)
    requires |records| > 1 && NoQubitCounts(records)
    ensures var last := |records| - 1;
            Taken(DayOf(records[..last], round), records[last]) <==>
            UpToDate(records, last) || forall j :: 0 <= j < last ==> records[j].metric != records[last].metric
  {
    var last := |records| - 1;
    assert forall i :: 0 <= i < last ==> records[..last][i] == records[i];
    CapturedIsLatest(records[..last], round);
    MetricsHaveProvenance(records[..last], round, records[last].metric);
  }

  lemma TakenShows(d: Day, r: Record, round: real -> real)
    requires Taken(d, r) && r.metric != "n_qubits"
    ensures ShownFor(AddToDay(d, r, round), r.metric, r, round)
  {}

  lemma ShownStays(d: Day, r: Record, round: real -> real, metric: string, shown: Record)
    requires ShownFor(d, metric, shown, round) && metric != "n_qubits" && (Taken(d, r) ==> r.metric != metric)
    ensures ShownFor(AddToDay(d, r, round), metric, shown, round)
  {}

  lemma DecidesBefore(records: seq<Record>, metric: string, i: nat)
    requires i < |records| - 1 && Decides(records, metric, i)
    ensures Decides(records[..|records| - 1], metric, i)
  {
    var last := |records| - 1;
    assert forall j :: 0 <= j < last ==> records[..last][j] == records[j];
    assert forall j :: 0 <= j < last ==> (UpToDate(records[..last], j) <==> UpToDate(records, j));
  }

  lemma {:induction false} DecidesShows(records: seq<Record>, round: real -> real, metric: string, i: nat)
    requires i < |records| && NoQubitCounts(records) && Decides(records, metric, i)
    ensures ShownFor(DayOf(records, round), metric, records[i], round)
    decreases |records|
  {
    var last := |records| - 1;
    if last == 0 {
      TakenShows(NewDay(records[0]), records[0], round);
    } else {
      TakenIff(records, round);
      if i < last {
        DecidesBefore(records, metric, i);
        DecidesShows(records[..last], round, metric, i);
        ShownStays(DayOf(records[..last], round), records[last], round, metric, records[i]);
      } else {
        TakenShows(DayOf(records[..last], round), records[last], round);
      }
    }
  }

  lemma {:induction false} SomeRecordDecides(records: seq<Record>, metric: string, i: nat) returns (k: nat)
    requires i < |records| && records[i].metric == metric
    requires UpToDate(records, i) || forall j :: 0 <= j < i ==> records[j].metric != metric
    ensures k < |records| && Decides(records, metric, k)
    decreases |records| - i
  {
    if j :| i < j < |records| && records[j].metric == metric && UpToDate(records, j) {
      k := SomeRecordDecides(records, metric, j);
    } else {
      k := i;
    }
  }

  /** What a day shows for a metric, for every order in which the measurements come. */
  lemma MetricIsDecided(records: seq<Record>, round: real -> real, metric: string) returns (k: nat)
    requires records != [] && NoQubitCounts(records) && metric != "n_qubits" && metric in DayOf(records, round).metrics
    ensures k < |records| && Decides(records, metric, k) && ShownFor(DayOf(records, round), metric, records[k], round)
  {
    MetricsHaveProvenance(records, round, metric);
    var i :| 0 <= i < |records| && records[i].metric == metric;
    var first := FirstOf(records, metric, i);
    k := SomeRecordDecides(records, metric, first);
    DecidesShows(records, round, metric, k);
  }

  lemma {:induction false} FirstOf(records: seq<Record>, metric: string, i: nat) returns (first: nat)
    requires i < |records| && records[i].metric == metric
    ensures first <= i && records[first].metric == metric && forall j :: 0 <= j < first ==> records[j].metric != metric
  {
    if j :| 0 <= j < i && records[j].metric == metric {
      first := FirstOf(records, metric, j);
    } else {
      first := i;
    }
  }

  ghost predicate DistinctPaths(records: seq<Record>) {
    forall i, j :: 0 <= i < j < |records| ==> records[i].path != records[j].path
  }

  /** Of the measurements of a day, which come from different files, exactly the deciding one is shown. */
  lemma {:induction false} ShownIffDecides(records: seq<Record>, round: real -> real, metric: string, i: nat)
    requires i < |records| && NoQubitCounts(records) && DistinctPaths(records) && records[i].metric == metric
    ensures ShownFor(DayOf(records, round), metric, records[i], round) <==> Decides(records, metric, i)
  {
    if Decides(records, metric, i) {
      DecidesShows(records, round, metric, i);
    } else {
      MetricsHaveProvenance(records, round, metric);
      var k := MetricIsDecided(records, round, metric);
      assert records[k].path != records[i].path;
    }
  }

  /** The last measurement of a metric is the one the day shows exactly when it is up to date or the only one. */
  lemma {:induction false} LastMeasurementShownIff(records: seq<Record>, round: real -> real, metric: string, i: nat)
    requires i < |records| && NoQubitCounts(records) && DistinctPaths(records) && records[i].metric == metric
    requires forall j :: i < j < |records| ==> records[j].metric != metric
    ensures ShownFor(DayOf(records, round), metric, records[i], round) <==>
            UpToDate(records, i) || forall j :: 0 <= j < |records| && records[j].metric == metric ==> j == i
  {
    ShownIffDecides(records, round, metric, i);
  }

  /** With timestamps that never go back along the files, every metric shows its last measurement. */
  lemma {:induction false} LastMeasurementShown(records: seq<Record>, round: real -> real, metric: string, i: nat)
    requires i < |records| && NoQubitCounts(records) && records[i].metric == metric
    requires forall j :: i < j < |records| ==> records[j].metric != metric
    requires forall j, k :: 0 <= j < k < |records| ==> records[j].captured <= records[k].captured
    ensures ShownFor(DayOf(records, round), metric, records[i], round)
  {
    DecidesShows(records, round, metric, i);
  }

  /** Otherwise a newer measurement can lose: another metric measured later is enough. */
  lemma NewerMeasurementIgnored(round: real -> real)
    ensures var records := [Record("eplg", 1.0, 10, 0.0, "a"), Record("clops", 2.0, 30, 0.0, "b"),
            Record("eplg", 3.0, 20, 0.0, "c")];
            && ShownFor(DayOf(records, round), "eplg", records[0], round)
            && !ShownFor(DayOf(records, round), "eplg", records[2], round)
  {
    var records := [Record("eplg", 1.0, 10, 0.0, "a"), Record("clops", 2.0, 30, 0.0, "b"),
        Record("eplg", 3.0, 20, 0.0, "c")];
    assert !UpToDate(records, 2) by {
      assert records[1].captured > records[2].captured;
    }
    assert UpToDate(records, 0);
    DecidesShows(records, round, "eplg", 0);
  }

  /** Records of different files have different paths. */
  lemma {:induction false} FilesGiveDistinctPaths(entries: seq<File>, fetch: string -> Fetched, device: Device, n: int)
    requires forall i, j :: 0 <= i < j < |entries| ==> entries[i].path != entries[j].path
    ensures DistinctPaths(RecordsOf(entries, MeterOf(fetch), device, n))
    ensures forall i :: 0 <= i < |RecordsOf(entries, MeterOf(fetch), device, n)| ==>
              exists j :: 0 <= j < |entries| && entries[j].path == RecordsOf(entries, MeterOf(fetch), device, n)[i].path
    decreases |entries|
  {
    if entries != [] {
      var last := |entries| - 1;
      FilesGiveDistinctPaths(entries[..last], fetch, device, n);
      var before, all := RecordsOf(entries[..last], MeterOf(fetch), device, n),
          RecordsOf(entries, MeterOf(fetch), device, n);
      assert MeterOf(fetch)(entries[last]) == Measure(entries[last], fetch(entries[last].path));
      forall i | 0 <= i < |before|
        ensures before[i].path != entries[last].path
        ensures exists j :: 0 <= j < |entries| && entries[j].path == before[i].path
      {
        var j :| 0 <= j < last && entries[..last][j].path == before[i].path;
        assert entries[j].path == before[i].path;
      }
    }
  }
}
