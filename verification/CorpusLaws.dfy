/** What collectors and the bundle sync keep, over any interleaving of the two writers. */
module CorpusLaws {
  import opened CorpusTable

  // --- filtering -------------------------------------------------------------------------------

  lemma {:induction false} FilterExactly(rows: seq<Row>, keep: Row -> bool)
    ensures forall r :: r in Filter(rows, keep) <==> r in rows && keep(r)
    ensures |Filter(rows, keep)| <= |rows|
    ensures (forall i :: 0 <= i < |rows| ==> keep(rows[i])) ==> Filter(rows, keep) == rows
    decreases |rows|
  {
    if rows != [] {
      var last := |rows| - 1;
      FilterExactly(rows[..last], keep);
      assert rows == rows[..last] + [rows[last]];
      assert forall i :: 0 <= i < last ==> rows[..last][i] == rows[i];
    }
  }

  lemma {:induction false} FilterHasNoNewKeys(rows: seq<Row>, keep: Row -> bool, key: Key)
    requires !HasKey(rows, key)
    ensures !HasKey(Filter(rows, keep), key)
    decreases |rows|
  {
    if rows != [] {
      assert forall i :: 0 <= i < |rows| - 1 ==> rows[..|rows| - 1][i] == rows[i];
      FilterHasNoNewKeys(rows[..|rows| - 1], keep, key);
    }
  }

  lemma {:induction false} FilterUnique(rows: seq<Row>, keep: Row -> bool)
    requires Unique(rows)
    ensures Unique(Filter(rows, keep))
    decreases |rows|
  {
    if rows != [] {
      var last := |rows| - 1;
      FilterUnique(rows[..last], keep);
      FilterHasNoNewKeys(rows[..last], keep, KeyOf(rows[last]));
      AppendUnique(Filter(rows[..last], keep), rows[last]);
    }
  }

  lemma AppendUnique(rows: seq<Row>, r: Row)
    requires Unique(rows) && !HasKey(rows, KeyOf(r))
    ensures Unique(rows + [r])
  {
  }

  // --- collectors ------------------------------------------------------------------------------

  lemma AddOneUnique(rows: seq<Row>, o: Row, replaceSameDay: bool)
    requires Unique(rows)
    ensures Unique(AddOne(rows, o, replaceSameDay))
  {
    if !HasKey(rows, KeyOf(o)) {
      AppendUnique(rows, o);
      FilterUnique(rows + [o], r => !Superseded(r, o));
    }
  }

  lemma {:induction false} AddAllUnique(rows: seq<Row>, offers: seq<Row>, replaceSameDay: bool)
    requires Unique(rows)
    ensures Unique(AddAll(rows, offers, replaceSameDay))
    decreases |offers|
  {
    if offers != [] {
      var before := offers[..|offers| - 1];
      AddAllUnique(rows, before, replaceSameDay);
      AddOneUnique(AddAll(rows, before, replaceSameDay), offers[|offers| - 1], replaceSameDay);
    }
  }

  /** Collectors never remove a bundle row. */
  lemma {:induction false} AddAllKeepsBundleRows(rows: seq<Row>, offers: seq<Row>, replaceSameDay: bool, r: Row)
    requires r in rows && !FromCollector(r)
    ensures r in AddAll(rows, offers, replaceSameDay)
    decreases |offers|
  {
    if offers != [] {
      var o := offers[|offers| - 1];
      var before := AddAll(rows, offers[..|offers| - 1], replaceSameDay);
      AddAllKeepsBundleRows(rows, offers[..|offers| - 1], replaceSameDay, r);
      FilterExactly(before + [o], r => !Superseded(r, o));
      assert r in before + [o];
    }
  }

  // --- the sync --------------------------------------------------------------------------------

  lemma {:induction false} InsertMissingAdds(rows: seq<Row>, wanted: seq<Row>)
    ensures rows <= InsertMissing(rows, wanted)
    ensures forall i :: |rows| <= i < |InsertMissing(rows, wanted)| ==> InsertMissing(rows, wanted)[i] in wanted
    ensures forall i :: 0 <= i < |wanted| ==> HasKey(InsertMissing(rows, wanted), KeyOf(wanted[i]))
    decreases |wanted|
  {
    if wanted != [] {
      var last := |wanted| - 1;
      var before := InsertMissing(rows, wanted[..last]);
      InsertMissingAdds(rows, wanted[..last]);
      HasKeySnoc(before, wanted[last]);
      forall i | 0 <= i < last
        ensures HasKey(InsertMissing(rows, wanted), KeyOf(wanted[i]))
      {
        assert wanted[..last][i] == wanted[i];
      }
    }
  }

  lemma {:induction false} InsertMissingUnique(rows: seq<Row>, wanted: seq<Row>)
    requires Unique(rows)
    ensures Unique(InsertMissing(rows, wanted))
    decreases |wanted|
  {
    if wanted != [] {
      InsertMissingUnique(rows, wanted[..|wanted| - 1]);
    }
  }

  lemma {:induction false} NothingMissing(rows: seq<Row>, wanted: seq<Row>)
    requires forall i :: 0 <= i < |wanted| ==> HasKey(rows, KeyOf(wanted[i]))
    ensures InsertMissing(rows, wanted) == rows
    decreases |wanted|
  {
    if wanted != [] {
      NothingMissing(rows, wanted[..|wanted| - 1]);
    }
  }

  /** After a sync every wanted key is present, and every bundle row of an owned source is wanted. */
  lemma SyncReaches(rows: seq<Row>, wanted: seq<Row>)
    ensures forall i :: 0 <= i < |wanted| ==> HasKey(Sync(rows, wanted), KeyOf(wanted[i]))
    ensures forall i :: 0 <= i < |Sync(rows, wanted)| ==> !Stale(Sync(rows, wanted)[i], wanted)
  {
    var keep: Row -> bool := r => !Stale(r, wanted);
    var kept, after := Filter(rows, keep), Sync(rows, wanted);
    FilterExactly(rows, keep);
    InsertMissingAdds(kept, wanted);
    forall i | 0 <= i < |after|
      ensures !Stale(after[i], wanted)
    {
      if i < |kept| {
        assert after[i] == kept[i] && kept[i] in kept;
      } else {
        var j :| 0 <= j < |wanted| && wanted[j] == after[i];
        assert KeyOf(wanted[j]) in WantKeys(wanted);
      }
    }
  }

  /** A sync removes exactly the stale rows, so never a row that did not come from the bundle. */
  lemma SyncRemovesOnlyStale(rows: seq<Row>, wanted: seq<Row>, r: Row)
    requires r in rows
    ensures r in Sync(rows, wanted) <==> !Stale(r, wanted)
    ensures OriginOf(r) != "bundle" ==> r in Sync(rows, wanted)
  {
    var keep: Row -> bool := r => !Stale(r, wanted);
    var kept := Filter(rows, keep);
    FilterExactly(rows, keep);
    InsertMissingAdds(kept, wanted);
    SyncReaches(rows, wanted);
    if r in kept {
      var i :| 0 <= i < |kept| && kept[i] == r;
      assert Sync(rows, wanted)[i] == r;
    }
  }

  /** A second sync against the same bundle does nothing. */
  lemma SyncIsIdempotent(rows: seq<Row>, wanted: seq<Row>)
    ensures Sync(Sync(rows, wanted), wanted) == Sync(rows, wanted)
  {
    var after := Sync(rows, wanted);
    SyncReaches(rows, wanted);
    FilterExactly(after, r => !Stale(r, wanted));
    NothingMissing(after, wanted);
  }

  lemma SyncUnique(rows: seq<Row>, wanted: seq<Row>)
    requires Unique(rows)
    ensures Unique(Sync(rows, wanted))
  {
    FilterUnique(rows, r => !Stale(r, wanted));
    InsertMissingUnique(Filter(rows, r => !Stale(r, wanted)), wanted);
  }

  // --- any interleaving --------------------------------------------------------------------------

  datatype Op = SyncWith(wanted: seq<Row>) | Collect(offers: seq<Row>, replaceSameDay: bool)

  function Do(rows: seq<Row>, op: Op): seq<Row> {
    match op
    case SyncWith(wanted) => Committed(Sync(rows, wanted))
    case Collect(offers, replaceSameDay) => Committed(AddAll(rows, offers, replaceSameDay))
  }

  function DoAll(rows: seq<Row>, ops: seq<Op>): seq<Row>
    decreases |ops|
  {
    if ops == [] then rows else Do(DoAll(rows, ops[..|ops| - 1]), ops[|ops| - 1])
  }

  lemma CommittedUnique(rows: seq<Row>)
    requires Unique(rows)
    ensures Unique(Committed(rows))
  {
    forall i, j | 0 <= i < j < |rows|
      ensures KeyOf(Committed(rows)[i]) != KeyOf(Committed(rows)[j])
    {
      assert KeyOf(rows[i]) != KeyOf(rows[j]);
    }
  }

  lemma CommittedKeeps(rows: seq<Row>, r: Row)
    requires r in rows && r.seen == r.day
    ensures r in Committed(rows)
  {
    var i :| 0 <= i < |rows| && rows[i] == r;
    assert Committed(rows)[i] == r;
  }

  /** (provider, backend, hash) stays unique over any interleaving, so no insert hits the constraint. */
  lemma {:induction false} AlwaysUnique(ops: seq<Op>)
    ensures Unique(DoAll([], ops))
    decreases |ops|
  {
    if ops != [] {
      AlwaysUnique(ops[..|ops| - 1]);
      var before := DoAll([], ops[..|ops| - 1]);
      match ops[|ops| - 1]
      case SyncWith(wanted) =>
        SyncUnique(before, wanted);
        CommittedUnique(Sync(before, wanted));
      case Collect(offers, replaceSameDay) =>
        AddAllUnique(before, offers, replaceSameDay);
        CommittedUnique(AddAll(before, offers, replaceSameDay));
    }
  }

  /** A row that a collector added leaves the table only by being superseded: syncs never take it. */
  lemma {:induction false} CollectorRowsSurviveSyncs(rows: seq<Row>, ops: seq<Op>, r: Row)
    requires r in rows && FromCollector(r) && r.seen == r.day
    requires forall i :: 0 <= i < |ops| ==> ops[i].SyncWith? || !ops[i].replaceSameDay
    ensures r in DoAll(rows, ops)
    decreases |ops|
  {
    if ops != [] {
      CollectorRowsSurviveSyncs(rows, ops[..|ops| - 1], r);
      var before := DoAll(rows, ops[..|ops| - 1]);
      match ops[|ops| - 1]
      case SyncWith(wanted) =>
        assert "collector:"[0] != "bundle"[0];
        SyncRemovesOnlyStale(before, wanted, r);
        CommittedKeeps(Sync(before, wanted), r);
      case Collect(offers, _) =>
        PlainAddKeeps(before, offers, r);
        CommittedKeeps(AddAll(before, offers, false), r);
    }
  }

  lemma {:induction false} PlainAddKeeps(rows: seq<Row>, offers: seq<Row>, r: Row)
    requires r in rows
    ensures r in AddAll(rows, offers, false)
    decreases |offers|
  {
    if offers != [] {
      PlainAddKeeps(rows, offers[..|offers| - 1], r);
    }
  }

  // --- same-day replacement ------------------------------------------------------------------------

  /** Some row of the device, source and (UTC) day holds the metric. */
  ghost predicate Held(rows: seq<Row>, provider: string, backend: string, source: Metric, day: int, metric: string) {
    exists r :: r in rows && Holds(r, provider, backend, source, day, metric)
  }

  /** The row has the metric; its source is not one. */
  predicate Holds(r: Row, provider: string, backend: string, source: Metric, day: int, metric: string) {
    && r.provider == provider && r.backend == backend && SourceOf(r) == source && r.day == day
    && metric in r.metrics && metric != "source"
  }

  /** Every row was stored by an earlier session. */
  predicate Loaded(rows: seq<Row>) {
    forall i :: 0 <= i < |rows| ==> rows[i].seen == rows[i].day
  }

  ghost predicate KeepsMetrics(rows: seq<Row>, after: seq<Row>) {
    forall provider, backend, source, day, metric :: Held(rows, provider, backend, source, day, metric) ==>
      Held(after, provider, backend, source, day, metric)
  }

  /** Adding the offered row with replacement to stored rows never loses a metric of any device, source and day. */
  ghost predicate NeverShrinks(o: Row) {
    forall rows :: Loaded(rows) ==> KeepsMetrics(rows, AddOne(rows, o, true))
  }

  /** Nor in a session that has added rows of its own before. */
  ghost predicate NeverShrinksInSession(o: Row) {
    forall rows :: KeepsMetrics(rows, AddOne(rows, o, true))
  }

  /** The offered row names its source as stored rows do, so that earlier rows can match it. */
  predicate NamesItsSource(o: Row) {
    SourceOf(o) == RawSource(o)
  }

  /** The offered row has a metric besides its source. */
  ghost predicate HasMetrics(o: Row) {
    exists metric :: metric in o.metrics && metric != "source"
  }

  /** The offered row can replace rows that hold metrics. */
  ghost predicate Replaces(o: Row) {
    NamesItsSource(o) && HasMetrics(o)
  }

  lemma ReplacementKeeps(rows: seq<Row>, o: Row, r: Row, metric: string)
    requires r in rows && metric in r.metrics && metric != "source"
    requires Superseded(r, o) && HasMetrics(o) ==> r.day == o.day
    ensures Held(AddOne(rows, o, true), r.provider, r.backend, SourceOf(r), r.day, metric)
  {
    var after := AddOne(rows, o, true);
    var source := SourceOf(r);
    if HasKey(rows, KeyOf(o)) {
      assert Holds(r, r.provider, r.backend, source, r.day, metric);
    } else {
      FilterExactly(rows + [o], r => !Superseded(r, o));
      if Superseded(r, o) {
        AnySourceIsNamed(r);
        SourceMatches(r, o);
        assert o in after && Holds(o, r.provider, r.backend, source, r.day, metric);
      } else {
        assert r in after && Holds(r, r.provider, r.backend, source, r.day, metric);
      }
    }
  }

  lemma AnySourceIsNamed(r: Row)
    ensures Truthy(SourceOf(r)) || SourceOf(r) == MStr(r.provider)
  {
  }

  /** A superseded row carries the offered row's source, which is then the source that row is stored under. */
  lemma SourceMatches(r: Row, o: Row)
    requires Superseded(r, o)
    ensures NamesItsSource(o)
  {
  }

  lemma ReplacementKeepsAll(rows: seq<Row>, o: Row)
    requires HasMetrics(o) ==> forall i :: 0 <= i < |rows| && Superseded(rows[i], o) ==> rows[i].day == o.day
    ensures KeepsMetrics(rows, AddOne(rows, o, true))
  {
    forall provider, backend, source, day, metric | Held(rows, provider, backend, source, day, metric)
      ensures Held(AddOne(rows, o, true), provider, backend, source, day, metric)
    {
      var r :| r in rows && Holds(r, provider, backend, source, day, metric);
      ReplacementKeeps(rows, o, r, metric);
    }
  }

  /** A hash of one repeated digit, other than the given one. */
  function OtherHash(hash: string): (other: string)
    ensures |other| == 64 && other != hash
  {
    var zeros, ones := seq(64, i => '0'), seq(64, i => '1');
    assert zeros[0] != ones[0];
    if hash == zeros then ones else zeros
  }

  /** A collector row with the offered row's metrics, stored under some day and seen on the offered row's. */
  function Earlier(o: Row, day: int): Row {
    Row(o.provider, o.backend, OtherHash(o.hash), day, o.seen, "collector:metriq", o.metrics, "")
  }

  lemma EarlierIsSuperseded(o: Row, day: int)
    requires NamesItsSource(o)
    ensures Superseded(Earlier(o, day), o) && SourceOf(Earlier(o, day)) == SourceOf(o)
  {}

  lemma MetricLost(o: Row, day: int)
    requires Replaces(o) && day != o.day
    ensures !KeepsMetrics([Earlier(o, day)], AddOne([Earlier(o, day)], o, true))
  {
    var e := Earlier(o, day);
    var rows := [e];
    var after := AddOne(rows, o, true);
    EarlierIsSuperseded(o, day);
    assert KeyOf(e) != KeyOf(o);
    FilterExactly(rows + [o], r => !Superseded(r, o));
    var metric :| metric in o.metrics && metric != "source";
    assert e in rows && Holds(e, e.provider, e.backend, SourceOf(e), e.day, metric);
    assert Held(rows, e.provider, e.backend, SourceOf(e), e.day, metric);
    assert !Held(after, e.provider, e.backend, SourceOf(e), e.day, metric);
  }

  /**
   Same-day replacement of stored rows never shrinks the metrics held for a (device, source, day)
   exactly when the offered row's date is its UTC date, or it names no source, or has no metric.
   */
  lemma NeverShrinksIff(o: Row)
    ensures NeverShrinks(o) <==> (Replaces(o) ==> o.seen == o.day)
  {
    if Replaces(o) ==> o.seen == o.day {
      forall rows | Loaded(rows)
        ensures KeepsMetrics(rows, AddOne(rows, o, true))
      {
        ReplacementKeepsAll(rows, o);
      }
    } else {
      MetricLost(o, o.seen);
      assert Loaded([Earlier(o, o.seen)]);
    }
  }

  /**
   In the session that adds them, rows are compared in the offsets they came with, so replacement
   can lose a metric of such a row whatever the date of the one that replaces it.
   */
  lemma NeverShrinksInSessionIff(o: Row)
    ensures NeverShrinksInSession(o) <==> !Replaces(o)
  {
    if Replaces(o) {
      MetricLost(o, o.day + 1);
    } else {
      forall rows
        ensures KeepsMetrics(rows, AddOne(rows, o, true))
      {
        ReplacementKeepsAll(rows, o);
      }
    }
  }

  /** A whole collection of rows dated in UTC never shrinks what is held. */
  lemma {:induction false} CollectionNeverShrinks(rows: seq<Row>, offers: seq<Row>)
    requires Loaded(rows) && Loaded(offers)
    ensures Loaded(AddAll(rows, offers, true)) && KeepsMetrics(rows, AddAll(rows, offers, true))
    decreases |offers|
  {
    if offers != [] {
      var last := |offers| - 1;
      CollectionNeverShrinks(rows, offers[..last]);
      var before := AddAll(rows, offers[..last], true);
      LoadedStays(before, offers[last]);
      ReplacementKeepsAll(before, offers[last]);
    }
  }

  lemma LoadedStays(rows: seq<Row>, o: Row)
    requires Loaded(rows) && o.seen == o.day
    ensures Loaded(AddOne(rows, o, true))
  {
    var after := AddOne(rows, o, true);
    FilterExactly(rows + [o], r => !Superseded(r, o));
    forall i | 0 <= i < |after|
      ensures after[i].seen == after[i].day
    {
      assert after[i] in after;
      assert after[i] in rows + [o];
    }
  }
}
