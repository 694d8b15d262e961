/** The public-corpus table: collectors add rows, the bundle sync reconciles its own rows. */
module CorpusTable {
  datatype Metric = MNull | MNum(n: real) | MStr(s: string)

  /**
    * A corpus_snapshots row. The date of captured_at is stored in UTC; the session that adds the row goes on seeing
    * the date in the offset it came with, until it commits.
    */
  datatype Row = Row(
    provider: string,
    backend: string,
    hash: string,
    day: int,
    seen: int,
    origin: string,
    metrics: map<string, Metric>,
    payload: string)

  datatype Key = Key(provider: string, backend: string, hash: string)

  function KeyOf(r: Row): Key {
    Key(r.provider, r.backend, r.hash)
  }

  predicate Truthy(m: Metric) {
    match m
    case MNull => false
    case MNum(n) => n != 0.0
    case MStr(s) => s != ""
  }

  /** derived_metrics.get("source") */
  function RawSource(r: Row): Metric {
    if "source" in r.metrics then r.metrics["source"] else MNull
  }

  /** _source: the provider stands in for a missing source. */
  function SourceOf(r: Row): Metric {
    if Truthy(RawSource(r)) then RawSource(r) else MStr(r.provider)
  }

  /** _origin: rows without an origin came from the bundle. */
  function OriginOf(r: Row): string {
    if r.origin == "" then "bundle" else r.origin
  }

  predicate FromCollector(r: Row) {
    "collector:" <= OriginOf(r)
  }

  predicate HasKey(rows: seq<Row>, key: Key) {
    exists i :: 0 <= i < |rows| && KeyOf(rows[i]) == key
  }

  /** The unique constraint on (provider, backend, content hash). */
  ghost predicate Unique(rows: seq<Row>) {
    forall i, j :: 0 <= i < j < |rows| ==> KeyOf(rows[i]) != KeyOf(rows[j])
  }

  function Filter(rows: seq<Row>, keep: Row -> bool): seq<Row> {
    if rows == [] then []
    else
      var last := rows[|rows| - 1];
      Filter(rows[..|rows| - 1], keep) + (if keep(last) then [last] else [])
  }

  // --- collectors ----------------------------------------------------------------------------

  /** An earlier collector row of the same device, source and day whose metrics the offered row covers. */
  predicate Superseded(prior: Row, o: Row) {
    && prior.provider == o.provider
    && prior.backend == o.backend
    && prior.hash != o.hash
    && prior.seen == o.seen
    && FromCollector(prior)
    && SourceOf(prior) == RawSource(o)
    && prior.metrics.Keys <= o.metrics.Keys
  }

  function AddOne(rows: seq<Row>, o: Row, replaceSameDay: bool): seq<Row> {
    if HasKey(rows, KeyOf(o)) then rows
    else if replaceSameDay then Filter(rows + [o], r => !Superseded(r, o))
    else rows + [o]
  }

  /** After the commit every row is read back with its UTC date. */
  function Committed(rows: seq<Row>): (r: seq<Row>)
    ensures |r| == |rows|
  {
    seq(|rows|, i requires 0 <= i < |rows| => rows[i].(seen := rows[i].day))
  }

  function AddAll(rows: seq<Row>, offers: seq<Row>, replaceSameDay: bool): seq<Row>
    decreases |offers|
  {
    if offers == [] then rows
    else AddOne(AddAll(rows, offers[..|offers| - 1], replaceSameDay), offers[|offers| - 1], replaceSameDay)
  }

  function NewOffers(rows: seq<Row>, offers: seq<Row>, replaceSameDay: bool): nat
    decreases |offers|
  {
    if offers == [] then 0
    else
      var before := offers[..|offers| - 1];
      NewOffers(rows, before, replaceSameDay) +
      (if HasKey(AddAll(rows, before, replaceSameDay), KeyOf(offers[|offers| - 1])) then 0 else 1)
  }

  // --- the bundle sync -----------------------------------------------------------------------

  function WantKeys(wanted: seq<Row>): set<Key> {
    set i | 0 <= i < |wanted| :: KeyOf(wanted[i])
  }

  /** Sources the bundle speaks for. */
  function Owned(wanted: seq<Row>): set<Metric> {
    (set i | 0 <= i < |wanted| :: RawSource(wanted[i])) + {MStr("ibm"), MStr("metriq"), MStr("vendor-reported")}
  }

  /** A bundle row of an owned source that the bundle no longer holds. */
  predicate Stale(r: Row, wanted: seq<Row>) {
    SourceOf(r) in Owned(wanted) && KeyOf(r) !in WantKeys(wanted) && OriginOf(r) == "bundle"
  }

  function InsertMissing(rows: seq<Row>, wanted: seq<Row>): seq<Row>
    decreases |wanted|
  {
    if wanted == [] then rows
    else
      var before := InsertMissing(rows, wanted[..|wanted| - 1]);
      var w := wanted[|wanted| - 1];
      if HasKey(before, KeyOf(w)) then before else before + [w]
  }

  function Sync(rows: seq<Row>, wanted: seq<Row>): seq<Row> {
    InsertMissing(Filter(rows, r => !Stale(r, wanted)), wanted)
  }

  // --- the table -----------------------------------------------------------------------------

  class Corpus {
    var rows: seq<Row>

    constructor ()
      ensures rows == []
    {
      rows := [];
    }

    /** insert_snapshot */
    method InsertSnapshot(r: Row) returns (inserted: bool)
      modifies this
      ensures inserted == !HasKey(old(rows), KeyOf(r))
      ensures rows == if inserted then old(rows) + [r] else old(rows)
    {
      for i := 0 to |rows|
        invariant rows == old(rows)
        invariant forall j :: 0 <= j < i ==> KeyOf(rows[j]) != KeyOf(r)
      {
        if KeyOf(rows[i]) == KeyOf(r) {
          return false;
        }
      }
      rows := rows + [r];
      return true;
    }

    /** The deletions of one replace_same_day pass. */
    method DeleteSuperseded(o: Row)
      modifies this
      ensures rows == Filter(old(rows), r => !Superseded(r, o))
    {
      var kept: seq<Row> := [];
      for i := 0 to |rows|
        invariant rows == old(rows)
        invariant kept == Filter(rows[..i], r => !Superseded(r, o))
      {
        assert rows[..i + 1][..i] == rows[..i];
        if !Superseded(rows[i], o) {
          kept := kept + [rows[i]];
        }
      }
      assert rows[..|rows|] == rows;
      rows := kept;
    }

    /** add_rows: returns how many offers were new. */
    method AddRows(offers: seq<Row>, replaceSameDay: bool) returns (inserted: nat)
      modifies this
      ensures rows == AddAll(old(rows), offers, replaceSameDay)
      ensures inserted == NewOffers(old(rows), offers, replaceSameDay)
    {
      inserted := 0;
      for i := 0 to |offers|
        invariant rows == AddAll(old(rows), offers[..i], replaceSameDay)
        invariant inserted == NewOffers(old(rows), offers[..i], replaceSameDay)
      {
        assert offers[..i + 1][..i] == offers[..i];
        var isNew := InsertSnapshot(offers[i]);
        if !isNew {
          continue;
        }
        inserted := inserted + 1;
        if replaceSameDay {
          DeleteSuperseded(offers[i]);
        }
      }
      assert offers[..|offers|] == offers;
    }

    /** sync_bundled: drops stale bundle rows, then inserts the wanted rows whose key is missing. */
    method SyncBundled(wanted: seq<Row>) returns (inserted: nat, deleted: nat)
      modifies this
      ensures rows == Sync(old(rows), wanted)
      ensures deleted == |old(rows)| - |Filter(old(rows), r => !Stale(r, wanted))|
      ensures inserted == |rows| - (|old(rows)| - deleted)
    {
      var keep: Row -> bool := r => !Stale(r, wanted);
      var have: set<Key> := {};
      var kept: seq<Row> := [];
      deleted := 0;
      for i := 0 to |rows|
        invariant rows == old(rows)
        invariant kept == Filter(rows[..i], keep) && deleted == i - |kept|
        invariant forall key :: key in have <==> HasKey(kept, key)
      {
        assert rows[..i + 1][..i] == rows[..i];
        if keep(rows[i]) {
          HasKeySnoc(kept, rows[i]);
          kept := kept + [rows[i]];
          have := have + {KeyOf(rows[i])};
        } else {
          deleted := deleted + 1;
        }
      }
      assert rows[..|rows|] == rows;
      rows := kept;
      inserted := 0;
      for i := 0 to |wanted|
        invariant rows == InsertMissing(kept, wanted[..i]) && inserted == |rows| - |kept|
        invariant forall key :: key in have <==> HasKey(rows, key)
      {
        assert wanted[..i + 1][..i] == wanted[..i];
        if KeyOf(wanted[i]) in have {
          continue;
        }
        HasKeySnoc(rows, wanted[i]);
        rows := rows + [wanted[i]];
        have := have + {KeyOf(wanted[i])};
        inserted := inserted + 1;
      }
      assert wanted[..|wanted|] == wanted;
    }
  }

  lemma HasKeySnoc(rows: seq<Row>, r: Row)
    ensures forall key :: HasKey(rows + [r], key) <==> HasKey(rows, key) || key == KeyOf(r)
  {
    var all := rows + [r];
    forall key
      ensures HasKey(all, key) <==> HasKey(rows, key) || key == KeyOf(r)
    {
      if HasKey(rows, key) {
        var i :| 0 <= i < |rows| && KeyOf(rows[i]) == key;
        assert KeyOf(all[i]) == key;
      }
      assert KeyOf(all[|rows|]) == KeyOf(r);
    }
  }
}
