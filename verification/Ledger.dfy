/**
 The append-only ledger: runs are inserted pending and sealed once, content-addressed rows are
 stored once, and the triggers refuse every other change.
 */
module Ledger {
  import opened Wrappers
  import opened CanonicalJson
  import opened Digests
  import opened RunIdentity
  import opened Chain
  import opened Sorting

  /** A run's identity as record_run computes it. */
  datatype Identity = Identity(runHash: Digest, inputsRoot: Digest, leaves: seq<Field>)

  /** How the ledger hashes: compute_run_hash, verify_run_hash and compute_chain_hash. */
  datatype Hashing = Hashing(identify: RunInputs -> Identity, verify: Identity -> bool, link: Linker)

  /** Identities verify, and hold the root of the result hashes as their results leaf. */
  ghost predicate Sound(k: Hashing) {
    forall r {:trigger k.identify(r)} :: k.verify(k.identify(r)) && HoldsResult(k.identify(r), r.resultCounts)
  }

  /** A single result hash is its own Merkle root, so it is the results leaf. */
  ghost predicate HoldsResult(id: Identity, counts: seq<Digest>) {
    |counts| == 1 ==> Field("results", JString(counts[0])) in id.leaves
  }

  datatype Status = Pending | Running | Completed | Failed

  /** The columns record_run fills when it seals a run. */
  datatype Seal = Seal(runHash: Digest, inputsRoot: Digest, leaves: seq<Field>, prev: Option<Digest>, chain: Digest)

  datatype Run = Run(id: string, workspace: string, createdAt: int, status: Status, seal: Option<Seal>,
    gaps: seq<string>)

  /** A run that has its chain hash. */
  type Sealed = r: Run | r.seal.Some?
    witness Run("", "", 0, Completed, Some(Seal(AnyDigest(), AnyDigest(), [], None, AnyDigest())), [])

  function AnyDigest(): Digest {
    seq(64, i => '0')
  }

  /**
   A row of circuits, compilations or calibration_snapshots: key is what it is looked up by, content its content
   hash.
   */
  datatype Stored = Stored(table: string, id: string, key: string, content: Digest)

  datatype ResultRow = ResultRow(id: string, runId: string, countsHash: Digest)

  datatype Event = Event(originalId: string, reproducedId: string)

  datatype Db = Db(
    runs: seq<Run>,
    heads: map<string, Digest>,
    stored: seq<Stored>,
    results: seq<ResultRow>,
    events: seq<Event>)

  const EMPTY_DB := Db([], map[], [], [], [])

  function ChainHead(db: Db, ws: string): Option<Digest> {
    if ws in db.heads then Some(db.heads[ws]) else None
  }

  // --- content addressing ----------------------------------------------------------------

  predicate HasKey(rows: seq<Stored>, table: string, key: string) {
    exists i :: 0 <= i < |rows| && rows[i].table == table && rows[i].key == key
  }

  function GetOrCreate(rows: seq<Stored>, row: Stored): seq<Stored> {
    if HasKey(rows, row.table, row.key) then rows else rows + [row]
  }

  function GetOrCreateAll(rows: seq<Stored>, wanted: seq<Stored>): seq<Stored>
    decreases |wanted|
  {
    if wanted == [] then rows else GetOrCreateAll(GetOrCreate(rows, wanted[0]), wanted[1..])
  }

  ghost predicate OneRowPerKey(rows: seq<Stored>) {
    forall i, j :: 0 <= i < j < |rows| ==> rows[i].table != rows[j].table || rows[i].key != rows[j].key
  }

  /** Content addressing keeps every stored row, holds every wanted key, and never holds one twice. */
  lemma {:induction false} StoredOnce(rows: seq<Stored>, wanted: seq<Stored>)
    requires OneRowPerKey(rows)
    ensures OneRowPerKey(GetOrCreateAll(rows, wanted)) && rows <= GetOrCreateAll(rows, wanted)
    ensures forall w :: w in wanted ==> HasKey(GetOrCreateAll(rows, wanted), w.table, w.key)
    decreases |wanted|
  {
    if wanted != [] {
      var next := GetOrCreate(rows, wanted[0]);
      var all := GetOrCreateAll(rows, wanted);
      StoredOnce(next, wanted[1..]);
      assert HasKey(next, wanted[0].table, wanted[0].key) by {
        if next != rows {
          assert next[|rows|] == wanted[0];
        }
      }
      var i :| 0 <= i < |next| && next[i].table == wanted[0].table && next[i].key == wanted[0].key;
      assert all[i] == next[i];
    }
  }

  // --- the triggers ------------------------------------------------------------------------

  /** trg_runs_seal: a sealed run refuses UPDATE. */
  predicate UpdateAllowed(run: Run) {
    !run.status.Completed? && !run.status.Failed?
  }

  // --- recording ---------------------------------------------------------------------------

  datatype Recording = Recording(
    workspace: string,
    id: string,
    resultId: string,
    createdAt: int,
    inputs: RunInputs,
    countsHash: Digest,
    rows: seq<Stored>)

  /** The inputs as hashed: the run's one result is the counts hash of its result row. */
  function HashedInputs(r: Recording): RunInputs {
    r.inputs.(resultCounts := [r.countsHash])
  }

  function SealFor(k: Hashing, head: Option<Digest>, r: Recording): Seal {
    var doc := k.identify(HashedInputs(r));
    Seal(doc.runHash, doc.inputsRoot, doc.leaves, head, k.link(head, doc.runHash))
  }

  function SealedRun(k: Hashing, db: Db, r: Recording): Run {
    Run(r.id, r.workspace, r.createdAt, Completed, Some(SealFor(k, ChainHead(db, r.workspace), r)), [])
  }

  function Recorded(k: Hashing, db: Db, r: Recording): Db {
    var run := SealedRun(k, db, r);
    db.(runs := db.runs + [run],
        heads := db.heads[r.workspace := run.seal.value.chain],
        stored := GetOrCreateAll(db.stored, r.rows),
        results := db.results + [ResultRow(r.resultId, r.id, r.countsHash)])
  }

  predicate HasRunHash(runs: seq<Run>, ws: string, claimed: string) {
    exists i :: 0 <= i < |runs| && runs[i].workspace == ws && runs[i].seal.Some? &&
      runs[i].seal.value.runHash == claimed
  }

  datatype Step =
    | RecordRun(r: Recording)
    | ReproduceRun(original: nat, r: Recording)
    | IngestRun(claimed: string, r: Recording)
    | RecordBundle(r: Recording, gaps: seq<string>)
    | UpdateRun(i: nat, run: Run)
    | DeleteRun(i: nat)
    | UpdateStored(i: nat, row: Stored)
    | DeleteStored(i: nat)
    | UpdateResult(i: nat, result: ResultRow)
    | DeleteResult(i: nat)
    | UpdateEvent(i: nat, event: Event)
    | DeleteEvent(i: nat)

  /** What one committed or refused step does to the database. */
  function Apply(k: Hashing, db: Db, s: Step): Db {
    match s
    case RecordRun(r) => Recorded(k, db, r)
    case ReproduceRun(original, r) =>
      if original < |db.runs| then
        var next := Recorded(k, db, r);
        next.(events := next.events + [Event(db.runs[original].id, r.id)])
      else db
    case IngestRun(claimed, r) => if HasRunHash(db.runs, r.workspace, claimed) then db else Recorded(k, db, r)
    // the gaps are written after the seal, so the trigger refuses them and the whole capture rolls back
    case RecordBundle(r, gaps) => if gaps == [] then Recorded(k, db, r) else db
    case UpdateRun(i, run) => if i < |db.runs| && UpdateAllowed(db.runs[i]) then db.(runs := db.runs[i := run]) else db
    case _ => db
  }

  /** The tables behind a session; the methods are the statements that reach them. */
  class Store {
    var runs: seq<Run>
    var heads: map<string, Digest>
    var stored: seq<Stored>
    var results: seq<ResultRow>
    var events: seq<Event>

    constructor ()
      ensures Contents() == EMPTY_DB
    {
      runs, heads, stored, results, events := [], map[], [], [], [];
    }

    function Contents(): Db
      reads this
    {
      Db(runs, heads, stored, results, events)
    }

    /** UPDATE runs ... */
    method Update(i: nat, run: Run) returns (refused: bool)
      requires i < |runs|
      modifies this`runs
      ensures refused == !UpdateAllowed(old(runs)[i])
      ensures runs == if refused then old(runs) else old(runs)[i := run]
    {
      refused := runs[i].status.Completed? || runs[i].status.Failed?;
      if !refused {
        runs := runs[i := run];
      }
    }

    method GetOrCreateRow(row: Stored)
      modifies this`stored
      ensures stored == GetOrCreate(old(stored), row)
    {
      for i := 0 to |stored|
        invariant forall j :: 0 <= j < i ==> stored[j].table != row.table || stored[j].key != row.key
      {
        if stored[i].table == row.table && stored[i].key == row.key {
          return;
        }
      }
      stored := stored + [row];
    }

    /** record_run: store the rows, insert the run pending, add its result, then seal it and move the head. */
    method Record(k: Hashing, r: Recording)
      modifies this
      ensures Contents() == Recorded(k, old(Contents()), r)
    {
      var i := 0;
      while i < |r.rows|
        invariant 0 <= i <= |r.rows|
        invariant GetOrCreateAll(stored, r.rows[i..]) == GetOrCreateAll(old(stored), r.rows)
        invariant runs == old(runs) && heads == old(heads) && results == old(results) && events == old(events)
      {
        assert r.rows[i..][1..] == r.rows[i + 1..];
        GetOrCreateRow(r.rows[i]);
        i := i + 1;
      }
      var at := |runs|;
      runs := runs + [Run(r.id, r.workspace, r.createdAt, Pending, None, [])];
      results := results + [ResultRow(r.resultId, r.id, r.countsHash)];
      var head := if r.workspace in heads then Some(heads[r.workspace]) else None;
      var seal := SealFor(k, head, r);
      var refused := Update(at, runs[at].(seal := Some(seal), status := Completed));
      heads := heads[r.workspace := seal.chain];
      assert runs == old(runs) + [SealedRun(k, old(Contents()), r)];
    }

    method Reproduce(k: Hashing, original: nat, r: Recording)
      requires original < |runs|
      modifies this
      ensures Contents() == Apply(k, old(Contents()), ReproduceRun(original, r))
    {
      var id := runs[original].id;
      Record(k, r);
      events := events + [Event(id, r.id)];
    }

    /** materialize_bundle: idempotent by the claimed run hash. */
    method Ingest(k: Hashing, claimed: string, r: Recording) returns (existed: bool)
      modifies this
      ensures existed == HasRunHash(old(runs), r.workspace, claimed)
      ensures Contents() == Apply(k, old(Contents()), IngestRun(claimed, r))
    {
      for i := 0 to |runs|
        invariant forall j :: 0 <= j < i ==>
          !(runs[j].workspace == r.workspace && runs[j].seal.Some? && runs[j].seal.value.runHash == claimed)
      {
        if runs[i].workspace == r.workspace && runs[i].seal.Some? && runs[i].seal.value.runHash == claimed {
          return true;
        }
      }
      Record(k, r);
      return false;
    }

    /** LocalLedger.record_bundle: the gaps are an UPDATE of the run that was just sealed. */
    method Capture(k: Hashing, r: Recording, gaps: seq<string>) returns (stored: bool)
      modifies this
      ensures stored <==> gaps == []
      ensures Contents() == Apply(k, old(Contents()), RecordBundle(r, gaps))
    {
      var before := Contents();
      Record(k, r);
      if gaps != [] {
        var refused := Update(|runs| - 1, runs[|runs| - 1].(gaps := gaps));
        if refused {
          runs, heads, this.stored := before.runs, before.heads, before.stored;
          results, events := before.results, before.events;
          return false;
        }
      }
      return true;
    }
  }

  // --- the ledger order --------------------------------------------------------------------

  predicate Before(a: Sealed, b: Sealed) {
    a.createdAt < b.createdAt || (a.createdAt == b.createdAt && KeyLess(a.id, b.id))
  }

  /** The sealed runs of a workspace, in insertion order. */
  function Select(runs: seq<Run>, ws: string): (r: seq<Sealed>)
    ensures forall i :: 0 <= i < |r| ==> r[i] in runs && r[i].workspace == ws
  {
    if runs == [] then []
    else
      var n := |runs| - 1;
      Select(runs[..n], ws) + (if runs[n].workspace == ws && runs[n].seal.Some? then [runs[n]] else [])
  }

  /** order_by(created_at, id) */
  function Order(runs: seq<Sealed>): seq<Sealed> {
    Sort(runs, Before)
  }

  function ToLink(run: Sealed): Link {
    Link(run.id, run.seal.value.runHash, run.seal.value.prev, run.seal.value.chain)
  }

  function Links(runs: seq<Sealed>): (r: seq<Link>)
    ensures |r| == |runs|
  {
    seq(|runs|, i requires 0 <= i < |runs| => ToLink(runs[i]))
  }

  /** The rows verify_chain walks for a workspace. */
  function LedgerOf(runs: seq<Run>, ws: string): seq<Link> {
    Links(Order(Select(runs, ws)))
  }

  // --- what every run of steps keeps ---------------------------------------------------------

  ghost predicate RunVerifies(k: Hashing, run: Run) {
    && run.status == Completed
    && run.seal.Some?
    && k.verify(Identity(run.seal.value.runHash, run.seal.value.inputsRoot, run.seal.value.leaves))
  }

  /** The run's result leaf is the counts hash of its one result row. */
  ghost predicate ResultSealed(run: Run, result: ResultRow) {
    && result.runId == run.id
    && run.seal.Some?
    && Field("results", JString(result.countsHash)) in run.seal.value.leaves
  }

  ghost predicate Inv(k: Hashing, db: Db) {
    && (forall ws :: Accepts(k.link, LedgerOf(db.runs, ws)) && Head(LedgerOf(db.runs, ws)) == ChainHead(db, ws))
    && (forall i :: 0 <= i < |db.runs| ==> RunVerifies(k, db.runs[i]))
    && |db.results| == |db.runs|
    && (forall i :: 0 <= i < |db.runs| ==> ResultSealed(db.runs[i], db.results[i]))
    && OneRowPerKey(db.stored)
  }

  /** One writer per workspace with a strictly increasing clock. */
  predicate ClockAdvances(runs: seq<Run>, r: Recording) {
    forall i :: 0 <= i < |runs| && runs[i].workspace == r.workspace ==> runs[i].createdAt < r.createdAt
  }

  predicate Enabled(db: Db, s: Step) {
    match s
    case RecordRun(r) => ClockAdvances(db.runs, r)
    case ReproduceRun(_, r) => ClockAdvances(db.runs, r)
    case IngestRun(_, r) => ClockAdvances(db.runs, r)
    case RecordBundle(r, _) => ClockAdvances(db.runs, r)
    case _ => true
  }

  lemma {:induction false} SelectSnoc(runs: seq<Run>, run: Run, ws: string)
    ensures Select(runs + [run], ws) ==
            Select(runs, ws) + (if run.workspace == ws && run.seal.Some? then [run] else [])
  {
    assert (runs + [run])[..|runs|] == runs;
  }

  lemma {:induction false} OrderSnoc(runs: seq<Sealed>, run: Sealed)
    ensures Order(runs + [run]) == Place(run, Order(runs), Before)
  {
    assert (runs + [run])[..|runs|] == runs;
  }

  lemma LinksSnoc(rows: seq<Sealed>, run: Sealed)
    ensures Links(rows + [run]) == Links(rows) + [ToLink(run)]
  {
  }

  /** A run with a later timestamp than the rest of its workspace sorts last. */
  lemma {:induction false} LaterSortsLast(runs: seq<Run>, run: Sealed)
    requires forall i :: 0 <= i < |runs| && runs[i].workspace == run.workspace ==> runs[i].createdAt < run.createdAt
    ensures var sorted := Order(Select(runs, run.workspace)); Place(run, sorted, Before) == sorted + [run]
  {
    var sorted := Order(Select(runs, run.workspace));
    if sorted != [] {
      var last := sorted[|sorted| - 1];
      SortElements(Select(runs, run.workspace), Before);
      assert last in Select(runs, run.workspace);
      assert last in runs && last.workspace == run.workspace;
    }
  }

  lemma LedgerSnoc(runs: seq<Run>, run: Sealed)
    requires forall i :: 0 <= i < |runs| && runs[i].workspace == run.workspace ==> runs[i].createdAt < run.createdAt
    ensures LedgerOf(runs + [run], run.workspace) == LedgerOf(runs, run.workspace) + [ToLink(run)]
  {
    var chosen := Select(runs, run.workspace);
    SelectSnoc(runs, run, run.workspace);
    OrderSnoc(chosen, run);
    LaterSortsLast(runs, run);
    LinksSnoc(Order(chosen), run);
  }

  lemma RecordKeepsLedgers(k: Hashing, db: Db, r: Recording, ws: string)
    requires ClockAdvances(db.runs, r)
    requires Accepts(k.link, LedgerOf(db.runs, ws)) && Head(LedgerOf(db.runs, ws)) == ChainHead(db, ws)
    ensures var next := Recorded(k, db, r);
            Accepts(k.link, LedgerOf(next.runs, ws)) && Head(LedgerOf(next.runs, ws)) == ChainHead(next, ws)
  {
    var run := SealedRun(k, db, r);
    if ws == r.workspace {
      LedgerSnoc(db.runs, run);
      AcceptsSnoc(k.link, LedgerOf(db.runs, ws), ToLink(run));
    } else {
      SelectSnoc(db.runs, run, ws);
      assert Select(db.runs, ws) + [] == Select(db.runs, ws);
    }
  }

  lemma RecordedRunVerifies(k: Hashing, db: Db, r: Recording)
    requires Sound(k)
    ensures RunVerifies(k, SealedRun(k, db, r))
    ensures ResultSealed(SealedRun(k, db, r), ResultRow(r.resultId, r.id, r.countsHash))
  {
    var id := k.identify(HashedInputs(r));
    assert k.verify(id) && HoldsResult(id, [r.countsHash]);
  }

  lemma RecordKeepsInv(k: Hashing, db: Db, r: Recording)
    requires Sound(k) && Inv(k, db) && ClockAdvances(db.runs, r)
    ensures Inv(k, Recorded(k, db, r))
  {
    forall ws
      ensures var next := Recorded(k, db, r);
              Accepts(k.link, LedgerOf(next.runs, ws)) && Head(LedgerOf(next.runs, ws)) == ChainHead(next, ws)
    {
      RecordKeepsLedgers(k, db, r, ws);
    }
    RecordedRunVerifies(k, db, r);
    StoredOnce(db.stored, r.rows);
  }

  lemma StepKeepsInv(k: Hashing, db: Db, s: Step)
    requires Sound(k) && Inv(k, db) && Enabled(db, s)
    ensures Inv(k, Apply(k, db, s))
  {
    if s.ReproduceRun? {
      RecordKeepsInv(k, db, s.r);
      if s.original < |db.runs| {
        EventsAreFree(k, Recorded(k, db, s.r), Apply(k, db, s).events);
      }
    } else if s.RecordRun? || s.IngestRun? || s.RecordBundle? {
      RecordKeepsInv(k, db, s.r);
    } else {
      assert Apply(k, db, s) == db;
    }
  }

  lemma EventsAreFree(k: Hashing, db: Db, events: seq<Event>)
    requires Inv(k, db)
    ensures Inv(k, db.(events := events))
  {
    forall ws
      ensures ChainHead(db.(events := events), ws) == ChainHead(db, ws)
    {
    }
  }

  function Execute(k: Hashing, db: Db, steps: seq<Step>): Db
    decreases |steps|
  {
    if steps == [] then db else Execute(k, Apply(k, db, steps[0]), steps[1..])
  }

  predicate EnabledAll(k: Hashing, db: Db, steps: seq<Step>)
    decreases |steps|
  {
    steps == [] || (Enabled(db, steps[0]) && EnabledAll(k, Apply(k, db, steps[0]), steps[1..]))
  }

  /** Nothing recorded is ever changed or lost: every table only grows at its end. */
  predicate Grows(db: Db, next: Db) {
    db.runs <= next.runs && db.stored <= next.stored && db.results <= next.results && db.events <= next.events
  }

  lemma StepGrows(k: Hashing, db: Db, s: Step)
    requires Inv(k, db)
    ensures Grows(db, Apply(k, db, s))
  {
    match s
    case RecordRun(r) => StoredOnce(db.stored, r.rows);
    case ReproduceRun(_, r) => StoredOnce(db.stored, r.rows);
    case IngestRun(_, r) => StoredOnce(db.stored, r.rows);
    case RecordBundle(r, _) => StoredOnce(db.stored, r.rows);
    case UpdateRun(i, _) =>
      if i < |db.runs| {
        assert RunVerifies(k, db.runs[i]);
      }
    case _ =>
  }

  /**
   Over every sequence of recordings, reproductions, ingests and attempted raw changes: each
   workspace's chain verifies and ends at its head, every stored run hash verifies, and no
   row of a sealed or immutable table changes or disappears.
   */
  lemma {:induction false} LedgerSafety(k: Hashing, db: Db, steps: seq<Step>)
    requires Sound(k) && Inv(k, db) && EnabledAll(k, db, steps)
    ensures Inv(k, Execute(k, db, steps))
    ensures Grows(db, Execute(k, db, steps))
    decreases |steps|
  {
    if steps != [] {
      StepKeepsInv(k, db, steps[0]);
      StepGrows(k, db, steps[0]);
      LedgerSafety(k, Apply(k, db, steps[0]), steps[1..]);
    }
  }

  lemma EmptyInv(k: Hashing)
    ensures Inv(k, EMPTY_DB)
  {
    forall ws
      ensures LedgerOf([], ws) == []
    {
    }
  }

  /** A capture with gaps is never stored, whatever the database holds. */
  lemma GapsAreLost(k: Hashing, db: Db, r: Recording, gaps: seq<string>)
    ensures Apply(k, db, RecordBundle(r, gaps)) == db <==> gaps != []
  {
    assert |Recorded(k, db, r).runs| == |db.runs| + 1;
  }

  // --- without the clock -----------------------------------------------------------------------

  /**
   Whatever the clock says, recording into a workspace whose chain verifies leaves it verifying
   exactly when the new run does not sort before the workspace's last run.
   */
  lemma RecordVerifiesIff(k: Hashing, db: Db, r: Recording)
    requires var before := LedgerOf(db.runs, r.workspace);
             Accepts(k.link, before) && Head(before) == ChainHead(db, r.workspace) && Separates(k.link, Pairs(before))
    ensures var sorted := Order(Select(db.runs, r.workspace));
            Accepts(k.link, LedgerOf(Recorded(k, db, r).runs, r.workspace)) <==>
            sorted == [] || !Before(SealedRun(k, db, r), sorted[|sorted| - 1])
  {
    var run := SealedRun(k, db, r);
    var chosen := Select(db.runs, r.workspace);
    var sorted := Order(chosen);
    SelectSnoc(db.runs, run, r.workspace);
    OrderSnoc(chosen, run);
    var p := PlaceSplits<Sealed>(run, sorted, Before);
    LinksOfSplit(sorted, p, run);
    InsertedRowNoticed(k.link, Links(sorted), p, ToLink(run));
  }

  lemma LinksOfSplit(sorted: seq<Sealed>, p: nat, run: Sealed)
    requires p <= |sorted|
    ensures Links(sorted[..p] + [run] + sorted[p..]) == Links(sorted)[..p] + [ToLink(run)] + Links(sorted)[p..]
  {
  }

  // --- with the real hashes ----------------------------------------------------------------------

  function IdentityOf(h: Hash, r: RunInputs): Identity {
    var leaves := RunLeaves(h, r);
    var root := InputsRoot(h, leaves);
    Identity(Sha(h, RootDoc(root)), root, leaves)
  }

  predicate IdentityVerifies(h: Hash, id: Identity) {
    VerifyRunHash(h, Doc(id.leaves, id.inputsRoot, id.runHash))
  }

  function HashingOf(h: Hash): Hashing {
    Hashing((r: RunInputs) => IdentityOf(h, r), (id: Identity) => IdentityVerifies(h, id), LinkerOf(h))
  }

  lemma IdentityIsSound(h: Hash, r: RunInputs)
    ensures IdentityVerifies(h, IdentityOf(h, r))
    ensures HoldsResult(IdentityOf(h, r), r.resultCounts)
  {
    ComputedVerifies(h, r);
    ResultLeaf(h, r);
  }

  lemma HashingIsSound(h: Hash)
    ensures Sound(HashingOf(h))
  {
    forall r
      ensures var id := HashingOf(h).identify(r); HashingOf(h).verify(id) && HoldsResult(id, r.resultCounts)
    {
      IdentityIsSound(h, r);
    }
  }

  /** Ledger safety of an initially empty store, with SHA-256 in place of the abstract hashing. */
  lemma {:induction false} StoreSafety(h: Hash, steps: seq<Step>, ws: string)
    requires EnabledAll(HashingOf(h), EMPTY_DB, steps)
    ensures var db := Execute(HashingOf(h), EMPTY_DB, steps);
            && Accepts(LinkerOf(h), LedgerOf(db.runs, ws))
            && Head(LedgerOf(db.runs, ws)) == ChainHead(db, ws)
            && forall run :: run in db.runs ==>
                 && run.status == Completed && run.seal.Some?
                 && IdentityVerifies(h, Identity(run.seal.value.runHash, run.seal.value.inputsRoot,
                    run.seal.value.leaves))
  {
    var k := HashingOf(h);
    HashingIsSound(h);
    EmptyInv(k);
    LedgerSafety(k, EMPTY_DB, steps);
    var db := Execute(k, EMPTY_DB, steps);
    forall run | run in db.runs
      ensures RunVerifies(k, run)
    {
      var i :| 0 <= i < |db.runs| && db.runs[i] == run;
    }
  }
}
