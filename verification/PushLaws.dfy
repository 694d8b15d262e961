/** Exactly-once delivery: when the server recomputes the client's run hash, and what follows if it does or does not. */
module PushLaws {
  import opened Bridge
  import opened CanonicalJson
  import opened CanonicalOrder
  import opened Digests
  import opened Ledger
  import opened Push
  import opened Qiskit
  import opened RunIdentity
  import opened Statevector
  import opened Wrappers

  // --- when the recomputed hash is the claimed one ------------------------------------------------

  /**
    * Nothing the hash covers changes on the way: shots and seeds survive Python's "or", the backend row
    * has the same identity, and the circuit the transpiler is given at replay, which has the default register and
    * nothing classical, is transpiled to the same text as the captured one, and the counts hash to the same.
    */
  predicate Agrees(w: World, r: Request, row: Backend, retained: bool, identity: Digest)
    requires SafeIr(w.gates, ToIr(r.circuit))
  {
    var replay := Replay(w, Export(w, r, row, retained));
    && r.shots >= 1 && r.seed != 0 && r.seedTranspiler != 0
    && identity == row.identity
    && w.compile(Rebuilt(ToIr(r.circuit)), row.basis, row.coupling, r.level, r.seedTranspiler) ==
       w.compile(Prepared(r.circuit), r.basis, r.coupling, r.level, r.seedTranspiler)
    && w.countsHash(CountsOf(w, replay), r.shots) == w.countsHash(CountsOf(w, r), r.shots)
  }

  lemma ReplayOfExport(w: World, r: Request, row: Backend, retained: bool)
    requires NoDirectives(w.gates) && SafeIr(w.gates, ToIr(r.circuit))
    ensures var replay := Replay(w, Export(w, r, row, retained));
            && replay.circuit == Rebuilt(ToIr(r.circuit)) && Prepared(replay.circuit) == replay.circuit
            && ToIr(replay.circuit) == ToIr(r.circuit)
  {
    IrRoundTrip(w.gates, ToIr(r.circuit));
    RebuiltIsSame(w.gates, ToIr(r.circuit));
  }

  lemma ParamFieldsWellFormed(level: int, engine: string)
    ensures CanonicalOrder.WellFormed(JObject(ParamFields(level, engine)))
  {
    assert "optimization_level"[0] != "engine"[0];
    assert DistinctKeys(ParamFields(level, engine));
  }

  lemma SameHashIff(h: Hash, x: RunInputs, y: RunInputs)
    requires x.executionParams == y.executionParams && ParamsWellFormed(x)
    requires |x.resultCounts| == |y.resultCounts| == 1
    requires NoCollision(h, RunTexts(h, x) + RunTexts(h, y))
    ensures IdentityOf(h, x).runHash == IdentityOf(h, y).runHash <==> x == y
  {
    if IdentityOf(h, x).runHash == IdentityOf(h, y).runHash {
      assert ComputeRunHash(h, x).runHash == ComputeRunHash(h, y).runHash;
      RunHashDeterminesInputs(h, x, y);
    }
  }

  lemma SameInputsIff(w: World, r: Request, row: Backend, retained: bool, identity: Digest)
    requires NoDirectives(w.gates) && SafeIr(w.gates, ToIr(r.circuit))
    ensures InputsOf(w, r, row.identity) == InputsOf(w, Replay(w, Export(w, r, row, retained)), identity) <==>
            Agrees(w, r, row, retained, identity)
  {
    ReplayOfExport(w, r, row, retained);
  }

  /** The server recomputes the claimed run hash exactly when nothing the hash covers changes on the way. */
  lemma RecomputedIff(h: Hash, w: World, r: Request, row: Backend, retained: bool, identity: Digest)
    requires w.hashing == HashingOf(h) && NoDirectives(w.gates) && SafeIr(w.gates, ToIr(r.circuit))
    requires NoCollision(h, RunTexts(h, InputsOf(w, r, row.identity)) +
                            RunTexts(h, InputsOf(w, Replay(w, Export(w, r, row, retained)), identity)))
    ensures RunHashOf(w, Replay(w, Export(w, r, row, retained)), identity) == Export(w, r, row, retained).claimed <==>
            Agrees(w, r, row, retained, identity)
  {
    var x, y := InputsOf(w, r, row.identity), InputsOf(w, Replay(w, Export(w, r, row, retained)), identity);
    SameInputsIff(w, r, row, retained, identity);
    ParamFieldsWellFormed(r.level, r.engine);
    SameHashIff(h, x, y);
    assert w.hashing.identify(x) == IdentityOf(h, x) && w.hashing.identify(y) == IdentityOf(h, y);
  }

  /**
    * What a capture has to look like: a restorable circuit, compiled for the backend row's own basis and coupling,
    * counts retained, a shot at least, and no seed of zero.
    */
  predicate Portable(r: Request, row: Backend, retained: bool) {
    && Restorable(r.circuit) && r.basis == row.basis && r.coupling == row.coupling
    && retained && r.shots >= 1 && r.seed != 0 && r.seedTranspiler != 0
  }

  /** A portable capture is recomputed to its own hash by every server whose backend row has the same identity. */
  lemma PortableRecomputes(w: World, r: Request, row: Backend, retained: bool)
    requires NoDirectives(w.gates) && SafeIr(w.gates, ToIr(r.circuit)) && Portable(r, row, retained)
    ensures RunHashOf(w, Replay(w, Export(w, r, row, retained)), row.identity) == Export(w, r, row, retained).claimed
  {
    ReplayOfExport(w, r, row, retained);
    PreparedIsPortable(r.circuit);
    assert InputsOf(w, Replay(w, Export(w, r, row, retained)), row.identity) == InputsOf(w, r, row.identity);
  }

  /** The transpiler's text tells the captured circuit and the replayed one apart, and the two targets. */
  predicate Separates(w: World, r: Request, row: Backend) {
    w.compile(Rebuilt(ToIr(r.circuit)), row.basis, row.coupling, r.level, r.seedTranspiler) ==
    w.compile(Prepared(r.circuit), r.basis, r.coupling, r.level, r.seedTranspiler) ==>
      Rebuilt(ToIr(r.circuit)) == Prepared(r.circuit) && row.basis == r.basis && row.coupling == r.coupling
  }

  /** With such a transpiler, a capture with its counts is recomputed to its own hash exactly when it is portable. */
  lemma PortableIff(h: Hash, w: World, r: Request, row: Backend)
    requires w.hashing == HashingOf(h) && NoDirectives(w.gates) && SafeIr(w.gates, ToIr(r.circuit)) &&
             Separates(w, r, row)
    requires NoCollision(h, RunTexts(h, InputsOf(w, r, row.identity)) +
                            RunTexts(h, InputsOf(w, Replay(w, Export(w, r, row, true)), row.identity)))
    ensures RunHashOf(w, Replay(w, Export(w, r, row, true)), row.identity) == Export(w, r, row, true).claimed <==>
            Portable(r, row, true)
  {
    RecomputedIff(h, w, r, row, true, row.identity);
    PreparedIsPortable(r.circuit);
  }

  // --- counting runs ----------------------------------------------------------------------------------

  predicate IsRun(run: Run, ws: string, hash: string) {
    run.workspace == ws && run.seal.Some? && run.seal.value.runHash == hash
  }

  function Count(runs: seq<Run>, ws: string, hash: string): nat {
    if runs == [] then 0
    else Count(runs[..|runs| - 1], ws, hash) + (if IsRun(runs[|runs| - 1], ws, hash) then 1 else 0)
  }

  lemma {:induction false} CountedIffStored(runs: seq<Run>, ws: string, hash: string)
    ensures Count(runs, ws, hash) > 0 <==> HasRunHash(runs, ws, hash)
  {
    if runs != [] {
      var n := |runs| - 1;
      CountedIffStored(runs[..n], ws, hash);
      if i :| 0 <= i < |runs| && runs[i].workspace == ws && runs[i].seal.Some? && runs[i].seal.value.runHash == hash {
        if i < n {
          assert runs[..n][i] == runs[i];
        }
      }
    }
  }

  /** The server knows how to replay the bundle, and gets the claimed hash. */
  predicate Faithful(w: World, backends: map<BackendKey, Backend>, b: Bundle) {
    && Accepts(w, b)
    && RunHashOf(w, Replay(w, b), Resolve(w, backends, Replay(w, b)).identity) == b.claimed
  }

  function Recomputed(w: World, site: Site, b: Bundle): Digest
    requires SafeCircuit(w.gates, b.source)
  {
    RunHashOf(w, Replay(w, b), Resolve(w, site.backends, Replay(w, b)).identity)
  }

  lemma {:induction false} DeliverCounts(w: World, ws: string, site: Site, d: Delivery, hash: string)
    requires Accepts(w, d.bundle)
    ensures var next := Deliver(w, ws, site, d).0;
            Count(next.db.runs, ws, hash) ==
            Count(site.db.runs, ws, hash) +
            (if !HasRunHash(site.db.runs, ws, d.bundle.claimed) && Recomputed(w, site, d.bundle) == hash then 1 else 0)
  {
    if !HasRunHash(site.db.runs, ws, d.bundle.claimed) {
      var r := Replay(w, d.bundle);
      var recording := RecordingOf(w, ws, d, r, Resolve(w, site.backends, r));
      var run := SealedRun(w.hashing, site.db, recording);
      assert HashedInputs(recording) == recording.inputs;
      assert run.seal.value.runHash == Recomputed(w, site, d.bundle);
      assert (site.db.runs + [run])[..|site.db.runs|] == site.db.runs;
    }
  }

  /** On the ledger a delivery is one ingest step, or none when the bundle is refused. */
  lemma DeliverIsLedgerStep(w: World, ws: string, site: Site, d: Delivery)
    ensures !Accepts(w, d.bundle) ==> Deliver(w, ws, site, d).0 == site
    ensures Accepts(w, d.bundle) ==>
              var r := Replay(w, d.bundle);
              Deliver(w, ws, site, d).0.db ==
              Apply(w.hashing, site.db, IngestRun(d.bundle.claimed,
                RecordingOf(w, ws, d, r, Resolve(w, site.backends, r))))
  {}

  // --- deliveries of faithful bundles --------------------------------------------------------------------

  /**
    * Every bundle is faithful, and bundles for a backend the server does not know yet agree on its identity.
    */
  ghost predicate Settled(w: World, backends: map<BackendKey, Backend>, bundles: set<Bundle>) {
    && (forall b :: b in bundles ==> Faithful(w, backends, b))
    && (forall b, c :: b in bundles && c in bundles ==> SameIdentity(w, backends, b, c))
  }

  predicate SameIdentity(w: World, backends: map<BackendKey, Backend>, b: Bundle, c: Bundle) {
    b.key == c.key && b.key !in backends && Accepts(w, b) && Accepts(w, c) ==>
      NewBackend(w, Replay(w, b)).identity == NewBackend(w, Replay(w, c)).identity
  }

  datatype Capture = Capture(r: Request, row: Backend, retained: bool)

  function ExportOf(w: World, c: Capture): Bundle {
    Export(w, c.r, c.row, c.retained)
  }

  /** The server's backend row, or the one it would create, has the local row's identity. */
  predicate SameBackend(w: World, backends: map<BackendKey, Backend>, c: Capture) {
    Resolve(w, backends, c.r).identity == c.row.identity
  }

  /** A safe and portable capture that the server's engine can replay, for a backend the server agrees on. */
  predicate Replayable(w: World, backends: map<BackendKey, Backend>, c: Capture) {
    && SafeIr(w.gates, ToIr(c.r.circuit)) && Portable(c.r, c.row, c.retained) && SameBackend(w, backends, c)
    && w.executes(Replay(w, ExportOf(w, c)))
  }

  lemma CaptureIsFaithful(w: World, backends: map<BackendKey, Backend>, c: Capture)
    requires NoDirectives(w.gates) && Replayable(w, backends, c)
    ensures Faithful(w, backends, ExportOf(w, c))
  {
    PortableRecomputes(w, c.r, c.row, c.retained);
    ReplayOfExport(w, c.r, c.row, c.retained);
  }

  lemma CaptureKeepsIdentity(w: World, backends: map<BackendKey, Backend>, c: Capture)
    requires NoDirectives(w.gates) && Replayable(w, backends, c) && c.r.key !in backends
    ensures NewBackend(w, Replay(w, ExportOf(w, c))).identity == c.row.identity
  {
    ReplayOfExport(w, c.r, c.row, c.retained);
  }

  lemma CapturesAgree(w: World, backends: map<BackendKey, Backend>, c: Capture, d: Capture)
    requires NoDirectives(w.gates) && Replayable(w, backends, c) && Replayable(w, backends, d)
    requires c.r.key == d.r.key ==> c.row == d.row
    ensures SameIdentity(w, backends, ExportOf(w, c), ExportOf(w, d))
  {
    if c.r.key == d.r.key && c.r.key !in backends {
      CaptureKeepsIdentity(w, backends, c);
      CaptureKeepsIdentity(w, backends, d);
    }
  }

  /** A local ledger of such captures is settled on every server that has the same backends. */
  lemma PortableCapturesSettle(w: World, backends: map<BackendKey, Backend>, captures: set<Capture>)
    requires NoDirectives(w.gates)
    requires forall c :: c in captures ==> Replayable(w, backends, c)
    requires forall c, d :: c in captures && d in captures && c.r.key == d.r.key ==> c.row == d.row
    ensures Settled(w, backends, set c | c in captures :: ExportOf(w, c))
  {
    var bundles := set c | c in captures :: ExportOf(w, c);
    forall b | b in bundles
      ensures Faithful(w, backends, b)
    {
      var c :| c in captures && ExportOf(w, c) == b;
      CaptureIsFaithful(w, backends, c);
    }
    forall a, b | a in bundles && b in bundles
      ensures SameIdentity(w, backends, a, b)
    {
      var c :| c in captures && ExportOf(w, c) == a;
      var d :| d in captures && ExportOf(w, d) == b;
      CapturesAgree(w, backends, c, d);
    }
  }

  /** Storing a backend row that has the expected identity leaves a faithful bundle faithful. */
  lemma FaithfulStays(w: World, backends: map<BackendKey, Backend>, key: BackendKey, row: Backend, b: Bundle)
    requires Faithful(w, backends, b)
    requires key == b.key ==> row.identity == Resolve(w, backends, Replay(w, b)).identity
    ensures Faithful(w, backends[key := row], b)
  {
    var r := Replay(w, b);
    assert Resolve(w, backends[key := row], r).identity == Resolve(w, backends, r).identity;
  }

  lemma StoredIdentity(w: World, backends: map<BackendKey, Backend>, a: Bundle, b: Bundle)
    requires Faithful(w, backends, a) && Faithful(w, backends, b) && SameIdentity(w, backends, a, b) && a.key == b.key
    ensures Resolve(w, backends, Replay(w, a)).identity == Resolve(w, backends, Replay(w, b)).identity
  {}

  lemma SameIdentityStays(w: World, backends: map<BackendKey, Backend>, key: BackendKey, row: Backend, b: Bundle,
      c: Bundle)
    requires SameIdentity(w, backends, b, c)
    ensures SameIdentity(w, backends[key := row], b, c)
  {}

  lemma StoringKeepsSettled(w: World, backends: map<BackendKey, Backend>, a: Bundle, bundles: set<Bundle>)
    requires Settled(w, backends, bundles) && a in bundles
    ensures Settled(w, backends[a.key := Resolve(w, backends, Replay(w, a))], bundles)
  {
    var row := Resolve(w, backends, Replay(w, a));
    forall b, c | b in bundles && c in bundles
      ensures SameIdentity(w, backends[a.key := row], b, c)
    {
      SameIdentityStays(w, backends, a.key, row, b, c);
    }
    forall b | b in bundles
      ensures Faithful(w, backends[a.key := row], b)
    {
      if a.key == b.key {
        StoredIdentity(w, backends, a, b);
      }
      FaithfulStays(w, backends, a.key, row, b);
    }
  }

  lemma DeliverKeepsSettled(w: World, ws: string, site: Site, d: Delivery, bundles: set<Bundle>)
    requires Settled(w, site.backends, bundles) && d.bundle in bundles
    ensures Settled(w, Deliver(w, ws, site, d).0.backends, bundles)
  {
    StoringKeepsSettled(w, site.backends, d.bundle, bundles);
  }

  function DeliverAll(w: World, ws: string, site: Site, ds: seq<Delivery>): Site {
    if ds == [] then site else Deliver(w, ws, DeliverAll(w, ws, site, ds[..|ds| - 1]), ds[|ds| - 1]).0
  }

  ghost predicate AllFrom(ds: seq<Delivery>, bundles: set<Bundle>) {
    forall i :: 0 <= i < |ds| ==> ds[i].bundle in bundles
  }

  predicate Claims(ds: seq<Delivery>, hash: string) {
    exists i :: 0 <= i < |ds| && ds[i].bundle.claimed == hash
  }

  lemma ClaimsSnoc(ds: seq<Delivery>, hash: string)
    requires ds != []
    ensures Claims(ds, hash) <==> Claims(ds[..|ds| - 1], hash) || ds[|ds| - 1].bundle.claimed == hash
  {
    var n := |ds| - 1;
    assert forall i :: 0 <= i < n ==> ds[..n][i] == ds[i];
    if i :| 0 <= i < |ds| && ds[i].bundle.claimed == hash {
      assert i < n ==> ds[..n][i].bundle.claimed == hash;
    }
  }

  lemma {:induction false} DeliverOnce(w: World, ws: string, site: Site, d: Delivery, bundles: set<Bundle>,
      hash: string)
    requires Settled(w, site.backends, bundles) && d.bundle in bundles
    ensures Settled(w, Deliver(w, ws, site, d).0.backends, bundles)
    ensures var before := Count(site.db.runs, ws, hash);
            Count(Deliver(w, ws, site, d).0.db.runs, ws, hash) ==
            if before == 0 && d.bundle.claimed == hash then 1 else before
  {
    DeliverKeepsSettled(w, ws, site, d, bundles);
    assert Faithful(w, site.backends, d.bundle);
    DeliverCounts(w, ws, site, d, hash);
    CountedIffStored(site.db.runs, ws, d.bundle.claimed);
  }

  /**
    * Exactly once: however often and in whatever order faithful bundles arrive, every hash that was
    * delivered is stored once if it was not stored more often before, and no other hash gains a run.
    */
  lemma {:induction false} ExactlyOnce(w: World, ws: string, site: Site, ds: seq<Delivery>, bundles: set<Bundle>,
      hash: string)
    requires Settled(w, site.backends, bundles) && AllFrom(ds, bundles)
    ensures Settled(w, DeliverAll(w, ws, site, ds).backends, bundles)
    ensures var before := Count(site.db.runs, ws, hash);
            Count(DeliverAll(w, ws, site, ds).db.runs, ws, hash) ==
            if before == 0 && Claims(ds, hash) then 1 else before
    decreases |ds|
  {
    if ds != [] {
      var n := |ds| - 1;
      ExactlyOnce(w, ws, site, ds[..n], bundles, hash);
      ClaimsSnoc(ds, hash);
      DeliverOnce(w, ws, DeliverAll(w, ws, site, ds[..n]), ds[n], bundles, hash);
    }
  }

  // --- deliveries of other bundles -------------------------------------------------------------------------

  /** The bundle is accepted, its claim is not stored, and it is recomputed to another hash. */
  predicate Mismatched(w: World, ws: string, site: Site, b: Bundle, hash: Digest) {
    && Accepts(w, b) && !HasRunHash(site.db.runs, ws, b.claimed)
    && Recomputed(w, site, b) == hash && hash != b.claimed
  }

  lemma {:induction false} DeliverDuplicates(w: World, ws: string, site: Site, d: Delivery, hash: Digest)
    requires Mismatched(w, ws, site, d.bundle, hash)
    ensures Mismatched(w, ws, Deliver(w, ws, site, d).0, d.bundle, hash)
    ensures Count(Deliver(w, ws, site, d).0.db.runs, ws, hash) == Count(site.db.runs, ws, hash) + 1
  {
    DeliverCounts(w, ws, site, d, hash);
    DeliverCounts(w, ws, site, d, d.bundle.claimed);
    CountedIffStored(site.db.runs, ws, d.bundle.claimed);
    CountedIffStored(Deliver(w, ws, site, d).0.db.runs, ws, d.bundle.claimed);
  }

  /** The state after n retries of a bundle whose claim is not stored: each has added a run. */
  ghost predicate Duplicated(w: World, ws: string, site: Site, now: Site, b: Bundle, hash: Digest, n: nat) {
    Mismatched(w, ws, now, b, hash) && Count(now.db.runs, ws, hash) == Count(site.db.runs, ws, hash) + n
  }

  lemma OneMoreDuplicate(w: World, ws: string, site: Site, now: Site, d: Delivery, b: Bundle, hash: Digest, n: nat,
      m: nat)
    requires Duplicated(w, ws, site, now, b, hash, n) && d.bundle == b && m == n + 1
    ensures Duplicated(w, ws, site, Deliver(w, ws, now, d).0, b, hash, m)
  {
    DeliverDuplicates(w, ws, now, d, hash);
  }

  predicate AllAre(ds: seq<Delivery>, b: Bundle) {
    forall i :: 0 <= i < |ds| ==> ds[i].bundle == b
  }

  lemma AllAreBefore(ds: seq<Delivery>, b: Bundle)
    requires ds != [] && AllAre(ds, b)
    ensures AllAre(ds[..|ds| - 1], b) && ds[|ds| - 1].bundle == b
  {}

  /** Where the recomputed hash differs, every retry of a bundle whose claim is not stored adds a run. */
  lemma {:induction false} RetriesDuplicate(w: World, ws: string, site: Site, ds: seq<Delivery>, b: Bundle,
      hash: Digest)
    requires Mismatched(w, ws, site, b, hash) && AllAre(ds, b)
    ensures Duplicated(w, ws, site, DeliverAll(w, ws, site, ds), b, hash, |ds|)
    decreases |ds|
  {
    if ds != [] {
      var n := |ds| - 1;
      AllAreBefore(ds, b);
      RetriesDuplicate(w, ws, site, ds[..n], b, hash);
      OneMoreDuplicate(w, ws, site, DeliverAll(w, ws, site, ds[..n]), ds[n], b, hash, n, |ds|);
    }
  }

  /** The server's engine can replay the capture. */
  predicate ReplayExecutes(w: World, r: Request, row: Backend, retained: bool) {
    SafeIr(w.gates, ToIr(r.circuit)) ==> w.executes(Replay(w, Export(w, r, row, retained)))
  }

  /** The texts hashed for a capture and for its replay at the site do not collide. */
  ghost predicate ReplayIsDistinct(h: Hash, w: World, site: Site, r: Request, row: Backend, retained: bool) {
    SafeIr(w.gates, ToIr(r.circuit)) ==>
      var replay := Replay(w, Export(w, r, row, retained));
      NoCollision(h, RunTexts(h, InputsOf(w, r, row.identity)) +
                     RunTexts(h, InputsOf(w, replay, Resolve(w, site.backends, replay).identity)))
  }

  /** Every retry of a capture that is not restorable adds a run, on every server and under every backend row. */
  lemma {:induction false} UnrestorableDuplicates(h: Hash, w: World, ws: string, site: Site, r: Request, row: Backend,
      retained: bool,
      ds: seq<Delivery>)
    requires w.hashing == HashingOf(h) && NoDirectives(w.gates) && SafeIr(w.gates, ToIr(r.circuit))
    requires Separates(w, r, row) && !Restorable(r.circuit) && ReplayExecutes(w, r, row, retained)
    requires AllAre(ds, Export(w, r, row, retained))
    requires !HasRunHash(site.db.runs, ws, Export(w, r, row, retained).claimed)
    requires ReplayIsDistinct(h, w, site, r, row, retained)
    ensures var hash := Recomputed(w, site, Export(w, r, row, retained));
            && hash != Export(w, r, row, retained).claimed
            && Count(DeliverAll(w, ws, site, ds).db.runs, ws, hash) == Count(site.db.runs, ws, hash) + |ds|
  {
    var b := Export(w, r, row, retained);
    RecomputedIff(h, w, r, row, retained, Resolve(w, site.backends, Replay(w, b)).identity);
    PreparedIsPortable(r.circuit);
    RetriesDuplicate(w, ws, site, ds, b, Recomputed(w, site, b));
  }

  /** So does every retry of the capture that the client documents: its register c is lost on the way. */
  lemma {:induction false} DocumentedCaptureDuplicates(h: Hash, w: World, ws: string, site: Site, r: Request,
      row: Backend,
      ds: seq<Delivery>)
    requires w.hashing == HashingOf(h) && w.gates == ALLOWED_GATES && r.circuit == DOCUMENTED && Separates(w, r, row)
    requires AllAre(ds, Export(w, r, row, true))
    requires !HasRunHash(site.db.runs, ws, Export(w, r, row, true).claimed)
    requires ReplayIsDistinct(h, w, site, r, row, true) && ReplayExecutes(w, r, row, true)
    ensures SafeIr(w.gates, ToIr(r.circuit))
    ensures var hash := Recomputed(w, site, Export(w, r, row, true));
            Count(DeliverAll(w, ws, site, ds).db.runs, ws, hash) == Count(site.db.runs, ws, hash) + |ds|
  {
    DocumentedCapture();
    AllowedHasNoDirectives();
    BellPairIsSafe();
    UnrestorableDuplicates(h, w, ws, site, r, row, true, ds);
  }

  lemma BellPairIsSafe()
    ensures SafeIr(ALLOWED_GATES, ToIr(DOCUMENTED))
  {
    BellPairMeasures({0, 1}, [Register("c", [0, 1])]);
    BellGatesAreAllowed();
    var gates := [Gate("h", [0], []), Gate("cx", [0, 1], [])];
    assert SafeIrGate(ALLOWED_GATES, gates[0], 2) && SafeIrGate(ALLOWED_GATES, gates[1], 2);
  }

  lemma BellGatesAreAllowed()
    ensures "h" in ALLOWED_GATES && ALLOWED_GATES["h"] == Arity(0, 1)
    ensures "cx" in ALLOWED_GATES && ALLOWED_GATES["cx"] == Arity(0, 2)
  {}

  /** A second delivery is harmless exactly when the bundle is refused or the recomputed hash is the claimed one. */
  lemma RetryHarmlessIff(w: World, ws: string, site: Site, d: Delivery, again: Delivery)
    requires !HasRunHash(site.db.runs, ws, d.bundle.claimed) && again.bundle == d.bundle
    ensures var once := Deliver(w, ws, site, d).0;
            Deliver(w, ws, once, again).0.db.runs == once.db.runs <==>
            (Accepts(w, d.bundle) ==> Recomputed(w, site, d.bundle) == d.bundle.claimed)
  {
    if Accepts(w, d.bundle) {
      var once := Deliver(w, ws, site, d).0;
      DeliverCounts(w, ws, site, d, d.bundle.claimed);
      CountedIffStored(site.db.runs, ws, d.bundle.claimed);
      CountedIffStored(once.db.runs, ws, d.bundle.claimed);
      if !HasRunHash(once.db.runs, ws, d.bundle.claimed) {
        assert |Deliver(w, ws, once, again).0.db.runs| == |once.db.runs| + 1;
      }
    }
  }

  // --- whole pushes ----------------------------------------------------------------------------------------

  /** What a push delivers: the requests that reach the server's code. */
  function Arrivals(w: World, ws: string, site: Site, local: map<string, Bundle>, runIds: seq<string>,
      c: Conditions): seq<Delivery>
    decreases |runIds|
  {
    if runIds == [] then []
    else
      var n := |runIds| - 1;
      var earlier := Arrivals(w, ws, site, local, runIds[..n], c);
      if Session(w, ws, site, local, runIds[..n], c).1.aborted || runIds[n] !in local then earlier
      else if c.fate(n).RequestLost? || c.fate(n).Refused? then earlier
      else earlier + [DeliveryOf(local, runIds[n], c, n)]
  }

  lemma SendDelivers(w: World, ws: string, site: Site, d: Delivery, fate: Fate)
    ensures Send(w, ws, site, d, fate).0 ==
            if fate.RequestLost? || fate.Refused? then site else Deliver(w, ws, site, d).0
  {}

  lemma {:induction false} DeliverAllSnoc(w: World, ws: string, site: Site, ds: seq<Delivery>, d: Delivery)
    ensures DeliverAll(w, ws, site, ds + [d]) == Deliver(w, ws, DeliverAll(w, ws, site, ds), d).0
  {
    assert (ds + [d])[..|ds|] == ds;
  }

  lemma {:induction false} SessionDelivers(
      w: World, ws: string, site: Site, local: map<string, Bundle>, runIds: seq<string>, c: Conditions)
    ensures Session(w, ws, site, local, runIds, c).0 == DeliverAll(w, ws, site, Arrivals(w, ws, site, local, runIds, c))
    ensures AllFrom(Arrivals(w, ws, site, local, runIds, c), local.Values)
    decreases |runIds|
  {
    if runIds != [] {
      var n := |runIds| - 1;
      SessionDelivers(w, ws, site, local, runIds[..n], c);
      if runIds[n] in local {
        var d := DeliveryOf(local, runIds[n], c, n);
        var (before, report) := Session(w, ws, site, local, runIds[..n], c);
        SendDelivers(w, ws, before, d, c.fate(n));
        DeliverAllSnoc(w, ws, site, Arrivals(w, ws, site, local, runIds[..n], c), d);
      }
    }
  }

  /** One push attempt: which runs, over which network. */
  datatype Attempt = Attempt(runIds: seq<string>, conditions: Conditions)

  function Attempts(w: World, ws: string, site: Site, local: map<string, Bundle>, attempts: seq<Attempt>): Site
    decreases |attempts|
  {
    if attempts == [] then site
    else
      var last := attempts[|attempts| - 1];
      Session(w, ws, Attempts(w, ws, site, local, attempts[..|attempts| - 1]), local, last.runIds, last.conditions).0
  }

  /** Whatever pushes were tried, lost, cut short and repeated: no local run is on the server twice. */
  lemma {:induction false} PushedAtMostOnce(
      w: World, ws: string, site: Site, local: map<string, Bundle>, attempts: seq<Attempt>, hash: string)
    requires Settled(w, site.backends, local.Values) && Count(site.db.runs, ws, hash) <= 1
    ensures Settled(w, Attempts(w, ws, site, local, attempts).backends, local.Values)
    ensures Count(site.db.runs, ws, hash) <= Count(Attempts(w, ws, site, local, attempts).db.runs, ws, hash) <= 1
    decreases |attempts|
  {
    if attempts != [] {
      var n := |attempts| - 1;
      PushedAtMostOnce(w, ws, site, local, attempts[..n], hash);
      var before := Attempts(w, ws, site, local, attempts[..n]);
      var c := attempts[n].conditions;
      SessionDelivers(w, ws, before, local, attempts[n].runIds, c);
      ExactlyOnce(w, ws, before, Arrivals(w, ws, before, local, attempts[n].runIds, c), local.Values, hash);
    }
  }

  lemma {:induction false} LastArrives(
      w: World, ws: string, site: Site, local: map<string, Bundle>, runIds: seq<string>, c: Conditions, n: nat)
    requires |runIds| == n + 1
    requires var report := Session(w, ws, site, local, runIds, c).1; !report.aborted && report.failed == []
    ensures var report := Session(w, ws, site, local, runIds[..n], c).1; !report.aborted && report.failed == []
    ensures Arrivals(w, ws, site, local, runIds, c) == Arrivals(w, ws, site, local, runIds[..n], c) +
            if runIds[n] in local then [DeliveryOf(local, runIds[n], c, n)] else []
  {}

  /** An unfinished push says so: without an abort or a failure every run it was given has arrived. */
  lemma {:induction false} ArrivedUnlessReported(
      w: World, ws: string, site: Site, local: map<string, Bundle>, runIds: seq<string>, c: Conditions, i: nat)
    requires i < |runIds| && runIds[i] in local
    requires var report := Session(w, ws, site, local, runIds, c).1; !report.aborted && report.failed == []
    ensures Claims(Arrivals(w, ws, site, local, runIds, c), local[runIds[i]].claimed)
    decreases |runIds|
  {
    var n := |runIds| - 1;
    var earlier, all := Arrivals(w, ws, site, local, runIds[..n], c), Arrivals(w, ws, site, local, runIds, c);
    LastArrives(w, ws, site, local, runIds, c, n);
    if i < n {
      ArrivedUnlessReported(w, ws, site, local, runIds[..n], c, i);
      var j :| 0 <= j < |earlier| && earlier[j].bundle.claimed == local[runIds[i]].claimed;
      assert all[j] == earlier[j];
    } else {
      assert all[|earlier|].bundle.claimed == local[runIds[i]].claimed;
    }
  }

  /** After a push that reports neither an abort nor a failure, every run it was given is on the server exactly once. */
  lemma {:induction false} CompletePush(w: World, ws: string, site: Site, local: map<string, Bundle>,
      runIds: seq<string>, c: Conditions, i: nat)
    requires Settled(w, site.backends, local.Values) && i < |runIds| && runIds[i] in local
    requires Count(site.db.runs, ws, local[runIds[i]].claimed) <= 1
    requires var report := Session(w, ws, site, local, runIds, c).1; !report.aborted && report.failed == []
    ensures Count(Session(w, ws, site, local, runIds, c).0.db.runs, ws, local[runIds[i]].claimed) == 1
  {
    SessionDelivers(w, ws, site, local, runIds, c);
    ArrivedUnlessReported(w, ws, site, local, runIds, c, i);
    ExactlyOnce(w, ws, site, Arrivals(w, ws, site, local, runIds, c), local.Values, local[runIds[i]].claimed);
  }

  /** Over a network that loses and refuses nothing, a push of bundles the server accepts reports neither. */
  lemma {:induction false} ReliablePushCompletes(
      w: World, ws: string, site: Site, local: map<string, Bundle>, runIds: seq<string>, c: Conditions)
    requires forall b :: b in local.Values ==> Accepts(w, b)
    requires forall i :: 0 <= i < |runIds| ==> c.fate(i) == Delivered
    ensures var report := Session(w, ws, site, local, runIds, c).1; !report.aborted && report.failed == []
    decreases |runIds|
  {
    if runIds != [] {
      var n := |runIds| - 1;
      ReliablePushCompletes(w, ws, site, local, runIds[..n], c);
      if runIds[n] in local {
        assert local[runIds[n]] in local.Values;
        assert c.fate(n) == Delivered;
      }
    }
  }
}
