/** Pushing local runs to the server: bundles, their replay, and the client's loop over a lossy network. */
module Push {
  import opened Bridge
  import opened CanonicalJson
  import opened Digests
  import opened Ledger
  import opened Qiskit
  import opened RunIdentity
  import opened Statevector
  import opened Wrappers

  type Counts = map<string, int>

  datatype BackendKey = BackendKey(vendor: string, name: string)

  datatype Backend = Backend(kind: string, nQubits: nat, basis: Value, coupling: Value, identity: Digest)

  /** What record_run is called with. */
  datatype Request = Request(
    circuit: QCircuit,
    key: BackendKey,
    kind: string,
    basis: Value,
    coupling: Value,
    calibration: Value,
    shots: int,
    simShots: int,
    seed: int,
    seedTranspiler: int,
    level: int,
    engine: string,
    counts: Option<Counts>)

  /**
    * What client and server share: the allowed gates, the hashes of stored content, the transpiler (compile gives
    * the hash of the whole text of its output, registers included) and the simulator, both functions of their inputs;
    * executes says for which requests neither of them raises.
    */
  datatype World = World(
    gates: Gates,
    hashing: Hashing,
    circuitHash: Value -> Digest,
    calibrationHash: Value -> Digest,
    countsHash: (Counts, int) -> Digest,
    backendHash: (BackendKey, nat, Value, Value) -> Digest,
    compile: (QCircuit, Value, Value, int, int) -> Digest,
    simulate: Request -> Counts,
    executes: Request -> bool,
    schema: string)

  // --- recording -----------------------------------------------------------------------------

  function NewBackend(w: World, r: Request): Backend {
    Backend(r.kind, r.circuit.nQubits, r.basis, r.coupling,
      w.backendHash(r.key, r.circuit.nQubits, r.basis, r.coupling))
  }

  /** get_or_create_backend: the row stored first for a vendor and name stays. */
  function Resolve(w: World, backends: map<BackendKey, Backend>, r: Request): Backend {
    if r.key in backends then backends[r.key] else NewBackend(w, r)
  }

  function CountsOf(w: World, r: Request): Counts {
    if r.counts.Some? then r.counts.value else w.simulate(r)
  }

  function ParamFields(level: int, engine: string): seq<Field> {
    [Field("optimization_level", JInt(level)), Field("engine", JString(engine))]
  }

  /** The hashed inputs of a run recorded on a backend row. */
  function InputsOf(w: World, r: Request, identity: Digest): RunInputs {
    RunInputs(
      w.schema,
      w.circuitHash(IrToDict(ToIr(r.circuit))),
      Some(w.compile(Prepared(r.circuit), r.basis, r.coupling, r.level, r.seedTranspiler)),
      identity,
      w.calibrationHash(r.calibration),
      r.shots,
      Some(r.seed),
      Some(r.seedTranspiler),
      Some(ParamFields(r.level, r.engine)),
      [w.countsHash(CountsOf(w, r), r.shots)])
  }

  function RunHashOf(w: World, r: Request, identity: Digest): Digest {
    w.hashing.identify(InputsOf(w, r, identity)).runHash
  }

  // --- bundles ---------------------------------------------------------------------------------

  datatype Bundle = Bundle(
    claimed: string,
    source: Value,
    key: BackendKey,
    kind: string,
    basis: Value,
    coupling: Value,
    calibration: Value,
    counts: Option<Counts>,
    shots: Option<int>,
    resultShots: Option<int>,
    seed: Option<int>,
    seedTranspiler: Option<int>,
    level: Option<int>,
    engine: Option<string>)

  /** export_bundle, for a run recorded from r on a local backend row; counts may not have been retained. */
  function Export(w: World, r: Request, row: Backend, retained: bool): (b: Bundle)
    ensures SafeCircuit(w.gates, b.source) <==> SafeIr(w.gates, ToIr(r.circuit))
  {
    IrRoundTrip(w.gates, ToIr(r.circuit));
    Bundle(RunHashOf(w, r, row.identity), IrToDict(ToIr(r.circuit)),
           r.key, row.kind, row.basis, row.coupling, r.calibration,
           if retained then Some(CountsOf(w, r)) else None,
           Some(r.shots), Some(r.shots), Some(r.seed), Some(r.seedTranspiler), Some(r.level), Some(r.engine))
  }

  /** Python's "x or default": zero is replaced too. */
  function Or(x: Option<int>, default: int): int {
    if x.None? || x.value == 0 then default else x.value
  }

  function RealShots(b: Bundle): int {
    var shots := Or(b.shots, Or(b.resultShots, 1024));
    if shots < 1 then 1 else shots
  }

  /** The recording a bundle asks for. */
  function Replay(w: World, b: Bundle): Request
    requires SafeCircuit(w.gates, b.source)
  {
    var ir := IrOf(b.source);
    Request(Rebuilt(ir), b.key, b.kind, b.basis, b.coupling, b.calibration,
            RealShots(b), ClampShots(Number(RealShots(b))).value, Or(b.seed, 1337), Or(b.seedTranspiler, 42),
            if b.level.Some? then b.level.value else 1,
            if b.engine.Some? then b.engine.value else "pure",
            b.counts)
  }

  // --- the server ----------------------------------------------------------------------------------

  datatype Site = Site(backends: map<BackendKey, Backend>, db: Db)

  /** The ids generated for the rows of one recording. */
  datatype Ids = Ids(run: string, result: string, circuit: string, compilation: string, calibration: string)

  /** A bundle that arrives, with the ids and the time its rows would get. */
  datatype Delivery = Delivery(bundle: Bundle, ids: Ids, at: int)

  datatype Reply = Exists | Created(matched: bool) | Rejected

  function RecordingOf(w: World, ws: string, d: Delivery, r: Request, row: Backend): Recording {
    var inputs := InputsOf(w, r, row.identity);
    Recording(ws, d.ids.run, d.ids.result, d.at, inputs, inputs.resultCounts[0],
              [Stored("circuits", d.ids.circuit, inputs.circuit, inputs.circuit),
               Stored("compilations", d.ids.compilation, inputs.circuit + row.identity + inputs.compilation.value,
                 inputs.compilation.value),
               Stored("calibration_snapshots", d.ids.calibration, row.identity + inputs.calibration,
                 inputs.calibration)])
  }

  /** The bundle's circuit is safe, and executing it does not raise; any error rolls back and is answered with 422. */
  predicate Accepts(w: World, b: Bundle) {
    SafeCircuit(w.gates, b.source) && w.executes(Replay(w, b))
  }

  function Deliver(w: World, ws: string, site: Site, d: Delivery): (Site, Reply) {
    if HasRunHash(site.db.runs, ws, d.bundle.claimed) then (site, Exists)
    else if !Accepts(w, d.bundle) then (site, Rejected)
    else
      var r := Replay(w, d.bundle);
      var row := Resolve(w, site.backends, r);
      (Site(site.backends[r.key := row], Recorded(w.hashing, site.db, RecordingOf(w, ws, d, r, row))),
       Created(RunHashOf(w, r, row.identity) == d.bundle.claimed))
  }

  /** The hosted store. */
  class Hub {
    var backends: map<BackendKey, Backend>
    const ledger: Store

    constructor ()
      ensures fresh(ledger) && Contents() == Site(map[], EMPTY_DB)
    {
      backends := map[];
      ledger := new Store();
    }

    function Contents(): Site
      reads this, ledger
    {
      Site(backends, ledger.Contents())
    }

    method GetOrCreateBackend(w: World, r: Request) returns (row: Backend)
      modifies this`backends
      ensures row == Resolve(w, old(backends), r) && backends == old(backends)[r.key := row]
    {
      if r.key in backends {
        row := backends[r.key];
        assert backends[r.key := row] == backends;
      } else {
        row := NewBackend(w, r);
        backends := backends[r.key := row];
      }
    }

    method Find(ws: string, claimed: string) returns (found: bool)
      ensures found == HasRunHash(ledger.runs, ws, claimed)
    {
      for i := 0 to |ledger.runs|
        invariant forall j :: 0 <= j < i ==>
          !(ledger.runs[j].workspace == ws && ledger.runs[j].seal.Some? && ledger.runs[j].seal.value.runHash == claimed)
      {
        if ledger.runs[i].workspace == ws && ledger.runs[i].seal.Some? && ledger.runs[i].seal.value.runHash == claimed {
          return true;
        }
      }
      return false;
    }

    /** materialize_bundle */
    method Materialize(w: World, ws: string, d: Delivery) returns (reply: Reply)
      requires NoDirectives(w.gates)
      modifies this, ledger
      ensures (Contents(), reply) == Deliver(w, ws, old(Contents()), d)
    {
      var b := d.bundle;
      var found := Find(ws, b.claimed);
      if found {
        return Exists;
      }
      var safe := AssertSafeCircuit(w.gates, b.source);
      if safe.Err? {
        return Rejected;
      }
      SafeMeansSafeIr(w.gates, b.source);
      var ir := DictToIr(safe.value);
      var qc := QiskitFromIr(w.gates, ir);
      var shots := RealShots(b);
      var r := Request(qc.value, b.key, b.kind, b.basis, b.coupling, b.calibration, shots,
                       ClampShots(Number(shots)).value, Or(b.seed, 1337), Or(b.seedTranspiler, 42),
                       if b.level.Some? then b.level.value else 1,
                       if b.engine.Some? then b.engine.value else "pure", b.counts);
      assert r == Replay(w, b);
      var before := backends;
      var row := GetOrCreateBackend(w, r);
      if !w.executes(r) {
        backends := before;
        return Rejected;
      }
      ledger.Record(w.hashing, RecordingOf(w, ws, d, r, row));
      return Created(RunHashOf(w, r, row.identity) == b.claimed);
    }
  }

  // --- the client ------------------------------------------------------------------------------------

  /** What the network does with one request; Refused is an HTTP error sent instead of processing it. */
  datatype Fate = Delivered | RequestLost | ReplyLost | Garbled | Refused(status: nat)

  datatype Outcome = Pushed | Existed | Failed | Aborted

  /** Connection, authorisation and server-level failures stop a push. */
  predicate Stops(status: nat) {
    status == 401 || status == 403 || status == 404 || status >= 500
  }

  /** client.ingest: what arrives at the server, and what the client makes of the answer. */
  function Send(w: World, ws: string, site: Site, d: Delivery, fate: Fate): (Site, Outcome) {
    var (next, reply) := Deliver(w, ws, site, d);
    match fate
    case RequestLost => (site, Aborted)
    case Refused(status) => (site, if Stops(status) then Aborted else Outcome.Failed)
    case ReplyLost => (next, Aborted)
    case Garbled => (next, if reply == Rejected then Outcome.Failed else Aborted)
    case Delivered =>
      (next, match reply case Exists => Existed case Created(_) => Pushed case Rejected => Outcome.Failed)
  }

  datatype Report = Report(pushed: seq<string>, existed: seq<string>, failed: seq<string>, aborted: bool)

  /** The conditions of one push: what the network does, and ids and times at the server, by position. */
  datatype Conditions = Conditions(fate: nat -> Fate, ids: nat -> Ids, at: nat -> int)

  function Note(report: Report, runId: string, outcome: Outcome): Report {
    match outcome
    case Pushed => report.(pushed := report.pushed + [runId])
    case Existed => report.(existed := report.existed + [runId])
    case Failed => report.(failed := report.failed + [runId])
    case Aborted => report.(aborted := true)
  }

  function DeliveryOf(local: map<string, Bundle>, runId: string, c: Conditions, i: nat): Delivery
    requires runId in local
  {
    Delivery(local[runId], c.ids(i), c.at(i))
  }

  /** A push of a list of runs: the site and the report it ends with. */
  function Session(w: World, ws: string, site: Site, local: map<string, Bundle>, runIds: seq<string>,
      c: Conditions): (Site, Report)
    decreases |runIds|
  {
    if runIds == [] then (site, Report([], [], [], false))
    else
      var n := |runIds| - 1;
      var (before, report) := Session(w, ws, site, local, runIds[..n], c);
      if report.aborted || runIds[n] !in local then (before, report)
      else
        var (next, outcome) := Send(w, ws, before, DeliveryOf(local, runIds[n], c, n), c.fate(n));
        (next, Note(report, runIds[n], outcome))
  }

  lemma {:induction false} AbortedStays(
      w: World, ws: string, site: Site, local: map<string, Bundle>, runIds: seq<string>, c: Conditions, i: nat, n: nat)
    requires i <= n <= |runIds| && Session(w, ws, site, local, runIds[..i], c).1.aborted
    ensures Session(w, ws, site, local, runIds[..n], c) == Session(w, ws, site, local, runIds[..i], c)
    decreases n
  {
    if i < n {
      AbortedStays(w, ws, site, local, runIds, c, i, n - 1);
      assert runIds[..n][..n - 1] == runIds[..n - 1];
    }
  }

  method Call(w: World, ws: string, hub: Hub, d: Delivery, fate: Fate) returns (outcome: Outcome)
    requires NoDirectives(w.gates)
    modifies hub, hub.ledger
    ensures (hub.Contents(), outcome) == Send(w, ws, old(hub.Contents()), d, fate)
  {
    match fate {
      case RequestLost => outcome := Aborted;
      case Refused(status) => outcome := if Stops(status) then Aborted else Outcome.Failed;
      case ReplyLost =>
        var reply := hub.Materialize(w, ws, d);
        outcome := Aborted;
      case Garbled =>
        var reply := hub.Materialize(w, ws, d);
        outcome := if reply == Rejected then Outcome.Failed else Aborted;
      case Delivered =>
        var reply := hub.Materialize(w, ws, d);
        outcome := match reply case Exists => Existed case Created(_) => Pushed case Rejected => Outcome.Failed;
    }
  }

  /** Pusher.push over the chosen runs; a dry run sends nothing. */
  method PushRuns(w: World, ws: string, hub: Hub, local: map<string, Bundle>, pending: seq<string>, chosen: seq<string>,
                  dryRun: bool, c: Conditions)
    returns (report: Report)
    requires NoDirectives(w.gates)
    modifies hub, hub.ledger
    ensures !dryRun ==>
              (hub.Contents(), report) ==
              Session(w, ws, old(hub.Contents()), local, if chosen == [] then pending else chosen, c)
    ensures dryRun ==> hub.Contents() == old(hub.Contents()) && report.existed == report.failed == [] && !report.aborted
    ensures dryRun ==> forall runId ::
              runId in report.pushed <==> runId in (if chosen == [] then pending else chosen) && runId in local
  {
    var runIds := if chosen == [] then pending else chosen;
    ghost var site := hub.Contents();
    report := Report([], [], [], false);
    for i := 0 to |runIds|
      invariant !dryRun ==> (hub.Contents(), report) == Session(w, ws, site, local, runIds[..i], c)
      invariant !report.aborted
      invariant dryRun ==> hub.Contents() == site && report.existed == report.failed == []
      invariant dryRun ==> forall runId :: runId in report.pushed <==> runId in runIds[..i] && runId in local
    {
      assert runIds[..i + 1][..i] == runIds[..i] && runIds[..i + 1] == runIds[..i] + [runIds[i]];
      if runIds[i] in local {
        if dryRun {
          report := report.(pushed := report.pushed + [runIds[i]]);
        } else {
          var outcome := Call(w, ws, hub, DeliveryOf(local, runIds[i], c, i), c.fate(i));
          report := Note(report, runIds[i], outcome);
          if report.aborted {
            AbortedStays(w, ws, site, local, runIds, c, i + 1, |runIds|);
            assert runIds[..|runIds|] == runIds;
            return report;
          }
        }
      }
    }
    assert runIds[..|runIds|] == runIds;
  }
}
