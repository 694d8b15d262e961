/** Who owns an evidence row, and whose evaluations rewrite it: evidence is keyed without its workspace. */
module EvidenceOwners {
  import opened Collecting
  import opened Compliance
  import opened Predicates
  import opened Reconciliation
  import opened Record
  import opened Wrappers

  // --- what an evaluation writes -------------------------------------------------------------------

  function WritesOf(iso: IsoReader, data: Data, ws: Row, fw: string, controls: seq<Control>): seq<Write> {
    EvaluateControls(iso, data, ws, fw, controls).writes
  }

  predicate All(good: Write -> bool, writes: seq<Write>) {
    forall i :: 0 <= i < |writes| ==> good(writes[i])
  }

  /** Whatever rule collects a record the workspace can read, the write is good. */
  ghost predicate CollectsOnly(good: Write -> bool, data: Data, ws: Row) {
    forall control, rule: Rule, i {:trigger CandidateWrite(data, ws, control, rule, i)} ::
      Candidates(data, ws, rule.source).Some? && 0 <= i < |Candidates(data, ws, rule.source).value| ==>
        good(CandidateWrite(data, ws, control, rule, i))
  }

  function CandidateWrite(data: Data, ws: Row, control: Control, rule: Rule, i: nat): Write
    requires Candidates(data, ws, rule.source).Some? && i < |Candidates(data, ws, rule.source).value|
  {
    WriteFor(ws, control, rule, Candidates(data, ws, rule.source).value[i])
  }

  lemma {:induction false} ScanWrites(good: Write -> bool, iso: IsoReader, ws: Row, control: Control, rule: Rule,
      cs: seq<Candidate>)
    requires forall i :: 0 <= i < |cs| ==> good(WriteFor(ws, control, rule, cs[i]))
    ensures All(good, ScanAll(iso, ws, control, rule, cs).writes)
    decreases |cs|
  {
    if cs != [] {
      ScanWrites(good, iso, ws, control, rule, cs[..|cs| - 1]);
    }
  }

  lemma {:induction false} RulesWrite(good: Write -> bool, iso: IsoReader, data: Data, ws: Row, control: Control,
      rules: seq<Rule>)
    requires CollectsOnly(good, data, ws)
    ensures All(good, ScanRules(iso, data, ws, control, rules).writes)
    decreases |rules|
  {
    if rules != [] {
      var rule := rules[|rules| - 1];
      RulesWrite(good, iso, data, ws, control, rules[..|rules| - 1]);
      if Candidates(data, ws, rule.source).Some? {
        var cs := Candidates(data, ws, rule.source).value;
        forall i | 0 <= i < |cs|
          ensures good(WriteFor(ws, control, rule, cs[i]))
        {
          assert good(CandidateWrite(data, ws, control, rule, i));
        }
        ScanWrites(good, iso, ws, control, rule, cs);
      }
    }
  }

  lemma {:induction false} EvaluationWrites(good: Write -> bool, iso: IsoReader, data: Data, ws: Row, fw: string,
      controls: seq<Control>)
    requires CollectsOnly(good, data, ws)
    ensures All(good, WritesOf(iso, data, ws, fw, controls))
    decreases |controls|
  {
    if controls != [] {
      var c := controls[|controls| - 1];
      EvaluationWrites(good, iso, data, ws, fw, controls[..|controls| - 1]);
      RulesWrite(good, iso, data, ws, c, c.rules);
    }
  }

  // --- the owner of a row ----------------------------------------------------------------------------

  lemma {:induction false} FirstWriterOwns(evidence: map<EvidenceKey, Evidence>, writes: seq<Write>, ws: string,
      key: EvidenceKey)
    requires forall i :: 0 <= i < |writes| ==> writes[i].row.workspace == ws
    ensures key in UpsertAll(evidence, writes) <==> key in evidence || IsWritten(writes, key)
    ensures key in UpsertAll(evidence, writes) ==>
              UpsertAll(evidence, writes)[key].workspace == if key in evidence then evidence[key].workspace else ws
    decreases |writes|
  {
    if writes != [] {
      var n := |writes| - 1;
      FirstWriterOwns(evidence, writes[..n], ws, key);
      assert forall i :: 0 <= i < n ==> writes[..n][i] == writes[i];
      if IsWritten(writes, key) && writes[n].key != key {
        var i :| 0 <= i < |writes| && writes[i].key == key;
        assert writes[..n][i].key == key;
      }
    }
  }

  lemma WrittenForWorkspace(iso: IsoReader, data: Data, ws: Row, fw: string, controls: seq<Control>)
    ensures var writes := WritesOf(iso, data, ws, fw, controls);
            forall i :: 0 <= i < |writes| ==> writes[i].row.workspace == ws.id
  {
    var good := (w: Write) => w.row.workspace == ws.id;
    EvaluationWrites(good, iso, data, ws, fw, controls);
    var writes := WritesOf(iso, data, ws, fw, controls);
    forall i | 0 <= i < |writes|
      ensures writes[i].row.workspace == ws.id
    {
      assert good(writes[i]);
    }
  }

  /** A written row belongs to the evaluating workspace exactly when its key was free, or already its own. */
  lemma OwnerIff(iso: IsoReader, data: Data, s: State, ws: Row, fw: string, controls: seq<Control>, key: EvidenceKey)
    requires IsWritten(WritesOf(iso, data, ws, fw, controls), key)
    ensures var after := EvaluateFramework(iso, data, s, ws, fw, controls).evidence;
            key in after && (after[key].workspace == ws.id <==>
              key !in s.evidence || s.evidence[key].workspace == ws.id)
  {
    WrittenForWorkspace(iso, data, ws, fw, controls);
    FirstWriterOwns(s.evidence, WritesOf(iso, data, ws, fw, controls), ws.id, key);
  }

  /**
   A row collected before keeps its owner, and it changes exactly when the last write under its key brings another
   hash or value, whoever the owner is.
   */
  lemma RowChangesIff(iso: IsoReader, data: Data, s: State, ws: Row, fw: string, controls: seq<Control>,
      key: EvidenceKey)
    requires key in s.evidence
    ensures var after := EvaluateFramework(iso, data, s, ws, fw, controls).evidence;
            var writes := WritesOf(iso, data, ws, fw, controls);
            && key in after && after[key].workspace == s.evidence[key].workspace
            && (after[key] != s.evidence[key] <==>
                exists i :: 0 <= i < |writes| && LastWrite(writes, i) && writes[i].key == key &&
                  !Latest(s.evidence, writes[i]))
  {
    var writes := WritesOf(iso, data, ws, fw, controls);
    UpsertAllElsewhere(s.evidence, writes, key);
    LastWritesHold(s.evidence, writes);
    if i :| 0 <= i < |writes| && writes[i].key == key {
      var j := LastWriteOf(writes, i);
      assert Latest(UpsertAll(s.evidence, writes), writes[j]);
      assert forall k :: 0 <= k < |writes| && LastWrite(writes, k) && writes[k].key == key ==> k == j;
    }
  }

  /** So another workspace's row keeps its owner, and takes the hash and value of the last write of this one. */
  lemma EvidenceKeepsFirstOwner(iso: IsoReader, data: Data, s: State, ws: Row, fw: string, controls: seq<Control>,
      i: nat)
    requires var writes := WritesOf(iso, data, ws, fw, controls);
             i < |writes| && writes[i].key in s.evidence && LastWrite(writes, i)
    ensures var w := WritesOf(iso, data, ws, fw, controls)[i];
            var after := EvaluateFramework(iso, data, s, ws, fw, controls).evidence;
            Latest(after, w) && after[w.key].workspace == s.evidence[w.key].workspace
  {
    var writes := WritesOf(iso, data, ws, fw, controls);
    UpsertAllElsewhere(s.evidence, writes, writes[i].key);
    LastWritesHold(s.evidence, writes);
  }

  /** The workspace a record belongs to; circuits and calibrations are shared and belong to none. */
  type Owners = string -> Option<string>

  predicate SharedSource(source: string) {
    source == "circuit" || source == "calibration"
  }

  /** The records a workspace's rules read are its own, except for the shared ones. */
  ghost predicate ReadsItsOwn(owners: Owners, data: Data, ws: Row) {
    forall source, i :: Candidates(data, ws, source).Some? && 0 <= i < |Candidates(data, ws, source).value| ==>
      owners(Candidates(data, ws, source).value[i].target.id) == if SharedSource(source) then None else Some(ws.id)
  }

  lemma WritesItsOwn(owners: Owners, iso: IsoReader, data: Data, ws: Row, fw: string, controls: seq<Control>, i: nat)
    requires ReadsItsOwn(owners, data, ws) && i < |WritesOf(iso, data, ws, fw, controls)|
    ensures var w := WritesOf(iso, data, ws, fw, controls)[i];
            owners(w.key.ref) == None || owners(w.key.ref) == Some(ws.id)
  {
    var good := (w: Write) => owners(w.key.ref) == None || owners(w.key.ref) == Some(ws.id);
    EvaluationWrites(good, iso, data, ws, fw, controls);
    assert good(WritesOf(iso, data, ws, fw, controls)[i]);
  }

  // --- over all runs -----------------------------------------------------------------------------------

  /** Evidence about a workspace's own records is that workspace's. */
  ghost predicate OwnersHold(owners: Owners, evidence: map<EvidenceKey, Evidence>) {
    forall key :: key in evidence && owners(key.ref).Some? ==> owners(key.ref) == Some(evidence[key].workspace)
  }

  lemma EvaluationKeepsOwners(owners: Owners, iso: IsoReader, data: Data, s: State, ws: Row, fw: string,
      controls: seq<Control>)
    requires OwnersHold(owners, s.evidence) && ReadsItsOwn(owners, data, ws)
    ensures OwnersHold(owners, EvaluateFramework(iso, data, s, ws, fw, controls).evidence)
  {
    var writes := WritesOf(iso, data, ws, fw, controls);
    var after := UpsertAll(s.evidence, writes);
    WrittenForWorkspace(iso, data, ws, fw, controls);
    forall key | key in after && owners(key.ref).Some?
      ensures owners(key.ref) == Some(after[key].workspace)
    {
      FirstWriterOwns(s.evidence, writes, ws.id, key);
      if key !in s.evidence {
        var i :| 0 <= i < |writes| && writes[i].key == key;
        WritesItsOwn(owners, iso, data, ws, fw, controls, i);
      }
    }
  }

  lemma {:induction false} EnabledKeepsOwners(owners: Owners, iso: IsoReader, data: Data, s: State, ws: Row,
      frameworks: seq<Enabled>)
    requires OwnersHold(owners, s.evidence) && ReadsItsOwn(owners, data, ws)
    ensures OwnersHold(owners, EvaluateEnabled(iso, data, s, ws, frameworks).0.evidence)
    decreases |frameworks|
  {
    if frameworks != [] {
      var n := |frameworks| - 1;
      EnabledKeepsOwners(owners, iso, data, s, ws, frameworks[..n]);
      var before := EvaluateEnabled(iso, data, s, ws, frameworks[..n]).0;
      EvaluationKeepsOwners(owners, iso, data, before, ws, frameworks[n].fw, frameworks[n].controls);
    }
  }

  lemma {:induction false} OwnersHoldAlways(owners: Owners, iso: IsoReader, rs: seq<Request>)
    requires forall i :: 0 <= i < |rs| ==> ReadsItsOwn(owners, rs[i].data, rs[i].ws)
    ensures OwnersHold(owners, Serve(iso, START, rs).evidence)
    decreases |rs|
  {
    if rs != [] {
      var r := rs[|rs| - 1];
      OwnersHoldAlways(owners, iso, rs[..|rs| - 1]);
      EnabledKeepsOwners(owners, iso, r.data, Serve(iso, START, rs[..|rs| - 1]), r.ws, r.frameworks);
    }
  }

  /** The evaluation writes under a key whose row another workspace owns. */
  predicate Rewrites(evidence: map<EvidenceKey, Evidence>, ws: string, writes: seq<Write>, key: EvidenceKey) {
    key in evidence && evidence[key].workspace != ws && IsWritten(writes, key)
  }

  /**
   In every reachable state an evaluation rewrites rows of other workspaces only where they are about a shared
   circuit or calibration: evidence about runs, results, cards, reproductions and workspaces is never touched.
   */
  lemma {:induction false} OnlySharedRewritten(owners: Owners, iso: IsoReader, rs: seq<Request>, data: Data, ws: Row,
      fw: string, controls: seq<Control>, key: EvidenceKey)
    requires forall i :: 0 <= i < |rs| ==> ReadsItsOwn(owners, rs[i].data, rs[i].ws)
    requires ReadsItsOwn(owners, data, ws)
    ensures var s := Serve(iso, START, rs);
            Rewrites(s.evidence, ws.id, WritesOf(iso, data, ws, fw, controls), key) ==> owners(key.ref) == None
  {
    var s, writes := Serve(iso, START, rs), WritesOf(iso, data, ws, fw, controls);
    OwnersHoldAlways(owners, iso, rs);
    if Rewrites(s.evidence, ws.id, writes, key) {
      var i :| 0 <= i < |writes| && writes[i].key == key;
      WritesItsOwn(owners, iso, data, ws, fw, controls, i);
    }
  }

  /** Both workspaces collect the same shared record under the same rule. */
  ghost predicate CollectBoth(owners: Owners, first: seq<Write>, second: seq<Write>) {
    exists key: EvidenceKey :: owners(key.ref) == None && IsWritten(first, key) && IsWritten(second, key)
  }

  lemma RewritesIffWritten(owners: Owners, iso: IsoReader, data: Data, a: Row, b: Row, fw: string,
      controls: seq<Control>)
    requires a.id != b.id && ReadsItsOwn(owners, data, a) && ReadsItsOwn(owners, data, b)
    ensures var s := EvaluateFramework(iso, data, START, a, fw, controls);
            (exists key :: Rewrites(s.evidence, b.id, WritesOf(iso, data, b, fw, controls), key)) <==>
            CollectBoth(owners, WritesOf(iso, data, a, fw, controls), WritesOf(iso, data, b, fw, controls))
  {
    var first, second := WritesOf(iso, data, a, fw, controls), WritesOf(iso, data, b, fw, controls);
    var s := EvaluateFramework(iso, data, START, a, fw, controls);
    WrittenForWorkspace(iso, data, a, fw, controls);
    if key :| Rewrites(s.evidence, b.id, second, key) {
      FirstWriterOwns(START.evidence, first, a.id, key);
      var i :| 0 <= i < |first| && first[i].key == key;
      var j :| 0 <= j < |second| && second[j].key == key;
      WritesItsOwn(owners, iso, data, a, fw, controls, i);
      WritesItsOwn(owners, iso, data, b, fw, controls, j);
    }
    if CollectBoth(owners, first, second) {
      var key: EvidenceKey :| owners(key.ref) == None && IsWritten(first, key) && IsWritten(second, key);
      FirstWriterOwns(START.evidence, first, a.id, key);
      assert Rewrites(s.evidence, b.id, second, key);
    }
  }

  /** A rule passes on one shared record in the runs of both workspaces. */
  ghost predicate ShareCollected(owners: Owners, iso: IsoReader, data: Data, a: Row, b: Row, controls: seq<Control>) {
    exists key: EvidenceKey :: owners(key.ref) == None && Collects(iso, data, a, controls, key) &&
      Collects(iso, data, b, controls, key)
  }

  /**
   Of two workspaces, the second rewrites evidence of the first exactly when a rule passes on one circuit or
   calibration that both have runs of, before anything raises for either.
   */
  lemma RewritesIff(owners: Owners, iso: IsoReader, data: Data, a: Row, b: Row, fw: string, controls: seq<Control>)
    requires a.id != b.id && ReadsItsOwn(owners, data, a) && ReadsItsOwn(owners, data, b)
    ensures var s := EvaluateFramework(iso, data, START, a, fw, controls);
            (exists key :: Rewrites(s.evidence, b.id, WritesOf(iso, data, b, fw, controls), key)) <==>
            ShareCollected(owners, iso, data, a, b, controls)
  {
    RewritesIffWritten(owners, iso, data, a, b, fw, controls);
    forall key: EvidenceKey
      ensures IsWritten(WritesOf(iso, data, a, fw, controls), key) <==> Collects(iso, data, a, controls, key)
      ensures IsWritten(WritesOf(iso, data, b, fw, controls), key) <==> Collects(iso, data, b, controls, key)
    {
      WrittenIff(iso, data, a, fw, controls, key);
      WrittenIff(iso, data, b, fw, controls, key);
    }
  }

  // --- two workspaces that share a circuit -----------------------------------------------------------------

  const CIRCUIT := Row("c", VRow([Attr("content_sha256", VStr("h"))]))
  const RULE := Rule("r", "circuit", Always, None, 1, Some(Collect("project", [["run", "project"]])))
  const CONTROL := Control("k", "k", [RULE])

  function RunIn(ws: string, project: string): RunRow {
    RunRow(Row("run-" + ws, VRow([Attr("project", VStr(project))])), ws, Some(CIRCUIT), None, [])
  }

  const RECORD := Data([RunIn("a", "alpha"), RunIn("b", "beta")], [], [])
  const KEY := EvidenceKey("k", "c", "r")

  lemma {:induction false} OneRun(ws: string, project: string)
    requires (ws == "a" && project == "alpha") || (ws == "b" && project == "beta")
    ensures RunsOf(RECORD.runs, ws) == [RunIn(ws, project)]
  {
    var runs := RECORD.runs;
    assert "a"[0] != "b"[0];
    assert runs[..1] == [RunIn("a", "alpha")] && runs[..1][..0] == [];
    assert RunsOf(runs[..1], ws) == if ws == "a" then [RunIn("a", "alpha")] else [];
  }

  lemma {:induction false} ProjectOf(project: string, m: ObjMap)
    requires "run" in m && m["run"] == VRow([Attr("project", VStr(project))]) && project != ""
    ensures Alternation(m, [["run", "project"]]) == VStr(project)
  {
    var path: Path := ["run", "project"];
    assert path[1..] == ["project"] && path[1..][1..] == [];
    assert Walk(m["run"], path[1..]) == Walk(Get(m["run"], "project"), path[1..][1..]);
    assert Resolve(m, path) == VStr(project);
  }

  function CollectedFor(ws: string, project: string): Write {
    Write(KEY, Evidence(ws, "circuit", VStr("h"), Collected("project", VStr(project))))
  }

  function CircuitCandidate(project: string): Candidate {
    Candidate(map["circuit" := CIRCUIT.attrs, "run" := VRow([Attr("project", VStr(project))]),
      "target" := CIRCUIT.attrs], CIRCUIT)
  }

  lemma CircuitCandidates(ws: Row, project: string)
    requires (ws.id == "a" && project == "alpha") || (ws.id == "b" && project == "beta")
    ensures Candidates(RECORD, ws, "circuit") == Some([CircuitCandidate(project)])
  {
    OneRun(ws.id, project);
    var run := RunIn(ws.id, project);
    assert "run"[0] == 'r' && "circuit"[0] == 'c' && "target"[0] == 't' && "workspace"[0] == 'w';
    assert [run][..0] == [] && SharedCandidates([], "circuit") == [] && !SeenTarget([], CIRCUIT.id);
    assert SharedCandidates([run], "circuit") == [CircuitCandidate(project)];
  }

  lemma CircuitWritten(iso: IsoReader, ws: Row, project: string)
    requires Candidates(RECORD, ws, "circuit") == Some([CircuitCandidate(project)]) && project != ""
    ensures ScanRule(iso, RECORD, ws, CONTROL, RULE) == Scan(1, [], [CollectedFor(ws.id, project)], false)
  {
    var c := CircuitCandidate(project);
    assert "run"[0] != "target"[0];
    ProjectOf(project, c.m);
    assert [c][..0] == [] && ScanAll(iso, ws, CONTROL, RULE, []) == Scan(0, [], [], false);
    assert WriteFor(ws, CONTROL, RULE, c) == CollectedFor(ws.id, project);
  }

  /** Each workspace collects the circuit, with the project of its own run. */
  lemma CircuitCollected(iso: IsoReader, ws: Row, project: string)
    requires (ws.id == "a" && project == "alpha") || (ws.id == "b" && project == "beta")
    ensures WritesOf(iso, RECORD, ws, "f", [CONTROL]) == [CollectedFor(ws.id, project)]
  {
    CircuitCandidates(ws, project);
    CircuitWritten(iso, ws, project);
    assert CONTROL.rules[..0] == [] && ScanRules(iso, RECORD, ws, CONTROL, []) == ControlScan([], [], false);
    assert [CONTROL][..0] == [];
    assert EvaluateControls(iso, RECORD, ws, "f", []) == Evaluation([], [], map[], true, 0, false);
  }

  /** After both are evaluated, the only row is the first one's, and holds what the second one's run says. */
  lemma SharedCircuitRewritten(iso: IsoReader, a: Row, b: Row)
    requires a.id == "a" && b.id == "b"
    ensures var first := EvaluateFramework(iso, RECORD, START, a, "f", [CONTROL]);
            var second := EvaluateFramework(iso, RECORD, first, b, "f", [CONTROL]);
            && first.evidence == map[KEY := CollectedFor("a", "alpha").row]
            && second.evidence == map[KEY := CollectedFor("a", "beta").row]
  {
    CircuitCollected(iso, a, "alpha");
    CircuitCollected(iso, b, "beta");
    OneUpsert(map[], CollectedFor("a", "alpha"));
    OneUpsert(map[KEY := CollectedFor("a", "alpha").row], CollectedFor("b", "beta"));
    OnlyRowUpserted(CollectedFor("a", "alpha").row, CollectedFor("b", "beta"));
  }

  lemma OnlyRowUpserted(row: Evidence, w: Write)
    ensures Upsert(map[w.key := row], w) == map[w.key := row.(contentHash := w.row.contentHash, value := w.row.value)]
  {}

  lemma {:induction false} OneUpsert(evidence: map<EvidenceKey, Evidence>, w: Write)
    ensures UpsertAll(evidence, [w]) == Upsert(evidence, w)
  {
    assert [w][..0] == [];
  }
}
