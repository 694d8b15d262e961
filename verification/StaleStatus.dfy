/** A run of the worker that ends with a passing status beside an open gap alert. */
module StaleStatus {
  import opened Compliance
  import opened Predicates
  import opened Reconciliation
  import opened Record
  import opened Wrappers

  const MODE_AT: Path := ["workspace", "retention_mode"]
  const TTL_AT: Path := ["workspace", "retention_ttl_days"]

  /** One rule asks that raw shots are kept, the next control counts over a column that is no list. */
  const MODE_RULE := Rule("mode", "workspace", Equals(MODE_AT, VStr("raw_shots")), None, 1, None)
  const TTL_RULE := Rule("ttl", "workspace", CountWhere(TTL_AT, None, ">=", 0), None, 1, None)
  const MODE := Control("c1", "mode", [MODE_RULE])
  const TTL := Control("c2", "ttl", [TTL_RULE])
  const CONTROLS := [MODE, TTL]
  const RECORD := Data([], [], [])

  function Workspace(mode: string, ttl: Value): Row {
    Row("w", VRow([Attr("retention_mode", VStr(mode)), Attr("retention_ttl_days", ttl)]))
  }

  /** A pass of the worker over that workspace. */
  function Seen(mode: string, ttl: Value): Request {
    Request(RECORD, Workspace(mode, ttl), [Enabled("f", CONTROLS)], Kept)
  }

  lemma Columns(mode: string, ttl: Value)
    ensures var m := WorkspaceCandidate(Workspace(mode, ttl), []).m;
            Resolve(m, MODE_AT) == VStr(mode) && Resolve(m, TTL_AT) == ttl
  {
    var m := WorkspaceCandidate(Workspace(mode, ttl), []).m;
    var attrs := m["workspace"].attrs;
    var modeName, ttlName := "retention_mode", "retention_ttl_days";
    assert attrs[0].name[2] == 'p' && attrs[1].name == modeName && attrs[2].name == ttlName;
    assert modeName[2] == 't' && ttlName[2] == 't' && |modeName| != |ttlName|;
    assert Find(attrs, modeName) == Find(attrs[1..], modeName);
    assert Find(attrs, ttlName) == Find(attrs[1..], ttlName) == Find(attrs[1..][1..], ttlName);
    assert MODE_AT[1..] == [modeName] && TTL_AT[1..] == [ttlName] && MODE_AT[1..][1..] == [] && TTL_AT[1..][1..] == [];
    assert Walk(m["workspace"], MODE_AT[1..]) == Walk(Get(m["workspace"], modeName), MODE_AT[1..][1..]);
    assert Walk(m["workspace"], TTL_AT[1..]) == Walk(Get(m["workspace"], ttlName), TTL_AT[1..][1..]);
  }

  /** A control with one rule over the workspace row. */
  lemma {:induction false} OneRule(iso: IsoReader, ws: Row, c: Control)
    requires |c.rules| == 1 && c.rules[0].source == "workspace"
    ensures var s := ScanNext(Scan(0, [], [], false), iso, ws, c, c.rules[0], WorkspaceCandidate(ws, []));
            ScanRules(iso, RECORD, ws, c, c.rules) ==
            ControlScan(if s.raised then [] else [ResultOf(c.rules[0], s)], s.writes, s.raised)
  {
    var one := WorkspaceCandidate(ws, []);
    assert EventsOf([], [], ws.id) == [];
    assert Candidates(RECORD, ws, "workspace") == Some([one]);
    assert [one][..0] == [] && c.rules[..0] == [];
    assert ScanAll(iso, ws, c, c.rules[0], []) == Scan(0, [], [], false);
    assert ScanRules(iso, RECORD, ws, c, []) == ControlScan([], [], false);
  }

  lemma ModePasses(iso: IsoReader, mode: string, ttl: Value)
    ensures var s := ScanRules(iso, RECORD, Workspace(mode, ttl), MODE, MODE.rules);
            !s.raised && |s.results| == 1 && (s.results[0].passed <==> mode == "raw_shots")
  {
    Columns(mode, ttl);
    OneRule(iso, Workspace(mode, ttl), MODE);
  }

  lemma TtlRaises(iso: IsoReader, mode: string, ttl: Value)
    requires ttl == VNull || ttl == VNum(30.0)
    ensures var s := ScanRules(iso, RECORD, Workspace(mode, ttl), TTL, TTL.rules);
            (s.raised <==> ttl != VNull) && (ttl == VNull ==> |s.results| == 1 && s.results[0].passed)
  {
    Columns(mode, ttl);
    OneRule(iso, Workspace(mode, ttl), TTL);
    var m := WorkspaceCandidate(Workspace(mode, ttl), []).m;
    if ttl == VNull {
      assert Matches(TTL_RULE.pred, [], m) == Some(0);
      assert Judge(iso, TTL_RULE, m) == Some(Passes);
    } else {
      assert Judge(iso, TTL_RULE, m) == None;
    }
  }

  lemma {:induction false} TwoControls(iso: IsoReader, ws: Row)
    requires !ScanRules(iso, RECORD, ws, MODE, MODE.rules).raised
    ensures EvaluateControls(iso, RECORD, ws, "f", CONTROLS).raised <==>
            ScanRules(iso, RECORD, ws, TTL, TTL.rules).raised
    ensures Done(iso, RECORD, ws, "f", CONTROLS) >= 1
  {
    assert CONTROLS[..1] == [MODE] && [MODE][..0] == [];
    assert EvaluateControls(iso, RECORD, ws, "f", []) == Evaluation([], [], map[], true, 0, false);
    assert !EvaluateControls(iso, RECORD, ws, "f", [MODE]).raised;
    assert Done(iso, RECORD, ws, "f", [MODE]) == 1;
  }

  lemma FirstPasses(iso: IsoReader)
    ensures var s := Handle(iso, START, Seen("raw_shots", VNull));
            ("w", "f") in s.statuses && s.statuses[("w", "f")].Evaluated? && s.statuses[("w", "f")].pass
  {
    var first := Seen("raw_shots", VNull);
    ModePasses(iso, "raw_shots", VNull);
    TtlRaises(iso, "raw_shots", VNull);
    TwoControls(iso, first.ws);
    OneFramework(iso, START, first);
    AllPassIff(iso, RECORD, first.ws, "f", CONTROLS);
  }

  lemma ThenRaises(iso: IsoReader, before: State)
    requires ("w", "f") in before.statuses && before.statuses[("w", "f")].Evaluated? && before.statuses[("w", "f")].pass
    ensures var s := Handle(iso, before, Seen("distribution_only", VNum(30.0)));
            && ("w", "f") in s.statuses && s.statuses[("w", "f")].Evaluated? && s.statuses[("w", "f")].pass
            && GapOpen(s, "w", "f", MODE)
  {
    var second := Seen("distribution_only", VNum(30.0));
    ModePasses(iso, "distribution_only", VNum(30.0));
    TtlRaises(iso, "distribution_only", VNum(30.0));
    TwoControls(iso, second.ws);
    OneFramework(iso, before, second);
    assert ControlFails(iso, RECORD, second.ws, CONTROLS[0]);
    StalePass(iso, RECORD, before, second.ws, "f", CONTROLS, 0);
  }

  lemma {:induction false} ServeTwo(iso: IsoReader, s: State, first: Request, second: Request)
    ensures Serve(iso, s, [first, second]) == Handle(iso, Handle(iso, s, first), second)
  {
    assert [first, second][..1] == [first] && [first][..0] == [];
    assert Serve(iso, s, []) == s;
    assert Serve(iso, s, [first]) == Handle(iso, s, first);
  }

  /** First everything passes; then only distributions are kept, for 30 days, and the second control raises. */
  lemma PassWithOpenGap(iso: IsoReader)
    ensures var s := Serve(iso, START, [Seen("raw_shots", VNull), Seen("distribution_only", VNum(30.0))]);
            && ("w", "f") in s.statuses && s.statuses[("w", "f")].Evaluated? && s.statuses[("w", "f")].pass
            && GapOpen(s, "w", "f", MODE)
  {
    ServeTwo(iso, START, Seen("raw_shots", VNull), Seen("distribution_only", VNum(30.0)));
    FirstPasses(iso);
    ThenRaises(iso, Handle(iso, START, Seen("raw_shots", VNull)));
  }
}
