/**
 The compliance rule engine: rules over candidate rows, evidence that is upserted, alerts that
 are opened and resolved, and the status they roll up to.
 */
module Compliance {
  import opened Wrappers
  import opened Predicates
  import opened Record

  datatype Freshness = Freshness(maxAgeHours: Option<real>, relativeTo: Path)

  datatype Collect = Collect(caption: string, field: seq<Path>)

  datatype Rule = Rule(
    id: string,
    source: string,
    pred: Predicate,
    freshness: Option<Freshness>,
    minCount: int,
    collect: Option<Collect>)

  datatype Control = Control(id: string, key: string, rules: seq<Rule>)

  /** Reads an ISO timestamp; None when it does not parse. */
  type IsoReader = string -> Option<real>

  // --- freshness -------------------------------------------------------------------------

  /** _as_aware */
  function AsInstant(iso: IsoReader, v: Value): Option<real> {
    match v
    case VStr(s) => iso(s)
    case VTime(t) => Some(t)
    case _ => None
  }

  /** _check_freshness: compares two stored instants, never the wall clock. */
  predicate Fresh(iso: IsoReader, f: Freshness, m: ObjMap) {
    if f.maxAgeHours == None || f.maxAgeHours.value == 0.0 then true
    else
      var reference := AsInstant(iso, Resolve(m, f.relativeTo));
      var bound := AsInstant(iso, Get(Lookup(m, "calibration"), "captured_at"));
      var captured := if bound.Some? then bound else reference;
      if reference == None || captured == None then true
      else reference.value - captured.value <= f.maxAgeHours.value
  }

  // --- one rule --------------------------------------------------------------------------

  /** Evidence is unique per control, source row and rule: the workspace is not part of the key. */
  datatype EvidenceKey = EvidenceKey(control: string, ref: string, rule: string)

  datatype Collected = NoValue | Collected(caption: string, value: Value)

  datatype Evidence = Evidence(workspace: string, refType: string, contentHash: Value, value: Collected)

  datatype Write = Write(key: EvidenceKey, row: Evidence)

  function RefType(source: string): string {
    if source == "calibration" then "calibration_snapshot"
    else if source == "card" then "result_card"
    else if source == "reproduction" then "reproduction_event"
    else source
  }

  function ContentHash(source: string, target: Row): Value {
    Get(target.attrs,
        if source == "run" then "run_hash"
        else if source == "card" then "card_sha256"
        else if source == "result" then "counts_sha256"
        else if source == "reproduction" then "reproduced_run_id"
        else if source == "workspace" then "chain_head"
        else "content_sha256")
  }

  function CollectValue(rule: Rule, m: ObjMap): Collected {
    if rule.collect == None then NoValue
    else Collected(rule.collect.value.caption, Alternation(m, rule.collect.value.field))
  }

  function WriteFor(ws: Row, control: Control, rule: Rule, c: Candidate): Write {
    Write(EvidenceKey(control.id, c.target.id, rule.id),
          Evidence(ws.id, RefType(rule.source), ContentHash(rule.source, c.target), CollectValue(rule, c.m)))
  }

  /** _upsert_evidence: an existing row keeps its workspace and takes the new hash and value. */
  function Upsert(evidence: map<EvidenceKey, Evidence>, w: Write): map<EvidenceKey, Evidence> {
    if w.key in evidence then
      evidence[w.key := evidence[w.key].(contentHash := w.row.contentHash, value := w.row.value)]
    else evidence[w.key := w.row]
  }

  function UpsertAll(evidence: map<EvidenceKey, Evidence>, writes: seq<Write>): map<EvidenceKey, Evidence> {
    if writes == [] then evidence
    else Upsert(UpsertAll(evidence, writes[..|writes| - 1]), writes[|writes| - 1])
  }

  /** What one pass over the candidates finds and writes, up to the row whose predicate raised, if one did. */
  datatype Scan = Scan(passing: nat, drift: seq<string>, writes: seq<Write>, raised: bool)

  /** The verdict on one candidate row. */
  datatype Outcome = Fails | Aged | Passes

  /** None when the predicate raises. */
  function Judge(iso: IsoReader, rule: Rule, m: ObjMap): Option<Outcome> {
    match Eval(rule.pred, m)
    case None => None
    case Some(holds) =>
      if !holds then Some(Fails)
      else if rule.freshness.Some? && !Fresh(iso, rule.freshness.value, m) then Some(Aged)
      else Some(Passes)
  }

  function ScanAll(iso: IsoReader, ws: Row, control: Control, rule: Rule, cs: seq<Candidate>): Scan {
    if cs == [] then Scan(0, [], [], false)
    else
      var last := |cs| - 1;
      ScanNext(ScanAll(iso, ws, control, rule, cs[..last]), iso, ws, control, rule, cs[last])
  }

  function ScanNext(s: Scan, iso: IsoReader, ws: Row, control: Control, rule: Rule, c: Candidate): Scan {
    if s.raised then s
    else
      match Judge(iso, rule, c.m)
      case None => s.(raised := true)
      case Some(Fails) => s
      case Some(Aged) => s.(drift := s.drift + [c.target.id])
      case Some(Passes) => s.(passing := s.passing + 1, writes := s.writes + [WriteFor(ws, control, rule, c)])
  }

  datatype RuleResult = RuleResult(ruleId: string, passed: bool, count: nat, drift: seq<string>)

  function ScanRule(iso: IsoReader, data: Data, ws: Row, control: Control, rule: Rule): Scan {
    match Candidates(data, ws, rule.source)
    case None => Scan(0, [], [], true)
    case Some(cs) => ScanAll(iso, ws, control, rule, cs)
  }

  function ResultOf(rule: Rule, s: Scan): RuleResult {
    RuleResult(rule.id, s.passing >= rule.minCount, s.passing, s.drift)
  }

  // --- one control -------------------------------------------------------------------------

  datatype ControlScan = ControlScan(results: seq<RuleResult>, writes: seq<Write>, raised: bool)

  function ScanRules(iso: IsoReader, data: Data, ws: Row, control: Control, rules: seq<Rule>): ControlScan {
    if rules == [] then ControlScan([], [], false)
    else
      var last := |rules| - 1;
      RulesNext(ScanRules(iso, data, ws, control, rules[..last]), iso, data, ws, control, rules[last])
  }

  function RulesNext(before: ControlScan, iso: IsoReader, data: Data, ws: Row, control: Control,
      rule: Rule): ControlScan {
    if before.raised then before
    else
      var s := ScanRule(iso, data, ws, control, rule);
      ControlScan(if s.raised then before.results else before.results + [ResultOf(rule, s)],
                  before.writes + s.writes, s.raised)
  }

  function Failing(results: seq<RuleResult>): seq<string> {
    if results == [] then []
    else
      var last := results[|results| - 1];
      Failing(results[..|results| - 1]) + (if last.passed then [] else [last.ruleId])
  }

  function Drift(results: seq<RuleResult>): seq<string> {
    if results == [] then [] else Drift(results[..|results| - 1]) + results[|results| - 1].drift
  }

  function Count(results: seq<RuleResult>): nat {
    if results == [] then 0 else Count(results[..|results| - 1]) + results[|results| - 1].count
  }

  // --- alerts --------------------------------------------------------------------------------

  datatype Kind = Gap | Aging

  datatype AlertKey = AlertKey(workspace: string, framework: string, control: string, kind: Kind)

  datatype Message = GapMessage(controlKey: string, failing: seq<string>) | DriftMessage(controlKey: string, items: nat)

  datatype Alert = Alert(key: AlertKey, message: Message, resolved: bool)

  predicate OpenAt(alerts: seq<Alert>, key: AlertKey, i: nat)
    requires i < |alerts|
  {
    alerts[i].key == key && !alerts[i].resolved
  }

  predicate IsOpen(alerts: seq<Alert>, key: AlertKey) {
    exists i :: 0 <= i < |alerts| && OpenAt(alerts, key, i)
  }

  ghost predicate AtMostOneOpen(alerts: seq<Alert>) {
    forall key, i, j :: 0 <= i < j < |alerts| ==> !(OpenAt(alerts, key, i) && OpenAt(alerts, key, j))
  }

  /** The first open alert under a key. */
  function FindOpen(alerts: seq<Alert>, key: AlertKey): (r: Option<nat>)
    ensures r.Some? ==> r.value < |alerts| && OpenAt(alerts, key, r.value)
    ensures r.Some? ==> forall i :: 0 <= i < r.value ==> !OpenAt(alerts, key, i)
    ensures r == None ==> !IsOpen(alerts, key)
    decreases |alerts|
  {
    if alerts == [] then None
    else if OpenAt(alerts, key, 0) then Some(0)
    else
      assert forall i :: 1 <= i < |alerts| ==> OpenAt(alerts, key, i) == OpenAt(alerts[1..], key, i - 1);
      match FindOpen(alerts[1..], key)
      case None => None
      case Some(i) => Some(i + 1)
  }

  /** _open_alert: refreshes the message of the open alert, or adds one. */
  function OpenAlert(alerts: seq<Alert>, key: AlertKey, message: Message): seq<Alert> {
    match FindOpen(alerts, key)
    case Some(i) => alerts[i := alerts[i].(message := message)]
    case None => alerts + [Alert(key, message, false)]
  }

  /** _resolve_alerts: resolves every open alert under the key. */
  function ResolveAlerts(alerts: seq<Alert>, key: AlertKey): (r: seq<Alert>)
    ensures |r| == |alerts|
  {
    seq(|alerts|, i requires 0 <= i < |alerts| =>
      if OpenAt(alerts, key, i) then alerts[i].(resolved := true) else alerts[i])
  }

  /** What an evaluation wants of one key: an open alert with a message, or none. */
  datatype Demand = Demand(key: AlertKey, message: Option<Message>)

  function Meet(alerts: seq<Alert>, d: Demand): seq<Alert> {
    if d.message.Some? then OpenAlert(alerts, d.key, d.message.value) else ResolveAlerts(alerts, d.key)
  }

  function MeetAll(alerts: seq<Alert>, ds: seq<Demand>): seq<Alert> {
    if ds == [] then alerts else Meet(MeetAll(alerts, ds[..|ds| - 1]), ds[|ds| - 1])
  }

  function GapDemand(ws: string, fw: string, control: Control, results: seq<RuleResult>): Demand {
    Demand(AlertKey(ws, fw, control.id, Gap),
           if Failing(results) == [] then None else Some(GapMessage(control.key, Failing(results))))
  }

  function DriftDemand(ws: string, fw: string, control: Control, results: seq<RuleResult>): Demand {
    Demand(AlertKey(ws, fw, control.id, Aging),
           if Drift(results) == [] then None else Some(DriftMessage(control.key, |Drift(results)|)))
  }

  // --- one framework ---------------------------------------------------------------------------

  datatype Detail = Detail(pass: bool, failing: seq<string>, evidence: nat)

  datatype Evaluation = Evaluation(
    writes: seq<Write>,
    demands: seq<Demand>,
    details: map<string, Detail>,
    allPass: bool,
    total: nat,
    raised: bool)

  function DetailOf(results: seq<RuleResult>): Detail {
    Detail(Failing(results) == [], Failing(results), Count(results))
  }

  /** What evaluating the controls finds, up to the control in which a rule raised; it depends on the record only. */
  function EvaluateControls(iso: IsoReader, data: Data, ws: Row, fw: string, controls: seq<Control>): Evaluation {
    if controls == [] then Evaluation([], [], map[], true, 0, false)
    else
      var c := controls[|controls| - 1];
      Extend(EvaluateControls(iso, data, ws, fw, controls[..|controls| - 1]), ws.id, fw, c,
        ScanRules(iso, data, ws, c, c.rules))
  }

  /** A rule that raises leaves the evidence it has written, and no alert of its control is touched. */
  function Extend(e: Evaluation, ws: string, fw: string, c: Control, s: ControlScan): Evaluation {
    if e.raised then e
    else if s.raised then e.(writes := e.writes + s.writes, raised := true)
    else
      Evaluation(
        e.writes + s.writes,
        e.demands + [GapDemand(ws, fw, c, s.results), DriftDemand(ws, fw, c, s.results)],
        e.details[c.key := DetailOf(s.results)],
        e.allPass && Failing(s.results) == [],
        e.total + Count(s.results),
        false)
  }

  datatype Status = Unevaluated | Evaluated(pass: bool, details: map<string, Detail>)

  datatype State = State(
    evidence: map<EvidenceKey, Evidence>,
    alerts: seq<Alert>,
    statuses: map<(string, string), Status>)

  /** enable_framework */
  function Enable(statuses: map<(string, string), Status>, key: (string, string)): map<(string, string), Status> {
    if key in statuses then statuses else statuses[key := Unevaluated]
  }

  /**
   What a session holds after evaluate_framework: when a rule raised, all that was written before, and the old
   status.
   */
  function EvaluateFramework(iso: IsoReader, data: Data, s: State, ws: Row, fw: string, controls: seq<Control>): State {
    var e, key := EvaluateControls(iso, data, ws, fw, controls), (ws.id, fw);
    State(UpsertAll(s.evidence, e.writes), MeetAll(s.alerts, e.demands),
          if e.raised then Enable(s.statuses, key) else s.statuses[key := Evaluated(e.allPass, e.details)])
  }

  /** What becomes of a session in which a rule raised: the routes roll it back, the worker commits it. */
  datatype Ending = RolledBack | Kept

  datatype Enabled = Enabled(fw: string, controls: seq<Control>)

  /** One evaluation of the frameworks enabled on a workspace, over the record it sees. */
  datatype Request = Request(data: Data, ws: Row, frameworks: seq<Enabled>, ending: Ending)

  /** evaluate_all: one framework after another, until a rule raises. */
  function EvaluateEnabled(iso: IsoReader, data: Data, s: State, ws: Row, frameworks: seq<Enabled>): (r: (State, bool))
    decreases |frameworks|
  {
    if frameworks == [] then (s, false)
    else
      var (before, raised) := EvaluateEnabled(iso, data, s, ws, frameworks[..|frameworks| - 1]);
      var f := frameworks[|frameworks| - 1];
      if raised then (before, true)
      else (EvaluateFramework(iso, data, before, ws, f.fw, f.controls),
        EvaluateControls(iso, data, ws, f.fw, f.controls).raised)
  }

  function Handle(iso: IsoReader, s: State, r: Request): State {
    var (after, raised) := EvaluateEnabled(iso, r.data, s, r.ws, r.frameworks);
    if raised && r.ending == RolledBack then s else after
  }

  datatype Summary = Summary(pass: bool, details: map<string, Detail>, evidence: nat)

  lemma {:induction false} UpsertConcat(evidence: map<EvidenceKey, Evidence>, a: seq<Write>, b: seq<Write>)
    ensures UpsertAll(evidence, a + b) == UpsertAll(UpsertAll(evidence, a), b)
    decreases |b|
  {
    if b == [] {
      assert a + b == a;
    } else {
      assert (a + b)[..|a + b| - 1] == a + b[..|b| - 1];
      UpsertConcat(evidence, a, b[..|b| - 1]);
    }
  }

  lemma {:induction false} ScanSnoc(iso: IsoReader, ws: Row, control: Control, rule: Rule, cs: seq<Candidate>, i: nat)
    requires i < |cs|
    ensures ScanAll(iso, ws, control, rule, cs[..i + 1]) ==
            ScanNext(ScanAll(iso, ws, control, rule, cs[..i]), iso, ws, control, rule, cs[i])
  {
    assert cs[..i + 1][..i] == cs[..i];
  }

  /** Once a row has raised, the rows behind it are not looked at. */
  lemma {:induction false} ScanEnds(iso: IsoReader, ws: Row, control: Control, rule: Rule, cs: seq<Candidate>, i: nat)
    requires i <= |cs| && ScanAll(iso, ws, control, rule, cs[..i]).raised
    ensures ScanAll(iso, ws, control, rule, cs) == ScanAll(iso, ws, control, rule, cs[..i])
    decreases |cs| - i
  {
    if i < |cs| {
      ScanSnoc(iso, ws, control, rule, cs, i);
      ScanEnds(iso, ws, control, rule, cs, i + 1);
    } else {
      assert cs[..i] == cs;
    }
  }

  lemma {:induction false} RulesSnoc(iso: IsoReader, data: Data, ws: Row, control: Control, rules: seq<Rule>, i: nat)
    requires i < |rules|
    ensures ScanRules(iso, data, ws, control, rules[..i + 1]) ==
            RulesNext(ScanRules(iso, data, ws, control, rules[..i]), iso, data, ws, control, rules[i])
  {
    assert rules[..i + 1][..i] == rules[..i];
  }

  lemma {:induction false} RulesEnd(iso: IsoReader, data: Data, ws: Row, control: Control, rules: seq<Rule>, i: nat)
    requires i <= |rules| && ScanRules(iso, data, ws, control, rules[..i]).raised
    ensures ScanRules(iso, data, ws, control, rules) == ScanRules(iso, data, ws, control, rules[..i])
    decreases |rules| - i
  {
    if i < |rules| {
      RulesSnoc(iso, data, ws, control, rules, i);
      RulesEnd(iso, data, ws, control, rules, i + 1);
    } else {
      assert rules[..i] == rules;
    }
  }

  lemma {:induction false} EvaluateSnoc(iso: IsoReader, data: Data, ws: Row, fw: string, controls: seq<Control>, i: nat)
    requires i < |controls|
    ensures EvaluateControls(iso, data, ws, fw, controls[..i + 1]) ==
            Extend(EvaluateControls(iso, data, ws, fw, controls[..i]), ws.id, fw, controls[i],
                   ScanRules(iso, data, ws, controls[i], controls[i].rules))
  {
    assert controls[..i + 1][..i] == controls[..i];
  }

  lemma {:induction false} ControlsEnd(iso: IsoReader, data: Data, ws: Row, fw: string, controls: seq<Control>, i: nat)
    requires i <= |controls| && EvaluateControls(iso, data, ws, fw, controls[..i]).raised
    ensures EvaluateControls(iso, data, ws, fw, controls) == EvaluateControls(iso, data, ws, fw, controls[..i])
    decreases |controls| - i
  {
    if i < |controls| {
      EvaluateSnoc(iso, data, ws, fw, controls, i);
      ControlsEnd(iso, data, ws, fw, controls, i + 1);
    } else {
      assert controls[..i] == controls;
    }
  }

  /** The state part-way through an evaluation: what has been found so far is written. */
  ghost predicate Reached(saved: State, e: Evaluation, now: State) {
    && now.evidence == UpsertAll(saved.evidence, e.writes)
    && now.alerts == MeetAll(saved.alerts, e.demands)
    && now.statuses == saved.statuses
  }

  /** The state around one control: its evidence is written, and its alerts are met unless a rule raised. */
  ghost predicate ControlDone(before: State, now: State, ws: string, fw: string, c: Control, s: ControlScan) {
    && now.evidence == UpsertAll(before.evidence, s.writes)
    && now.alerts == (if s.raised then before.alerts
                      else Meet(Meet(before.alerts, GapDemand(ws, fw, c, s.results)),
                        DriftDemand(ws, fw, c, s.results)))
    && now.statuses == before.statuses
  }

  lemma ReachedNext(saved: State, e: Evaluation, before: State, now: State, ws: string, fw: string, c: Control,
      s: ControlScan)
    requires !e.raised && Reached(saved, e, before) && ControlDone(before, now, ws, fw, c, s)
    ensures Reached(saved, Extend(e, ws, fw, c, s), now)
  {
    UpsertConcat(saved.evidence, e.writes, s.writes);
    if !s.raised {
      var gap, aging := GapDemand(ws, fw, c, s.results), DriftDemand(ws, fw, c, s.results);
      var ds := e.demands + [gap, aging];
      assert ds[..|ds| - 1] == e.demands + [gap];
      assert (e.demands + [gap])[..|e.demands|] == e.demands;
    }
  }

  lemma EnabledThenSet(statuses: map<(string, string), Status>, key: (string, string), status: Status)
    ensures Enable(statuses, key)[key := status] == statuses[key := status]
  {}

  /** Closing an evaluation: the status moves only when no rule raised. */
  lemma {:induction false} Closed(iso: IsoReader, data: Data, s: State, now: State, ws: Row, fw: string,
      controls: seq<Control>)
    requires Reached(s.(statuses := Enable(s.statuses, (ws.id, fw))), EvaluateControls(iso, data, ws, fw, controls),
             now)
    ensures var e := EvaluateControls(iso, data, ws, fw, controls);
            EvaluateFramework(iso, data, s, ws, fw, controls) ==
            if e.raised then now else now.(statuses := now.statuses[(ws.id, fw) := Evaluated(e.allPass, e.details)])
  {
    var e := EvaluateControls(iso, data, ws, fw, controls);
    EnabledThenSet(s.statuses, (ws.id, fw), Evaluated(e.allPass, e.details));
  }

  lemma {:induction false} EnabledNext(iso: IsoReader, data: Data, s: State, ws: Row, frameworks: seq<Enabled>, i: nat,
      before: State)
    requires i < |frameworks| && EvaluateEnabled(iso, data, s, ws, frameworks[..i]) == (before, false)
    ensures var f := frameworks[i];
            EvaluateEnabled(iso, data, s, ws, frameworks[..i + 1]) ==
            (EvaluateFramework(iso, data, before, ws, f.fw, f.controls),
              EvaluateControls(iso, data, ws, f.fw, f.controls).raised)
  {
    assert frameworks[..i + 1][..i] == frameworks[..i];
  }

  lemma {:induction false} EnabledEnd(iso: IsoReader, data: Data, s: State, ws: Row, frameworks: seq<Enabled>, i: nat)
    requires i <= |frameworks| && EvaluateEnabled(iso, data, s, ws, frameworks[..i]).1
    ensures EvaluateEnabled(iso, data, s, ws, frameworks) == EvaluateEnabled(iso, data, s, ws, frameworks[..i])
    decreases |frameworks| - i
  {
    if i < |frameworks| {
      assert frameworks[..i + 1][..i] == frameworks[..i];
      EnabledEnd(iso, data, s, ws, frameworks, i + 1);
    } else {
      assert frameworks[..i] == frameworks;
    }
  }

  lemma {:induction false} UpsertSnoc(e: map<EvidenceKey, Evidence>, writes: seq<Write>, w: Write)
    ensures UpsertAll(e, writes + [w]) == Upsert(UpsertAll(e, writes), w)
  {
    assert (writes + [w])[..|writes|] == writes;
  }

  /** The evidence, alert and status tables behind one session. */
  class Engine {
    var evidence: map<EvidenceKey, Evidence>
    var alerts: seq<Alert>
    var statuses: map<(string, string), Status>

    constructor ()
      ensures Contents() == State(map[], [], map[])
    {
      evidence, alerts, statuses := map[], [], map[];
    }

    function Contents(): State
      reads this
    {
      State(evidence, alerts, statuses)
    }

    method UpsertEvidence(w: Write)
      modifies this`evidence
      ensures evidence == Upsert(old(evidence), w)
    {
      if w.key in evidence {
        var existing := evidence[w.key];
        evidence := evidence[w.key := existing.(contentHash := w.row.contentHash, value := w.row.value)];
      } else {
        evidence := evidence[w.key := w.row];
      }
    }

    method Open(key: AlertKey, message: Message)
      modifies this`alerts
      ensures alerts == OpenAlert(old(alerts), key, message)
    {
      var existing := FindOpen(alerts, key);
      if existing.Some? {
        alerts := alerts[existing.value := alerts[existing.value].(message := message)];
      } else {
        alerts := alerts + [Alert(key, message, false)];
      }
    }

    method Resolve(key: AlertKey)
      modifies this`alerts
      ensures alerts == ResolveAlerts(old(alerts), key)
    {
      ghost var before := alerts;
      for i := 0 to |alerts|
        invariant |alerts| == |before|
        invariant forall j :: 0 <= j < |alerts| ==>
          alerts[j] == if j < i then ResolveAlerts(before, key)[j] else before[j]
      {
        if alerts[i].key == key && !alerts[i].resolved {
          alerts := alerts[i := alerts[i].(resolved := true)];
        }
      }
    }

    /** The predicate and the freshness check of one candidate row. */
    method JudgeRow(iso: IsoReader, rule: Rule, m: ObjMap) returns (outcome: Option<Outcome>)
      ensures outcome == Judge(iso, rule, m)
    {
      var holds := EvaluatePredicate(rule.pred, m);
      if holds == None {
        return None;
      }
      if !holds.value {
        return Some(Fails);
      }
      if rule.freshness.Some? && !Fresh(iso, rule.freshness.value, m) {
        return Some(Aged);
      }
      return Some(Passes);
    }

    /** The loop over the candidate rows of a rule. */
    method EvaluateRows(iso: IsoReader, ws: Row, control: Control, rule: Rule, cs: seq<Candidate>)
      returns (r: Option<(nat, seq<string>)>)
      modifies this`evidence
      ensures var s := ScanAll(iso, ws, control, rule, cs);
              && evidence == UpsertAll(old(evidence), s.writes)
              && r == if s.raised then None else Some((s.passing, s.drift))
    {
      var passing: nat := 0;
      var drift: seq<string> := [];
      ghost var writes: seq<Write> := [];
      for i := 0 to |cs|
        invariant ScanAll(iso, ws, control, rule, cs[..i]) == Scan(passing, drift, writes, false)
        invariant evidence == UpsertAll(old(evidence), writes)
      {
        ScanSnoc(iso, ws, control, rule, cs, i);
        var outcome := JudgeRow(iso, rule, cs[i].m);
        if outcome == None {
          ScanEnds(iso, ws, control, rule, cs, i + 1);
          return None;
        }
        match outcome.value {
          case Fails =>
          case Aged => drift := drift + [cs[i].target.id];
          case Passes =>
            var w := WriteFor(ws, control, rule, cs[i]);
            UpsertEvidence(w);
            UpsertSnoc(old(evidence), writes, w);
            writes := writes + [w];
            passing := passing + 1;
        }
      }
      assert cs[..|cs|] == cs;
      return Some((passing, drift));
    }

    /** _evaluate_rule: upserts evidence for each passing row; None when a row's predicate raises. */
    method EvaluateRule(iso: IsoReader, data: Data, ws: Row, control: Control, rule: Rule)
        returns (r: Option<RuleResult>)
      modifies this`evidence
      ensures var s := ScanRule(iso, data, ws, control, rule);
              && evidence == UpsertAll(old(evidence), s.writes)
              && r == if s.raised then None else Some(ResultOf(rule, s))
    {
      var candidates := Candidates(data, ws, rule.source);
      if candidates == None {
        return None;
      }
      var found := EvaluateRows(iso, ws, control, rule, candidates.value);
      if found == None {
        return None;
      }
      return Some(RuleResult(rule.id, found.value.0 >= rule.minCount, found.value.0, found.value.1));
    }

    method EvaluateRules(iso: IsoReader, data: Data, ws: Row, control: Control) returns (r: Option<seq<RuleResult>>)
      modifies this`evidence
      ensures var s := ScanRules(iso, data, ws, control, control.rules);
              && evidence == UpsertAll(old(evidence), s.writes)
              && r == if s.raised then None else Some(s.results)
    {
      var results: seq<RuleResult> := [];
      ghost var writes: seq<Write> := [];
      for i := 0 to |control.rules|
        invariant ScanRules(iso, data, ws, control, control.rules[..i]) == ControlScan(results, writes, false)
        invariant evidence == UpsertAll(old(evidence), writes)
      {
        RulesSnoc(iso, data, ws, control, control.rules, i);
        var one := EvaluateRule(iso, data, ws, control, control.rules[i]);
        ghost var s := ScanRule(iso, data, ws, control, control.rules[i]);
        UpsertConcat(old(evidence), writes, s.writes);
        writes := writes + s.writes;
        if one == None {
          RulesEnd(iso, data, ws, control, control.rules, i + 1);
          return None;
        }
        results := results + [one.value];
      }
      assert control.rules[..|control.rules|] == control.rules;
      return Some(results);
    }

    /** Opens or resolves the alert of one key, as the evaluation demands. */
    method Satisfy(d: Demand)
      modifies this`alerts
      ensures alerts == Meet(old(alerts), d)
    {
      if d.message.Some? {
        Open(d.key, d.message.value);
      } else {
        Resolve(d.key);
      }
    }

    /** The body of the control loop: evaluate the rules, then open or resolve the control's two alerts. */
    method EvaluateControl(iso: IsoReader, data: Data, ws: Row, fw: string, c: Control) returns (r: Option<Detail>)
      modifies this`evidence, this`alerts
      ensures var s := ScanRules(iso, data, ws, c, c.rules);
              && ControlDone(old(Contents()), Contents(), ws.id, fw, c, s)
              && r == if s.raised then None else Some(DetailOf(s.results))
    {
      var results := EvaluateRules(iso, data, ws, c);
      if results == None {
        return None;
      }
      Satisfy(GapDemand(ws.id, fw, c, results.value));
      Satisfy(DriftDemand(ws.id, fw, c, results.value));
      return Some(DetailOf(results.value));
    }

    /** The loop over the controls; None when a rule raises. */
    method EvaluateAll(iso: IsoReader, data: Data, ws: Row, fw: string, controls: seq<Control>)
        returns (r: Option<Summary>)
      modifies this`evidence, this`alerts
      ensures var e := EvaluateControls(iso, data, ws, fw, controls);
              && Reached(old(Contents()), e, Contents())
              && r == if e.raised then None else Some(Summary(e.allPass, e.details, e.total))
    {
      ghost var saved := Contents();
      var details: map<string, Detail> := map[];
      var total: nat, allPass := 0, true;
      ghost var e := Evaluation([], [], map[], true, 0, false);
      for i := 0 to |controls|
        invariant EvaluateControls(iso, data, ws, fw, controls[..i]) == e && !e.raised
        invariant details == e.details && total == e.total && allPass == e.allPass
        invariant Reached(saved, e, Contents())
      {
        EvaluateSnoc(iso, data, ws, fw, controls, i);
        ghost var s, before := ScanRules(iso, data, ws, controls[i], controls[i].rules), Contents();
        var detail := EvaluateControl(iso, data, ws, fw, controls[i]);
        ReachedNext(saved, e, before, Contents(), ws.id, fw, controls[i], s);
        e := Extend(e, ws.id, fw, controls[i], s);
        if detail == None {
          ControlsEnd(iso, data, ws, fw, controls, i + 1);
          return None;
        }
        total := total + detail.value.evidence;
        if !detail.value.pass {
          allPass := false;
        }
        details := details[controls[i].key := detail.value];
      }
      assert controls[..|controls|] == controls;
      return Some(Summary(allPass, details, total));
    }

    /** enable_framework: adds the status row unless it is there. */
    method EnableFramework(key: (string, string))
      modifies this`statuses
      ensures statuses == Enable(old(statuses), key)
    {
      if key !in statuses {
        statuses := statuses[key := Unevaluated];
      }
    }

    /** evaluate_framework: evaluates, alerts and rolls up; a rule that raises leaves what is written by then. */
    method Evaluate(iso: IsoReader, data: Data, ws: Row, fw: string, controls: seq<Control>)
        returns (r: Option<Summary>)
      modifies this
      ensures Contents() == EvaluateFramework(iso, data, old(Contents()), ws, fw, controls)
      ensures var e := EvaluateControls(iso, data, ws, fw, controls);
              r == if e.raised then None else Some(Summary(e.allPass, e.details, e.total))
    {
      EnableFramework((ws.id, fw));
      r := EvaluateAll(iso, data, ws, fw, controls);
      Closed(iso, data, old(Contents()), Contents(), ws, fw, controls);
      if r.Some? {
        statuses := statuses[(ws.id, fw) := Evaluated(r.value.pass, r.value.details)];
      }
    }

    /** evaluate_all, and the request around it: a route rolls a raise back, the worker commits what is there. */
    method EvaluateRequest(iso: IsoReader, r: Request)
      modifies this
      ensures Contents() == Handle(iso, old(Contents()), r)
    {
      var saved := Contents();
      for i := 0 to |r.frameworks|
        invariant EvaluateEnabled(iso, r.data, saved, r.ws, r.frameworks[..i]) == (Contents(), false)
      {
        EnabledNext(iso, r.data, saved, r.ws, r.frameworks, i, Contents());
        var summary := Evaluate(iso, r.data, r.ws, r.frameworks[i].fw, r.frameworks[i].controls);
        if summary == None {
          EnabledEnd(iso, r.data, saved, r.ws, r.frameworks, i + 1);
          if r.ending == RolledBack {
            evidence, alerts, statuses := saved.evidence, saved.alerts, saved.statuses;
          }
          return;
        }
      }
      assert r.frameworks[..|r.frameworks|] == r.frameworks;
    }
  }
}
