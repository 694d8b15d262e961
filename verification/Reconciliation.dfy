/** What every evaluation keeps and establishes about alerts, statuses and evidence. */
module Reconciliation {
  import opened Wrappers
  import opened Predicates
  import opened Record
  import opened Compliance

  // --- one alert key at a time ---------------------------------------------------------------

  lemma OpenAlertAt(alerts: seq<Alert>, key: AlertKey, message: Message, other: AlertKey, i: nat)
    requires i < |OpenAlert(alerts, key, message)|
    ensures OpenAt(OpenAlert(alerts, key, message), other, i) ==
            if i < |alerts| then OpenAt(alerts, other, i) else other == key
  {
  }

  lemma MeetKeepsOneOpen(alerts: seq<Alert>, d: Demand)
    requires AtMostOneOpen(alerts)
    ensures AtMostOneOpen(Meet(alerts, d))
  {
    var after := Meet(alerts, d);
    forall key, i, j | 0 <= i < j < |after|
      ensures !(OpenAt(after, key, i) && OpenAt(after, key, j))
    {
      if d.message.Some? {
        OpenAlertAt(alerts, d.key, d.message.value, key, i);
        OpenAlertAt(alerts, d.key, d.message.value, key, j);
        if j < |alerts| {
          assert !(OpenAt(alerts, key, i) && OpenAt(alerts, key, j));
        } else if key == d.key {
          assert FindOpen(alerts, key) == None;
          assert OpenAt(alerts, key, i) ==> IsOpen(alerts, key);
        }
      } else {
        assert OpenAt(after, key, i) ==> OpenAt(alerts, key, i);
        assert OpenAt(after, key, j) ==> OpenAt(alerts, key, j);
        assert !(OpenAt(alerts, key, i) && OpenAt(alerts, key, j));
      }
    }
  }

  /** Meeting a demand opens or closes its own key and leaves every other key alone. */
  lemma MeetOpens(alerts: seq<Alert>, d: Demand, key: AlertKey)
    ensures IsOpen(Meet(alerts, d), key) == if key == d.key then d.message.Some? else IsOpen(alerts, key)
  {
    var after := Meet(alerts, d);
    if d.message.Some? {
      forall i | 0 <= i < |after|
        ensures OpenAt(after, key, i) == if i < |alerts| then OpenAt(alerts, key, i) else key == d.key
      {
        OpenAlertAt(alerts, d.key, d.message.value, key, i);
      }
      if key == d.key {
        match FindOpen(alerts, key)
        case Some(i) => assert OpenAt(after, key, i);
        case None => assert OpenAt(after, key, |alerts|);
      } else if IsOpen(alerts, key) {
        var i :| 0 <= i < |alerts| && OpenAt(alerts, key, i);
        assert OpenAt(after, key, i);
      }
    } else {
      forall i | 0 <= i < |after|
        ensures OpenAt(after, key, i) == (key != d.key && OpenAt(alerts, key, i))
      {
      }
      if key != d.key && IsOpen(alerts, key) {
        var i :| 0 <= i < |alerts| && OpenAt(alerts, key, i);
        assert OpenAt(after, key, i);
      }
    }
  }

  /** A demand is settled when meeting it again would change nothing. */
  ghost predicate Settled(alerts: seq<Alert>, d: Demand) {
    match d.message
    case None => !IsOpen(alerts, d.key)
    case Some(message) => FindOpen(alerts, d.key).Some? && alerts[FindOpen(alerts, d.key).value].message == message
  }

  lemma SettledMeansNoChange(alerts: seq<Alert>, d: Demand)
    requires Settled(alerts, d)
    ensures Meet(alerts, d) == alerts
  {
    if d.message == None {
      forall i | 0 <= i < |alerts|
        ensures ResolveAlerts(alerts, d.key)[i] == alerts[i]
      {
        assert !OpenAt(alerts, d.key, i);
      }
    }
  }

  /** The first open alert is the one that is open with none before it. */
  lemma {:induction false} FindOpenIs(alerts: seq<Alert>, key: AlertKey, i: nat)
    requires i < |alerts| && OpenAt(alerts, key, i) && forall j :: 0 <= j < i ==> !OpenAt(alerts, key, j)
    ensures FindOpen(alerts, key) == Some(i)
  {
    assert IsOpen(alerts, key);
  }

  lemma MeetSettles(alerts: seq<Alert>, d: Demand)
    ensures Settled(Meet(alerts, d), d)
  {
    var after := Meet(alerts, d);
    MeetOpens(alerts, d, d.key);
    if d.message.Some? {
      match FindOpen(alerts, d.key)
      case Some(i) =>
        forall j | 0 <= j < i
          ensures !OpenAt(after, d.key, j)
        {
          assert !OpenAt(alerts, d.key, j);
        }
        FindOpenIs(after, d.key, i);
      case None =>
        forall j | 0 <= j < |alerts|
          ensures !OpenAt(after, d.key, j)
        {
          assert OpenAt(alerts, d.key, j) ==> IsOpen(alerts, d.key);
        }
        FindOpenIs(after, d.key, |alerts|);
    }
  }

  lemma MeetKeepsSettled(alerts: seq<Alert>, d: Demand, e: Demand)
    requires Settled(alerts, e) && d.key != e.key
    ensures Settled(Meet(alerts, d), e)
  {
    var after := Meet(alerts, d);
    MeetOpens(alerts, d, e.key);
    if e.message.Some? {
      var i := FindOpen(alerts, e.key).value;
      assert after[i] == alerts[i];
      forall j | 0 <= j < i
        ensures !OpenAt(after, e.key, j)
      {
        assert !OpenAt(alerts, e.key, j);
      }
      FindOpenIs(after, e.key, i);
    }
  }

  // --- all the demands of an evaluation --------------------------------------------------------

  ghost predicate DistinctDemands(ds: seq<Demand>) {
    forall i, j :: 0 <= i < j < |ds| ==> ds[i].key != ds[j].key
  }

  lemma {:induction false} MeetAllKeepsOneOpen(alerts: seq<Alert>, ds: seq<Demand>)
    requires AtMostOneOpen(alerts)
    ensures AtMostOneOpen(MeetAll(alerts, ds))
    decreases |ds|
  {
    if ds != [] {
      MeetAllKeepsOneOpen(alerts, ds[..|ds| - 1]);
      MeetKeepsOneOpen(MeetAll(alerts, ds[..|ds| - 1]), ds[|ds| - 1]);
    }
  }

  lemma {:induction false} MeetAllSettles(alerts: seq<Alert>, ds: seq<Demand>)
    requires DistinctDemands(ds)
    ensures forall i :: 0 <= i < |ds| ==> Settled(MeetAll(alerts, ds), ds[i])
    decreases |ds|
  {
    if ds != [] {
      var last := |ds| - 1;
      var before := MeetAll(alerts, ds[..last]);
      MeetAllSettles(alerts, ds[..last]);
      MeetSettles(before, ds[last]);
      forall i | 0 <= i < last
        ensures Settled(MeetAll(alerts, ds), ds[i])
      {
        assert ds[..last][i] == ds[i];
        MeetKeepsSettled(before, ds[last], ds[i]);
      }
    }
  }

  lemma {:induction false} SettledMeansFixed(alerts: seq<Alert>, ds: seq<Demand>)
    requires forall i :: 0 <= i < |ds| ==> Settled(alerts, ds[i])
    ensures MeetAll(alerts, ds) == alerts
    decreases |ds|
  {
    if ds != [] {
      SettledMeansFixed(alerts, ds[..|ds| - 1]);
      SettledMeansNoChange(alerts, ds[|ds| - 1]);
    }
  }

  /** Keys nobody asks about keep their alerts. */
  lemma {:induction false} MeetAllLeaves(alerts: seq<Alert>, ds: seq<Demand>, key: AlertKey)
    requires forall i :: 0 <= i < |ds| ==> ds[i].key != key
    ensures IsOpen(MeetAll(alerts, ds), key) == IsOpen(alerts, key)
    decreases |ds|
  {
    if ds != [] {
      MeetAllLeaves(alerts, ds[..|ds| - 1], key);
      MeetOpens(MeetAll(alerts, ds[..|ds| - 1]), ds[|ds| - 1], key);
    }
  }

  // --- evidence ----------------------------------------------------------------------------------

  lemma {:induction false} UpsertAllKeys(evidence: map<EvidenceKey, Evidence>, ws: seq<Write>)
    ensures forall key :: key in evidence ==> key in UpsertAll(evidence, ws)
    ensures forall i :: 0 <= i < |ws| ==> ws[i].key in UpsertAll(evidence, ws)
    decreases |ws|
  {
    if ws != [] {
      UpsertAllKeys(evidence, ws[..|ws| - 1]);
    }
  }

  /** An upserted row's hash and value are those of the last write under its key. */
  ghost predicate Latest(evidence: map<EvidenceKey, Evidence>, w: Write) {
    w.key in evidence && evidence[w.key].contentHash == w.row.contentHash && evidence[w.key].value == w.row.value
  }

  ghost predicate LastWrite(ws: seq<Write>, i: nat)
    requires i < |ws|
  {
    forall j :: i < j < |ws| ==> ws[j].key != ws[i].key
  }

  lemma {:induction false} LastWritesHold(evidence: map<EvidenceKey, Evidence>, ws: seq<Write>)
    ensures forall i :: 0 <= i < |ws| && LastWrite(ws, i) ==> Latest(UpsertAll(evidence, ws), ws[i])
    decreases |ws|
  {
    if ws != [] {
      var last := |ws| - 1;
      LastWritesHold(evidence, ws[..last]);
      forall i | 0 <= i < last && LastWrite(ws, i)
        ensures Latest(UpsertAll(evidence, ws), ws[i])
      {
        assert ws[..last][i] == ws[i];
        assert LastWrite(ws[..last], i);
      }
    }
  }

  /** Evidence rows keep their workspace, and change only through a write under their key. */
  lemma {:induction false} UpsertAllElsewhere(evidence: map<EvidenceKey, Evidence>, ws: seq<Write>, key: EvidenceKey)
    requires key in evidence
    ensures key in UpsertAll(evidence, ws)
    ensures UpsertAll(evidence, ws)[key].workspace == evidence[key].workspace
    ensures UpsertAll(evidence, ws)[key].refType == evidence[key].refType
    ensures (forall i :: 0 <= i < |ws| ==> ws[i].key != key) ==> UpsertAll(evidence, ws)[key] == evidence[key]
    decreases |ws|
  {
    if ws != [] {
      UpsertAllElsewhere(evidence, ws[..|ws| - 1], key);
    }
  }

  lemma {:induction false} NoNewKeys(evidence: map<EvidenceKey, Evidence>, ws: seq<Write>)
    requires forall i :: 0 <= i < |ws| ==> ws[i].key in evidence
    ensures UpsertAll(evidence, ws).Keys == evidence.Keys
    decreases |ws|
  {
    if ws != [] {
      NoNewKeys(evidence, ws[..|ws| - 1]);
    }
  }

  lemma {:induction false} LastWriteOf(ws: seq<Write>, i: nat) returns (j: nat)
    requires i < |ws|
    ensures i <= j < |ws| && ws[j].key == ws[i].key && LastWrite(ws, j)
    decreases |ws| - i
  {
    if k :| i < k < |ws| && ws[k].key == ws[i].key {
      j := LastWriteOf(ws, k);
    } else {
      j := i;
    }
  }

  /** Repeating the same writes changes nothing, however often a key is written among them. */
  lemma {:induction false} UpsertAllIdempotent(evidence: map<EvidenceKey, Evidence>, ws: seq<Write>)
    ensures UpsertAll(UpsertAll(evidence, ws), ws) == UpsertAll(evidence, ws)
  {
    var once := UpsertAll(evidence, ws);
    var twice := UpsertAll(once, ws);
    UpsertAllKeys(evidence, ws);
    NoNewKeys(once, ws);
    LastWritesHold(evidence, ws);
    LastWritesHold(once, ws);
    forall key | key in once
      ensures twice[key] == once[key]
    {
      UpsertAllElsewhere(once, ws, key);
      if i :| 0 <= i < |ws| && ws[i].key == key {
        var j := LastWriteOf(ws, i);
        assert Latest(once, ws[j]) && Latest(twice, ws[j]);
      }
    }
  }

  // --- evaluations ---------------------------------------------------------------------------------

  predicate DistinctControls(controls: seq<Control>) {
    forall i, j :: 0 <= i < j < |controls| ==> controls[i].id != controls[j].id
  }

  function ResultsOf(iso: IsoReader, data: Data, ws: Row, c: Control): seq<RuleResult> {
    ScanRules(iso, data, ws, c, c.rules).results
  }

  /** How many controls are evaluated before a rule raises: all of them when none does. */
  function Done(iso: IsoReader, data: Data, ws: Row, fw: string, controls: seq<Control>): (n: nat)
    ensures n <= |controls|
  {
    if controls == [] || !EvaluateControls(iso, data, ws, fw, controls).raised then |controls|
    else Done(iso, data, ws, fw, controls[..|controls| - 1])
  }

  /** A rule raises when its source is unknown, or its predicate raises on one of the rows it is about. */
  predicate RuleRaises(iso: IsoReader, data: Data, ws: Row, rule: Rule) {
    match Candidates(data, ws, rule.source)
    case None => true
    case Some(cs) => RowRaises(iso, rule, cs)
  }

  predicate RowRaises(iso: IsoReader, rule: Rule, cs: seq<Candidate>) {
    exists i :: 0 <= i < |cs| && Judge(iso, rule, cs[i].m) == None
  }

  predicate AnyRuleRaises(iso: IsoReader, data: Data, ws: Row, rules: seq<Rule>) {
    exists i :: 0 <= i < |rules| && RuleRaises(iso, data, ws, rules[i])
  }

  predicate ControlRaises(iso: IsoReader, data: Data, ws: Row, c: Control) {
    AnyRuleRaises(iso, data, ws, c.rules)
  }

  predicate SomeControlRaises(iso: IsoReader, data: Data, ws: Row, controls: seq<Control>) {
    exists i :: 0 <= i < |controls| && ControlRaises(iso, data, ws, controls[i])
  }

  lemma {:induction false} ScanRaisesIff(iso: IsoReader, ws: Row, control: Control, rule: Rule, cs: seq<Candidate>)
    ensures ScanAll(iso, ws, control, rule, cs).raised <==> RowRaises(iso, rule, cs)
    decreases |cs|
  {
    if cs != [] {
      var n := |cs| - 1;
      ScanRaisesIff(iso, ws, control, rule, cs[..n]);
      if RowRaises(iso, rule, cs[..n]) {
        var i :| 0 <= i < n && Judge(iso, rule, cs[..n][i].m) == None;
        assert Judge(iso, rule, cs[i].m) == None;
      }
      if i :| 0 <= i < |cs| && Judge(iso, rule, cs[i].m) == None {
        assert i < n ==> Judge(iso, rule, cs[..n][i].m) == None;
      }
    }
  }

  lemma {:induction false} RuleRaisesIff(iso: IsoReader, data: Data, ws: Row, control: Control, rule: Rule)
    ensures ScanRule(iso, data, ws, control, rule).raised <==> RuleRaises(iso, data, ws, rule)
  {
    if Candidates(data, ws, rule.source).Some? {
      ScanRaisesIff(iso, ws, control, rule, Candidates(data, ws, rule.source).value);
    }
  }

  lemma AnyRuleRaisesLast(iso: IsoReader, data: Data, ws: Row, rules: seq<Rule>, n: nat)
    requires |rules| == n + 1
    ensures AnyRuleRaises(iso, data, ws, rules) <==>
            AnyRuleRaises(iso, data, ws, rules[..n]) || RuleRaises(iso, data, ws, rules[n])
  {
    if AnyRuleRaises(iso, data, ws, rules[..n]) {
      var i :| 0 <= i < n && RuleRaises(iso, data, ws, rules[..n][i]);
      assert RuleRaises(iso, data, ws, rules[i]);
    }
    if i :| 0 <= i < |rules| && RuleRaises(iso, data, ws, rules[i]) {
      assert i < n ==> RuleRaises(iso, data, ws, rules[..n][i]);
    }
  }

  lemma {:induction false} RulesRaiseIff(iso: IsoReader, data: Data, ws: Row, control: Control, rules: seq<Rule>)
    ensures ScanRules(iso, data, ws, control, rules).raised <==> AnyRuleRaises(iso, data, ws, rules)
    decreases |rules|
  {
    if rules != [] {
      var n := |rules| - 1;
      RulesRaiseIff(iso, data, ws, control, rules[..n]);
      RuleRaisesIff(iso, data, ws, control, rules[n]);
      AnyRuleRaisesLast(iso, data, ws, rules, n);
    }
  }

  lemma SomeControlRaisesLast(iso: IsoReader, data: Data, ws: Row, controls: seq<Control>, n: nat)
    requires |controls| == n + 1
    ensures SomeControlRaises(iso, data, ws, controls) <==>
            SomeControlRaises(iso, data, ws, controls[..n]) || ControlRaises(iso, data, ws, controls[n])
  {
    if SomeControlRaises(iso, data, ws, controls[..n]) {
      var i :| 0 <= i < n && ControlRaises(iso, data, ws, controls[..n][i]);
      assert ControlRaises(iso, data, ws, controls[i]);
    }
    if i :| 0 <= i < |controls| && ControlRaises(iso, data, ws, controls[i]) {
      assert i < n ==> ControlRaises(iso, data, ws, controls[..n][i]);
    }
  }

  /** An evaluation is cut short exactly when some rule of some control raises. */
  lemma {:induction false} RaisedIff(iso: IsoReader, data: Data, ws: Row, fw: string, controls: seq<Control>)
    ensures EvaluateControls(iso, data, ws, fw, controls).raised <==> SomeControlRaises(iso, data, ws, controls)
    decreases |controls|
  {
    if controls != [] {
      var n := |controls| - 1;
      RaisedIff(iso, data, ws, fw, controls[..n]);
      RulesRaiseIff(iso, data, ws, controls[n], controls[n].rules);
      SomeControlRaisesLast(iso, data, ws, controls, n);
    }
  }

  /** A control is evaluated exactly when no rule of it or of a control before it raises. */
  lemma {:induction false} DoneIff(iso: IsoReader, data: Data, ws: Row, fw: string, controls: seq<Control>, i: nat)
    requires i < |controls|
    ensures i < Done(iso, data, ws, fw, controls) <==> !SomeControlRaises(iso, data, ws, controls[..i + 1])
    decreases |controls|
  {
    var n := |controls| - 1;
    RaisedIff(iso, data, ws, fw, controls);
    if i < n {
      assert controls[..n][..i + 1] == controls[..i + 1];
      DoneIff(iso, data, ws, fw, controls[..n], i);
      if !SomeControlRaises(iso, data, ws, controls) {
        NoneRaisesBefore(iso, data, ws, controls, i + 1);
      }
    } else {
      assert controls[..i + 1] == controls;
    }
  }

  lemma NoneRaisesBefore(iso: IsoReader, data: Data, ws: Row, controls: seq<Control>, n: nat)
    requires n <= |controls| && !SomeControlRaises(iso, data, ws, controls)
    ensures !SomeControlRaises(iso, data, ws, controls[..n])
  {
    assert forall i :: 0 <= i < n ==> controls[..n][i] == controls[i];
  }

  /** The two demands an evaluation makes for a control. */
  predicate Asks(iso: IsoReader, data: Data, ws: Row, fw: string, c: Control, ds: seq<Demand>, j: nat) {
    var r := ResultsOf(iso, data, ws, c);
    j + 1 < |ds| && ds[j] == GapDemand(ws.id, fw, c, r) && ds[j + 1] == DriftDemand(ws.id, fw, c, r)
  }

  lemma {:induction false} DemandCount(iso: IsoReader, data: Data, ws: Row, fw: string, controls: seq<Control>)
    ensures |EvaluateControls(iso, data, ws, fw, controls).demands| == 2 * Done(iso, data, ws, fw, controls)
    decreases |controls|
  {
    if controls != [] {
      DemandCount(iso, data, ws, fw, controls[..|controls| - 1]);
    }
  }

  /** The last control's demands come behind those before it; a raise adds none. */
  lemma {:induction false} DemandsGrow(iso: IsoReader, data: Data, ws: Row, fw: string, controls: seq<Control>, n: nat)
    requires |controls| == n + 1
    ensures var e := EvaluateControls(iso, data, ws, fw, controls);
            var ds := EvaluateControls(iso, data, ws, fw, controls[..n]).demands;
            if e.raised then e.demands == ds
            else ds <= e.demands && Asks(iso, data, ws, fw, controls[n], e.demands, |ds|)
  {}

  lemma {:induction false} DoneGrows(iso: IsoReader, data: Data, ws: Row, fw: string, controls: seq<Control>, n: nat)
    requires |controls| == n + 1
    ensures Done(iso, data, ws, fw, controls) ==
            if EvaluateControls(iso, data, ws, fw, controls).raised then Done(iso, data, ws, fw, controls[..n])
              else n + 1
    ensures EvaluateControls(iso, data, ws, fw, controls).raised || Done(iso, data, ws, fw, controls[..n]) == n
  {}

  lemma {:induction false} DemandKept(iso: IsoReader, data: Data, ws: Row, fw: string, controls: seq<Control>, n: nat,
      i: nat)
    requires |controls| == n + 1 && i < n
    requires Asks(iso, data, ws, fw, controls[..n][i], EvaluateControls(iso, data, ws, fw, controls[..n]).demands,
             2 * i)
    ensures Asks(iso, data, ws, fw, controls[i], EvaluateControls(iso, data, ws, fw, controls).demands, 2 * i)
  {
    DemandsGrow(iso, data, ws, fw, controls, n);
  }

  lemma {:induction false} LastDemand(iso: IsoReader, data: Data, ws: Row, fw: string, controls: seq<Control>, n: nat)
    requires |controls| == n + 1 && !EvaluateControls(iso, data, ws, fw, controls).raised
    ensures Asks(iso, data, ws, fw, controls[n], EvaluateControls(iso, data, ws, fw, controls).demands, 2 * n)
  {
    DoneGrows(iso, data, ws, fw, controls, n);
    DemandCount(iso, data, ws, fw, controls[..n]);
    DemandsGrow(iso, data, ws, fw, controls, n);
  }

  /** The demands of an evaluation: a gap demand and a drift demand for each control it completes, in order. */
  lemma {:induction false} DemandAt(iso: IsoReader, data: Data, ws: Row, fw: string, controls: seq<Control>, i: nat)
    requires i < Done(iso, data, ws, fw, controls)
    ensures Asks(iso, data, ws, fw, controls[i], EvaluateControls(iso, data, ws, fw, controls).demands, 2 * i)
    decreases |controls|
  {
    var last := |controls| - 1;
    DoneGrows(iso, data, ws, fw, controls, last);
    if i < last {
      DemandAt(iso, data, ws, fw, controls[..last], i);
      DemandKept(iso, data, ws, fw, controls, last, i);
    } else {
      LastDemand(iso, data, ws, fw, controls, last);
    }
  }

  lemma {:induction false} DemandKey(iso: IsoReader, data: Data, ws: Row, fw: string, controls: seq<Control>, j: nat)
    requires j < |EvaluateControls(iso, data, ws, fw, controls).demands|
    ensures j / 2 < Done(iso, data, ws, fw, controls)
    ensures EvaluateControls(iso, data, ws, fw, controls).demands[j].key ==
            AlertKey(ws.id, fw, controls[j / 2].id, if j % 2 == 0 then Gap else Aging)
  {
    var i := j / 2;
    assert j == 2 * i || j == 2 * i + 1;
    DemandCount(iso, data, ws, fw, controls);
    DemandAt(iso, data, ws, fw, controls, i);
  }

  /** Whether the control has a failing rule, and whether any of its rows aged out. */
  predicate SomeRuleFails(results: seq<RuleResult>) {
    exists i :: 0 <= i < |results| && !results[i].passed
  }

  predicate SomeRowAged(results: seq<RuleResult>) {
    exists i :: 0 <= i < |results| && results[i].drift != []
  }

  lemma {:induction false} FailingIff(results: seq<RuleResult>)
    ensures Failing(results) != [] <==> SomeRuleFails(results)
    decreases |results|
  {
    if results != [] {
      var last := |results| - 1;
      FailingIff(results[..last]);
      assert forall i :: 0 <= i < last ==> results[..last][i] == results[i];
      if SomeRuleFails(results) && results[last].passed {
        var i :| 0 <= i < |results| && !results[i].passed;
        assert !results[..last][i].passed;
      }
    }
  }

  lemma {:induction false} DriftIff(results: seq<RuleResult>)
    ensures Drift(results) != [] <==> SomeRowAged(results)
    decreases |results|
  {
    if results != [] {
      var last := |results| - 1;
      DriftIff(results[..last]);
      assert forall i :: 0 <= i < last ==> results[..last][i] == results[i];
      if SomeRowAged(results) && results[last].drift == [] {
        var i :| 0 <= i < |results| && results[i].drift != [];
        assert results[..last][i].drift != [];
      }
    }
  }

  lemma {:induction false} DemandsDistinct(iso: IsoReader, data: Data, ws: Row, fw: string, controls: seq<Control>)
    requires DistinctControls(controls)
    ensures DistinctDemands(EvaluateControls(iso, data, ws, fw, controls).demands)
  {
    var ds := EvaluateControls(iso, data, ws, fw, controls).demands;
    forall i, j | 0 <= i < j < |ds|
      ensures ds[i].key != ds[j].key
    {
      DemandKey(iso, data, ws, fw, controls, i);
      DemandKey(iso, data, ws, fw, controls, j);
      if i / 2 != j / 2 {
        assert controls[i / 2].id != controls[j / 2].id;
      }
    }
  }

  lemma {:induction false} EnabledKeepsOneOpen(iso: IsoReader, data: Data, s: State, ws: Row, frameworks: seq<Enabled>)
    requires AtMostOneOpen(s.alerts)
    ensures AtMostOneOpen(EvaluateEnabled(iso, data, s, ws, frameworks).0.alerts)
    decreases |frameworks|
  {
    if frameworks != [] {
      var n := |frameworks| - 1;
      var before := EvaluateEnabled(iso, data, s, ws, frameworks[..n]).0;
      EnabledKeepsOneOpen(iso, data, s, ws, frameworks[..n]);
      var e := EvaluateControls(iso, data, ws, frameworks[n].fw, frameworks[n].controls);
      MeetAllKeepsOneOpen(before.alerts, e.demands);
    }
  }

  function Serve(iso: IsoReader, s: State, rs: seq<Request>): State
    decreases |rs|
  {
    if rs == [] then s else Handle(iso, Serve(iso, s, rs[..|rs| - 1]), rs[|rs| - 1])
  }

  const START := State(map[], [], map[])

  /**
   In every reachable state at most one alert is open per workspace, framework, control and kind, also in those
   that a rule which raised has left behind.
   */
  lemma {:induction false} OneOpenAlways(iso: IsoReader, rs: seq<Request>)
    ensures AtMostOneOpen(Serve(iso, START, rs).alerts)
    decreases |rs|
  {
    if rs != [] {
      var r := rs[|rs| - 1];
      OneOpenAlways(iso, rs[..|rs| - 1]);
      EnabledKeepsOneOpen(iso, r.data, Serve(iso, START, rs[..|rs| - 1]), r.ws, r.frameworks);
    }
  }

  /**
   After an evaluation the gap alert of a control it completed is open exactly when one of its rules fails, and
   its drift alert exactly when one of its rows aged out.
   */
  lemma {:induction false} AlertsMatchResults(iso: IsoReader, data: Data, s: State, ws: Row, fw: string,
      controls: seq<Control>, i: nat)
    requires DistinctControls(controls) && i < Done(iso, data, ws, fw, controls)
    ensures var after := EvaluateFramework(iso, data, s, ws, fw, controls);
            var c := controls[i];
            && (IsOpen(after.alerts, AlertKey(ws.id, fw, c.id, Gap)) <==> SomeRuleFails(ResultsOf(iso, data, ws, c)))
            && (IsOpen(after.alerts, AlertKey(ws.id, fw, c.id, Aging)) <==> SomeRowAged(ResultsOf(iso, data, ws, c)))
  {
    var e := EvaluateControls(iso, data, ws, fw, controls);
    DemandAt(iso, data, ws, fw, controls, i);
    DemandsDistinct(iso, data, ws, fw, controls);
    MeetAllSettles(s.alerts, e.demands);
    var results := ResultsOf(iso, data, ws, controls[i]);
    FailingIff(results);
    DriftIff(results);
    SettledMeansMet(MeetAll(s.alerts, e.demands), e.demands[2 * i]);
    SettledMeansMet(MeetAll(s.alerts, e.demands), e.demands[2 * i + 1]);
  }

  /** The alerts of the control in which a rule raised, and of those behind it, stay as they were. */
  lemma {:induction false} AlertsBehindStay(iso: IsoReader, data: Data, s: State, ws: Row, fw: string,
      controls: seq<Control>, i: nat, kind: Kind)
    requires DistinctControls(controls) && Done(iso, data, ws, fw, controls) <= i < |controls|
    ensures var key := AlertKey(ws.id, fw, controls[i].id, kind);
            IsOpen(EvaluateFramework(iso, data, s, ws, fw, controls).alerts, key) == IsOpen(s.alerts, key)
  {
    var ds := EvaluateControls(iso, data, ws, fw, controls).demands;
    forall j | 0 <= j < |ds|
      ensures ds[j].key != AlertKey(ws.id, fw, controls[i].id, kind)
    {
      DemandKey(iso, data, ws, fw, controls, j);
      assert controls[j / 2].id != controls[i].id;
    }
    MeetAllLeaves(s.alerts, ds, AlertKey(ws.id, fw, controls[i].id, kind));
  }

  lemma SettledMeansMet(alerts: seq<Alert>, d: Demand)
    requires Settled(alerts, d)
    ensures IsOpen(alerts, d.key) <==> d.message.Some?
  {
    if d.message.Some? {
      assert OpenAt(alerts, d.key, FindOpen(alerts, d.key).value);
    }
  }

  predicate ControlFails(iso: IsoReader, data: Data, ws: Row, c: Control) {
    SomeRuleFails(ResultsOf(iso, data, ws, c))
  }

  predicate SomeControlFails(iso: IsoReader, data: Data, ws: Row, controls: seq<Control>) {
    exists i :: 0 <= i < |controls| && ControlFails(iso, data, ws, controls[i])
  }

  lemma SomeControlFailsLast(iso: IsoReader, data: Data, ws: Row, controls: seq<Control>, n: nat)
    requires |controls| == n + 1
    ensures SomeControlFails(iso, data, ws, controls) <==>
            SomeControlFails(iso, data, ws, controls[..n]) || ControlFails(iso, data, ws, controls[n])
  {
    if SomeControlFails(iso, data, ws, controls[..n]) {
      var i :| 0 <= i < n && ControlFails(iso, data, ws, controls[..n][i]);
      assert ControlFails(iso, data, ws, controls[i]);
    }
    if i :| 0 <= i < |controls| && ControlFails(iso, data, ws, controls[i]) {
      assert i < n ==> ControlFails(iso, data, ws, controls[..n][i]);
    }
  }

  lemma {:induction false} AllPassIff(iso: IsoReader, data: Data, ws: Row, fw: string, controls: seq<Control>)
    requires !EvaluateControls(iso, data, ws, fw, controls).raised
    ensures EvaluateControls(iso, data, ws, fw, controls).allPass <==> !SomeControlFails(iso, data, ws, controls)
    decreases |controls|
  {
    if controls != [] {
      var n := |controls| - 1;
      AllPassIff(iso, data, ws, fw, controls[..n]);
      FailingIff(ResultsOf(iso, data, ws, controls[n]));
      SomeControlFailsLast(iso, data, ws, controls, n);
    }
  }

  predicate GapOpen(s: State, ws: string, fw: string, c: Control) {
    IsOpen(s.alerts, AlertKey(ws, fw, c.id, Gap))
  }

  /** The framework's status is "pass" exactly when none of its controls has an open gap alert. */
  ghost predicate StatusMatches(s: State, ws: string, fw: string, controls: seq<Control>) {
    && (ws, fw) in s.statuses && s.statuses[(ws, fw)].Evaluated?
    && (s.statuses[(ws, fw)].pass <==> forall i :: 0 <= i < |controls| ==> !GapOpen(s, ws, fw, controls[i]))
  }

  lemma {:induction false} StatusMatchesGaps(iso: IsoReader, data: Data, s: State, ws: Row, fw: string,
      controls: seq<Control>)
    requires DistinctControls(controls) && !EvaluateControls(iso, data, ws, fw, controls).raised
    ensures StatusMatches(EvaluateFramework(iso, data, s, ws, fw, controls), ws.id, fw, controls)
  {
    AllPassIff(iso, data, ws, fw, controls);
    forall i | 0 <= i < |controls|
      ensures GapOpen(EvaluateFramework(iso, data, s, ws, fw, controls), ws.id, fw, controls[i]) <==>
              ControlFails(iso, data, ws, controls[i])
    {
      AlertsMatchResults(iso, data, s, ws, fw, controls, i);
    }
  }

  /** After an evaluation the status matches the alerts, whatever was there before, exactly when no rule raises. */
  lemma {:induction false} StatusMatchesIff(iso: IsoReader, data: Data, ws: Row, fw: string, controls: seq<Control>)
    requires DistinctControls(controls)
    ensures (forall s :: StatusMatches(EvaluateFramework(iso, data, s, ws, fw, controls), ws.id, fw, controls)) <==>
            !SomeControlRaises(iso, data, ws, controls)
  {
    RaisedIff(iso, data, ws, fw, controls);
    if EvaluateControls(iso, data, ws, fw, controls).raised {
      var after := EvaluateFramework(iso, data, START, ws, fw, controls);
      assert after.statuses[(ws.id, fw)] == Unevaluated;
      assert !StatusMatches(after, ws.id, fw, controls);
    } else {
      forall s
        ensures StatusMatches(EvaluateFramework(iso, data, s, ws, fw, controls), ws.id, fw, controls)
      {
        StatusMatchesGaps(iso, data, s, ws, fw, controls);
      }
    }
  }

  /** An evaluation leaves every matching status matching. */
  ghost predicate KeepsStatus(iso: IsoReader, data: Data, ws: Row, fw: string, controls: seq<Control>) {
    forall s :: StatusMatches(s, ws.id, fw, controls) ==>
      StatusMatches(EvaluateFramework(iso, data, s, ws, fw, controls), ws.id, fw, controls)
  }

  /** A passing framework: once a control that fails is done, a raise leaves it passing with an open gap. */
  lemma {:induction false} StalePass(iso: IsoReader, data: Data, s: State, ws: Row, fw: string, controls: seq<Control>,
      i: nat)
    requires DistinctControls(controls) && EvaluateControls(iso, data, ws, fw, controls).raised
    requires i < Done(iso, data, ws, fw, controls) && ControlFails(iso, data, ws, controls[i])
    requires (ws.id, fw) in s.statuses && s.statuses[(ws.id, fw)].Evaluated? && s.statuses[(ws.id, fw)].pass
    ensures var after := EvaluateFramework(iso, data, s, ws, fw, controls);
            && after.statuses[(ws.id, fw)] == s.statuses[(ws.id, fw)] && GapOpen(after, ws.id, fw, controls[i])
            && !StatusMatches(after, ws.id, fw, controls)
  {
    AlertsMatchResults(iso, data, s, ws, fw, controls, i);
  }

  /**
   A framework with one open gap: when the controls done all pass, a raise leaves its status with no gap behind it.
   */
  lemma StaleGap(iso: IsoReader, data: Data, ws: Row, fw: string, controls: seq<Control>) returns (s: State)
    requires DistinctControls(controls) && EvaluateControls(iso, data, ws, fw, controls).raised
    requires Done(iso, data, ws, fw, controls) > 0
    requires forall i :: 0 <= i < Done(iso, data, ws, fw, controls) ==> !ControlFails(iso, data, ws, controls[i])
    ensures StatusMatches(s, ws.id, fw, controls)
    ensures !StatusMatches(EvaluateFramework(iso, data, s, ws, fw, controls), ws.id, fw, controls)
  {
    var key := AlertKey(ws.id, fw, controls[0].id, Gap);
    s := State(map[], [Alert(key, GapMessage(controls[0].key, []), false)],
      map[(ws.id, fw) := Evaluated(false, map[])]);
    assert OpenAt(s.alerts, key, 0) && GapOpen(s, ws.id, fw, controls[0]);
    forall i | 0 <= i < |controls|
      ensures !GapOpen(EvaluateFramework(iso, data, s, ws, fw, controls), ws.id, fw, controls[i])
    {
      if i < Done(iso, data, ws, fw, controls) {
        AlertsMatchResults(iso, data, s, ws, fw, controls, i);
      } else {
        AlertsBehindStay(iso, data, s, ws, fw, controls, i, Gap);
        assert controls[i].id != controls[0].id;
      }
    }
  }

  /**
   A committed evaluation keeps every matching status exactly when no rule raises, or one of the first control does.
   */
  lemma {:induction false} KeepsStatusIff(iso: IsoReader, data: Data, ws: Row, fw: string, controls: seq<Control>)
    requires DistinctControls(controls)
    ensures KeepsStatus(iso, data, ws, fw, controls) <==>
            (SomeControlRaises(iso, data, ws, controls) ==> ControlRaises(iso, data, ws, controls[0]))
  {
    KeepsStatusUnlessCut(iso, data, ws, fw, controls);
    RaisedIff(iso, data, ws, fw, controls);
    if controls != [] {
      DoneIff(iso, data, ws, fw, controls, 0);
      assert controls[..1] == [controls[0]];
      assert ControlRaises(iso, data, ws, controls[0]) ==> ControlRaises(iso, data, ws, [controls[0]][0]);
    }
  }

  lemma {:induction false} KeepsStatusUnlessCut(iso: IsoReader, data: Data, ws: Row, fw: string, controls: seq<Control>)
    requires DistinctControls(controls)
    ensures KeepsStatus(iso, data, ws, fw, controls) <==>
            !EvaluateControls(iso, data, ws, fw, controls).raised || Done(iso, data, ws, fw, controls) == 0
  {
    RaisedIff(iso, data, ws, fw, controls);
    var e, done := EvaluateControls(iso, data, ws, fw, controls), Done(iso, data, ws, fw, controls);
    if !e.raised {
      StatusMatchesIff(iso, data, ws, fw, controls);
    } else if done == 0 {
      DemandCount(iso, data, ws, fw, controls);
      forall s | StatusMatches(s, ws.id, fw, controls)
        ensures StatusMatches(EvaluateFramework(iso, data, s, ws, fw, controls), ws.id, fw, controls)
      {
        var after := EvaluateFramework(iso, data, s, ws, fw, controls);
        assert after.alerts == s.alerts && after.statuses == s.statuses;
        assert forall c :: GapOpen(after, ws.id, fw, c) == GapOpen(s, ws.id, fw, c);
      }
    } else if i :| 0 <= i < done && ControlFails(iso, data, ws, controls[i]) {
      var s := State(map[], [], map[(ws.id, fw) := Evaluated(true, map[])]);
      assert StatusMatches(s, ws.id, fw, controls);
      StalePass(iso, data, s, ws, fw, controls, i);
    } else {
      var s := StaleGap(iso, data, ws, fw, controls);
    }
  }

  /** Evaluating an unchanged record again changes no evidence, no alert and no status, also when a rule raises. */
  lemma EvaluationIsIdempotent(iso: IsoReader, data: Data, s: State, ws: Row, fw: string, controls: seq<Control>)
    requires DistinctControls(controls)
    ensures var once := EvaluateFramework(iso, data, s, ws, fw, controls);
            EvaluateFramework(iso, data, once, ws, fw, controls) == once
  {
    var e := EvaluateControls(iso, data, ws, fw, controls);
    DemandsDistinct(iso, data, ws, fw, controls);
    MeetAllSettles(s.alerts, e.demands);
    SettledMeansFixed(MeetAll(s.alerts, e.demands), e.demands);
    UpsertAllIdempotent(s.evidence, e.writes);
  }

  lemma OneFramework(iso: IsoReader, s: State, r: Request)
    requires |r.frameworks| == 1
    ensures var f := r.frameworks[0];
            Handle(iso, s, r) ==
            if EvaluateControls(iso, r.data, r.ws, f.fw, f.controls).raised && r.ending == RolledBack then s
            else EvaluateFramework(iso, r.data, s, r.ws, f.fw, f.controls)
  {
    assert r.frameworks[..0] == [];
    assert EvaluateEnabled(iso, r.data, s, r.ws, []) == (s, false);
  }

  // --- requests over any number of frameworks ------------------------------------------------------

  lemma {:induction false} MeetConcat(alerts: seq<Alert>, a: seq<Demand>, b: seq<Demand>)
    ensures MeetAll(alerts, a + b) == MeetAll(MeetAll(alerts, a), b)
    decreases |b|
  {
    if b == [] {
      assert a + b == a;
    } else {
      assert (a + b)[..|a + b| - 1] == a + b[..|b| - 1];
      MeetConcat(alerts, a, b[..|b| - 1]);
    }
  }

  /** What a request writes and demands, framework after framework, until a rule raises. */
  datatype Effects = Effects(writes: seq<Write>, demands: seq<Demand>, raised: bool)

  function EffectsOf(iso: IsoReader, data: Data, ws: Row, frameworks: seq<Enabled>): Effects {
    if frameworks == [] then Effects([], [], false)
    else
      var before, f := EffectsOf(iso, data, ws, frameworks[..|frameworks| - 1]), frameworks[|frameworks| - 1];
      if before.raised then before
      else
        var e := EvaluateControls(iso, data, ws, f.fw, f.controls);
        Effects(before.writes + e.writes, before.demands + e.demands, e.raised)
  }

  lemma {:induction false} EnabledEffects(iso: IsoReader, data: Data, s: State, ws: Row, frameworks: seq<Enabled>)
    ensures var (after, raised) := EvaluateEnabled(iso, data, s, ws, frameworks);
            var e := EffectsOf(iso, data, ws, frameworks);
            && raised == e.raised
            && after.evidence == UpsertAll(s.evidence, e.writes) && after.alerts == MeetAll(s.alerts, e.demands)
    decreases |frameworks|
  {
    if frameworks != [] {
      var n := |frameworks| - 1;
      var before, f := EffectsOf(iso, data, ws, frameworks[..n]), frameworks[n];
      EnabledEffects(iso, data, s, ws, frameworks[..n]);
      var e := EvaluateControls(iso, data, ws, f.fw, f.controls);
      UpsertConcat(s.evidence, before.writes, e.writes);
      MeetConcat(s.alerts, before.demands, e.demands);
    }
  }

  /** A workspace enables a framework once, and control ids are primary keys. */
  predicate DistinctFrameworks(frameworks: seq<Enabled>) {
    && (forall i, j :: 0 <= i < j < |frameworks| ==> frameworks[i].fw != frameworks[j].fw)
    && forall i :: 0 <= i < |frameworks| ==> DistinctControls(frameworks[i].controls)
  }

  predicate Among(fw: string, frameworks: seq<Enabled>) {
    exists i :: 0 <= i < |frameworks| && frameworks[i].fw == fw
  }

  /** The demands of all frameworks together have different keys. */
  lemma {:induction false} EffectsDistinct(iso: IsoReader, data: Data, ws: Row, frameworks: seq<Enabled>)
    requires DistinctFrameworks(frameworks)
    ensures var ds := EffectsOf(iso, data, ws, frameworks).demands;
            DistinctDemands(ds) && forall j :: 0 <= j < |ds| ==> Among(ds[j].key.framework, frameworks)
    decreases |frameworks|
  {
    if frameworks != [] {
      var n := |frameworks| - 1;
      var before, f := EffectsOf(iso, data, ws, frameworks[..n]), frameworks[n];
      EffectsDistinct(iso, data, ws, frameworks[..n]);
      var ds, all := EvaluateControls(iso, data, ws, f.fw, f.controls).demands,
          EffectsOf(iso, data, ws, frameworks).demands;
      DemandsDistinct(iso, data, ws, f.fw, f.controls);
      forall j | 0 <= j < |before.demands|
        ensures before.demands[j].key.framework != f.fw && Among(before.demands[j].key.framework, frameworks)
      {
        var i :| 0 <= i < n && frameworks[..n][i].fw == before.demands[j].key.framework;
        assert frameworks[i].fw == before.demands[j].key.framework;
      }
      forall j | 0 <= j < |ds|
        ensures ds[j].key.framework == f.fw
      {
        DemandKey(iso, data, ws, f.fw, f.controls, j);
      }
      assert Among(f.fw, frameworks);
    }
  }

  /** The framework's status is the one its evaluation leaves; after a raise any is. */
  predicate StatusIs(iso: IsoReader, data: Data, ws: Row, statuses: map<(string, string), Status>, f: Enabled) {
    var e := EvaluateControls(iso, data, ws, f.fw, f.controls);
    (ws.id, f.fw) in statuses && (!e.raised ==> statuses[(ws.id, f.fw)] == Evaluated(e.allPass, e.details))
  }

  /** Framework i is evaluated: no rule of those before it raised. */
  predicate Runs(iso: IsoReader, data: Data, ws: Row, frameworks: seq<Enabled>, i: nat)
    requires i < |frameworks|
  {
    !EffectsOf(iso, data, ws, frameworks[..i]).raised
  }

  predicate HoldsAt(iso: IsoReader, data: Data, ws: Row, statuses: map<(string, string), Status>,
      frameworks: seq<Enabled>, i: nat)
    requires i < |frameworks|
  {
    Runs(iso, data, ws, frameworks, i) ==> StatusIs(iso, data, ws, statuses, frameworks[i])
  }

  ghost predicate StatusesHold(iso: IsoReader, data: Data, ws: Row, statuses: map<(string, string), Status>,
      frameworks: seq<Enabled>) {
    forall i :: 0 <= i < |frameworks| ==> HoldsAt(iso, data, ws, statuses, frameworks, i)
  }

  lemma HoldsAtBefore(iso: IsoReader, data: Data, ws: Row, statuses: map<(string, string), Status>,
      frameworks: seq<Enabled>, n: nat, i: nat)
    requires i < n <= |frameworks|
    ensures HoldsAt(iso, data, ws, statuses, frameworks[..n], i) == HoldsAt(iso, data, ws, statuses, frameworks, i)
  {
    assert frameworks[..n][..i] == frameworks[..i] && frameworks[..n][i] == frameworks[i];
  }

  lemma HoldBefore(iso: IsoReader, data: Data, ws: Row, statuses: map<(string, string), Status>,
      frameworks: seq<Enabled>, n: nat)
    requires |frameworks| == n + 1
    ensures StatusesHold(iso, data, ws, statuses, frameworks) <==>
            StatusesHold(iso, data, ws, statuses, frameworks[..n]) && HoldsAt(iso, data, ws, statuses, frameworks, n)
  {
    forall i | 0 <= i < n
      ensures HoldsAt(iso, data, ws, statuses, frameworks[..n], i) == HoldsAt(iso, data, ws, statuses, frameworks, i)
    {
      HoldsAtBefore(iso, data, ws, statuses, frameworks, n, i);
    }
  }

  lemma StatusSet(iso: IsoReader, data: Data, before: State, ws: Row, f: Enabled)
    ensures StatusIs(iso, data, ws, EvaluateFramework(iso, data, before, ws, f.fw, f.controls).statuses, f)
  {}

  lemma StatusKept(iso: IsoReader, data: Data, before: State, ws: Row, f: Enabled, g: Enabled)
    requires g.fw != f.fw && StatusIs(iso, data, ws, before.statuses, g)
    ensures StatusIs(iso, data, ws, EvaluateFramework(iso, data, before, ws, f.fw, f.controls).statuses, g)
  {}

  /** Evaluating one more framework sets its status and leaves the others. */
  lemma OneMoreHolds(iso: IsoReader, data: Data, before: State, ws: Row, frameworks: seq<Enabled>, f: Enabled)
    requires StatusesHold(iso, data, ws, before.statuses, frameworks)
    requires forall i :: 0 <= i < |frameworks| ==> frameworks[i].fw != f.fw
    ensures var after := EvaluateFramework(iso, data, before, ws, f.fw, f.controls);
            StatusesHold(iso, data, ws, after.statuses, frameworks) && StatusIs(iso, data, ws, after.statuses, f)
  {
    StatusSet(iso, data, before, ws, f);
    forall i | 0 <= i < |frameworks|
      ensures HoldsAt(iso, data, ws, EvaluateFramework(iso, data, before, ws, f.fw, f.controls).statuses, frameworks, i)
    {
      assert HoldsAt(iso, data, ws, before.statuses, frameworks, i);
      if Runs(iso, data, ws, frameworks, i) {
        StatusKept(iso, data, before, ws, f, frameworks[i]);
      }
    }
  }

  lemma {:induction false} StatusesLeft(iso: IsoReader, data: Data, s: State, ws: Row, frameworks: seq<Enabled>)
    requires DistinctFrameworks(frameworks)
    ensures StatusesHold(iso, data, ws, EvaluateEnabled(iso, data, s, ws, frameworks).0.statuses, frameworks)
    decreases |frameworks|
  {
    if frameworks != [] {
      var n := |frameworks| - 1;
      StatusesLeft(iso, data, s, ws, frameworks[..n]);
      EnabledEffects(iso, data, s, ws, frameworks[..n]);
      HoldBefore(iso, data, ws, EvaluateEnabled(iso, data, s, ws, frameworks).0.statuses, frameworks, n);
      OneMoreHolds(iso, data, EvaluateEnabled(iso, data, s, ws, frameworks[..n]).0, ws, frameworks[..n], frameworks[n]);
    }
  }

  lemma {:induction false} StatusesStay(iso: IsoReader, data: Data, s: State, ws: Row, frameworks: seq<Enabled>)
    requires StatusesHold(iso, data, ws, s.statuses, frameworks)
    ensures EvaluateEnabled(iso, data, s, ws, frameworks).0.statuses == s.statuses
    decreases |frameworks|
  {
    if frameworks != [] {
      var n := |frameworks| - 1;
      HoldBefore(iso, data, ws, s.statuses, frameworks, n);
      StatusesStay(iso, data, s, ws, frameworks[..n]);
      EnabledEffects(iso, data, s, ws, frameworks[..n]);
    }
  }

  /**
   Repeating a request over an unchanged record changes nothing, however many frameworks are enabled,
   wherever a rule raises, and whether the raise is rolled back or committed.
   */
  lemma {:induction false} RequestIsIdempotent(iso: IsoReader, s: State, r: Request)
    requires DistinctFrameworks(r.frameworks)
    ensures Handle(iso, Handle(iso, s, r), r) == Handle(iso, s, r)
  {
    var e := EffectsOf(iso, r.data, r.ws, r.frameworks);
    var once := EvaluateEnabled(iso, r.data, s, r.ws, r.frameworks).0;
    EnabledEffects(iso, r.data, s, r.ws, r.frameworks);
    EnabledEffects(iso, r.data, once, r.ws, r.frameworks);
    EffectsDistinct(iso, r.data, r.ws, r.frameworks);
    MeetAllSettles(s.alerts, e.demands);
    SettledMeansFixed(once.alerts, e.demands);
    UpsertAllIdempotent(s.evidence, e.writes);
    StatusesLeft(iso, r.data, s, r.ws, r.frameworks);
    StatusesStay(iso, r.data, once, r.ws, r.frameworks);
    assert EvaluateEnabled(iso, r.data, once, r.ws, r.frameworks).0 == once;
  }

  /** An evaluation leaves the alerts of other workspaces and frameworks as they were. */
  lemma OtherAlertsUntouched(iso: IsoReader, data: Data, s: State, ws: Row, fw: string, controls: seq<Control>,
      key: AlertKey)
    requires key.workspace != ws.id || key.framework != fw
    ensures IsOpen(EvaluateFramework(iso, data, s, ws, fw, controls).alerts, key) == IsOpen(s.alerts, key)
  {
    var e := EvaluateControls(iso, data, ws, fw, controls);
    forall i | 0 <= i < |e.demands|
      ensures e.demands[i].key != key
    {
      DemandKey(iso, data, ws, fw, controls, i);
    }
    MeetAllLeaves(s.alerts, e.demands, key);
  }
}
