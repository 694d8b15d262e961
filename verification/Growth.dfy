/** Compliance is monotone over the append-only record: a passing rule stays passing as the record grows. */
module Growth {
  import opened Wrappers
  import opened Predicates
  import opened Record
  import opened Compliance

  /** Runs and reproduction events are only appended; cards may change freely. */
  predicate Grows(d: Data, d': Data) {
    d.runs <= d'.runs && d.events <= d'.events
  }

  predicate HasRun(runs: seq<RunRow>, id: string) {
    exists i :: 0 <= i < |runs| && runs[i].row.id == id
  }

  /** The primary key of runs, and the foreign key from a reproduction event to its original run. */
  ghost predicate KeysHold(d: Data) {
    && (forall i, j :: 0 <= i < j < |d.runs| ==> d.runs[i].row.id != d.runs[j].row.id)
    && forall i :: 0 <= i < |d.events| ==> HasRun(d.runs, d.events[i].originalId)
  }

  // --- candidates only grow at their end ---------------------------------------------------

  lemma {:induction false} RunsOfPrefix(runs: seq<RunRow>, more: seq<RunRow>, ws: string)
    ensures RunsOf(runs, ws) <= RunsOf(runs + more, ws)
    decreases |more|
  {
    if more == [] {
      assert runs + more == runs;
    } else {
      assert (runs + more)[..|runs + more| - 1] == runs + more[..|more| - 1];
      RunsOfPrefix(runs, more[..|more| - 1], ws);
    }
  }

  lemma {:induction false} ResultsPrefix(runs: seq<RunRow>, more: seq<RunRow>)
    ensures ResultCandidates(runs) <= ResultCandidates(runs + more)
    decreases |more|
  {
    if more == [] {
      assert runs + more == runs;
    } else {
      assert (runs + more)[..|runs + more| - 1] == runs + more[..|more| - 1];
      ResultsPrefix(runs, more[..|more| - 1]);
    }
  }

  /** Appending runs does not change which workspace an event's original run belongs to. */
  lemma {:induction false} EventsKeepTheirRuns(events: seq<EventRow>, runs: seq<RunRow>, more: seq<RunRow>, ws: string)
    requires KeysHold(Data(runs + more, [], []))
    requires forall i :: 0 <= i < |events| ==> HasRun(runs, events[i].originalId)
    ensures EventsOf(events, runs, ws) == EventsOf(events, runs + more, ws)
    decreases |events|
  {
    if events != [] {
      var last := events[|events| - 1];
      var all := runs + more;
      EventsKeepTheirRuns(events[..|events| - 1], runs, more, ws);
      var k :| 0 <= k < |runs| && runs[k].row.id == last.originalId;
      assert all[k] == runs[k];
      assert forall i :: 0 <= i < |all| && all[i].row.id == last.originalId ==> i == k;
      assert forall i :: 0 <= i < |runs| ==> all[i] == runs[i];
    }
  }

  lemma {:induction false} EventsOfPrefix(events: seq<EventRow>, more: seq<EventRow>, runs: seq<RunRow>, ws: string)
    ensures EventsOf(events, runs, ws) <= EventsOf(events + more, runs, ws)
    decreases |more|
  {
    if more == [] {
      assert events + more == events;
    } else {
      assert (events + more)[..|events + more| - 1] == events + more[..|more| - 1];
      EventsOfPrefix(events, more[..|more| - 1], runs, ws);
    }
  }

  lemma {:induction false} EventsPrefix(d: Data, d': Data, ws: string)
    requires Grows(d, d') && KeysHold(d) && KeysHold(d')
    ensures EventsOf(d.events, d.runs, ws) <= EventsOf(d'.events, d'.runs, ws)
  {
    var moreRuns, moreEvents := d'.runs[|d.runs|..], d'.events[|d.events|..];
    assert d'.runs == d.runs + moreRuns && d'.events == d.events + moreEvents;
    EventsKeepTheirRuns(d.events, d.runs, moreRuns, ws);
    EventsOfPrefix(d.events, moreEvents, d'.runs, ws);
  }

  lemma CandidatesPrefix(d: Data, d': Data, ws: Row, ws': Row, source: string)
    requires Grows(d, d') && KeysHold(d) && KeysHold(d') && ws.id == ws'.id
    requires source in {"run", "result", "reproduction"}
    ensures Candidates(d, ws, source).Some? && Candidates(d', ws', source).Some?
    ensures Candidates(d, ws, source).value <= Candidates(d', ws', source).value
  {
    var moreRuns := d'.runs[|d.runs|..];
    assert d'.runs == d.runs + moreRuns;
    RunsOfPrefix(d.runs, moreRuns, ws.id);
    var rs, rs' := RunsOf(d.runs, ws.id), RunsOf(d'.runs, ws.id);
    if source == "result" {
      assert rs' == rs + rs'[|rs|..];
      ResultsPrefix(rs, rs'[|rs|..]);
    } else if source == "reproduction" {
      EventsPrefix(d, d', ws.id);
    }
  }

  // --- so the passing count never decreases --------------------------------------------------

  /** The workspace row affects only the evidence that is written. */
  lemma {:induction false} ScanForAnyWorkspace(iso: IsoReader, ws: Row, ws': Row, control: Control, rule: Rule,
      cs: seq<Candidate>)
    ensures var s, s' := ScanAll(iso, ws, control, rule, cs), ScanAll(iso, ws', control, rule, cs);
            s.passing == s'.passing && s.drift == s'.drift && s.raised == s'.raised
    decreases |cs|
  {
    if cs != [] {
      ScanForAnyWorkspace(iso, ws, ws', control, rule, cs[..|cs| - 1]);
    }
  }

  lemma {:induction false} ScanMonotone(iso: IsoReader, ws: Row, ws': Row, control: Control, rule: Rule,
      cs: seq<Candidate>, more: seq<Candidate>)
    requires !ScanAll(iso, ws', control, rule, cs + more).raised
    ensures !ScanAll(iso, ws, control, rule, cs).raised
    ensures ScanAll(iso, ws, control, rule, cs).passing <= ScanAll(iso, ws', control, rule, cs + more).passing
    ensures ScanAll(iso, ws, control, rule, cs).drift <= ScanAll(iso, ws', control, rule, cs + more).drift
    decreases |more|
  {
    if more != [] {
      assert (cs + more)[..|cs + more| - 1] == cs + more[..|more| - 1];
      ScanMonotone(iso, ws, ws', control, rule, cs, more[..|more| - 1]);
    } else {
      assert cs + more == cs;
      ScanForAnyWorkspace(iso, ws, ws', control, rule, cs);
    }
  }

  /**
   For rules on run, result or reproduction rows the passing count never decreases as runs and
   reproductions are appended, whatever the wall clock says: a passing rule stays passing, and
   aged rows stay aged.
   */
  lemma RuleMonotone(iso: IsoReader, d: Data, d': Data, ws: Row, ws': Row, control: Control, rule: Rule)
    requires Grows(d, d') && KeysHold(d) && KeysHold(d') && ws.id == ws'.id
    requires rule.source in {"run", "result", "reproduction"}
    requires !ScanRule(iso, d', ws', control, rule).raised
    ensures var before, after := ScanRule(iso, d, ws, control, rule), ScanRule(iso, d', ws', control, rule);
            && !before.raised
            && before.passing <= after.passing
            && before.drift <= after.drift
            && (ResultOf(rule, before).passed ==> ResultOf(rule, after).passed)
  {
    CandidatesPrefix(d, d', ws, ws', rule.source);
    var cs, cs' := Candidates(d, ws, rule.source).value, Candidates(d', ws', rule.source).value;
    assert cs' == cs + cs'[|cs|..];
    ScanMonotone(iso, ws, ws', control, rule, cs, cs'[|cs|..]);
  }

  // --- workspace rules that count reproductions ----------------------------------------------

  /** Every path of the predicate starts at one of the roots, or at an item being counted. */
  predicate RootedAt(pred: Predicate, roots: set<string>) {
    match pred
    case Always => true
    case Exists(alternatives) => forall i :: 0 <= i < |alternatives| ==> alternatives[i][0] in roots
    case NonEmpty(alternatives) => forall i :: 0 <= i < |alternatives| ==> alternatives[i][0] in roots
    case Equals(field, _) => field[0] in roots
    case In(field, _) => field[0] in roots
    case AllPresent(paths) => forall i :: 0 <= i < |paths| ==> paths[i][0] in roots
    case CountWhere(relation, where, _, _) =>
      relation[0] in roots && (where.Some? ==> RootedAt(where.value, roots + {"reproduction", "item"}))
    case Unknown(_) => true
  }

  ghost predicate AgreeOn(m: ObjMap, m': ObjMap, roots: set<string>) {
    forall root :: root in roots ==> Lookup(m, root) == Lookup(m', root)
  }

  lemma {:induction false} AlternationLocal(alternatives: seq<Path>, m: ObjMap, m': ObjMap, roots: set<string>)
    requires AgreeOn(m, m', roots) && forall i :: 0 <= i < |alternatives| ==> alternatives[i][0] in roots
    ensures Alternation(m, alternatives) == Alternation(m', alternatives)
  {
    if alternatives != [] {
      assert Lookup(m, alternatives[0][0]) == Lookup(m', alternatives[0][0]);
      AlternationLocal(alternatives[1..], m, m', roots);
    }
  }

  /** A predicate depends only on the map entries its paths start at. */
  lemma {:induction false} EvalLocal(pred: Predicate, m: ObjMap, m': ObjMap, roots: set<string>)
    requires RootedAt(pred, roots) && AgreeOn(m, m', roots)
    ensures Eval(pred, m) == Eval(pred, m')
    decreases pred, 1, 0
  {
    match pred
    case Exists(alternatives) => AlternationLocal(alternatives, m, m', roots);
    case NonEmpty(alternatives) => AlternationLocal(alternatives, m, m', roots);
    case Equals(field, _) => assert Lookup(m, field[0]) == Lookup(m', field[0]);
    case In(field, _) => assert Lookup(m, field[0]) == Lookup(m', field[0]);
    case AllPresent(paths) =>
      forall i | 0 <= i < |paths|
        ensures Resolve(m, paths[i]) == Resolve(m', paths[i])
      {
        assert Lookup(m, paths[i][0]) == Lookup(m', paths[i][0]);
      }
    case CountWhere(relation, where, _, _) =>
      assert Lookup(m, relation[0]) == Lookup(m', relation[0]);
      var items := Iterate(Resolve(m, relation));
      if items.Some? {
        MatchesLocal(pred, items.value, m, m', roots);
      }
    case _ =>
  }

  lemma {:induction false} MatchesLocal(pred: Predicate, items: seq<Value>, m: ObjMap, m': ObjMap, roots: set<string>)
    requires pred.CountWhere? && AgreeOn(m, m', roots)
    requires pred.where.Some? ==> RootedAt(pred.where.value, roots + {"reproduction", "item"})
    ensures Matches(pred, items, m) == Matches(pred, items, m')
    decreases pred, 0, |items|
  {
    if items != [] {
      var last := |items| - 1;
      MatchesLocal(pred, items[..last], m, m', roots);
      if pred.where.Some? {
        var child, child' := ChildMap(m, items[last]), ChildMap(m', items[last]);
        forall root | root in roots + {"reproduction", "item"}
          ensures Lookup(child, root) == Lookup(child', root)
        {
          assert root in roots ==> Lookup(m, root) == Lookup(m', root);
        }
        EvalLocal(pred.where.value, child, child', roots + {"reproduction", "item"});
      }
    }
  }

  /** A workspace rule that asks for enough reproductions satisfying a condition on each of them. */
  predicate CountsReproductions(rule: Rule) {
    && rule.source == "workspace"
    && rule.pred.CountWhere?
    && rule.pred.relation == ["workspace", "reproduction_events"]
    && rule.pred.op in {">=", ">"}
    && (rule.pred.where.Some? ==> RootedAt(rule.pred.where.value, {"reproduction", "item"}))
    && (rule.freshness.Some? && rule.freshness.value.maxAgeHours.Some? ==>
       rule.freshness.value.maxAgeHours.value >= 0.0)
  }

  lemma ReproductionItems(ws: Row, events: seq<EventRow>)
    ensures Resolve(WorkspaceCandidate(ws, events).m, ["workspace", "reproduction_events"]) ==
            VList(EventValues(events))
  {
    var m := WorkspaceCandidate(ws, events).m;
    var path: Path := ["workspace", "reproduction_events"];
    assert path[1..] == ["reproduction_events"];
    assert Walk(m["workspace"], path[1..]) == Walk(Get(m["workspace"], "reproduction_events"), path[1..][1..]);
    assert path[1..][1..] == [];
  }

  /** Without a calibration in sight the evidence is as old as its own reference instant. */
  lemma WorkspaceNeverAges(iso: IsoReader, f: Freshness, ws: Row, events: seq<EventRow>)
    requires f.maxAgeHours.Some? ==> f.maxAgeHours.value >= 0.0
    ensures Fresh(iso, f, WorkspaceCandidate(ws, events).m)
  {
    var m := WorkspaceCandidate(ws, events).m;
    assert Lookup(m, "calibration") == VNull by {
      assert "calibration"[0] != "workspace"[0] && "calibration"[0] != "target"[0];
    }
  }

  /** A count over more items, in a different map, is defined less often and never smaller. */
  lemma {:induction false} CountGrows(pred: Predicate, items: seq<Value>, items': seq<Value>, m: ObjMap, m': ObjMap)
    requires pred.CountWhere? && items <= items' && Matches(pred, items', m').Some?
    requires pred.where.Some? ==> RootedAt(pred.where.value, {"reproduction", "item"})
    ensures Matches(pred, items, m).Some? && Matches(pred, items, m).value <= Matches(pred, items', m').value
  {
    assert items' == items + items'[|items|..];
    MatchesMonotone(pred, items, items'[|items|..], m');
    assert {} + {"reproduction", "item"} == {"reproduction", "item"};
    MatchesLocal(pred, items, m, m', {});
  }

  /** Such a rule, once it passes, passes for every later record and whatever the workspace row becomes. */
  lemma WorkspaceRuleMonotone(iso: IsoReader, d: Data, d': Data, ws: Row, ws': Row, control: Control, rule: Rule)
    requires Grows(d, d') && KeysHold(d) && KeysHold(d') && ws.id == ws'.id
    requires CountsReproductions(rule)
    requires !ScanRule(iso, d', ws', control, rule).raised
    ensures var before, after := ScanRule(iso, d, ws, control, rule), ScanRule(iso, d', ws', control, rule);
            && !before.raised
            && before.passing <= after.passing
            && (ResultOf(rule, before).passed ==> ResultOf(rule, after).passed)
  {
    var es, es' := EventsOf(d.events, d.runs, ws.id), EventsOf(d'.events, d'.runs, ws.id);
    var c, c' := WorkspaceCandidate(ws, es), WorkspaceCandidate(ws', es');
    EventsPrefix(d, d', ws.id);
    ReproductionItems(ws, es);
    ReproductionItems(ws', es');
    assert EventValues(es) <= EventValues(es');
    SingleScan(iso, ws, control, rule, c);
    SingleScan(iso, ws', control, rule, c');
    CountGrows(rule.pred, EventValues(es), EventValues(es'), c.m, c'.m);
    if rule.freshness.Some? {
      WorkspaceNeverAges(iso, rule.freshness.value, ws, es);
      WorkspaceNeverAges(iso, rule.freshness.value, ws', es');
    }
  }

  lemma {:induction false} SingleScan(iso: IsoReader, ws: Row, control: Control, rule: Rule, c: Candidate)
    ensures ScanAll(iso, ws, control, rule, [c]).raised <==> Judge(iso, rule, c.m).None?
    ensures Judge(iso, rule, c.m).Some? ==>
              ScanAll(iso, ws, control, rule, [c]).passing == if Judge(iso, rule, c.m).value == Passes then 1 else 0
  {
    assert [c][..0] == [];
  }
}
