/** Which evidence an evaluation writes, said about the record and the rules. */
module Collecting {
  import opened Compliance
  import opened Predicates
  import opened Reconciliation
  import opened Record
  import opened Wrappers

  predicate IsWritten(writes: seq<Write>, key: EvidenceKey) {
    exists i :: 0 <= i < |writes| && writes[i].key == key
  }

  lemma WrittenConcat(first: seq<Write>, second: seq<Write>, key: EvidenceKey)
    ensures IsWritten(first + second, key) <==> IsWritten(first, key) || IsWritten(second, key)
  {
    var all := first + second;
    if i :| 0 <= i < |first| && first[i].key == key {
      assert all[i].key == key;
    }
    if i :| 0 <= i < |second| && second[i].key == key {
      assert all[|first| + i].key == key;
    }
  }

  // --- rows ------------------------------------------------------------------------------------

  /** The row passes, and the predicate raises on none of the rows before it. */
  predicate RowPasses(iso: IsoReader, rule: Rule, cs: seq<Candidate>, i: nat)
    requires i < |cs|
  {
    Judge(iso, rule, cs[i].m) == Some(Passes) && !RowRaises(iso, rule, cs[..i])
  }

  predicate PassesOn(iso: IsoReader, rule: Rule, cs: seq<Candidate>, id: string) {
    exists i :: 0 <= i < |cs| && cs[i].target.id == id && RowPasses(iso, rule, cs, i)
  }

  lemma RowPassesBefore(iso: IsoReader, rule: Rule, cs: seq<Candidate>, n: nat, i: nat)
    requires i < n <= |cs|
    ensures RowPasses(iso, rule, cs[..n], i) <==> RowPasses(iso, rule, cs, i)
  {
    assert cs[..n][..i] == cs[..i];
  }

  lemma LastRowPasses(iso: IsoReader, rule: Rule, cs: seq<Candidate>, n: nat, id: string)
    requires |cs| == n + 1
    ensures PassesOn(iso, rule, cs, id) <==>
            PassesOn(iso, rule, cs[..n], id) || (cs[n].target.id == id && RowPasses(iso, rule, cs, n))
  {
    if i :| 0 <= i < n && cs[..n][i].target.id == id && RowPasses(iso, rule, cs[..n], i) {
      RowPassesBefore(iso, rule, cs, n, i);
      assert cs[i].target.id == id;
    }
    if i :| 0 <= i < |cs| && cs[i].target.id == id && RowPasses(iso, rule, cs, i) {
      if i < n {
        RowPassesBefore(iso, rule, cs, n, i);
        assert cs[..n][i].target.id == id;
      }
    }
  }

  lemma {:induction false} ScanWritesIff(iso: IsoReader, ws: Row, control: Control, rule: Rule, cs: seq<Candidate>,
      key: EvidenceKey)
    ensures IsWritten(ScanAll(iso, ws, control, rule, cs).writes, key) <==>
            key.control == control.id && key.rule == rule.id && PassesOn(iso, rule, cs, key.ref)
    decreases |cs|
  {
    if cs != [] {
      var n := |cs| - 1;
      var before := ScanAll(iso, ws, control, rule, cs[..n]);
      ScanWritesIff(iso, ws, control, rule, cs[..n], key);
      ScanRaisesIff(iso, ws, control, rule, cs[..n]);
      LastRowPasses(iso, rule, cs, n, key.ref);
      var w := WriteFor(ws, control, rule, cs[n]);
      WrittenConcat(before.writes, [w], key);
      assert [w][0] == w;
    }
  }

  // --- rules -----------------------------------------------------------------------------------

  /** The rule passes on a row about the record, before anything of its control raises. */
  predicate RuleCollects(iso: IsoReader, data: Data, ws: Row, rules: seq<Rule>, i: nat, id: string)
    requires i < |rules|
  {
    && !AnyRuleRaises(iso, data, ws, rules[..i])
    && Candidates(data, ws, rules[i].source).Some?
    && PassesOn(iso, rules[i], Candidates(data, ws, rules[i].source).value, id)
  }

  predicate SomeRuleCollects(iso: IsoReader, data: Data, ws: Row, rules: seq<Rule>, ruleId: string, id: string) {
    exists i :: 0 <= i < |rules| && rules[i].id == ruleId && RuleCollects(iso, data, ws, rules, i, id)
  }

  lemma RuleCollectsBefore(iso: IsoReader, data: Data, ws: Row, rules: seq<Rule>, n: nat, i: nat, id: string)
    requires i < n <= |rules|
    ensures RuleCollects(iso, data, ws, rules[..n], i, id) <==> RuleCollects(iso, data, ws, rules, i, id)
  {
    assert rules[..n][..i] == rules[..i];
  }

  lemma LastRuleCollects(iso: IsoReader, data: Data, ws: Row, rules: seq<Rule>, n: nat, ruleId: string, id: string)
    requires |rules| == n + 1
    ensures SomeRuleCollects(iso, data, ws, rules, ruleId, id) <==>
            SomeRuleCollects(iso, data, ws, rules[..n], ruleId, id) ||
            (rules[n].id == ruleId && RuleCollects(iso, data, ws, rules, n, id))
  {
    if i :| 0 <= i < n && rules[..n][i].id == ruleId && RuleCollects(iso, data, ws, rules[..n], i, id) {
      RuleCollectsBefore(iso, data, ws, rules, n, i, id);
      assert rules[i].id == ruleId;
    }
    if i :| 0 <= i < |rules| && rules[i].id == ruleId && RuleCollects(iso, data, ws, rules, i, id) {
      if i < n {
        RuleCollectsBefore(iso, data, ws, rules, n, i, id);
        assert rules[..n][i].id == ruleId;
      }
    }
  }

  lemma RuleWritesIff(iso: IsoReader, data: Data, ws: Row, control: Control, rule: Rule, key: EvidenceKey)
    ensures IsWritten(ScanRule(iso, data, ws, control, rule).writes, key) <==>
            && key.control == control.id && key.rule == rule.id && Candidates(data, ws, rule.source).Some?
            && PassesOn(iso, rule, Candidates(data, ws, rule.source).value, key.ref)
  {
    if Candidates(data, ws, rule.source).Some? {
      ScanWritesIff(iso, ws, control, rule, Candidates(data, ws, rule.source).value, key);
    }
  }

  lemma {:induction false} RulesWriteIff(iso: IsoReader, data: Data, ws: Row, control: Control, rules: seq<Rule>,
      key: EvidenceKey)
    ensures IsWritten(ScanRules(iso, data, ws, control, rules).writes, key) <==>
            key.control == control.id && SomeRuleCollects(iso, data, ws, rules, key.rule, key.ref)
    decreases |rules|
  {
    if rules != [] {
      var n := |rules| - 1;
      var before := ScanRules(iso, data, ws, control, rules[..n]);
      RulesWriteIff(iso, data, ws, control, rules[..n], key);
      RulesRaiseIff(iso, data, ws, control, rules[..n]);
      RuleWritesIff(iso, data, ws, control, rules[n], key);
      LastRuleCollects(iso, data, ws, rules, n, key.rule, key.ref);
      WrittenConcat(before.writes, ScanRule(iso, data, ws, control, rules[n]).writes, key);
    }
  }

  // --- controls --------------------------------------------------------------------------------

  /** A rule of the control collects under the key, before any control raises. */
  predicate ControlCollects(iso: IsoReader, data: Data, ws: Row, controls: seq<Control>, i: nat, key: EvidenceKey)
    requires i < |controls|
  {
    && controls[i].id == key.control && !SomeControlRaises(iso, data, ws, controls[..i])
    && SomeRuleCollects(iso, data, ws, controls[i].rules, key.rule, key.ref)
  }

  /** A rule with the key's ids passes on a row about the key's record, before anything raises. */
  predicate Collects(iso: IsoReader, data: Data, ws: Row, controls: seq<Control>, key: EvidenceKey) {
    exists i :: 0 <= i < |controls| && ControlCollects(iso, data, ws, controls, i, key)
  }

  lemma ControlCollectsBefore(iso: IsoReader, data: Data, ws: Row, controls: seq<Control>, n: nat, i: nat,
      key: EvidenceKey)
    requires i < n <= |controls|
    ensures ControlCollects(iso, data, ws, controls[..n], i, key) <==> ControlCollects(iso, data, ws, controls, i, key)
  {
    assert controls[..n][..i] == controls[..i];
  }

  lemma LastControlCollects(iso: IsoReader, data: Data, ws: Row, controls: seq<Control>, n: nat, key: EvidenceKey)
    requires |controls| == n + 1
    ensures Collects(iso, data, ws, controls, key) <==>
            Collects(iso, data, ws, controls[..n], key) || ControlCollects(iso, data, ws, controls, n, key)
  {
    if i :| 0 <= i < n && ControlCollects(iso, data, ws, controls[..n], i, key) {
      ControlCollectsBefore(iso, data, ws, controls, n, i, key);
    }
    if i :| 0 <= i < |controls| && ControlCollects(iso, data, ws, controls, i, key) {
      if i < n {
        ControlCollectsBefore(iso, data, ws, controls, n, i, key);
      }
    }
  }

  /** An evaluation writes evidence under a key exactly when a rule with its ids collects its record. */
  lemma {:induction false} WrittenIff(iso: IsoReader, data: Data, ws: Row, fw: string, controls: seq<Control>,
      key: EvidenceKey)
    ensures IsWritten(EvaluateControls(iso, data, ws, fw, controls).writes, key) <==>
            Collects(iso, data, ws, controls, key)
    decreases |controls|
  {
    if controls != [] {
      var n := |controls| - 1;
      var before := EvaluateControls(iso, data, ws, fw, controls[..n]);
      WrittenIff(iso, data, ws, fw, controls[..n], key);
      RaisedIff(iso, data, ws, fw, controls[..n]);
      RulesWriteIff(iso, data, ws, controls[n], controls[n].rules, key);
      LastControlCollects(iso, data, ws, controls, n, key);
      WrittenConcat(before.writes, ScanRules(iso, data, ws, controls[n], controls[n].rules).writes, key);
    }
  }
}
