/** The run hash: a Merkle root over labelled leaves, and what a verified document commits to. */
module RunIdentity {
  import opened Wrappers
  import opened CanonicalJson
  import opened CanonicalOrder
  import opened Sorting
  import opened Digests
  import opened Merkle

  /** sha256_hex of a JSON value. */
  function Sha(h: Hash, j: Json): Digest {
    h(Canonical(j))
  }

  /** The provenance document, as far as verify_run_hash reads it. */
  datatype Doc = Doc(leaves: seq<Field>, inputsRoot: string, runHash: string)

  /** The canonical text of {k: leaves[k]}. */
  function LabelText(f: Field): string {
    Canonical(JObject([f]))
  }

  /** One text per leaf, in the order sorted(leaves) visits the labels. */
  function LabelTexts(leaves: seq<Field>): (r: seq<string>)
    ensures |r| == |SortFields(leaves)|
  {
    seq(|SortFields(leaves)|, i requires 0 <= i < |SortFields(leaves)| => LabelText(SortFields(leaves)[i]))
  }

  function InputsRoot(h: Hash, leaves: seq<Field>): Digest {
    Root(h, Leaves(h, LabelTexts(leaves)))
  }

  function RootDoc(root: string): Json {
    JObject([Field("inputs_root", JString(root))])
  }

  /** verify_run_hash */
  predicate VerifyRunHash(h: Hash, doc: Doc) {
    var root := InputsRoot(h, doc.leaves);
    root == doc.inputsRoot && Sha(h, RootDoc(root)) == doc.runHash
  }

  // --- compute_run_hash -------------------------------------------------------------------

  datatype RunInputs = RunInputs(
    schemaVersion: string,
    circuit: Digest,
    compilation: Option<Digest>,
    backend: Digest,
    calibration: Digest,
    shots: int,
    seedSimulator: Option<int>,
    seedTranspiler: Option<int>,
    executionParams: Option<seq<Field>>,
    resultCounts: seq<Digest>)

  function OptionalInt(n: Option<int>): Json {
    match n
    case None => JNull
    case Some(k) => JInt(k)
  }

  function ParamsDoc(r: RunInputs): Json {
    JObject(if r.executionParams.Some? then r.executionParams.value else [])
  }

  function ExecutionDoc(r: RunInputs): Json {
    JObject([
      Field("shots", JInt(r.shots)),
      Field("seed_simulator", OptionalInt(r.seedSimulator)),
      Field("seed_transpiler", OptionalInt(r.seedTranspiler)),
      Field("params", ParamsDoc(r))])
  }

  function RunLeaves(h: Hash, r: RunInputs): seq<Field> {
    [Field("schema", JString(r.schemaVersion)),
     Field("circuit", JString(r.circuit)),
     Field("compilation", JString(if r.compilation.Some? then r.compilation.value else "none")),
     Field("backend", JString(r.backend)),
     Field("calibration", JString(r.calibration)),
     Field("execution", JString(Sha(h, ExecutionDoc(r)))),
     Field("results", JString(Root(h, r.resultCounts)))]
  }

  /** compute_run_hash: the leaves, the inputs root and the run hash of a run. */
  function ComputeRunHash(h: Hash, r: RunInputs): Doc {
    var leaves := RunLeaves(h, r);
    var root := InputsRoot(h, leaves);
    Doc(leaves, root, Sha(h, RootDoc(root)))
  }

  /** Every computed document verifies. */
  lemma ComputedVerifies(h: Hash, r: RunInputs)
    ensures VerifyRunHash(h, ComputeRunHash(h, r))
  {
  }

  /** A single result hash is its own Merkle root, so it is the results leaf. */
  lemma ResultLeaf(h: Hash, r: RunInputs)
    ensures |r.resultCounts| == 1 ==> Field("results", JString(r.resultCounts[0])) in RunLeaves(h, r)
  {
    var leaf := Field("results", JString(Root(h, r.resultCounts)));
    assert RunLeaves(h, r)[6] == leaf;
  }

  // --- what a verified document commits to ------------------------------------------------

  /** Every text hashed while verifying a document. */
  ghost function DocTexts(h: Hash, doc: Doc): set<string> {
    {Canonical(RootDoc(InputsRoot(h, doc.leaves)))} + AllTexts(h, LabelTexts(doc.leaves))
  }

  /** A label's text starts with a brace, and determines the label and its value. */
  lemma LabelTextUnique(f: Field, g: Field)
    ensures LabelText(f) != "" && LabelText(f)[0] == '{'
    ensures LabelText(f) == LabelText(g) ==> f.key == g.key && SortKeys(f.value) == SortKeys(g.value)
  {
    var x, y := SortKeys(JObject([f])), SortKeys(JObject([g]));
    SortSingle(f);
    SortSingle(g);
    FirstCharacter(x);
    if LabelText(f) == LabelText(g) {
      TextUnique(x, "", y, "");
    }
  }

  lemma SortSingle(f: Field)
    ensures SortKeys(JObject([f])) == JObject([Field(f.key, SortKeys(f.value))])
  {
    assert SortKeysFields([f]) == [Field(f.key, SortKeys(f.value))] + SortKeysFields([]);
    var g := Field(f.key, SortKeys(f.value));
    assert SortFields([g]) == [g];
  }

  lemma LabelsAreLeafTexts(leaves: seq<Field>)
    requires DistinctKeys(leaves)
    ensures LeafTexts(LabelTexts(leaves)) && Distinct(LabelTexts(leaves))
  {
    var sorted, texts := SortFields(leaves), LabelTexts(leaves);
    FieldsSorted(leaves);
    forall i | 0 <= i < |texts|
      ensures !IsNodeText(texts[i]) && texts[i] != EMPTY
    {
      LabelTextUnique(sorted[i], sorted[i]);
    }
    forall i, j | 0 <= i < j < |texts|
      ensures texts[i] != texts[j]
    {
      LabelTextUnique(sorted[i], sorted[j]);
      KeyLessTotal(sorted[i].key, sorted[j].key);
    }
  }

  lemma SameRoots(h: Hash, d: Doc, e: Doc)
    requires VerifyRunHash(h, d) && VerifyRunHash(h, e) && d.runHash == e.runHash
    requires NoCollision(h, DocTexts(h, d) + DocTexts(h, e))
    ensures InputsRoot(h, d.leaves) == InputsRoot(h, e.leaves)
  {
    var x, y := InputsRoot(h, d.leaves), InputsRoot(h, e.leaves);
    Separate(h, DocTexts(h, d) + DocTexts(h, e), Canonical(RootDoc(x)), Canonical(RootDoc(y)));
    LabelTextUnique(Field("inputs_root", JString(x)), Field("inputs_root", JString(y)));
  }

  lemma SameLabels(h: Hash, d: Doc, e: Doc)
    requires VerifyRunHash(h, d) && VerifyRunHash(h, e) && d.runHash == e.runHash
    requires DistinctKeys(d.leaves) && DistinctKeys(e.leaves)
    requires NoCollision(h, DocTexts(h, d) + DocTexts(h, e))
    ensures LabelTexts(d.leaves) == LabelTexts(e.leaves)
  {
    SameRoots(h, d, e);
    LabelsAreLeafTexts(d.leaves);
    LabelsAreLeafTexts(e.leaves);
    NoCollisionOnFewer(h, DocTexts(h, d) + DocTexts(h, e),
                       AllTexts(h, LabelTexts(d.leaves)) + AllTexts(h, LabelTexts(e.leaves)));
    RootBinds(h, LabelTexts(d.leaves), LabelTexts(e.leaves));
  }

  lemma FieldCarriesOver(x: seq<Field>, y: seq<Field>, f: Field) returns (g: Field)
    requires LabelTexts(x) == LabelTexts(y) && f in x
    ensures g in y && f.key == g.key && SortKeys(f.value) == SortKeys(g.value)
  {
    SortElements(x, FieldLess);
    SortElements(y, FieldLess);
    var i :| 0 <= i < |SortFields(x)| && SortFields(x)[i] == f;
    g := SortFields(y)[i];
    assert LabelTexts(x)[i] == LabelText(f) && LabelTexts(y)[i] == LabelText(g);
    LabelTextUnique(f, g);
  }

  /**
   Run-hash binding: two documents of any sizes that both verify under the same run hash
   have the same label -> leaf map, if the texts hashed while verifying them do not collide.
   */
  lemma RunHashBinds(h: Hash, d: Doc, e: Doc)
    requires WellFormed(JObject(d.leaves)) && WellFormed(JObject(e.leaves))
    requires VerifyRunHash(h, d) && VerifyRunHash(h, e) && d.runHash == e.runHash
    requires NoCollision(h, DocTexts(h, d) + DocTexts(h, e))
    ensures Same(JObject(d.leaves), JObject(e.leaves))
  {
    var x, y := d.leaves, e.leaves;
    SameLabels(h, d, e);
    forall i | 0 <= i < |x|
      ensures Ahead(x[i], y)
    {
      var g := FieldCarriesOver(x, y, x[i]);
      var j :| 0 <= j < |y| && y[j] == g;
      SortedEqualMeansSame(x[i].value, y[j].value);
    }
    forall j | 0 <= j < |y|
      ensures Back(x, y[j])
    {
      var f := FieldCarriesOver(y, x, y[j]);
      var i :| 0 <= i < |x| && x[i] == f;
      SortedEqualMeansSame(x[i].value, y[j].value);
    }
  }

  // --- what the run hash of a recorded run commits to -------------------------------------

  lemma RunLabelsDistinct(h: Hash, r: RunInputs)
    ensures DistinctKeys(RunLeaves(h, r))
  {
    assert "circuit"[0] != "schema"[0];
    assert "compilation"[1] != "calibration"[1];
  }

  /** A map's value at a key, compared with the value another map holds at the same key. */
  lemma SameAt(x: seq<Field>, y: seq<Field>, i: nat)
    requires Same(JObject(x), JObject(y)) && DistinctKeys(y) && i < |x| && i < |y| && x[i].key == y[i].key
    ensures Same(x[i].value, y[i].value)
  {
    assert Ahead(x[i], y);
    var j :| 0 <= j < |y| && x[i].key == y[j].key && Same(x[i].value, y[j].value);
  }

  /** Every text hashed while computing and verifying a run's hash, below the result hashes. */
  ghost function RunTexts(h: Hash, r: RunInputs): set<string> {
    DocTexts(h, ComputeRunHash(h, r)) + {Canonical(ExecutionDoc(r))} + Texts(h, r.resultCounts)
  }

  predicate ParamsWellFormed(r: RunInputs) {
    r.executionParams.Some? ==> WellFormed(JObject(r.executionParams.value))
  }

  lemma ExecutionWellFormed(r: RunInputs)
    requires ParamsWellFormed(r)
    ensures WellFormed(ExecutionDoc(r))
  {
    var fields := ExecutionDoc(r).fields;
    assert fields[0].key[0] == 's' && fields[0].key[1] == 'h' && fields[1].key[1] == 'e' && fields[2].key[1] == 'e';
    assert fields[1].key[5] == 's' && fields[2].key[5] == 't' && fields[3].key[0] == 'p';
    assert DistinctKeys(fields);
  }

  /** Lists of string leaves under the same labels, in the same order. */
  ghost predicate SameShape(x: seq<Field>, y: seq<Field>) {
    && |x| == |y|
    && forall i :: 0 <= i < |x| ==> x[i].key == y[i].key && x[i].value.JString? && y[i].value.JString?
  }

  lemma RunLeavesShape(h: Hash, r: RunInputs, s: RunInputs)
    ensures SameShape(RunLeaves(h, r), RunLeaves(h, s))
  {
  }

  lemma ShapeWellFormed(x: seq<Field>, y: seq<Field>)
    requires SameShape(x, y) && DistinctKeys(x) && DistinctKeys(y)
    ensures WellFormed(JObject(x)) && WellFormed(JObject(y))
  {
  }

  lemma SameStrings(x: seq<Field>, y: seq<Field>)
    requires SameShape(x, y) && DistinctKeys(y) && Same(JObject(x), JObject(y))
    ensures x == y
  {
    forall i | 0 <= i < |x|
      ensures x[i] == y[i]
    {
      SameAt(x, y, i);
    }
  }

  /** Verified documents with string leaves under the same labels and the same run hash are the same. */
  lemma SameStringLeaves(h: Hash, d: Doc, e: Doc)
    requires SameShape(d.leaves, e.leaves) && DistinctKeys(d.leaves) && DistinctKeys(e.leaves)
    requires VerifyRunHash(h, d) && VerifyRunHash(h, e) && d.runHash == e.runHash
    requires NoCollision(h, DocTexts(h, d) + DocTexts(h, e))
    ensures d.leaves == e.leaves
  {
    ShapeWellFormed(d.leaves, e.leaves);
    RunHashBinds(h, d, e);
    SameStrings(d.leaves, e.leaves);
  }

  lemma SameRunLeaves(h: Hash, r: RunInputs, s: RunInputs)
    requires ComputeRunHash(h, r).runHash == ComputeRunHash(h, s).runHash
    requires NoCollision(h, RunTexts(h, r) + RunTexts(h, s))
    ensures RunLeaves(h, r) == RunLeaves(h, s)
  {
    var d, e := ComputeRunHash(h, r), ComputeRunHash(h, s);
    RunLabelsDistinct(h, r);
    RunLabelsDistinct(h, s);
    RunLeavesShape(h, r, s);
    ComputedVerifies(h, r);
    ComputedVerifies(h, s);
    NoCollisionOnFewer(h, RunTexts(h, r) + RunTexts(h, s), DocTexts(h, d) + DocTexts(h, e));
    SameStringLeaves(h, d, e);
  }

  lemma SameExecution(h: Hash, r: RunInputs, s: RunInputs)
    requires ParamsWellFormed(r) && ParamsWellFormed(s)
    requires Sha(h, ExecutionDoc(r)) == Sha(h, ExecutionDoc(s))
    requires NoCollision(h, RunTexts(h, r) + RunTexts(h, s))
    ensures r.shots == s.shots && r.seedSimulator == s.seedSimulator && r.seedTranspiler == s.seedTranspiler
    ensures Same(ParamsDoc(r), ParamsDoc(s))
  {
    Separate(h, RunTexts(h, r) + RunTexts(h, s), Canonical(ExecutionDoc(r)), Canonical(ExecutionDoc(s)));
    ExecutionWellFormed(r);
    ExecutionWellFormed(s);
    CanonicalUnambiguous(ExecutionDoc(r), ExecutionDoc(s));
    SameExecutionFields(r, s);
  }

  lemma SameExecutionFields(r: RunInputs, s: RunInputs)
    requires WellFormed(ExecutionDoc(s)) && Same(ExecutionDoc(r), ExecutionDoc(s))
    ensures r.shots == s.shots && r.seedSimulator == s.seedSimulator && r.seedTranspiler == s.seedTranspiler
    ensures Same(ParamsDoc(r), ParamsDoc(s))
  {
    var x, y := ExecutionDoc(r).fields, ExecutionDoc(s).fields;
    SameAt(x, y, 0);
    SameAt(x, y, 1);
    SameAt(x, y, 2);
    SameAt(x, y, 3);
    SameScalars(JInt(r.shots), JInt(s.shots));
    SameScalars(OptionalInt(r.seedSimulator), OptionalInt(s.seedSimulator));
    SameScalars(OptionalInt(r.seedTranspiler), OptionalInt(s.seedTranspiler));
  }

  lemma {:induction false} SameScalars(a: Json, b: Json)
    requires Same(a, b) && !a.JArray? && !a.JObject?
    ensures a == b
  {
  }

  /**
   Recorded runs with the same run hash were made from the same inputs: schema, circuit,
   transpiled circuit, backend, calibration, shots, seeds and execution parameters; and lists of
   result hashes of one length, or at least of one depth at full width, are the same.
   */
  lemma RunHashDeterminesInputs(h: Hash, r: RunInputs, s: RunInputs)
    requires ParamsWellFormed(r) && ParamsWellFormed(s)
    requires ComputeRunHash(h, r).runHash == ComputeRunHash(h, s).runHash
    requires NoCollision(h, RunTexts(h, r) + RunTexts(h, s))
    ensures r.schemaVersion == s.schemaVersion && r.circuit == s.circuit && r.compilation == s.compilation
    ensures r.backend == s.backend && r.calibration == s.calibration
    ensures r.shots == s.shots && r.seedSimulator == s.seedSimulator && r.seedTranspiler == s.seedTranspiler
    ensures Same(ParamsDoc(r), ParamsDoc(s))
    ensures |r.resultCounts| == |s.resultCounts| ==> r.resultCounts == s.resultCounts
    ensures r.resultCounts != [] && s.resultCounts != [] && Depth(|r.resultCounts|) == Depth(|s.resultCounts|) ==>
              FullWidth(r.resultCounts) == FullWidth(s.resultCounts)
  {
    SameRunLeaves(h, r, s);
    RunLeavesInjective(h, r, s);
    SameExecution(h, r, s);
    NoCollisionOnFewer(h, RunTexts(h, r) + RunTexts(h, s), Texts(h, r.resultCounts) + Texts(h, s.resultCounts));
    SameResults(h, r.resultCounts, s.resultCounts);
  }

  lemma {:induction false} SameResults(h: Hash, x: seq<Digest>, y: seq<Digest>)
    requires Root(h, x) == Root(h, y) && NoCollision(h, Texts(h, x) + Texts(h, y))
    ensures |x| == |y| ==> x == y
    ensures x != [] && y != [] && Depth(|x|) == Depth(|y|) ==> FullWidth(x) == FullWidth(y)
  {
    if x != [] && y != [] && Depth(|x|) == Depth(|y|) {
      SameFullWidth(h, x, y);
      EqualDepth(h, x, y);
    }
  }

  lemma RunLeavesInjective(h: Hash, r: RunInputs, s: RunInputs)
    requires RunLeaves(h, r) == RunLeaves(h, s)
    ensures r.schemaVersion == s.schemaVersion && r.circuit == s.circuit && r.compilation == s.compilation
    ensures r.backend == s.backend && r.calibration == s.calibration
    ensures Sha(h, ExecutionDoc(r)) == Sha(h, ExecutionDoc(s))
    ensures Root(h, r.resultCounts) == Root(h, s.resultCounts)
  {
    var x, y := RunLeaves(h, r), RunLeaves(h, s);
    assert |"none"| != 64;
    assert x[0].value == y[0].value && x[1].value == y[1].value && x[2].value == y[2].value;
    assert x[3].value == y[3].value && x[4].value == y[4].value && x[5].value == y[5].value;
    assert x[6].value == y[6].value;
  }
}
