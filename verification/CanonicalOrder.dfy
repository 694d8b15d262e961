/** Canonical JSON identifies values up to the insertion order of their dicts, and no further. */
module CanonicalOrder {
  import opened CanonicalJson
  import opened Sorting

  /** Keys occur once in every dict, as in any Python dict. */
  predicate DistinctKeys(fields: seq<Field>) {
    forall i, j :: 0 <= i < j < |fields| ==> fields[i].key != fields[j].key
  }

  predicate WellFormed(j: Json) {
    match j
    case JArray(items) => forall i :: 0 <= i < |items| ==> WellFormed(items[i])
    case JObject(fields) => DistinctKeys(fields) && forall i :: 0 <= i < |fields| ==> WellFormed(fields[i].value)
    case _ => true
  }

  /** Equal as Python values: lists position by position, dicts key by key in any order. */
  ghost predicate Same(a: Json, b: Json)
    decreases a
  {
    match (a, b)
    case (JArray(xs), JArray(ys)) => |xs| == |ys| && forall i :: 0 <= i < |xs| ==> Same(xs[i], ys[i])
    case (JObject(xs), JObject(ys)) =>
      && (forall i :: 0 <= i < |xs| ==> Ahead(xs[i], ys))
      && (forall j :: 0 <= j < |ys| ==> Back(xs, ys[j]))
    case _ => a == b
  }

  /** ys holds f's key, with the same value. */
  ghost predicate Ahead(f: Field, ys: seq<Field>)
    decreases f
  {
    exists j :: 0 <= j < |ys| && f.key == ys[j].key && Same(f.value, ys[j].value)
  }

  /** xs holds g's key, with the same value. */
  ghost predicate Back(xs: seq<Field>, g: Field)
    decreases xs
  {
    exists i :: 0 <= i < |xs| && xs[i].key == g.key && Same(xs[i].value, g.value)
  }

  lemma FieldOrder()
    ensures WeakOrder(FieldLess)
  {
    forall f, g | FieldLess(f, g)
      ensures !FieldLess(g, f)
    {
      KeyLessTotal(f.key, g.key);
    }
    forall e, f, g | FieldLess(e, g)
      ensures FieldLess(e, f) || FieldLess(f, g)
    {
      KeyLessTotal(e.key, f.key);
      KeyLessTotal(f.key, g.key);
      if KeyLess(f.key, e.key) && KeyLess(e.key, g.key) {
        KeyLessTransitive(f.key, e.key, g.key);
      }
    }
  }

  lemma FieldsSorted(fields: seq<Field>)
    requires DistinctKeys(fields)
    ensures StrictlySorted(SortFields(fields), FieldLess)
    ensures forall f :: f in SortFields(fields) <==> f in fields
  {
    FieldOrder();
    forall i, j | 0 <= i < j < |fields|
      ensures FieldLess(fields[i], fields[j]) || FieldLess(fields[j], fields[i])
    {
      KeyLessTotal(fields[i].key, fields[j].key);
    }
    SortStrict(fields, FieldLess);
    SortElements(fields, FieldLess);
  }

  /** SortKeys only rewrites the values of a dict's entries; it keeps every key. */
  lemma {:induction false} SortedEntries(fields: seq<Field>)
    requires DistinctKeys(fields)
    ensures StrictlySorted(SortFields(SortKeysFields(fields)), FieldLess)
    ensures forall h :: h in SortFields(SortKeysFields(fields)) <==>
              exists i :: 0 <= i < |fields| && h == Field(fields[i].key, SortKeys(fields[i].value))
  {
    FieldsSorted(SortKeysFields(fields));
  }

  lemma {:induction false} SortedEqualMeansSame(a: Json, b: Json)
    requires WellFormed(a) && WellFormed(b) && SortKeys(a) == SortKeys(b)
    ensures Same(a, b)
    decreases a
  {
    match (a, b) {
      case (JArray(xs), JArray(ys)) =>
        forall i | 0 <= i < |xs|
          ensures Same(xs[i], ys[i])
        {
          SortedEqualMeansSame(xs[i], ys[i]);
        }
      case (JObject(xs), JObject(ys)) =>
        forall i | 0 <= i < |xs|
          ensures Ahead(xs[i], ys)
        {
          SortedEqualAhead(xs, ys, i);
        }
        forall j | 0 <= j < |ys|
          ensures Back(xs, ys[j])
        {
          SortedEqualBack(xs, ys, j);
        }
      case _ =>
    }
  }

  lemma {:induction false} SortedEqualAhead(xs: seq<Field>, ys: seq<Field>, i: nat)
    requires WellFormed(JObject(xs)) && WellFormed(JObject(ys)) && i < |xs|
    requires SortFields(SortKeysFields(xs)) == SortFields(SortKeysFields(ys))
    ensures Ahead(xs[i], ys)
    decreases xs, 0
  {
    SortedEntries(xs);
    SortedEntries(ys);
    var h := Field(xs[i].key, SortKeys(xs[i].value));
    assert h in SortFields(SortKeysFields(ys));
    var j :| 0 <= j < |ys| && h == Field(ys[j].key, SortKeys(ys[j].value));
    SortedEqualMeansSame(xs[i].value, ys[j].value);
  }

  lemma {:induction false} SortedEqualBack(xs: seq<Field>, ys: seq<Field>, j: nat)
    requires WellFormed(JObject(xs)) && WellFormed(JObject(ys)) && j < |ys|
    requires SortFields(SortKeysFields(xs)) == SortFields(SortKeysFields(ys))
    ensures Back(xs, ys[j])
    decreases xs, 0
  {
    SortedEntries(xs);
    SortedEntries(ys);
    var h := Field(ys[j].key, SortKeys(ys[j].value));
    assert h in SortFields(SortKeysFields(xs));
    var i :| 0 <= i < |xs| && h == Field(xs[i].key, SortKeys(xs[i].value));
    SortedEqualMeansSame(xs[i].value, ys[j].value);
  }

  lemma {:induction false} SameMeansSortedEqual(a: Json, b: Json)
    requires WellFormed(a) && WellFormed(b) && Same(a, b)
    ensures SortKeys(a) == SortKeys(b)
    decreases a
  {
    match (a, b) {
      case (JArray(xs), JArray(ys)) =>
        forall i | 0 <= i < |xs|
          ensures SortKeys(xs[i]) == SortKeys(ys[i])
        {
          SameMeansSortedEqual(xs[i], ys[i]);
        }
        assert SortKeysItems(xs) == SortKeysItems(ys);
      case (JObject(xs), JObject(ys)) => SameObjects(xs, ys);
      case _ =>
    }
  }

  lemma {:induction false} SameObjects(xs: seq<Field>, ys: seq<Field>)
    requires WellFormed(JObject(xs)) && WellFormed(JObject(ys)) && Same(JObject(xs), JObject(ys))
    ensures SortFields(SortKeysFields(xs)) == SortFields(SortKeysFields(ys))
    decreases xs, 1
  {
    var sx, sy := SortFields(SortKeysFields(xs)), SortFields(SortKeysFields(ys));
    SortedEntries(xs);
    SortedEntries(ys);
    forall h | h in sx
      ensures h in sy
    {
      var i :| 0 <= i < |xs| && h == Field(xs[i].key, SortKeys(xs[i].value));
      var j := EntryAhead(xs, ys, i);
      assert h == Field(ys[j].key, SortKeys(ys[j].value));
    }
    forall h | h in sy
      ensures h in sx
    {
      var j :| 0 <= j < |ys| && h == Field(ys[j].key, SortKeys(ys[j].value));
      var i := EntryBack(xs, ys, j);
      assert h == Field(xs[i].key, SortKeys(xs[i].value));
    }
    FieldOrder();
    StrictUnique(sx, sy, FieldLess);
  }

  lemma {:induction false} EntryAhead(xs: seq<Field>, ys: seq<Field>, i: nat) returns (j: nat)
    requires WellFormed(JObject(xs)) && WellFormed(JObject(ys)) && Same(JObject(xs), JObject(ys)) && i < |xs|
    ensures j < |ys| && xs[i].key == ys[j].key && SortKeys(xs[i].value) == SortKeys(ys[j].value)
    decreases xs, 0
  {
    j :| 0 <= j < |ys| && xs[i].key == ys[j].key && Same(xs[i].value, ys[j].value);
    SameMeansSortedEqual(xs[i].value, ys[j].value);
  }

  lemma {:induction false} EntryBack(xs: seq<Field>, ys: seq<Field>, j: nat) returns (i: nat)
    requires WellFormed(JObject(xs)) && WellFormed(JObject(ys)) && Same(JObject(xs), JObject(ys)) && j < |ys|
    ensures i < |xs| && xs[i].key == ys[j].key && SortKeys(xs[i].value) == SortKeys(ys[j].value)
    decreases xs, 0
  {
    i :| 0 <= i < |xs| && xs[i].key == ys[j].key && Same(xs[i].value, ys[j].value);
    SameMeansSortedEqual(xs[i].value, ys[j].value);
  }

  /**
   Canonical JSON is unambiguous: two values have the same canonical text exactly when they
   are equal up to the insertion order of their dicts.
   */
  lemma {:induction false} CanonicalUnambiguous(a: Json, b: Json)
    requires WellFormed(a) && WellFormed(b)
    ensures Canonical(a) == Canonical(b) <==> Same(a, b)
  {
    if Canonical(a) == Canonical(b) {
      TextUnique(SortKeys(a), "", SortKeys(b), "");
      SortedEqualMeansSame(a, b);
    }
    if Same(a, b) {
      SameMeansSortedEqual(a, b);
    }
  }

  // --- from Python values ------------------------------------------------------------------

  predicate DictsWellFormed(v: Value) {
    match v
    case PyList(items) => forall i :: 0 <= i < |items| ==> DictsWellFormed(items[i])
    case PyDict(entries) =>
      && (forall i, j :: 0 <= i < j < |entries| ==> entries[i].key != entries[j].key)
      && forall i :: 0 <= i < |entries| ==> DictsWellFormed(entries[i].value)
    case _ => true
  }

  lemma {:induction false} NormalizeWellFormed(repr12: real -> FloatText, v: Value)
    requires DictsWellFormed(v)
    ensures WellFormed(Normalize(repr12, v))
    decreases v
  {
    match v
    case PyList(items) =>
      forall i | 0 <= i < |items|
        ensures WellFormed(NormalizeItems(repr12, items)[i])
      {
        NormalizeItemsAt(repr12, items, i);
        NormalizeWellFormed(repr12, items[i]);
      }
    case PyDict(entries) =>
      forall i | 0 <= i < |entries|
        ensures WellFormed(NormalizeEntries(repr12, entries)[i].value)
      {
        NormalizeEntriesAt(repr12, entries, i);
        NormalizeWellFormed(repr12, entries[i].value);
      }
    case _ =>
  }

  lemma {:induction false} NormalizeItemsAt(repr12: real -> FloatText, items: seq<Value>, i: nat)
    requires i < |items|
    ensures NormalizeItems(repr12, items)[i] == Normalize(repr12, items[i])
  {
    if i > 0 {
      NormalizeItemsAt(repr12, items[1..], i - 1);
    }
  }

  lemma {:induction false} NormalizeEntriesAt(repr12: real -> FloatText, entries: seq<Entry>, i: nat)
    requires i < |entries|
    ensures NormalizeEntries(repr12, entries)[i].value == Normalize(repr12, entries[i].value)
  {
    if i > 0 {
      NormalizeEntriesAt(repr12, entries[1..], i - 1);
    }
  }

  /** canonical_bytes(v), before UTF-8 encoding. */
  function CanonicalText(repr12: real -> FloatText, v: Value): string {
    Canonical(Normalize(repr12, v))
  }

  /** Equal canonical text means equal normalised values, and conversely, for all Python values. */
  lemma {:induction false} CanonicalTextUnambiguous(repr12: real -> FloatText, v: Value, w: Value)
    requires DictsWellFormed(v) && DictsWellFormed(w)
    ensures CanonicalText(repr12, v) == CanonicalText(repr12, w) <==> Same(Normalize(repr12, v), Normalize(repr12, w))
  {
    NormalizeWellFormed(repr12, v);
    NormalizeWellFormed(repr12, w);
    CanonicalUnambiguous(Normalize(repr12, v), Normalize(repr12, w));
  }

  /** Dicts that differ only in insertion order have the same canonical text. */
  lemma InsertionOrderIgnored(repr12: real -> FloatText, x: seq<Entry>, y: seq<Entry>)
    requires DictsWellFormed(PyDict(x)) && DictsWellFormed(PyDict(y)) && multiset(x) == multiset(y)
    ensures CanonicalText(repr12, PyDict(x)) == CanonicalText(repr12, PyDict(y))
  {
    NormalizeWellFormed(repr12, PyDict(x));
    NormalizeWellFormed(repr12, PyDict(y));
    EntriesFound(repr12, x, y);
    EntriesFound(repr12, y, x);
    var fx, fy := NormalizeEntries(repr12, x), NormalizeEntries(repr12, y);
    forall i | 0 <= i < |fx|
      ensures Same(fx[i].value, fx[i].value)
    {
      SameReflexive(fx[i].value);
    }
    SameEntries(fx, fy);
    CanonicalUnambiguous(JObject(fx), JObject(fy));
  }

  lemma SameEntries(fx: seq<Field>, fy: seq<Field>)
    requires forall i :: 0 <= i < |fx| ==> Same(fx[i].value, fx[i].value)
    requires forall f :: f in fx <==> f in fy
    ensures Same(JObject(fx), JObject(fy))
  {
    forall i | 0 <= i < |fx|
      ensures Ahead(fx[i], fy)
    {
      assert fx[i] in fy;
      var j :| 0 <= j < |fy| && fy[j] == fx[i];
    }
    forall j | 0 <= j < |fy|
      ensures Back(fx, fy[j])
    {
      assert fy[j] in fx;
      var i :| 0 <= i < |fx| && fy[j] == fx[i];
    }
  }

  lemma {:induction false} EntriesFound(repr12: real -> FloatText, x: seq<Entry>, y: seq<Entry>)
    requires multiset(x) == multiset(y)
    ensures forall f :: f in NormalizeEntries(repr12, x) ==> f in NormalizeEntries(repr12, y)
  {
    var fx, fy := NormalizeEntries(repr12, x), NormalizeEntries(repr12, y);
    forall i | 0 <= i < |fx|
      ensures fx[i] in fy
    {
      assert x[i] in multiset(x);
      assert x[i] in multiset(y);
      var j :| 0 <= j < |y| && y[j] == x[i];
      NormalizeEntriesAt(repr12, x, i);
      NormalizeEntriesAt(repr12, y, j);
      assert fy[j] == fx[i];
    }
  }

  lemma {:induction false} SameReflexive(a: Json)
    ensures Same(a, a)
    decreases a
  {
    match a
    case JArray(items) =>
      forall i | 0 <= i < |items|
        ensures Same(items[i], items[i])
      {
        SameReflexive(items[i]);
      }
    case JObject(fields) =>
      forall i | 0 <= i < |fields|
        ensures Ahead(fields[i], fields) && Back(fields, fields[i])
      {
        SameReflexive(fields[i].value);
      }
    case _ =>
  }
}
