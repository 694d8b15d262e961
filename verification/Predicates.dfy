/** The evidence-rule predicates: path resolution and a recursive interpreter that may raise. */
module Predicates {
  import opened Wrappers

  /** What a dotted path can reach: JSON values, stored instants (in hours), and rows with attributes. */
  datatype Value =
    | VNull
    | VBool(b: bool)
    | VNum(n: real)
    | VStr(s: string)
    | VTime(t: real)
    | VList(items: seq<Value>)
    | VDict(entries: seq<Attr>)
    | VRow(attrs: seq<Attr>)

  /** A dict entry, in insertion order, or an attribute of a stored row. */
  datatype Attr = Attr(name: string, value: Value)

  /** A dotted path, already split; the first token names the source. */
  type Path = p: seq<string> | p != []
    witness [""]

  type ObjMap = map<string, Value>

  datatype Predicate =
    | Always
    | Exists(alternatives: seq<Path>)
    | NonEmpty(alternatives: seq<Path>)
    | Equals(field: Path, value: Value)
    | In(field: Path, values: seq<Value>)
    | AllPresent(paths: seq<Path>)
    | CountWhere(relation: Path, where: Option<Predicate>, op: string, bound: int)
    | Unknown(op: string)

  // --- paths ---------------------------------------------------------------------------

  function Find(attrs: seq<Attr>, name: string): Value {
    if attrs == [] then VNull
    else if attrs[0].name == name then attrs[0].value
    else Find(attrs[1..], name)
  }

  /** _get */
  function Get(v: Value, attr: string): Value {
    match v
    case VDict(entries) => Find(entries, attr)
    case VRow(attrs) => Find(attrs, attr)
    case _ => VNull
  }

  function Lookup(m: ObjMap, source: string): Value {
    if source in m then m[source] else VNull
  }

  function Walk(v: Value, hops: seq<string>): Value
    decreases |hops|
  {
    if hops == [] then v else Walk(Get(v, hops[0]), hops[1..])
  }

  function Resolve(m: ObjMap, path: Path): Value {
    Walk(Lookup(m, path[0]), path[1..])
  }

  lemma {:induction false} WalkFromNull(hops: seq<string>)
    ensures Walk(VNull, hops) == VNull
  {
    if hops != [] {
      WalkFromNull(hops[1..]);
    }
  }

  /** resolve_path: stops at the first missing hop. */
  method ResolvePath(m: ObjMap, path: Path) returns (value: Value)
    ensures value == Resolve(m, path)
  {
    value := Lookup(m, path[0]);
    for i := 1 to |path|
      invariant Walk(value, path[i..]) == Resolve(m, path)
    {
      assert path[i..][1..] == path[i + 1..];
      value := Get(value, path[i]);
      if value == VNull {
        WalkFromNull(path[i + 1..]);
        return;
      }
    }
  }

  predicate IsEmpty(v: Value) {
    match v
    case VNull => true
    case VStr(s) => s == ""
    case VList(items) => items == []
    case VDict(entries) => entries == []
    case _ => false
  }

  /** The first alternative that resolves to something non-empty. */
  function Alternation(m: ObjMap, alternatives: seq<Path>): Value {
    if alternatives == [] then VNull
    else if !IsEmpty(Resolve(m, alternatives[0])) then Resolve(m, alternatives[0])
    else Alternation(m, alternatives[1..])
  }

  method ResolveAlternation(m: ObjMap, alternatives: seq<Path>) returns (value: Value)
    ensures value == Alternation(m, alternatives)
  {
    for i := 0 to |alternatives|
      invariant Alternation(m, alternatives[i..]) == Alternation(m, alternatives)
    {
      assert alternatives[i..][1..] == alternatives[i + 1..];
      value := ResolvePath(m, alternatives[i]);
      if !IsEmpty(value) {
        return;
      }
    }
    return VNull;
  }

  // --- the interpreter -----------------------------------------------------------------

  /** Python's ==: True and 1 are equal. */
  predicate PyEqual(a: Value, b: Value) {
    match (a, b)
    case (VBool(x), VNum(n)) => n == if x then 1.0 else 0.0
    case (VNum(n), VBool(x)) => n == if x then 1.0 else 0.0
    case _ => a == b
  }

  /** The items a for-loop over "value or []" visits; None when Python raises TypeError. */
  function Iterate(v: Value): Option<seq<Value>> {
    match v
    case VNull => Some([])
    case VBool(b) => if b then None else Some([])
    case VNum(n) => if n == 0.0 then Some([]) else None
    case VStr(s) => Some(seq(|s|, i requires 0 <= i < |s| => VStr([s[i]])))
    case VList(items) => Some(items)
    case VDict(entries) => Some(seq(|entries|, i requires 0 <= i < |entries| => VStr(entries[i].name)))
    case VTime(_) => None
    case VRow(_) => None
  }

  function Compare(op: string, a: int, b: int): Option<bool> {
    if op == ">=" then Some(a >= b)
    else if op == ">" then Some(a > b)
    else if op == "<=" then Some(a <= b)
    else if op == "<" then Some(a < b)
    else if op == "==" then Some(a == b)
    else if op == "!=" then Some(a != b)
    else None
  }

  function ChildMap(m: ObjMap, item: Value): ObjMap {
    m["reproduction" := item]["item" := item]
  }

  /** evaluate_predicate; None when Python raises. */
  function Eval(pred: Predicate, m: ObjMap): Option<bool>
    decreases pred, 2, 0
  {
    match pred
    case Always => Some(true)
    case Exists(alternatives) => Some(!IsEmpty(Alternation(m, alternatives)))
    case NonEmpty(alternatives) => Some(!IsEmpty(Alternation(m, alternatives)))
    case Equals(field, value) => Some(PyEqual(Resolve(m, field), value))
    case In(field, values) => Some(exists i :: 0 <= i < |values| && PyEqual(Resolve(m, field), values[i]))
    case AllPresent(paths) => Some(forall i :: 0 <= i < |paths| ==> !IsEmpty(Resolve(m, paths[i])))
    case CountWhere(relation, where, op, bound) =>
      (match Iterate(Resolve(m, relation))
       case None => None
       case Some(items) =>
         match Matches(pred, items, m)
         case None => None
         case Some(n) => Compare(op, n, bound))
    case Unknown(_) => None
  }

  /** How many of the items satisfy a count_where's inner predicate. */
  function Matches(pred: Predicate, items: seq<Value>, m: ObjMap): Option<nat>
    requires pred.CountWhere?
    decreases pred, 1, |items|
  {
    if items == [] then Some(0)
    else
      var last := |items| - 1;
      match (Matches(pred, items[..last], m), ItemMatches(pred, items[last], m))
      case (Some(n), Some(b)) => Some(if b then n + 1 else n)
      case _ => None
  }

  function ItemMatches(pred: Predicate, item: Value, m: ObjMap): Option<bool>
    requires pred.CountWhere?
    decreases pred, 0, 0
  {
    match pred.where
    case None => Some(true)
    case Some(inner) => Eval(inner, ChildMap(m, item))
  }

  /** The interpreter with its counting loop. */
  method EvaluatePredicate(pred: Predicate, m: ObjMap) returns (r: Option<bool>)
    ensures r == Eval(pred, m)
    decreases pred
  {
    match pred
    case Always => return Some(true);
    case Exists(alternatives) =>
      var value := ResolveAlternation(m, alternatives);
      return Some(!IsEmpty(value));
    case NonEmpty(alternatives) =>
      var value := ResolveAlternation(m, alternatives);
      return Some(!IsEmpty(value));
    case Equals(field, value) =>
      var found := ResolvePath(m, field);
      return Some(PyEqual(found, value));
    case In(field, values) =>
      var found := ResolvePath(m, field);
      return Some(exists i :: 0 <= i < |values| && PyEqual(found, values[i]));
    case AllPresent(paths) =>
      for i := 0 to |paths|
        invariant forall j :: 0 <= j < i ==> !IsEmpty(Resolve(m, paths[j]))
      {
        var found := ResolvePath(m, paths[i]);
        if IsEmpty(found) {
          return Some(false);
        }
      }
      return Some(true);
    case CountWhere(relation, where, op, bound) =>
      var found := ResolvePath(m, relation);
      var iterated := Iterate(found);
      if iterated == None {
        return None;
      }
      var items := iterated.value;
      var matched := 0;
      for i := 0 to |items|
        invariant Matches(pred, items[..i], m) == Some(matched)
      {
        assert items[..i + 1][..i] == items[..i];
        var holds := Some(true);
        if where.Some? {
          holds := EvaluatePredicate(where.value, ChildMap(m, items[i]));
        }
        if holds == None {
          RaisesLater(pred, items, i + 1, m);
          return None;
        }
        if holds.value {
          matched := matched + 1;
        }
      }
      assert items[..|items|] == items;
      return Compare(op, matched, bound);
    case Unknown(_) => return None;
  }

  /** Once an item raises, the whole count does. */
  lemma {:induction false} RaisesLater(pred: Predicate, items: seq<Value>, i: nat, m: ObjMap)
    requires pred.CountWhere? && i <= |items| && Matches(pred, items[..i], m) == None
    ensures Matches(pred, items, m) == None
    decreases |items| - i
  {
    if i < |items| {
      assert items[..i + 1][..i] == items[..i];
      RaisesLater(pred, items, i + 1, m);
    } else {
      assert items[..i] == items;
    }
  }

  /** More items never make the count smaller: it only grows as a relation is appended to. */
  lemma {:induction false} MatchesMonotone(pred: Predicate, items: seq<Value>, more: seq<Value>, m: ObjMap)
    requires pred.CountWhere? && Matches(pred, items + more, m).Some?
    ensures Matches(pred, items, m).Some? && Matches(pred, items, m).value <= Matches(pred, items + more, m).value
    decreases |more|
  {
    if more == [] {
      assert items + more == items;
    } else {
      var last := |more| - 1;
      assert (items + more)[..|items + more| - 1] == items + more[..last];
      MatchesMonotone(pred, items, more[..last], m);
    }
  }
}
