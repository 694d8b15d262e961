/**
 Canonical JSON: normalisation of Python values, and the sorted, whitespace-free text that
 everything hashed in the ledger passes through. The text is the sequence of characters that
 json.dumps(..., sort_keys=True, separators=(",", ":"), ensure_ascii=False) produces.
 */
module CanonicalJson {
  import opened Sorting

  // --- values and their normal form ----------------------------------------------------

  datatype FloatValue = NaN | Infinite(negative: bool) | Finite(x: real)

  datatype Value =
    | PyNone
    | PyBool(b: bool)
    | PyInt(n: int)
    | PyFloat(f: FloatValue)
    | PyStr(s: string)
    | PyList(items: seq<Value>)
    | PyDict(entries: seq<Entry>)

  /** A dict is a list of entries in insertion order. */
  datatype Entry = Entry(key: string, value: Value)

  predicate IsDigit(c: char) {
    '0' <= c <= '9'
  }

  predicate IsNumberChar(c: char) {
    IsDigit(c) || c == '-' || c == '+' || c == '.' || c == 'e'
  }

  /** The text Python prints for a finite float: it always shows a point or an exponent. */
  predicate IsFloatText(t: string) {
    && t != ""
    && (forall i :: 0 <= i < |t| ==> IsNumberChar(t[i]))
    && exists i :: 0 <= i < |t| && (t[i] == '.' || t[i] == 'e')
  }

  type FloatText = t: string | IsFloatText(t)
    ghost witness (assert "0.0"[1] == '.'; "0.0")

  datatype Json =
    | JNull
    | JBool(b: bool)
    | JInt(n: int)
    | JFloat(text: FloatText)
    | JString(s: string)
    | JArray(items: seq<Json>)
    | JObject(fields: seq<Field>)

  datatype Field = Field(key: string, value: Json)

  /** repr12 prints a non-zero finite float after rounding it to 12 significant figures. */
  function Normalize(repr12: real -> FloatText, v: Value): Json {
    match v
    case PyNone => JNull
    case PyBool(b) => JBool(b)
    case PyInt(n) => JInt(n)
    case PyFloat(NaN) => JString("NaN")
    case PyFloat(Infinite(negative)) => JString(if negative then "-Infinity" else "Infinity")
    case PyFloat(Finite(x)) => JFloat(if x == 0.0 then ZeroText() else repr12(x))
    case PyStr(s) => JString(s)
    case PyList(items) => JArray(NormalizeItems(repr12, items))
    case PyDict(entries) => JObject(NormalizeEntries(repr12, entries))
  }

  function ZeroText(): FloatText {
    assert "0.0"[1] == '.';
    "0.0"
  }

  function NormalizeItems(repr12: real -> FloatText, items: seq<Value>): (r: seq<Json>)
    ensures |r| == |items|
  {
    if items == [] then []
    else [Normalize(repr12, items[0])] + NormalizeItems(repr12, items[1..])
  }

  function NormalizeEntries(repr12: real -> FloatText, entries: seq<Entry>): (r: seq<Field>)
    ensures |r| == |entries|
    ensures forall i :: 0 <= i < |r| ==> r[i].key == entries[i].key
  {
    if entries == [] then []
    else [Field(entries[0].key, Normalize(repr12, entries[0].value))] + NormalizeEntries(repr12, entries[1..])
  }

  // --- key order -------------------------------------------------------------------------

  /** Python's string order: by code point, a prefix first. */
  predicate KeyLess(a: string, b: string) {
    b != "" && (a == "" || a[0] < b[0] || (a[0] == b[0] && KeyLess(a[1..], b[1..])))
  }

  lemma {:induction false} KeyLessTotal(a: string, b: string)
    ensures a == b || KeyLess(a, b) || KeyLess(b, a)
    ensures !(KeyLess(a, b) && KeyLess(b, a))
    ensures !KeyLess(a, a)
  {
    if a != "" && b != "" {
      KeyLessTotal(a[1..], b[1..]);
      if a[0] == b[0] && a[1..] == b[1..] {
        assert a == [a[0]] + a[1..] == b;
      }
    }
    if a != "" {
      KeyLessTotal(a[1..], a[1..]);
    }
  }

  lemma {:induction false} KeyLessTransitive(a: string, b: string, c: string)
    requires KeyLess(a, b) && KeyLess(b, c)
    ensures KeyLess(a, c)
  {
    if a != "" && a[0] == b[0] && b[0] == c[0] {
      KeyLessTransitive(a[1..], b[1..], c[1..]);
    }
  }

  predicate FieldLess(f: Field, g: Field) {
    KeyLess(f.key, g.key)
  }

  function SortFields(fields: seq<Field>): (r: seq<Field>)
    ensures |r| == |fields|
  {
    Sort(fields, FieldLess)
  }

  /** sort_keys=True, at every level. */
  function SortKeys(j: Json): Json {
    match j
    case JArray(items) => JArray(SortKeysItems(items))
    case JObject(fields) => JObject(SortFields(SortKeysFields(fields)))
    case _ => j
  }

  function SortKeysItems(items: seq<Json>): (r: seq<Json>)
    ensures |r| == |items|
    ensures forall i :: 0 <= i < |r| ==> r[i] == SortKeys(items[i])
  {
    if items == [] then [] else [SortKeys(items[0])] + SortKeysItems(items[1..])
  }

  function SortKeysFields(fields: seq<Field>): (r: seq<Field>)
    ensures |r| == |fields|
    ensures forall i :: 0 <= i < |r| ==> r[i] == Field(fields[i].key, SortKeys(fields[i].value))
  {
    if fields == [] then []
    else [Field(fields[0].key, SortKeys(fields[0].value))] + SortKeysFields(fields[1..])
  }

  // --- the text ----------------------------------------------------------------------------

  function NatText(n: nat): (t: string)
    ensures t != "" && forall i :: 0 <= i < |t| ==> IsDigit(t[i])
  {
    if n < 10 then [DecimalDigit(n)] else NatText(n / 10) + [DecimalDigit(n % 10)]
  }

  function DecimalDigit(d: nat): char
    requires d < 10
  {
    ('0' as int + d) as char
  }

  function IntText(n: int): string {
    if n < 0 then "-" + NatText(-n) else NatText(n)
  }

  function HexDigit(d: nat): char
    requires d < 16
  {
    if d < 10 then DecimalDigit(d) else ('a' as int + (d - 10)) as char
  }

  /** One character inside a JSON string: quotes, backslashes and control characters are escaped. */
  function Escape(c: char): string {
    if c == '\"' then "\\\""
    else if c == '\\' then "\\\\"
    else if c == '\n' then "\\n"
    else if c == '\r' then "\\r"
    else if c == '\t' then "\\t"
    else if c == 12 as char then "\\f"
    else if c == 8 as char then "\\b"
    else if c < ' ' then "\\u00" + [HexDigit(c as int / 16), HexDigit(c as int % 16)]
    else [c]
  }

  function EscapeAll(s: string): string {
    if s == "" then "" else Escape(s[0]) + EscapeAll(s[1..])
  }

  function Quote(s: string): string {
    "\"" + EscapeAll(s) + "\""
  }

  function Text(j: Json): string {
    match j
    case JNull => "null"
    case JBool(b) => if b then "true" else "false"
    case JInt(n) => IntText(n)
    case JFloat(t) => t
    case JString(s) => Quote(s)
    case JArray(items) => "[" + ItemsText(items) + "]"
    case JObject(fields) => "{" + FieldsText(fields) + "}"
  }

  function ItemsText(items: seq<Json>): string {
    if items == [] then ""
    else Text(items[0]) + (if |items| == 1 then "" else "," + ItemsText(items[1..]))
  }

  function FieldsText(fields: seq<Field>): string {
    if fields == [] then ""
    else Quote(fields[0].key) + ":" + Text(fields[0].value) +
         (if |fields| == 1 then "" else "," + FieldsText(fields[1..]))
  }

  /** canonical_bytes, before UTF-8 encoding. */
  function Canonical(j: Json): string {
    Text(SortKeys(j))
  }

  // --- reading the text back ---------------------------------------------------------------

  /** What may follow a value inside a document: nothing, or a separator. */
  predicate Ends(r: string) {
    r == "" || r[0] == ',' || IsCloser(r[0])
  }

  predicate IsCloser(c: char) {
    c == ']' || c == '}'
  }

  /** How many characters a number takes at the start of l. */
  function NumberSpan(l: string): (k: nat)
    ensures k <= |l|
  {
    if l == "" || !IsNumberChar(l[0]) then 0 else 1 + NumberSpan(l[1..])
  }

  lemma {:induction false} SpanOfNumber(t: string, r: string)
    requires Ends(r) && forall i :: 0 <= i < |t| ==> IsNumberChar(t[i])
    ensures NumberSpan(t + r) == |t|
  {
    if t != "" {
      assert (t + r)[1..] == t[1..] + r;
      SpanOfNumber(t[1..], r);
    } else {
      assert t + r == r;
    }
  }

  lemma NumberSplit(t: string, r: string, t': string, r': string)
    requires t + r == t' + r' && Ends(r) && Ends(r')
    requires forall i :: 0 <= i < |t| ==> IsNumberChar(t[i])
    requires forall i :: 0 <= i < |t'| ==> IsNumberChar(t'[i])
    ensures t == t' && r == r'
  {
    SpanOfNumber(t, r);
    SpanOfNumber(t', r');
    assert t == (t + r)[..|t|] == t' && r == (t + r)[|t|..] == r';
  }

  function ParseNat(t: string): int
    requires forall i :: 0 <= i < |t| ==> IsDigit(t[i])
  {
    if t == "" then 0 else 10 * ParseNat(t[..|t| - 1]) + (t[|t| - 1] as int - '0' as int)
  }

  lemma {:induction false} ParseNatText(n: nat)
    ensures ParseNat(NatText(n)) == n
  {
    if n >= 10 {
      ParseNatText(n / 10);
      assert NatText(n)[..|NatText(n)| - 1] == NatText(n / 10);
    } else {
      assert NatText(n)[..0] == "";
    }
  }

  function ParseInt(t: string): int
    requires t != "" && forall i :: 1 <= i < |t| ==> IsDigit(t[i])
    requires t[0] == '-' || IsDigit(t[0])
  {
    if t[0] == '-' then -ParseNat(t[1..]) else ParseNat(t)
  }

  /** Decimal texts hold only digits and a leading sign, and read back as the number they print. */
  lemma IntTextReads(n: int)
    ensures var t := IntText(n);
            && t != "" && (t[0] == '-' || IsDigit(t[0]))
            && (forall i :: 1 <= i < |t| ==> IsDigit(t[i]))
            && ParseInt(t) == n
  {
    if n < 0 {
      ParseNatText(-n);
      assert IntText(n)[1..] == NatText(-n);
    } else {
      ParseNatText(n);
    }
  }

  lemma EscapeUnique(c: char, x: string, d: char, y: string)
    requires Escape(c) + x == Escape(d) + y
    ensures c == d && x == y
  {
    var l, r := Escape(c) + x, Escape(d) + y;
    assert l[0] == Escape(c)[0] && r[0] == Escape(d)[0];
    if l[0] == '\\' {
      assert l[1] == Escape(c)[1] && r[1] == Escape(d)[1];
      if l[1] == 'u' {
        assert l[4] == Escape(c)[4] && l[5] == Escape(c)[5] && r[4] == Escape(d)[4] && r[5] == Escape(d)[5];
        assert c as int / 16 == d as int / 16 && c as int % 16 == d as int % 16;
        assert c as int == d as int;
      }
    }
    assert c == d;
    assert x == l[|Escape(c)|..] && y == r[|Escape(d)|..];
  }

  lemma ConcatAssoc(a: string, b: string, c: string)
    ensures (a + b) + c == a + (b + c)
  {
  }

  lemma {:induction false} EscapeAllSplit(s: string, x: string)
    requires s != ""
    ensures EscapeAll(s) + x == Escape(s[0]) + (EscapeAll(s[1..]) + x)
    ensures (EscapeAll(s) + x)[0] != '\"'
  {
    ConcatAssoc(Escape(s[0]), EscapeAll(s[1..]), x);
    assert Escape(s[0])[0] != '\"';
  }

  /** A quoted string ends at its own closing quote, whatever follows. */
  lemma {:induction false} EscapeAllUnique(s: string, x: string, s': string, x': string)
    requires EscapeAll(s) + x == EscapeAll(s') + x'
    requires x != "" && x' != "" && x[0] == x'[0] == '\"'
    ensures s == s' && x == x'
  {
    if s != "" {
      EscapeAllSplit(s, x);
    } else {
      assert EscapeAll(s) + x == x;
    }
    if s' != "" {
      EscapeAllSplit(s', x');
    } else {
      assert EscapeAll(s') + x' == x';
    }
    if s != "" && s' != "" {
      EscapeUnique(s[0], EscapeAll(s[1..]) + x, s'[0], EscapeAll(s'[1..]) + x');
      EscapeAllUnique(s[1..], x, s'[1..], x');
      assert s == [s[0]] + s[1..] && s' == [s'[0]] + s'[1..];
    }
  }

  /** Everything after the first character. */
  lemma TailsEqual(c: string, x: string, y: string)
    requires |c| == 1 && c + x == c + y
    ensures x == y
  {
    assert x == (c + x)[1..] == (c + y)[1..] == y;
  }

  lemma {:induction false} QuoteSplit(s: string, r: string)
    ensures Quote(s) + r == "\"" + (EscapeAll(s) + ("\"" + r))
  {
    ConcatAssoc("\"", EscapeAll(s), "\"");
    ConcatAssoc("\"", EscapeAll(s) + "\"", r);
    ConcatAssoc(EscapeAll(s), "\"", r);
  }

  lemma QuoteUnique(s: string, r: string, s': string, r': string)
    requires Quote(s) + r == Quote(s') + r'
    ensures s == s' && r == r'
  {
    var q := "\"";
    QuoteSplit(s, r);
    QuoteSplit(s', r');
    TailsEqual(q, EscapeAll(s) + (q + r), EscapeAll(s') + (q + r'));
    EscapeAllUnique(s, q + r, s', q + r');
    TailsEqual(q, r, r');
  }

  /** The first character of a value's text tells which kind of value it is. */
  function Kind(c: char): nat {
    if c == 'n' then 0 else if c == 't' then 1 else if c == 'f' then 2 else if c == '\"' then 3
    else if c == '[' then 4 else if c == '{' then 5 else 6
  }

  function KindOf(j: Json): nat {
    match j
    case JNull => 0
    case JBool(b) => if b then 1 else 2
    case JString(_) => 3
    case JArray(_) => 4
    case JObject(_) => 5
    case _ => 6
  }

  lemma {:induction false} FirstCharacter(j: Json)
    ensures Text(j) != "" && Kind(Text(j)[0]) == KindOf(j) && !Ends(Text(j))
  {
    match j
    case JInt(n) => IntTextReads(n);
    case JFloat(t) => assert IsNumberChar(t[0]);
    case _ =>
  }

  lemma {:induction false} NumberText(j: Json)
    requires KindOf(j) == 6
    ensures forall i :: 0 <= i < |Text(j)| ==> IsNumberChar(Text(j)[i])
  {
    match j
    case JInt(n) => IntTextReads(n);
    case _ =>
  }

  lemma {:induction false} NumbersUnique(a: Json, b: Json)
    requires KindOf(a) == KindOf(b) == 6 && Text(a) == Text(b)
    ensures a == b
  {
    if a.JInt? {
      IntTextReads(a.n);
    }
    if b.JInt? {
      IntTextReads(b.n);
    }
  }

  lemma {:induction false} AtomsUnique(a: Json, r: string, b: Json, r': string)
    requires Text(a) + r == Text(b) + r' && Ends(r) && Ends(r')
    requires KindOf(a) == KindOf(b) && KindOf(a) in {0, 1, 2, 6}
    ensures a == b && r == r'
  {
    if KindOf(a) == 6 {
      NumberText(a);
      NumberText(b);
      NumberSplit(Text(a), r, Text(b), r');
      NumbersUnique(a, b);
    } else {
      assert a == b;
      assert r == (Text(a) + r)[|Text(a)|..] == r';
    }
  }

  lemma BracketSplit(open: string, body: string, close: string, r: string)
    ensures (open + body + close) + r == open + (body + (close + r))
  {
    ConcatAssoc(open + body, close, r);
    ConcatAssoc(open, body, close + r);
  }

  lemma {:induction false} SameKind(a: Json, r: string, b: Json, r': string)
    requires Text(a) + r == Text(b) + r'
    ensures KindOf(a) == KindOf(b)
  {
    FirstCharacter(a);
    FirstCharacter(b);
    assert (Text(a) + r)[0] == Text(a)[0] && (Text(b) + r')[0] == Text(b)[0];
  }

  /** Texts of values are self-delimiting, so equal documents were made from equal values. */
  lemma {:induction false} TextUnique(a: Json, r: string, b: Json, r': string)
    requires Text(a) + r == Text(b) + r' && Ends(r) && Ends(r')
    ensures a == b && r == r'
    decreases a
  {
    SameKind(a, r, b, r');
    match (a, b) {
      case (JString(s), JString(t)) => QuoteUnique(s, r, t, r');
      case (JArray(xs), JArray(ys)) =>
        BracketSplit("[", ItemsText(xs), "]", r);
        BracketSplit("[", ItemsText(ys), "]", r');
        TailsEqual("[", ItemsText(xs) + ("]" + r), ItemsText(ys) + ("]" + r'));
        ItemsUnique(xs, "]" + r, ys, "]" + r');
        TailsEqual("]", r, r');
      case (JObject(xs), JObject(ys)) =>
        BracketSplit("{", FieldsText(xs), "}", r);
        BracketSplit("{", FieldsText(ys), "}", r');
        TailsEqual("{", FieldsText(xs) + ("}" + r), FieldsText(ys) + ("}" + r'));
        FieldsUnique(xs, "}" + r, ys, "}" + r');
        TailsEqual("}", r, r');
      case _ => AtomsUnique(a, r, b, r');
    }
  }

  /** The text after the first element: the other elements, or what closes the list. */
  function Rest(more: string, single: bool, r: string): string {
    if single then r else "," + (more + r)
  }

  lemma RestSplit(head: string, more: string, single: bool, r: string)
    requires r != "" && IsCloser(r[0])
    ensures (head + (if single then "" else "," + more)) + r == head + Rest(more, single, r)
    ensures Ends(Rest(more, single, r))
  {
    if single {
      assert head + "" == head;
    } else {
      ConcatAssoc(head, "," + more, r);
      ConcatAssoc(",", more, r);
    }
  }

  lemma RestsAgree(more: string, single: bool, r: string, more': string, single': bool, r': string)
    requires r != "" && IsCloser(r[0]) && r' != "" && IsCloser(r'[0])
    requires Rest(more, single, r) == Rest(more', single', r')
    ensures single == single' && if single then r == r' else more + r == more' + r'
  {
    if !single && !single' {
      TailsEqual(",", more + r, more' + r');
    }
  }

  lemma {:induction false} ItemsUnique(a: seq<Json>, r: string, b: seq<Json>, r': string)
    requires ItemsText(a) + r == ItemsText(b) + r'
    requires r != "" && r' != "" && IsCloser(r[0]) && IsCloser(r'[0])
    ensures a == b && r == r'
    decreases a
  {
    ItemsSplit(a, r);
    ItemsSplit(b, r');
    if a != [] && b != [] {
      var more, more' := ItemsText(a[1..]), ItemsText(b[1..]);
      TextUnique(a[0], Rest(more, |a| == 1, r), b[0], Rest(more', |b| == 1, r'));
      RestsAgree(more, |a| == 1, r, more', |b| == 1, r');
      if |a| > 1 {
        ItemsUnique(a[1..], r, b[1..], r');
      }
      assert a == [a[0]] + a[1..] && b == [b[0]] + b[1..];
    }
  }

  lemma {:induction false} ItemsSplit(a: seq<Json>, r: string)
    requires r != "" && IsCloser(r[0])
    ensures a == [] ==> ItemsText(a) + r == r
    ensures a != [] ==>
              && ItemsText(a) + r == Text(a[0]) + Rest(ItemsText(a[1..]), |a| == 1, r)
              && Ends(Rest(ItemsText(a[1..]), |a| == 1, r))
              && !IsCloser((ItemsText(a) + r)[0])
  {
    if a != [] {
      FirstCharacter(a[0]);
      RestSplit(Text(a[0]), ItemsText(a[1..]), |a| == 1, r);
    }
  }

  lemma {:induction false} FieldsUnique(a: seq<Field>, r: string, b: seq<Field>, r': string)
    requires FieldsText(a) + r == FieldsText(b) + r'
    requires r != "" && r' != "" && IsCloser(r[0]) && IsCloser(r'[0])
    ensures a == b && r == r'
    decreases a
  {
    FieldsSplit(a, r);
    FieldsSplit(b, r');
    if a != [] && b != [] {
      var more, more' := FieldsText(a[1..]), FieldsText(b[1..]);
      var x, y := Rest(more, |a| == 1, r), Rest(more', |b| == 1, r');
      QuoteUnique(a[0].key, ":" + (Text(a[0].value) + x), b[0].key, ":" + (Text(b[0].value) + y));
      TailsEqual(":", Text(a[0].value) + x, Text(b[0].value) + y);
      TextUnique(a[0].value, x, b[0].value, y);
      RestsAgree(more, |a| == 1, r, more', |b| == 1, r');
      if |a| > 1 {
        FieldsUnique(a[1..], r, b[1..], r');
      }
      assert a == [a[0]] + a[1..] && b == [b[0]] + b[1..];
    }
  }

  lemma {:induction false} FieldsSplit(a: seq<Field>, r: string)
    requires r != "" && IsCloser(r[0])
    ensures a == [] ==> FieldsText(a) + r == r
    ensures a != [] ==>
              var x := Rest(FieldsText(a[1..]), |a| == 1, r);
              && FieldsText(a) + r == Quote(a[0].key) + (":" + (Text(a[0].value) + x))
              && Ends(x)
              && !IsCloser((FieldsText(a) + r)[0])
  {
    if a != [] {
      var q, v, x := Quote(a[0].key), Text(a[0].value), Rest(FieldsText(a[1..]), |a| == 1, r);
      RestSplit(q + ":" + v, FieldsText(a[1..]), |a| == 1, r);
      BracketSplit(q, ":", v, x);
    }
  }
}
