/** The per-workspace hash chain, its verifier, and exactly which edits the verifier notices. */
module Chain {
  import opened Wrappers
  import opened CanonicalJson
  import opened Digests
  import opened Sorting
  import opened RunIdentity

  const GENESIS := "GENESIS"

  /** One ledger row, as far as verify_chain reads it. */
  datatype Link = Link(id: string, run: Digest, prev: Option<Digest>, chain: Digest)

  function ChainText(prev: Option<Digest>, run: Digest): string {
    Canonical(JObject([Field("prev", JString(if prev.Some? then prev.value else GENESIS)),
                       Field("run", JString(run))]))
  }

  /** compute_chain_hash */
  function ChainHash(h: Hash, prev: Option<Digest>, run: Digest): Digest {
    h(ChainText(prev, run))
  }

  /** A way of hashing a run hash onto the chain hash before it. */
  type Linker = (Option<Digest>, Digest) -> Digest

  function LinkerOf(h: Hash): Linker {
    (prev, run) => ChainHash(h, prev, run)
  }

  /** The chain hash of the last row. */
  function Head(links: seq<Link>): Option<Digest> {
    if links == [] then None else Some(links[|links| - 1].chain)
  }

  predicate LinkOk(c: Linker, prev: Option<Digest>, l: Link) {
    l.prev == prev && l.chain == c(prev, l.run)
  }

  /** Row i links to the head of the rows before it. */
  predicate LinkAt(c: Linker, links: seq<Link>, i: nat)
    requires i < |links|
  {
    LinkOk(c, Head(links[..i]), links[i])
  }

  /** Every row links to the one before it. */
  predicate Accepts(c: Linker, links: seq<Link>) {
    forall i :: 0 <= i < |links| ==> LinkAt(c, links, i)
  }

  datatype Report = Report(ok: bool, brokenAt: Option<string>, count: nat)

  /** The row from which on the first n rows do not link, if there is one. */
  function BreakIn(c: Linker, links: seq<Link>, n: nat): (i: Option<nat>)
    requires n <= |links|
    ensures i.Some? ==> i.value < n
  {
    if n == 0 then None
    else
      var before := BreakIn(c, links, n - 1);
      if before.Some? then before else if LinkAt(c, links, n - 1) then None else Some(n - 1)
  }

  function ReportOf(c: Linker, links: seq<Link>): Report {
    var i := BreakIn(c, links, |links|);
    Report(i.None?, if i.Some? then Some(links[i.value].id) else None, |links|)
  }

  /** verify_chain, over the rows in ledger order: reports the first row that does not link. */
  method VerifyChain(c: Linker, links: seq<Link>) returns (r: Report)
    ensures r.ok <==> Accepts(c, links)
    ensures r.count == |links|
    ensures r.ok ==> r.brokenAt == None
    ensures !r.ok ==> exists i :: 0 <= i < |links| && FirstBroken(c, links, i) && r.brokenAt == Some(links[i].id)
    ensures r == ReportOf(c, links)
  {
    var prev: Option<Digest> := None;
    for i := 0 to |links|
      invariant prev == Head(links[..i])
      invariant Accepts(c, links[..i])
    {
      var l := links[i];
      var expected := c(prev, l.run);
      assert links[..i + 1][..i] == links[..i];
      if l.prev != prev || l.chain != expected {
        assert FirstBroken(c, links, i);
        BrokenIsReported(c, links, i);
        return Report(false, Some(l.id), |links|);
      }
      AcceptsSnoc(c, links[..i], l);
      assert links[..i + 1] == links[..i] + [l];
      prev := Some(l.chain);
    }
    assert links[..|links|] == links;
    NoBreakIn(c, links, |links|);
    return Report(true, None, |links|);
  }

  lemma {:induction false} NoBreakIn(c: Linker, links: seq<Link>, n: nat)
    requires n <= |links| && Accepts(c, links[..n])
    ensures BreakIn(c, links, n) == None
  {
    if n > 0 {
      AcceptsPrefix(c, links[..n], n - 1);
      assert links[..n][..n - 1] == links[..n - 1];
      NoBreakIn(c, links, n - 1);
      AcceptedAt(c, links, n, n - 1);
    }
  }

  lemma {:induction false} BreakStays(c: Linker, links: seq<Link>, i: nat, n: nat)
    requires i < n <= |links| && FirstBroken(c, links, i)
    ensures BreakIn(c, links, n) == Some(i)
  {
    NoBreakIn(c, links, i);
    if i < n - 1 {
      BreakStays(c, links, i, n - 1);
    }
  }

  /** The first broken row is the one reported, so there is only one. */
  lemma BrokenIsReported(c: Linker, links: seq<Link>, i: nat)
    requires i < |links| && FirstBroken(c, links, i)
    ensures ReportOf(c, links) == Report(false, Some(links[i].id), |links|)
    ensures forall j :: 0 <= j < |links| && FirstBroken(c, links, j) ==> j == i
  {
    BreakStays(c, links, i, |links|);
    forall j | 0 <= j < |links| && FirstBroken(c, links, j)
      ensures j == i
    {
      BreakStays(c, links, j, |links|);
    }
  }

  ghost predicate FirstBroken(c: Linker, links: seq<Link>, i: nat)
    requires i < |links|
  {
    Accepts(c, links[..i]) && !LinkAt(c, links, i)
  }

  lemma AcceptsPrefix(c: Linker, links: seq<Link>, n: nat)
    requires Accepts(c, links) && n <= |links|
    ensures Accepts(c, links[..n])
  {
    forall i | 0 <= i < n
      ensures LinkAt(c, links[..n], i)
    {
      assert links[..n][..i] == links[..i];
      assert LinkAt(c, links, i);
    }
  }

  lemma AcceptsSnoc(c: Linker, links: seq<Link>, l: Link)
    ensures Accepts(c, links + [l]) <==> Accepts(c, links) && LinkOk(c, Head(links), l)
  {
    var all := links + [l];
    assert all[..|links|] == links && all[|links|] == l;
    if Accepts(c, all) {
      AcceptsPrefix(c, all, |links|);
    }
    forall i | 0 <= i < |links|
      ensures LinkAt(c, all, i) == LinkAt(c, links, i)
    {
      assert all[..i] == links[..i];
    }
    assert LinkAt(c, all, |links|) == LinkOk(c, Head(links), l);
  }

  lemma AcceptedAt(c: Linker, links: seq<Link>, n: nat, i: nat)
    requires i < n <= |links| && Accepts(c, links[..n])
    ensures LinkAt(c, links, i)
  {
    assert LinkAt(c, links[..n], i);
    assert links[..n][i] == links[i] && links[..n][..i] == links[..i];
  }

  // --- the head determines the history ---------------------------------------------------

  type Pair = (Option<Digest>, Digest)

  /** c gives no two of the pairs the same chain hash. */
  ghost predicate Separates(c: Linker, pairs: set<Pair>) {
    forall x, y {:trigger Clash(c, x, y)} :: x in pairs && y in pairs ==> !Clash(c, x, y)
  }

  predicate Clash(c: Linker, x: Pair, y: Pair) {
    x != y && c(x.0, x.1) == c(y.0, y.1)
  }

  /** What the rows of a ledger hash. */
  ghost function Pairs(links: seq<Link>): set<Pair> {
    set i | 0 <= i < |links| :: PairOf(links[i])
  }

  function PairOf(l: Link): Pair {
    (l.prev, l.run)
  }

  lemma ChainTextUnique(x: Pair, y: Pair)
    requires ChainText(x.0, x.1) == ChainText(y.0, y.1)
    ensures x == y
  {
    var p := if x.0.Some? then x.0.value else GENESIS;
    var q := if y.0.Some? then y.0.value else GENESIS;
    assert |GENESIS| != 64;
    TwoFields(p, x.1);
    TwoFields(q, y.1);
    TextUnique(SortKeys(TwoFieldDoc(p, x.1)), "", SortKeys(TwoFieldDoc(q, y.1)), "");
  }

  function TwoFieldDoc(x: string, r: string): Json {
    JObject([Field("prev", JString(x)), Field("run", JString(r))])
  }

  lemma TwoFields(x: string, r: string)
    ensures SortKeys(TwoFieldDoc(x, r)) == TwoFieldDoc(x, r)
  {
    var f, g := Field("prev", JString(x)), Field("run", JString(r));
    assert [f, g][1..] == [g] && [g][1..] == [];
    assert SortKeysFields([g]) == [g] + SortKeysFields([]);
    assert SortKeysFields([f, g]) == [f] + SortKeysFields([g]);
    assert KeyLess("prev", "run") && !KeyLess("run", "prev");
    assert [f, g][..1] == [f] && Sort([f], FieldLess) == [f];
    assert SortFields([f, g]) == Place(g, [f], FieldLess) == [f] + [g];
  }

  /** Chain hashes built on h separate any pairs whose texts do not collide under h. */
  lemma HashSeparates(h: Hash, pairs: set<Pair>)
    requires NoCollision(h, set x | x in pairs :: ChainText(x.0, x.1))
    ensures Separates(LinkerOf(h), pairs)
  {
    forall x, y | x in pairs && y in pairs && LinkerOf(h)(x.0, x.1) == LinkerOf(h)(y.0, y.1)
      ensures x == y
    {
      Separate(h, set p | p in pairs :: ChainText(p.0, p.1), ChainText(x.0, x.1), ChainText(y.0, y.1));
      ChainTextUnique(x, y);
    }
  }

  lemma SamePair(c: Linker, pairs: set<Pair>, x: Pair, y: Pair)
    requires Separates(c, pairs) && x in pairs && y in pairs && c(x.0, x.1) == c(y.0, y.1)
    ensures x == y
  {
    assert !Clash(c, x, y);
  }

  lemma SameLast(c: Linker, a: seq<Link>, b: seq<Link>, pairs: set<Pair>)
    requires Accepts(c, a) && Accepts(c, b) && a != [] && b != [] && Head(a) == Head(b)
    requires Pairs(a) <= pairs && Pairs(b) <= pairs && Separates(c, pairs)
    ensures Head(a[..|a| - 1]) == Head(b[..|b| - 1]) && a[|a| - 1].run == b[|b| - 1].run
  {
    var x, y := a[|a| - 1], b[|b| - 1];
    assert LinkAt(c, a, |a| - 1) && LinkAt(c, b, |b| - 1);
    assert PairOf(x) in Pairs(a) && PairOf(y) in Pairs(b);
    SamePair(c, pairs, PairOf(x), PairOf(y));
  }

  /** Two accepted ledgers with the same head have the same length and the same runs throughout. */
  lemma {:induction false} HeadDeterminesHistory(c: Linker, a: seq<Link>, b: seq<Link>, pairs: set<Pair>)
    requires Accepts(c, a) && Accepts(c, b) && Head(a) == Head(b)
    requires Pairs(a) <= pairs && Pairs(b) <= pairs && Separates(c, pairs)
    ensures |a| == |b| && forall i :: 0 <= i < |a| ==> a[i].run == b[i].run && a[i].chain == b[i].chain
    decreases |a|
  {
    if a != [] && b != [] {
      var n, m := |a| - 1, |b| - 1;
      SameLast(c, a, b, pairs);
      AcceptsPrefix(c, a, n);
      AcceptsPrefix(c, b, m);
      PrefixPairs(a, n);
      PrefixPairs(b, m);
      HeadDeterminesHistory(c, a[..n], b[..m], pairs);
      forall i | 0 <= i < n
        ensures a[i].run == b[i].run && a[i].chain == b[i].chain
      {
        assert a[..n][i] == a[i] && b[..m][i] == b[i];
      }
    }
  }

  lemma PrefixPairs(a: seq<Link>, n: nat)
    requires n <= |a|
    ensures Pairs(a[..n]) <= Pairs(a)
  {
    forall x | x in Pairs(a[..n])
      ensures x in Pairs(a)
    {
      var i :| 0 <= i < n && x == PairOf(a[..n][i]);
      assert a[..n][i] == a[i];
    }
  }

  /** No two prefixes of an accepted ledger have the same head. */
  lemma HeadsDistinct(c: Linker, a: seq<Link>, i: nat, j: nat)
    requires Accepts(c, a) && Separates(c, Pairs(a)) && i <= |a| && j <= |a| && Head(a[..i]) == Head(a[..j])
    ensures i == j
  {
    AcceptsPrefix(c, a, i);
    AcceptsPrefix(c, a, j);
    PrefixPairs(a, i);
    PrefixPairs(a, j);
    HeadDeterminesHistory(c, a[..i], a[..j], Pairs(a));
  }

  // --- which edits are noticed -------------------------------------------------------------

  /** Every prefix of an accepted ledger is accepted: dropping rows from the end goes unnoticed. */
  lemma TruncationAccepted(c: Linker, a: seq<Link>, n: nat)
    requires Accepts(c, a) && n <= |a|
    ensures Accepts(c, a[..n])
  {
    AcceptsPrefix(c, a, n);
  }

  /** Changing one row's run hash breaks the ledger at exactly that row. */
  lemma EditedRunBreaksThere(c: Linker, a: seq<Link>, i: nat, run: Digest)
    requires Accepts(c, a) && i < |a| && run != a[i].run
    requires Separates(c, Pairs(a) + {(a[i].prev, run)})
    ensures FirstBroken(c, a[i := a[i].(run := run)], i)
    ensures ReportOf(c, a[i := a[i].(run := run)]) == Report(false, Some(a[i].id), |a|)
  {
    var a' := a[i := a[i].(run := run)];
    assert a'[..i] == a[..i];
    AcceptsPrefix(c, a, i);
    assert LinkAt(c, a, i);
    if LinkAt(c, a', i) {
      assert PairOf(a[i]) in Pairs(a);
      SamePair(c, Pairs(a) + {(a[i].prev, run)}, PairOf(a[i]), (a[i].prev, run));
    }
    BrokenIsReported(c, a', i);
  }

  /**
   Changing a row's run hash and recomputing its chain hash goes unnoticed exactly when the
   row is the last one: the verifier never compares with the workspace's chain head.
   */
  lemma ResealedRowNoticed(c: Linker, a: seq<Link>, i: nat, run: Digest)
    requires Accepts(c, a) && i < |a| && run != a[i].run
    requires Separates(c, Pairs(a) + {(a[i].prev, run)})
    ensures var l := a[i].(run := run, chain := c(a[i].prev, run));
            Accepts(c, a[i := l]) <==> i == |a| - 1
  {
    var l := a[i].(run := run, chain := c(a[i].prev, run));
    var a' := a[i := l];
    assert LinkAt(c, a, i);
    if i == |a| - 1 {
      AcceptsPrefix(c, a, i);
      AcceptsSnoc(c, a[..i], l);
      assert a' == a[..i] + [l];
    } else if Accepts(c, a') {
      assert LinkAt(c, a', i + 1) && LinkAt(c, a, i + 1);
      assert a[i].chain == l.chain;
      assert PairOf(a[i]) in Pairs(a);
      SamePair(c, Pairs(a) + {(a[i].prev, run)}, PairOf(a[i]), (a[i].prev, run));
    }
  }

  /** Removing one row goes unnoticed exactly when it is the last one. */
  lemma RemovedRowNoticed(c: Linker, a: seq<Link>, i: nat)
    requires Accepts(c, a) && i < |a| && Separates(c, Pairs(a))
    ensures Accepts(c, a[..i] + a[i + 1..]) <==> i == |a| - 1
  {
    var a' := a[..i] + a[i + 1..];
    if i == |a| - 1 {
      AcceptsPrefix(c, a, i);
      assert a' == a[..i];
    } else if Accepts(c, a') {
      assert a'[..i] == a[..i] && a'[i] == a[i + 1];
      assert LinkAt(c, a', i) && LinkAt(c, a, i + 1);
      HeadsDistinct(c, a, i, i + 1);
    }
  }

  /** A row sealed against the current head is accepted exactly when it sorts after every other row. */
  lemma InsertedRowNoticed(c: Linker, a: seq<Link>, i: nat, l: Link)
    requires Accepts(c, a) && i <= |a| && Separates(c, Pairs(a)) && LinkOk(c, Head(a), l)
    ensures Accepts(c, a[..i] + [l] + a[i..]) <==> i == |a|
  {
    var a' := a[..i] + [l] + a[i..];
    if i == |a| {
      AcceptsSnoc(c, a, l);
      assert a' == a + [l];
    } else if Accepts(c, a') {
      assert a'[..i] == a[..i] && a'[i] == l;
      assert LinkAt(c, a', i);
      assert a[..|a|] == a;
      HeadsDistinct(c, a, i, |a|);
    }
  }
}
