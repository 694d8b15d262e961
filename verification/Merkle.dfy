/** The binary Merkle root: levels are hashed pairwise, an odd level repeats its last node. */
module Merkle {
  import opened Digests
  import opened MultiIndex

  const EMPTY := "EMPTY"

  /** A level of even length: an odd one has its last node appended once more. */
  function Pad(level: seq<Digest>): (r: seq<Digest>)
    ensures |r| % 2 == 0 && |level| <= |r| <= |level| + 1
  {
    if |level| % 2 == 1 then level + [level[|level| - 1]] else level
  }

  /** What node i of the next level is the hash of. */
  function NodeText(level: seq<Digest>, i: nat): string
    requires 2 * i < |level|
  {
    Concat(Pad(level)[2 * i], Pad(level)[2 * i + 1])
  }

  function Concat(a: string, b: string): string {
    a + b
  }

  function Up(h: Hash, level: seq<Digest>): (r: seq<Digest>)
    ensures |r| == (|level| + 1) / 2
  {
    seq<Digest>(|Pad(level)| / 2, i requires 0 <= i < |Pad(level)| / 2 => h(NodeText(level, i)))
  }

  function Root(h: Hash, leaves: seq<Digest>): Digest
    decreases |leaves|
  {
    if leaves == [] then h(EMPTY)
    else if |leaves| == 1 then leaves[0]
    else Root(h, Up(h, leaves))
  }

  lemma UpIsPairwise(h: Hash, level: seq<Digest>, next: seq<Digest>)
    requires |next| == |Pad(level)| / 2
    requires forall k :: 0 <= k < |next| ==> next[k] == h(Concat(Pad(level)[2 * k], Pad(level)[2 * k + 1]))
    ensures next == Up(h, level)
  {
    assert forall k :: 0 <= k < |next| ==> Up(h, level)[k] == h(NodeText(level, k));
  }

  /** merkle_root */
  method MerkleRoot(h: Hash, leaves: seq<Digest>) returns (root: Digest)
    ensures root == Root(h, leaves)
  {
    var level := leaves;
    if |level| == 0 {
      return h(EMPTY);
    }
    while |level| > 1
      invariant |level| >= 1
      invariant Root(h, level) == Root(h, leaves)
      decreases |level|
    {
      ghost var start := level;
      if |level| % 2 == 1 {
        level := level + [level[|level| - 1]];
      }
      assert level == Pad(start);
      var next: seq<Digest> := [];
      var i := 0;
      while i < |level|
        invariant 0 <= i <= |level| && i % 2 == 0 && |next| == i / 2
        invariant forall k :: 0 <= k < |next| ==> next[k] == h(Concat(level[2 * k], level[2 * k + 1]))
      {
        next := next + [h(Concat(level[i], level[i + 1]))];
        i := i + 2;
      }
      UpIsPairwise(h, start, next);
      level := next;
    }
    return level[0];
  }

  // --- what the root commits to ---------------------------------------------------------

  /** Every text hashed on the way from the leaves to the root. */
  ghost function Texts(h: Hash, level: seq<Digest>): set<string>
    decreases |level|
  {
    if level == [] then {EMPTY}
    else if |level| == 1 then {}
    else NodeTexts(level) + Texts(h, Up(h, level))
  }

  ghost function NodeTexts(level: seq<Digest>): set<string> {
    set i | 0 <= i < (|level| + 1) / 2 :: NodeText(level, i)
  }

  /** The number of levels above the leaves. */
  function Depth(n: nat): nat {
    if n <= 1 then 0 else 1 + Depth((n + 1) / 2)
  }

  lemma ConcatSplit(a: Digest, b: Digest, c: Digest, d: Digest)
    requires Concat(a, b) == Concat(c, d)
    ensures a == c && b == d
  {
    assert a == Concat(a, b)[..64] && c == Concat(c, d)[..64];
    assert b == Concat(a, b)[64..] && d == Concat(c, d)[64..];
  }

  lemma {:induction false} NodesAgree(h: Hash, a: seq<Digest>, b: seq<Digest>, i: nat)
    requires |a| > 1 && |b| > 1 && NoCollision(h, Texts(h, a) + Texts(h, b))
    requires i < |Up(h, a)| && i < |Up(h, b)| && Up(h, a)[i] == Up(h, b)[i]
    ensures Pad(a)[2 * i] == Pad(b)[2 * i] && Pad(a)[2 * i + 1] == Pad(b)[2 * i + 1]
  {
    assert NodeText(a, i) in NodeTexts(a) && NodeText(b, i) in NodeTexts(b);
    Separate(h, Texts(h, a) + Texts(h, b), NodeText(a, i), NodeText(b, i));
    ConcatSplit(Pad(a)[2 * i], Pad(a)[2 * i + 1], Pad(b)[2 * i], Pad(b)[2 * i + 1]);
  }

  /** b is a, or a goes on where b stops, with an element b already holds. */
  ghost predicate Extends(a: seq<Digest>, b: seq<Digest>) {
    && (forall i :: 0 <= i < |a| && i < |b| ==> a[i] == b[i])
    && (|a| > |b| ==> exists i :: 0 <= i < |b| && a[|b|] == a[i])
  }

  lemma PaddedAt(a: seq<Digest>, k: nat)
    requires a != [] && k < |Pad(a)|
    ensures Pad(a)[k] == if k < |a| then a[k] else a[|a| - 1]
  {
  }

  lemma {:induction false} NodeTextsDiffer(h: Hash, a: seq<Digest>, i: nat, j: nat)
    requires |a| > 1 && NoCollision(h, Texts(h, a))
    requires i < |Up(h, a)| && j < |Up(h, a)| && Up(h, a)[i] == Up(h, a)[j]
    ensures Pad(a)[2 * i] == Pad(a)[2 * j] && Pad(a)[2 * i + 1] == Pad(a)[2 * j + 1]
  {
    assert NodeText(a, i) in NodeTexts(a) && NodeText(a, j) in NodeTexts(a);
    Separate(h, Texts(h, a), NodeText(a, i), NodeText(a, j));
    ConcatSplit(Pad(a)[2 * i], Pad(a)[2 * i + 1], Pad(a)[2 * j], Pad(a)[2 * j + 1]);
  }

  lemma {:induction false} AgreeBelow(h: Hash, a: seq<Digest>, b: seq<Digest>)
    requires |a| > 1 && |b| > 1 && NoCollision(h, Texts(h, a) + Texts(h, b))
    requires forall i :: 0 <= i < |Up(h, a)| && i < |Up(h, b)| ==> Up(h, a)[i] == Up(h, b)[i]
    ensures forall k :: 0 <= k < |Pad(a)| && k < |Pad(b)| ==> Pad(a)[k] == Pad(b)[k]
  {
    forall k | 0 <= k < |Pad(a)| && k < |Pad(b)|
      ensures Pad(a)[k] == Pad(b)[k]
    {
      var i := k / 2;
      assert k == 2 * i || k == 2 * i + 1;
      NodesAgree(h, a, b, i);
    }
  }

  lemma {:induction false} ExtendsBelow(h: Hash, a: seq<Digest>, b: seq<Digest>)
    requires |a| > 1 && |b| > 1 && NoCollision(h, Texts(h, a) + Texts(h, b))
    requires Extends(Up(h, a), Up(h, b))
    ensures Extends(a, b)
  {
    AgreeBelow(h, a, b);
    forall i | 0 <= i < |a| && i < |b|
      ensures a[i] == b[i]
    {
      PaddedAt(a, i);
      PaddedAt(b, i);
    }
    if |a| > |b| {
      if |b| % 2 == 1 {
        RepeatAfterOdd(a, b);
      } else {
        NoCollisionOnFewer(h, Texts(h, a) + Texts(h, b), Texts(h, a));
        RepeatBelow(h, a, b);
      }
    }
  }

  lemma {:induction false} RepeatBelow(h: Hash, a: seq<Digest>, b: seq<Digest>)
    requires |a| > |b| > 1 && |b| % 2 == 0 && NoCollision(h, Texts(h, a))
    requires Extends(Up(h, a), Up(h, b)) && forall i :: 0 <= i < |b| ==> a[i] == b[i]
    ensures exists i :: 0 <= i < |b| && a[|b|] == a[i]
  {
    var m := |b| / 2;
    assert |Up(h, b)| == m < |Up(h, a)| && |b| == 2 * m;
    var j: nat :| j < m && Up(h, a)[m] == Up(h, a)[j];
    RepeatAfterEven(h, a, m, j);
    assert a[|b|] == a[2 * j];
  }

  /** b's last node was paired with itself, so a's next element repeats it. */
  lemma RepeatAfterOdd(a: seq<Digest>, b: seq<Digest>)
    requires |a| > |b| > 1 && |b| % 2 == 1
    requires forall k :: 0 <= k < |Pad(a)| && k < |Pad(b)| ==> Pad(a)[k] == Pad(b)[k]
    ensures a[|b|] == a[|b| - 1]
  {
    var m := |b|;
    PaddedAt(a, m);
    PaddedAt(b, m);
    PaddedAt(b, m - 1);
    PaddedAt(a, m - 1);
  }

  lemma {:induction false} RepeatAfterEven(h: Hash, a: seq<Digest>, m: nat, j: nat)
    requires 1 < 2 * m < |a| && j < m && NoCollision(h, Texts(h, a)) && Up(h, a)[m] == Up(h, a)[j]
    ensures a[2 * m] == a[2 * j]
  {
    NodeTextsDiffer(h, a, m, j);
    PaddedAt(a, 2 * m);
    PaddedAt(a, 2 * j);
  }

  /** Trees of the same depth with the same root agree on their common leaves; a longer one repeats a leaf. */
  lemma {:induction false} EqualDepth(h: Hash, a: seq<Digest>, b: seq<Digest>)
    requires a != [] && b != [] && Depth(|a|) == Depth(|b|) && Root(h, a) == Root(h, b)
    requires NoCollision(h, Texts(h, a) + Texts(h, b))
    ensures Extends(a, b) && Extends(b, a)
    decreases |a|
  {
    if |a| > 1 {
      NoCollisionOnFewer(h, Texts(h, a) + Texts(h, b), Texts(h, Up(h, a)) + Texts(h, Up(h, b)));
      EqualDepth(h, Up(h, a), Up(h, b));
      ExtendsBelow(h, a, b);
      assert Texts(h, a) + Texts(h, b) == Texts(h, b) + Texts(h, a);
      ExtendsBelow(h, b, a);
    }
  }

  /** The level k steps above the leaves. */
  ghost function Ancestors(h: Hash, leaves: seq<Digest>, k: nat): (r: seq<Digest>)
    requires k <= Depth(|leaves|)
    ensures leaves != [] ==> r != [] && Depth(|r|) == Depth(|leaves|) - k
    decreases k
  {
    if k == 0 then leaves else Ancestors(h, Up(h, leaves), k - 1)
  }

  /** The hash inputs of inner nodes: two digests in a row. */
  predicate IsNodeText(t: string) {
    |t| == 128 && IsHex(t[0])
  }

  lemma {:induction false} AncestorsRoot(h: Hash, leaves: seq<Digest>, k: nat)
    requires leaves != [] && k <= Depth(|leaves|)
    ensures Root(h, Ancestors(h, leaves, k)) == Root(h, leaves)
    decreases k
  {
    if k > 0 {
      AncestorsRoot(h, Up(h, leaves), k - 1);
    }
  }

  lemma {:induction false} AncestorsText(h: Hash, leaves: seq<Digest>, k: nat, t: string)
    requires leaves != [] && k <= Depth(|leaves|) && t in Texts(h, Ancestors(h, leaves, k))
    ensures t in Texts(h, leaves)
    decreases k
  {
    if k > 0 {
      AncestorsText(h, Up(h, leaves), k - 1, t);
    }
  }

  ghost predicate IsInnerNode(h: Hash, leaves: seq<Digest>, d: Digest) {
    exists t :: t in Texts(h, leaves) && IsNodeText(t) && d == h(t)
  }

  lemma {:induction false} AncestorsAreInner(h: Hash, leaves: seq<Digest>, k: nat)
    requires leaves != [] && 0 < k <= Depth(|leaves|)
    ensures IsInnerNode(h, leaves, Ancestors(h, leaves, k)[0])
    decreases k
  {
    var up := Up(h, leaves);
    if k == 1 {
      var t := NodeText(leaves, 0);
      assert t in Texts(h, leaves) && IsNodeText(t) && up[0] == h(t);
    } else {
      AncestorsAreInner(h, up, k - 1);
      var t :| t in Texts(h, up) && IsNodeText(t) && Ancestors(h, up, k - 1)[0] == h(t);
      assert t in Texts(h, leaves);
    }
  }

  /** When a shallower tree has the root of a deeper one, its first leaf is an inner node of the deeper one. */
  lemma {:induction false} ShallowerTree(h: Hash, a: seq<Digest>, b: seq<Digest>)
    requires a != [] && b != [] && Root(h, a) == Root(h, b) && Depth(|a|) < Depth(|b|)
    requires NoCollision(h, Texts(h, a) + Texts(h, b))
    ensures IsInnerNode(h, b, a[0])
  {
    var k := Depth(|b|) - Depth(|a|);
    AncestorsRoot(h, b, k);
    forall t | t in Texts(h, Ancestors(h, b, k))
      ensures t in Texts(h, b)
    {
      AncestorsText(h, b, k, t);
    }
    AncestorsAreInner(h, b, k);
    NoCollisionOnFewer(h, Texts(h, a) + Texts(h, b), Texts(h, a) + Texts(h, Ancestors(h, b, k)));
    EqualDepth(h, a, Ancestors(h, b, k));
  }

  /** The root of a non-empty tree is its only leaf or an inner node. */
  lemma {:induction false} RootShape(h: Hash, leaves: seq<Digest>)
    requires leaves != []
    ensures (|leaves| == 1 && Root(h, leaves) == leaves[0]) || IsInnerNode(h, leaves, Root(h, leaves))
  {
    var k := Depth(|leaves|);
    if |leaves| > 1 {
      AncestorsRoot(h, leaves, k);
      AncestorsAreInner(h, leaves, k);
      DepthZero(|Ancestors(h, leaves, k)|);
    }
  }

  lemma {:induction false} DepthZero(n: nat)
    ensures Depth(n) == 0 <==> n <= 1
  {
  }

  /** The leaves that hash the given texts. */
  function Leaves(h: Hash, texts: seq<string>): (r: seq<Digest>)
    ensures |r| == |texts|
  {
    seq<Digest>(|texts|, i requires 0 <= i < |texts| => h(texts[i]))
  }

  ghost function AllTexts(h: Hash, texts: seq<string>): set<string> {
    (set t | t in texts) + Texts(h, Leaves(h, texts))
  }

  /** Texts that cannot be mistaken for the hash input of an inner node or of the empty tree. */
  predicate LeafTexts(texts: seq<string>) {
    forall t :: t in texts ==> !IsNodeText(t) && t != EMPTY
  }

  predicate Distinct(texts: seq<string>) {
    forall i, j :: 0 <= i < j < |texts| ==> texts[i] != texts[j]
  }

  /** The hash of a leaf text, or of the empty marker, is not an inner node. */
  lemma {:induction false} LeavesAreNotInner(h: Hash, text: string, leaves: seq<Digest>)
    requires !IsNodeText(text) && NoCollision(h, {text} + Texts(h, leaves))
    ensures !IsInnerNode(h, leaves, h(text))
  {
    forall t | t in Texts(h, leaves) && IsNodeText(t)
      ensures h(t) != h(text)
    {
      assert !Collide(h, t, text);
    }
  }

  /** A tree whose first leaf hashes a leaf text is not shallower than another with the same root. */
  lemma {:induction false} NotShallower(h: Hash, text: string, a: seq<Digest>, b: seq<Digest>)
    requires a != [] && b != [] && a[0] == h(text) && !IsNodeText(text) && Root(h, a) == Root(h, b)
    requires NoCollision(h, {text} + Texts(h, b)) && NoCollision(h, Texts(h, a) + Texts(h, b))
    ensures Depth(|a|) >= Depth(|b|)
  {
    LeavesAreNotInner(h, text, b);
    if Depth(|a|) < Depth(|b|) {
      ShallowerTree(h, a, b);
    }
  }

  /** The root of the empty tree is the root of no other. */
  lemma EmptyRoot(h: Hash, texts: seq<string>)
    requires LeafTexts(texts) && NoCollision(h, {EMPTY} + AllTexts(h, texts))
    ensures texts != [] ==> Root(h, []) != Root(h, Leaves(h, texts))
  {
    var a := Leaves(h, texts);
    NoCollisionOnFewer(h, {EMPTY} + AllTexts(h, texts), {EMPTY} + Texts(h, a));
    LeavesAreNotInner(h, EMPTY, a);
    if texts != [] {
      RootShape(h, a);
      assert !Collide(h, EMPTY, texts[0]);
    }
  }

  /** Lists of leaf texts with equal roots extend each other. */
  lemma RootsExtend(h: Hash, x: seq<string>, y: seq<string>)
    requires x != [] && y != [] && LeafTexts(x) && LeafTexts(y)
    requires Root(h, Leaves(h, x)) == Root(h, Leaves(h, y))
    requires NoCollision(h, AllTexts(h, x) + AllTexts(h, y))
    ensures Extends(Leaves(h, x), Leaves(h, y)) && Extends(Leaves(h, y), Leaves(h, x))
  {
    EqualDepthOfTexts(h, x, y);
    NoCollisionOnFewer(h, AllTexts(h, x) + AllTexts(h, y), Texts(h, Leaves(h, x)) + Texts(h, Leaves(h, y)));
    EqualDepth(h, Leaves(h, x), Leaves(h, y));
  }

  /** Equal roots of leaf texts come from trees of the same depth. */
  lemma EqualDepthOfTexts(h: Hash, x: seq<string>, y: seq<string>)
    requires x != [] && y != [] && LeafTexts(x) && LeafTexts(y)
    requires Root(h, Leaves(h, x)) == Root(h, Leaves(h, y))
    requires NoCollision(h, AllTexts(h, x) + AllTexts(h, y))
    ensures Depth(|Leaves(h, x)|) == Depth(|Leaves(h, y)|)
  {
    var all := AllTexts(h, x) + AllTexts(h, y);
    var a, b := Leaves(h, x), Leaves(h, y);
    assert x[0] in x && y[0] in y;
    NoCollisionOnFewer(h, all, {x[0]} + Texts(h, b));
    NoCollisionOnFewer(h, all, {y[0]} + Texts(h, a));
    NoCollisionOnFewer(h, all, Texts(h, b) + Texts(h, a));
    NoCollisionOnFewer(h, all, Texts(h, a) + Texts(h, b));
    NotShallower(h, x[0], a, b);
    NotShallower(h, y[0], b, a);
  }

  lemma LeavesBind(h: Hash, x: seq<string>, y: seq<string>)
    requires |x| == |y| && Extends(Leaves(h, x), Leaves(h, y))
    requires NoCollision(h, AllTexts(h, x) + AllTexts(h, y))
    ensures x == y
  {
    var a, b := Leaves(h, x), Leaves(h, y);
    forall i | 0 <= i < |x|
      ensures x[i] == y[i]
    {
      assert a[i] == b[i] && x[i] in x && y[i] in y;
      Separate(h, AllTexts(h, x) + AllTexts(h, y), x[i], y[i]);
    }
  }

  /**
   The root binds the leaves: lists of distinct leaf texts of any two lengths with the same
   root are the same list, if the texts that occur do not collide.
   */
  lemma RootBinds(h: Hash, x: seq<string>, y: seq<string>)
    requires LeafTexts(x) && LeafTexts(y) && Distinct(x) && Distinct(y)
    requires Root(h, Leaves(h, x)) == Root(h, Leaves(h, y))
    requires NoCollision(h, AllTexts(h, x) + AllTexts(h, y))
    ensures x == y
  {
    var all := AllTexts(h, x) + AllTexts(h, y);
    if x == [] {
      NoCollisionOnFewer(h, all, {EMPTY} + AllTexts(h, y));
      EmptyRoot(h, y);
    } else if y == [] {
      NoCollisionOnFewer(h, all, {EMPTY} + AllTexts(h, x));
      EmptyRoot(h, x);
    } else {
      RootsExtend(h, x, y);
      assert forall t :: t in x ==> t in all;
      assert forall t :: t in y ==> t in all;
      NotLonger(h, x, y);
      NotLonger(h, y, x);
      LeavesBind(h, x, y);
    }
  }

  lemma NotLonger(h: Hash, x: seq<string>, y: seq<string>)
    requires Extends(Leaves(h, x), Leaves(h, y)) && Distinct(x)
    requires forall i, j :: 0 <= i < j < |x| ==> !Collide(h, x[i], x[j])
    ensures |x| <= |y|
  {
  }

  /** Lists of the same length with the same root are the same list; repeated leaves are allowed. */
  lemma SameLengthBinds(h: Hash, x: seq<string>, y: seq<string>)
    requires |x| == |y| && Root(h, Leaves(h, x)) == Root(h, Leaves(h, y))
    requires NoCollision(h, AllTexts(h, x) + AllTexts(h, y))
    ensures x == y
  {
    var a, b := Leaves(h, x), Leaves(h, y);
    if x != [] {
      NoCollisionOnFewer(h, AllTexts(h, x) + AllTexts(h, y), Texts(h, a) + Texts(h, b));
      EqualDepth(h, a, b);
      forall i | 0 <= i < |x|
        ensures x[i] == y[i]
      {
        assert a[i] == b[i] && x[i] in x && y[i] in y;
        Separate(h, AllTexts(h, x) + AllTexts(h, y), x[i], y[i]);
      }
    }
  }

  /** Without distinct leaves the length is not bound: repeating the last of an odd number keeps the root. */
  lemma {:induction false} OddRepeat(h: Hash, leaves: seq<Digest>)
    requires |leaves| % 2 == 1 && |leaves| > 1
    ensures Root(h, leaves + [leaves[|leaves| - 1]]) == Root(h, leaves)
  {
    var longer := leaves + [leaves[|leaves| - 1]];
    assert Pad(longer) == Pad(leaves);
    assert forall i :: 0 <= 2 * i < |leaves| ==> NodeText(longer, i) == NodeText(leaves, i);
    assert Up(h, longer) == Up(h, leaves);
  }

  // --- when two lists have the same root -------------------------------------------------------

  /**
   Which of n leaves stands at each place of the full-width tree: repeated last nodes repeat all leaves below them.
   */
  function Places(n: nat): (r: seq<nat>)
    ensures forall k :: 0 <= k < |r| ==> r[k] < n
  {
    if n == 0 then [] else if n == 1 then [0] else Doubled(Places((n + 1) / 2), n)
  }

  /** The two places below each place. */
  function Doubled(up: seq<nat>, n: nat): (r: seq<nat>)
    requires n > 0
    ensures |r| == 2 * |up| && forall k :: 0 <= k < |r| ==> r[k] < n
  {
    if up == [] then []
    else
      var last := up[|up| - 1];
      Doubled(up[..|up| - 1], n) + [OrLast(2 * last, n), OrLast(2 * last + 1, n)]
  }

  lemma {:induction false} DoubledAt(up: seq<nat>, n: nat, i: nat)
    requires n > 0 && i < |up|
    ensures Doubled(up, n)[2 * i] == OrLast(2 * up[i], n) && Doubled(up, n)[2 * i + 1] == OrLast(2 * up[i] + 1, n)
  {
    var last := |up| - 1;
    if i < last {
      DoubledAt(up[..last], n, i);
    }
  }

  /** The full width is 2^depth. */
  lemma {:induction false} PlacesWidth(n: nat)
    ensures |Places(n)| == if n == 0 then 0 else Pow2(Depth(n))
  {
    if n > 1 {
      PlacesWidth((n + 1) / 2);
    }
  }

  /** A place of a padded level: the last node stands for the missing one. */
  function OrLast(k: nat, n: nat): (r: nat)
    requires n > 0
    ensures r < n
  {
    if k < n then k else n - 1
  }

  /** The leaves of the full-width tree: 2^depth of them. */
  function FullWidth<T>(leaves: seq<T>): (r: seq<T>)
    ensures |r| == |Places(|leaves|)|
  {
    seq(|Places(|leaves|)|, k requires 0 <= k < |Places(|leaves|)| => leaves[Places(|leaves|)[k]])
  }

  lemma FullWidthIsEven(leaves: seq<Digest>)
    requires |leaves| > 1
    ensures Pad(FullWidth(leaves)) == FullWidth(leaves)
  {
    assert |FullWidth(leaves)| == 2 * |Places((|leaves| + 1) / 2)|;
  }

  /** The two leaves below place i of the level above. */
  lemma {:induction false} FullWidthPair(leaves: seq<Digest>, up: seq<nat>, i: nat)
    requires |leaves| > 1 && up == Places((|leaves| + 1) / 2) && i < |up|
    ensures |FullWidth(leaves)| == 2 * |up|
    ensures FullWidth(leaves)[2 * i] == leaves[OrLast(2 * up[i], |leaves|)]
    ensures FullWidth(leaves)[2 * i + 1] == leaves[OrLast(2 * up[i] + 1, |leaves|)]
  {
    DoubledAt(up, |leaves|, i);
  }

  lemma PaddedPair(leaves: seq<Digest>, u: nat)
    requires |leaves| > 1 && 2 * u < |leaves|
    ensures NodeText(leaves, u) == Concat(leaves[OrLast(2 * u, |leaves|)], leaves[OrLast(2 * u + 1, |leaves|)])
  {
  }

  /** Node i above the full-width tree hashes the text of the node it stands for. */
  lemma {:induction false} FullWidthText(leaves: seq<Digest>, up: seq<nat>, i: nat)
    requires |leaves| > 1 && up == Places((|leaves| + 1) / 2) && i < |up|
    ensures |FullWidth(leaves)| == 2 * |up| && 2 * up[i] < |leaves|
    ensures NodeText(FullWidth(leaves), i) == NodeText(leaves, up[i])
  {
    FullWidthPair(leaves, up, i);
    FullWidthIsEven(leaves);
    PaddedPair(leaves, up[i]);
  }

  lemma FullWidthUp(h: Hash, leaves: seq<Digest>)
    requires |leaves| > 1
    ensures Up(h, FullWidth(leaves)) == FullWidth(Up(h, leaves))
    ensures NodeTexts(FullWidth(leaves)) <= NodeTexts(leaves)
  {
    var up := Places((|leaves| + 1) / 2);
    forall i | 0 <= i < |up|
      ensures Up(h, FullWidth(leaves))[i] == FullWidth(Up(h, leaves))[i]
      ensures NodeText(FullWidth(leaves), i) in NodeTexts(leaves)
    {
      FullWidthText(leaves, up, i);
    }
  }

  /** Filling a tree up to full width changes neither its root nor the texts that are hashed. */
  lemma {:induction false} FullWidthRoot(h: Hash, leaves: seq<Digest>)
    requires leaves != []
    ensures Root(h, FullWidth(leaves)) == Root(h, leaves)
    ensures Texts(h, FullWidth(leaves)) <= Texts(h, leaves)
    decreases |leaves|
  {
    if |leaves| == 1 {
      assert FullWidth(leaves) == leaves;
    } else {
      FullWidthUp(h, leaves);
      FullWidthRoot(h, Up(h, leaves));
      assert |FullWidth(leaves)| == 2 * |Places((|leaves| + 1) / 2)|;
    }
  }

  lemma LeavesOfFullWidth(h: Hash, x: seq<string>)
    ensures Leaves(h, FullWidth(x)) == FullWidth(Leaves(h, x))
  {
  }

  /** Trees of one depth with one root are the same at full width. */
  lemma {:induction false} SameFullWidth(h: Hash, a: seq<Digest>, b: seq<Digest>)
    requires a != [] && b != [] && Depth(|a|) == Depth(|b|) && Root(h, a) == Root(h, b)
    requires NoCollision(h, Texts(h, a) + Texts(h, b))
    ensures FullWidth(a) == FullWidth(b)
  {
    FullWidthRoot(h, a);
    FullWidthRoot(h, b);
    PlacesWidth(|a|);
    PlacesWidth(|b|);
    NoCollisionOnFewer(h, Texts(h, a) + Texts(h, b), Texts(h, FullWidth(a)) + Texts(h, FullWidth(b)));
    EqualDepth(h, FullWidth(a), FullWidth(b));
  }

  /**
   Two lists of leaf texts have the same root exactly when they are the same list at full width, if the texts that
   occur do not collide: what the root leaves open is how often trailing nodes were repeated, and nothing else.
   */
  lemma SameRootIff(h: Hash, x: seq<string>, y: seq<string>)
    requires LeafTexts(x) && LeafTexts(y) && NoCollision(h, AllTexts(h, x) + AllTexts(h, y))
    ensures Root(h, Leaves(h, x)) == Root(h, Leaves(h, y)) <==> FullWidth(x) == FullWidth(y)
  {
    var all, a, b := AllTexts(h, x) + AllTexts(h, y), Leaves(h, x), Leaves(h, y);
    LeavesOfFullWidth(h, x);
    LeavesOfFullWidth(h, y);
    PlacesWidth(|x|);
    PlacesWidth(|y|);
    if x == [] {
      assert a == [];
      NoCollisionOnFewer(h, all, {EMPTY} + AllTexts(h, y));
      EmptyRoot(h, y);
    } else if y == [] {
      assert b == [];
      NoCollisionOnFewer(h, all, {EMPTY} + AllTexts(h, x));
      EmptyRoot(h, x);
    } else {
      FullWidthRoot(h, a);
      FullWidthRoot(h, b);
      if Root(h, a) == Root(h, b) {
        EqualDepthOfTexts(h, x, y);
        NoCollisionOnFewer(h, all, Texts(h, a) + Texts(h, b));
        SameFullWidth(h, a, b);
        forall k | 0 <= k < |FullWidth(x)|
          ensures FullWidth(x)[k] == FullWidth(y)[k]
        {
          assert FullWidth(a)[k] == FullWidth(b)[k];
          Separate(h, all, FullWidth(x)[k], FullWidth(y)[k]);
        }
      }
    }
  }
}
