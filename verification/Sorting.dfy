/** Stable sorting by a comparison, as Python's sorted() does it. */
module Sorting {
  /** Puts x behind every element that is not greater. */
  function Place<T>(x: T, sorted: seq<T>, less: (T, T) -> bool): (r: seq<T>)
    ensures |r| == |sorted| + 1
  {
    if sorted == [] then [x]
    else
      var n := |sorted| - 1;
      if less(x, sorted[n]) then Place(x, sorted[..n], less) + [sorted[n]] else sorted + [x]
  }

  function Sort<T>(s: seq<T>, less: (T, T) -> bool): (r: seq<T>)
    ensures |r| == |s|
  {
    if s == [] then [] else Place(s[|s| - 1], Sort(s[..|s| - 1], less), less)
  }

  lemma {:induction false} PlaceElements<T(!new)>(x: T, sorted: seq<T>, less: (T, T) -> bool)
    ensures forall y :: y in Place(x, sorted, less) <==> y == x || y in sorted
  {
    if sorted != [] {
      var n := |sorted| - 1;
      PlaceElements(x, sorted[..n], less);
      assert sorted == sorted[..n] + [sorted[n]];
    }
  }

  /** Sorting neither adds nor drops elements. */
  lemma {:induction false} SortElements<T(!new)>(s: seq<T>, less: (T, T) -> bool)
    ensures forall y :: y in Sort(s, less) <==> y in s
  {
    if s != [] {
      var n := |s| - 1;
      SortElements(s[..n], less);
      PlaceElements(s[n], Sort(s[..n], less), less);
      assert s == s[..n] + [s[n]];
    }
  }

  /** The new element ends up last exactly when it does not precede the last one. */
  lemma {:induction false} PlaceSplits<T>(x: T, sorted: seq<T>, less: (T, T) -> bool) returns (p: nat)
    ensures p <= |sorted| && Place(x, sorted, less) == sorted[..p] + [x] + sorted[p..]
    ensures p == |sorted| <==> sorted == [] || !less(x, sorted[|sorted| - 1])
  {
    if sorted != [] && less(x, sorted[|sorted| - 1]) {
      var n := |sorted| - 1;
      p := PlaceSplits(x, sorted[..n], less);
      assert sorted[..n][..p] == sorted[..p];
      assert sorted[..n][p..] + [sorted[n]] == sorted[p..];
    } else {
      p := |sorted|;
    }
  }

  lemma {:induction false} PlaceMultiset<T>(x: T, sorted: seq<T>, less: (T, T) -> bool)
    ensures multiset(Place(x, sorted, less)) == multiset(sorted) + multiset{x}
  {
    if sorted != [] {
      var n := |sorted| - 1;
      PlaceMultiset(x, sorted[..n], less);
      assert sorted == sorted[..n] + [sorted[n]];
    }
  }

  lemma {:induction false} SortMultiset<T>(s: seq<T>, less: (T, T) -> bool)
    ensures multiset(Sort(s, less)) == multiset(s)
  {
    if s != [] {
      var n := |s| - 1;
      SortMultiset(s[..n], less);
      PlaceMultiset(s[n], Sort(s[..n], less), less);
      assert s == s[..n] + [s[n]];
    }
  }

  /** A strict order in which elements that neither precedes are interchangeable. */
  ghost predicate WeakOrder<T(!new)>(less: (T, T) -> bool) {
    && (forall x, y :: less(x, y) ==> !less(y, x))
    && (forall x, y, z :: less(x, z) ==> less(x, y) || less(y, z))
  }

  ghost predicate Sorted<T>(s: seq<T>, less: (T, T) -> bool) {
    forall i, j :: 0 <= i < j < |s| ==> !less(s[j], s[i])
  }

  lemma {:induction false} PlaceSorted<T(!new)>(x: T, sorted: seq<T>, less: (T, T) -> bool)
    requires WeakOrder(less) && Sorted(sorted, less)
    ensures Sorted(Place(x, sorted, less), less)
  {
    if sorted != [] {
      var n := |sorted| - 1;
      if less(x, sorted[n]) {
        PlaceSorted(x, sorted[..n], less);
        PlaceElements(x, sorted[..n], less);
        var r := Place(x, sorted[..n], less);
        forall i | 0 <= i < |r|
          ensures !less(sorted[n], r[i])
        {
          assert r[i] in r;
          assert r[i] == x || r[i] in sorted[..n];
        }
      } else {
        forall i | 0 <= i < |sorted|
          ensures !less(x, sorted[i])
        {
          if i < n {
            assert !less(sorted[n], sorted[i]);
          }
        }
      }
    }
  }

  lemma {:induction false} SortSorted<T(!new)>(s: seq<T>, less: (T, T) -> bool)
    requires WeakOrder(less)
    ensures Sorted(Sort(s, less), less)
  {
    if s != [] {
      SortSorted(s[..|s| - 1], less);
      PlaceSorted(s[|s| - 1], Sort(s[..|s| - 1], less), less);
    }
  }

  // --- when no two elements tie ------------------------------------------------------------

  /** No element occurs twice, and of two different ones one precedes the other. */
  ghost predicate NoTies<T(!new)>(s: seq<T>, less: (T, T) -> bool) {
    forall i, j :: 0 <= i < j < |s| ==> less(s[i], s[j]) || less(s[j], s[i])
  }

  ghost predicate StrictlySorted<T>(s: seq<T>, less: (T, T) -> bool) {
    forall i, j :: 0 <= i < j < |s| ==> less(s[i], s[j])
  }

  /** A strictly sorted list is determined by its elements. */
  lemma {:induction false} StrictUnique<T(!new)>(x: seq<T>, y: seq<T>, less: (T, T) -> bool)
    requires WeakOrder(less) && StrictlySorted(x, less) && StrictlySorted(y, less)
    requires forall e :: e in x <==> e in y
    ensures x == y
  {
    assert x != [] ==> x[0] in x;
    assert y != [] ==> y[0] in y;
    if x != [] {
      SameHead(x, y, less);
      forall e
        ensures e in x[1..] <==> e in y[1..]
      {
        TailElements(x, e, less);
        TailElements(y, e, less);
      }
      StrictUnique(x[1..], y[1..], less);
      assert x == [x[0]] + x[1..] && y == [y[0]] + y[1..];
    }
  }

  lemma SameHead<T(!new)>(x: seq<T>, y: seq<T>, less: (T, T) -> bool)
    requires x != [] && y != [] && WeakOrder(less) && StrictlySorted(x, less) && StrictlySorted(y, less)
    requires forall e :: e in x <==> e in y
    ensures x[0] == y[0]
  {
    assert x[0] in y && y[0] in x;
    var i :| 0 <= i < |x| && x[i] == y[0];
    var j :| 0 <= j < |y| && y[j] == x[0];
  }

  lemma TailElements<T(!new)>(x: seq<T>, e: T, less: (T, T) -> bool)
    requires x != [] && WeakOrder(less) && StrictlySorted(x, less)
    ensures e in x[1..] <==> e in x && e != x[0]
  {
    if e in x && e != x[0] {
      var i :| 0 <= i < |x| && x[i] == e;
      assert x[1..][i - 1] == e;
    }
    if e in x[1..] {
      var i :| 0 <= i < |x| - 1 && x[1..][i] == e;
      assert less(x[0], x[i + 1]);
    }
  }

  lemma {:induction false} PlaceStrict<T(!new)>(x: T, sorted: seq<T>, less: (T, T) -> bool)
    requires WeakOrder(less) && StrictlySorted(sorted, less)
    requires forall y :: y in sorted ==> less(x, y) || less(y, x)
    ensures StrictlySorted(Place(x, sorted, less), less)
  {
    if sorted != [] {
      var n := |sorted| - 1;
      assert sorted[n] in sorted;
      if less(x, sorted[n]) {
        PlaceStrict(x, sorted[..n], less);
        PlaceElements(x, sorted[..n], less);
        var r := Place(x, sorted[..n], less);
        forall i | 0 <= i < |r|
          ensures less(r[i], sorted[n])
        {
          assert r[i] in r;
          if r[i] != x {
            var j :| 0 <= j < n && sorted[..n][j] == r[i];
            assert sorted[j] == r[i];
          }
        }
      } else {
        forall i | 0 <= i < |sorted|
          ensures less(sorted[i], x)
        {
          assert sorted[i] in sorted;
          if i < n {
            assert less(sorted[i], sorted[n]);
          }
        }
      }
    }
  }

  lemma {:induction false} SortStrict<T(!new)>(s: seq<T>, less: (T, T) -> bool)
    requires WeakOrder(less) && NoTies(s, less)
    ensures StrictlySorted(Sort(s, less), less)
  {
    if s != [] {
      var n := |s| - 1;
      SortStrict(s[..n], less);
      SortElements(s[..n], less);
      forall y | y in Sort(s[..n], less)
        ensures less(s[n], y) || less(y, s[n])
      {
        var i :| 0 <= i < n && s[..n][i] == y;
        assert s[i] == y;
      }
      PlaceStrict(s[n], Sort(s[..n], less), less);
    }
  }

  /** Without ties the sorted order depends only on which elements there are, not on how they came. */
  lemma {:induction false} SortIgnoresOrder<T(!new)>(x: seq<T>, y: seq<T>, less: (T, T) -> bool)
    requires WeakOrder(less) && NoTies(x, less) && NoTies(y, less)
    requires forall e :: e in x <==> e in y
    ensures Sort(x, less) == Sort(y, less)
  {
    SortStrict(x, less);
    SortStrict(y, less);
    SortElements(x, less);
    SortElements(y, less);
    StrictUnique(Sort(x, less), Sort(y, less), less);
  }

  // --- when elements tie ---------------------------------------------------------------------

  predicate Tie<T>(a: T, b: T, less: (T, T) -> bool) {
    !less(a, b) && !less(b, a)
  }

  /** Elements that tie are equal. */
  ghost predicate TiesEqual<T(!new)>(s: seq<T>, less: (T, T) -> bool) {
    forall a, b {:trigger Tie(a, b, less)} :: a in s && b in s && Tie(a, b, less) ==> a == b
  }

  /** A sorted list, in the weak sense too, is its own stable sort. */
  lemma {:induction false} SortedIsFixed<T(!new)>(s: seq<T>, less: (T, T) -> bool)
    requires Sorted(s, less)
    ensures Sort(s, less) == s
  {
    if s != [] {
      SortedIsFixed(s[..|s| - 1], less);
      assert s == s[..|s| - 1] + [s[|s| - 1]];
    }
  }

  lemma SortedHeads<T(!new)>(x: seq<T>, y: seq<T>, less: (T, T) -> bool)
    requires WeakOrder(less) && Sorted(x, less) && Sorted(y, less) && TiesEqual(x, less)
    requires x != [] && y != [] && multiset(x) == multiset(y)
    ensures x[0] == y[0]
  {
    assert x[0] in multiset(y) && y[0] in multiset(x);
    var i :| 0 <= i < |x| && x[i] == y[0];
    var j :| 0 <= j < |y| && y[j] == x[0];
    assert Tie(x[0], y[0], less);
  }

  /** When ties are equal, a sorted list is determined by its multiset. */
  lemma {:induction false} SortedUnique<T(!new)>(x: seq<T>, y: seq<T>, less: (T, T) -> bool)
    requires WeakOrder(less) && Sorted(x, less) && Sorted(y, less) && TiesEqual(x, less)
    requires multiset(x) == multiset(y)
    ensures x == y
  {
    if x != [] && y != [] {
      SortedHeads(x, y, less);
      assert x == [x[0]] + x[1..] && y == [y[0]] + y[1..];
      assert multiset(x[1..]) == multiset(x) - multiset{x[0]} == multiset(y[1..]);
      SortedUnique(x[1..], y[1..], less);
    } else {
      assert |multiset(x)| == |x| && |multiset(y)| == |y|;
    }
  }

  /** Exchanging two elements that tie keeps a list sorted. */
  lemma TiesSwap<T(!new)>(s: seq<T>, i: nat, j: nat, less: (T, T) -> bool)
    requires WeakOrder(less) && Sorted(s, less) && i < j < |s| && Tie(s[i], s[j], less)
    ensures Sorted(s[i := s[j]][j := s[i]], less) && multiset(s[i := s[j]][j := s[i]]) == multiset(s)
  {
    var t := s[i := s[j]][j := s[i]];
    forall p, q | 0 <= p < q < |t|
      ensures !less(t[q], t[p])
    {
      assert !less(s[q], s[p]);
    }
  }

  /** However the elements come, they are sorted the same. */
  ghost predicate OrderIgnored<T(!new)>(x: seq<T>, less: (T, T) -> bool) {
    forall y: seq<T> :: multiset(y) == multiset(x) ==> Sort(y, less) == Sort(x, less)
  }

  /** The stable sort ignores the order of its input exactly when ties are equal. */
  lemma SortIgnoresOrderIff<T(!new)>(x: seq<T>, less: (T, T) -> bool)
    requires WeakOrder(less)
    ensures OrderIgnored(x, less) <==> TiesEqual(x, less)
  {
    var s := Sort(x, less);
    SortSorted(x, less);
    SortMultiset(x, less);
    SortElements(x, less);
    if TiesEqual(x, less) {
      forall y: seq<T> | multiset(y) == multiset(x)
        ensures Sort(y, less) == s
      {
        SortSorted(y, less);
        SortMultiset(y, less);
        SortedUnique(s, Sort(y, less), less);
      }
    } else {
      var a, b :| a in x && b in x && Tie(a, b, less) && a != b;
      assert a in s && b in s;
      var i :| 0 <= i < |s| && s[i] == a;
      var j :| 0 <= j < |s| && s[j] == b;
      var low, high := if i < j then i else j, if i < j then j else i;
      TiesSwap(s, low, high, less);
      var y := s[low := s[high]][high := s[low]];
      SortedIsFixed(y, less);
      assert y[low] != s[low];
    }
  }
}
