/** Bounds between the two scores of normalised distributions, and what they make of the verdict. */
module ScoringLaws {
  import opened Scoring
  import opened Sums
  import opened Wrappers

  // --- the bounds, over a common support ---------------------------------------------------------

  predicate AllNonNegative(a: seq<real>) {
    forall i :: 0 <= i < |a| ==> a[i] >= 0.0
  }

  lemma ProductZeroIff(x: real, y: real)
    ensures x * y == 0.0 <==> x == 0.0 || y == 0.0
  {
    if x * y == 0.0 && x != 0.0 {
      assert y == (x * y) / x;
    }
  }

  /** The overlap of two probabilities is the product of their roots, and zero only if one of them is. */
  lemma OverlapIsProduct(root: real -> real, a: real, b: real)
    requires IsRoot(root) && a >= 0.0 && b >= 0.0
    ensures OverlapTerm(root, a, b) == root(a) * root(b) && OverlapTerm(root, a, b) >= 0.0
    ensures OverlapTerm(root, a, b) == 0.0 <==> a == 0.0 || b == 0.0
  {
    var x, y := root(a), root(b);
    RootOfProduct(root, a, b);
    assert RootAt(root, a) && RootAt(root, b);
    assert NonNegative(a) == a && NonNegative(b) == b;
    var p := NonNegative(a) * NonNegative(b);
    assert p == a * b;
    assert OverlapTerm(root, a, b) == root(p) == root(a * b);
    ProductNonNegative(x, y);
    ProductZeroIff(x, y);
    ProductZeroIff(x, x);
    ProductZeroIff(y, y);
  }

  /** How the squares of |sqrt a - sqrt b| and sqrt a + sqrt b relate to a, b, their overlap o and their distance d. */
  predicate Terms(a: real, b: real, uu: real, vv: real, o: real, d: real) {
    && uu == a + b - 2.0 * o && vv == a + b + 2.0 * o
    && a + b - 2.0 * o <= d && o >= 0.0 && d >= 0.0
  }

  lemma TermsOfRoots(x: real, y: real, u: real, a: real, b: real, o: real)
    requires x >= 0.0 && y >= 0.0 && x * x == a && y * y == b && x * y == o && u == Abs(x - y)
    ensures Abs(a - b) == u * (x + y)
    ensures Terms(a, b, u * u, (x + y) * (x + y), o, Abs(a - b))
  {
    assert (x - y) * (x + y) == a - b;
    if x < y {
      ProductPositive(y - x, x + y);
      assert u * (x + y) == b - a;
    } else {
      ProductNonNegative(x - y, x + y);
      assert u * (x + y) == a - b;
    }
    assert u * u == (x - y) * (x - y) == a + b - 2.0 * o;
    MulMonotone(u, u, x + y);
    ProductNonNegative(x, y);
  }

  lemma RootTerms(root: real -> real, a: real, b: real, u: real, v: real)
    requires IsRoot(root) && a >= 0.0 && b >= 0.0 && u == Abs(root(a) - root(b)) && v == root(a) + root(b)
    ensures Abs(a - b) == u * v && Terms(a, b, u * u, v * v, OverlapTerm(root, a, b), Abs(a - b))
  {
    assert RootAt(root, a) && RootAt(root, b);
    OverlapIsProduct(root, a, b);
    TermsOfRoots(root(a), root(b), u, a, b, OverlapTerm(root, a, b));
  }

  lemma {:induction false} SumPlus(s: seq<real>, a: seq<real>, b: seq<real>, c: seq<real>)
    requires |s| == |a| == |b| == |c| && forall i :: 0 <= i < |s| ==> s[i] == a[i] + b[i] + 2.0 * c[i]
    ensures Sum(s) == Sum(a) + Sum(b) + 2.0 * Sum(c)
  {
    if s != [] {
      SumPlus(s[1..], a[1..], b[1..], c[1..]);
    }
  }

  lemma {:induction false} SumMinus(s: seq<real>, a: seq<real>, b: seq<real>, c: seq<real>)
    requires |s| == |a| == |b| == |c| && forall i :: 0 <= i < |s| ==> s[i] == a[i] + b[i] - 2.0 * c[i]
    ensures Sum(s) == Sum(a) + Sum(b) - 2.0 * Sum(c)
  {
    if s != [] {
      SumMinus(s[1..], a[1..], b[1..], c[1..]);
    }
  }

  ghost predicate AllTerms(a: seq<real>, b: seq<real>, uu: seq<real>, vv: seq<real>, o: seq<real>, d: seq<real>) {
    && |a| == |b| == |uu| == |vv| == |o| == |d|
    && forall i :: 0 <= i < |a| ==> Terms(a[i], b[i], uu[i], vv[i], o[i], d[i])
  }

  lemma {:induction false} TermSums(a: seq<real>, b: seq<real>, uu: seq<real>, vv: seq<real>, o: seq<real>,
      d: seq<real>)
    requires AllTerms(a, b, uu, vv, o, d)
    ensures Sum(uu) == Sum(a) + Sum(b) - 2.0 * Sum(o) && Sum(vv) == Sum(a) + Sum(b) + 2.0 * Sum(o)
    ensures Sum(a) + Sum(b) - 2.0 * Sum(o) <= Sum(d) && Sum(o) >= 0.0 && Sum(d) >= 0.0
  {
    SumMinus(uu, a, b, o);
    SumPlus(vv, a, b, o);
    SumAtMost(d, a, b, o);
    SumNonNegative(o);
    SumNonNegative(d);
  }

  /** How a total variation distance t and an overlap o limit each other. */
  predicate Bounded(t: real, o: real) {
    0.0 <= o && 0.0 <= t && 1.0 - o <= t && t * t + o * o <= 1.0
  }

  lemma BoundsArithmetic(d: real, o: real, uu: real, vv: real) returns (t: real)
    requires 0.0 <= o && 0.0 <= d && 2.0 - 2.0 * o <= d && uu == 2.0 - 2.0 * o && vv == 2.0 + 2.0 * o &&
             d * d <= uu * vv
    ensures t == 0.5 * d && Bounded(t, o)
  {
    t := 0.5 * d;
    assert uu * vv == 4.0 - 4.0 * (o * o);
    assert t * t == 0.25 * (d * d);
  }

  ghost predicate RootGaps(root: real -> real, a: seq<real>, b: seq<real>, u: seq<real>, v: seq<real>) {
    && |a| == |b| == |u| == |v|
    && forall i :: 0 <= i < |a| ==> u[i] == Abs(root(a[i]) - root(b[i])) && v[i] == root(a[i]) + root(b[i])
  }

  lemma GapTerms(root: real -> real, a: seq<real>, b: seq<real>, u: seq<real>, v: seq<real>, uu: seq<real>,
      vv: seq<real>)
    requires IsRoot(root) && RootGaps(root, a, b, u, v) && AllNonNegative(a) && AllNonNegative(b) && |uu| == |vv| == |u|
    requires forall i :: 0 <= i < |u| ==> uu[i] == u[i] * u[i] && vv[i] == v[i] * v[i]
    ensures Products(u, v, Distances(a, b), uu, vv)
    ensures AllTerms(a, b, uu, vv, Overlaps(root, a, b), Distances(a, b))
  {
    forall i | 0 <= i < |a|
      ensures Distances(a, b)[i] == u[i] * v[i]
      ensures Terms(a[i], b[i], uu[i], vv[i], Overlaps(root, a, b)[i], Distances(a, b)[i])
    {
      RootTerms(root, a[i], b[i], u[i], v[i]);
    }
  }

  lemma TakeRoots(root: real -> real, a: seq<real>, b: seq<real>) returns (u: seq<real>, v: seq<real>)
    requires |a| == |b|
    ensures RootGaps(root, a, b, u, v)
  {
    u := seq(|a|, i requires 0 <= i < |a| => Abs(root(a[i]) - root(b[i])));
    v := seq(|a|, i requires 0 <= i < |a| => root(a[i]) + root(b[i]));
  }

  function Squares(u: seq<real>): (r: seq<real>)
    ensures |r| == |u| && forall i :: 0 <= i < |u| ==> r[i] == u[i] * u[i]
  {
    seq(|u|, i requires 0 <= i < |u| => u[i] * u[i])
  }

  lemma Bounds(root: real -> real, a: seq<real>, b: seq<real>) returns (t: real, o: real)
    requires IsRoot(root) && |a| == |b| && AllNonNegative(a) && AllNonNegative(b) && Sum(a) == Sum(b) == 1.0
    ensures t == 0.5 * Sum(Distances(a, b)) && o == Sum(Overlaps(root, a, b)) && Bounded(t, o)
  {
    o := Sum(Overlaps(root, a, b));
    var u, v := TakeRoots(root, a, b);
    var uu, vv := Squares(u), Squares(v);
    GapTerms(root, a, b, u, v, uu, vv);
    TermSums(a, b, uu, vv, Overlaps(root, a, b), Distances(a, b));
    var sumUv, sumUu, sumVv := CauchySchwarz(u, v, Distances(a, b), uu, vv);
    t := BoundsArithmetic(sumUv, o, sumUu, sumVv);
  }

  // --- distributions -------------------------------------------------------------------------------

  /** The values are not negative and add up to one. */
  ghost predicate Normalised(p: Distribution) {
    (forall k :: k in p ==> p[k] >= 0.0) && SumValues(p) == 1.0
  }

  lemma ValuesTail(p: Distribution, keys: seq<string>)
    requires keys != [] && forall i, j :: 0 <= i < j < |keys| ==> keys[i] != keys[j]
    ensures Values(p, keys)[1..] == Values(p - {keys[0]}, keys[1..])
  {
    forall i | 0 <= i < |keys| - 1
      ensures Values(p, keys)[1..][i] == Values(p - {keys[0]}, keys[1..])[i]
    {
      assert keys[0] != keys[i + 1];
    }
  }

  lemma {:induction false} SumWithout(p: Distribution, k: string)
    ensures SumValues(p) == At(p, k) + SumValues(p - {k})
  {
    if k in p {
      SumInsert(p, k);
    } else {
      assert p - {k} == p;
    }
  }

  lemma {:induction false} ValuesSum(p: Distribution, keys: seq<string>)
    requires p.Keys <= set k | k in keys
    requires forall i, j :: 0 <= i < j < |keys| ==> keys[i] != keys[j]
    ensures Sum(Values(p, keys)) == SumValues(p)
    decreases |keys|
  {
    if keys == [] {
      assert p == map[];
    } else {
      ValuesTail(p, keys);
      ValuesSum(p - {keys[0]}, keys[1..]);
      SumWithout(p, keys[0]);
    }
  }

  lemma NormalisedValues(p: Distribution, keys: seq<string>)
    requires Normalised(p) && p.Keys <= set k | k in keys
    requires forall i, j :: 0 <= i < j < |keys| ==> keys[i] != keys[j]
    ensures AllNonNegative(Values(p, keys)) && Sum(Values(p, keys)) == 1.0
  {
    ValuesSum(p, keys);
  }

  lemma ScoreBounds(root: real -> real, p: Distribution, q: Distribution) returns (t: real, o: real)
    requires IsRoot(root) && Normalised(p) && Normalised(q)
    ensures t == Tvd(p, q) && o == Overlap(root, p, q) && Bounded(t, o)
  {
    var keys := Support(p, q);
    NormalisedValues(p, keys);
    NormalisedValues(q, keys);
    t, o := Bounds(root, Values(p, keys), Values(q, keys));
  }

  lemma ZeroSquare(t: real)
    requires t * t <= 0.0
    ensures t == 0.0
  {
    SmallerSquare(t, 0.0);
    assert (-t) * (-t) == t * t;
    SmallerSquare(-t, 0.0);
  }

  /** What the bounds say about a distance t and a fidelity f. */
  predicate Scores(t: real, f: real) {
    && 0.0 <= f <= 1.0 && t * t <= 1.0 - f && (1.0 - t) * (1.0 - t) <= f
    && (f == 1.0 <==> t == 0.0)
  }

  lemma BoundedScores(t: real, o: real) returns (f: real)
    requires Bounded(t, o)
    ensures f == ClampedSquare(o) && f == o * o && Scores(t, f) && (f == 0.0 <==> o == 0.0)
  {
    f := o * o;
    ProductNonNegative(o, o);
    ProductNonNegative(t, t);
    ProductZeroIff(o, o);
    SmallerSquare(t, 1.0);
    if 1.0 - t < o {
      MulGrows(1.0 - t, o);
    }
    if o * o == 1.0 {
      ZeroSquare(t);
    }
    if t == 0.0 && o > 1.0 {
      MulGrows(1.0, o);
    }
  }

  /** The fidelity is the squared overlap: the clamp to one never changes anything. */
  lemma ClampIsIdle(root: real -> real, p: Distribution, q: Distribution) returns (t: real, o: real, f: real)
    requires IsRoot(root) && Normalised(p) && Normalised(q)
    ensures t == Tvd(p, q) && o == Overlap(root, p, q) && f == Fidelity(root, p, q)
    ensures f == o * o && Scores(t, f) && (f == 0.0 <==> o == 0.0)
  {
    t, o := ScoreBounds(root, p, q);
    f := BoundedScores(t, o);
  }

  /** The same probability for every outcome; missing entries count as zero. */
  ghost predicate SameDistribution(p: Distribution, q: Distribution) {
    forall k :: At(p, k) == At(q, k)
  }

  lemma NoDistanceIff(a: seq<real>, b: seq<real>)
    requires |a| == |b|
    ensures Sum(Distances(a, b)) == 0.0 <==> a == b
  {
    var d := Distances(a, b);
    SumNonNegative(d);
    if Sum(d) == 0.0 {
      forall i | 0 <= i < |a|
        ensures a[i] == b[i]
      {
        assert d[i] == 0.0;
      }
    }
    if a == b {
      assert forall i :: 0 <= i < |a| ==> d[i] == Abs(a[i] - b[i]) == 0.0;
      SumZeros(d);
    }
  }

  lemma SameIffNoDistance(p: Distribution, q: Distribution)
    ensures Tvd(p, q) == 0.0 <==> SameDistribution(p, q)
  {
    var keys := Support(p, q);
    var a, b := Values(p, keys), Values(q, keys);
    NoDistanceIff(a, b);
    if a == b {
      forall k
        ensures At(p, k) == At(q, k)
      {
        if k in keys {
          var i :| 0 <= i < |keys| && keys[i] == k;
          assert a[i] == b[i];
        }
      }
    }
  }

  /** Full fidelity means the same distribution. */
  lemma FullFidelityIff(root: real -> real, p: Distribution, q: Distribution)
    requires IsRoot(root) && Normalised(p) && Normalised(q)
    ensures Fidelity(root, p, q) == 1.0 <==> SameDistribution(p, q)
  {
    var t, o, f := ClampIsIdle(root, p, q);
    SameIffNoDistance(p, q);
  }

  /** No outcome has a positive probability in both. */
  ghost predicate Disjoint(p: Distribution, q: Distribution) {
    forall k :: At(p, k) == 0.0 || At(q, k) == 0.0
  }

  lemma NoOverlapIff(root: real -> real, a: seq<real>, b: seq<real>)
    requires IsRoot(root) && |a| == |b| && AllNonNegative(a) && AllNonNegative(b)
    ensures Sum(Overlaps(root, a, b)) == 0.0 <==> forall i :: 0 <= i < |a| ==> a[i] == 0.0 || b[i] == 0.0
  {
    var o := Overlaps(root, a, b);
    forall i | 0 <= i < |a|
      ensures o[i] >= 0.0 && (o[i] == 0.0 <==> a[i] == 0.0 || b[i] == 0.0)
    {
      OverlapIsProduct(root, a[i], b[i]);
    }
    SumNonNegative(o);
    if forall i :: 0 <= i < |o| ==> o[i] == 0.0 {
      SumZeros(o);
    }
  }

  lemma DisjointIff(p: Distribution, q: Distribution)
    ensures var keys := Support(p, q); var a, b := Values(p, keys), Values(q, keys);
            Disjoint(p, q) <==> forall i :: 0 <= i < |a| ==> a[i] == 0.0 || b[i] == 0.0
  {
    var keys := Support(p, q);
    var a, b := Values(p, keys), Values(q, keys);
    if forall i :: 0 <= i < |a| ==> a[i] == 0.0 || b[i] == 0.0 {
      forall k
        ensures At(p, k) == 0.0 || At(q, k) == 0.0
      {
        if k in keys {
          var i :| 0 <= i < |keys| && keys[i] == k;
          assert a[i] == 0.0 || b[i] == 0.0;
        }
      }
    }
  }

  /** No fidelity means that no outcome is possible in both. */
  lemma NoFidelityIff(root: real -> real, p: Distribution, q: Distribution)
    requires IsRoot(root) && Normalised(p) && Normalised(q)
    ensures Fidelity(root, p, q) == 0.0 <==> Disjoint(p, q)
  {
    var keys := Support(p, q);
    var t, o, f := ClampIsIdle(root, p, q);
    NormalisedValues(p, keys);
    NormalisedValues(q, keys);
    NoOverlapIff(root, Values(p, keys), Values(q, keys));
    DisjointIff(p, q);
  }

  // --- the verdict -----------------------------------------------------------------------------------

  /** What a verdict says about the total variation distance t. */
  predicate GradeMeans(grade: Grade, within: bool, t: real) {
    match grade
    case Reproducible => within && t * t <= 0.01
    case Drifted => t * t <= 0.1
    case Divergent => t * t <= 0.3 && (1.0 - t) * (1.0 - t) < 0.9
    case Irreproducible => (1.0 - t) * (1.0 - t) < 0.7
  }

  lemma GradeLimits(f: real, t: real, within: bool)
    requires Scores(t, f)
    ensures GradeMeans(GradeFor(f, within), within, t)
  {}

  datatype Score = Score(fidelity: real, tvd: real, within: bool, grade: Grade)

  /** score; high is the upper end of the bootstrapped interval, when there are counts to resample. */
  method ScorePair(root: real -> real, p: Distribution, q: Distribution, high: Option<real>) returns (s: Score)
    requires IsRoot(root) && Normalised(p) && Normalised(q)
    ensures s.tvd == Tvd(p, q) && s.fidelity == Fidelity(root, p, q)
    ensures s.within <==> (high.Some? ==> s.tvd <= high.value + 0.000000001)
    ensures GradeMeans(s.grade, s.within, s.tvd)
    ensures SameDistribution(p, q) ==> s.grade == if s.within then Reproducible else Drifted
    ensures Disjoint(p, q) ==> s.grade == Irreproducible
  {
    var fidelity, tvd := Fidelity(root, p, q), Tvd(p, q);
    var within := true;
    if high.Some? {
      within := tvd <= high.value + 0.000000001;
    }
    var t, o, f := ClampIsIdle(root, p, q);
    GradeLimits(f, t, within);
    FullFidelityIff(root, p, q);
    NoFidelityIff(root, p, q);
    s := Score(fidelity, tvd, within, GradeFor(fidelity, within));
  }
}
