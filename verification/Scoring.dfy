/** Comparing two outcome distributions: total variation distance, Hellinger fidelity and the verdict. */
module Scoring {
  import opened CanonicalJson
  import opened Sums
  import opened Wrappers

  type Distribution = map<string, real>

  // --- the support -----------------------------------------------------------------------------

  predicate IsSmallest(s: set<string>, k: string) {
    k in s && forall j :: j in s ==> j == k || KeyLess(k, j)
  }

  lemma {:induction false} SmallestExists(s: set<string>)
    requires s != {}
    ensures exists k :: IsSmallest(s, k)
  {
    var x :| x in s;
    if s == {x} {
      assert IsSmallest(s, x);
    } else {
      SmallestExists(s - {x});
      var k :| IsSmallest(s - {x}, k);
      KeyLessTotal(x, k);
      if KeyLess(k, x) {
        assert IsSmallest(s, k);
      } else {
        forall j | j in s
          ensures j == x || KeyLess(x, j)
        {
          if j != x && j != k {
            KeyLessTransitive(x, k, j);
          }
        }
        assert IsSmallest(s, x);
      }
    }
  }

  lemma SmallestIsOne(s: set<string>, j: string, k: string)
    requires IsSmallest(s, j) && IsSmallest(s, k)
    ensures j == k
  {
    KeyLessTotal(j, k);
  }

  /** sorted(s) */
  function SortedSet(s: set<string>): (keys: seq<string>)
    ensures forall k :: k in keys <==> k in s
    ensures forall i, j :: 0 <= i < j < |keys| ==> keys[i] != keys[j]
    decreases |s|
  {
    if s == {} then []
    else
      SmallestExists(s);
      assert forall j, k :: IsSmallest(s, j) && IsSmallest(s, k) ==> j == k by {
        forall j, k | IsSmallest(s, j) && IsSmallest(s, k)
          ensures j == k
        {
          SmallestIsOne(s, j, k);
        }
      }
      var k :| IsSmallest(s, k);
      [k] + SortedSet(s - {k})
  }

  /** _support */
  function Support(p: Distribution, q: Distribution): seq<string> {
    SortedSet(p.Keys + q.Keys)
  }

  function At(p: Distribution, key: string): real {
    if key in p then p[key] else 0.0
  }

  function Values(p: Distribution, keys: seq<string>): (r: seq<real>)
    ensures |r| == |keys|
    ensures forall i :: 0 <= i < |keys| ==> r[i] == At(p, keys[i])
  {
    seq(|keys|, i requires 0 <= i < |keys| => At(p, keys[i]))
  }

  // --- the scores ------------------------------------------------------------------------------

  function Abs(x: real): real {
    if x < 0.0 then -x else x
  }

  function NonNegative(x: real): real {
    if x < 0.0 then 0.0 else x
  }

  function Distances(a: seq<real>, b: seq<real>): (r: seq<real>)
    requires |a| == |b|
    ensures |r| == |a|
  {
    seq(|a|, i requires 0 <= i < |a| => Abs(a[i] - b[i]))
  }

  function OverlapTerm(root: real -> real, a: real, b: real): real {
    root(NonNegative(a) * NonNegative(b))
  }

  function Overlaps(root: real -> real, a: seq<real>, b: seq<real>): (r: seq<real>)
    requires |a| == |b|
    ensures |r| == |a|
  {
    seq(|a|, i requires 0 <= i < |a| => OverlapTerm(root, a[i], b[i]))
  }

  /** total_variation_distance */
  function Tvd(p: Distribution, q: Distribution): real {
    var keys := Support(p, q);
    0.5 * Sum(Distances(Values(p, keys), Values(q, keys)))
  }

  /** The Bhattacharyya coefficient. */
  function Overlap(root: real -> real, p: Distribution, q: Distribution): real {
    var keys := Support(p, q);
    Sum(Overlaps(root, Values(p, keys), Values(q, keys)))
  }

  function ClampedSquare(bc: real): real {
    if bc * bc < 1.0 then bc * bc else 1.0
  }

  /** hellinger_fidelity */
  function Fidelity(root: real -> real, p: Distribution, q: Distribution): real {
    ClampedSquare(Overlap(root, p, q))
  }

  datatype Grade = Reproducible | Drifted | Divergent | Irreproducible

  /** verdict_for */
  function GradeFor(fidelity: real, withinShotNoise: bool): Grade {
    if fidelity >= 0.99 && withinShotNoise then Reproducible
    else if fidelity >= 0.90 then Drifted
    else if fidelity >= 0.70 then Divergent
    else Irreproducible
  }

  // --- sums, term by term ----------------------------------------------------------------------

  lemma {:induction false} SumNonNegative(s: seq<real>)
    requires forall i :: 0 <= i < |s| ==> s[i] >= 0.0
    ensures Sum(s) >= 0.0
    ensures Sum(s) == 0.0 ==> forall i :: 0 <= i < |s| ==> s[i] == 0.0
  {
    if s != [] {
      SumNonNegative(s[1..]);
      assert forall i :: 1 <= i < |s| ==> s[i] == s[1..][i - 1];
    }
  }

  lemma {:induction false} SumZeros(s: seq<real>)
    requires forall i :: 0 <= i < |s| ==> s[i] == 0.0
    ensures Sum(s) == 0.0
  {
    if s != [] {
      SumZeros(s[1..]);
    }
  }

  /** Term-by-term inequality, with the right-hand side a combination of three sums. */
  lemma {:induction false} SumAtMost(s: seq<real>, a: seq<real>, b: seq<real>, c: seq<real>)
    requires |s| == |a| == |b| == |c|
    requires forall i :: 0 <= i < |s| ==> a[i] + b[i] - 2.0 * c[i] <= s[i]
    ensures Sum(a) + Sum(b) - 2.0 * Sum(c) <= Sum(s)
  {
    if s != [] {
      SumAtMost(s[1..], a[1..], b[1..], c[1..]);
    }
  }

  lemma ProductPositive(x: real, y: real)
    requires x > 0.0 && y > 0.0
    ensures x * y > 0.0
  {}

  lemma ProductNonNegative(x: real, y: real)
    requires x >= 0.0 && y >= 0.0
    ensures x * y >= 0.0
  {}

  lemma MulGrows(x: real, y: real)
    requires 0.0 <= x < y
    ensures x * x < y * y
  {
    ProductPositive(y - x, y + x);
    assert (y - x) * (y + x) == y * y - x * x;
  }

  lemma SmallerSquare(x: real, y: real)
    requires y >= 0.0 && x * x <= y * y
    ensures x <= y
  {
    if x > y {
      MulGrows(y, x);
    }
  }

  lemma TwiceAtMostSum(a: real, b: real, c: real)
    requires a >= 0.0 && b >= 0.0 && a * b >= c * c
    ensures 2.0 * c <= a + b
  {
    var s, d := a + b, a - b;
    assert s * s == d * d + 4.0 * (a * b);
    assert d * d >= 0.0;
    assert (2.0 * c) * (2.0 * c) == 4.0 * (c * c);
    SmallerSquare(2.0 * c, s);
  }

  lemma CauchySchwarzStep(x: real, y: real, uv: real, uu: real, vv: real)
      returns (sumUv: real, sumUu: real, sumVv: real)
    requires uu >= 0.0 && vv >= 0.0 && uv * uv <= uu * vv
    ensures sumUv == x * y + uv && sumUu == x * x + uu && sumVv == y * y + vv
    ensures sumUu >= 0.0 && sumVv >= 0.0 && sumUv * sumUv <= sumUu * sumVv
  {
    var a, b, c := (x * x) * vv, (y * y) * uu, (x * y) * uv;
    assert a >= 0.0 && b >= 0.0;
    assert a * b == (x * y) * (x * y) * (uu * vv);
    assert c * c == (x * y) * (x * y) * (uv * uv);
    MulMonotone((x * y) * (x * y), uv * uv, uu * vv);
    TwiceAtMostSum(a, b, c);
    sumUv, sumUu, sumVv := x * y + uv, x * x + uu, y * y + vv;
    assert sumUv * sumUv == (x * y) * (x * y) + 2.0 * c + uv * uv;
    assert sumUu * sumVv == (x * x) * (y * y) + a + b + uu * vv;
    assert (x * y) * (x * y) == (x * x) * (y * y);
  }

  lemma MulMonotone(k: real, x: real, y: real)
    requires k >= 0.0 && x <= y
    ensures k * x <= k * y
  {}

  /** uv, uu and vv hold the products of u and v, term by term. */
  ghost predicate Products(u: seq<real>, v: seq<real>, uv: seq<real>, uu: seq<real>, vv: seq<real>) {
    && |u| == |v| == |uv| == |uu| == |vv|
    && forall i :: 0 <= i < |u| ==> uv[i] == u[i] * v[i] && uu[i] == u[i] * u[i] && vv[i] == v[i] * v[i]
  }

  lemma {:induction false} SumSplits(xs: seq<real>)
    requires xs != []
    ensures Sum(xs) == xs[0] + Sum(xs[1..])
  {}

  /** Takes a term of each sum: p, q and r are the products of x and y. */
  lemma OneMoreTerm(x: real, y: real, p: real, q: real, r: real, uv: real, uu: real, vv: real)
    returns (sumUv: real, sumUu: real, sumVv: real)
    requires p == x * y && q == x * x && r == y * y
    requires uu >= 0.0 && vv >= 0.0 && uv * uv <= uu * vv
    ensures sumUv == p + uv && sumUu == q + uu && sumVv == r + vv
    ensures sumUu >= 0.0 && sumVv >= 0.0 && sumUv * sumUv <= sumUu * sumVv
  {
    sumUv, sumUu, sumVv := CauchySchwarzStep(x, y, uv, uu, vv);
  }

  lemma {:induction false} CauchySchwarz(u: seq<real>, v: seq<real>, uv: seq<real>, uu: seq<real>, vv: seq<real>)
    returns (sumUv: real, sumUu: real, sumVv: real)
    requires Products(u, v, uv, uu, vv)
    ensures sumUv == Sum(uv) && sumUu == Sum(uu) && sumVv == Sum(vv)
    ensures sumUu >= 0.0 && sumVv >= 0.0 && sumUv * sumUv <= sumUu * sumVv
  {
    if u == [] {
      sumUv, sumUu, sumVv := 0.0, 0.0, 0.0;
    } else {
      var restUv, restUu, restVv := CauchySchwarz(u[1..], v[1..], uv[1..], uu[1..], vv[1..]);
      SumSplits(uv);
      SumSplits(uu);
      SumSplits(vv);
      sumUv, sumUu, sumVv := OneMoreTerm(u[0], v[0], uv[0], uu[0], vv[0], restUv, restUu, restVv);
    }
  }

  // --- square roots ----------------------------------------------------------------------------

  predicate RootAt(root: real -> real, x: real) {
    x >= 0.0 ==> root(x) >= 0.0 && root(x) * root(x) == x
  }

  /** math.sqrt, exactly. */
  ghost predicate IsRoot(root: real -> real) {
    forall x: real {:trigger RootAt(root, x)} :: RootAt(root, x)
  }

  lemma RootUnique(x: real, y: real)
    requires x >= 0.0 && y >= 0.0 && x * x == y * y
    ensures x == y
  {
    if x < y {
      MulGrows(x, y);
    } else if y < x {
      MulGrows(y, x);
    }
  }

  lemma RootOfProduct(root: real -> real, a: real, b: real)
    requires IsRoot(root) && a >= 0.0 && b >= 0.0
    ensures a * b >= 0.0 && root(a * b) == root(a) * root(b)
  {
    assert RootAt(root, a) && RootAt(root, b) && RootAt(root, a * b);
    var x, y := root(a), root(b);
    ProductNonNegative(a, b);
    ProductNonNegative(x, y);
    assert (x * y) * (x * y) == (x * x) * (y * y);
    RootUnique(root(a * b), x * y);
  }
}
