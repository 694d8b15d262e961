/**
 Row-major addressing of a 2 x 2 x ... x 2 array with n axes: axis 0 is the most
 significant bit of the flat position, which is how numpy's reshape([2]*n) lays out a
 vector of 2**n amplitudes.
 */
module MultiIndex {
  type Index = seq<bool>

  function Pow2(n: nat): (r: nat)
    ensures r >= 1
  {
    if n == 0 then 1 else 2 * Pow2(n - 1)
  }

  function Ravel(idx: Index): (i: nat)
    ensures i < Pow2(|idx|)
  {
    if idx == [] then 0
    else (if idx[0] then Pow2(|idx| - 1) else 0) + Ravel(idx[1..])
  }

  function Unravel(i: nat, n: nat): (idx: Index)
    requires i < Pow2(n)
    ensures |idx| == n
  {
    if n == 0 then []
    else
      var half := Pow2(n - 1);
      [i >= half] + Unravel(if i >= half then i - half else i, n - 1)
  }

  lemma {:induction false} UnravelRavel(idx: Index)
    ensures Unravel(Ravel(idx), |idx|) == idx
  {
    if idx != [] {
      UnravelRavel(idx[1..]);
    }
  }

  lemma {:induction false} RavelUnravel(i: nat, n: nat)
    requires i < Pow2(n)
    ensures Ravel(Unravel(i, n)) == i
  {
    if n != 0 {
      var half := Pow2(n - 1);
      var low := if i >= half then i - half else i;
      RavelUnravel(low, n - 1);
      assert Unravel(i, n)[1..] == Unravel(low, n - 1);
    }
  }

  /** Distinct positions have distinct multi-indices. */
  lemma {:induction false} UnravelInjective(i: nat, j: nat, n: nat)
    requires i < Pow2(n) && j < Pow2(n) && Unravel(i, n) == Unravel(j, n)
    ensures i == j
  {
    RavelUnravel(i, n);
    RavelUnravel(j, n);
  }

  function Insert(idx: Index, q: nat, b: bool): (r: Index)
    requires q <= |idx|
    ensures |r| == |idx| + 1
  {
    idx[..q] + [b] + idx[q..]
  }

  function Remove(idx: Index, q: nat): (r: Index)
    requires q < |idx|
    ensures |r| == |idx| - 1
  {
    idx[..q] + idx[q + 1..]
  }

  lemma InsertRemove(idx: Index, q: nat, b: bool)
    requires q < |idx|
    ensures Insert(Remove(idx, q), q, b) == idx[q := b]
  {
  }

  lemma RemoveInsert(idx: Index, q: nat, b: bool)
    requires q <= |idx|
    ensures Remove(Insert(idx, q, b), q) == idx && Insert(idx, q, b)[q] == b
  {
  }

  /** Where axis t ends up once axis c is dropped: t when it precedes c, t-1 when it follows. */
  function AxisWithout(c: nat, t: nat): nat
    requires c != t
  {
    if t < c then t else t - 1
  }

  /** Flips coordinate q. */
  function Toggle(idx: Index, q: nat): (r: Index)
    requires q < |idx|
    ensures |r| == |idx|
  {
    idx[q := !idx[q]]
  }

  /** Flipping the renumbered axis of the view without c is flipping axis t of the whole. */
  lemma ToggleWithout(idx: Index, c: nat, t: nat)
    requires c < |idx| && t < |idx| && c != t
    ensures Insert(Toggle(Remove(idx, c), AxisWithout(c, t)), c, idx[c]) == Toggle(idx, t)
  {
    var a := AxisWithout(c, t);
    var l, r := Insert(Toggle(Remove(idx, c), a), c, idx[c]), Toggle(idx, t);
    assert Remove(idx, c)[a] == idx[t];
    assert |l| == |r|;
    forall j | 0 <= j < |r|
      ensures l[j] == r[j]
    {
    }
  }

  /** The flat position reached from i by flipping coordinate q. */
  function Partner(i: nat, q: nat, n: nat): (j: nat)
    requires i < Pow2(n) && q < n
    ensures j < Pow2(n)
  {
    Ravel(Toggle(Unravel(i, n), q))
  }

  lemma {:induction false} PartnerIndex(i: nat, q: nat, n: nat)
    requires i < Pow2(n) && q < n
    ensures Unravel(Partner(i, q, n), n) == Toggle(Unravel(i, n), q)
    ensures Partner(Partner(i, q, n), q, n) == i
  {
    UnravelRavel(Toggle(Unravel(i, n), q));
    RavelUnravel(i, n);
    assert Toggle(Toggle(Unravel(i, n), q), q) == Unravel(i, n);
  }

  lemma {:induction false} PartnersCommute(i: nat, p: nat, q: nat, n: nat)
    requires i < Pow2(n) && p < n && q < n && p != q
    ensures Partner(Partner(i, p, n), q, n) == Partner(Partner(i, q, n), p, n)
  {
    PartnerIndex(i, p, n);
    PartnerIndex(i, q, n);
    assert Toggle(Toggle(Unravel(i, n), p), q) == Toggle(Toggle(Unravel(i, n), q), p);
  }

  /** How Partner acts on the two half-vectors that axis 0 splits a vector into. */
  lemma PartnerHalves(i: nat, q: nat, n: nat)
    requires i < Pow2(n) && q < n
    ensures var half := Pow2(n - 1);
            Partner(i, q, n) ==
            if q == 0 then (if i >= half then i - half else i + half)
            else if i >= half then half + Partner(i - half, q - 1, n - 1)
            else Partner(i, q - 1, n - 1)
  {
    var half := Pow2(n - 1);
    var low := if i >= half then i - half else i;
    var idx := Unravel(i, n);
    assert idx[1..] == Unravel(low, n - 1);
    if q == 0 {
      assert Toggle(idx, 0)[1..] == idx[1..];
      RavelUnravel(low, n - 1);
    } else {
      assert Toggle(idx, q)[1..] == Toggle(idx[1..], q - 1);
    }
  }

  /** 2**(a+b) == 2**a * 2**b. */
  lemma {:induction false} Pow2Add(a: nat, b: nat)
    ensures Pow2(a + b) == Pow2(a) * Pow2(b)
  {
    if a != 0 {
      Pow2Add(a - 1, b);
      assert Pow2(a) * Pow2(b) == 2 * (Pow2(a - 1) * Pow2(b));
    }
  }

  /** Bit p of x. */
  predicate BitOf(x: nat, p: nat) {
    if p == 0 then x % 2 == 1 else BitOf(x / 2, p - 1)
  }

  lemma {:induction false} HigherBitIgnored(x: nat, p: nat, q: nat)
    requires q > 0
    ensures BitOf(x + Pow2(p + q), p) == BitOf(x, p)
    decreases p
  {
    if p > 0 {
      assert (x + Pow2(p + q)) / 2 == x / 2 + Pow2(p - 1 + q);
      HigherBitIgnored(x / 2, p - 1, q);
    }
  }

  lemma {:induction false} TopBit(x: nat, p: nat)
    requires x < Pow2(p)
    ensures !BitOf(x, p) && BitOf(x + Pow2(p), p)
    decreases p
  {
    if p > 0 {
      assert (x + Pow2(p)) / 2 == x / 2 + Pow2(p - 1);
      TopBit(x / 2, p - 1);
    }
  }

  /**
   Axis q of the 2 x ... x 2 view is bit n-1-q of the flat position: qubit 0 is the most
   significant bit.
   */
  lemma {:induction false} AxisIsBit(i: nat, q: nat, n: nat)
    requires i < Pow2(n) && q < n
    ensures Unravel(i, n)[q] == BitOf(i, n - 1 - q)
    decreases n
  {
    var half := Pow2(n - 1);
    var low := if i >= half then i - half else i;
    if q == 0 {
      TopBit(low, n - 1);
    } else {
      var p := n - 1 - q;
      AxisIsBit(low, q - 1, n - 1);
      assert Unravel(i, n)[q] == Unravel(low, n - 1)[q - 1];
      HigherBitIgnored(low, p, q);
      assert p + q == n - 1;
    }
  }

  /** Flipping axis q moves a flat position by exactly 2**(n-1-q). */
  lemma {:induction false} PartnerDistance(i: nat, q: nat, n: nat)
    requires i < Pow2(n) && q < n
    ensures Partner(i, q, n) == if Unravel(i, n)[q] then i - Pow2(n - 1 - q) else i + Pow2(n - 1 - q)
    decreases n
  {
    var half := Pow2(n - 1);
    var low := if i >= half then i - half else i;
    PartnerHalves(i, q, n);
    if q > 0 {
      PartnerDistance(low, q - 1, n - 1);
      assert Unravel(i, n)[q] == Unravel(low, n - 1)[q - 1];
    }
  }
}
