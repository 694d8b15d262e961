/** Exact complex amplitudes and the 2x2 unitaries of the pure-Python engine. */
module Amplitudes {
  datatype Complex = Complex(re: real, im: real) {
    function Plus(z: Complex): Complex {
      Complex(re + z.re, im + z.im)
    }

    function Times(z: Complex): Complex {
      Complex(re * z.re - im * z.im, re * z.im + im * z.re)
    }

    /** |z|^2 */
    function Norm2(): real {
      re * re + im * im
    }

    function Conj(): Complex {
      Complex(re, -im)
    }
  }

  const ZERO := Complex(0.0, 0.0)
  const ONE := Complex(1.0, 0.0)

  /** A 2x2 matrix; uRC is row R, column C. */
  datatype Matrix = Matrix(u00: Complex, u01: Complex, u10: Complex, u11: Complex) {
    function Row(b: bool): (Complex, Complex) {
      if b then (u10, u11) else (u00, u01)
    }

    /** Matrix product this * m. */
    function Times(m: Matrix): Matrix {
      Matrix(Dot(u00, m.u00, u01, m.u10), Dot(u00, m.u01, u01, m.u11),
             Dot(u10, m.u00, u11, m.u10), Dot(u10, m.u01, u11, m.u11))
    }

    /** The columns are orthonormal. */
    predicate Unitary() {
      && u00.Norm2() + u10.Norm2() == 1.0
      && u01.Norm2() + u11.Norm2() == 1.0
      && u00.Conj().Times(u01).Plus(u10.Conj().Times(u11)) == ZERO
    }
  }

  function RealMatrix(a: real, b: real, c: real, d: real): Matrix {
    Matrix(Complex(a, 0.0), Complex(b, 0.0), Complex(c, 0.0), Complex(d, 0.0))
  }

  const IDENTITY := Matrix(ONE, ZERO, ZERO, ONE)

  function Dot(x: Complex, a: Complex, y: Complex, b: Complex): Complex {
    x.Times(a).Plus(y.Times(b))
  }

  /**
   What the engine takes from libm: 1/sqrt(2), and the point e^(i t/2) of the unit circle for
   each rotation angle t.
   */
  datatype Numerics = Numerics(isqrt2: real, phase: real -> Complex) {
    ghost predicate Valid() {
      && isqrt2 * isqrt2 == 0.5
      && forall t :: phase(t).Norm2() == 1.0
    }

    function H(): Matrix {
      RealMatrix(isqrt2, isqrt2, isqrt2, -isqrt2)
    }

    /** diag(e^(-i t/2), e^(i t/2)) */
    function Rz(t: real): Matrix {
      Matrix(phase(t).Conj(), ZERO, ZERO, phase(t))
    }
  }

  const X := Matrix(ZERO, ONE, ONE, ZERO)
  const SX := Matrix(Complex(0.5, 0.5), Complex(0.5, -0.5), Complex(0.5, -0.5), Complex(0.5, 0.5))

  lemma HUnitary(k: Numerics)
    requires k.Valid()
    ensures k.H().Unitary()
  {
  }

  lemma XUnitary()
    ensures X.Unitary()
  {
  }

  lemma HalfUnitary(x: real, y: real, m: Matrix)
    requires x * x == 0.25 && y == -x && m == Matrix(Complex(x, x), Complex(x, y), Complex(x, y), Complex(x, x))
    ensures m.Unitary()
  {
    assert x * y == -0.25 && y * y == 0.25;
  }

  lemma SxUnitary()
    ensures SX.Unitary()
  {
    HalfUnitary(0.5, -0.5, SX);
  }

  lemma RzUnitary(k: Numerics, t: real)
    requires k.Valid()
    ensures k.Rz(t).Unitary()
  {
    assert k.phase(t).Norm2() == 1.0;
  }

  lemma RealDot(a: real, b: real, c: real, d: real)
    ensures Dot(Complex(a, 0.0), Complex(b, 0.0), Complex(c, 0.0), Complex(d, 0.0)) == Complex(a * b + c * d, 0.0)
  {
  }

  /** The square of a real matrix whose entries satisfy the four equations is the identity. */
  lemma RealSquareIsIdentity(a: real, b: real, c: real, d: real)
    requires a * a + b * c == 1.0 && a * b + b * d == 0.0 && c * a + d * c == 0.0 && c * b + d * d == 1.0
    ensures RealMatrix(a, b, c, d).Times(RealMatrix(a, b, c, d)) == IDENTITY
  {
    RealDot(a, a, b, c);
    RealDot(a, b, b, d);
    RealDot(c, a, d, c);
    RealDot(c, b, d, d);
  }

  lemma HSquared(k: Numerics)
    requires k.Valid()
    ensures k.H().Times(k.H()) == IDENTITY
  {
    RootOfHalf(k.isqrt2, k.H());
  }

  lemma RootOfHalf(s: real, m: Matrix)
    requires s * s == 0.5 && m == RealMatrix(s, s, s, -s)
    ensures m.Times(m) == IDENTITY
  {
    var t := -s;
    assert s * t == -0.5 && t * s == -0.5 && t * t == 0.5;
    RealSquareIsIdentity(s, s, s, t);
  }

  lemma XSquared()
    ensures X.Times(X) == IDENTITY
  {
  }

  lemma HalfSquared(x: real, y: real, m: Matrix)
    requires x * x == 0.25 && y == -x && m == Matrix(Complex(x, x), Complex(x, y), Complex(x, y), Complex(x, x))
    ensures m.Times(m) == X
  {
    assert x * y == -0.25 && y * x == -0.25 && y * y == 0.25;
    var a, b := Complex(x, x), Complex(x, y);
    assert a.Times(a) == Complex(0.0, 0.5) && b.Times(b) == Complex(0.0, -0.5);
    assert a.Times(b) == Complex(0.5, 0.0) == b.Times(a);
  }

  lemma SxSquared()
    ensures SX.Times(SX) == X
  {
    HalfSquared(0.5, -0.5, SX);
  }

  lemma DotZero(x: Complex, y: Complex, z: Complex)
    ensures Dot(x, y, ZERO, z) == x.Times(y) == Dot(ZERO, z, x, y) == Dot(z, ZERO, x, y) == Dot(x, y, z, ZERO)
  {
  }

  /** Rotations whose phases are conjugate, such as those by t and -t, cancel. */
  lemma RzCancels(k: Numerics, t: real, t': real)
    requires k.Valid() && k.phase(t') == k.phase(t).Conj()
    ensures k.Rz(t').Times(k.Rz(t)) == IDENTITY
  {
    var z := k.phase(t);
    var c := z.Conj();
    assert z.Norm2() == 1.0;
    assert z.Times(c) == ONE == c.Times(z);
    DotZero(z, c, ZERO);
    DotZero(c, z, ZERO);
    assert Dot(z, ZERO, ZERO, c) == ZERO == Dot(ZERO, c, z, ZERO);
    assert Dot(c, ZERO, ZERO, z) == ZERO == Dot(ZERO, z, c, ZERO);
  }

  // Complex multiplication is a commutative, associative product that distributes over
  // addition, and |.|^2 is multiplicative; each is a polynomial identity in the components.

  lemma AssocParts(a: real, b: real, c: real, d: real, e: real, f: real)
    ensures a * (c * e - d * f) - b * (c * f + d * e) == (a * c - b * d) * e - (a * d + b * c) * f
  {
  }

  lemma Assoc(x: Complex, y: Complex, z: Complex)
    ensures x.Times(y.Times(z)) == x.Times(y).Times(z)
  {
    AssocParts(x.re, x.im, y.re, y.im, z.re, z.im);
    AssocParts(x.re, x.im, y.re, y.im, z.im, -z.re);
  }

  lemma Distribute(x: Complex, y: Complex, z: Complex)
    ensures x.Times(y.Plus(z)) == x.Times(y).Plus(x.Times(z))
    ensures y.Plus(z).Times(x) == y.Times(x).Plus(z.Times(x))
  {
  }

  lemma Commute(x: Complex, y: Complex)
    ensures x.Times(y) == y.Times(x)
  {
  }

  lemma NormParts(a: real, b: real, c: real, d: real)
    ensures (a * c - b * d) * (a * c - b * d) + (a * d + b * c) * (a * d + b * c) == (a * a + b * b) * (c * c + d * d)
  {
  }

  lemma NormOfProduct(x: Complex, a: Complex)
    ensures x.Times(a).Norm2() == x.Norm2() * a.Norm2()
  {
    NormParts(x.re, x.im, a.re, a.im);
  }

  lemma CrossTerm(x: Complex, a: Complex, y: Complex, b: Complex)
    ensures x.Times(a).Conj().Times(y.Times(b)) == x.Conj().Times(y).Times(a.Conj().Times(b))
  {
    var x', a' := x.Conj(), a.Conj();
    assert x.Times(a).Conj() == x'.Times(a');
    Assoc(x', a', y.Times(b));
    Assoc(a', y, b);
    Commute(a', y);
    Assoc(y, a', b);
    Assoc(x', y, a'.Times(b));
  }

  /** |xa + yb|^2, expanded. */
  lemma NormOfDot(x: Complex, a: Complex, y: Complex, b: Complex)
    ensures var p, q := x.Conj().Times(y), a.Conj().Times(b);
            Dot(x, a, y, b).Norm2() ==
            x.Norm2() * a.Norm2() + y.Norm2() * b.Norm2() + 2.0 * (p.re * q.re - p.im * q.im)
  {
    var z, w := x.Times(a), y.Times(b);
    assert z.Plus(w).Norm2() == z.Norm2() + w.Norm2() + 2.0 * z.Conj().Times(w).re;
    NormOfProduct(x, a);
    NormOfProduct(y, b);
    CrossTerm(x, a, y, b);
  }

  /** A unitary keeps the total weight of the two amplitudes it mixes. */
  lemma UnitaryKeepsNorm(u: Matrix, a: Complex, b: Complex)
    requires u.Unitary()
    ensures Dot(u.u00, a, u.u01, b).Norm2() + Dot(u.u10, a, u.u11, b).Norm2() == a.Norm2() + b.Norm2()
  {
    var q := a.Conj().Times(b);
    var p0, p1 := u.u00.Conj().Times(u.u01), u.u10.Conj().Times(u.u11);
    NormOfDot(u.u00, a, u.u01, b);
    NormOfDot(u.u10, a, u.u11, b);
    Share(u.u00.Norm2(), u.u10.Norm2(), a.Norm2());
    Share(u.u01.Norm2(), u.u11.Norm2(), b.Norm2());
    Opposite(p0.re, p1.re, q.re);
    Opposite(p0.im, p1.im, q.im);
  }

  lemma Share(x: real, y: real, a: real)
    requires x + y == 1.0
    ensures x * a + y * a == a
  {
    assert x * a + y * a == (x + y) * a;
  }

  lemma Opposite(x: real, y: real, a: real)
    requires x + y == 0.0
    ensures x * a + y * a == 0.0
  {
    assert x * a + y * a == (x + y) * a;
  }

  lemma DotTimes(x: Complex, v: Complex, a: Complex, w: Complex, b: Complex)
    ensures x.Times(Dot(v, a, w, b)) == Dot(x.Times(v), a, x.Times(w), b)
  {
    Distribute(x, v.Times(a), w.Times(b));
    Assoc(x, v, a);
    Assoc(x, w, b);
  }

  /** Row by row: applying m and then u is applying u*m. */
  lemma ProductRow(x: Complex, y: Complex, m: Matrix, a: Complex, b: Complex)
    ensures Dot(x, Dot(m.u00, a, m.u01, b), y, Dot(m.u10, a, m.u11, b)) ==
            Dot(Dot(x, m.u00, y, m.u10), a, Dot(x, m.u01, y, m.u11), b)
  {
    DotTimes(x, m.u00, a, m.u01, b);
    DotTimes(y, m.u10, a, m.u11, b);
    Distribute(a, x.Times(m.u00), y.Times(m.u10));
    Distribute(b, x.Times(m.u01), y.Times(m.u11));
  }

  /** Mixing along two different axes can be done in either order. */
  lemma DotsCommute(x: Complex, y: Complex, v: Complex, w: Complex,
      a: Complex, b: Complex, c: Complex, d: Complex)
    ensures Dot(x, Dot(v, a, w, b), y, Dot(v, c, w, d)) == Dot(v, Dot(x, a, y, c), w, Dot(x, b, y, d))
  {
    DotTimes(x, v, a, w, b);
    DotTimes(y, v, c, w, d);
    DotTimes(v, x, a, y, c);
    DotTimes(w, x, b, y, d);
    Commute(x, v);
    Commute(x, w);
    Commute(y, v);
    Commute(y, w);
  }
}
