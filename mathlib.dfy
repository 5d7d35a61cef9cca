/** The two library routines the engines call, `Math.sqrt` and `Math.pow`,
    taken as function values: the model fixes only the laws the proofs need
    of them, never a particular floating-point implementation. */
module MathLib {

  datatype Math = Math(sqrt: real -> real, pow: (real, real) -> real)

  /** What is assumed of `Math.sqrt`: on a non-negative argument it returns
      the non-negative number whose square is that argument. Nothing is
      assumed of `Math.pow`. */
  ghost predicate Lawful(m: Math) {
    forall s: real {:trigger Root(m, s)} :: 0.0 <= s ==> 0.0 <= Root(m, s) && Root(m, s) * Root(m, s) == s
  }

  /** `m.sqrt(s)` under a name of its own, so that the law above is used only
      where a proof asks for it (through `RootLaw`). */
  function Root(m: Math, s: real): real {
    m.sqrt(s)
  }

  /** The law of `Math.sqrt` at one argument. */
  lemma RootLaw(m: Math, s: real)
    requires Lawful(m) && s >= 0.0
    ensures m.sqrt(s) >= 0.0 && m.sqrt(s) * m.sqrt(s) == s
  {
    assert Root(m, s) == m.sqrt(s);
  }

  /** The root of a positive number is positive, and so is its cube. */
  lemma RootPositive(m: Math, s: real)
    requires Lawful(m) && s > 0.0
    ensures m.sqrt(s) > 0.0
    ensures m.sqrt(s) * m.sqrt(s) * m.sqrt(s) > 0.0
  {
    var r := m.sqrt(s);
    RootLaw(m, s);
    assert r != 0.0;
    assert r * r > 0.0;
  }

  /** The root is unique: a non-negative `r` with `r * r == s` is `sqrt(s)`. */
  lemma RootUnique(m: Math, s: real, r: real)
    requires Lawful(m) && r >= 0.0 && r * r == s
    ensures m.sqrt(s) == r
  {
    var q := m.sqrt(s);
    RootLaw(m, s);
    if q < r {
      SquareIncreasing(q, r);
      assert false;
    } else if r < q {
      SquareIncreasing(r, q);
      assert false;
    }
  }

  /** The root of zero is zero. */
  lemma RootOfZero(m: Math)
    requires Lawful(m)
    ensures m.sqrt(0.0) == 0.0
  {
    RootUnique(m, 0.0, 0.0);
  }

  /** Squaring is strictly increasing on the non-negative reals. */
  lemma SquareIncreasing(a: real, b: real)
    requires 0.0 <= a < b
    ensures a * a < b * b
  {
    assert b * b - a * a == (b - a) * (b + a);
    PositiveProduct(b - a, b + a);
  }

  /** The product of two positive numbers is positive. */
  lemma PositiveProduct(a: real, b: real)
    requires 0.0 < a && 0.0 < b
    ensures a * b > 0.0
  {
  }

  // The solver does not carry a product of reals from a lemma to its caller
  // reliably; the steps below therefore state their products through `Sq`,
  // which the caller sees as one and the same term.

  /** The square of a real. */
  function Sq(x: real): real { x * x }

  /** The square of a product is the product of the squares. */
  lemma SquareOfProduct(p: real, d: real)
    ensures Sq(p) * Sq(d) == Sq(p * d)
  {
  }

  /** `a + b == 1` when `a * s + b * s == s` for a positive `s`. */
  lemma CancelSum(a: real, b: real, s: real, u: real, v: real)
    requires s > 0.0 && a * s == u && b * s == v && s == u + v
    ensures a + b == 1.0
  {
  }

  /** `a * s + b * s == s` when `a + b == 1`. */
  lemma UnitScale(a: real, b: real, s: real)
    requires a + b == 1.0
    ensures a * s + b * s == s
  {
    assert a * s + b * s == (a + b) * s;
  }

  /** With `p * d == x` and `q * d == y`, the pair `(p, q)` has unit length
      when `d` is a length of `(x, y)` other than zero. */
  lemma UnitQuotients(x: real, y: real, p: real, q: real, d: real)
    requires Sq(d) > 0.0 && Sq(d) == Sq(x) + Sq(y) && p * d == x && q * d == y
    ensures Sq(p) + Sq(q) == 1.0
  {
    SquareOfProduct(p, d);
    SquareOfProduct(q, d);
    CancelSum(Sq(p), Sq(q), Sq(d), Sq(x), Sq(y));
  }

  /** A pair of unit length scaled by `s` has squared length `s * s`. */
  lemma ScaledUnit(p: real, q: real, s: real)
    requires Sq(p) + Sq(q) == 1.0
    ensures Sq(p * s) + Sq(q * s) == Sq(s)
  {
    SquareOfProduct(p, s);
    SquareOfProduct(q, s);
    UnitScale(Sq(p), Sq(q), Sq(s));
  }
}
