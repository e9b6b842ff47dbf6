/**
 * The one-dimensional Bernstein basis that the lattice deformation evaluates on
 * each axis: binomial coefficients, natural powers and the basis polynomials,
 * with the partition of unity that the binomial theorem gives them.
 */
module Bernstein {

  /**
   * The binomial coefficient C(n, k) as a real number (scipy's `binom` returns a
   * float); it is 0 when k > n.
   */
  function Binom(n: nat, k: nat): (r: real)
    ensures k == 0 ==> r == 1.0
    ensures k > n ==> r == 0.0
  {
    if k == 0 then 1.0
    else if n == 0 then 0.0
    else Binom(n - 1, k - 1) + Binom(n - 1, k)
  }

  /**
   * `x` raised to the natural power `e` (numpy's `power` with an integer
   * exponent, which gives 1 for 0 to the power 0).
   */
  function Pow(x: real, e: nat): real {
    if e == 0 then 1.0 else x * Pow(x, e - 1)
  }

  /**
   * The Bernstein polynomial of degree n and index i at t:
   * C(n, i) * (1 - t)^(n - i) * t^i, and 0 for an index beyond the degree.
   */
  function Bernstein(n: nat, i: nat, t: real): real {
    if i > n then 0.0 else Binom(n, i) * (Pow(1.0 - t, n - i) * Pow(t, i))
  }

  /** The sum f(0) + ... + f(m - 1). */
  function SumTo(f: nat -> real, m: nat): real {
    if m == 0 then 0.0 else SumTo(f, m - 1) + f(m - 1)
  }

  /**
   * The entry in column i of the basis matrix for an axis with d control
   * points, evaluated at the reference coordinate t: the polynomial of degree
   * d - 1 (a column beyond the matrix reads as 0).
   */
  function BasisEntry(d: nat, i: nat, t: real): real {
    if i < d then Bernstein(d - 1, i, t) else 0.0
  }

  lemma {:induction false} BinomDiagonal(n: nat)
    ensures Binom(n, n) == 1.0
  {
    if n > 0 {
      BinomDiagonal(n - 1);
    }
  }

  /**
   * The ring identity behind one step of Pascal's rule on the basis: with
   * C(n + 1, i) = c1 + c2, (1 - t)^(n + 1 - i) = u * a and t^i = t * b,
   * the entry of degree n + 1 is u times one entry of degree n plus t times the other.
   */
  lemma PascalProduct(l: real, r1: real, r2: real, c: real, c1: real, c2: real,
                      u: real, a: real, t: real, b: real, pu: real, pt: real)
    requires c == c1 + c2 && pu == u * a && pt == t * b
    requires l == c * (pu * pt)
    requires r1 == c1 * (a * pt)
    requires r2 == c2 * (pu * b)
    ensures l == u * r1 + t * r2
  {
    var p := u * a * t * b;
    assert l == c1 * p + c2 * p;
    assert u * r1 == c1 * p;
    assert t * r2 == c2 * p;
  }

  /**
   * Telescoping: when g(i) = f(i) - h(i) + h(i - 1) (with h(-1) read as 0), the
   * first m values of g sum to those of f less h(m - 1).
   */
  lemma {:induction false} Telescoping(f: nat -> real, g: nat -> real, h: nat -> real, m: nat)
    requires m >= 1
    requires g(0) == f(0) - h(0)
    requires forall i: nat :: 1 <= i < m ==> g(i) == f(i) - h(i) + h(i - 1)
    ensures SumTo(g, m) == SumTo(f, m) - h(m - 1)
  {
    if m > 1 {
      Telescoping(f, g, h, m - 1);
    }
  }

  /** The recurrence at index 0: B(n + 1, 0) = (1 - t) * B(n, 0). */
  lemma BernsteinStepFirst(n: nat, t: real)
    ensures Bernstein(n + 1, 0, t) == (1.0 - t) * Bernstein(n, 0, t)
  {
    var u := 1.0 - t;
    assert Pow(u, n + 1) == u * Pow(u, n);
    assert Bernstein(n + 1, 0, t) == 1.0 * (Pow(u, n + 1) * 1.0);
    assert Bernstein(n, 0, t) == 1.0 * (Pow(u, n) * 1.0);
  }

  /** The recurrence at the last index: B(n + 1, n + 1) = t * B(n, n). */
  lemma BernsteinStepLast(n: nat, t: real)
    ensures Bernstein(n + 1, n + 1, t) == t * Bernstein(n, n, t)
  {
    BinomDiagonal(n);
    BinomDiagonal(n + 1);
    assert Pow(t, n + 1) == t * Pow(t, n);
    assert Bernstein(n + 1, n + 1, t) == 1.0 * (1.0 * Pow(t, n + 1));
    assert Bernstein(n, n, t) == 1.0 * (1.0 * Pow(t, n));
  }

  /** The recurrence at an inner index 1 <= i <= n, from Pascal's rule. */
  lemma BernsteinStepInner(n: nat, i: nat, t: real)
    requires 1 <= i <= n
    ensures Bernstein(n + 1, i, t) == (1.0 - t) * Bernstein(n, i, t) + t * Bernstein(n, i - 1, t)
  {
    var u := 1.0 - t;
    var a, b := Pow(u, n - i), Pow(t, i - 1);
    var pu, pt := Pow(u, n + 1 - i), Pow(t, i);
    assert pu == u * a;
    assert pt == t * b;
    assert Pow(u, n - (i - 1)) == pu;
    PascalProduct(Bernstein(n + 1, i, t), Bernstein(n, i, t), Bernstein(n, i - 1, t),
      Binom(n + 1, i), Binom(n, i), Binom(n, i - 1), u, a, t, b, pu, pt);
  }

  /**
   * De Casteljau's recurrence of the basis for every index i >= 1:
   * B(n + 1, i) = (1 - t) * B(n, i) + t * B(n, i - 1).
   */
  lemma BernsteinStep(n: nat, i: nat, t: real)
    requires i >= 1
    ensures Bernstein(n + 1, i, t) == (1.0 - t) * Bernstein(n, i, t) + t * Bernstein(n, i - 1, t)
  {
    if i == n + 1 {
      BernsteinStepLast(n, t);
    } else if i <= n {
      BernsteinStepInner(n, i, t);
    }
  }

  /** Sums of two functions that agree on the summed range are equal. */
  lemma {:induction false} SumToCongruent(f: nat -> real, g: nat -> real, m: nat)
    requires forall i: nat :: i < m ==> f(i) == g(i)
    ensures SumTo(f, m) == SumTo(g, m)
  {
    if m > 0 {
      SumToCongruent(f, g, m - 1);
    }
  }

  /**
   * Entry (k, i) of the triangle F follows from row k - 1 by de Casteljau's
   * recurrence with weights 1 - t and t (the entry at column -1 read as 0).
   */
  predicate DeCasteljauStep(F: (nat, nat) -> real, t: real, k: nat, i: nat)
    requires k >= 1
  {
    F(k, i) == (1.0 - t) * F(k - 1, i) + (if i == 0 then 0.0 else t * F(k - 1, i - 1))
  }

  /**
   * One row of a triangle obeying de Casteljau's recurrence sums to the same as
   * the row before it, when that row vanishes just past the diagonal.
   */
  lemma RowSumStep(F: (nat, nat) -> real, t: real, n: nat)
    requires n >= 1 && F(n - 1, n) == 0.0
    requires forall i: nat :: DeCasteljauStep(F, t, n, i)
    ensures SumTo((i: nat) => F(n, i), n + 1) == SumTo((i: nat) => F(n - 1, i), n)
  {
    var prev := (i: nat) => F(n - 1, i);
    assert SumTo(prev, n + 1) == SumTo(prev, n) + prev(n);
    var row := (i: nat) => F(n, i);
    var carry := (i: nat) => t * F(n - 1, i);
    assert carry(n) == 0.0;
    assert row(0) == prev(0) - carry(0) by {
      assert DeCasteljauStep(F, t, n, 0);
    }
    forall i: nat | 1 <= i < n + 1
      ensures row(i) == prev(i) - carry(i) + carry(i - 1)
    {
      assert DeCasteljauStep(F, t, n, i);
    }
    Telescoping(prev, row, carry, n + 1);
  }

  /**
   * Any triangle of numbers F(k, i) that starts from F(0, 0) = 1, vanishes beyond
   * the diagonal and obeys de Casteljau's recurrence has rows that sum to 1.
   */
  lemma {:induction false} RecurrenceRowsSumToOne(F: (nat, nat) -> real, t: real, n: nat)
    requires F(0, 0) == 1.0
    requires forall k: nat, i: nat :: i > k ==> F(k, i) == 0.0
    requires forall k: nat, i: nat :: k >= 1 ==> DeCasteljauStep(F, t, k, i)
    ensures SumTo((i: nat) => F(n, i), n + 1) == 1.0
  {
    if n == 0 {
      var row := (i: nat) => F(n, i);
      assert SumTo(row, 1) == SumTo(row, 0) + row(0);
    } else {
      RecurrenceRowsSumToOne(F, t, n - 1);
      assert F(n - 1, n) == 0.0;
      RowSumStep(F, t, n);
    }
  }

  /** The closed-form basis obeys de Casteljau's recurrence, with the entry at index -1 read as 0. */
  lemma BernsteinDeCasteljau(t: real, k: nat, i: nat)
    requires k >= 1
    ensures Bernstein(k, i, t) == (1.0 - t) * Bernstein(k - 1, i, t) + (if i == 0 then 0.0 else t * Bernstein(k - 1, i - 1, t))
  {
    if i == 0 {
      BernsteinStepFirst(k - 1, t);
    } else {
      BernsteinStep(k - 1, i, t);
    }
  }

  /**
   * Partition of unity: the d basis entries of an axis with d >= 1 control
   * points sum to 1 at every real t, inside the unit interval or not.
   */
  lemma PartitionOfUnity(d: nat, t: real)
    requires d >= 1
    ensures SumTo((i: nat) => Bernstein(d - 1, i, t), d) == 1.0
  {
    var F := (k: nat, i: nat) => Bernstein(k, i, t);
    forall k: nat, i: nat | k >= 1
      ensures DeCasteljauStep(F, t, k, i)
    {
      BernsteinDeCasteljau(t, k, i);
      assert F(k, i) == Bernstein(k, i, t) && F(k - 1, i) == Bernstein(k - 1, i, t);
      if i > 0 {
        assert F(k - 1, i - 1) == Bernstein(k - 1, i - 1, t);
      }
    }
    RecurrenceRowsSumToOne(F, t, d - 1);
    SumToCongruent((i: nat) => F(d - 1, i), (i: nat) => Bernstein(d - 1, i, t), d);
  }

  /** Row t of the basis matrix of an axis with d control points, as a function of the column. */
  function BasisRow(d: nat, t: real): nat -> real {
    (i: nat) => BasisEntry(d, i, t)
  }

  /** Every row of the basis matrix of an axis with d >= 1 control points sums to 1. */
  lemma BasisRowSumsToOne(d: nat, t: real)
    requires d >= 1
    ensures SumTo(BasisRow(d, t), d) == 1.0
  {
    PartitionOfUnity(d, t);
    SumToCongruent(BasisRow(d, t), (i: nat) => Bernstein(d - 1, i, t), d);
  }

  lemma {:induction false} BinomNonNegative(n: nat, k: nat)
    ensures Binom(n, k) >= 0.0
  {
    if k > 0 && n > 0 {
      BinomNonNegative(n - 1, k - 1);
      BinomNonNegative(n - 1, k);
    }
  }

  lemma ProductNonNegative(x: real, y: real)
    requires x >= 0.0 && y >= 0.0
    ensures x * y >= 0.0
  {
  }

  /** A power of a non-negative number is non-negative. */
  lemma {:induction false} PowNonNegative(x: real, e: nat)
    requires x >= 0.0
    ensures Pow(x, e) >= 0.0
  {
    if e > 0 {
      PowNonNegative(x, e - 1);
      ProductNonNegative(x, Pow(x, e - 1));
    }
  }

  /** An axis with a single control point has the constant basis 1 (numpy's power gives 1 for any base to the power 0). */
  lemma SingleColumnBasis(t: real)
    ensures BasisEntry(1, 0, t) == 1.0
  {
    assert Pow(1.0 - t, 0) == 1.0 && Pow(t, 0) == 1.0;
  }

  /** On the unit interval every basis entry is non-negative, so each row is a set of convex weights. */
  lemma BasisEntryNonNegative(d: nat, i: nat, t: real)
    requires 0.0 <= t <= 1.0
    ensures BasisEntry(d, i, t) >= 0.0
  {
    if i < d {
      var a, b := Pow(1.0 - t, d - 1 - i), Pow(t, i);
      PowNonNegative(1.0 - t, d - 1 - i);
      PowNonNegative(t, i);
      BinomNonNegative(d - 1, i);
      ProductNonNegative(a, b);
      ProductNonNegative(Binom(d - 1, i), a * b);
    }
  }
}
