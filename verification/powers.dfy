/** Integer powers of reals (`Math.pow` with an integer exponent) and the
    twelfth root (`Math.pow(x, 1/12)`). */
module Powers {

  function Pow(x: real, n: nat): (r: real)
    ensures x > 0.0 ==> r > 0.0
    ensures x != 0.0 ==> r != 0.0
  {
    if n == 0 then 1.0 else x * Pow(x, n - 1)
  }

  lemma {:induction false} PowOne(n: nat)
    ensures Pow(1.0, n) == 1.0
  {
    if n > 0 {
      PowOne(n - 1);
    }
  }

  lemma PowSucc(x: real, n: nat)
    ensures Pow(x, n + 1) == x * Pow(x, n)
  {
  }

  lemma {:induction false} PowNonNegative(x: real, n: nat)
    requires x >= 0.0
    ensures Pow(x, n) >= 0.0
  {
    if n > 0 {
      PowNonNegative(x, n - 1);
    }
  }

  lemma {:induction false} PowAdd(x: real, a: nat, b: nat)
    ensures Pow(x, a + b) == Pow(x, a) * Pow(x, b)
    decreases a
  {
    if a > 0 {
      PowAdd(x, a - 1, b);
      PowSucc(x, a - 1 + b);
      PowSucc(x, a - 1);
      MulAssoc(x, Pow(x, a - 1), Pow(x, b));
    } else {
      MulOne(Pow(x, b), Pow(x, a));
    }
  }

  lemma MulAssoc(x: real, y: real, z: real)
    ensures x * (y * z) == (x * y) * z
  {
  }

  lemma MulOne(p: real, y: real)
    requires y == 1.0
    ensures p * y == p && y * p == p
  {
  }

  lemma {:induction false} PowAtLeastOne(x: real, n: nat)
    requires x >= 1.0
    ensures Pow(x, n) >= 1.0
  {
    if n > 0 {
      PowAtLeastOne(x, n - 1);
      assert x * Pow(x, n - 1) >= Pow(x, n - 1);
    }
  }

  lemma {:induction false} PowGreaterThanOne(x: real, n: nat)
    requires x > 1.0 && n >= 1
    ensures Pow(x, n) > 1.0
  {
    PowAtLeastOne(x, n - 1);
    assert x * Pow(x, n - 1) > Pow(x, n - 1);
  }

  /** Powers of a base of at least one never decrease with the exponent. */
  lemma {:induction false} PowGrows(q: real, k: nat, n: nat)
    requires q >= 1.0 && k <= n
    ensures Pow(q, k) <= Pow(q, n)
  {
    if k < n {
      PowGrows(q, k, n - 1);
      PowAtLeastOne(q, n - 1);
      ScaleUp(Pow(q, n - 1), q);
    }
  }

  lemma ScaleUp(x: real, y: real)
    requires x >= 0.0 && y >= 1.0
    ensures x * y >= x
  {
    NonNegativeProduct(x, y - 1.0);
  }

  lemma NonNegativeProduct(a: real, b: real)
    requires a >= 0.0 && b >= 0.0
    ensures a * b >= 0.0
  {
  }

  lemma {:induction false} PowStrictlyIncreasing(a: real, b: real, n: nat)
    requires 0.0 < a < b && n >= 1
    ensures Pow(a, n) < Pow(b, n)
  {
    if n == 1 {
      assert Pow(a, 1) == a && Pow(b, 1) == b;
    } else {
      PowStrictlyIncreasing(a, b, n - 1);
      PowSucc(a, n - 1);
      PowSucc(b, n - 1);
      MulStrictlyIncreasing(a, b, Pow(a, n - 1), Pow(b, n - 1));
    }
  }

  lemma MulStrictlyIncreasing(a: real, b: real, x: real, y: real)
    requires 0.0 < a < b && 0.0 < x < y
    ensures a * x < b * y
  {
    assert a * x < b * x;
    assert b * x < b * y;
  }

  lemma PowInjective(a: real, b: real, n: nat)
    requires a > 0.0 && b > 0.0 && n >= 1
    requires Pow(a, n) == Pow(b, n)
    ensures a == b
  {
    if a < b {
      PowStrictlyIncreasing(a, b, n);
    } else if b < a {
      PowStrictlyIncreasing(b, a, n);
    }
  }

  /** Multiplying a quotient back by its divisor. */
  lemma DivMul(x: real, d: real)
    requires d != 0.0
    ensures x / d * d == x
  {
  }

  /** A factor of a non-negative product with a positive cofactor is
      non-negative. */
  lemma FactorSign(a: real, d: real, p: real)
    requires d > 0.0 && a * d == p && p >= 0.0
    ensures a >= 0.0
  {
    assert a == p / d;
  }

  /** `y` is the positive twelfth root of `x`. */
  ghost predicate IsRoot12(x: real, y: real) {
    y > 0.0 && Pow(y, 12) == x
  }

  /** The reals have a twelfth root for every positive `x`; Dafny's theory of
      `real` has no completeness axiom to derive it, so the model carries it as
      a hypothesis wherever a root is taken. */
  ghost predicate HasRoot12(x: real) {
    exists y :: IsRoot12(x, y)
  }

  /** `Math.pow(x, 1/12)` for a positive `x`. */
  ghost function Root12(x: real): (y: real)
    requires HasRoot12(x)
    ensures IsRoot12(x, y)
  {
    var y :| IsRoot12(x, y); y
  }

  /** A positive root is unique: taking the root of a twelfth power gives the base back. */
  lemma Root12OfPow(y: real)
    requires y > 0.0
    ensures HasRoot12(Pow(y, 12))
    ensures Root12(Pow(y, 12)) == y
  {
    assert IsRoot12(Pow(y, 12), y);
    var z := Root12(Pow(y, 12));
    PowInjective(z, y, 12);
  }

  /** Roots preserve the order with 1. */
  lemma Root12AtLeastOne(x: real)
    requires HasRoot12(x) && x >= 1.0
    ensures Root12(x) >= 1.0
  {
    var y := Root12(x);
    if y < 1.0 {
      PowStrictlyIncreasing(y, 1.0, 12);
      PowOne(12);
    }
  }
}
