/**
 * Integer powers of exact reals, the meaning given here to Python's `x ** n`
 * when `n` is a whole number. A negative power of zero raises
 * ZeroDivisionError in Python, so it is excluded by a precondition.
 */
module RealPower {

  function NatPow(x: real, n: nat): (r: real)
    ensures x != 0.0 ==> r != 0.0
    ensures x > 0.0 ==> r > 0.0
    decreases n
  {
    if n == 0 then 1.0 else x * NatPow(x, n - 1)
  }

  /** `x ** n` for a whole-number exponent. */
  function IntPow(x: real, n: int): (r: real)
    requires x != 0.0 || n >= 0
    ensures x != 0.0 ==> r != 0.0
    ensures x > 0.0 ==> r > 0.0
  {
    if n >= 0 then NatPow(x, n) else 1.0 / NatPow(x, -n)
  }

  lemma {:induction false} NatPowMul(x: real, y: real, n: nat)
    ensures NatPow(x * y, n) == NatPow(x, n) * NatPow(y, n)
    decreases n
  {
    if n > 0 {
      NatPowMul(x, y, n - 1);
      var p, q := NatPow(x, n - 1), NatPow(y, n - 1);
      calc {
        NatPow(x * y, n);
        (x * y) * (p * q);
        (x * p) * (y * q);
      }
    }
  }

  lemma Reciprocals(p: real, q: real)
    requires p != 0.0 && q != 0.0
    ensures 1.0 / (p * q) == (1.0 / p) * (1.0 / q)
  {
  }

  /** A power of a product is the product of the powers. */
  lemma IntPowMul(x: real, y: real, n: int)
    requires (x != 0.0 && y != 0.0) || n >= 0
    ensures IntPow(x * y, n) == IntPow(x, n) * IntPow(y, n)
  {
    if n >= 0 {
      NatPowMul(x, y, n);
    } else {
      NatPowMul(x, y, -n);
      Reciprocals(NatPow(x, -n), NatPow(y, -n));
    }
  }

  /** One more factor raises a natural power by one. */
  lemma IntPowSucc(x: real, n: nat)
    ensures IntPow(x, n + 1) == IntPow(x, n) * x
  {
    assert NatPow(x, n + 1) == x * NatPow(x, n);
  }

  lemma IntPowSmall(x: real)
    ensures IntPow(x, 0) == 1.0 && IntPow(x, 1) == x && IntPow(x, 2) == x * x
    ensures IntPow(x, 3) == x * x * x
  {
  }

  /** Every whole-number power of 1 is 1. */
  lemma {:induction false} IntPowOfOne(n: int)
    ensures IntPow(1.0, n) == 1.0
  {
    NatPowOfOne(if n >= 0 then n else -n);
  }

  lemma {:induction false} NatPowOfOne(n: nat)
    ensures NatPow(1.0, n) == 1.0
  {
    if n > 0 {
      NatPowOfOne(n - 1);
    }
  }

  // ---------------------------------------------------------------------
  // Small facts about products and quotients of reals
  // ---------------------------------------------------------------------

  lemma ProductPositive(x: real, y: real)
    requires x > 0.0 && y > 0.0
    ensures x * y > 0.0
  {
  }

  lemma QuotientPositive(x: real, y: real)
    requires x > 0.0 && y > 0.0
    ensures x / y > 0.0
  {
  }

  /** A nonzero factor cancels from both sides of an equation. */
  lemma CancelFactor(a: real, b: real, s: real)
    requires s != 0.0 && a * s == b * s
    ensures a == b
  {
    assert (a - b) * s == 0.0;
  }

  /** `a == b / s` exactly when `a * s == b`, for a nonzero `s`. */
  lemma QuotientIff(a: real, b: real, s: real)
    requires s != 0.0
    ensures a == b / s <==> a * s == b
  {
  }

}
