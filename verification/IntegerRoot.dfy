/** Floored integer square roots, characterised by their square. */
module IntegerRoot {

  /** y is the floored root of n. */
  predicate IsRoot(n: nat, y: nat) {
    y * y <= n < (y + 1) * (y + 1)
  }

  /** The root of n is twice the root of n / 4, or one more. */
  lemma DoubleRoot(n: nat, half: nat, even: nat)
    requires IsRoot(n / 4, half) && even == 2 * half
    ensures if (even + 1) * (even + 1) <= n then IsRoot(n, even + 1) else IsRoot(n, even)
  {
    assert even * even == 4 * (half * half);
    assert (even + 2) * (even + 2) == 4 * ((half + 1) * (half + 1));
  }

  function FloorSqrt(n: nat): (y: nat)
    ensures IsRoot(n, y)
  {
    if n == 0 then 0
    else
      var even := 2 * FloorSqrt(n / 4);
      DoubleRoot(n, FloorSqrt(n / 4), even);
      if (even + 1) * (even + 1) <= n then even + 1 else even
  }

  /** The floored geometric mean. */
  function FlooredMean(a: nat, b: nat): nat {
    FloorSqrt(a * b)
  }

  lemma TimesMonotone(x: nat, a: nat, b: nat)
    requires a <= b
    ensures x * a <= x * b && a * x <= b * x
    ensures a < b && x > 0 ==> x * a < x * b
  {
  }

  lemma SquareMonotone(a: nat, b: nat)
    ensures a <= b <==> a * a <= b * b
    ensures a < b <==> a * a < b * b
  {
    if a <= b {
      TimesMonotone(a, a, b);
      TimesMonotone(b, a, b);
      assert a * b == b * a;
    } else {
      TimesMonotone(b, b, a);
      TimesMonotone(a, b, a);
      assert a * b == b * a;
    }
  }

  lemma AtMost(b: nat, n: nat, y: nat)
    requires y * y <= n < (y + 1) * (y + 1)
    ensures b <= y <==> b * b <= n
  {
    if b <= y {
      SquareMonotone(b, y);
    } else {
      SquareMonotone(y + 1, b);
    }
  }

  /** Comparing an integer with a floored root loses nothing. */
  lemma AtMostRoot(b: nat, n: nat)
    ensures b <= FloorSqrt(n) <==> b * b <= n
  {
    AtMost(b, n, FloorSqrt(n));
  }

  lemma RootIsUnique(y: nat, n: nat)
    requires y * y <= n < (y + 1) * (y + 1)
    ensures y == FloorSqrt(n)
  {
    AtMostRoot(y, n);
    AtMostRoot(y + 1, n);
  }

  /** The floored geometric mean of two numbers lies between them. */
  lemma RootBetween(lo: nat, hi: nat)
    requires lo <= hi
    ensures lo <= FlooredMean(lo, hi) <= hi
  {
    assert lo * lo <= lo * hi <= hi * hi;
    AtMostRoot(lo, lo * hi);
    SquareMonotone(FloorSqrt(lo * hi), hi);
  }
}
