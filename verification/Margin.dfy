// Integer margin arithmetic: saturating products, proportional release, and
// what any sequence of partial releases leaves held.
module Margin {
  import opened Api

  const BASIS_POINTS_SCALE: Quantity := 10000

  function SaturatedMultiply(left: Quantity, right: Quantity): Quantity {
    if left == 0 || right == 0 then 0
    else if left > MAX_U64 / right then MAX_U64
    else
      ProductFits(left, right);
      left * right
  }

  function ProportionalRelease(reserved: Quantity, released: Quantity, remaining: Quantity): Quantity
    requires remaining > 0
  {
    WrapAdd(
      SaturatedMultiply(reserved / remaining, released),
      SaturatedMultiply(reserved % remaining, released) / remaining)
  }

  // ---- Non-linear arithmetic ----

  lemma MulMonotone(a: int, b: int, c: int)
    requires a <= b && 0 <= c
    ensures a * c <= b * c
  {
  }

  // q <= n / d exactly when q * d <= n.
  lemma DivisionBound(q: int, n: int, d: int)
    requires 0 <= n && 0 < d
    ensures q <= n / d <==> q * d <= n
  {
    var r := n % d;
    assert n == (n / d) * d + r;
    if q <= n / d {
      MulMonotone(q, n / d, d);
    } else {
      MulMonotone(n / d + 1, q, d);
      assert (n / d + 1) * d == (n / d) * d + d;
    }
  }

  lemma ProductFits(left: Quantity, right: Quantity)
    requires right > 0 && left <= MAX_U64 / right
    ensures 0 <= left * right <= MAX_U64
  {
    DivisionBound(left, MAX_U64, right);
    MulMonotone(0, left, right);
  }

  // The test by division saturates exactly when the true product overflows.
  lemma SaturatedMultiplyIsClamped(left: Quantity, right: Quantity)
    ensures SaturatedMultiply(left, right) == if left * right <= MAX_U64 then left * right else MAX_U64
  {
    if left != 0 && right != 0 {
      DivisionBound(left, MAX_U64, right);
    }
  }

  lemma SaturatedMultiplyMonotone(a: Quantity, b: Quantity, c: Quantity)
    requires a <= b
    ensures SaturatedMultiply(a, c) <= SaturatedMultiply(b, c)
  {
    SaturatedMultiplyIsClamped(a, c);
    SaturatedMultiplyIsClamped(b, c);
    MulMonotone(a, b, c);
  }

  // floor(x / d) for x = a*d + b with the whole part taken out.
  lemma DivideSplit(a: int, b: int, d: int)
    requires 0 <= a && 0 <= b && 0 < d
    ensures (a * d + b) / d == a + b / d
  {
    var q := b / d;
    assert b == q * d + b % d;
    assert a * d + b == (a + q) * d + b % d;
    DivisionBound(a + q, a * d + b, d);
    DivisionBound(a + q + 1, a * d + b, d);
    MulMonotone(0, a + q, d);
    assert (a + q + 1) * d == (a + q) * d + d;
  }

  lemma DivideMonotone(a: int, b: int, d: int)
    requires 0 <= a <= b && 0 < d
    ensures a / d <= b / d
  {
    DivisionBound(a / d, a, d);
    DivisionBound(a / d, b, d);
  }

  // ---- Proportional release ----

  // The exact share: floor(reserved * released / remaining).
  function ExactShare(reserved: Quantity, released: Quantity, remaining: Quantity): nat
    requires remaining > 0
  {
    MulMonotone(0, reserved, released);
    reserved * released / remaining
  }

  lemma SplitReserved(reserved: Quantity, released: Quantity, remaining: Quantity)
    requires remaining > 0
    ensures reserved * released
         == (reserved / remaining) * released * remaining + (reserved % remaining) * released
  {
    var w, r := reserved / remaining, reserved % remaining;
    assert reserved == w * remaining + r;
    calc {
      reserved * released;
      (w * remaining + r) * released;
      w * remaining * released + r * released;
      w * released * remaining + r * released;
    }
  }

  // A release is never more than the exact share; it is the exact share unless
  // the product of the remainder saturates.  Neither the first product nor the
  // final sum can overflow.
  lemma ReleaseIsAtMostShare(reserved: Quantity, released: Quantity, remaining: Quantity)
    requires released < remaining
    ensures ProportionalRelease(reserved, released, remaining) <= ExactShare(reserved, released, remaining)
    ensures ExactShare(reserved, released, remaining) <= reserved
    ensures (reserved % remaining) * released <= MAX_U64 ==>
      ProportionalRelease(reserved, released, remaining) == ExactShare(reserved, released, remaining)
  {
    var w, r := reserved / remaining, reserved % remaining;
    MulMonotone(0, w, released);
    MulMonotone(0, r, released);
    SplitReserved(reserved, released, remaining);
    DivideSplit(w * released, r * released, remaining);
    assert ExactShare(reserved, released, remaining) == w * released + r * released / remaining;
    ShareIsPart(reserved, released, remaining);
    SaturatedMultiplyIsClamped(w, released);
    SaturatedMultiplyIsClamped(r, released);
    var product := SaturatedMultiply(r, released);
    DivideMonotone(product, r * released, remaining);
    DivisionBound(0, r * released, remaining);
  }

  // The release to the unit, saturated or not.
  lemma ReleaseIsExact(reserved: Quantity, released: Quantity, remaining: Quantity)
    requires released < remaining
    ensures var product := (reserved % remaining) * released;
      ProportionalRelease(reserved, released, remaining)
      == (reserved / remaining) * released
       + (if product < 0x1_0000_0000_0000_0000 then product else 0xFFFF_FFFF_FFFF_FFFF) / remaining
  {
    var w, r := reserved / remaining, reserved % remaining;
    MulMonotone(0, w, released);
    MulMonotone(0, r, released);
    SplitReserved(reserved, released, remaining);
    DivideSplit(w * released, r * released, remaining);
    ShareIsPart(reserved, released, remaining);
    SaturatedMultiplyIsClamped(w, released);
    SaturatedMultiplyIsClamped(r, released);
    DivideMonotone(SaturatedMultiply(r, released), r * released, remaining);
    DivisionBound(0, SaturatedMultiply(r, released), remaining);
    DivisionBound(0, r * released, remaining);
  }

  lemma ShareIsPart(reserved: Quantity, released: Quantity, remaining: Quantity)
    requires released < remaining
    ensures ExactShare(reserved, released, remaining) <= reserved
  {
    MulMonotone(0, reserved, released);
    assert reserved * released <= reserved * remaining by { MulMonotone(released, remaining, reserved); }
    DivisionBound(reserved + 1, reserved * released, remaining);
    assert (reserved + 1) * remaining == reserved * remaining + remaining;
  }
}
