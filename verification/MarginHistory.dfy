// The margin held for one order over any sequence of partial fills.
module MarginHistory {
  import opened Api
  import opened Margin

  datatype Holding = Holding(margin: Quantity, remaining: Quantity)

  // The margin freed when `quantity` of an order is released.
  function ReleasedMargin(h: Holding, quantity: Quantity): Quantity
    requires quantity <= h.remaining
  {
    if quantity == h.remaining then h.margin
    else ProportionalRelease(h.margin, quantity, h.remaining)
  }

  function AfterFill(h: Holding, quantity: Quantity): Holding
    requires quantity <= h.remaining
  {
    Holding(WrapSub(h.margin, ReleasedMargin(h, quantity)), h.remaining - quantity)
  }

  ghost predicate Fills(h: Holding, fills: seq<Quantity>)
    decreases |fills|
  {
    fills != [] ==> 0 < fills[0] <= h.remaining && Fills(AfterFill(h, fills[0]), fills[1..])
  }

  function AfterFills(h: Holding, fills: seq<Quantity>): Holding
    requires Fills(h, fills)
    decreases |fills|
  {
    if fills == [] then h else AfterFills(AfterFill(h, fills[0]), fills[1..])
  }

  function TotalReleased(h: Holding, fills: seq<Quantity>): nat
    requires Fills(h, fills)
    decreases |fills|
  {
    if fills == [] then 0
    else ReleasedMargin(h, fills[0]) + TotalReleased(AfterFill(h, fills[0]), fills[1..])
  }

  // No product of a remainder with a fill leaves 64 bits.
  ghost predicate Unsaturated(h: Holding, fills: seq<Quantity>)
    requires Fills(h, fills)
    decreases |fills|
  {
    fills != [] ==>
      && (fills[0] < h.remaining ==> (h.margin % h.remaining) * fills[0] <= MAX_U64)
      && Unsaturated(AfterFill(h, fills[0]), fills[1..])
  }

  lemma ReleaseFits(h: Holding, quantity: Quantity)
    requires quantity <= h.remaining
    ensures ReleasedMargin(h, quantity) <= h.margin
    ensures AfterFill(h, quantity).margin == h.margin - ReleasedMargin(h, quantity)
  {
    if quantity < h.remaining {
      ReleaseIsAtMostShare(h.margin, quantity, h.remaining);
    }
  }

  // x * r >= y * r with r > 0 gives x >= y.
  lemma Cancel(x: int, y: int, r: int)
    requires r > 0 && x * r >= y * r
    ensures x >= y
  {
    if x < y {
      MulMonotone(x + 1, y, r);
    }
  }

  lemma Distribute(m: int, q: int, r: int, rel: int)
    ensures (m - rel) * r == m * r - rel * r
    ensures m * (r - q) == m * r - m * q
  {
  }

  lemma FillKeepsRatio(h: Holding, quantity: Quantity)
    requires 0 < quantity < h.remaining
    ensures AfterFill(h, quantity).margin * h.remaining >= h.margin * (h.remaining - quantity)
  {
    var rel := ReleasedMargin(h, quantity);
    ReleaseFits(h, quantity);
    ReleaseIsAtMostShare(h.margin, quantity, h.remaining);
    MulMonotone(0, h.margin, quantity);
    DivisionBound(rel, h.margin * quantity, h.remaining);
    Distribute(h.margin, quantity, h.remaining, rel);
  }

  lemma RatioStep(m: nat, r: nat, m': nat, r': nat, total: nat, original: nat)
    requires r > 0 && m' * r >= m * r' && m * original >= total * r
    ensures m' * original >= total * r'
  {
    calc {
      (m' * original) * r;
    ==
      (m' * r) * original;
    >= { MulMonotone(m * r', m' * r, original); }
      (m * r') * original;
    ==
      (m * original) * r';
    >= { MulMonotone(total * r, m * original, r'); }
      (total * r) * r';
    ==
      (total * r') * r;
    }
    Cancel(m' * original, total * r', r);
  }

  // Conservative: from any point where the margin held covers the pro-rata share
  // of an order, it still does after any further fills.
  lemma {:induction false} StaysCovered(h: Holding, fills: seq<Quantity>, total: nat, original: nat)
    requires Fills(h, fills) && h.margin * original >= total * h.remaining
    ensures AfterFills(h, fills).margin * original >= total * AfterFills(h, fills).remaining
    decreases |fills|
  {
    if fills != [] {
      var n := AfterFill(h, fills[0]);
      if fills[0] < h.remaining {
        FillKeepsRatio(h, fills[0]);
        RatioStep(h.margin, h.remaining, n.margin, n.remaining, total, original);
      } else {
        assert total * n.remaining == 0;
        MulMonotone(0, n.margin, original);
      }
      StaysCovered(n, fills[1..], total, original);
    }
  }

  // The margin held is never below the exact pro-rata share of what was reserved.
  lemma HeldMarginCoversRemainder(h: Holding, fills: seq<Quantity>)
    requires Fills(h, fills)
    ensures AfterFills(h, fills).margin * h.remaining >= h.margin * AfterFills(h, fills).remaining
  {
    StaysCovered(h, fills, h.margin, h.remaining);
  }

  lemma FillNearRatio(h: Holding, quantity: Quantity)
    requires 0 < quantity < h.remaining
    requires (h.margin % h.remaining) * quantity <= MAX_U64
    ensures AfterFill(h, quantity).margin * h.remaining
         <= h.margin * (h.remaining - quantity) + h.remaining - 1
  {
    var rel := ReleasedMargin(h, quantity);
    ReleaseFits(h, quantity);
    ReleaseIsAtMostShare(h.margin, quantity, h.remaining);
    MulMonotone(0, h.margin, quantity);
    DivisionBound(rel + 1, h.margin * quantity, h.remaining);
    assert (rel + 1) * h.remaining == rel * h.remaining + h.remaining;
    Distribute(h.margin, quantity, h.remaining, rel);
  }

  lemma SwapFactors(a: int, b: int, c: int)
    ensures (a * b) * c == (a * c) * b
  {
  }

  lemma AddScaled(a: int, b: int, c: int)
    ensures (a + b) * c == a * c + b * c
  {
  }

  lemma ScaleExcess(m: nat, r: nat, r': nat, held: nat, original: nat)
    requires 0 < r && held <= m * r' + r - 1
    ensures held * original <= (m * original) * r' + (r - 1) * original
  {
    MulMonotone(held, m * r' + (r - 1), original);
    AddScaled(m * r', r - 1, original);
    SwapFactors(m, r', original);
  }

  lemma ScaleTotal(share: nat, r: nat, r': nat, total: nat, slack: nat)
    requires r' <= r && share <= total * r + slack
    ensures share * r' <= (total * r') * r + slack * r
  {
    MulMonotone(share, total * r + slack, r');
    AddScaled(total * r, slack, r');
    SwapFactors(total, r, r');
    MulMonotone(r', r, slack);
  }

  lemma ExcessStep(m: nat, r: nat, m': nat, r': nat, total: nat, original: nat, k: nat)
    requires 0 < original && r' < r && m' * r <= m * r' + r - 1
    requires m * original <= total * r + k * original
    ensures m' * original < total * r' + (k + 1) * original
  {
    ScaleExcess(m, r, r', m' * r, original);
    ScaleTotal(m * original, r, r', total, k * original);
    SwapFactors(m', r, original);
    AddScaled(r, -1, original);
    AddScaled(k, 1, original);
    AddScaled(total * r', k * original, r);
    AddScaled(total * r' + k * original, original, r);
    var bound := total * r' + (k + 1) * original;
    assert (m' * original) * r < bound * r;
    if m' * original >= bound {
      MulMonotone(bound, m' * original, r);
    }
  }

  lemma {:induction false} ExcessGrowsByOne(
    h: Holding, fills: seq<Quantity>, total: nat, original: nat, k: nat)
    requires Fills(h, fills) && Unsaturated(h, fills) && original > 0
    requires h.margin * original <= total * h.remaining + k * original
    ensures var n := AfterFills(h, fills);
      && n.margin * original <= total * n.remaining + (k + |fills|) * original
      && (fills != [] ==> n.margin * original < total * n.remaining + (k + |fills|) * original)
    decreases |fills|
  {
    if fills != [] {
      var n := AfterFill(h, fills[0]);
      if fills[0] < h.remaining {
        FillNearRatio(h, fills[0]);
        ExcessStep(h.margin, h.remaining, n.margin, n.remaining, total, original, k);
      } else {
        ReleaseFits(h, fills[0]);
        MulMonotone(1, k + 1, original);
        assert n.margin * original == 0 && total * n.remaining == 0;
      }
      ExcessGrowsByOne(n, fills[1..], total, original, k + 1);
      if fills[1..] == [] {
        assert AfterFills(h, fills) == n;
      }
    }
  }

  // Without saturation the margin held exceeds the exact share by less than one
  // unit per partial fill.
  lemma HeldMarginExcessIsBelowFills(h: Holding, fills: seq<Quantity>)
    requires Fills(h, fills) && Unsaturated(h, fills) && fills != []
    ensures var n := AfterFills(h, fills);
      n.margin * h.remaining < h.margin * n.remaining + |fills| * h.remaining
  {
    ExcessGrowsByOne(h, fills, h.margin, h.remaining, 0);
  }

  // Nothing is lost or invented: what has been released and what is still held
  // add up to what was reserved, and once the order is gone all of it is back.
  lemma {:induction false} ReleasedPlusHeld(h: Holding, fills: seq<Quantity>)
    requires Fills(h, fills)
    ensures TotalReleased(h, fills) + AfterFills(h, fills).margin == h.margin
    ensures fills != [] && AfterFills(h, fills).remaining == 0 ==> TotalReleased(h, fills) == h.margin
    decreases |fills|
  {
    if fills != [] {
      ReleaseFits(h, fills[0]);
      ReleasedPlusHeld(AfterFill(h, fills[0]), fills[1..]);
    }
  }
}
