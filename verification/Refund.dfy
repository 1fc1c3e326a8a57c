/** The cumulative round-half-up refund of a line (`cumulativeRefundMinor`, `lineRefundForReturnMinor`). */
module Refund {
  import opened Arithmetic

  /** `x / sold` rounded half up. */
  function HalfUp(x: nat, sold: int): int
    requires 0 < sold
  {
    (2 * x + sold) / (2 * sold)
  }

  function Cumulative(share: int, sold: int, returned: int): int {
    if sold <= 0 || returned <= 0 || share <= 0 then 0
    else
      ProductPositive(share, Min(returned, sold));
      HalfUp(share * Min(returned, sold), sold)
  }

  lemma ProductPositive(a: int, b: int)
    requires 0 < a && 0 < b
    ensures 0 < a * b
  {
  }

  function ForReturn(share: int, sold: int, previously: int, qty: int): int {
    Cumulative(share, sold, previously + qty) - Cumulative(share, sold, previously)
  }

  /** Rounding half up, without division. */
  lemma HalfUpMeaning(x: nat, sold: int, r: int)
    requires 0 < sold
    ensures r == HalfUp(x, sold) <==> 2 * (r * sold) - sold <= 2 * x < 2 * (r * sold) + sold
  {
    assert r * (2 * sold) == 2 * (r * sold);
    QuotientRange(2 * x + sold, 2 * sold, r);
  }

  lemma QuotientRange(a: nat, d: int, r: int)
    requires 0 < d
    ensures r == a / d <==> r * d <= a < r * d + d
  {
    if r * d <= a < r * d + d {
      DivisionUnique(d, r, a - r * d, a);
    }
  }

  lemma HalfUpMonotone(x: nat, y: nat, sold: int)
    requires 0 < sold && x <= y
    ensures 0 <= HalfUp(x, sold) <= HalfUp(y, sold)
  {
    QuotientMonotone(2 * x + sold, 2 * y + sold, 2 * sold);
  }

  lemma QuotientMonotone(a: nat, b: nat, d: int)
    requires 0 < d && a <= b
    ensures 0 <= a / d <= b / d
  {
    QuotientRange(a, d, a / d);
    QuotientRange(b, d, b / d);
    CancelLess(a / d, b / d + 1, d) by {
      assert (b / d + 1) * d == (b / d) * d + d;
    }
  }

  /**
    The refund is the exact share `share * returned / sold` rounded half up, and is the only integer
    that is: `r` is the refund exactly when `r - 1/2 <= share * returned / sold < r + 1/2`.
   */
  lemma RoundsHalfUp(share: nat, sold: int, returned: nat, r: int)
    requires 0 < sold && returned <= sold
    ensures r == Cumulative(share, sold, returned) <==>
            2 * (r * sold) - sold <= 2 * (share * returned) < 2 * (r * sold) + sold
  {
    HalfUpMeaning(share * returned, sold, r);
    if share == 0 || returned == 0 {
      HalfUpMeaning(0, sold, 0);
    }
  }

  /** No prefix of a line refunds more than a longer one. */
  lemma CumulativeMonotone(share: nat, sold: int, a: nat, b: nat)
    requires 0 < sold && a <= b <= sold
    ensures Cumulative(share, sold, a) <= Cumulative(share, sold, b)
  {
    ProductMonotone(share, a, b);
    HalfUpMonotone(share * a, share * b, sold);
  }

  lemma ProductMonotone(k: nat, a: nat, b: nat)
    requires a <= b
    ensures 0 <= k * a <= k * b
  {
  }

  /** Returning everything refunds exactly the share; nothing refunds less than nothing or more than it. */
  lemma CumulativeBounds(share: nat, sold: int, returned: nat)
    requires 0 < sold && returned <= sold
    ensures 0 <= Cumulative(share, sold, returned) <= share
    ensures Cumulative(share, sold, sold) == share
    ensures Cumulative(share, sold, 0) == 0
  {
    HalfUpMeaning(share * sold, sold, share);
    CumulativeMonotone(share, sold, 0, returned);
    CumulativeMonotone(share, sold, returned, sold);
  }

  /** However a quantity is split, the refunds of the pieces add up to the refund of the whole. */
  lemma RefundsTelescope(share: int, sold: int, previously: int, first: int, second: int)
    ensures ForReturn(share, sold, previously, first) + ForReturn(share, sold, previously + first, second)
            == ForReturn(share, sold, previously, first + second)
  {
    assert previously + first + second == previously + (first + second);
  }
}
