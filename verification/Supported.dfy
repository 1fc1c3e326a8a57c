/**
  The largest further quantity a line can return (`maxSupportedReturnQtyMilli`): always safe to offer,
  and the largest such quantity exactly when the 1000-step search reaches it.
 */
module Supported {
  import opened Wrappers
  import opened Arithmetic
  import opened Allocation
  import opened Sale
  import opened Returns
  import opened ReturnRuns
  import Lots

  const SEARCH_GUARD := 1000

  // --- which quantities convert exactly -------------------------------------------

  /** The least exactly convertible quantity at or above `p`. */
  function FirstExact(f: Factor, p: nat): (r: nat)
    requires f.Positive() && 1 <= p <= f.den
    ensures p <= r <= f.den && ExactBase(r, f).Some?
    ensures forall q :: p <= q < r ==> ExactBase(q, f).None?
    decreases f.den - p
  {
    if ExactBase(p, f).Some? then p
    else if p < f.den then FirstExact(f, p + 1)
    else
      ExactBaseMeaning(f.den, f, f.num);
      assert false;
      p
  }

  /** Exactly convertible quantities come in multiples of this one. */
  function Period(f: Factor): (r: nat)
    requires f.Positive()
    ensures 1 <= r <= f.den
  {
    FirstExact(f, 1)
  }

  lemma MultipleIsExact(f: Factor, k: nat)
    requires f.Positive()
    ensures ExactBase(k * Period(f), f).Some?
  {
    var p := Period(f);
    var b := ExactBase(p, f).value;
    ExactBaseMeaning(p, f, b);
    Rescale(k, b, f.den, p, f.num);
    ExactBaseMeaning(k * p, f, k * b);
  }

  lemma Rescale(k: nat, b: int, den: int, p: int, num: int)
    requires b * den == p * num
    ensures (k * b) * den == (k * p) * num
  {
    assert (k * b) * den == k * (b * den);
    assert (k * p) * num == k * (p * num);
  }

  /** A quantity converts exactly if and only if it is a multiple of the period. */
  lemma ExactIffMultiple(f: Factor, q: nat)
    requires f.Positive()
    ensures ExactBase(q, f).Some? <==> q % Period(f) == 0
  {
    var p := Period(f);
    var k, r := q / p, q % p;
    DivisionScaled(q, p);
    MultipleIsExact(f, k);
    ExactBaseAdds(f, k * p, r, ExactBase(k * p, f).value);
    ExactBaseMeaning(0, f, 0);
  }

  // --- what the search is for ---------------------------------------------------------

  function Remaining(line: SaleLine, prior: LedgerLine): int {
    line.soldQty - prior.returnedQty
  }

  function Available(line: SaleLine, prior: LedgerLine): int {
    Lots.OversellFreeEnd(line.lots) - prior.returnedQtyBase
  }

  /** Where the downward search starts. */
  function Start(line: SaleLine, prior: LedgerLine): int
    requires line.unitFactor.Positive()
  {
    Min(Remaining(line, prior), Available(line, prior) * line.unitFactor.den / line.unitFactor.num)
  }

  lemma StartIsTight(line: SaleLine, prior: LedgerLine, q: int)
    requires LineValid(line) && EntrySound(line, prior) && 0 < q
    ensures LineAccepts(line, prior, q) <==> q <= Start(line, prior) && q % Period(line.unitFactor) == 0
  {
    var f, avail := line.unitFactor, Available(line, prior);
    ExactIffMultiple(f, q);
    if ExactBase(q, f).Some? {
      BaseWithin(f, avail, q, ExactBase(q, f).value);
    }
  }

  lemma BaseWithin(f: Factor, avail: nat, q: nat, base: int)
    requires f.Positive() && ExactBase(q, f) == Some(base)
    ensures base <= avail <==> q <= avail * f.den / f.num
  {
    ExactBaseMeaning(q, f, base);
    QuotientBound(avail * f.den, f.num, q);
    assert base <= avail ==> base * f.den <= avail * f.den;
    assert base >= avail + 1 ==> base * f.den >= (avail + 1) * f.den;
    assert (avail + 1) * f.den == avail * f.den + f.den;
  }

  lemma QuotientBound(a: nat, d: nat, q: int)
    requires 0 < d
    ensures q <= a / d <==> q * d <= a
  {
    assert q <= a / d ==> q * d <= (a / d) * d;
    assert q >= a / d + 1 ==> q * d >= (a / d + 1) * d;
    assert (a / d + 1) * d == (a / d) * d + d;
  }

  /** The search reaches the answer, or there is none to reach. */
  ghost predicate WithinSearch(line: SaleLine, prior: LedgerLine)
    requires LineValid(line)
  {
    || Lots.OversellFreeEnd(line.lots) >= line.soldQtyBase
    || Start(line, prior) < Period(line.unitFactor)
    || Start(line, prior) % Period(line.unitFactor) < SEARCH_GUARD
  }

  /** `q` is the largest quantity the planner would accept, or zero when it would accept none. */
  ghost predicate LargestAccepted(line: SaleLine, prior: LedgerLine, q: int)
    requires LineValid(line)
  {
    && (q == 0 || LineAccepts(line, prior, q))
    && (forall larger :: q < larger ==> !LineAccepts(line, prior, larger))
  }

  lemma WholeRemainderAccepted(line: SaleLine, prior: LedgerLine)
    requires LineValid(line) && EntrySound(line, prior) && 0 < Remaining(line, prior)
    requires Lots.OversellFreeEnd(line.lots) >= line.soldQtyBase
    ensures LineAccepts(line, prior, Remaining(line, prior))
  {
    EntryBase(line, prior);
    ExactBaseAdds(line.unitFactor, prior.returnedQty, Remaining(line, prior), prior.returnedQtyBase);
  }

  /** Stepping down from `start`, the multiple of `p` below it is `start % p` steps away. */
  lemma NearestMultiple(start: nat, p: nat, q: nat)
    requires 0 < p && q <= start
    ensures start - q < start % p ==> q % p != 0
    ensures start - q == start % p ==> q % p == 0
  {
    DivisionScaled(start, p);
    var r := start % p - (start - q);
    if 0 <= r {
      DivisionUnique(p, start / p, r, q);
    }
  }

  lemma SearchExhausted(line: SaleLine, prior: LedgerLine, q: int, guard: int)
    requires LineValid(line) && EntrySound(line, prior)
    requires Lots.OversellFreeEnd(line.lots) < line.soldQtyBase
    requires 0 <= q && q == Start(line, prior) - guard && (q == 0 || guard == SEARCH_GUARD)
    requires forall x :: q < x ==> !LineAccepts(line, prior, x)
    requires Start(line, prior) >= Period(line.unitFactor) ==> guard <= Start(line, prior) % Period(line.unitFactor)
    ensures LargestAccepted(line, prior, 0) <==> WithinSearch(line, prior)
    ensures q == 0 ==> WithinSearch(line, prior)
  {
    var start, p := Start(line, prior), Period(line.unitFactor);
    if start >= p {
      DivisionScaled(start, p);
      var best := start - start % p;
      NearestMultiple(start, p, best);
      assert best >= p by { assert start / p >= 1; assert (start / p) * p >= p; }
      StartIsTight(line, prior, best);
    } else {
      forall x | 0 < x <= q ensures !LineAccepts(line, prior, x) {
        StartIsTight(line, prior, x);
      }
    }
  }

  /** The downward search over candidate quantities. */
  method SearchDown(line: SaleLine, prior: LedgerLine, start: int) returns (q: int)
    requires LineValid(line) && EntrySound(line, prior)
    requires Lots.OversellFreeEnd(line.lots) < line.soldQtyBase
    requires 0 <= start && start == Start(line, prior)
    ensures q == 0 || LineAccepts(line, prior, q)
    ensures LargestAccepted(line, prior, q) <==> WithinSearch(line, prior)
    ensures !WithinSearch(line, prior) ==> q == 0
  {
    q := start;
    ghost var p := Period(line.unitFactor);
    var availBase := Available(line, prior);
    var guard := 0;
    NothingAbove(line, prior);
    while q > 0 && guard < SEARCH_GUARD
      invariant 0 <= q == start - guard && guard <= SEARCH_GUARD
      invariant forall x :: q < x ==> !LineAccepts(line, prior, x)
      invariant start >= p ==> guard <= start % p
      decreases q
    {
      var base := ExactBase(q, line.unitFactor);
      StartIsTight(line, prior, q);
      NearestMultiple(start, p, q);
      if base.Some? && base.value <= availBase {
        return;
      }
      guard, q := guard + 1, q - 1;
    }
    SearchExhausted(line, prior, q, guard);
    q := 0;
  }

  lemma NothingAbove(line: SaleLine, prior: LedgerLine)
    requires LineValid(line) && EntrySound(line, prior)
    ensures 0 <= Start(line, prior)
    ensures forall x :: Start(line, prior) < x ==> !LineAccepts(line, prior, x)
  {
    assert 0 <= Available(line, prior) * line.unitFactor.den;
    forall x | Start(line, prior) < x ensures !LineAccepts(line, prior, x) {
      if 0 < x { StartIsTight(line, prior, x); }
    }
  }

  /**
    Sound for every factor. Maximal exactly when the nearest exactly convertible quantity lies within
    the guard; otherwise the code answers zero.
   */
  method MaxSupportedReturnQty(line: SaleLine, prior: LedgerLine) returns (q: int)
    requires LineValid(line) && EntrySound(line, prior)
    ensures q == 0 || LineAccepts(line, prior, q)
    ensures LargestAccepted(line, prior, q) <==> WithinSearch(line, prior)
    ensures !WithinSearch(line, prior) ==> q == 0
  {
    NothingAbove(line, prior);
    var remaining := line.soldQty - prior.returnedQty;
    if remaining <= 0 {
      return 0;
    }
    var end := Lots.OversellFreeBaseEnd(line.lots);
    if end >= line.soldQtyBase {
      WholeRemainderAccepted(line, prior);
      return remaining;
    }
    var availBase := end - prior.returnedQtyBase;
    if availBase <= 0 {
      return 0;
    }
    q := SearchDown(line, prior, Min(remaining, availBase * line.unitFactor.den / line.unitFactor.num));
  }

  /** For a factor that is a multiple of 0.001, however it is written, the search is always enough. */
  lemma ThreeDecimalsSuffice(line: SaleLine, prior: LedgerLine)
    requires LineValid(line) && EntrySound(line, prior)
    requires SEARCH_GUARD * line.unitFactor.num % line.unitFactor.den == 0
    ensures WithinSearch(line, prior)
  {
    var start, p := Start(line, prior), Period(line.unitFactor);
    ExactIffMultiple(line.unitFactor, SEARCH_GUARD);
    assert SEARCH_GUARD % p == 0;
    NonzeroMultiple(SEARCH_GUARD, p);
    if start >= p {
      DivisionScaled(start, p);
    }
  }

  lemma NonzeroMultiple(n: nat, p: nat)
    requires 0 < n && 0 < p && n % p == 0
    ensures p <= n
  {
  }

  /** With a factor of 3/2000 and one oversold unit, two sale units are returnable but none is offered. */
  lemma FinerFactorMissed() returns (line: SaleLine, q: int)
    ensures LineValid(line) && EntrySound(line, UNTOUCHED)
    ensures LineAccepts(line, UNTOUCHED, q)
    ensures !WithinSearch(line, UNTOUCHED)
  {
    var f := Factor(3, 2000);
    line := SaleLine(0, "p", f, 4000, 6, 100, 0, 0, 100,
                     [Lots.Lot("a", 5, 1.0), Lots.Lot(Lots.OVERSELL_LOT_ID, 1, 1.0)]);
    q := 2000;
    assert ExactBase(4000, f) == Some(6) && ExactBase(2000, f) == Some(3);
    var last := [Lots.Lot(Lots.OVERSELL_LOT_ID, 1, 1.0)];
    assert line.lots[1..] == last && last[1..] == [];
    assert Lots.Units([]) == [] && |Lots.Units(last)| == 1;
    assert |Lots.Units(line.lots)| == 6 && Lots.OversellFreeEnd(last) == 0;
    assert "a" != Lots.OVERSELL_LOT_ID by { assert |"a"| == 1 && |Lots.OVERSELL_LOT_ID| == 8; }
    UntouchedSound(line);
    assert Start(line, UNTOUCHED) == 3333;
    PeriodOfThreeTwoThousandths();
  }

  lemma PeriodOfThreeTwoThousandths()
    ensures Period(Factor(3, 2000)) == 2000
  {
    var f := Factor(3, 2000);
    var p := Period(f);
    ExactBaseMeaning(p, f, ExactBase(p, f).value);
  }
}
