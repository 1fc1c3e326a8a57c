/**
  Largest-remainder allocation of a bill discount or a fee over the lines of a sale
  (`allocateProportional`). Every amount is integer satang.
 */
module Allocation {
  import opened Arithmetic

  /** Whole satang of each exact quota `amount * weight / total`. */
  function Floors(amount: nat, weights: seq<nat>): (floors: seq<nat>)
    requires 0 < Sum(weights)
  {
    seq(|weights|, i requires 0 <= i < |weights| => Product(amount, weights[i]) / Sum(weights))
  }

  function Remainders(amount: nat, weights: seq<nat>): (rems: seq<nat>)
    requires 0 < Sum(weights)
  {
    seq(|weights|, i requires 0 <= i < |weights| => Product(amount, weights[i]) % Sum(weights))
  }

  /** The sort order of the leftovers: larger remainder first, lower index on a tie. */
  predicate Precedes(rems: seq<nat>, i: nat, j: nat)
    requires i < |rems| && j < |rems|
  {
    if rems[i] == rems[j] then i < j else rems[i] > rems[j]
  }

  /** `parts` spends `amount`; each part is its floor or one more; the extras went by rank. */
  ghost predicate HandedOut(floors: seq<nat>, rems: seq<nat>, amount: nat, parts: seq<nat>)
  {
    && |parts| == |floors| == |rems|
    && Sum(parts) == amount
    && (forall i :: 0 <= i < |parts| ==> parts[i] == floors[i] || parts[i] == floors[i] + 1)
    && (forall i, j :: 0 <= i < |parts| && 0 <= j < |parts| && parts[i] > floors[i] && parts[j] == floors[j]
          ==> Precedes(rems, i, j))
  }

  /** What an allocation promises. */
  ghost predicate LargestRemainder(amount: nat, weights: seq<nat>, parts: seq<nat>)
  {
    0 < Sum(weights) && HandedOut(Floors(amount, weights), Remainders(amount, weights), amount, parts)
  }

  /** The promise leaves no freedom: there is one largest-remainder allocation. */
  lemma AllocationUnique(amount: nat, weights: seq<nat>, a: seq<nat>, b: seq<nat>)
    requires LargestRemainder(amount, weights, a) && LargestRemainder(amount, weights, b)
    ensures a == b
  {
    HandedOutUnique(Floors(amount, weights), Remainders(amount, weights), amount, a, b);
  }

  lemma HandedOutUnique(floors: seq<nat>, rems: seq<nat>, amount: nat, a: seq<nat>, b: seq<nat>)
    requires HandedOut(floors, rems, amount, a) && HandedOut(floors, rems, amount, b)
    ensures a == b
  {
    if a != b {
      var i := MoreSomewhere(a, b);
      var j := MoreSomewhere(b, a);
      assert false;
    }
  }

  /** Two different sequences of equal sum: each exceeds the other somewhere. */
  lemma MoreSomewhere(a: seq<nat>, b: seq<nat>) returns (i: nat)
    requires |a| == |b| && Sum(a) == Sum(b) && a != b
    ensures i < |a| && a[i] > b[i]
  {
    if forall k :: 0 <= k < |a| ==> a[k] <= b[k] {
      SumMonotone(a, b);
      assert false;
    }
    i :| 0 <= i < |a| && a[i] > b[i];
  }

  /** The exact quotas, floors and remainders, without division. */
  ghost predicate Split(total: nat, quotas: seq<nat>, floors: seq<nat>, rems: seq<nat>)
  {
    && |quotas| == |floors| == |rems|
    && (forall i :: 0 <= i < |quotas| ==> quotas[i] == floors[i] * total + rems[i] && rems[i] < total)
  }

  function Scaled(k: nat, s: seq<nat>): (r: seq<nat>)
    ensures |r| == |s|
  {
    seq(|s|, i requires 0 <= i < |s| => k * s[i])
  }

  lemma SplitHolds(amount: nat, weights: seq<nat>)
    requires 0 < Sum(weights)
    ensures Split(Sum(weights), Scaled(amount, weights), Floors(amount, weights), Remainders(amount, weights))
    ensures Sum(Scaled(amount, weights)) == amount * Sum(weights)
  {
    forall i | 0 <= i < |weights|
      ensures Scaled(amount, weights)[i] == Floors(amount, weights)[i] * Sum(weights) + Remainders(amount, weights)[i]
    {
      DivisionScaled(amount * weights[i], Sum(weights));
    }
    SumScale(weights, amount, Scaled(amount, weights));
  }

  lemma DivisionScaled(a: nat, d: nat)
    requires 0 < d
    ensures a == (a / d) * d + a % d && 0 <= a % d < d
  {
  }

  /** Only a part with a positive remainder is rounded up, so a rounded-up part is the quota's ceiling. */
  lemma ExtraNeedsRemainder(total: nat, quotas: seq<nat>, floors: seq<nat>, rems: seq<nat>, amount: nat,
                            parts: seq<nat>, i: nat)
    requires Split(total, quotas, floors, rems) && HandedOut(floors, rems, amount, parts)
    requires Sum(quotas) == amount * total
    requires i < |parts| && parts[i] > floors[i]
    ensures 0 < rems[i]
  {
    if rems[i] == 0 {
      var spent := Scaled(total, parts);
      forall k | 0 <= k < |parts| ensures quotas[k] <= spent[k] && (k == i ==> quotas[k] < spent[k]) {
        assert parts[k] == floors[k] ==> Precedes(rems, i, k);
        SpentCovers(total, floors[k], rems[k], parts[k]);
      }
      CoveringIsExact(total, quotas, amount, parts);
      assert false;
    }
  }

  lemma SpentCovers(total: nat, floor: nat, rem: nat, part: nat)
    requires rem < total
    requires (part == floor && rem == 0) || part == floor + 1
    ensures floor * total + rem <= total * part
    ensures part == floor + 1 ==> floor * total + rem < total * part
  {
    Scale(total, floor, part);
  }

  /** Parts that sum to the amount and cover every quota meet every quota exactly. */
  lemma CoveringIsExact(total: nat, quotas: seq<nat>, amount: nat, parts: seq<nat>)
    requires |quotas| == |parts|
    requires Sum(quotas) == amount * total && Sum(parts) == amount
    requires forall k :: 0 <= k < |parts| ==> quotas[k] <= Scaled(total, parts)[k]
    ensures quotas == Scaled(total, parts)
  {
    var spent := Scaled(total, parts);
    SumScale(parts, total, spent);
    SumMonotone(quotas, spent);
  }

  lemma Scale(total: nat, floor: nat, part: nat)
    ensures part == floor ==> total * part == floor * total
    ensures part == floor + 1 ==> total * part == floor * total + total
  {
  }

  /** Parts never stray a whole satang from the exact quota; an exact quota is met exactly. */
  lemma QuotaBounds(amount: nat, weights: seq<nat>, parts: seq<nat>, i: nat)
    requires LargestRemainder(amount, weights, parts) && i < |parts|
    ensures amount * weights[i] - Sum(weights) < parts[i] * Sum(weights) < amount * weights[i] + Sum(weights)
    ensures amount * weights[i] % Sum(weights) == 0 ==> parts[i] * Sum(weights) == amount * weights[i]
  {
    var total, quotas, floors, rems :=
      Sum(weights), Scaled(amount, weights), Floors(amount, weights), Remainders(amount, weights);
    SplitHolds(amount, weights);
    assert quotas[i] == amount * weights[i] && rems[i] == amount * weights[i] % total;
    Scale(total, floors[i], parts[i]);
    if parts[i] > floors[i] {
      ExtraNeedsRemainder(total, quotas, floors, rems, amount, parts, i);
    }
  }

  /** A discount no larger than the bill never takes more from a line than the line is worth. */
  lemma PartWithinWeight(amount: nat, weights: seq<nat>, parts: seq<nat>, i: nat)
    requires LargestRemainder(amount, weights, parts) && i < |parts|
    requires amount <= Sum(weights)
    ensures parts[i] <= weights[i]
  {
    QuotaBounds(amount, weights, parts, i);
    WithinWeight(amount, Sum(weights), weights[i], parts[i]);
  }

  lemma WithinWeight(amount: nat, total: nat, w: nat, part: nat)
    requires amount <= total && part * total < amount * w + total
    ensures part <= w
  {
    assert amount * w <= total * w;
    assert part >= w + 1 ==> part * total >= (w + 1) * total;
  }

  // --- the algorithm ---------------------------------------------------------

  ghost predicate Ranked(rems: seq<nat>, order: seq<nat>)
  {
    && (forall k :: 0 <= k < |order| ==> order[k] < |rems|)
    && (forall p, q :: 0 <= p < q < |order| ==> Precedes(rems, order[p], order[q]))
  }

  function InsertIndex(rems: seq<nat>, order: seq<nat>, i: nat): (r: seq<nat>)
    requires Ranked(rems, order)
    requires i < |rems| && i !in order
    ensures Ranked(rems, r) && |r| == |order| + 1
    ensures forall x :: x in r <==> x == i || x in order
  {
    if order == [] then [i]
    else if Precedes(rems, i, order[0]) then [i] + order
    else
      var rest := InsertIndex(rems, order[1..], i);
      assert forall x :: x in order <==> x == order[0] || x in order[1..];
      assert forall x :: x in rest ==> x < |rems| && Precedes(rems, order[0], x);
      [order[0]] + rest
  }

  /** The indices below `n` in the comparator's order (the built-in sort of the remainder list). */
  function SortIndices(rems: seq<nat>, n: nat): (order: seq<nat>)
    requires n <= |rems|
    ensures Ranked(rems, order) && |order| == n
    ensures forall x :: x in order <==> 0 <= x < n
  {
    if n == 0 then [] else InsertIndex(rems, SortIndices(rems, n - 1), n - 1)
  }

  /** Fewer satang are left over than there are lines to give them to. */
  lemma LeftoverBelowCount(total: nat, quotas: seq<nat>, floors: seq<nat>, rems: seq<nat>, amount: nat)
    requires 0 < total && Split(total, quotas, floors, rems) && Sum(quotas) == amount * total
    requires |quotas| > 0
    ensures 0 <= amount - Sum(floors) < |floors|
  {
    var n := |floors|;
    var low := Scaled(total, floors);
    SumScale(floors, total, low);
    SumAdd(low, rems, quotas);
    var caps := seq(n, _ => total);
    SumMonotone(rems, caps);
    assert rems[0] < caps[0];
    SumConstant(n, total);
    SumNonNegative(rems);
    LeftoverBounds(total, Sum(floors), Sum(rems), amount, n);
  }

  lemma LeftoverBounds(total: nat, floors: int, rems: nat, amount: nat, n: nat)
    requires 0 < total && total * floors + rems == amount * total && rems < n * total
    ensures 0 <= amount - floors < n
  {
    var d := amount - floors;
    assert d * total == rems;
    assert d < 0 ==> d * total < 0;
    assert d >= n ==> d * total >= n * total;
  }

  lemma {:induction false} SumConstant(n: nat, c: int)
    ensures Sum(seq(n, _ => c)) == n * c
  {
    if n > 0 {
      assert seq(n, _ => c)[..n - 1] == seq(n - 1, _ => c);
      SumConstant(n - 1, c);
    }
  }

  /**
    The parts sum to the amount except on the one input family where every weight is zero and the
    amount is not: there nothing is allocated.
   */
  method AllocateProportional(amount: nat, weights: seq<nat>) returns (parts: seq<nat>)
    ensures |parts| == |weights|
    ensures amount > 0 && Sum(weights) > 0 ==> LargestRemainder(amount, weights, parts)
    ensures amount == 0 || Sum(weights) == 0 ==> forall i :: 0 <= i < |parts| ==> parts[i] == 0
    ensures Sum(parts) == amount <==> Sum(weights) > 0 || amount == 0
  {
    var total: nat := 0;
    for i := 0 to |weights|
      invariant total == Sum(weights[..i])
    {
      SumSnoc(weights, i);
      total := total + weights[i];
    }
    assert weights[..|weights|] == weights;
    if amount == 0 || total == 0 {
      parts := seq(|weights|, _ => 0);
      SumConstant(|weights|, 0);
      return;
    }
    var rems := Remainders(amount, weights);
    var base, spent := FloorParts(amount, weights, total);
    SplitHolds(amount, weights);
    LeftoverBelowCount(total, Scaled(amount, weights), Floors(amount, weights), rems, amount);
    HandOut(base, Floors(amount, weights), rems, amount, amount - spent);
    parts := base[..];
  }

  /** The floors, and what they spend. */
  method FloorParts(amount: nat, weights: seq<nat>, total: nat) returns (base: array<nat>, spent: nat)
    requires 0 < total == Sum(weights)
    ensures fresh(base) && base[..] == Floors(amount, weights) && spent == Sum(base[..])
  {
    ghost var floors := Floors(amount, weights);
    base := new nat[|weights|];
    spent := 0;
    for i := 0 to |weights|
      invariant base[..i] == floors[..i]
      invariant spent == Sum(floors[..i])
    {
      base[i] := Product(amount, weights[i]) / total;
      assert base[i] == floors[i];
      SumSnoc(floors, i);
      spent := spent + base[i];
    }
    assert base[..] == base[..|weights|] == floors[..|weights|] == floors;
  }

  /** The hand-out loop: one satang each to the highest-ranked parts until nothing is left. */
  method HandOut(base: array<nat>, ghost floors: seq<nat>, rems: seq<nat>, ghost amount: nat, leftoverAtStart: nat)
    requires base[..] == floors && |rems| == |floors|
    requires Sum(floors) + leftoverAtStart == amount && leftoverAtStart <= |floors|
    modifies base
    ensures HandedOut(floors, rems, amount, base[..])
  {
    var leftover := leftoverAtStart;
    var rema := SortIndices(rems, |rems|);
    var k := 0;
    while leftover > 0 && k < |rema|
      invariant 0 <= k <= |rema| && k + leftover == leftoverAtStart
      invariant Sum(base[..]) + leftover == amount
      invariant forall j :: 0 <= j < |floors| ==> base[j] == floors[j] + if j in rema[..k] then 1 else 0
      decreases |rema| - k
    {
      var j := rema[k];
      assert j !in rema[..k];
      SumUpdate(base[..], j, base[j] + 1);
      ghost var before := base[..];
      base[j] := base[j] + 1;
      assert base[..] == before[j := before[j] + 1];
      assert rema[..k + 1] == rema[..k] + [j];
      k, leftover := k + 1, leftover - 1;
    }
    RankedFirst(floors, rems, rema, k, base[..]);
  }

  /** Those served first precede those not served. */
  lemma RankedFirst(floors: seq<nat>, rems: seq<nat>, order: seq<nat>, k: nat, parts: seq<nat>)
    requires Ranked(rems, order) && k <= |order| && |parts| == |floors| == |rems|
    requires forall x :: x in order <==> 0 <= x < |rems|
    requires forall j :: 0 <= j < |floors| ==> parts[j] == floors[j] + if j in order[..k] then 1 else 0
    ensures forall i, j :: 0 <= i < |parts| && 0 <= j < |parts| && parts[i] > floors[i] && parts[j] == floors[j]
              ==> Precedes(rems, i, j)
  {
    forall i, j | 0 <= i < |parts| && 0 <= j < |parts| && parts[i] > floors[i] && parts[j] == floors[j]
      ensures Precedes(rems, i, j)
    {
      assert i in order[..k] && j in order && j !in order[..k];
      var p :| 0 <= p < k && order[p] == i;
      var q :| 0 <= q < |order| && order[q] == j;
      assert forall r :: 0 <= r < k ==> order[r] in order[..k];
    }
  }
}
