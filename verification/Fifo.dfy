/**
  FIFO lot cutting in place (`planFifoCutFromState`) and merging of cuts per lot document
  (`mergeLotCuts`). Quantities are integer milli-units.
 */
module Fifo {
  import opened Arithmetic
  import opened Lots

  /** A lot while cuts are being planned; only `qtyRemaining` changes. */
  class MutableLot {
    const id: string
    const cost: real
    var qtyRemaining: int

    constructor (id: string, cost: real, qtyRemaining: int)
      ensures this.id == id && this.cost == cost && this.qtyRemaining == qtyRemaining
    {
      this.id, this.cost, this.qtyRemaining := id, cost, qtyRemaining;
    }
  }

  datatype LotView = LotView(id: string, cost: real, remaining: int)

  function View(lots: seq<MutableLot>): (r: seq<LotView>)
    reads lots
    ensures |r| == |lots|
    ensures forall i :: 0 <= i < |lots| ==> r[i] == LotView(lots[i].id, lots[i].cost, lots[i].qtyRemaining)
  {
    if lots == [] then []
    else
      var n := |lots| - 1;
      View(lots[..n]) + [LotView(lots[n].id, lots[n].cost, lots[n].qtyRemaining)]
  }

  ghost predicate Distinct(lots: seq<MutableLot>) {
    forall i, j :: 0 <= i < j < |lots| ==> lots[i] != lots[j]
  }

  ghost predicate DistinctIds(lots: seq<LotView>) {
    forall i, j :: 0 <= i < j < |lots| ==> lots[i].id != lots[j].id
  }

  // --- one cut, as values ------------------------------------------------------------

  /** What a lot gives towards `wanted`. */
  function Take(lot: LotView, wanted: int): (cut: nat)
    requires 0 < wanted
    ensures cut <= wanted
  {
    if lot.remaining <= 0 then 0 else Min(wanted, lot.remaining)
  }

  function Less(lot: LotView, cut: int): LotView {
    lot.(remaining := lot.remaining - cut)
  }

  function CutOf(lot: LotView, cut: nat): seq<Lot> {
    if cut > 0 then [Lot(lot.id, cut, lot.cost)] else []
  }

  /** The lots after a cut, oldest first. */
  function After(lots: seq<LotView>, qty: int): (r: seq<LotView>)
    ensures |r| == |lots|
    decreases |lots|
  {
    if lots == [] || qty <= 0 then lots
    else [Less(lots[0], Take(lots[0], qty))] + After(lots[1..], qty - Take(lots[0], qty))
  }

  /** The cuts recorded, oldest lot first. */
  function Cuts(lots: seq<LotView>, qty: int): seq<Lot>
    decreases |lots|
  {
    if lots == [] || qty <= 0 then []
    else CutOf(lots[0], Take(lots[0], qty)) + Cuts(lots[1..], qty - Take(lots[0], qty))
  }

  /** What no lot could cover. */
  function Left(lots: seq<LotView>, qty: int): int
    decreases |lots|
  {
    if lots == [] || qty <= 0 then qty else Left(lots[1..], qty - Take(lots[0], qty))
  }

  /** What is still to do from lot `i` on completes the whole cut. */
  ghost predicate Pending(lots: seq<LotView>, after: seq<LotView>, all: seq<Lot>, left: int,
                          i: nat, cuts: seq<Lot>, remaining: int)
  {
    && i <= |lots| == |after|
    && After(lots[i..], remaining) == after[i..]
    && cuts + Cuts(lots[i..], remaining) == all
    && Left(lots[i..], remaining) == left
  }

  lemma PendingStep(lots: seq<LotView>, after: seq<LotView>, all: seq<Lot>, left: int,
                    i: nat, cuts: seq<Lot>, remaining: int, cut: nat)
    requires Pending(lots, after, all, left, i, cuts, remaining) && i < |lots| && 0 < remaining
    requires cut == Take(lots[i], remaining)
    ensures after[i] == Less(lots[i], cut)
    ensures Pending(lots, after, all, left, i + 1, cuts + CutOf(lots[i], cut), remaining - cut)
  {
    var rest := After(lots[i + 1..], remaining - cut);
    assert lots[i..][0] == lots[i] && lots[i..][1..] == lots[i + 1..];
    assert after[i..] == [Less(lots[i], cut)] + rest;
    assert after[i] == after[i..][0];
    assert after[i + 1..] == after[i..][1..] == rest;
    assert cuts + (CutOf(lots[i], cut) + Cuts(lots[i + 1..], remaining - cut))
        == (cuts + CutOf(lots[i], cut)) + Cuts(lots[i + 1..], remaining - cut);
  }

  lemma PendingDone(lots: seq<LotView>, after: seq<LotView>, all: seq<Lot>, left: int,
                    i: nat, cuts: seq<Lot>, remaining: int)
    requires Pending(lots, after, all, left, i, cuts, remaining) && (i == |lots| || remaining <= 0)
    ensures cuts == all && remaining == left
    ensures forall j :: i <= j < |lots| ==> after[j] == lots[j]
  {
    assert cuts + [] == cuts;
    forall j | i <= j < |lots| ensures after[j] == lots[j] {
      assert after[j] == after[i..][j - i] && lots[j] == lots[i..][j - i];
    }
  }

  /** One lot's `qtyRemaining`, decremented in place by what it gives. */
  method CutLot(lot: MutableLot, remaining: int) returns (cut: nat)
    requires 0 < remaining
    modifies lot
    ensures cut == Take(LotView(lot.id, lot.cost, old(lot.qtyRemaining)), remaining)
    ensures lot.qtyRemaining == old(lot.qtyRemaining) - cut
  {
    if lot.qtyRemaining <= 0 {
      return 0;
    }
    cut := Min(remaining, lot.qtyRemaining);
    lot.qtyRemaining := lot.qtyRemaining - cut;
  }

  /** Walks the lots oldest first, decrementing each in place. */
  method PlanFifoCutFromState(lots: seq<MutableLot>, qtyBase: int) returns (cuts: seq<Lot>, remaining: int)
    requires Distinct(lots)
    modifies lots
    ensures View(lots) == After(old(View(lots)), qtyBase)
    ensures cuts == Cuts(old(View(lots)), qtyBase)
    ensures remaining == Left(old(View(lots)), qtyBase)
  {
    ghost var before := View(lots);
    ghost var after, all, left := After(before, qtyBase), Cuts(before, qtyBase), Left(before, qtyBase);
    cuts, remaining := WalkLots(lots, before, after, all, left, qtyBase);
    assert forall j :: 0 <= j < |lots| ==> View(lots)[j] == after[j];
  }

  /** The first `i` lots hold what they should after the cut, the others what they held before it. */
  ghost predicate Walked(lots: seq<MutableLot>, before: seq<LotView>, after: seq<LotView>, i: nat)
    reads lots
  {
    && |lots| == |before| == |after| && i <= |lots|
    && (forall j {:trigger lots[j]} :: 0 <= j < |lots| ==>
          LotView(lots[j].id, lots[j].cost, lots[j].qtyRemaining) == if j < i then after[j] else before[j])
  }

  method VisitLot(lots: seq<MutableLot>, ghost before: seq<LotView>, ghost after: seq<LotView>, ghost all: seq<Lot>,
                  ghost left: int, i: nat, cuts: seq<Lot>, remaining: int)
    returns (cuts': seq<Lot>, remaining': int)
    requires Distinct(lots) && i < |lots| && 0 < remaining
    requires Walked(lots, before, after, i) && Pending(before, after, all, left, i, cuts, remaining)
    modifies lots[i]
    ensures Walked(lots, before, after, i + 1) && Pending(before, after, all, left, i + 1, cuts', remaining')
  {
    var cut := CutLot(lots[i], remaining);
    PendingStep(before, after, all, left, i, cuts, remaining, cut);
    cuts' := cuts + if cut > 0 then [Lot(lots[i].id, cut, lots[i].cost)] else [];
    remaining' := remaining - cut;
    assert cuts' == cuts + CutOf(before[i], cut);
  }

  method WalkLots(lots: seq<MutableLot>, ghost before: seq<LotView>, ghost after: seq<LotView>, ghost all: seq<Lot>,
                  ghost left: int, qtyBase: int)
    returns (cuts: seq<Lot>, remaining: int)
    requires Distinct(lots) && View(lots) == before
    requires after == After(before, qtyBase) && all == Cuts(before, qtyBase) && left == Left(before, qtyBase)
    modifies lots
    ensures Walked(lots, before, after, |lots|)
    ensures cuts == all && remaining == left
  {
    remaining := qtyBase;
    cuts := [];
    var i := 0;
    PendingStart(before, qtyBase);
    while i < |lots|
      invariant 0 <= i <= |lots|
      invariant Walked(lots, before, after, i)
      invariant Pending(before, after, all, left, i, cuts, remaining)
    {
      if remaining <= 0 {
        break;
      }
      cuts, remaining := VisitLot(lots, before, after, all, left, i, cuts, remaining);
      i := i + 1;
    }
    PendingDone(before, after, all, left, i, cuts, remaining);
  }

  lemma PendingStart(lots: seq<LotView>, qty: int)
    ensures Pending(lots, After(lots, qty), Cuts(lots, qty), Left(lots, qty), 0, [], qty)
  {
    assert lots[0..] == lots && After(lots, qty)[0..] == After(lots, qty) && [] + Cuts(lots, qty) == Cuts(lots, qty);
  }

  // --- what a cut does ---------------------------------------------------------------

  function Positive(x: int): (r: nat) {
    if x <= 0 then 0 else x
  }

  /** Everything the lots can give. */
  function Capacity(lots: seq<LotView>): nat {
    if lots == [] then 0 else Positive(lots[0].remaining) + Capacity(lots[1..])
  }

  /** The leftover is what exceeds the capacity; a non-positive request is left as it is. */
  lemma {:induction false} LeftIsExcess(lots: seq<LotView>, qty: int)
    ensures Left(lots, qty) == if qty <= 0 then qty else Positive(qty - Capacity(lots))
    decreases |lots|
  {
    if lots != [] && qty > 0 {
      LeftIsExcess(lots[1..], qty - Take(lots[0], qty));
    }
  }

  lemma {:induction false} AfterBounds(lots: seq<LotView>, qty: int, i: nat)
    requires i < |lots|
    ensures var r := After(lots, qty)[i];
            r.id == lots[i].id && r.cost == lots[i].cost && r.remaining <= lots[i].remaining
    ensures 0 <= lots[i].remaining ==> 0 <= After(lots, qty)[i].remaining
    ensures qty <= 0 ==> After(lots, qty)[i] == lots[i]
    decreases |lots|
  {
    if qty > 0 && i > 0 {
      AfterBounds(lots[1..], qty - Take(lots[0], qty), i - 1);
    }
  }

  ghost predicate Active(lots: seq<LotView>) {
    forall i :: 0 <= i < |lots| ==> 0 < lots[i].remaining
  }

  /** A lot is touched only once every older lot is exhausted: an oldest-first prefix, one partial lot at most. */
  lemma {:induction false} OldestFirst(lots: seq<LotView>, qty: int, i: nat, j: nat)
    requires Active(lots) && i < j < |lots|
    ensures After(lots, qty)[j] != lots[j] ==> After(lots, qty)[i].remaining == 0
    decreases |lots|
  {
    if qty > 0 {
      var rest := qty - Take(lots[0], qty);
      if i == 0 {
        AfterBounds(lots[1..], rest, j - 1);
      } else {
        OldestFirst(lots[1..], rest, i - 1, j - 1);
      }
    }
  }

  lemma {:induction false} UnitsConcat(a: seq<Lot>, b: seq<Lot>)
    ensures Units(a + b) == Units(a) + Units(b)
  {
    if a == [] {
      assert a + b == b;
    } else {
      var head := Copies(Unit(a[0].lotId, a[0].cost), a[0].qty);
      assert (a + b)[1..] == a[1..] + b;
      UnitsConcat(a[1..], b);
      assert head + (Units(a[1..]) + Units(b)) == (head + Units(a[1..])) + Units(b);
    }
  }

  lemma CutOfTotal(lot: LotView, cut: nat)
    ensures Total(CutOf(lot, cut)) == cut
  {
    if cut > 0 {
      assert CutOf(lot, cut)[1..] == [];
      assert Units(CutOf(lot, cut)) == Copies(Unit(lot.id, lot.cost), cut) + Units([]);
    }
  }

  lemma CutsCons(lots: seq<LotView>, qty: int)
    requires lots != [] && 0 < qty
    ensures Total(Cuts(lots, qty)) == Take(lots[0], qty) + Total(Cuts(lots[1..], qty - Take(lots[0], qty)))
  {
    var cut := Take(lots[0], qty);
    UnitsConcat(CutOf(lots[0], cut), Cuts(lots[1..], qty - cut));
    CutOfTotal(lots[0], cut);
  }

  /** Every unit asked for is either cut from a lot or left over. */
  lemma {:induction false} CutsAndLeft(lots: seq<LotView>, qty: int)
    ensures Total(Cuts(lots, qty)) + Left(lots, qty) == qty
    ensures 0 <= qty ==> 0 <= Left(lots, qty)
    decreases |lots|
  {
    if lots != [] && qty > 0 {
      CutsAndLeft(lots[1..], qty - Take(lots[0], qty));
      CutsCons(lots, qty);
    }
  }

  lemma {:induction false} CutsPositive(lots: seq<LotView>, qty: int)
    ensures AllPositive(Cuts(lots, qty))
    decreases |lots|
  {
    if lots != [] && qty > 0 {
      CutsPositive(lots[1..], qty - Take(lots[0], qty));
    }
  }

  // --- composition -------------------------------------------------------------------

  lemma TakeTwice(lot: LotView, a: int, b: int)
    requires 0 < a && 0 < b
    ensures Take(lot, a) + Take(Less(lot, Take(lot, a)), b) == Take(lot, a + b)
    ensures a - Take(lot, a) > 0 ==> Take(Less(lot, Take(lot, a)), b) == 0
  {
  }

  lemma AfterCons(lot: LotView, rest: seq<LotView>, qty: int)
    requires 0 < qty
    ensures After([lot] + rest, qty) == [Less(lot, Take(lot, qty))] + After(rest, qty - Take(lot, qty))
  {
    assert ([lot] + rest)[1..] == rest;
  }

  lemma ComposeHead(lot: LotView, a: int, b: int, cutA: nat, cutB: nat)
    requires 0 < a && 0 < b && cutA == Take(lot, a) && cutB == Take(Less(lot, cutA), b)
    ensures Less(Less(lot, cutA), cutB) == Less(lot, Take(lot, a + b))
    ensures (a - cutA) + (b - cutB) == (a + b) - Take(lot, a + b)
  {
    TakeTwice(lot, a, b);
  }

  lemma ComposeCons(lot: LotView, rest: seq<LotView>, a: int, b: int, cutA: nat, cutB: nat)
    requires 0 < a && 0 < b && cutA == Take(lot, a) && cutB == Take(Less(lot, cutA), b)
    ensures After(After([lot] + rest, a), b)
            == [Less(lot, Take(lot, a + b))] + After(After(rest, a - cutA), b - cutB)
  {
    ComposeHead(lot, a, b, cutA, cutB);
    AfterCons(lot, rest, a);
    AfterCons(Less(lot, cutA), After(rest, a - cutA), b);
  }

  lemma ComposeStep(lot: LotView, rest: seq<LotView>, a: int, b: int, cutA: nat, cutB: nat)
    requires 0 < a && 0 < b && cutA == Take(lot, a) && cutB == Take(Less(lot, cutA), b)
    requires After(After(rest, a - cutA), b - cutB) == After(rest, (a - cutA) + (b - cutB))
    ensures After(After([lot] + rest, a), b) == After([lot] + rest, a + b)
  {
    ComposeCons(lot, rest, a, b, cutA, cutB);
    ComposeHead(lot, a, b, cutA, cutB);
    AfterCons(lot, rest, a + b);
  }

  /** Cutting twice is cutting the sum once, lot by lot. */
  lemma {:induction false} CutsCompose(lots: seq<LotView>, a: nat, b: nat)
    ensures After(After(lots, a), b) == After(lots, a + b)
    decreases |lots|
  {
    if lots != [] && a > 0 && b > 0 {
      var lot, rest := lots[0], lots[1..];
      var cutA := Take(lot, a);
      var cutB := Take(Less(lot, cutA), b);
      CutsCompose(rest, a - cutA, b - cutB);
      ComposeWhole(lots, a, b, cutA, cutB);
    }
  }

  lemma ComposeWhole(lots: seq<LotView>, a: int, b: int, cutA: nat, cutB: nat)
    requires lots != [] && 0 < a && 0 < b && cutA == Take(lots[0], a) && cutB == Take(Less(lots[0], cutA), b)
    requires After(After(lots[1..], a - cutA), b - cutB) == After(lots[1..], (a - cutA) + (b - cutB))
    ensures After(After(lots, a), b) == After(lots, a + b)
  {
    ComposeStep(lots[0], lots[1..], a, b, cutA, cutB);
    assert lots == [lots[0]] + lots[1..];
  }

  lemma {:induction false} CapacityAfter(lots: seq<LotView>, qty: nat)
    ensures Capacity(After(lots, qty)) == Capacity(lots) - (qty - Left(lots, qty))
    decreases |lots|
  {
    if lots != [] && qty > 0 {
      CapacityAfter(lots[1..], qty - Take(lots[0], qty));
      assert After(lots, qty)[1..] == After(lots[1..], qty - Take(lots[0], qty));
    }
  }

  /** What two cuts leave over is what the one larger cut leaves over. */
  lemma LeftComposes(lots: seq<LotView>, a: nat, b: nat)
    ensures Left(lots, a) + Left(After(lots, a), b) == Left(lots, a + b)
  {
    LeftIsExcess(lots, a);
    CapacityAfter(lots, a);
    LeftIsExcess(After(lots, a), b);
    LeftIsExcess(lots, a + b);
  }

  /** Total cut from one lot document. */
  function CutTotal(cuts: seq<Lot>, id: string): nat {
    if cuts == [] then 0
    else CutTotal(cuts[..|cuts| - 1], id) + if cuts[|cuts| - 1].lotId == id then cuts[|cuts| - 1].qty else 0
  }

  lemma {:induction false} CutTotalConcat(a: seq<Lot>, b: seq<Lot>, id: string)
    ensures CutTotal(a + b, id) == CutTotal(a, id) + CutTotal(b, id)
  {
    if b == [] {
      assert a + b == a;
    } else {
      assert (a + b)[..|a + b| - 1] == a + b[..|b| - 1];
      CutTotalConcat(a, b[..|b| - 1], id);
    }
  }

  lemma CutTotalStep(lots: seq<LotView>, qty: int, id: string)
    requires lots != [] && 0 < qty
    ensures var cut := Take(lots[0], qty);
            CutTotal(Cuts(lots, qty), id)
            == (if lots[0].id == id then cut else 0) + CutTotal(Cuts(lots[1..], qty - cut), id)
  {
    var cut := Take(lots[0], qty);
    CutTotalConcat(CutOf(lots[0], cut), Cuts(lots[1..], qty - cut), id);
    if cut > 0 {
      assert CutOf(lots[0], cut)[..0] == [];
    }
  }

  /** The cuts of a product's lots touch only that product's documents. */
  lemma {:induction false} NoCutElsewhere(lots: seq<LotView>, qty: int, id: string)
    requires forall i :: 0 <= i < |lots| ==> lots[i].id != id
    ensures CutTotal(Cuts(lots, qty), id) == 0
    decreases |lots|
  {
    if lots != [] && qty > 0 {
      CutTotalStep(lots, qty, id);
      NoCutElsewhere(lots[1..], qty - Take(lots[0], qty), id);
    }
  }

  lemma AfterAt(lots: seq<LotView>, qty: int, i: nat)
    requires i < |lots| && 0 < qty
    ensures i == 0 ==> After(lots, qty)[i] == Less(lots[0], Take(lots[0], qty))
    ensures i > 0 ==> After(lots, qty)[i] == After(lots[1..], qty - Take(lots[0], qty))[i - 1]
  {
  }

  lemma HeadCutIsLoss(lots: seq<LotView>, qty: int)
    requires lots != [] && 0 < qty
    requires forall j :: 0 <= j < |lots[1..]| ==> lots[1..][j].id != lots[0].id
    ensures CutTotal(Cuts(lots, qty), lots[0].id) == Take(lots[0], qty)
  {
    CutTotalStep(lots, qty, lots[0].id);
    NoCutElsewhere(lots[1..], qty - Take(lots[0], qty), lots[0].id);
  }

  lemma TailCutIsLoss(lots: seq<LotView>, qty: int, i: nat, rest: int)
    requires DistinctIds(lots) && 0 < i < |lots| && 0 < qty && rest == qty - Take(lots[0], qty)
    requires CutTotal(Cuts(lots[1..], rest), lots[i].id) == lots[i].remaining - After(lots[1..], rest)[i - 1].remaining
    ensures CutTotal(Cuts(lots, qty), lots[i].id) == lots[i].remaining - After(lots, qty)[i].remaining
  {
    AfterAt(lots, qty, i);
    CutTotalStep(lots, qty, lots[i].id);
  }

  /** The cuts recorded against a lot are what the lot lost. */
  lemma {:induction false} CutIsLoss(lots: seq<LotView>, qty: int, i: nat)
    requires DistinctIds(lots) && i < |lots|
    ensures CutTotal(Cuts(lots, qty), lots[i].id) == lots[i].remaining - After(lots, qty)[i].remaining
    decreases |lots|
  {
    if qty > 0 {
      var rest := qty - Take(lots[0], qty);
      if i == 0 {
        HeadCutIsLoss(lots, qty);
        AfterAt(lots, qty, 0);
      } else {
        CutIsLoss(lots[1..], rest, i - 1);
        TailCutIsLoss(lots, qty, i, rest);
      }
    }
  }

  // --- merging -----------------------------------------------------------------------

  /** At most one entry per lot document, holding the total cut from it. */
  method MergeLotCuts(cuts: seq<Lot>) returns (merged: map<string, nat>)
    ensures forall id :: id in merged <==> id != "" && CutTotal(cuts, id) > 0
    ensures forall id :: id in merged ==> merged[id] == CutTotal(cuts, id)
  {
    merged := map[];
    for i := 0 to |cuts|
      invariant forall id :: id in merged <==> id != "" && CutTotal(cuts[..i], id) > 0
      invariant forall id :: id in merged ==> merged[id] == CutTotal(cuts[..i], id)
    {
      var cut := cuts[i];
      assert cuts[..i + 1][..i] == cuts[..i];
      if cut.lotId == "" || cut.qty <= 0 {
        continue;
      }
      merged := merged[cut.lotId := if cut.lotId in merged then merged[cut.lotId] + cut.qty else cut.qty];
    }
    assert cuts[..|cuts|] == cuts;
  }
}
