/**
  Which originally sold base units a return brings back (`planLotRestoration`, `oversellFreeBaseEnd`).
  The reference model lays the sold units out one by one in the recorded FIFO order.
 */
module Lots {
  import opened Wrappers
  import opened Arithmetic

  const OVERSELL_LOT_ID := "oversell"

  datatype Lot = Lot(lotId: string, qty: nat, cost: real)

  datatype Portion = Portion(portionIndex: nat, lotId: string, qty: nat, cost: real)

  /** One milli-unit of base stock, with the cost layer it was sold from. */
  datatype Unit = Unit(lotId: string, cost: real)

  function Copies(u: Unit, n: nat): (r: seq<Unit>)
    ensures |r| == n && forall i :: 0 <= i < n ==> r[i] == u
  {
    seq(n, _ => u)
  }

  /** The units of a lot list, in order. */
  function Units(lots: seq<Lot>): seq<Unit> {
    if lots == [] then [] else Copies(Unit(lots[0].lotId, lots[0].cost), lots[0].qty) + Units(lots[1..])
  }

  function PortionUnits(portions: seq<Portion>): seq<Unit> {
    if portions == [] then []
    else Copies(Unit(portions[0].lotId, portions[0].cost), portions[0].qty) + PortionUnits(portions[1..])
  }

  function Total(lots: seq<Lot>): nat {
    |Units(lots)|
  }

  /** The portions that cut `[start, end)` out of lots whose first unit sits at offset `cursor`. */
  function Cut(lots: seq<Lot>, cursor: int, start: int, end: int, index: nat): seq<Portion> {
    if lots == [] then []
    else
      var lot := lots[0];
      var take := Min(end, cursor + lot.qty) - Max(start, cursor);
      if take > 0 then
        [Portion(index, lot.lotId, take, lot.cost)] + Cut(lots[1..], cursor + lot.qty, start, end, index + 1)
      else Cut(lots[1..], cursor + lot.qty, start, end, index)
  }

  function Restoration(lots: seq<Lot>, previously: int, qty: int): Option<seq<Portion>> {
    if previously < 0 || qty <= 0 || previously + qty > Total(lots) then None
    else Some(Cut(lots, 0, previously, previously + qty, 0))
  }

  /** The units whose offset lies in `[from, to)`, either bound possibly outside the sequence. */
  function Slice(units: seq<Unit>, from: int, to: int): seq<Unit> {
    if units == [] then []
    else (if from <= 0 < to then [units[0]] else []) + Slice(units[1..], from - 1, to - 1)
  }

  lemma {:induction false} SliceConcat(a: seq<Unit>, b: seq<Unit>, from: int, to: int)
    ensures Slice(a + b, from, to) == Slice(a, from, to) + Slice(b, from - |a|, to - |a|)
  {
    if a == [] {
      assert a + b == b;
    } else {
      var head := if from <= 0 < to then [a[0]] else [];
      assert (a + b)[1..] == a[1..] + b;
      SliceConcat(a[1..], b, from - 1, to - 1);
      var x, y := Slice(a[1..], from - 1, to - 1), Slice(b, from - |a|, to - |a|);
      assert from - 1 - |a[1..]| == from - |a|;
      assert head + (x + y) == (head + x) + y;
    }
  }

  lemma SliceInRange(units: seq<Unit>, from: int, to: int)
    requires 0 <= from <= to <= |units|
    ensures Slice(units, from, to) == units[from..to]
  {
    var front, mid, back := units[..from], units[from..to], units[to..];
    assert units == front + (mid + back);
    SliceConcat(front, mid + back, from, to);
    SliceOutside(front, from, to);
    SliceConcat(mid, back, 0, to - from);
    SliceInside(mid, 0, to - from);
    SliceOutside(back, from - to, 0);
  }

  lemma {:induction false} SliceOutside(units: seq<Unit>, from: int, to: int)
    requires to <= 0 || |units| <= from
    ensures Slice(units, from, to) == []
  {
    if units != [] { SliceOutside(units[1..], from - 1, to - 1); }
  }

  lemma {:induction false} SliceInside(units: seq<Unit>, from: int, to: int)
    requires from <= 0 && |units| <= to
    ensures Slice(units, from, to) == units
  {
    if units != [] { SliceInside(units[1..], from - 1, to - 1); }
  }

  lemma {:induction false} SliceCopies(u: Unit, n: nat, from: int, to: int)
    ensures Slice(Copies(u, n), from, to) == Copies(u, Max(0, Min(to, n) - Max(from, 0)))
  {
    if n > 0 {
      assert Copies(u, n)[1..] == Copies(u, n - 1);
      SliceCopies(u, n - 1, from - 1, to - 1);
    }
  }

  /** Unit by unit, the portions are exactly the slice they were asked for. */
  lemma {:induction false} CutIsSlice(lots: seq<Lot>, cursor: int, start: int, end: int, index: nat)
    ensures PortionUnits(Cut(lots, cursor, start, end, index)) == Slice(Units(lots), start - cursor, end - cursor)
    decreases |lots|
  {
    if lots != [] {
      var next := cursor + lots[0].qty;
      var take := Min(end, next) - Max(start, cursor);
      if take > 0 {
        CutIsSlice(lots[1..], next, start, end, index + 1);
        CutUnits(lots, cursor, start, end, index, index + 1);
      } else {
        CutIsSlice(lots[1..], next, start, end, index);
        CutUnits(lots, cursor, start, end, index, index);
      }
    }
  }

  lemma SliceUnits(lots: seq<Lot>, from: int, to: int, take: int)
    requires lots != [] && take == Min(to, lots[0].qty) - Max(from, 0)
    ensures Slice(Units(lots), from, to) ==
            Copies(Unit(lots[0].lotId, lots[0].cost), Max(0, take)) +
            Slice(Units(lots[1..]), from - lots[0].qty, to - lots[0].qty)
  {
    var u := Unit(lots[0].lotId, lots[0].cost);
    SliceConcat(Copies(u, lots[0].qty), Units(lots[1..]), from, to);
    SliceCopies(u, lots[0].qty, from, to);
  }

  lemma CutUnits(lots: seq<Lot>, cursor: int, start: int, end: int, index: nat, next: nat)
    requires lots != []
    requires next == if Min(end, cursor + lots[0].qty) - Max(start, cursor) > 0 then index + 1 else index
    requires PortionUnits(Cut(lots[1..], cursor + lots[0].qty, start, end, next))
             == Slice(Units(lots[1..]), start - (cursor + lots[0].qty), end - (cursor + lots[0].qty))
    ensures PortionUnits(Cut(lots, cursor, start, end, index)) == Slice(Units(lots), start - cursor, end - cursor)
  {
    var lot, tail := lots[0], Cut(lots[1..], cursor + lots[0].qty, start, end, next);
    var take := Min(end, cursor + lot.qty) - Max(start, cursor);
    var from, to := start - cursor, end - cursor;
    SliceUnits(lots, from, to, take);
    assert from - lot.qty == start - (cursor + lot.qty) && to - lot.qty == end - (cursor + lot.qty);
    if take > 0 {
      assert Cut(lots, cursor, start, end, index) == [Portion(index, lot.lotId, take, lot.cost)] + tail;
      PortionUnitsCons(Portion(index, lot.lotId, take, lot.cost), tail);
      assert Max(0, take) == take;
    } else {
      assert Cut(lots, cursor, start, end, index) == tail;
      assert Copies(Unit(lot.lotId, lot.cost), Max(0, take)) == [];
      assert [] + PortionUnits(tail) == PortionUnits(tail);
    }
  }

  lemma PortionUnitsCons(p: Portion, rest: seq<Portion>)
    ensures PortionUnits([p] + rest) == Copies(Unit(p.lotId, p.cost), p.qty) + PortionUnits(rest)
  {
    assert ([p] + rest)[1..] == rest;
  }

  ghost predicate Numbered(portions: seq<Portion>, index: nat) {
    forall k :: 0 <= k < |portions| ==> portions[k].qty > 0 && portions[k].portionIndex == index + k
  }

  /** Every portion is non-empty and the portions are numbered from `index` on. */
  lemma {:induction false} CutShape(lots: seq<Lot>, cursor: int, start: int, end: int, index: nat)
    ensures Numbered(Cut(lots, cursor, start, end, index), index)
    decreases |lots|
  {
    if lots != [] {
      CutShape(lots[1..], cursor + lots[0].qty, start, end, index + 1);
      CutShape(lots[1..], cursor + lots[0].qty, start, end, index);
    }
  }

  /** `planLotRestoration` refines the unit model: it is defined exactly on slices that exist. */
  lemma RestorationIsSlice(lots: seq<Lot>, previously: int, qty: int)
    ensures Restoration(lots, previously, qty).Some? <==> 0 <= previously && 0 < qty && previously + qty <= Total(lots)
    ensures Restoration(lots, previously, qty).Some? ==>
              PortionUnits(Restoration(lots, previously, qty).value) == Units(lots)[previously..previously + qty]
  {
    if Restoration(lots, previously, qty).Some? {
      CutIsSlice(lots, 0, previously, previously + qty, 0);
      assert PortionUnits(Cut(lots, 0, previously, previously + qty, 0))
          == Slice(Units(lots), previously, previously + qty);
      SliceInRange(Units(lots), previously, previously + qty);
    }
  }

  /** Two successive returns restore disjoint stretches that join up to the one larger return. */
  lemma RestorationsConcatenate(lots: seq<Lot>, previously: int, first: int, second: int)
    requires Restoration(lots, previously, first).Some?
    requires Restoration(lots, previously + first, second).Some?
    ensures Restoration(lots, previously, first + second).Some?
    ensures PortionUnits(Restoration(lots, previously, first).value) +
            PortionUnits(Restoration(lots, previously + first, second).value)
            == PortionUnits(Restoration(lots, previously, first + second).value)
  {
    RestorationIsSlice(lots, previously, first);
    RestorationIsSlice(lots, previously + first, second);
    RestorationIsSlice(lots, previously, first + second);
  }

  // --- per-lot accounting ------------------------------------------------------

  function CountOf(units: seq<Unit>, lotId: string): nat {
    if units == [] then 0 else (if units[0].lotId == lotId then 1 else 0) + CountOf(units[1..], lotId)
  }

  lemma {:induction false} CountConcat(a: seq<Unit>, b: seq<Unit>, lotId: string)
    ensures CountOf(a + b, lotId) == CountOf(a, lotId) + CountOf(b, lotId)
  {
    if a == [] {
      assert a + b == b;
    } else {
      assert (a + b)[1..] == a[1..] + b;
      CountConcat(a[1..], b, lotId);
    }
  }

  /** A prefix of the sold units never holds more of a lot than was sold from it. */
  lemma PrefixCount(units: seq<Unit>, n: nat, lotId: string)
    requires n <= |units|
    ensures CountOf(units[..n], lotId) <= CountOf(units, lotId)
  {
    assert units == units[..n] + units[n..];
    CountConcat(units[..n], units[n..], lotId);
  }

  // --- oversell ----------------------------------------------------------------

  /** Offset of the first oversold unit; the whole length when there is none. */
  function OversellFreeEnd(lots: seq<Lot>): nat {
    if lots == [] then 0
    else if lots[0].lotId == OVERSELL_LOT_ID then 0
    else lots[0].qty + OversellFreeEnd(lots[1..])
  }

  ghost predicate AllPositive(lots: seq<Lot>) {
    forall i :: 0 <= i < |lots| ==> lots[i].qty > 0
  }

  /** `OversellFreeEnd` marks the first oversold unit. */
  lemma {:induction false} OversellFreeEndMeaning(lots: seq<Lot>)
    requires AllPositive(lots)
    ensures OversellFreeEnd(lots) <= Total(lots)
    ensures forall i :: 0 <= i < OversellFreeEnd(lots) ==> Units(lots)[i].lotId != OVERSELL_LOT_ID
    ensures OversellFreeEnd(lots) < Total(lots) ==> Units(lots)[OversellFreeEnd(lots)].lotId == OVERSELL_LOT_ID
  {
    if lots != [] {
      OversellFreeEndMeaning(lots[1..]);
    }
  }

  predicate TouchesOversell(portions: seq<Portion>) {
    if portions == [] then false else portions[0].lotId == OVERSELL_LOT_ID || TouchesOversell(portions[1..])
  }

  ghost predicate HasLot(units: seq<Unit>, lotId: string) {
    exists i :: 0 <= i < |units| && units[i].lotId == lotId
  }

  lemma HasLotConcat(a: seq<Unit>, b: seq<Unit>, lotId: string)
    ensures HasLot(a + b, lotId) <==> HasLot(a, lotId) || HasLot(b, lotId)
  {
    if HasLot(a, lotId) {
      var i :| 0 <= i < |a| && a[i].lotId == lotId;
      assert (a + b)[i] == a[i];
    }
    if HasLot(b, lotId) {
      var i :| 0 <= i < |b| && b[i].lotId == lotId;
      assert (a + b)[|a| + i] == b[i];
    }
  }

  /** Some portion comes from the oversell lot exactly when some unit does. */
  lemma {:induction false} TouchesOversellByUnit(portions: seq<Portion>, index: nat)
    requires Numbered(portions, index)
    ensures TouchesOversell(portions) <==> HasLot(PortionUnits(portions), OVERSELL_LOT_ID)
  {
    if portions != [] {
      var head := Copies(Unit(portions[0].lotId, portions[0].cost), portions[0].qty);
      TouchesOversellByUnit(portions[1..], index + 1);
      HasLotConcat(head, PortionUnits(portions[1..]), OVERSELL_LOT_ID);
      assert head[0].lotId == portions[0].lotId;
    }
  }

  /** A return starting inside the oversell-free prefix is free of oversold units iff it ends inside it. */
  lemma OversellGuard(lots: seq<Lot>, previously: int, qty: int)
    requires AllPositive(lots)
    requires Restoration(lots, previously, qty).Some? && previously <= OversellFreeEnd(lots)
    ensures TouchesOversell(Restoration(lots, previously, qty).value) <==> previously + qty > OversellFreeEnd(lots)
  {
    var portions, end := Restoration(lots, previously, qty).value, OversellFreeEnd(lots);
    RestorationIsSlice(lots, previously, qty);
    CutShape(lots, 0, previously, previously + qty, 0);
    TouchesOversellByUnit(portions, 0);
    OversellFreeEndMeaning(lots);
    if previously + qty > end {
      assert PortionUnits(portions)[end - previously] == Units(lots)[end];
    }
  }

  // --- the loops ---------------------------------------------------------------

  lemma {:induction false} UnitsSnoc(lots: seq<Lot>, i: nat)
    requires i < |lots|
    ensures Total(lots[..i + 1]) == Total(lots[..i]) + lots[i].qty
  {
    if i > 0 {
      UnitsSnoc(lots[1..], i - 1);
      assert lots[..i + 1][1..] == lots[1..][..i] && lots[..i][1..] == lots[1..][..i - 1];
    } else {
      assert lots[..1][1..] == [];
    }
  }

  method PlanLotRestoration(lots: seq<Lot>, previously: int, qty: int) returns (r: Option<seq<Portion>>)
    ensures r == Restoration(lots, previously, qty)
  {
    var total: nat := 0;
    for i := 0 to |lots|
      invariant total == Total(lots[..i])
    {
      UnitsSnoc(lots, i);
      total := total + lots[i].qty;
    }
    assert lots[..|lots|] == lots;
    if previously < 0 || qty <= 0 {
      return None;
    }
    if previously + qty > total {
      return None;
    }
    var start, end := previously, previously + qty;
    var portions: seq<Portion> := [];
    var cursor := 0;
    for i := 0 to |lots|
      invariant cursor >= 0
      invariant portions + Cut(lots[i..], cursor, start, end, |portions|) == Cut(lots, 0, start, end, 0)
    {
      var lot := lots[i];
      var lotStart, lotEnd := cursor, cursor + lot.qty;
      assert lots[i..][1..] == lots[i + 1..];
      cursor := lotEnd;
      var take := Min(end, lotEnd) - Max(start, lotStart);
      if take > 0 {
        ghost var rest := Cut(lots[i + 1..], cursor, start, end, |portions| + 1);
        var portion := Portion(|portions|, lot.lotId, take, lot.cost);
        assert portions + ([portion] + rest) == (portions + [portion]) + rest;
        portions := portions + [portion];
      }
    }
    assert portions + [] == portions;
    return Some(portions);
  }

  method OversellFreeBaseEnd(lots: seq<Lot>) returns (end: nat)
    ensures end == OversellFreeEnd(lots)
  {
    end := 0;
    for i := 0 to |lots|
      invariant end + OversellFreeEnd(lots[i..]) == OversellFreeEnd(lots)
    {
      if lots[i].lotId == OVERSELL_LOT_ID {
        return;
      }
      assert lots[i..][1..] == lots[i + 1..];
      end := end + lots[i].qty;
    }
  }
}
