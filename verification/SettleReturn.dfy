/**
  What settlement records is what a return restores: the lot references of a settled line parse as
  evidence, and returns bring back, lot by lot and at the same unit cost, what FIFO took.
 */
module SettleReturn {
  import opened Wrappers
  import opened Arithmetic
  import opened Lots
  import opened Fifo
  import opened SharedLots
  import opened Settlement
  import opened Sale
  import opened Returns
  import opened ReturnRuns
  import Evidence

  // --- recorded references are acceptable evidence ------------------------------------------

  /** Lot references as they are stored on the order. */
  function Stored(refs: seq<Lot>): (raw: seq<Evidence.RawLot>)
    ensures |raw| == |refs|
  {
    seq(|refs|, i requires 0 <= i < |refs| => Evidence.RawLot(refs[i].lotId, Some(refs[i].qty), Some(refs[i].cost)))
  }

  /** Document ids and costs as stock keeping stores them. */
  ghost predicate WellKept(lots: seq<LotView>) {
    forall i :: 0 <= i < |lots| ==> lots[i].id != "" && '/' !in lots[i].id && lots[i].cost >= 0.0
  }

  lemma {:induction false} CutsWellKept(lots: seq<LotView>, qty: int)
    requires WellKept(lots)
    ensures forall i :: 0 <= i < |Cuts(lots, qty)| ==>
              Cuts(lots, qty)[i].lotId != "" && '/' !in Cuts(lots, qty)[i].lotId && Cuts(lots, qty)[i].cost >= 0.0
    decreases |lots|
  {
    if lots != [] && qty > 0 {
      CutsWellKept(lots[1..], qty - Take(lots[0], qty));
    }
  }

  lemma {:induction false} OversellCostNonNegative(lots: seq<LotView>, product: ProductCost)
    ensures OversellCost(lots, product) >= 0.0
  {
    if lots != [] {
      OversellCostNonNegative(lots[..|lots| - 1], product);
    }
  }

  /** A settled line passes every lot check of the evidence parser, and parses back to the references recorded. */
  lemma RecordedRefsParse(lots: seq<LotView>, qty: int, product: ProductCost, parsed: seq<Lot>)
    requires 0 < qty && WellKept(lots)
    ensures var refs := LineRefs(lots, qty, OversellCost(Fifo.After(lots, qty), product));
            && refs != []
            && (forall i :: 0 <= i < |refs| ==> Evidence.LotAcceptable(Stored(refs)[i]))
            && (Evidence.LotsFrom(Stored(refs), parsed) <==> parsed == refs)
            && Total(refs) == qty
  {
    var cost := OversellCost(Fifo.After(lots, qty), product);
    var refs := LineRefs(lots, qty, cost);
    LineRefsComplete(lots, qty, cost);
    CutsWellKept(lots, qty);
    OversellCostNonNegative(Fifo.After(lots, qty), product);
    forall i | 0 <= i < |refs| ensures Evidence.LotAcceptable(Stored(refs)[i]) {
      assert refs[i].qty > 0;
      if i < |Cuts(lots, qty)| {
        assert refs[i] == Cuts(lots, qty)[i];
      }
    }
  }

  /** With its recorded references the lot checks never stand in a line's way. */
  lemma RecordedLineAcceptable(raw: Evidence.RawLine, lots: seq<LotView>, qty: int, product: ProductCost)
    requires 0 < qty && WellKept(lots) && raw.qtyBase == Some(qty)
    requires raw.lotRefs == Some(Stored(LineRefs(lots, qty, OversellCost(Fifo.After(lots, qty), product))))
    ensures Evidence.LineAcceptable(raw) <==>
            && raw.productId != "" && raw.unitFactor.Some? && raw.unitFactor.value.Positive()
            && Evidence.AtLeast(raw.qty, 1) && ExactBase(raw.qty.value, raw.unitFactor.value) == raw.qtyBase
            && raw.unitPrice.Some? && raw.lineDiscount.Some? && Evidence.AtLeast(raw.lineTotal, 0)
  {
    var refs := LineRefs(lots, qty, OversellCost(Fifo.After(lots, qty), product));
    forall parsed ensures Evidence.LotsFrom(Stored(refs), parsed) <==> parsed == refs {
      RecordedRefsParse(lots, qty, product, parsed);
    }
    RecordedRefsParse(lots, qty, product, refs);
  }

  /** The order document carries what settlement recorded for each line. */
  ghost predicate StoresRefs(raw: Evidence.RawOrder, stock: Stock, items: seq<Item>, costs: Costs) {
    && raw.lines.Some? && |raw.lines.value| == |items|
    && (forall k :: 0 <= k < |items| ==> raw.lines.value[k].lotRefs == Some(Stored(RefsOf(stock, items, costs, k))))
  }

  lemma StoredParsesBack(refs: seq<Lot>, parsed: seq<Lot>)
    requires Evidence.LotsFrom(Stored(refs), parsed)
    ensures parsed == refs
  {
    forall i | 0 <= i < |refs| ensures parsed[i] == refs[i] {
      assert Evidence.LotAcceptable(Stored(refs)[i]) && parsed[i] == Evidence.LotOf(Stored(refs)[i]);
    }
  }

  /** Settling, storing and parsing: evidence accepted from a settled order carries the settlement's own references. */
  method ParseSettledOrder(raw: Evidence.RawOrder, ghost stock: Stock, ghost items: seq<Item>, ghost costs: Costs)
    returns (r: Result<SaleEvidence, Evidence.Reason>)
    requires StoresRefs(raw, stock, items, costs)
    ensures r.Ok? <==> Evidence.Acceptable(raw)
    ensures r.Ok? ==> ValidSale(r.value) && Records(r.value, stock, items, costs)
  {
    r := Evidence.ParseSaleEvidence(raw);
    if r.Ok? {
      forall k | 0 <= k < |items| ensures r.value.lines[k].lots == RefsOf(stock, items, costs, k) {
        assert Evidence.LineFrom(raw.lines.value[k], k, r.value.lines[k]);
        StoredParsesBack(RefsOf(stock, items, costs, k), r.value.lines[k].lots);
      }
    }
  }

  // --- units and cuts ------------------------------------------------------------------------

  lemma {:induction false} CountCopies(u: Unit, n: nat, lotId: string)
    ensures CountOf(Copies(u, n), lotId) == if u.lotId == lotId then n else 0
  {
    if n > 0 {
      assert Copies(u, n)[1..] == Copies(u, n - 1);
      CountCopies(u, n - 1, lotId);
    }
  }

  /** Counting units of a lot is adding up its quantities. */
  lemma {:induction false} CountIsCutTotal(lots: seq<Lot>, lotId: string)
    ensures CountOf(Units(lots), lotId) == CutTotal(lots, lotId)
  {
    if lots != [] {
      var n := |lots| - 1;
      var last := lots[n];
      CountIsCutTotal(lots[..n], lotId);
      assert lots == lots[..n] + [last] && [last][1..] == [];
      UnitsConcat(lots[..n], [last]);
      assert Units([last]) == Copies(Unit(last.lotId, last.cost), last.qty) + Units([]);
      CountConcat(Units(lots[..n]), Units([last]), lotId);
      CountCopies(Unit(last.lotId, last.cost), last.qty, lotId);
      assert Units([last]) == Copies(Unit(last.lotId, last.cost), last.qty);
    }
  }

  lemma LineRefsTotal(lots: seq<LotView>, qty: int, cost: real, lotId: string)
    requires lotId != OVERSELL_LOT_ID
    ensures CountOf(Units(LineRefs(lots, qty, cost)), lotId) == CutTotal(Cuts(lots, qty), lotId)
  {
    var rest := LineRefs(lots, qty, cost)[|Cuts(lots, qty)|..];
    CountIsCutTotal(LineRefs(lots, qty, cost), lotId);
    assert LineRefs(lots, qty, cost) == Cuts(lots, qty) + rest;
    CutTotalConcat(Cuts(lots, qty), rest, lotId);
    if rest != [] {
      assert rest[..|rest| - 1] == [];
      assert rest[0].lotId == OVERSELL_LOT_ID;
    }
  }

  // --- returning a settled sale ------------------------------------------------------------------

  /** The sale's lines carry the references settlement recorded for them. */
  ghost predicate Records(sale: SaleEvidence, stock: Stock, items: seq<Item>, costs: Costs) {
    && |sale.lines| == |items|
    && (forall k :: 0 <= k < |items| ==> sale.lines[k].lots == RefsOf(stock, items, costs, k))
  }

  /** Units of one lot that a run has restored over the first `n` lines. */
  function RestoredFromLot(sale: SaleEvidence, run: seq<Attempt>, lotId: string, n: nat): nat
    requires FactorsPositive(sale)
  {
    if n == 0 then 0 else RestoredFromLot(sale, run, lotId, n - 1) + CountOf(Restored(sale, run, n - 1), lotId)
  }

  /** Line by line: whatever the run, no more comes back than the line took, and all of it once it is fully returned. */
  lemma LineRestoresItsCuts(sale: SaleEvidence, run: seq<Attempt>, stock: Stock, items: seq<Item>, costs: Costs,
                            k: nat, lotId: string)
    requires ValidSale(sale) && ValidRun(run) && Records(sale, stock, items, costs)
    requires k < |items| && lotId != OVERSELL_LOT_ID
    ensures CountOf(Restored(sale, run, k), lotId) <= CutTotal(Cuts(LotsFor(stock, items, k), items[k].qty), lotId)
    ensures EntryAfter(sale, run, k).returnedQtyBase == Total(sale.lines[k].lots) ==>
              CountOf(Restored(sale, run, k), lotId) == CutTotal(Cuts(LotsFor(stock, items, k), items[k].qty), lotId)
  {
    ValidIsReturnable(sale);
    var lots := LotsFor(stock, items, k);
    LotNeverOverRestored(sale, run, k, lotId);
    RestoredIsPrefix(sale, run, k);
    var cost := OversellCost(Fifo.After(lots, items[k].qty), CostOf(costs, items[k].productId));
    LineRefsTotal(lots, items[k].qty, cost, lotId);
    assert sale.lines[k].lots == RefsOf(stock, items, costs, k);
    if EntryAfter(sale, run, k).returnedQtyBase == Total(sale.lines[k].lots) {
      assert Restored(sale, run, k) == Units(sale.lines[k].lots);
    }
  }

  /** `taken` bounds what came back of a lot, and is reached by a full return. */
  ghost predicate Bounds(sale: SaleEvidence, run: seq<Attempt>, restored: nat, taken: nat)
    requires FactorsPositive(sale)
  {
    restored <= taken && (FullyReturned(sale, Replay(sale, run)) ==> restored == taken)
  }

  lemma BoundsAdd(sale: SaleEvidence, run: seq<Attempt>, a: nat, b: nat, c: nat, d: nat)
    requires FactorsPositive(sale) && Bounds(sale, run, a, b) && Bounds(sale, run, c, d)
    ensures Bounds(sale, run, a + c, b + d)
  {
  }

  lemma LineBounds(sale: SaleEvidence, run: seq<Attempt>, stock: Stock, items: seq<Item>, costs: Costs, k: nat,
                   lotId: string)
    requires ValidSale(sale) && ValidRun(run) && Records(sale, stock, items, costs)
    requires FactorsPositive(sale) && k < |items| && lotId != OVERSELL_LOT_ID
    ensures Bounds(sale, run, CountOf(Restored(sale, run, k), lotId),
                   CutTotal(Cuts(LotsFor(stock, items, k), items[k].qty), lotId))
  {
    LineRestoresItsCuts(sale, run, stock, items, costs, k, lotId);
    FullyReturnedEntry(sale, run, k);
  }

  lemma {:induction false} LotRestoredUpTo(sale: SaleEvidence, run: seq<Attempt>, stock: Stock, items: seq<Item>,
                                           costs: Costs, n: nat, lotId: string)
    requires ValidSale(sale) && ValidRun(run) && Records(sale, stock, items, costs)
    requires n <= |items| && lotId != OVERSELL_LOT_ID && FactorsPositive(sale)
    ensures Bounds(sale, run, RestoredFromLot(sale, run, lotId, n), CutTotal(AllCuts(stock, items[..n]), lotId))
  {
    if n > 0 {
      var k := n - 1;
      LotRestoredUpTo(sale, run, stock, items, costs, k, lotId);
      LineBounds(sale, run, stock, items, costs, k, lotId);
      AllCutsTotalSnoc(stock, items, k, lotId);
      BoundsAdd(sale, run, RestoredFromLot(sale, run, lotId, k), CutTotal(AllCuts(stock, items[..k]), lotId),
                CountOf(Restored(sale, run, k), lotId), CutTotal(Cuts(LotsFor(stock, items, k), items[k].qty), lotId));
    } else {
      assert items[..0] == [];
    }
  }

  lemma FullyReturnedEntry(sale: SaleEvidence, run: seq<Attempt>, k: nat)
    requires ValidSale(sale) && ValidRun(run) && k < |sale.lines|
    ensures FactorsPositive(sale)
    ensures FullyReturned(sale, Replay(sale, run)) ==>
              EntryAfter(sale, run, k).returnedQtyBase == Total(sale.lines[k].lots)
  {
    ValidIsReturnable(sale);
    LotNeverOverRestored(sale, run, k, "");
    RestoredIsPrefix(sale, run, k);
  }

  lemma AllCutsTotalSnoc(stock: Stock, items: seq<Item>, n: nat, lotId: string)
    requires n < |items|
    ensures CutTotal(AllCuts(stock, items[..n + 1]), lotId)
            == CutTotal(AllCuts(stock, items[..n]), lotId)
               + CutTotal(Cuts(LotsFor(stock, items, n), items[n].qty), lotId)
  {
    assert items[..n + 1][..n] == items[..n];
    assert LotsFor(stock, items[..n + 1], n) == LotsFor(stock, items, n);
    CutTotalConcat(AllCuts(stock, items[..n]), Cuts(LotsFor(stock, items, n), items[n].qty), lotId);
  }

  /**
    Settle, then return in any number of parts: a lot never gets back more than the sale took from
    it, and once everything is returned it gets back exactly that.
   */
  lemma LotRoundTrip(sale: SaleEvidence, run: seq<Attempt>, stock: Stock, items: seq<Item>, costs: Costs, pid: string,
                     i: nat)
    requires ValidSale(sale) && ValidRun(run) && Records(sale, stock, items, costs)
    requires SeparateLots(stock) && pid in stock && i < |stock[pid]| && stock[pid][i].id != OVERSELL_LOT_ID
    ensures FactorsPositive(sale) && |LotsOf(StockAfter(stock, items), pid)| == |stock[pid]|
    ensures var taken := stock[pid][i].remaining - LotsOf(StockAfter(stock, items), pid)[i].remaining;
            && RestoredFromLot(sale, run, stock[pid][i].id, |items|) <= taken
            && (FullyReturned(sale, Replay(sale, run)) ==>
                RestoredFromLot(sale, run, stock[pid][i].id, |items|) == taken)
  {
    ValidIsReturnable(sale);
    assert items[..|items|] == items;
    LotRestoredUpTo(sale, run, stock, items, costs, |items|, stock[pid][i].id);
    MergedCutIsLoss(stock, items, pid, i);
  }

  // --- unit costs ------------------------------------------------------------------------------

  lemma {:induction false} CutsFromLots(lots: seq<LotView>, qty: int, c: nat)
    requires c < |Cuts(lots, qty)|
    ensures var cut := Cuts(lots, qty)[c];
            exists j :: 0 <= j < |lots| && cut.lotId == lots[j].id && cut.cost == lots[j].cost
    decreases |lots|
  {
    var cut := Take(lots[0], qty);
    var head := CutOf(lots[0], cut);
    if c >= |head| {
      CutsFromLots(lots[1..], qty - cut, c - |head|);
      var rest, found := lots[1..], Cuts(lots, qty)[c];
      var j :| 0 <= j < |rest| && found.lotId == rest[j].id && found.cost == rest[j].cost;
      assert lots[j + 1] == lots[1..][j];
    } else {
      assert Cuts(lots, qty)[c] == head[c];
    }
  }

  lemma {:induction false} UnitFromLot(lots: seq<Lot>, u: nat)
    requires u < |Units(lots)|
    ensures exists c :: 0 <= c < |lots| && Units(lots)[u] == Unit(lots[c].lotId, lots[c].cost)
  {
    var head := Copies(Unit(lots[0].lotId, lots[0].cost), lots[0].qty);
    if u >= |head| {
      UnitFromLot(lots[1..], u - |head|);
      var c :| 0 <= c < |lots[1..]| && Units(lots[1..])[u - |head|] == Unit(lots[1..][c].lotId, lots[1..][c].cost);
      assert lots[c + 1] == lots[1..][c];
    }
  }

  lemma RefsCosted(lots: seq<LotView>, qty: int, cost: real, u: nat, i: nat)
    requires DistinctIds(lots) && i < |lots| && lots[i].id != OVERSELL_LOT_ID
    requires u < |Units(LineRefs(lots, qty, cost))| && Units(LineRefs(lots, qty, cost))[u].lotId == lots[i].id
    ensures Units(LineRefs(lots, qty, cost))[u].cost == lots[i].cost
  {
    var refs := LineRefs(lots, qty, cost);
    UnitFromLot(refs, u);
    var c :| 0 <= c < |refs| && Units(refs)[u] == Unit(refs[c].lotId, refs[c].cost);
    if c < |Cuts(lots, qty)| {
      CutsFromLots(lots, qty, c);
      assert refs[c] == Cuts(lots, qty)[c];
    }
  }

  /** Every unit restored to a lot of the line's product comes back at the cost the lot had when it was sold. */
  lemma RestoredAtLotCost(sale: SaleEvidence, run: seq<Attempt>, stock: Stock, items: seq<Item>, costs: Costs,
                          k: nat, i: nat, u: nat)
    requires ValidSale(sale) && ValidRun(run) && Records(sale, stock, items, costs) && SeparateLots(stock)
    requires k < |items| && items[k].productId in stock && i < |stock[items[k].productId]|
    requires FactorsPositive(sale) && u < |Restored(sale, run, k)|
    requires Restored(sale, run, k)[u].lotId == stock[items[k].productId][i].id
    ensures Restored(sale, run, k)[u].cost == stock[items[k].productId][i].cost
  {
    ValidIsReturnable(sale);
    var pid := items[k].productId;
    var lots := LotsFor(stock, items, k);
    RestoredIsPrefix(sale, run, k);
    OversoldNeverRestored(sale, run, k);
    IdsKept(stock, items[..k], pid);
    ItemsComposeToOneCut(stock, items[..k], pid);
    AfterBounds(stock[pid], Wanted(items[..k], pid), i);
    assert DistinctIds(stock[pid]);
    assert DistinctIds(lots);
    var cost := OversellCost(Fifo.After(lots, items[k].qty), CostOf(costs, pid));
    assert sale.lines[k].lots == LineRefs(lots, items[k].qty, cost);
    assert Restored(sale, run, k)[u] == Units(sale.lines[k].lots)[u];
    RefsCosted(lots, items[k].qty, cost, u, i);
  }
}
