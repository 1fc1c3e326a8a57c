/**
  Reversing a stock transfer (`resolveTransferReversal`): every destination cut is planned in memory,
  then the guards decide, then the cuts and counters are written.
 */
module TransferReversal {
  import opened Arithmetic
  import opened Wrappers
  import opened Lots
  import opened Fifo
  import opened SharedLots
  import opened Settlement

  datatype Conflict = StockConflict | LotConflict

  /** Every product of the transfer has its destination lots loaded. */
  ghost predicate Covers(stock: Stock, items: seq<Item>) {
    forall i :: 0 <= i < |items| ==> items[i].productId in stock
  }

  ghost predicate Transfers(items: seq<Item>, pid: string) {
    exists i :: 0 <= i < |items| && items[i].productId == pid
  }

  /** Some product's positive quantities exceed everything its active lots hold. */
  ghost predicate LotsExceeded(stock: Stock, items: seq<Item>) {
    exists p :: p in stock && Wanted(items, p) > Capacity(stock[p])
  }

  /** The counter guard compares the signed sum. */
  ghost predicate CountersExceeded(onHand: map<string, int>, items: seq<Item>) {
    exists p :: Transfers(items, p) && Get(onHand, p) < Demand(items, p)
  }

  lemma {:induction false} ShortItem(stock: Stock, items: seq<Item>, pid: string)
    ensures Short(stock, items, pid) > 0 <==>
            exists i :: 0 <= i < |items| && items[i].productId == pid && IsOversold(stock, items, i)
  {
    if items != [] {
      var n := |items| - 1;
      var front := items[..n];
      ShortItem(stock, front, pid);
      forall i | 0 <= i < n ensures IsOversold(stock, front, i) <==> IsOversold(stock, items, i) {
        assert front[..i] == items[..i];
      }
      assert forall i :: 0 <= i < n ==> front[i] == items[i];
    }
  }

  /** Cutting item by item falls short exactly when some product's total does. */
  lemma ShortfallIffExceeded(stock: Stock, items: seq<Item>)
    requires Covers(stock, items)
    ensures CutShort(stock, items, |items|) <==> LotsExceeded(stock, items)
  {
    if CutShort(stock, items, |items|) {
      var i :| 0 <= i < |items| && IsOversold(stock, items, i);
      ShortItem(stock, items, items[i].productId);
      ShortIffExceeds(stock, items, items[i].productId);
    }
    if LotsExceeded(stock, items) {
      var p :| p in stock && Wanted(items, p) > Capacity(stock[p]);
      ShortIffExceeds(stock, items, p);
      ShortItem(stock, items, p);
    }
  }

  /** With quantities of any sign, the sum alone does not tell: a negative item hides a shortfall from the counter. */
  lemma NegativeItemHidesShortfall()
    ensures var stock: Stock := map["P" := [LotView("L", 1.0, 5)]];
            var items := [Item("P", 8), Item("P", -4)];
            && Demand(items, "P") <= Capacity(stock["P"])
            && LotsExceeded(stock, items)
            && !CountersExceeded(map["P" := 5], items)
  {
    var stock: Stock := map["P" := [LotView("L", 1.0, 5)]];
    var items := [Item("P", 8), Item("P", -4)];
    var first := [Item("P", 8)];
    assert items[..|items| - 1] == first && first[..|first| - 1] == [];
    assert Demand([], "P") == 0 && Wanted([], "P") == 0;
    assert Demand(first, "P") == 8 && Wanted(first, "P") == 8;
    assert stock["P"][1..] == [] && Capacity(stock["P"]) == 5;
    assert "P" in stock && Wanted(items, "P") == 8;
    assert forall p :: Transfers(items, p) ==> p == "P";
  }

  /** With no negative quantity the summed transfer is what the lots must hold. */
  lemma ShortfallOfSums(stock: Stock, items: seq<Item>)
    requires Covers(stock, items) && AllWanted(items)
    ensures CutShort(stock, items, |items|) <==> exists p :: p in stock && Demand(items, p) > Capacity(stock[p])
  {
    ShortfallIffExceeded(stock, items);
    forall p ensures Wanted(items, p) == Demand(items, p) {
      WantedIsDemand(items, p);
    }
  }

  // --- the transaction -------------------------------------------------------------------

  method SumByProduct(items: seq<Item>) returns (sums: map<string, int>)
    ensures forall p :: p in sums <==> Transfers(items, p)
    ensures Sums(sums, items)
  {
    sums := map[];
    for i := 0 to |items|
      invariant forall p :: p in sums <==> Transfers(items[..i], p)
      invariant Sums(sums, items[..i])
    {
      var item := items[i];
      SumsSnoc(sums, items, i);
      TransfersSnoc(items, i);
      sums := sums[item.productId := Get(sums, item.productId) + item.qty];
    }
    assert items[..|items|] == items;
  }

  lemma TransfersSnoc(items: seq<Item>, n: nat)
    requires n < |items|
    ensures forall p :: Transfers(items[..n + 1], p) <==> Transfers(items[..n], p) || p == items[n].productId
  {
    forall p ensures Transfers(items[..n + 1], p) <==> Transfers(items[..n], p) || p == items[n].productId {
      if Transfers(items[..n], p) {
        var i :| 0 <= i < n && items[..n][i].productId == p;
        assert items[..n + 1][i].productId == p;
      }
      assert items[..n + 1][n] == items[n];
      if Transfers(items[..n + 1], p) && p != items[n].productId {
        var i :| 0 <= i < n + 1 && items[..n + 1][i].productId == p;
        assert items[..n][i].productId == p;
      }
    }
  }

  method PlanCuts(loaded: Loaded, ghost all: set<MutableLot>, ghost stock: Stock, items: seq<Item>)
    returns (cuts: seq<Lot>, lotShortfall: bool)
    requires Unshared(loaded, all) && HoldsAll(loaded, all, stock)
    modifies all
    ensures cuts == AllCuts(stock, items)
    ensures lotShortfall <==> CutShort(stock, items, |items|)
  {
    cuts, lotShortfall := [], false;
    for n := 0 to |items|
      invariant HoldsAll(loaded, all, StockAfter(stock, items[..n]))
      invariant cuts == AllCuts(stock, items[..n])
      invariant lotShortfall <==> CutShort(stock, items, n)
    {
      CutsSnoc(stock, items, n);
      var more, remaining := PlanItem(loaded, all, StockAfter(stock, items[..n]), items[n]);
      cuts := cuts + more;
      lotShortfall := lotShortfall || remaining > 0;
    }
    assert items[..|items|] == items;
  }

  method CheckCounters(onHand: map<string, int>, sums: map<string, int>) returns (short: bool)
    ensures short <==> exists p :: p in sums && Get(onHand, p) < sums[p]
  {
    var todo := sums.Keys;
    short := false;
    while todo != {}
      invariant todo <= sums.Keys
      invariant forall p :: p in sums && p !in todo ==> Get(onHand, p) >= sums[p]
      decreases |todo|
    {
      var pid :| pid in todo;
      if Get(onHand, pid) < sums[pid] {
        return true;
      }
      todo := todo - {pid};
    }
  }

  method DeductSums(counters: Counters, sums: map<string, int>)
    modifies counters
    ensures forall p :: Get(counters.onHand, p) == Get(old(counters.onHand), p) - Get(sums, p)
  {
    var todo := sums.Keys;
    while todo != {}
      invariant todo <= sums.Keys
      invariant forall p :: Get(counters.onHand, p) ==
                            Get(old(counters.onHand), p) - if p in todo then 0 else Get(sums, p)
      decreases |todo|
    {
      var pid :| pid in todo;
      todo := todo - {pid};
      counters.onHand := counters.onHand[pid := Get(counters.onHand, pid) - sums[pid]];
    }
  }

  /** Counters first, then lots. */
  method Guard(onHand: map<string, int>, sums: map<string, int>, lotShortfall: bool, ghost stock: Stock,
               ghost items: seq<Item>)
    returns (conflict: Option<Conflict>)
    requires Covers(stock, items) && (lotShortfall <==> CutShort(stock, items, |items|))
    requires (forall p :: p in sums <==> Transfers(items, p)) && Sums(sums, items)
    ensures conflict == Some(StockConflict) <==> CountersExceeded(onHand, items)
    ensures conflict == Some(LotConflict) <==> !CountersExceeded(onHand, items) && LotsExceeded(stock, items)
  {
    ShortfallIffExceeded(stock, items);
    var short := CheckCounters(onHand, sums);
    assert forall p :: p in sums ==> sums[p] == Get(sums, p);
    conflict := if short then Some(StockConflict) else if lotShortfall then Some(LotConflict) else None;
  }

  /**
    Refused exactly when counters or lots fall short, with nothing written; otherwise the destination gives
    all of it up.
   */
  method ReverseTransfer(loaded: Loaded, ghost all: set<MutableLot>, ghost stock: Stock, items: seq<Item>,
                         lots: LotCollection, counters: Counters)
    returns (conflict: Option<Conflict>)
    requires Unshared(loaded, all) && HoldsAll(loaded, all, stock) && SeparateLots(stock)
    requires Covers(stock, items) && LoadedFrom(stock, lots.docs)
    modifies all, lots, counters
    ensures conflict == Some(StockConflict) <==> CountersExceeded(old(counters.onHand), items)
    ensures conflict == Some(LotConflict) <==>
            !CountersExceeded(old(counters.onHand), items) && LotsExceeded(stock, items)
    ensures conflict.Some? ==> lots.docs == old(lots.docs) && counters.onHand == old(counters.onHand)
    ensures conflict.None? ==> DocsFollow(stock, StockAfter(stock, items), old(lots.docs), lots.docs)
    ensures conflict.None? ==> forall p :: Get(counters.onHand, p) == Get(old(counters.onHand), p) - Demand(items, p)
  {
    var sums := SumByProduct(items);
    var initial := RecordInitial(loaded, all, stock);
    var cuts, lotShortfall := PlanCuts(loaded, all, stock, items);
    conflict := Guard(counters.onHand, sums, lotShortfall, stock, items);
    if conflict.Some? {
      return;
    }
    WritePlan(lots, stock, items, cuts, initial);
    DeductSums(counters, sums);
  }

  /** An accepted reversal takes from each product's destination lots exactly its positive quantities. */
  lemma AcceptedTakesAll(stock: Stock, items: seq<Item>, pid: string)
    requires !LotsExceeded(stock, items) && pid in stock
    ensures Capacity(LotsOf(StockAfter(stock, items), pid)) == Capacity(stock[pid]) - Wanted(items, pid)
  {
    StockConserved(stock, items, pid);
    ShortIffExceeds(stock, items, pid);
  }
}
