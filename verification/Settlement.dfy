/**
  Settling one sale against FIFO stock (`reconcileSale`, planning and writes). Several lines may draw
  on the same lots; stock that is not there is oversold, never refused.
 */
module Settlement {
  import opened Arithmetic
  import opened Lots
  import opened Fifo
  import opened SharedLots

  /** Fallback costs of a product, for stock no lot covers. */
  datatype ProductCost = ProductCost(manual: real, avg: real)

  type Costs = map<string, ProductCost>

  /** What the source asks of a line's base quantity. */
  ghost predicate ValidItems(items: seq<Item>) {
    forall i :: 0 <= i < |items| ==> 0 < items[i].qty
  }

  function CostOf(costs: Costs, pid: string): ProductCost {
    if pid in costs then costs[pid] else ProductCost(0.0, 0.0)
  }

  /** Newest lot with a cost, else the product's own costs. */
  function OversellCost(lots: seq<LotView>, product: ProductCost): real {
    if lots == [] then
      if product.manual > 0.0 then product.manual else if product.avg > 0.0 then product.avg else 0.0
    else if lots[|lots| - 1].cost > 0.0 then lots[|lots| - 1].cost
    else OversellCost(lots[..|lots| - 1], product)
  }

  /** The newest lot with a cost; without any, the product's manual cost, else its average, else nothing. */
  ghost predicate FallbackCost(lots: seq<LotView>, product: ProductCost, cost: real) {
    if forall i :: 0 <= i < |lots| ==> lots[i].cost <= 0.0 then
      && (product.manual > 0.0 ==> cost == product.manual)
      && (product.manual <= 0.0 && product.avg > 0.0 ==> cost == product.avg)
      && (product.manual <= 0.0 && product.avg <= 0.0 ==> cost == 0.0)
    else
      exists i :: 0 <= i < |lots| && lots[i].cost > 0.0 && cost == lots[i].cost &&
                  forall j :: i < j < |lots| ==> lots[j].cost <= 0.0
  }

  lemma {:induction false} OversellCostMeaning(lots: seq<LotView>, product: ProductCost)
    ensures FallbackCost(lots, product, OversellCost(lots, product))
  {
    if lots != [] {
      var n := |lots| - 1;
      var front, cost := lots[..n], OversellCost(lots, product);
      OversellCostMeaning(front, product);
      assert forall i :: 0 <= i < n ==> lots[i] == front[i];
      if lots[n].cost > 0.0 {
        assert cost == lots[n].cost;
      } else if i :| 0 <= i < n && front[i].cost > 0.0 {
        var k :| 0 <= k < n && front[k].cost > 0.0 && cost == front[k].cost &&
                 forall j :: k < j < n ==> front[j].cost <= 0.0;
        assert lots[k].cost > 0.0 && cost == lots[k].cost;
        assert lots[i].cost > 0.0;
      }
    }
  }

  /** Cutting leaves costs alone, so the fallback is decided by the lots as they were loaded. */
  lemma FallbackOfCut(lots: seq<LotView>, qty: int, product: ProductCost, cost: real)
    requires FallbackCost(After(lots, qty), product, cost)
    ensures FallbackCost(lots, product, cost)
  {
    var now := After(lots, qty);
    forall i | 0 <= i < |lots| ensures now[i].cost == lots[i].cost {
      AfterBounds(lots, qty, i);
    }
    if !forall i :: 0 <= i < |lots| ==> lots[i].cost <= 0.0 {
      var i :| 0 <= i < |now| && now[i].cost > 0.0 && cost == now[i].cost &&
               forall j :: i < j < |now| ==> now[j].cost <= 0.0;
      assert lots[i].cost > 0.0 && cost == lots[i].cost;
    }
  }

  method ResolveOversellCost(lots: seq<MutableLot>, ghost views: seq<LotView>, product: ProductCost)
    returns (cost: real)
    requires Holds(lots, views)
    ensures cost == OversellCost(views, product)
  {
    var i := |lots|;
    assert views[..i] == views;
    while i > 0
      invariant 0 <= i <= |lots|
      invariant OversellCost(views[..i], product) == OversellCost(views, product)
    {
      assert views[..i][..i - 1] == views[..i - 1];
      if lots[i - 1].cost > 0.0 {
        return lots[i - 1].cost;
      }
      i := i - 1;
    }
    cost := if product.manual > 0.0 then product.manual else if product.avg > 0.0 then product.avg else 0.0;
  }

  /** The lot references recorded for one line. */
  function LineRefs(lots: seq<LotView>, qty: int, oversellCost: real): seq<Lot> {
    Cuts(lots, qty) + if Left(lots, qty) > 0 then [Lot(OVERSELL_LOT_ID, Left(lots, qty), oversellCost)] else []
  }

  /** What settlement records for the `i`-th line. */
  function RefsOf(stock: Stock, items: seq<Item>, costs: Costs, i: nat): seq<Lot>
    requires i < |items|
  {
    var lots := LotsFor(stock, items, i);
    LineRefs(lots, items[i].qty, OversellCost(After(lots, items[i].qty), CostOf(costs, items[i].productId)))
  }

  /** The references recorded for a line are positive and add up to its base quantity, so evidence parses. */
  lemma LineRefsComplete(lots: seq<LotView>, qty: int, oversellCost: real)
    requires 0 < qty
    ensures Total(LineRefs(lots, qty, oversellCost)) == qty
    ensures AllPositive(LineRefs(lots, qty, oversellCost))
    ensures LineRefs(lots, qty, oversellCost) != []
  {
    var rest := LineRefs(lots, qty, oversellCost)[|Cuts(lots, qty)|..];
    CutsAndLeft(lots, qty);
    CutsPositive(lots, qty);
    UnitsConcat(Cuts(lots, qty), rest);
    if Left(lots, qty) > 0 {
      assert rest == [Lot(OVERSELL_LOT_ID, Left(lots, qty), oversellCost)] && rest[1..] == [];
      assert Units(rest) == Copies(Unit(OVERSELL_LOT_ID, oversellCost), Left(lots, qty)) + Units([]);
    }
  }

  ghost predicate NoOversellId(stock: Stock) {
    forall p, i :: p in stock && 0 <= i < |stock[p]| ==> stock[p][i].id != OVERSELL_LOT_ID
  }

  lemma {:induction false} CutIds(lots: seq<LotView>, qty: int, c: nat)
    requires c < |Cuts(lots, qty)|
    ensures exists i :: 0 <= i < |lots| && lots[i].id == Cuts(lots, qty)[c].lotId
    decreases |lots|
  {
    var cut := Take(lots[0], qty);
    var head := CutOf(lots[0], cut);
    if c >= |head| {
      CutIds(lots[1..], qty - cut, c - |head|);
      var i :| 0 <= i < |lots[1..]| && lots[1..][i].id == Cuts(lots[1..], qty - cut)[c - |head|].lotId;
      assert lots[i + 1].id == Cuts(lots, qty)[c].lotId;
    } else {
      assert lots[0].id == head[c].lotId;
    }
  }

  /** Only the last reference can be oversold, and then it is for what the lots could not cover. */
  lemma OversoldIsLast(lots: seq<LotView>, qty: int, cost: real, j: nat)
    requires forall i :: 0 <= i < |lots| ==> lots[i].id != OVERSELL_LOT_ID
    requires j < |LineRefs(lots, qty, cost)| && LineRefs(lots, qty, cost)[j].lotId == OVERSELL_LOT_ID
    ensures j == |LineRefs(lots, qty, cost)| - 1 && LineRefs(lots, qty, cost)[j].cost == cost
    ensures LineRefs(lots, qty, cost)[j].qty == qty - Capacity(lots)
  {
    if j < |Cuts(lots, qty)| {
      CutIds(lots, qty, j);
    }
    LeftIsExcess(lots, qty);
  }

  /**
    Every oversold reference a settlement records is for what the product's lots could not cover any
    more, at the cost of the newest lot that has one, else the product's manual cost, else its average.
   */
  lemma OversoldAtFallback(stock: Stock, items: seq<Item>, costs: Costs, i: nat, j: nat)
    requires ValidItems(items) && NoOversellId(stock) && i < |items| && j < |RefsOf(stock, items, costs, i)|
    requires RefsOf(stock, items, costs, i)[j].lotId == OVERSELL_LOT_ID
    ensures var pid, ref := items[i].productId, RefsOf(stock, items, costs, i)[j];
            && FallbackCost(LotsOf(stock, pid), if pid in costs then costs[pid] else ProductCost(0.0, 0.0), ref.cost)
            && ref.qty == items[i].qty - Capacity(LotsOf(StockAfter(stock, items[..i]), pid))
  {
    var pid, qty, lots := items[i].productId, items[i].qty, LotsFor(stock, items, i);
    var cost := OversellCost(After(lots, qty), CostOf(costs, pid));
    IdsKept(stock, items[..i], pid);
    OversoldIsLast(lots, qty, cost, j);
    OversellCostMeaning(After(lots, qty), CostOf(costs, pid));
    FallbackOfCut(lots, qty, CostOf(costs, pid), cost);
    ItemsComposeToOneCut(stock, items[..i], pid);
    FallbackOfCut(LotsOf(stock, pid), Wanted(items[..i], pid), CostOf(costs, pid), cost);
  }

  // --- the settlement transaction ---------------------------------------------------------

  /** The plan for the first `n` lines. */
  datatype Plan = Plan(stockDeduct: map<string, int>, lotCuts: seq<Lot>, refs: seq<seq<Lot>>, hadOversell: bool)

  function Get(m: map<string, int>, key: string): int {
    if key in m then m[key] else 0
  }

  ghost predicate Planned(stock: Stock, items: seq<Item>, costs: Costs, n: nat, plan: Plan)
    requires n <= |items|
  {
    && Sums(plan.stockDeduct, items[..n])
    && plan.lotCuts == AllCuts(stock, items[..n])
    && |plan.refs| == n && RefsRecorded(stock, items, costs, plan.refs)
    && (plan.hadOversell <==> CutShort(stock, items, n))
  }

  ghost predicate Sums(sums: map<string, int>, items: seq<Item>) {
    forall p :: Get(sums, p) == Demand(items, p)
  }

  lemma SumsSnoc(sums: map<string, int>, items: seq<Item>, n: nat)
    requires n < |items| && Sums(sums, items[..n])
    ensures Sums(sums[items[n].productId := Get(sums, items[n].productId) + items[n].qty], items[..n + 1])
  {
    assert items[..n + 1][..n] == items[..n];
    assert items[..n + 1][n] == items[n];
    var pid, qty := items[n].productId, items[n].qty;
    var next, more := sums[pid := Get(sums, pid) + qty], items[..n + 1];
    forall p ensures Get(next, p) == Demand(more, p) {
      assert Get(sums, p) == Demand(items[..n], p);
      assert Demand(items[..n + 1], p) == Demand(items[..n], p) + if pid == p then qty else 0;
    }
  }

  ghost predicate RefsRecorded(stock: Stock, items: seq<Item>, costs: Costs, refs: seq<seq<Lot>>)
    requires |refs| <= |items|
  {
    forall i :: 0 <= i < |refs| ==> refs[i] == RefsOf(stock, items, costs, i)
  }

  lemma RefsSnoc(stock: Stock, items: seq<Item>, costs: Costs, all: seq<seq<Lot>>, refs: seq<Lot>)
    requires |all| < |items| && RefsRecorded(stock, items, costs, all)
    requires refs == RefsOf(stock, items, costs, |all|)
    ensures RefsRecorded(stock, items, costs, all + [refs])
  {
    forall i | 0 <= i < |all| + 1 ensures (all + [refs])[i] == RefsOf(stock, items, costs, i) {
      if i < |all| {
        assert (all + [refs])[i] == all[i];
      }
    }
  }

  ghost predicate IsOversold(stock: Stock, items: seq<Item>, i: nat)
    requires i < |items|
  {
    Left(LotsFor(stock, items, i), items[i].qty) > 0
  }

  /** Some of the first `n` items found too little in the lots. */
  ghost predicate CutShort(stock: Stock, items: seq<Item>, n: nat)
    requires n <= |items|
  {
    exists i :: 0 <= i < n && IsOversold(stock, items, i)
  }

  lemma CutsSnoc(stock: Stock, items: seq<Item>, n: nat)
    requires n < |items|
    ensures StockAfter(stock, items[..n + 1]) == CutItem(StockAfter(stock, items[..n]), items[n])
    ensures AllCuts(stock, items[..n + 1]) == AllCuts(stock, items[..n]) + Cuts(LotsFor(stock, items, n), items[n].qty)
    ensures CutShort(stock, items, n + 1) <==>
            CutShort(stock, items, n) || Left(LotsFor(stock, items, n), items[n].qty) > 0
  {
    assert items[..n + 1][..n] == items[..n];
    assert LotsFor(stock, items[..n + 1], n) == LotsFor(stock, items, n);
    assert IsOversold(stock, items, n) <==> Left(LotsFor(stock, items, n), items[n].qty) > 0;
  }

  lemma PlannedStep(stock: Stock, items: seq<Item>, costs: Costs, n: nat, plan: Plan, cuts: seq<Lot>, refs: seq<Lot>)
    requires n < |items| && Planned(stock, items, costs, n, plan)
    requires cuts == Cuts(LotsFor(stock, items, n), items[n].qty) && refs == RefsOf(stock, items, costs, n)
    ensures Planned(stock, items, costs, n + 1,
                    Plan(plan.stockDeduct[items[n].productId :=
                                            Get(plan.stockDeduct, items[n].productId) + items[n].qty],
                         plan.lotCuts + cuts, plan.refs + [refs],
                         plan.hadOversell || Left(LotsFor(stock, items, n), items[n].qty) > 0))
  {
    CutsSnoc(stock, items, n);
    SumsSnoc(plan.stockDeduct, items, n);
    RefsSnoc(stock, items, costs, plan.refs, refs);
  }

  /** Plans the `n`-th line against what the lines before it left. */
  method PlanLine(loaded: Loaded, ghost all: set<MutableLot>, ghost stock: Stock, items: seq<Item>, costs: Costs,
                  n: nat)
    returns (cuts: seq<Lot>, refs: seq<Lot>, remaining: int)
    requires n < |items| && Unshared(loaded, all) && HoldsAll(loaded, all, StockAfter(stock, items[..n]))
    modifies all
    ensures HoldsAll(loaded, all, StockAfter(stock, items[..n + 1]))
    ensures cuts == Cuts(LotsFor(stock, items, n), items[n].qty)
    ensures refs == RefsOf(stock, items, costs, n)
    ensures remaining == Left(LotsFor(stock, items, n), items[n].qty)
  {
    ghost var now := StockAfter(stock, items[..n]);
    assert items[..n + 1][..n] == items[..n];
    cuts, remaining := PlanItem(loaded, all, now, items[n]);
    refs := cuts;
    if remaining > 0 {
      var lots := if items[n].productId in loaded then loaded[items[n].productId] else [];
      var pid := items[n].productId;
      var cost := ResolveOversellCost(lots, LotsOf(CutItem(now, items[n]), pid), CostOf(costs, pid));
      refs := refs + [Lot(OVERSELL_LOT_ID, remaining, cost)];
    }
  }

  method PlanSale(loaded: Loaded, ghost all: set<MutableLot>, ghost stock: Stock, items: seq<Item>, costs: Costs)
    returns (plan: Plan)
    requires Unshared(loaded, all) && HoldsAll(loaded, all, stock)
    modifies all
    ensures HoldsAll(loaded, all, StockAfter(stock, items))
    ensures Planned(stock, items, costs, |items|, plan)
  {
    plan := Plan(map[], [], [], false);
    for n := 0 to |items|
      invariant HoldsAll(loaded, all, StockAfter(stock, items[..n]))
      invariant Planned(stock, items, costs, n, plan)
    {
      var cuts, refs, remaining := PlanLine(loaded, all, stock, items, costs, n);
      PlannedStep(stock, items, costs, n, plan, cuts, refs);
      var pid := items[n].productId;
      plan := Plan(plan.stockDeduct[pid := Get(plan.stockDeduct, pid) + items[n].qty],
                   plan.lotCuts + cuts, plan.refs + [refs], plan.hadOversell || remaining > 0);
    }
    assert items[..|items|] == items;
  }

  /** On-hand counters of one branch; a counter that does not exist yet counts from zero. */
  class Counters {
    var onHand: map<string, int>

    constructor (onHand: map<string, int>)
      ensures this.onHand == onHand
    {
      this.onHand := onHand;
    }

    /** Takes every positive deduction off its counter; nothing checks that there is enough. */
    method Deduct(deductions: map<string, int>)
      modifies this
      ensures forall p :: Get(onHand, p) == Get(old(onHand), p) - Positive(Get(deductions, p))
    {
      var todo := deductions.Keys;
      while todo != {}
        invariant todo <= deductions.Keys
        invariant forall p :: Get(onHand, p) ==
                              Get(old(onHand), p) - if p in todo then 0 else Positive(Get(deductions, p))
        decreases |todo|
      {
        var pid :| pid in todo;
        todo := todo - {pid};
        if deductions[pid] > 0 {
          onHand := onHand[pid := Get(onHand, pid) - deductions[pid]];
        }
      }
    }
  }

  /** The whole stock effect of settling a sale. */
  method SettleSale(loaded: Loaded, ghost all: set<MutableLot>, ghost stock: Stock, items: seq<Item>, costs: Costs,
                    lots: LotCollection, counters: Counters)
    returns (refs: seq<seq<Lot>>, hadOversell: bool)
    requires Unshared(loaded, all) && HoldsAll(loaded, all, stock) && SeparateLots(stock)
    requires ValidItems(items) && LoadedFrom(stock, lots.docs)
    modifies all, lots, counters
    ensures DocsFollow(stock, StockAfter(stock, items), old(lots.docs), lots.docs)
    ensures forall p :: Get(counters.onHand, p) == Get(old(counters.onHand), p) - Demand(items, p)
    ensures |refs| == |items| && RefsRecorded(stock, items, costs, refs)
    ensures hadOversell <==> CutShort(stock, items, |items|)
  {
    var initial := RecordInitial(loaded, all, stock);
    var plan := PlanSale(loaded, all, stock, items, costs);
    assert items[..|items|] == items;
    WritePlan(lots, stock, items, plan.lotCuts, initial);
    counters.Deduct(plan.stockDeduct);
    forall p ensures Demand(items, p) == Positive(Demand(items, p)) {
      WantedIsDemand(items, p);
    }
    refs, hadOversell := plan.refs, plan.hadOversell;
  }

  /** Each product's counter loses exactly what its lots lost plus what was oversold. */
  lemma SaleConservesStock(stock: Stock, items: seq<Item>, pid: string)
    requires ValidItems(items)
    ensures Demand(items, pid) ==
            Capacity(LotsOf(stock, pid)) - Capacity(LotsOf(StockAfter(stock, items), pid)) + Short(stock, items, pid)
  {
    WantedIsDemand(items, pid);
    StockConserved(stock, items, pid);
  }
}
