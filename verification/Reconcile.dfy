/**
  The settlement transaction with its stock effects (`reconcileSale`): the guards of `SettleOnce`
  around the writes of `Settlement`.
 */
module Reconcile {
  import opened Lots
  import opened Fifo
  import opened SharedLots
  import opened Settlement
  import opened SettleOnce

  /** Whether the guards let the sale through. */
  predicate Proceeds(o: Order, sourceValid: bool) {
    o.status == Pending && !o.canonical && sourceValid
  }

  /** Stock is written in the same step that settles the order, and in no other. */
  method ReconcileSale(order: OrderDocs, sourceValid: bool, loaded: Loaded, ghost all: set<MutableLot>,
                       ghost stock: Stock, items: seq<Item>, costs: Costs, lots: LotCollection, counters: Counters)
    returns (thrown: bool, refs: seq<seq<Lot>>)
    requires Unshared(loaded, all) && HoldsAll(loaded, all, stock) && SeparateLots(stock)
    requires LoadedFrom(stock, lots.docs) && (sourceValid ==> ValidItems(items))
    modifies order, all, lots, counters
    ensures thrown <==> old(order.status) == Pending && !Proceeds(old(order.View()), sourceValid)
    ensures order.View() == Attempt(old(order.View()), sourceValid, Committed).(failing := old(order.failing))
    ensures order.effects == old(order.effects) + if Proceeds(old(order.View()), sourceValid) then 1 else 0
    ensures Proceeds(old(order.View()), sourceValid) ==>
              && DocsFollow(stock, StockAfter(stock, items), old(lots.docs), lots.docs)
              && (forall p :: Get(counters.onHand, p) == Get(old(counters.onHand), p) - Demand(items, p))
              && |refs| == |items| && RefsRecorded(stock, items, costs, refs)
    ensures !Proceeds(old(order.View()), sourceValid) ==>
              lots.docs == old(lots.docs) && counters.onHand == old(counters.onHand) && HoldsAll(loaded, all, stock)
  {
    refs := [];
    var settles := order.status == Pending && !order.canonical && sourceValid;
    thrown := order.SettleTransaction(sourceValid);
    if settles {
      var hadOversell;
      refs, hadOversell := SettleSale(loaded, all, stock, items, costs, lots, counters);
    }
  }
}
