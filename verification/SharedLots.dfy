/**
  Several items of one document cutting the same FIFO lots, and the lot documents those cuts are
  written to. Sale settlement and transfer reversal both plan and write this way.
 */
module SharedLots {
  import opened Arithmetic
  import opened Lots
  import opened Fifo

  /** An item's quantity may have any sign; only a positive one cuts lots. */
  datatype Item = Item(productId: string, qty: int)

  /** The lots loaded for each product, oldest first. */
  type Stock = map<string, seq<LotView>>

  function LotsOf(stock: Stock, pid: string): seq<LotView> {
    if pid in stock then stock[pid] else []
  }

  /** Lot documents are distinct, also across products. */
  ghost predicate SeparateLots(stock: Stock) {
    && (forall p :: p in stock ==> DistinctIds(stock[p]))
    && (forall p, q, i, j :: p in stock && q in stock && p != q && 0 <= i < |stock[p]| && 0 <= j < |stock[q]|
          ==> stock[p][i].id != stock[q][j].id)
  }

  // --- the plan, as values ---------------------------------------------------------

  function CutItem(stock: Stock, item: Item): Stock {
    if item.productId in stock then stock[item.productId := After(stock[item.productId], item.qty)] else stock
  }

  /** The shared lots after the items have cut from them in order. */
  function StockAfter(stock: Stock, items: seq<Item>): Stock {
    if items == [] then stock else CutItem(StockAfter(stock, items[..|items| - 1]), items[|items| - 1])
  }

  /** The lots the `i`-th item finds. */
  function LotsFor(stock: Stock, items: seq<Item>, i: nat): seq<LotView>
    requires i < |items|
  {
    LotsOf(StockAfter(stock, items[..i]), items[i].productId)
  }

  function AllCuts(stock: Stock, items: seq<Item>): seq<Lot> {
    if items == [] then []
    else
      var n := |items| - 1;
      AllCuts(stock, items[..n]) + Cuts(LotsFor(stock, items, n), items[n].qty)
  }

  /** Signed sum of the quantities of a product. */
  function Demand(items: seq<Item>, pid: string): int {
    if items == [] then 0
    else Demand(items[..|items| - 1], pid) + if items[|items| - 1].productId == pid then items[|items| - 1].qty else 0
  }

  /** Sum of the positive quantities of a product. */
  function Wanted(items: seq<Item>, pid: string): nat {
    if items == [] then 0
    else
      Wanted(items[..|items| - 1], pid) +
      if items[|items| - 1].productId == pid then Positive(items[|items| - 1].qty) else 0
  }

  /** What the items of a product could not take from its lots. */
  function Short(stock: Stock, items: seq<Item>, pid: string): nat {
    if items == [] then 0
    else
      var n := |items| - 1;
      Short(stock, items[..n], pid) +
      if items[n].productId == pid then Positive(Left(LotsFor(stock, items, n), items[n].qty)) else 0
  }

  ghost predicate AllWanted(items: seq<Item>) {
    forall i :: 0 <= i < |items| ==> 0 <= items[i].qty
  }

  lemma {:induction false} WantedIsDemand(items: seq<Item>, pid: string)
    requires AllWanted(items)
    ensures Wanted(items, pid) == Demand(items, pid)
  {
    if items != [] {
      WantedIsDemand(items[..|items| - 1], pid);
      assert 0 <= items[|items| - 1].qty;
    }
  }

  ghost function DemandOf(item: Item, pid: string): int {
    if item.productId == pid then item.qty else 0
  }

  /** Spelled out over the items: the signed sum counts all of a product's, the wanted one those above zero. */
  lemma {:induction false} DemandIsSum(items: seq<Item>, pid: string)
    ensures Demand(items, pid) == Sum(seq(|items|, i requires 0 <= i < |items| => DemandOf(items[i], pid)))
    ensures Wanted(items, pid) == Sum(seq(|items|, i requires 0 <= i < |items| => Max(0, DemandOf(items[i], pid))))
  {
    if items != [] {
      var n := |items| - 1;
      var front := items[..n];
      DemandIsSum(front, pid);
      var all := seq(|items|, i requires 0 <= i < |items| => DemandOf(items[i], pid));
      var most := seq(n, i requires 0 <= i < n => DemandOf(front[i], pid));
      assert all[..n] == most && Sum(all) == Sum(most) + all[n];
      var wanted := seq(|items|, i requires 0 <= i < |items| => Max(0, DemandOf(items[i], pid)));
      var fewer := seq(n, i requires 0 <= i < n => Max(0, DemandOf(front[i], pid)));
      assert wanted[..n] == fewer && Sum(wanted) == Sum(fewer) + wanted[n];
    }
  }

  // --- what sharing the lots amounts to ------------------------------------------------

  lemma {:induction false} SameProducts(stock: Stock, items: seq<Item>)
    ensures StockAfter(stock, items).Keys == stock.Keys
  {
    if items != [] {
      SameProducts(stock, items[..|items| - 1]);
    }
  }

  lemma OneMoreCut(lots: seq<LotView>, before: nat, qty: int)
    ensures After(After(lots, before), qty) == After(lots, before + Positive(qty))
    ensures Positive(Left(lots, before)) + Positive(Left(After(lots, before), qty))
            == Positive(Left(lots, before + Positive(qty)))
  {
    if qty > 0 {
      RealCut(lots, before, qty);
    } else {
      NoCut(After(lots, before), qty);
    }
  }

  lemma RealCut(lots: seq<LotView>, before: nat, qty: nat)
    ensures After(After(lots, before), qty) == After(lots, before + qty)
    ensures Positive(Left(lots, before)) + Positive(Left(After(lots, before), qty))
            == Positive(Left(lots, before + qty))
  {
    CutsCompose(lots, before, qty);
    LeftComposes(lots, before, qty);
    CutsAndLeft(lots, before);
    CutsAndLeft(lots, before + qty);
    CutsAndLeft(After(lots, before), qty);
  }

  lemma NoCut(lots: seq<LotView>, qty: int)
    requires qty <= 0
    ensures After(lots, qty) == lots && Positive(Left(lots, qty)) == 0
  {
    CutsAndLeft(lots, qty);
  }

  lemma LastItem(stock: Stock, items: seq<Item>, pid: string)
    requires items != []
    ensures var front, item := items[..|items| - 1], items[|items| - 1];
            LotsOf(StockAfter(stock, items), pid)
            == if item.productId == pid then After(LotsOf(StockAfter(stock, front), pid), item.qty)
               else LotsOf(StockAfter(stock, front), pid)
  {
  }

  /** Items that share lots cut them exactly as one item for their sum would, and fall short by as much. */
  lemma {:induction false} ItemsComposeToOneCut(stock: Stock, items: seq<Item>, pid: string)
    ensures LotsOf(StockAfter(stock, items), pid) == After(LotsOf(stock, pid), Wanted(items, pid))
    ensures Short(stock, items, pid) == Positive(Left(LotsOf(stock, pid), Wanted(items, pid)))
  {
    if items != [] {
      var front := items[..|items| - 1];
      ItemsComposeToOneCut(stock, front, pid);
      LastItem(stock, items, pid);
      OneMoreCut(LotsOf(stock, pid), Wanted(front, pid), items[|items| - 1].qty);
    }
  }

  /** What a product's items wanted was either taken from its lots or is short. */
  lemma StockConserved(stock: Stock, items: seq<Item>, pid: string)
    ensures Wanted(items, pid) ==
            Capacity(LotsOf(stock, pid)) - Capacity(LotsOf(StockAfter(stock, items), pid)) + Short(stock, items, pid)
  {
    var lots, wanted := LotsOf(stock, pid), Wanted(items, pid);
    ItemsComposeToOneCut(stock, items, pid);
    CapacityAfter(lots, wanted);
    CutsAndLeft(lots, wanted);
  }

  /** Short exactly when the positive quantities exceed everything the lots hold. */
  lemma ShortIffExceeds(stock: Stock, items: seq<Item>, pid: string)
    ensures Short(stock, items, pid) > 0 <==> Wanted(items, pid) > Capacity(LotsOf(stock, pid))
  {
    ItemsComposeToOneCut(stock, items, pid);
    LeftIsExcess(LotsOf(stock, pid), Wanted(items, pid));
  }

  lemma IdsKept(stock: Stock, items: seq<Item>, pid: string)
    ensures var now := LotsOf(StockAfter(stock, items), pid);
            && |now| == |LotsOf(stock, pid)|
            && (forall j :: 0 <= j < |now| ==> now[j].id == LotsOf(stock, pid)[j].id)
  {
    ItemsComposeToOneCut(stock, items, pid);
    forall j | 0 <= j < |LotsOf(stock, pid)|
      ensures LotsOf(StockAfter(stock, items), pid)[j].id == LotsOf(stock, pid)[j].id
    {
      AfterBounds(LotsOf(stock, pid), Wanted(items, pid), j);
    }
  }

  lemma ItemCutIsLoss(stock: Stock, items: seq<Item>, pid: string, i: nat)
    requires items != [] && SeparateLots(stock) && pid in stock && i < |stock[pid]|
    ensures var n := |items| - 1;
            var before, now := LotsOf(StockAfter(stock, items[..n]), pid), LotsOf(StockAfter(stock, items), pid);
            && |before| == |now| == |stock[pid]|
            && CutTotal(Cuts(LotsFor(stock, items, n), items[n].qty), stock[pid][i].id)
               == before[i].remaining - now[i].remaining
  {
    var n := |items| - 1;
    var front, item := items[..n], items[n];
    IdsKept(stock, front, pid);
    IdsKept(stock, front, item.productId);
    LastItem(stock, items, pid);
    var lots := LotsFor(stock, items, n);
    if item.productId == pid {
      assert DistinctIds(stock[pid]);
      assert DistinctIds(lots);
      CutIsLoss(lots, item.qty, i);
    } else {
      NoCutElsewhere(lots, item.qty, stock[pid][i].id);
    }
  }

  /** The merged cut of a lot document over all items is its initial minus its final quantity. */
  lemma {:induction false} MergedCutIsLoss(stock: Stock, items: seq<Item>, pid: string, i: nat)
    requires SeparateLots(stock) && pid in stock && i < |stock[pid]|
    ensures |LotsOf(StockAfter(stock, items), pid)| == |stock[pid]|
    ensures CutTotal(AllCuts(stock, items), stock[pid][i].id)
            == stock[pid][i].remaining - LotsOf(StockAfter(stock, items), pid)[i].remaining
  {
    if items != [] {
      var n := |items| - 1;
      MergedCutIsLoss(stock, items[..n], pid, i);
      CutTotalConcat(AllCuts(stock, items[..n]), Cuts(LotsFor(stock, items, n), items[n].qty), stock[pid][i].id);
      ItemCutIsLoss(stock, items, pid, i);
    }
  }

  ghost predicate Loads(stock: Stock, id: string) {
    exists p, j :: p in stock && 0 <= j < |stock[p]| && stock[p][j].id == id
  }

  /** And they cut each document by as much. */
  lemma SameCutsPerDocument(stock: Stock, items: seq<Item>, pid: string, i: nat)
    requires SeparateLots(stock) && pid in stock && i < |stock[pid]|
    ensures CutTotal(AllCuts(stock, items), stock[pid][i].id)
            == CutTotal(Cuts(stock[pid], Wanted(items, pid)), stock[pid][i].id)
  {
    MergedCutIsLoss(stock, items, pid, i);
    ItemsComposeToOneCut(stock, items, pid);
    assert DistinctIds(stock[pid]);
    CutIsLoss(stock[pid], Wanted(items, pid), i);
  }

  /** A document that belongs to no loaded lot is never cut. */
  lemma {:induction false} NoStrayCut(stock: Stock, items: seq<Item>, id: string)
    requires !Loads(stock, id)
    ensures CutTotal(AllCuts(stock, items), id) == 0
  {
    if items != [] {
      var n := |items| - 1;
      NoStrayCut(stock, items[..n], id);
      IdsKept(stock, items[..n], items[n].productId);
      NoCutElsewhere(LotsFor(stock, items, n), items[n].qty, id);
      CutTotalConcat(AllCuts(stock, items[..n]), Cuts(LotsFor(stock, items, n), items[n].qty), id);
    }
  }

  /** Within a product, what all items together consumed is an oldest-first prefix with one partial lot at most. */
  lemma ConsumedPrefix(stock: Stock, items: seq<Item>, pid: string, i: nat, j: nat)
    requires pid in stock && Active(stock[pid]) && i < j < |stock[pid]|
    ensures var now := LotsOf(StockAfter(stock, items), pid);
            |now| == |stock[pid]| && 0 <= now[j].remaining <= stock[pid][j].remaining &&
            (now[j] != stock[pid][j] ==> now[i].remaining == 0)
  {
    ItemsComposeToOneCut(stock, items, pid);
    OldestFirst(stock[pid], Wanted(items, pid), i, j);
    AfterBounds(stock[pid], Wanted(items, pid), j);
  }

  // --- planning in place ---------------------------------------------------------------

  type Loaded = map<string, seq<MutableLot>>

  ghost predicate Apart(a: seq<MutableLot>, b: seq<MutableLot>) {
    forall l :: l in a ==> l !in b
  }

  ghost predicate Within(lots: seq<MutableLot>, all: set<MutableLot>) {
    forall l :: l in lots ==> l in all
  }

  /** The loaded lots are `all`, and no object is loaded twice. */
  ghost predicate Unshared(loaded: Loaded, all: set<MutableLot>) {
    && (forall p :: p in loaded ==> Distinct(loaded[p]) && Within(loaded[p], all))
    && (forall p, q :: p in loaded && q in loaded && p != q ==> Apart(loaded[p], loaded[q]))
  }

  ghost predicate Holds(lots: seq<MutableLot>, views: seq<LotView>)
    reads lots
  {
    && |lots| == |views|
    && (forall i :: 0 <= i < |lots| ==> LotView(lots[i].id, lots[i].cost, lots[i].qtyRemaining) == views[i])
  }

  lemma HoldsView(lots: seq<MutableLot>, views: seq<LotView>)
    ensures Holds(lots, views) <==> View(lots) == views
  {
  }

  ghost predicate HoldsAll(loaded: Loaded, all: set<MutableLot>, stock: Stock)
    requires Unshared(loaded, all)
    reads all
  {
    && loaded.Keys == stock.Keys
    && (forall p :: p in loaded ==> Holds(loaded[p], stock[p]))
  }

  /** Plans one item; the lots of every other product stay as they are. */
  method PlanItem(loaded: Loaded, ghost all: set<MutableLot>, ghost stock: Stock, item: Item)
    returns (cuts: seq<Lot>, remaining: int)
    requires Unshared(loaded, all) && HoldsAll(loaded, all, stock)
    modifies all
    ensures HoldsAll(loaded, all, CutItem(stock, item))
    ensures cuts == Cuts(LotsOf(stock, item.productId), item.qty)
    ensures remaining == Left(LotsOf(stock, item.productId), item.qty)
  {
    if item.productId !in loaded {
      return [], item.qty;
    }
    var lots := loaded[item.productId];
    HoldsView(lots, stock[item.productId]);
    cuts, remaining := PlanFifoCutFromState(lots, item.qty);
    HoldsView(lots, After(stock[item.productId], item.qty));
    forall p | p in loaded && p != item.productId ensures Holds(loaded[p], stock[p]) {
      var mine, views := loaded[p], stock[p];
      assert Apart(mine, lots) && old(Holds(mine, views));
      forall i | 0 <= i < |mine| ensures LotView(mine[i].id, mine[i].cost, mine[i].qtyRemaining) == views[i] {
        assert mine[i] in mine && mine[i] !in lots;
        assert mine[i].qtyRemaining == old(mine[i].qtyRemaining);
      }
    }
  }

  // --- writing the lot documents ---------------------------------------------------------

  datatype LotDoc = LotDoc(qtyRemaining: int, isDepleted: bool)

  /** The quantities that were loaded, by document. */
  ghost predicate InitialOf(stock: Stock, initial: map<string, int>) {
    && (forall id :: id in initial <==> Loads(stock, id))
    && (forall p, i :: p in stock && 0 <= i < |stock[p]| ==> initial[stock[p][i].id] == stock[p][i].remaining)
  }

  function Written(doc: LotDoc, initial: int, cut: nat): LotDoc {
    if cut > 0 then LotDoc(doc.qtyRemaining - cut, initial - cut <= 0) else doc
  }

  class LotCollection {
    var docs: map<string, LotDoc>

    constructor (docs: map<string, LotDoc>)
      ensures this.docs == docs
    {
      this.docs := docs;
    }

    /** One update per cut document. */
    method WriteCuts(cuts: seq<Lot>, initial: map<string, int>)
      requires forall id :: CutTotal(cuts, id) > 0 ==> id != "" && id in docs && id in initial
      modifies this
      ensures docs.Keys == old(docs.Keys)
      ensures forall id :: id in docs ==>
                docs[id] == Written(old(docs)[id], if id in initial then initial[id] else 0, CutTotal(cuts, id))
    {
      var merged := MergeLotCuts(cuts);
      var todo := merged.Keys;
      while todo != {}
        invariant todo <= merged.Keys
        invariant docs.Keys == old(docs.Keys)
        invariant forall id :: id in docs ==>
                    docs[id] == if id in merged && id !in todo then Written(old(docs)[id], initial[id], merged[id])
                                else old(docs)[id]
        decreases |todo|
      {
        var id :| id in todo;
        todo := todo - {id};
        docs := docs[id := LotDoc(docs[id].qtyRemaining - merged[id], initial[id] - merged[id] <= 0)];
      }
    }
  }

  /** The lots were loaded from the documents, with stock left and not marked depleted. */
  ghost predicate LoadedFrom(stock: Stock, docs: map<string, LotDoc>) {
    forall p, i :: p in stock && 0 <= i < |stock[p]| ==>
      && stock[p][i].id != "" && stock[p][i].id in docs && stock[p][i].remaining > 0
      && docs[stock[p][i].id] == LotDoc(stock[p][i].remaining, false)
  }

  /** The documents after all cuts: every loaded one holds what is left in its lot, the others are untouched. */
  ghost predicate DocsFollow(stock: Stock, after: Stock, docs: map<string, LotDoc>, docs': map<string, LotDoc>) {
    && docs'.Keys == docs.Keys
    && (forall id :: id in docs && !Loads(stock, id) ==> docs'[id] == docs[id])
    && (forall p, i :: p in stock && 0 <= i < |stock[p]| ==>
          DocFollows(LotsOf(after, p), i, stock[p][i].id, docs'))
  }

  ghost predicate DocFollows(lots: seq<LotView>, i: nat, id: string, docs: map<string, LotDoc>) {
    i < |lots| && id in docs && docs[id] == LotDoc(lots[i].remaining, lots[i].remaining == 0)
  }

  lemma WriteIsWhatIsLeft(stock: Stock, items: seq<Item>, pid: string, i: nat, doc: LotDoc)
    requires SeparateLots(stock) && pid in stock && i < |stock[pid]| && stock[pid][i].remaining > 0
    requires doc == LotDoc(stock[pid][i].remaining, false)
    ensures |LotsOf(StockAfter(stock, items), pid)| == |stock[pid]|
    ensures var left := LotsOf(StockAfter(stock, items), pid)[i].remaining;
            Written(doc, stock[pid][i].remaining, CutTotal(AllCuts(stock, items), stock[pid][i].id))
            == LotDoc(left, left == 0)
  {
    MergedCutIsLoss(stock, items, pid, i);
    ItemsComposeToOneCut(stock, items, pid);
    AfterBounds(stock[pid], Wanted(items, pid), i);
  }

  lemma CutIsLoaded(stock: Stock, items: seq<Item>, id: string)
    requires CutTotal(AllCuts(stock, items), id) > 0
    ensures Loads(stock, id)
  {
    if !Loads(stock, id) {
      NoStrayCut(stock, items, id);
    }
  }

  method WritePlan(coll: LotCollection, ghost stock: Stock, ghost items: seq<Item>, cuts: seq<Lot>,
                   initial: map<string, int>)
    requires SeparateLots(stock) && LoadedFrom(stock, coll.docs) && InitialOf(stock, initial)
    requires cuts == AllCuts(stock, items)
    modifies coll
    ensures DocsFollow(stock, StockAfter(stock, items), old(coll.docs), coll.docs)
  {
    forall id | CutTotal(cuts, id) > 0 ensures id != "" && id in coll.docs && id in initial {
      CutIsLoaded(stock, items, id);
    }
    coll.WriteCuts(cuts, initial);
    forall id | id in old(coll.docs) && !Loads(stock, id) ensures coll.docs[id] == old(coll.docs)[id] {
      NoStrayCut(stock, items, id);
    }
    forall p, i | p in stock && 0 <= i < |stock[p]|
      ensures DocFollows(LotsOf(StockAfter(stock, items), p), i, stock[p][i].id, coll.docs)
    {
      WriteIsWhatIsLeft(stock, items, p, i, old(coll.docs)[stock[p][i].id]);
    }
  }

  /** `initialLotQty`: what each loaded lot holds before planning. */
  method RecordInitial(loaded: Loaded, ghost all: set<MutableLot>, ghost stock: Stock)
    returns (initial: map<string, int>)
    requires Unshared(loaded, all) && HoldsAll(loaded, all, stock) && SeparateLots(stock)
    ensures InitialOf(stock, initial)
  {
    initial := map[];
    var todo := loaded.Keys;
    ghost var seen: Stock := map[];
    while todo != {}
      invariant todo <= loaded.Keys && seen.Keys == stock.Keys - todo && PartOf(seen, stock)
      invariant InitialOf(seen, initial)
      decreases |todo|
    {
      var pid :| pid in todo;
      assert Holds(loaded[pid], stock[pid]);
      initial := RecordProduct(stock, seen, pid, loaded[pid], initial);
      todo := todo - {pid};
      seen := seen[pid := stock[pid]];
    }
    assert seen == stock;
  }

  method RecordProduct(ghost stock: Stock, ghost seen: Stock, ghost pid: string, lots: seq<MutableLot>,
                       before: map<string, int>)
    returns (initial: map<string, int>)
    requires SeparateLots(stock) && PartOf(seen, stock) && pid in stock && pid !in seen
    requires Holds(lots, stock[pid]) && InitialOf(seen, before)
    ensures InitialOf(seen[pid := stock[pid]], initial)
  {
    SeparateWithin(seen[pid := stock[pid]], stock);
    initial := AddInitial(seen, pid, lots, stock[pid], before);
  }

  ghost predicate PartOf(part: Stock, stock: Stock) {
    forall p :: p in part ==> p in stock && part[p] == stock[p]
  }

  lemma SeparateWithin(part: Stock, stock: Stock)
    requires SeparateLots(stock) && PartOf(part, stock)
    ensures SeparateLots(part)
  {
  }

  lemma SameLoads(a: Stock, b: Stock)
    requires forall p :: p in a ==> p in b && b[p] == a[p]
    requires forall p :: p in b && p !in a ==> b[p] == []
    ensures forall id :: Loads(a, id) <==> Loads(b, id)
  {
    forall id ensures Loads(a, id) <==> Loads(b, id) {
      if Loads(a, id) {
        var p, j :| p in a && 0 <= j < |a[p]| && a[p][j].id == id;
        assert p in b && b[p][j].id == id;
      }
      if Loads(b, id) {
        var p, j :| p in b && 0 <= j < |b[p]| && b[p][j].id == id;
        assert p in a && a[p][j].id == id;
      }
    }
  }

  lemma InitialStep(seen: Stock, pid: string, views: seq<LotView>, k: nat, initial: map<string, int>)
    requires pid !in seen && SeparateLots(seen[pid := views]) && k < |views|
    requires InitialOf(seen[pid := views[..k]], initial)
    ensures InitialOf(seen[pid := views[..k + 1]], initial[views[k].id := views[k].remaining])
  {
    var fewer, more := seen[pid := views[..k]], seen[pid := views[..k + 1]];
    var all := seen[pid := views];
    assert all[pid] == views;
    forall id ensures Loads(more, id) <==> Loads(fewer, id) || id == views[k].id {
      if Loads(fewer, id) {
        var p, j :| p in fewer && 0 <= j < |fewer[p]| && fewer[p][j].id == id;
        assert more[p][j].id == id;
      }
      assert more[pid][k].id == views[k].id;
      if Loads(more, id) && id != views[k].id {
        var p, j :| p in more && 0 <= j < |more[p]| && more[p][j].id == id;
        assert fewer[p][j].id == id;
      }
    }
    forall p, i | p in more && 0 <= i < |more[p]|
      ensures more[p][i].id in initial[views[k].id := views[k].remaining]
      ensures initial[views[k].id := views[k].remaining][more[p][i].id] == more[p][i].remaining
    {
      if p != pid || i != k {
        assert fewer[p][i] == more[p][i] == all[p][i];
        assert Loads(fewer, fewer[p][i].id);
        assert all[p][i].id != all[pid][k].id by {
          if p == pid {
            assert DistinctIds(all[pid]);
          }
        }
      }
    }
  }

  method AddInitial(ghost seen: Stock, ghost pid: string, lots: seq<MutableLot>, ghost views: seq<LotView>,
                    before: map<string, int>)
    returns (initial: map<string, int>)
    requires Holds(lots, views) && pid !in seen && SeparateLots(seen[pid := views])
    requires InitialOf(seen, before)
    ensures InitialOf(seen[pid := views], initial)
  {
    initial := before;
    SameLoads(seen, seen[pid := views[..0]]);
    for k := 0 to |lots|
      invariant InitialOf(seen[pid := views[..k]], initial)
    {
      InitialStep(seen, pid, views, k, initial);
      initial := initial[lots[k].id := lots[k].qtyRemaining];
    }
    assert views[..|lots|] == views;
  }
}
