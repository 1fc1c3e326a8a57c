/**
  What every run of returns keeps: the ledger invariant, conservation of money per tender, and the
  exact stretch of sold units that has come back.
 */
module ReturnRuns {
  import opened Wrappers
  import opened Arithmetic
  import opened Sale
  import opened Returns
  import Refund
  import Lots

  /** One line's entry, or `UNTOUCHED`, between returns. */
  ghost predicate EntrySound(line: SaleLine, l: LedgerLine)
    requires LineValid(line)
  {
    && 0 <= l.returnedQty
    && EntryConsistent(line, l)
    && 0 <= l.returnedQtyBase <= Lots.OversellFreeEnd(line.lots)
  }

  ghost predicate LinesSound(sale: SaleEvidence, lines: map<int, LedgerLine>)
    requires LinesValid(sale)
  {
    forall k :: k in lines ==> 0 <= k < |sale.lines| && EntrySound(sale.lines[k], lines[k])
  }

  /** The inductive invariant; it holds of the empty ledger, which `Consistent` does not. */
  ghost predicate Sound(sale: SaleEvidence, ledger: Ledger)
    requires LinesValid(sale)
  {
    && LinesSound(sale, ledger.lines)
    && Tally(ledger.lines, |sale.lines|, RefundOf) == ledger.refundedTotal
    && ledger.refundedByMethod.Total() == ledger.refundedTotal
    && ledger.refundedByMethod.NonNegative() && ledger.refundedByMethod.Within(sale.netPaidByMethod)
    && 0 <= ledger.returnCount <= Tally(ledger.lines, |sale.lines|, QtyOf)
    && |ledger.acceptedReturnIds| == ledger.returnCount
  }

  // --- one line ----------------------------------------------------------------

  lemma UntouchedSound(line: SaleLine)
    requires LineValid(line)
    ensures EntrySound(line, UNTOUCHED)
  {
    ExactBaseMeaning(0, line.unitFactor, 0);
  }

  lemma EntryBase(line: SaleLine, l: LedgerLine)
    requires LineValid(line) && EntrySound(line, l)
    ensures ExactBase(l.returnedQty, line.unitFactor) == Some(l.returnedQtyBase)
  {
  }

  /** Exactly which quantities the planner's line checks accept. */
  ghost predicate LineAccepts(line: SaleLine, prior: LedgerLine, qty: int)
    requires LineValid(line)
  {
    && 0 < qty <= line.soldQty - prior.returnedQty
    && ExactBase(qty, line.unitFactor).Some?
    && prior.returnedQtyBase + ExactBase(qty, line.unitFactor).value <= Lots.OversellFreeEnd(line.lots)
  }

  /** An exact positive quantity that still fits keeps the base quantity strictly increasing and in range. */
  lemma AdvancedBase(line: SaleLine, prior: LedgerLine, qty: int)
    requires LineValid(line) && EntrySound(line, prior)
    requires 0 < qty <= line.soldQty - prior.returnedQty && ExactBase(qty, line.unitFactor).Some?
    ensures var base := ExactBase(qty, line.unitFactor).value;
            && 0 < base <= line.soldQtyBase - prior.returnedQtyBase
            && ExactBase(prior.returnedQty + qty, line.unitFactor) == Some(prior.returnedQtyBase + base)
            && (prior.returnedQty + qty == line.soldQty ==> base == line.soldQtyBase - prior.returnedQtyBase)
  {
    var f, next := line.unitFactor, prior.returnedQty + qty;
    EntryBase(line, prior);
    ExactBaseAdds(f, prior.returnedQty, qty, prior.returnedQtyBase);
    ExactBaseMeaning(0, f, 0);
    ExactBaseGrows(f, 0, qty);
    if next < line.soldQty {
      ExactBaseGrows(f, next, line.soldQty);
    }
  }

  /**
    The planner accepts a line exactly when `LineAccepts` says so; then the portions are exactly the
    next stretch of sold units.
   */
  lemma PlanLineAccepts(line: SaleLine, prior: LedgerLine, req: RequestLine)
    requires LineValid(line) && EntrySound(line, prior)
    ensures PlanLine(line, prior, req).Ok? <==> line.productId == req.productId && LineAccepts(line, prior, req.qty)
    ensures PlanLine(line, prior, req).Ok? ==>
              var p := PlanLine(line, prior, req).value;
              && p.returnQty == req.qty && p.lineIndex == line.lineIndex
              && ExactBase(req.qty, line.unitFactor) == Some(p.returnQtyBase)
              && prior.returnedQtyBase + p.returnQtyBase <= |Lots.Units(line.lots)|
              && Lots.PortionUnits(p.portions)
                 == Lots.Units(line.lots)[prior.returnedQtyBase..prior.returnedQtyBase + p.returnQtyBase]
  {
    if 0 < req.qty <= line.soldQty - prior.returnedQty && ExactBase(req.qty, line.unitFactor).Some? {
      AdvancedBase(line, prior, req.qty);
      var base := ExactBase(req.qty, line.unitFactor).value;
      Lots.RestorationIsSlice(line.lots, prior.returnedQtyBase, base);
      Lots.OversellGuard(line.lots, prior.returnedQtyBase, base);
      assert |Lots.PortionUnits(Lots.Restoration(line.lots, prior.returnedQtyBase, base).value)| == base;
    }
  }

  /** An accepted line leaves a sound entry; its refund is never negative. */
  lemma PlanLineSound(line: SaleLine, prior: LedgerLine, req: RequestLine)
    requires LineValid(line) && 0 <= line.refundableShare && EntrySound(line, prior)
    requires PlanLine(line, prior, req).Ok?
    ensures EntrySound(line, Advance(prior, PlanLine(line, prior, req).value))
    ensures 0 <= PlanLine(line, prior, req).value.refund
    ensures PlanLine(line, prior, req).value.returnQty >= 1
    ensures PlanLine(line, prior, req).value.lineIndex == line.lineIndex
  {
    PlanLineAccepts(line, prior, req);
    AdvancedBase(line, prior, req.qty);
    Refund.CumulativeMonotone(line.refundableShare, line.soldQty, prior.returnedQty, prior.returnedQty + req.qty);
  }

  // --- one request ---------------------------------------------------------------

  ghost predicate DistinctIndices(reqs: seq<RequestLine>) {
    forall i, j :: 0 <= i < j < |reqs| ==> reqs[i].lineIndex != reqs[j].lineIndex
  }

  ghost predicate Names(reqs: seq<RequestLine>, k: int) {
    exists i :: 0 <= i < |reqs| && reqs[i].lineIndex == k
  }

  /** Totals and entries after `planned` has been applied to `lines`. */
  ghost predicate Advanced(sale: SaleEvidence, lines: map<int, LedgerLine>, next: map<int, LedgerLine>, refund: int,
                           count: nat)
    requires LinesValid(sale)
  {
    && LinesSound(sale, next)
    && Tally(next, |sale.lines|, RefundOf) == Tally(lines, |sale.lines|, RefundOf) + refund
    && Tally(next, |sale.lines|, QtyOf) >= Tally(lines, |sale.lines|, QtyOf) + count
    && 0 <= refund
  }

  /** One entry advanced by an accepted line. */
  lemma AdvanceOne(sale: SaleEvidence, start: map<int, LedgerLine>, lines: map<int, LedgerLine>, req: RequestLine,
                   refund: int, count: nat)
    requires Returnable(sale) && Advanced(sale, start, lines, refund, count)
    requires 0 <= req.lineIndex < |sale.lines|
    requires PlanLine(sale.lines[req.lineIndex], Prior(lines, req.lineIndex), req).Ok?
    ensures var p := PlanLine(sale.lines[req.lineIndex], Prior(lines, req.lineIndex), req).value;
            && p.lineIndex == req.lineIndex
            && Advanced(sale, start, lines[p.lineIndex := Advance(Prior(lines, p.lineIndex), p)],
                        refund + p.refund, count + 1)
  {
    var k := req.lineIndex;
    var line, prior := sale.lines[k], Prior(lines, k);
    UntouchedSound(line);
    PlanLineSound(line, prior, req);
    var l := Advance(prior, PlanLine(line, prior, req).value);
    TallyUpdate(lines, |sale.lines|, RefundOf, k, l);
    TallyUpdate(lines, |sale.lines|, QtyOf, k, l);
  }

  /** Applying leaves every entry alone that the request does not name. */
  lemma {:induction false} ApplyFrame(sale: SaleEvidence, ledger: Ledger, reqs: seq<RequestLine>, k: int)
    requires LinesValid(sale) && PlanLines(sale, ledger, reqs).Ok? && !Names(reqs, k)
    ensures Prior(ApplyPlanned(ledger.lines, PlanLines(sale, ledger, reqs).value), k) == Prior(ledger.lines, k)
  {
    if reqs != [] {
      var n := |reqs| - 1;
      forall i | 0 <= i < n ensures reqs[..n][i].lineIndex != k {
        assert reqs[..n][i] == reqs[i];
      }
      ApplyFrame(sale, ledger, reqs[..n], k);
      PlannedSnoc(sale, ledger, reqs);
      assert reqs[n].lineIndex != k;
    }
  }

  lemma PlannedSnoc(sale: SaleEvidence, ledger: Ledger, reqs: seq<RequestLine>)
    requires LinesValid(sale) && PlanLines(sale, ledger, reqs).Ok? && reqs != []
    ensures var n := |reqs| - 1;
            var planned := PlanLines(sale, ledger, reqs).value;
            && PlanLines(sale, ledger, reqs[..n]) == Ok(planned[..n])
            && PlanRequestLine(sale, ledger, reqs[n]) == Ok(planned[n])
            && 0 <= reqs[n].lineIndex < |sale.lines|
            && planned[n].lineIndex == reqs[n].lineIndex
  {
  }

  /** Planning reads the ledger, applying writes the copy: every named entry advances once and stays sound. */
  lemma {:induction false} ApplySound(sale: SaleEvidence, ledger: Ledger, reqs: seq<RequestLine>)
    requires Returnable(sale) && LinesSound(sale, ledger.lines)
    requires DistinctIndices(reqs) && PlanLines(sale, ledger, reqs).Ok?
    ensures var planned := PlanLines(sale, ledger, reqs).value;
            Advanced(sale, ledger.lines, ApplyPlanned(ledger.lines, planned), Sum(RefundsOf(planned)), |reqs|)
  {
    if reqs != [] {
      var n := |reqs| - 1;
      ApplySound(sale, ledger, reqs[..n]);
      PlannedSnoc(sale, ledger, reqs);
      var planned := PlanLines(sale, ledger, reqs).value;
      var before := ApplyPlanned(ledger.lines, planned[..n]);
      assert !Names(reqs[..n], reqs[n].lineIndex);
      ApplyFrame(sale, ledger, reqs[..n], reqs[n].lineIndex);
      AdvanceOne(sale, ledger.lines, before, reqs[n], Sum(RefundsOf(planned[..n])), n);
      assert RefundsOf(planned)[..n] == RefundsOf(planned[..n]);
    }
  }

  /** An accepted return takes a sound ledger to a sound ledger. */
  lemma ReturnKeepsSound(sale: SaleEvidence, ledger: Ledger, request: Request, returnId: string)
    requires Returnable(sale) && Sound(sale, ledger) && ValidRequest(request)
    requires PlannedReturn(sale, ledger, request, returnId).Ok?
    ensures Sound(sale, PlannedReturn(sale, ledger, request, returnId).value.nextLedger)
  {
    ApplySound(sale, ledger, request.lines);
  }

  // --- caps ------------------------------------------------------------------------

  /** Each line's refunds stay within its share. */
  lemma {:induction false} TallyWithinShares(sale: SaleEvidence, lines: map<int, LedgerLine>, n: nat)
    requires Returnable(sale) && LinesSound(sale, lines) && n <= |sale.lines|
    ensures Tally(lines, n, RefundOf) <= Sum(Shares(sale.lines)[..n])
    ensures (forall i :: 0 <= i < n ==> Prior(lines, i).returnedQty == sale.lines[i].soldQty) ==>
              Tally(lines, n, RefundOf) == Sum(Shares(sale.lines)[..n])
  {
    if n > 0 {
      TallyWithinShares(sale, lines, n - 1);
      SumSnoc(Shares(sale.lines), n - 1);
      EntryWithinShare(sale, lines, n - 1);
    }
  }

  lemma EntryWithinShare(sale: SaleEvidence, lines: map<int, LedgerLine>, k: nat)
    requires Returnable(sale) && LinesSound(sale, lines) && k < |sale.lines|
    ensures (if k in lines then lines[k].refunded else 0) <= Shares(sale.lines)[k]
    ensures Prior(lines, k).returnedQty == sale.lines[k].soldQty ==>
              (if k in lines then lines[k].refunded else 0) == Shares(sale.lines)[k]
  {
    var line, l := sale.lines[k], Prior(lines, k);
    UntouchedSound(line);
    Refund.CumulativeBounds(line.refundableShare, line.soldQty, l.returnedQty);
  }

  lemma RefundedWithinPaid(sale: SaleEvidence, lines: map<int, LedgerLine>)
    requires Returnable(sale) && LinesSound(sale, lines)
    ensures Tally(lines, |sale.lines|, RefundOf) <= Sum(Shares(sale.lines)) <= sale.total
  {
    TallyWithinShares(sale, lines, |sale.lines|);
    assert Shares(sale.lines)[..|sale.lines|] == Shares(sale.lines);
  }

  /** The cap on the sale total can never be what rejects a return: the line shares already imply it. */
  lemma TotalCapNeverFires(sale: SaleEvidence, ledger: Ledger, request: Request)
    requires Returnable(sale) && Sound(sale, ledger) && ValidRequest(request)
    requires PlanLines(sale, ledger, request.lines).Ok?
    ensures ledger.refundedTotal + Sum(RefundsOf(PlanLines(sale, ledger, request.lines).value)) <= sale.total
  {
    ApplySound(sale, ledger, request.lines);
    RefundedWithinPaid(sale, ApplyPlanned(ledger.lines, PlanLines(sale, ledger, request.lines).value));
  }

  // --- whole runs --------------------------------------------------------------------

  datatype Attempt = Attempt(request: Request, returnId: string)

  function After(sale: SaleEvidence, ledger: Ledger, a: Attempt): Ledger
    requires FactorsPositive(sale)
  {
    match PlannedReturn(sale, ledger, a.request, a.returnId)
    case Ok(plan) => plan.nextLedger
    case Err(_) => ledger
  }

  function Replay(sale: SaleEvidence, run: seq<Attempt>): Ledger
    requires FactorsPositive(sale)
  {
    if run == [] then EMPTY_LEDGER else After(sale, Replay(sale, run[..|run| - 1]), run[|run| - 1])
  }

  ghost predicate ValidRun(run: seq<Attempt>) {
    forall i :: 0 <= i < |run| ==> ValidRequest(run[i].request)
  }

  /** Whatever is attempted, in whatever order, the ledger stays sound. */
  lemma {:induction false} RunSound(sale: SaleEvidence, run: seq<Attempt>)
    requires Returnable(sale) && ValidRun(run)
    ensures Sound(sale, Replay(sale, run))
  {
    if run == [] {
      EmptySound(sale);
    } else {
      var n := |run| - 1;
      RunSound(sale, run[..n]);
      AfterSound(sale, Replay(sale, run[..n]), run[n]);
    }
  }

  lemma EmptySound(sale: SaleEvidence)
    requires Returnable(sale)
    ensures Sound(sale, EMPTY_LEDGER)
  {
    TallyEmpty(|sale.lines|);
  }

  lemma AfterSound(sale: SaleEvidence, ledger: Ledger, a: Attempt)
    requires Returnable(sale) && Sound(sale, ledger) && ValidRequest(a.request)
    ensures Sound(sale, After(sale, ledger, a))
  {
    if PlannedReturn(sale, ledger, a.request, a.returnId).Ok? {
      ReturnKeepsSound(sale, ledger, a.request, a.returnId);
    }
  }

  /** The ledger written by any run passes the code's own consistency check once one return was accepted. */
  lemma RunConsistent(sale: SaleEvidence, run: seq<Attempt>)
    requires ValidSale(sale) && ValidRun(run)
    ensures Consistent(sale, Replay(sale, run)) <==> Replay(sale, run) != EMPTY_LEDGER
  {
    ValidIsReturnable(sale);
    RunSound(sale, run);
    RefundedWithinPaid(sale, Replay(sale, run).lines);
    RunCounts(sale, run);
  }

  lemma {:induction false} RunCounts(sale: SaleEvidence, run: seq<Attempt>)
    requires FactorsPositive(sale)
    ensures Replay(sale, run) == EMPTY_LEDGER || Replay(sale, run).returnCount >= 1
  {
    if run != [] { RunCounts(sale, run[..|run| - 1]); }
  }

  /**
    Conservation of money over whole runs. Refunds never exceed what was paid; a sale that has come
    back completely, however it was split, has refunded exactly what was paid, in total and on every
    tender, unless a fee was charged on lines that are all free.
   */
  lemma MoneyConserved(sale: SaleEvidence, run: seq<Attempt>)
    requires ValidSale(sale) && ValidRun(run)
    ensures Replay(sale, run).refundedTotal <= sale.total
    ensures FullyReturned(sale, Replay(sale, run)) ==>
              (Replay(sale, run).refundedTotal == sale.total <==> sale.subtotal > 0 || sale.fee == 0)
    ensures FullyReturned(sale, Replay(sale, run)) ==>
              (Replay(sale, run).refundedByMethod == sale.netPaidByMethod <==> sale.subtotal > 0 || sale.fee == 0)
  {
    ValidIsReturnable(sale);
    var ledger := Replay(sale, run);
    RunSound(sale, run);
    RefundedWithinPaid(sale, ledger.lines);
    if FullyReturned(sale, ledger) {
      FullyReturnedTally(sale, ledger);
      SharesSum(sale);
    }
  }

  lemma FullyReturnedTally(sale: SaleEvidence, ledger: Ledger)
    requires Returnable(sale) && LinesSound(sale, ledger.lines) && FullyReturned(sale, ledger)
    ensures Tally(ledger.lines, |sale.lines|, RefundOf) == Sum(Shares(sale.lines))
  {
    forall i | 0 <= i < |sale.lines| ensures Prior(ledger.lines, i).returnedQty == sale.lines[i].soldQty {
      UntouchedSound(sale.lines[i]);
      assert Prior(ledger.lines, sale.lines[i].lineIndex).returnedQty >= sale.lines[i].soldQty;
    }
    TallyWithinShares(sale, ledger.lines, |sale.lines|);
    assert Shares(sale.lines)[..|sale.lines|] == Shares(sale.lines);
  }

  // --- restored stock over whole runs ---------------------------------------------------

  /** The units a plan restores for line `k`, in plan order. */
  function RestoredBy(planned: seq<PlannedLine>, k: int): seq<Lots.Unit> {
    if planned == [] then []
    else
      var p := planned[|planned| - 1];
      RestoredBy(planned[..|planned| - 1], k) + if p.lineIndex == k then Lots.PortionUnits(p.portions) else []
  }

  /** Every unit of line `k` restored so far, in the order it came back. */
  function Restored(sale: SaleEvidence, run: seq<Attempt>, k: int): seq<Lots.Unit>
    requires FactorsPositive(sale)
  {
    if run == [] then []
    else
      var before, a := run[..|run| - 1], run[|run| - 1];
      Restored(sale, before, k) +
      match PlannedReturn(sale, Replay(sale, before), a.request, a.returnId)
      case Ok(plan) => RestoredBy(plan.lines, k)
      case Err(_) => []
  }

  /** The stretch of units that entry `to` of a line has over entry `from`. */
  ghost predicate Stretch(line: SaleLine, from: LedgerLine, to: LedgerLine, restored: seq<Lots.Unit>) {
    && 0 <= from.returnedQtyBase <= to.returnedQtyBase <= |Lots.Units(line.lots)|
    && restored == Lots.Units(line.lots)[from.returnedQtyBase..to.returnedQtyBase]
  }

  lemma StretchFromSound(line: SaleLine, l: LedgerLine)
    requires LineValid(line) && EntrySound(line, l)
    ensures Stretch(line, l, l, [])
  {
    Lots.OversellFreeEndMeaning(line.lots);
  }

  lemma StretchJoins(line: SaleLine, a: LedgerLine, b: LedgerLine, c: LedgerLine, first: seq<Lots.Unit>,
                     second: seq<Lots.Unit>)
    requires Stretch(line, a, b, first) && Stretch(line, b, c, second)
    ensures Stretch(line, a, c, first + second)
  {
  }

  lemma PlanLineStretch(line: SaleLine, prior: LedgerLine, req: RequestLine)
    requires LineValid(line) && EntrySound(line, prior) && PlanLine(line, prior, req).Ok?
    ensures var p := PlanLine(line, prior, req).value;
            p.lineIndex == line.lineIndex && Stretch(line, prior, Advance(prior, p), Lots.PortionUnits(p.portions))
  {
    PlanLineAccepts(line, prior, req);
    AdvancedBase(line, prior, req.qty);
  }

  /** Planned lines restore, of line `k`, exactly the units its entry advances over. */
  ghost predicate RestoresNext(line: SaleLine, lines: map<int, LedgerLine>, planned: seq<PlannedLine>, k: nat) {
    Stretch(line, Prior(lines, k), Prior(ApplyPlanned(lines, planned), k), RestoredBy(planned, k))
  }

  /** One request restores, of every line it names, exactly the units its entry advances over. */
  lemma {:induction false} PlanRestoresNext(sale: SaleEvidence, ledger: Ledger, reqs: seq<RequestLine>, k: nat)
    requires Returnable(sale) && LinesSound(sale, ledger.lines) && k < |sale.lines|
    requires DistinctIndices(reqs)
    requires PlanLines(sale, ledger, reqs).Ok?
    ensures RestoresNext(sale.lines[k], ledger.lines, PlanLines(sale, ledger, reqs).value, k)
  {
    if reqs == [] {
      UntouchedSound(sale.lines[k]);
      StretchFromSound(sale.lines[k], Prior(ledger.lines, k));
    } else {
      PlannedSnoc(sale, ledger, reqs);
      PlanRestoresNext(sale, ledger, reqs[..|reqs| - 1], k);
      PlanRestoresLast(sale, ledger, reqs, k);
    }
  }

  lemma PlanRestoresLast(sale: SaleEvidence, ledger: Ledger, reqs: seq<RequestLine>, k: nat)
    requires Returnable(sale) && LinesSound(sale, ledger.lines) && k < |sale.lines|
    requires DistinctIndices(reqs) && reqs != [] && PlanLines(sale, ledger, reqs).Ok?
    requires PlanLines(sale, ledger, reqs[..|reqs| - 1]).Ok?
    requires RestoresNext(sale.lines[k], ledger.lines, PlanLines(sale, ledger, reqs[..|reqs| - 1]).value, k)
    ensures RestoresNext(sale.lines[k], ledger.lines, PlanLines(sale, ledger, reqs).value, k)
  {
    var n := |reqs| - 1;
    var planned := PlanLines(sale, ledger, reqs).value;
    PlannedSnoc(sale, ledger, reqs);
    if reqs[n].lineIndex == k {
      UntouchedSound(sale.lines[k]);
      assert !Names(reqs[..n], k);
      ApplyFrame(sale, ledger, reqs[..n], k);
      LastRequestRestores(sale.lines[k], ledger.lines, planned, k, reqs[n]);
    } else {
      LastRequestElsewhere(sale.lines[k], ledger.lines, planned, k);
    }
  }

  lemma LastRequestElsewhere(line: SaleLine, lines: map<int, LedgerLine>, planned: seq<PlannedLine>, k: nat)
    requires planned != [] && planned[|planned| - 1].lineIndex != k
    requires RestoresNext(line, lines, planned[..|planned| - 1], k)
    ensures RestoresNext(line, lines, planned, k)
  {
    var front := planned[..|planned| - 1];
    assert RestoredBy(front, k) + [] == RestoredBy(front, k);
  }

  /** The last request of a plan names line `k` for the first time. */
  lemma LastRequestRestores(line: SaleLine, lines: map<int, LedgerLine>, planned: seq<PlannedLine>, k: nat,
                            req: RequestLine)
    requires planned != [] && LineValid(line) && line.lineIndex == k && EntrySound(line, Prior(lines, k))
    requires PlanLine(line, Prior(lines, k), req) == Ok(planned[|planned| - 1])
    requires Prior(ApplyPlanned(lines, planned[..|planned| - 1]), k) == Prior(lines, k)
    requires RestoresNext(line, lines, planned[..|planned| - 1], k)
    ensures RestoresNext(line, lines, planned, k)
  {
    var prior, p := Prior(lines, k), planned[|planned| - 1];
    PlanLineStretch(line, prior, req);
    StretchJoins(line, prior, prior, Advance(prior, p), RestoredBy(planned[..|planned| - 1], k),
                 Lots.PortionUnits(p.portions));
  }

  lemma PrefixGrows(line: SaleLine, from: LedgerLine, to: LedgerLine, units: seq<Lots.Unit>, restored: seq<Lots.Unit>)
    requires Stretch(line, from, to, restored) && units == Lots.Units(line.lots)[..from.returnedQtyBase]
    ensures units + restored == Lots.Units(line.lots)[..to.returnedQtyBase]
  {
  }

  /** The entry of line `k` after a run. */
  function EntryAfter(sale: SaleEvidence, run: seq<Attempt>, k: nat): LedgerLine
    requires FactorsPositive(sale)
  {
    Prior(Replay(sale, run).lines, k)
  }

  lemma EntryInRange(sale: SaleEvidence, run: seq<Attempt>, k: nat)
    requires Returnable(sale) && ValidRun(run) && k < |sale.lines|
    ensures EntrySound(sale.lines[k], EntryAfter(sale, run, k))
    ensures 0 <= EntryAfter(sale, run, k).returnedQtyBase <= |Lots.Units(sale.lines[k].lots)|
  {
    RunSound(sale, run);
    UntouchedSound(sale.lines[k]);
    Lots.OversellFreeEndMeaning(sale.lines[k].lots);
  }

  /**
    Over any run, what has come back of a line is exactly the first `returnedQtyBase` units in the
    recorded FIFO order: disjoint stretches, no unit twice, no unit out of order.
   */
  lemma {:induction false} RestoredIsPrefix(sale: SaleEvidence, run: seq<Attempt>, k: nat)
    requires Returnable(sale) && ValidRun(run) && k < |sale.lines|
    ensures 0 <= EntryAfter(sale, run, k).returnedQtyBase <= |Lots.Units(sale.lines[k].lots)|
    ensures Restored(sale, run, k) == Lots.Units(sale.lines[k].lots)[..EntryAfter(sale, run, k).returnedQtyBase]
  {
    EntryInRange(sale, run, k);
    if run != [] {
      var n := |run| - 1;
      RestoredIsPrefix(sale, run[..n], k);
      RestoredStep(sale, run[..n], run[n], k);
      assert run == run[..n] + [run[n]];
    }
  }

  lemma RestoredStep(sale: SaleEvidence, before: seq<Attempt>, a: Attempt, k: nat)
    requires Returnable(sale) && ValidRun(before) && ValidRequest(a.request) && k < |sale.lines|
    requires 0 <= EntryAfter(sale, before, k).returnedQtyBase <= |Lots.Units(sale.lines[k].lots)|
    requires Restored(sale, before, k) == Lots.Units(sale.lines[k].lots)[..EntryAfter(sale, before, k).returnedQtyBase]
    ensures var run := before + [a];
            && 0 <= EntryAfter(sale, run, k).returnedQtyBase <= |Lots.Units(sale.lines[k].lots)|
            && Restored(sale, run, k) == Lots.Units(sale.lines[k].lots)[..EntryAfter(sale, run, k).returnedQtyBase]
  {
    var run, ledger := before + [a], Replay(sale, before);
    assert run[..|run| - 1] == before;
    RunSound(sale, before);
    if PlannedReturn(sale, ledger, a.request, a.returnId).Ok? {
      PlanRestoresNext(sale, ledger, a.request.lines, k);
      var planned := PlanLines(sale, ledger, a.request.lines).value;
      PrefixGrows(sale.lines[k], Prior(ledger.lines, k), Prior(ApplyPlanned(ledger.lines, planned), k),
                  Restored(sale, before, k), RestoredBy(planned, k));
    } else {
      assert Restored(sale, run, k) == Restored(sale, before, k) + [];
    }
  }

  /** No run ever brings back an oversold unit. */
  lemma OversoldNeverRestored(sale: SaleEvidence, run: seq<Attempt>, k: nat)
    requires ValidSale(sale) && ValidRun(run) && k < |sale.lines|
    ensures !Lots.HasLot(Restored(sale, run, k), Lots.OVERSELL_LOT_ID)
  {
    ValidIsReturnable(sale);
    RestoredIsPrefix(sale, run, k);
    EntryInRange(sale, run, k);
    Lots.OversellFreeEndMeaning(sale.lines[k].lots);
  }

  /** No run ever restores more of a lot than the sale took from it; a full return restores all of it. */
  lemma LotNeverOverRestored(sale: SaleEvidence, run: seq<Attempt>, k: nat, lotId: string)
    requires ValidSale(sale) && ValidRun(run) && k < |sale.lines|
    ensures Lots.CountOf(Restored(sale, run, k), lotId) <= Lots.CountOf(Lots.Units(sale.lines[k].lots), lotId)
    ensures FullyReturned(sale, Replay(sale, run)) ==> Restored(sale, run, k) == Lots.Units(sale.lines[k].lots)
  {
    ValidIsReturnable(sale);
    var units, n := Lots.Units(sale.lines[k].lots), EntryAfter(sale, run, k).returnedQtyBase;
    RestoredIsPrefix(sale, run, k);
    EntryInRange(sale, run, k);
    Lots.PrefixCount(units, n, lotId);
    if FullyReturned(sale, Replay(sale, run)) {
      assert Prior(Replay(sale, run).lines, sale.lines[k].lineIndex).returnedQty >= sale.lines[k].soldQty;
      assert n == |units|;
    }
  }
}
