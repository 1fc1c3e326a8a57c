/**
  When a whole return request is accepted, on the request's, the sale's and the ledger's own figures,
  what an acceptance moves, and that everything still out can always be returned.
 */
module ReturnAcceptance {
  import opened Wrappers
  import opened Arithmetic
  import opened Sale
  import opened Returns
  import opened ReturnRuns
  import Evidence
  import Refund
  import Lots

  /** What a further quantity of a line refunds: the difference of two cumulative refunds. */
  function Difference(line: SaleLine, prior: LedgerLine, qty: int): int {
    Refund.Cumulative(line.refundableShare, line.soldQty, prior.returnedQty + qty)
    - Refund.Cumulative(line.refundableShare, line.soldQty, prior.returnedQty)
  }

  function Differences(sale: SaleEvidence, ledger: Ledger, reqs: seq<RequestLine>): (r: seq<int>)
    ensures |r| == |reqs|
  {
    seq(|reqs|, i requires 0 <= i < |reqs| =>
          var k := reqs[i].lineIndex;
          if 0 <= k < |sale.lines| then Difference(sale.lines[k], Prior(ledger.lines, k), reqs[i].qty) else 0)
  }

  ghost predicate LineAcceptable(sale: SaleEvidence, ledger: Ledger, req: RequestLine)
    requires LinesValid(sale)
  {
    && 0 <= req.lineIndex < |sale.lines|
    && req.productId == sale.lines[req.lineIndex].productId
    && LineAccepts(sale.lines[req.lineIndex], Prior(ledger.lines, req.lineIndex), req.qty)
  }

  ghost predicate LinesAcceptable(sale: SaleEvidence, ledger: Ledger, reqs: seq<RequestLine>)
    requires LinesValid(sale)
  {
    forall i :: 0 <= i < |reqs| ==> LineAcceptable(sale, ledger, reqs[i])
  }

  /** Nothing due and no tender named, or a tender that still holds the sum, referenced unless it is cash. */
  ghost predicate TenderCovers(sale: SaleEvidence, ledger: Ledger, request: Request, due: int) {
    || (due == 0 && request.refundMethod.None?)
    || (due > 0 && request.refundMethod.Some? &&
        var m := request.refundMethod.value;
        && due <= sale.netPaidByMethod.Get(m) - ledger.refundedByMethod.Get(m)
        && (m == Cash || request.refundReference != ""))
  }

  // --- when a request is accepted -------------------------------------------------------------

  lemma LinePlannedIff(sale: SaleEvidence, ledger: Ledger, req: RequestLine)
    requires Returnable(sale) && LinesSound(sale, ledger.lines)
    ensures PlanRequestLine(sale, ledger, req).Ok? <==> LineAcceptable(sale, ledger, req)
    ensures PlanRequestLine(sale, ledger, req).Ok? ==>
              PlanRequestLine(sale, ledger, req).value.refund
              == Difference(sale.lines[req.lineIndex], Prior(ledger.lines, req.lineIndex), req.qty)
  {
    if 0 <= req.lineIndex < |sale.lines| {
      UntouchedSound(sale.lines[req.lineIndex]);
      PlanLineAccepts(sale.lines[req.lineIndex], Prior(ledger.lines, req.lineIndex), req);
    }
  }

  lemma DifferencesSnoc(sale: SaleEvidence, ledger: Ledger, reqs: seq<RequestLine>)
    requires reqs != [] && 0 <= reqs[|reqs| - 1].lineIndex < |sale.lines|
    ensures var req := reqs[|reqs| - 1];
            Differences(sale, ledger, reqs) == Differences(sale, ledger, reqs[..|reqs| - 1])
            + [Difference(sale.lines[req.lineIndex], Prior(ledger.lines, req.lineIndex), req.qty)]
  {
  }

  lemma {:induction false} LinesPlannedIff(sale: SaleEvidence, ledger: Ledger, reqs: seq<RequestLine>)
    requires Returnable(sale) && LinesSound(sale, ledger.lines)
    ensures PlanLines(sale, ledger, reqs).Ok? <==> LinesAcceptable(sale, ledger, reqs)
    ensures PlanLines(sale, ledger, reqs).Ok? ==>
              RefundsOf(PlanLines(sale, ledger, reqs).value) == Differences(sale, ledger, reqs)
  {
    if reqs != [] {
      var n := |reqs| - 1;
      LinesPlannedIff(sale, ledger, reqs[..n]);
      LinePlannedIff(sale, ledger, reqs[n]);
      assert reqs == reqs[..n] + [reqs[n]];
      if PlanLines(sale, ledger, reqs).Ok? {
        PlannedSnoc(sale, ledger, reqs);
        DifferencesSnoc(sale, ledger, reqs);
        var planned := PlanLines(sale, ledger, reqs).value;
        assert RefundsOf(planned) == RefundsOf(planned[..n]) + [planned[n].refund];
      }
    }
  }

  lemma TenderAcceptedIff(sale: SaleEvidence, ledger: Ledger, request: Request, due: int)
    requires 0 <= due && ledger.refundedByMethod.NonNegative()
    ensures MethodReject(sale, ledger, request, due).None? <==> TenderCovers(sale, ledger, request, due)
  {
  }

  ghost predicate SomethingOut(sale: SaleEvidence, ledger: Ledger) {
    exists k :: 0 <= k < |sale.lines| && Prior(ledger.lines, k).returnedQty < sale.lines[k].soldQty
  }

  lemma NotFullyReturnedIff(sale: SaleEvidence, ledger: Ledger)
    requires LinesValid(sale)
    ensures SomethingOut(sale, ledger) <==> !FullyReturned(sale, ledger)
  {
    if !FullyReturned(sale, ledger) {
      var k :|
        0 <= k < |sale.lines| && Prior(ledger.lines, sale.lines[k].lineIndex).returnedQty < sale.lines[k].soldQty;
      assert Prior(ledger.lines, k).returnedQty < sale.lines[k].soldQty;
    }
    if SomethingOut(sale, ledger) {
      var k :| 0 <= k < |sale.lines| && Prior(ledger.lines, k).returnedQty < sale.lines[k].soldQty;
      assert Prior(ledger.lines, sale.lines[k].lineIndex).returnedQty < sale.lines[k].soldQty;
    }
  }

  /**
    A request is accepted exactly when something is still out, every line it names can come back, the
    refund it expects is what those lines refund, and a tender covers it.
   */
  lemma RequestAcceptedIff(sale: SaleEvidence, ledger: Ledger, request: Request, returnId: string)
    requires Returnable(sale) && Sound(sale, ledger) && ValidRequest(request)
    ensures PlannedReturn(sale, ledger, request, returnId).Ok? <==>
            && SomethingOut(sale, ledger)
            && LinesAcceptable(sale, ledger, request.lines)
            && request.expectedRefund == Sum(Differences(sale, ledger, request.lines))
            && TenderCovers(sale, ledger, request, Sum(Differences(sale, ledger, request.lines)))
  {
    NotFullyReturnedIff(sale, ledger);
    LinesPlannedIff(sale, ledger, request.lines);
    if PlanLines(sale, ledger, request.lines).Ok? {
      TotalCapNeverFires(sale, ledger, request);
      ApplySound(sale, ledger, request.lines);
      TenderAcceptedIff(sale, ledger, request, Sum(Differences(sale, ledger, request.lines)));
    }
  }

  // --- what an acceptance moves ----------------------------------------------------------------

  /** An entry after `req`: quantity, base quantity and refund moved on by its figures. */
  function MovedEntry(line: SaleLine, prior: LedgerLine, qty: int): LedgerLine
    requires line.unitFactor.Positive() && ExactBase(qty, line.unitFactor).Some?
  {
    LedgerLine(prior.returnedQty + qty, prior.returnedQtyBase + ExactBase(qty, line.unitFactor).value,
               prior.refunded + Difference(line, prior, qty))
  }

  lemma AdvancedIsMoved(line: SaleLine, prior: LedgerLine, req: RequestLine)
    requires LineValid(line) && EntrySound(line, prior) && PlanLine(line, prior, req).Ok?
    ensures ExactBase(req.qty, line.unitFactor).Some?
    ensures Advance(prior, PlanLine(line, prior, req).value) == MovedEntry(line, prior, req.qty)
  {
    PlanLineAccepts(line, prior, req);
  }

  /** Each named line's entry moves once. */
  lemma {:induction false} NamedEntryMoves(sale: SaleEvidence, ledger: Ledger, reqs: seq<RequestLine>, i: nat)
    requires Returnable(sale) && LinesSound(sale, ledger.lines) && DistinctIndices(reqs) && i < |reqs|
    requires PlanLines(sale, ledger, reqs).Ok?
    ensures 0 <= reqs[i].lineIndex < |sale.lines|
    ensures ExactBase(reqs[i].qty, sale.lines[reqs[i].lineIndex].unitFactor).Some?
    ensures Prior(ApplyPlanned(ledger.lines, PlanLines(sale, ledger, reqs).value), reqs[i].lineIndex)
            == MovedEntry(sale.lines[reqs[i].lineIndex], Prior(ledger.lines, reqs[i].lineIndex), reqs[i].qty)
  {
    var n := |reqs| - 1;
    PlannedSnoc(sale, ledger, reqs);
    if i < n {
      NamedEntryMoves(sale, ledger, reqs[..n], i);
    } else {
      LastEntryMoves(sale, ledger, reqs);
    }
  }

  lemma LastEntryMoves(sale: SaleEvidence, ledger: Ledger, reqs: seq<RequestLine>)
    requires Returnable(sale) && LinesSound(sale, ledger.lines) && DistinctIndices(reqs) && reqs != []
    requires PlanLines(sale, ledger, reqs).Ok?
    ensures var req := reqs[|reqs| - 1];
            && 0 <= req.lineIndex < |sale.lines|
            && ExactBase(req.qty, sale.lines[req.lineIndex].unitFactor).Some?
            && Prior(ApplyPlanned(ledger.lines, PlanLines(sale, ledger, reqs).value), req.lineIndex)
               == MovedEntry(sale.lines[req.lineIndex], Prior(ledger.lines, req.lineIndex), req.qty)
  {
    var n := |reqs| - 1;
    PlannedSnoc(sale, ledger, reqs);
    assert !Names(reqs[..n], reqs[n].lineIndex);
    ApplyFrame(sale, ledger, reqs[..n], reqs[n].lineIndex);
    UntouchedSound(sale.lines[reqs[n].lineIndex]);
    AdvancedIsMoved(sale.lines[reqs[n].lineIndex], Prior(ledger.lines, reqs[n].lineIndex), reqs[n]);
  }

  /** Line `k` after a request: moved by the request line that names it, else as before. */
  ghost predicate EntryFollows(sale: SaleEvidence, ledger: Ledger, reqs: seq<RequestLine>, k: nat, entry: LedgerLine)
    requires LinesValid(sale) && k < |sale.lines|
  {
    && (!Names(reqs, k) ==> entry == Prior(ledger.lines, k))
    && (forall i :: 0 <= i < |reqs| && reqs[i].lineIndex == k ==>
          && ExactBase(reqs[i].qty, sale.lines[k].unitFactor).Some?
          && entry == MovedEntry(sale.lines[k], Prior(ledger.lines, k), reqs[i].qty))
  }

  lemma EntryMoves(sale: SaleEvidence, ledger: Ledger, reqs: seq<RequestLine>, k: nat)
    requires Returnable(sale) && LinesSound(sale, ledger.lines) && DistinctIndices(reqs) && k < |sale.lines|
    requires PlanLines(sale, ledger, reqs).Ok?
    ensures EntryFollows(sale, ledger, reqs, k,
                         Prior(ApplyPlanned(ledger.lines, PlanLines(sale, ledger, reqs).value), k))
  {
    if !Names(reqs, k) {
      ApplyFrame(sale, ledger, reqs, k);
    }
    forall i | 0 <= i < |reqs| && reqs[i].lineIndex == k
      ensures ExactBase(reqs[i].qty, sale.lines[k].unitFactor).Some?
      ensures Prior(ApplyPlanned(ledger.lines, PlanLines(sale, ledger, reqs).value), k)
              == MovedEntry(sale.lines[k], Prior(ledger.lines, k), reqs[i].qty)
    {
      NamedEntryMoves(sale, ledger, reqs, i);
    }
  }

  /** An accepted request moves exactly its own lines' entries, its own tender and the totals. */
  lemma AcceptedMoves(sale: SaleEvidence, ledger: Ledger, request: Request, returnId: string, k: nat, m: Method)
    requires Returnable(sale) && Sound(sale, ledger) && ValidRequest(request) && k < |sale.lines|
    requires PlannedReturn(sale, ledger, request, returnId).Ok?
    ensures var next := PlannedReturn(sale, ledger, request, returnId).value.nextLedger;
            && next.returnCount == ledger.returnCount + 1
            && next.acceptedReturnIds == ledger.acceptedReturnIds + [returnId]
            && next.refundedTotal == ledger.refundedTotal + request.expectedRefund
            && next.refundedByMethod.Get(m)
               == ledger.refundedByMethod.Get(m)
                  + (if request.refundMethod == Some(m) then request.expectedRefund else 0)
            && EntryFollows(sale, ledger, request.lines, k, Prior(next.lines, k))
  {
    EntryMoves(sale, ledger, request.lines, k);
  }

  /** The same difference over the line's own total: what the return takes off revenue. */
  function RevenueDifference(line: SaleLine, prior: LedgerLine, qty: int): int {
    Refund.Cumulative(line.lineTotal, line.soldQty, prior.returnedQty + qty)
    - Refund.Cumulative(line.lineTotal, line.soldQty, prior.returnedQty)
  }

  function RevenueDifferences(sale: SaleEvidence, ledger: Ledger, reqs: seq<RequestLine>): (r: seq<int>)
    ensures |r| == |reqs|
  {
    seq(|reqs|, i requires 0 <= i < |reqs| =>
          var k := reqs[i].lineIndex;
          if 0 <= k < |sale.lines| then RevenueDifference(sale.lines[k], Prior(ledger.lines, k), reqs[i].qty) else 0)
  }

  /** What is planned for one line. */
  ghost predicate LineFigures(line: SaleLine, prior: LedgerLine, req: RequestLine, p: PlannedLine)
    requires line.unitFactor.Positive()
  {
    && p.lineIndex == req.lineIndex && p.returnQty == req.qty && p.previouslyReturnedQty == prior.returnedQty
    && ExactBase(req.qty, line.unitFactor) == Some(p.returnQtyBase)
    && p.refund == Difference(line, prior, req.qty) && p.lineRevenue == RevenueDifference(line, prior, req.qty)
    && 0 <= prior.returnedQtyBase <= prior.returnedQtyBase + p.returnQtyBase <= |Lots.Units(line.lots)|
    && Lots.PortionUnits(p.portions)
       == Lots.Units(line.lots)[prior.returnedQtyBase..prior.returnedQtyBase + p.returnQtyBase]
  }

  lemma LineFiguresOf(line: SaleLine, prior: LedgerLine, req: RequestLine)
    requires LineValid(line) && EntrySound(line, prior) && line.lineIndex == req.lineIndex
    requires PlanLine(line, prior, req).Ok?
    ensures LineFigures(line, prior, req, PlanLine(line, prior, req).value)
  {
    PlanLineAccepts(line, prior, req);
    AdvancedBase(line, prior, req.qty);
  }

  lemma PriorSound(sale: SaleEvidence, lines: map<int, LedgerLine>, k: nat)
    requires LinesValid(sale) && LinesSound(sale, lines) && k < |sale.lines|
    ensures LineValid(sale.lines[k]) && sale.lines[k].lineIndex == k && EntrySound(sale.lines[k], Prior(lines, k))
  {
    UntouchedSound(sale.lines[k]);
  }

  lemma LineFiguresAt(sale: SaleEvidence, ledger: Ledger, req: RequestLine)
    requires LinesValid(sale) && LinesSound(sale, ledger.lines) && 0 <= req.lineIndex < |sale.lines|
    requires PlanRequestLine(sale, ledger, req).Ok?
    ensures LineFigures(sale.lines[req.lineIndex], Prior(ledger.lines, req.lineIndex), req,
                        PlanRequestLine(sale, ledger, req).value)
  {
    PriorSound(sale, ledger.lines, req.lineIndex);
    LineFiguresOf(sale.lines[req.lineIndex], Prior(ledger.lines, req.lineIndex), req);
  }

  /** Each planned line is what its request line plans. */
  lemma {:induction false} PlannedEach(sale: SaleEvidence, ledger: Ledger, reqs: seq<RequestLine>, i: nat)
    requires LinesValid(sale) && PlanLines(sale, ledger, reqs).Ok? && i < |reqs|
    ensures 0 <= reqs[i].lineIndex < |sale.lines|
    ensures PlanRequestLine(sale, ledger, reqs[i]) == Ok(PlanLines(sale, ledger, reqs).value[i])
  {
    var n := |reqs| - 1;
    PlannedSnoc(sale, ledger, reqs);
    if i < n {
      PlannedEach(sale, ledger, reqs[..n], i);
    }
  }

  lemma PlannedFigures(sale: SaleEvidence, ledger: Ledger, reqs: seq<RequestLine>, i: nat)
    requires Returnable(sale) && LinesSound(sale, ledger.lines) && PlanLines(sale, ledger, reqs).Ok? && i < |reqs|
    ensures 0 <= reqs[i].lineIndex < |sale.lines|
    ensures LineFigures(sale.lines[reqs[i].lineIndex], Prior(ledger.lines, reqs[i].lineIndex), reqs[i],
                        PlanLines(sale, ledger, reqs).value[i])
  {
    PlannedEach(sale, ledger, reqs, i);
    LineFiguresAt(sale, ledger, reqs[i]);
  }

  /** The plan of an accepted request: its totals, and each line's figures and restored units. */
  lemma PlanFigures(sale: SaleEvidence, ledger: Ledger, request: Request, returnId: string, i: nat)
    requires Returnable(sale) && Sound(sale, ledger) && i < |request.lines|
    requires PlannedReturn(sale, ledger, request, returnId).Ok?
    ensures var plan := PlannedReturn(sale, ledger, request, returnId).value;
            && |plan.lines| == |request.lines|
            && plan.refund == request.expectedRefund == Sum(Differences(sale, ledger, request.lines))
            && plan.lineRevenue == Sum(RevenueDifferences(sale, ledger, request.lines))
            && 0 <= request.lines[i].lineIndex < |sale.lines|
            && LineFigures(sale.lines[request.lines[i].lineIndex], Prior(ledger.lines, request.lines[i].lineIndex),
                           request.lines[i], plan.lines[i])
  {
    var planned := PlanLines(sale, ledger, request.lines).value;
    PlannedFigures(sale, ledger, request.lines, i);
    LinesPlannedIff(sale, ledger, request.lines);
    forall j | 0 <= j < |request.lines|
      ensures RevenuesOf(planned)[j] == RevenueDifferences(sale, ledger, request.lines)[j]
    {
      PlannedFigures(sale, ledger, request.lines, j);
    }
    assert RevenuesOf(planned) == RevenueDifferences(sale, ledger, request.lines);
  }

  /** Parsed and fully returned: every tender has got back what was paid with it, less the change given in cash. */
  lemma TendersGetBack(payments: seq<Evidence.RawPayment>, change: int, sale: SaleEvidence, run: seq<Attempt>)
    requires ValidSale(sale) && ValidRun(run) && Evidence.PerTender(payments, change, sale.netPaidByMethod)
    requires sale.subtotal > 0 || sale.fee == 0
    ensures FactorsPositive(sale)
    ensures FullyReturned(sale, Replay(sale, run)) ==>
              Evidence.PerTender(payments, change, Replay(sale, run).refundedByMethod)
  {
    ValidIsReturnable(sale);
    MoneyConserved(sale, run);
  }

  // --- everything still out can be returned ------------------------------------------------------

  function StillOut(sale: SaleEvidence, ledger: Ledger, k: nat): int
    requires k < |sale.lines|
  {
    sale.lines[k].soldQty - Prior(ledger.lines, k).returnedQty
  }

  /** The lines below `n` that still have something out, each with all of it. */
  function RestOf(sale: SaleEvidence, ledger: Ledger, n: nat): seq<RequestLine>
    requires n <= |sale.lines|
  {
    if n == 0 then []
    else
      RestOf(sale, ledger, n - 1) +
      if StillOut(sale, ledger, n - 1) > 0
      then [RequestLine(n - 1, sale.lines[n - 1].productId, StillOut(sale, ledger, n - 1))] else []
  }

  lemma {:induction false} RestShape(sale: SaleEvidence, ledger: Ledger, n: nat)
    requires n <= |sale.lines|
    ensures forall i :: 0 <= i < |RestOf(sale, ledger, n)| ==>
              var r := RestOf(sale, ledger, n)[i];
              && 0 <= r.lineIndex < n && StillOut(sale, ledger, r.lineIndex) > 0
              && r == RequestLine(r.lineIndex, sale.lines[r.lineIndex].productId, StillOut(sale, ledger, r.lineIndex))
    ensures DistinctIndices(RestOf(sale, ledger, n))
  {
    if n > 0 {
      RestShape(sale, ledger, n - 1);
    }
  }

  lemma {:induction false} RestNames(sale: SaleEvidence, ledger: Ledger, n: nat, k: nat)
    requires k < n <= |sale.lines| && StillOut(sale, ledger, k) > 0
    ensures Names(RestOf(sale, ledger, n), k)
  {
    var rest := RestOf(sale, ledger, n);
    if k < n - 1 {
      RestNames(sale, ledger, n - 1, k);
      var i :| 0 <= i < |RestOf(sale, ledger, n - 1)| && RestOf(sale, ledger, n - 1)[i].lineIndex == k;
      assert rest[i].lineIndex == k;
    } else {
      assert rest[|rest| - 1].lineIndex == k;
    }
  }

  ghost predicate OversellFree(sale: SaleEvidence) {
    forall k :: 0 <= k < |sale.lines| ==> Lots.OversellFreeEnd(sale.lines[k].lots) >= sale.lines[k].soldQtyBase
  }

  lemma RemainderAcceptable(line: SaleLine, prior: LedgerLine)
    requires LineValid(line) && EntrySound(line, prior) && prior.returnedQty < line.soldQty
    requires Lots.OversellFreeEnd(line.lots) >= line.soldQtyBase
    ensures LineAccepts(line, prior, line.soldQty - prior.returnedQty)
  {
    EntryBase(line, prior);
    ExactBaseAdds(line.unitFactor, prior.returnedQty, line.soldQty - prior.returnedQty, prior.returnedQtyBase);
  }

  lemma RemainderOfLine(sale: SaleEvidence, ledger: Ledger, k: nat)
    requires LinesValid(sale) && LinesSound(sale, ledger.lines) && OversellFree(sale) && k < |sale.lines|
    requires StillOut(sale, ledger, k) > 0
    ensures LineAcceptable(sale, ledger, RequestLine(k, sale.lines[k].productId, StillOut(sale, ledger, k)))
  {
    PriorSound(sale, ledger.lines, k);
    RemainderAcceptable(sale.lines[k], Prior(ledger.lines, k));
  }

  lemma RestAcceptable(sale: SaleEvidence, ledger: Ledger, n: nat)
    requires Returnable(sale) && LinesSound(sale, ledger.lines) && OversellFree(sale) && n <= |sale.lines|
    ensures LinesAcceptable(sale, ledger, RestOf(sale, ledger, n))
  {
    RestShape(sale, ledger, n);
    var rest := RestOf(sale, ledger, n);
    forall i | 0 <= i < |rest| ensures LineAcceptable(sale, ledger, rest[i]) {
      RemainderOfLine(sale, ledger, rest[i].lineIndex);
    }
  }

  /** What a line still has to refund. */
  lemma EntryOwes(sale: SaleEvidence, ledger: Ledger, k: nat)
    requires Returnable(sale) && LinesSound(sale, ledger.lines) && k < |sale.lines|
    ensures Difference(sale.lines[k], Prior(ledger.lines, k), StillOut(sale, ledger, k))
            == sale.lines[k].refundableShare - Prior(ledger.lines, k).refunded
    ensures StillOut(sale, ledger, k) <= 0 ==> Prior(ledger.lines, k).refunded == sale.lines[k].refundableShare
  {
    var line, prior := sale.lines[k], Prior(ledger.lines, k);
    PriorSound(sale, ledger.lines, k);
    Refund.CumulativeBounds(line.refundableShare, line.soldQty, prior.returnedQty);
  }

  /** What the remainder of one line refunds; nothing when nothing of it is out. */
  function RemainderRefund(sale: SaleEvidence, ledger: Ledger, k: nat): int
    requires k < |sale.lines|
  {
    if StillOut(sale, ledger, k) > 0
    then Difference(sale.lines[k], Prior(ledger.lines, k), StillOut(sale, ledger, k)) else 0
  }

  function RemaindersTo(sale: SaleEvidence, ledger: Ledger, n: nat): int
    requires n <= |sale.lines|
  {
    if n == 0 then 0 else RemaindersTo(sale, ledger, n - 1) + RemainderRefund(sale, ledger, n - 1)
  }

  lemma RestRefundsSnoc(sale: SaleEvidence, ledger: Ledger, n: nat)
    requires 0 < n <= |sale.lines|
    ensures Sum(Differences(sale, ledger, RestOf(sale, ledger, n)))
            == Sum(Differences(sale, ledger, RestOf(sale, ledger, n - 1))) + RemainderRefund(sale, ledger, n - 1)
  {
    var before, rest := RestOf(sale, ledger, n - 1), RestOf(sale, ledger, n);
    if StillOut(sale, ledger, n - 1) > 0 {
      assert rest[..|rest| - 1] == before;
      DifferencesSnoc(sale, ledger, rest);
      var d := Differences(sale, ledger, rest);
      assert d[..|d| - 1] == Differences(sale, ledger, before);
    } else {
      assert rest == before;
    }
  }

  lemma {:induction false} RestIsRemainders(sale: SaleEvidence, ledger: Ledger, n: nat)
    requires n <= |sale.lines|
    ensures Sum(Differences(sale, ledger, RestOf(sale, ledger, n))) == RemaindersTo(sale, ledger, n)
  {
    if n > 0 {
      RestIsRemainders(sale, ledger, n - 1);
      RestRefundsSnoc(sale, ledger, n);
    }
  }

  lemma RemainderOwed(sale: SaleEvidence, ledger: Ledger, k: nat)
    requires Returnable(sale) && LinesSound(sale, ledger.lines) && k < |sale.lines|
    ensures RemainderRefund(sale, ledger, k) == Shares(sale.lines)[k] - Prior(ledger.lines, k).refunded
  {
    EntryOwes(sale, ledger, k);
  }

  /** The rest refunds what the shares still owe. */
  lemma {:induction false} RemaindersOwed(sale: SaleEvidence, ledger: Ledger, n: nat)
    requires Returnable(sale) && LinesSound(sale, ledger.lines) && n <= |sale.lines|
    ensures RemaindersTo(sale, ledger, n) == Sum(Shares(sale.lines)[..n]) - Tally(ledger.lines, n, RefundOf)
  {
    if n > 0 {
      RemaindersOwed(sale, ledger, n - 1);
      SumSnoc(Shares(sale.lines), n - 1);
      RemainderOwed(sale, ledger, n - 1);
    }
  }

  lemma RestRefunds(sale: SaleEvidence, ledger: Ledger, n: nat)
    requires Returnable(sale) && LinesSound(sale, ledger.lines) && n <= |sale.lines|
    ensures Sum(Differences(sale, ledger, RestOf(sale, ledger, n)))
            == Sum(Shares(sale.lines)[..n]) - Tally(ledger.lines, n, RefundOf)
  {
    RestIsRemainders(sale, ledger, n);
    RemaindersOwed(sale, ledger, n);
  }

  /** The request for everything still out, through one tender. */
  function AllTheRest(sale: SaleEvidence, ledger: Ledger, m: Method, reference: string): Request {
    var rest := RestOf(sale, ledger, |sale.lines|);
    var due := Sum(Differences(sale, ledger, rest));
    Request(rest, if due == 0 then None else Some(m), reference, due)
  }

  /** The whole sale was paid with one tender. */
  ghost predicate PaidWith(sale: SaleEvidence, m: Method) {
    sale.netPaidByMethod.Get(m) == sale.total
  }

  lemma OneTenderRefunded(sale: SaleEvidence, ledger: Ledger, m: Method)
    requires PaidWith(sale, m) && sale.netPaidByMethod.NonNegative() && sale.netPaidByMethod.Total() == sale.total
    requires ledger.refundedByMethod.NonNegative() && ledger.refundedByMethod.Within(sale.netPaidByMethod)
    requires ledger.refundedByMethod.Total() == ledger.refundedTotal
    ensures ledger.refundedByMethod.Get(m) == ledger.refundedTotal
  {
  }

  lemma RestIsValid(sale: SaleEvidence, ledger: Ledger, m: Method, reference: string)
    requires LinesValid(sale) && SomethingOut(sale, ledger)
    ensures ValidRequest(AllTheRest(sale, ledger, m, reference))
  {
    RestShape(sale, ledger, |sale.lines|);
    var k :| 0 <= k < |sale.lines| && Prior(ledger.lines, k).returnedQty < sale.lines[k].soldQty;
    RestNames(sale, ledger, |sale.lines|, k);
  }

  lemma RestIsAccepted(sale: SaleEvidence, ledger: Ledger, m: Method, reference: string, returnId: string)
    requires ValidSale(sale) && Returnable(sale) && Sound(sale, ledger)
    requires OversellFree(sale) && PaidWith(sale, m) && (m == Cash || reference != "")
    requires SomethingOut(sale, ledger)
    ensures PlannedReturn(sale, ledger, AllTheRest(sale, ledger, m, reference), returnId).Ok?
  {
    var n, request := |sale.lines|, AllTheRest(sale, ledger, m, reference);
    RestIsValid(sale, ledger, m, reference);
    RestAcceptable(sale, ledger, n);
    RestRefunds(sale, ledger, n);
    assert Shares(sale.lines)[..n] == Shares(sale.lines);
    RefundedWithinPaid(sale, ledger.lines);
    OneTenderRefunded(sale, ledger, m);
    RequestAcceptedIff(sale, ledger, request, returnId);
  }

  lemma RestReturnsLine(sale: SaleEvidence, ledger: Ledger, m: Method, reference: string, returnId: string, k: nat)
    requires Returnable(sale) && Sound(sale, ledger) && ValidRequest(AllTheRest(sale, ledger, m, reference))
    requires PlannedReturn(sale, ledger, AllTheRest(sale, ledger, m, reference), returnId).Ok? && k < |sale.lines|
    ensures var next := PlannedReturn(sale, ledger, AllTheRest(sale, ledger, m, reference), returnId).value.nextLedger;
            Prior(next.lines, k).returnedQty >= sale.lines[k].soldQty
  {
    var request := AllTheRest(sale, ledger, m, reference);
    RestShape(sale, ledger, |sale.lines|);
    AcceptedMoves(sale, ledger, request, returnId, k, m);
    if StillOut(sale, ledger, k) > 0 {
      RestNames(sale, ledger, |sale.lines|, k);
      var i :| 0 <= i < |request.lines| && request.lines[i].lineIndex == k;
    } else {
      assert !Names(request.lines, k);
    }
  }

  lemma RestReturnsAll(sale: SaleEvidence, ledger: Ledger, m: Method, reference: string, returnId: string)
    requires Returnable(sale) && Sound(sale, ledger) && ValidRequest(AllTheRest(sale, ledger, m, reference))
    requires PlannedReturn(sale, ledger, AllTheRest(sale, ledger, m, reference), returnId).Ok?
    ensures var next := PlannedReturn(sale, ledger, AllTheRest(sale, ledger, m, reference), returnId).value.nextLedger;
            FullyReturned(sale, next)
  {
    var next := PlannedReturn(sale, ledger, AllTheRest(sale, ledger, m, reference), returnId).value.nextLedger;
    forall k | 0 <= k < |sale.lines|
      ensures Prior(next.lines, sale.lines[k].lineIndex).returnedQty >= sale.lines[k].soldQty
    {
      RestReturnsLine(sale, ledger, m, reference, returnId, k);
    }
  }

  lemma RestCompletes(sale: SaleEvidence, ledger: Ledger, m: Method, reference: string, returnId: string)
    requires ValidSale(sale) && Returnable(sale) && Sound(sale, ledger) && !FullyReturned(sale, ledger)
    requires OversellFree(sale) && PaidWith(sale, m) && (m == Cash || reference != "")
    ensures var request := AllTheRest(sale, ledger, m, reference);
            && ValidRequest(request) && PlannedReturn(sale, ledger, request, returnId).Ok?
            && FullyReturned(sale, PlannedReturn(sale, ledger, request, returnId).value.nextLedger)
  {
    NotFullyReturnedIff(sale, ledger);
    RestIsValid(sale, ledger, m, reference);
    RestIsAccepted(sale, ledger, m, reference, returnId);
    RestReturnsAll(sale, ledger, m, reference, returnId);
  }

  /**
    Progress: whatever has been returned so far, an oversell-free sale paid with one tender accepts the
    request for all the rest (a cash refund needs no reference), and is then fully returned.
   */
  lemma RestCanBeReturned(sale: SaleEvidence, run: seq<Attempt>, m: Method, reference: string, returnId: string)
    requires ValidSale(sale) && ValidRun(run) && OversellFree(sale) && PaidWith(sale, m)
    requires m == Cash || reference != ""
    ensures FactorsPositive(sale)
    ensures !FullyReturned(sale, Replay(sale, run)) ==>
              var a := Attempt(AllTheRest(sale, Replay(sale, run), m, reference), returnId);
              ValidRun(run + [a]) && FullyReturned(sale, Replay(sale, run + [a]))
  {
    ValidIsReturnable(sale);
    RunSound(sale, run);
    var ledger := Replay(sale, run);
    if !FullyReturned(sale, ledger) {
      RestCompletes(sale, ledger, m, reference, returnId);
      var a := Attempt(AllTheRest(sale, ledger, m, reference), returnId);
      assert (run + [a])[..|run|] == run;
    }
  }
}
