/** Which answer a refused return request gets, on the request's, the sale's and the ledger's own figures. */
module ReturnRefusals {
  import opened Wrappers
  import opened Arithmetic
  import opened Sale
  import opened Returns
  import opened ReturnRuns
  import opened ReturnAcceptance
  import Lots

  /** The line does not exist, is of another product, or nothing of it is asked for. */
  ghost predicate Misnamed(sale: SaleEvidence, req: RequestLine) {
    || !(0 <= req.lineIndex < |sale.lines|)
    || req.productId != sale.lines[req.lineIndex].productId
    || req.qty <= 0
  }

  /** Why a line is refused: misnamed, more than is out, no exact base quantity, or into oversold units. */
  ghost predicate RefusedAs(sale: SaleEvidence, ledger: Ledger, req: RequestLine, code: Code)
    requires LinesValid(sale)
  {
    if Misnamed(sale, req) then code == InvalidRequest
    else
      var line, prior := sale.lines[req.lineIndex], Prior(ledger.lines, req.lineIndex);
      if req.qty > line.soldQty - prior.returnedQty then code == OverReturn
      else if ExactBase(req.qty, line.unitFactor).None? then code == UnsupportedEvidence
      else
        && code == OversellUnsupported
        && prior.returnedQtyBase + ExactBase(req.qty, line.unitFactor).value > Lots.OversellFreeEnd(line.lots)
  }

  lemma WithinRestores(line: SaleLine, prior: LedgerLine, req: RequestLine)
    requires LineValid(line) && EntrySound(line, prior) && line.productId == req.productId
    requires 0 < req.qty <= line.soldQty - prior.returnedQty && ExactBase(req.qty, line.unitFactor).Some?
    ensures PlanLine(line, prior, req).Err? ==> PlanLine(line, prior, req) == Err(OversellUnsupported)
  {
    AdvancedBase(line, prior, req.qty);
    var base := ExactBase(req.qty, line.unitFactor).value;
    Lots.RestorationIsSlice(line.lots, prior.returnedQtyBase, base);
    assert |Lots.PortionUnits(Lots.Restoration(line.lots, prior.returnedQtyBase, base).value)| == base;
  }

  lemma LineRefused(sale: SaleEvidence, ledger: Ledger, req: RequestLine)
    requires Returnable(sale) && LinesSound(sale, ledger.lines) && !LineAcceptable(sale, ledger, req)
    ensures PlanRequestLine(sale, ledger, req).Err?
    ensures RefusedAs(sale, ledger, req, PlanRequestLine(sale, ledger, req).error)
  {
    LinePlannedIff(sale, ledger, req);
    if !Misnamed(sale, req) {
      var line, prior := sale.lines[req.lineIndex], Prior(ledger.lines, req.lineIndex);
      UntouchedSound(line);
      if req.qty <= line.soldQty - prior.returnedQty && ExactBase(req.qty, line.unitFactor).Some? {
        WithinRestores(line, prior, req);
      }
    }
  }

  /** With something still out, the first line that cannot come back decides the answer. */
  lemma FirstBadLineAnswers(sale: SaleEvidence, ledger: Ledger, request: Request, returnId: string, i: nat)
    requires Returnable(sale) && Sound(sale, ledger) && SomethingOut(sale, ledger) && i < |request.lines|
    requires LinesAcceptable(sale, ledger, request.lines[..i]) && !LineAcceptable(sale, ledger, request.lines[i])
    ensures PlannedReturn(sale, ledger, request, returnId).Err?
    ensures RefusedAs(sale, ledger, request.lines[i], PlannedReturn(sale, ledger, request, returnId).error)
  {
    NotFullyReturnedIff(sale, ledger);
    LinesPlannedIff(sale, ledger, request.lines[..i]);
    LineRefused(sale, ledger, request.lines[i]);
    FirstFailureDecides(sale, ledger, request.lines, i, PlanRequestLine(sale, ledger, request.lines[i]).error);
  }

  lemma {:induction false} LinesCode(sale: SaleEvidence, ledger: Ledger, reqs: seq<RequestLine>)
    requires Returnable(sale) && LinesSound(sale, ledger.lines)
    ensures PlanLines(sale, ledger, reqs).Err? ==>
              PlanLines(sale, ledger, reqs).error in {InvalidRequest, OverReturn, UnsupportedEvidence,
                                                      OversellUnsupported}
  {
    if reqs != [] {
      var n := |reqs| - 1;
      LinesCode(sale, ledger, reqs[..n]);
      if !LineAcceptable(sale, ledger, reqs[n]) {
        LineRefused(sale, ledger, reqs[n]);
      } else {
        LinePlannedIff(sale, ledger, reqs[n]);
      }
    }
  }

  /** A sale with everything back, and no other, is not eligible. */
  lemma NotEligibleIff(sale: SaleEvidence, ledger: Ledger, request: Request, returnId: string)
    requires Returnable(sale) && Sound(sale, ledger)
    ensures PlannedReturn(sale, ledger, request, returnId) == Err(ReturnNotEligible) <==> !SomethingOut(sale, ledger)
  {
    NotFullyReturnedIff(sale, ledger);
    LinesCode(sale, ledger, request.lines);
  }

  /** Named for nothing, not named for something, or nothing was paid with it. */
  ghost predicate TenderNotAllowed(sale: SaleEvidence, request: Request, due: int) {
    if due == 0 then request.refundMethod.Some?
    else request.refundMethod.None? || sale.netPaidByMethod.Get(request.refundMethod.value) <= 0
  }

  /** The tender was used, but what is left of it is less than what is due. */
  ghost predicate TenderExceeded(sale: SaleEvidence, ledger: Ledger, request: Request, due: int) {
    && due != 0 && request.refundMethod.Some?
    && var m := request.refundMethod.value;
       0 < sale.netPaidByMethod.Get(m) < ledger.refundedByMethod.Get(m) + due
  }

  ghost predicate ReferenceMissing(request: Request, due: int) {
    due != 0 && request.refundMethod.Some? && request.refundMethod != Some(Cash) && request.refundReference == ""
  }

  /** The tender checks on their own. */
  lemma TenderAnswers(sale: SaleEvidence, ledger: Ledger, request: Request, due: int)
    ensures var reject := MethodReject(sale, ledger, request, due);
            && (reject == Some(MethodNotAllowed) <==> TenderNotAllowed(sale, request, due))
            && (reject == Some(CapExceeded) <==> TenderExceeded(sale, ledger, request, due))
            && (reject == Some(ReferenceRequired) <==>
                  && ReferenceMissing(request, due)
                  && !TenderNotAllowed(sale, request, due) && !TenderExceeded(sale, ledger, request, due))
            && (reject.Some? ==> reject.value in {MethodNotAllowed, CapExceeded, ReferenceRequired})
  {
  }

  /** With every line acceptable, the money decides: the sum expected, the tender, its cap, its reference, in turn. */
  lemma MoneyAnswers(sale: SaleEvidence, ledger: Ledger, request: Request, returnId: string)
    requires Returnable(sale) && Sound(sale, ledger) && ValidRequest(request) && SomethingOut(sale, ledger)
    requires LinesAcceptable(sale, ledger, request.lines)
    ensures var due := Sum(Differences(sale, ledger, request.lines));
            var answer := PlannedReturn(sale, ledger, request, returnId);
            && (answer == Err(RefundMismatch) <==> request.expectedRefund != due)
            && (answer == Err(MethodNotAllowed) <==>
                  request.expectedRefund == due && TenderNotAllowed(sale, request, due))
            && (answer == Err(CapExceeded) <==>
                  request.expectedRefund == due && TenderExceeded(sale, ledger, request, due))
            && (answer == Err(ReferenceRequired) <==>
                  && request.expectedRefund == due && ReferenceMissing(request, due)
                  && !TenderNotAllowed(sale, request, due) && !TenderExceeded(sale, ledger, request, due))
  {
    NotFullyReturnedIff(sale, ledger);
    LinesPlannedIff(sale, ledger, request.lines);
    TotalCapNeverFires(sale, ledger, request);
    TenderAnswers(sale, ledger, request, Sum(Differences(sale, ledger, request.lines)));
  }
}
