/**
  The per-sale return ledger and the return planner (`ledgerConsistentWithSale`, `isFullyReturned`,
  `planSaleReturn`). A run is any sequence of requests against one sale; a rejected request leaves
  the ledger as it was.
 */
module Returns {
  import opened Wrappers
  import opened Arithmetic
  import opened Sale
  import Refund
  import Lots

  // --- ledger ----------------------------------------------------------------

  datatype LedgerLine = LedgerLine(returnedQty: int, returnedQtyBase: int, refunded: int)

  datatype Ledger = Ledger(
    returnCount: int,
    refundedTotal: int,
    refundedByMethod: Tender,
    lines: map<int, LedgerLine>,
    acceptedReturnIds: seq<string>)

  const EMPTY_LEDGER := Ledger(0, 0, NO_MONEY, map[], [])

  const UNTOUCHED := LedgerLine(0, 0, 0)

  function Prior(lines: map<int, LedgerLine>, k: int): LedgerLine {
    if k in lines then lines[k] else UNTOUCHED
  }

  function QtyOf(l: LedgerLine): int { l.returnedQty }

  function RefundOf(l: LedgerLine): int { l.refunded }

  /** Sum of one field over the entries with index below `n`. */
  function Tally(lines: map<int, LedgerLine>, n: nat, field: LedgerLine -> int): int {
    if n == 0 then 0 else Tally(lines, n - 1, field) + if n - 1 in lines then field(lines[n - 1]) else 0
  }

  lemma {:induction false} TallyUpdate(lines: map<int, LedgerLine>, n: nat, field: LedgerLine -> int, k: nat,
                                       l: LedgerLine)
    ensures Tally(lines[k := l], n, field) ==
            Tally(lines, n, field) + if k < n then field(l) - (if k in lines then field(lines[k]) else 0) else 0
  {
    if n > 0 {
      TallyUpdate(lines, n - 1, field, k, l);
    }
  }

  function ExpectedBase(line: SaleLine, qty: int): Option<int>
    requires line.unitFactor.Positive()
  {
    if qty == line.soldQty then Some(line.soldQtyBase) else ExactBase(qty, line.unitFactor)
  }

  predicate EntryConsistent(line: SaleLine, l: LedgerLine)
    requires line.unitFactor.Positive()
  {
    && l.returnedQty <= line.soldQty
    && l.returnedQtyBase <= line.soldQtyBase
    && ExpectedBase(line, l.returnedQty) == Some(l.returnedQtyBase)
    && l.refunded == Refund.Cumulative(line.refundableShare, line.soldQty, l.returnedQty)
  }

  /** What the code checks of a stored ledger before it trusts it. */
  ghost predicate Consistent(sale: SaleEvidence, ledger: Ledger)
    requires LinesValid(sale)
  {
    && 1 <= ledger.returnCount
    && (forall k :: k in ledger.lines ==> 0 <= k < |sale.lines| && EntryConsistent(sale.lines[k], ledger.lines[k]))
    && Tally(ledger.lines, |sale.lines|, RefundOf) == ledger.refundedTotal
    && ledger.refundedByMethod.Total() == ledger.refundedTotal
    && ledger.refundedTotal <= sale.total
    && ledger.refundedByMethod.Within(sale.netPaidByMethod)
    && ledger.returnCount <= Tally(ledger.lines, |sale.lines|, QtyOf)
  }

  method LedgerConsistentWithSale(sale: SaleEvidence, ledger: Ledger) returns (ok: bool)
    requires LinesValid(sale)
    ensures ok <==> Consistent(sale, ledger)
  {
    if ledger.returnCount < 1 {
      return false;
    }
    var refunded, returned := 0, 0;
    var pending := ledger.lines.Keys;
    ghost var done: map<int, LedgerLine> := map[];
    TallyEmpty(|sale.lines|);
    while pending != {}
      invariant pending <= ledger.lines.Keys
      invariant done == map k | k in ledger.lines && k !in pending :: ledger.lines[k]
      invariant forall k :: k in done ==> 0 <= k < |sale.lines| && EntryConsistent(sale.lines[k], done[k])
      invariant refunded == Tally(done, |sale.lines|, RefundOf)
      invariant returned == Tally(done, |sale.lines|, QtyOf)
      decreases pending
    {
      SomeElement(pending);
      var k :| k in pending;
      if k < 0 || |sale.lines| <= k {
        return false;
      }
      var l, line := ledger.lines[k], sale.lines[k];
      if l.returnedQty > line.soldQty { return false; }
      if l.returnedQtyBase > line.soldQtyBase { return false; }
      var expected := ExpectedBase(line, l.returnedQty);
      if expected == None || expected.value != l.returnedQtyBase { return false; }
      if l.refunded != Refund.Cumulative(line.refundableShare, line.soldQty, l.returnedQty) { return false; }
      TallyUpdate(done, |sale.lines|, RefundOf, k, l);
      TallyUpdate(done, |sale.lines|, QtyOf, k, l);
      refunded, returned := refunded + l.refunded, returned + l.returnedQty;
      pending, done := pending - {k}, done[k := l];
    }
    assert done == ledger.lines;
    if refunded != ledger.refundedTotal { return false; }
    if ledger.refundedByMethod.Total() != ledger.refundedTotal { return false; }
    if ledger.refundedTotal > sale.total { return false; }
    var spent, paid := ledger.refundedByMethod, sale.netPaidByMethod;
    if spent.cash > paid.cash || spent.qr > paid.qr || spent.kbank > paid.kbank || spent.card > paid.card {
      return false;
    }
    if returned < ledger.returnCount { return false; }
    return true;
  }

  lemma SomeElement(s: set<int>)
    ensures s == {} || exists k :: k in s
  {
    if !exists k :: k in s {
      assert s == {};
    }
  }

  lemma {:induction false} TallyEmpty(n: nat)
    ensures Tally(map[], n, RefundOf) == 0 && Tally(map[], n, QtyOf) == 0
  {
    if n > 0 { TallyEmpty(n - 1); }
  }

  predicate FullyReturned(sale: SaleEvidence, ledger: Ledger) {
    forall i :: 0 <= i < |sale.lines| ==>
      Prior(ledger.lines, sale.lines[i].lineIndex).returnedQty >= sale.lines[i].soldQty
  }

  // --- planner ---------------------------------------------------------------

  datatype Code =
    | InvalidRequest
    | ReturnNotEligible
    | UnsupportedEvidence
    | OverReturn
    | RefundMismatch
    | MethodNotAllowed
    | CapExceeded
    | ReferenceRequired
    | OversellUnsupported

  datatype RequestLine = RequestLine(lineIndex: int, productId: string, qty: int)

  /** `refundMethod` is `None` for the tender spelled 'none'. */
  datatype Request = Request(
    lines: seq<RequestLine>,
    refundMethod: Option<Method>,
    refundReference: string,
    expectedRefund: int)

  /** What request validation has already established: some lines, each named once. */
  ghost predicate ValidRequest(request: Request) {
    && request.lines != []
    && (forall i, j :: 0 <= i < j < |request.lines| ==> request.lines[i].lineIndex != request.lines[j].lineIndex)
  }

  datatype PlannedLine = PlannedLine(
    lineIndex: nat,
    previouslyReturnedQty: int,
    returnQty: int,
    returnQtyBase: int,
    refund: int,
    lineRevenue: int,
    portions: seq<Lots.Portion>)

  datatype Plan = Plan(lines: seq<PlannedLine>, refund: int, lineRevenue: int, nextLedger: Ledger)

  function PlanLine(line: SaleLine, prior: LedgerLine, req: RequestLine): Result<PlannedLine, Code>
    requires line.unitFactor.Positive()
  {
    if line.productId != req.productId || req.qty <= 0 then Err(InvalidRequest)
    else if prior.returnedQty + req.qty > line.soldQty then Err(OverReturn)
    else
      var base := ExactBase(req.qty, line.unitFactor);
      if base == None || base.value <= 0 then Err(UnsupportedEvidence)
      else
        var remainingBase := line.soldQtyBase - prior.returnedQtyBase;
        var isFinal := prior.returnedQty + req.qty == line.soldQty;
        var qtyBase := if isFinal then remainingBase else base.value;
        if qtyBase <= 0 || qtyBase > remainingBase then Err(OverReturn)
        else
          var portions := Lots.Restoration(line.lots, prior.returnedQtyBase, qtyBase);
          if portions == None || portions.value == [] then Err(OverReturn)
          else if Lots.TouchesOversell(portions.value) then Err(OversellUnsupported)
          else Ok(PlannedLine(
                    line.lineIndex, prior.returnedQty, req.qty, qtyBase,
                    Refund.ForReturn(line.refundableShare, line.soldQty, prior.returnedQty, req.qty),
                    Refund.ForReturn(line.lineTotal, line.soldQty, prior.returnedQty, req.qty),
                    portions.value))
  }

  function PlanRequestLine(sale: SaleEvidence, ledger: Ledger, req: RequestLine): Result<PlannedLine, Code>
    requires FactorsPositive(sale)
  {
    if !(0 <= req.lineIndex < |sale.lines|) then Err(InvalidRequest)
    else PlanLine(sale.lines[req.lineIndex], Prior(ledger.lines, req.lineIndex), req)
  }

  /** The lines in request order; the first line that fails decides the code. */
  function PlanLines(sale: SaleEvidence, ledger: Ledger, reqs: seq<RequestLine>): (r: Result<seq<PlannedLine>, Code>)
    requires FactorsPositive(sale)
    ensures r.Ok? ==> |r.value| == |reqs|
  {
    if reqs == [] then Ok([])
    else
      var n := |reqs| - 1;
      match PlanLines(sale, ledger, reqs[..n])
      case Err(e) => Err(e)
      case Ok(planned) =>
        match PlanRequestLine(sale, ledger, reqs[n])
        case Err(e) => Err(e)
        case Ok(p) => Ok(planned + [p])
  }

  function RefundsOf(planned: seq<PlannedLine>): (r: seq<int>)
    ensures |r| == |planned|
  {
    seq(|planned|, i requires 0 <= i < |planned| => planned[i].refund)
  }

  function RevenuesOf(planned: seq<PlannedLine>): (r: seq<int>)
    ensures |r| == |planned|
  {
    seq(|planned|, i requires 0 <= i < |planned| => planned[i].lineRevenue)
  }

  function Advance(prior: LedgerLine, p: PlannedLine): LedgerLine {
    LedgerLine(prior.returnedQty + p.returnQty, prior.returnedQtyBase + p.returnQtyBase, prior.refunded + p.refund)
  }

  function ApplyPlanned(lines: map<int, LedgerLine>, planned: seq<PlannedLine>): map<int, LedgerLine> {
    if planned == [] then lines
    else
      var p := planned[|planned| - 1];
      var before := ApplyPlanned(lines, planned[..|planned| - 1]);
      before[p.lineIndex := Advance(Prior(before, p.lineIndex), p)]
  }

  /** The tender checks: which refund may go back through which tender. */
  function MethodReject(sale: SaleEvidence, ledger: Ledger, request: Request, refund: int): Option<Code> {
    if refund == 0 then
      if request.refundMethod != None then Some(MethodNotAllowed) else None
    else if request.refundMethod == None then Some(MethodNotAllowed)
    else
      var m := request.refundMethod.value;
      var paid := sale.netPaidByMethod.Get(m);
      if !(paid > 0) then Some(MethodNotAllowed)
      else if ledger.refundedByMethod.Get(m) + refund > paid then Some(CapExceeded)
      else if m != Cash && request.refundReference == "" then Some(ReferenceRequired)
      else None
  }

  function NextLedger(ledger: Ledger, request: Request, planned: seq<PlannedLine>, refund: int,
                      returnId: string): Ledger {
    Ledger(
      ledger.returnCount + 1,
      ledger.refundedTotal + refund,
      if request.refundMethod == None then ledger.refundedByMethod
      else ledger.refundedByMethod.Add(request.refundMethod.value, refund),
      ApplyPlanned(ledger.lines, planned),
      ledger.acceptedReturnIds + [returnId])
  }

  function PlannedReturn(sale: SaleEvidence, ledger: Ledger, request: Request, returnId: string): Result<Plan, Code>
    requires FactorsPositive(sale)
  {
    if FullyReturned(sale, ledger) then Err(ReturnNotEligible)
    else
      match PlanLines(sale, ledger, request.lines)
      case Err(e) => Err(e)
      case Ok(planned) =>
        var refund := Sum(RefundsOf(planned));
        if refund != request.expectedRefund then Err(RefundMismatch)
        else if ledger.refundedTotal + refund > sale.total then Err(CapExceeded)
        else
          match MethodReject(sale, ledger, request, refund)
          case Some(code) => Err(code)
          case None =>
            Ok(Plan(planned, refund, Sum(RevenuesOf(planned)), NextLedger(ledger, request, planned, refund, returnId)))
  }

  lemma {:induction false} FirstFailureDecides(sale: SaleEvidence, ledger: Ledger, reqs: seq<RequestLine>, i: nat,
                                               e: Code)
    requires FactorsPositive(sale) && i < |reqs|
    requires PlanLines(sale, ledger, reqs[..i]).Ok? && PlanRequestLine(sale, ledger, reqs[i]) == Err(e)
    ensures PlanLines(sale, ledger, reqs) == Err(e)
  {
    var n := |reqs| - 1;
    if i < n {
      assert reqs[..n][..i] == reqs[..i];
      FirstFailureDecides(sale, ledger, reqs[..n], i, e);
    }
  }

  lemma TotalsSnoc(planned: seq<PlannedLine>, p: PlannedLine)
    ensures Sum(RefundsOf(planned + [p])) == Sum(RefundsOf(planned)) + p.refund
    ensures Sum(RevenuesOf(planned + [p])) == Sum(RevenuesOf(planned)) + p.lineRevenue
  {
    assert RefundsOf(planned + [p])[..|planned|] == RefundsOf(planned);
    assert RevenuesOf(planned + [p])[..|planned|] == RevenuesOf(planned);
  }

  /** The planner's first loop, with the totals it accumulates; an early return on the first failure. */
  method PlanEachLine(sale: SaleEvidence, ledger: Ledger, reqs: seq<RequestLine>)
    returns (r: Result<seq<PlannedLine>, Code>, refund: int, revenue: int)
    requires FactorsPositive(sale)
    ensures r == PlanLines(sale, ledger, reqs)
    ensures r.Ok? ==> refund == Sum(RefundsOf(r.value)) && revenue == Sum(RevenuesOf(r.value))
  {
    var planned: seq<PlannedLine> := [];
    refund, revenue := 0, 0;
    for i := 0 to |reqs|
      invariant PlanLines(sale, ledger, reqs[..i]) == Ok(planned)
      invariant refund == Sum(RefundsOf(planned)) && revenue == Sum(RevenuesOf(planned))
    {
      var step := PlanRequestLine(sale, ledger, reqs[i]);
      if step.Err? {
        FirstFailureDecides(sale, ledger, reqs, i, step.error);
        return Err(step.error), refund, revenue;
      }
      assert reqs[..i + 1][..i] == reqs[..i];
      TotalsSnoc(planned, step.value);
      planned := planned + [step.value];
      refund, revenue := refund + step.value.refund, revenue + step.value.lineRevenue;
    }
    assert reqs[..|reqs|] == reqs;
    r := Ok(planned);
  }

  /** The planner's second loop: each planned line advances its entry of the copied map. */
  method AdvanceLines(lines: map<int, LedgerLine>, planned: seq<PlannedLine>) returns (next: map<int, LedgerLine>)
    ensures next == ApplyPlanned(lines, planned)
  {
    next := lines;
    for i := 0 to |planned|
      invariant next == ApplyPlanned(lines, planned[..i])
    {
      var p := planned[i];
      assert planned[..i + 1][..i] == planned[..i];
      next := next[p.lineIndex := Advance(Prior(next, p.lineIndex), p)];
    }
    assert planned[..|planned|] == planned;
  }

  method PlanSaleReturn(sale: SaleEvidence, ledger: Ledger, request: Request, returnId: string)
    returns (r: Result<Plan, Code>)
    requires FactorsPositive(sale)
    ensures r == PlannedReturn(sale, ledger, request, returnId)
  {
    if FullyReturned(sale, ledger) {
      return Err(ReturnNotEligible);
    }
    var planned, refund, revenue := PlanEachLine(sale, ledger, request.lines);
    if planned.Err? { return Err(planned.error); }
    if refund != request.expectedRefund { return Err(RefundMismatch); }
    if ledger.refundedTotal + refund > sale.total { return Err(CapExceeded); }
    var reject := MethodReject(sale, ledger, request, refund);
    if reject.Some? { return Err(reject.value); }
    var nextLines := AdvanceLines(ledger.lines, planned.value);
    var nextByMethod := ledger.refundedByMethod;
    if request.refundMethod.Some? {
      nextByMethod := nextByMethod.Add(request.refundMethod.value, refund);
    }
    return Ok(Plan(planned.value, refund, revenue,
                   Ledger(ledger.returnCount + 1, ledger.refundedTotal + refund, nextByMethod, nextLines,
                          ledger.acceptedReturnIds + [returnId])));
  }
}
