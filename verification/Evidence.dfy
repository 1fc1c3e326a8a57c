/**
  Parsing one settled sale into exact evidence (`parseSaleEvidence`), from the point where the
  document is known to be settled and unvoided. A field that is not an exact satang, milli-unit or
  finite number arrives as `None`.
 */
module Evidence {
  import opened Wrappers
  import opened Arithmetic
  import opened Allocation
  import opened Sale
  import Lots

  datatype RawLot = RawLot(lotId: string, qty: Option<int>, cost: Option<real>)

  datatype RawLine = RawLine(
    productId: string,
    unitFactor: Option<Factor>,
    qty: Option<int>,
    qtyBase: Option<int>,
    unitPrice: Option<int>,
    lineTotal: Option<int>,
    lineDiscount: Option<int>,
    lotRefs: Option<seq<RawLot>>)

  datatype RawMethod = Money(tender: Method) | Credit | UnknownMethod

  datatype RawPayment = RawPayment(tender: RawMethod, amount: Option<int>)

  datatype RawOrder = RawOrder(
    subtotal: Option<int>,
    total: Option<int>,
    billDiscount: Option<int>,
    fee: Option<int>,
    change: Option<int>,
    canonicalTotal: Option<int>,
    payments: Option<seq<RawPayment>>,
    lines: Option<seq<RawLine>>)

  datatype Reason =
    | MoneyMalformed
    | MoneyInconsistent
    | PaymentsMalformed
    | CreditSaleUnsupported
    | PaidValueMismatch
    | LineMalformed
    | PrecisionUnsupported
    | LineEvidenceMissing
    | LotEvidenceMalformed
    | LotQtyMismatch

  predicate AtLeast(v: Option<int>, low: int) {
    v.Some? && low <= v.value
  }

  // --- lots ------------------------------------------------------------------------

  predicate LotAcceptable(r: RawLot) {
    r.lotId != "" && '/' !in r.lotId && AtLeast(r.qty, 1) && r.cost.Some? && r.cost.value >= 0.0
  }

  function LotOf(r: RawLot): Lots.Lot
    requires LotAcceptable(r)
  {
    Lots.Lot(r.lotId, r.qty.value, r.cost.value)
  }

  ghost predicate LotsFrom(refs: seq<RawLot>, lots: seq<Lots.Lot>) {
    && |lots| == |refs|
    && (forall i :: 0 <= i < |refs| ==> LotAcceptable(refs[i]) && lots[i] == LotOf(refs[i]))
  }

  method ParseLots(refs: seq<RawLot>) returns (r: Option<seq<Lots.Lot>>, total: int)
    ensures r.Some? <==> forall i :: 0 <= i < |refs| ==> LotAcceptable(refs[i])
    ensures r.Some? ==> LotsFrom(refs, r.value) && Lots.AllPositive(r.value) && total == Lots.Total(r.value)
  {
    var lots: seq<Lots.Lot> := [];
    total := 0;
    for i := 0 to |refs|
      invariant LotsFrom(refs[..i], lots) && Lots.AllPositive(lots)
      invariant total == Lots.Total(lots)
    {
      if !LotAcceptable(refs[i]) {
        return None, total;
      }
      var lot := LotOf(refs[i]);
      Lots.UnitsSnoc(lots + [lot], |lots|);
      assert (lots + [lot])[..|lots|] == lots && (lots + [lot])[..|lots| + 1] == lots + [lot];
      lots := lots + [lot];
      total := total + lot.qty;
    }
    assert refs[..|refs|] == refs;
    r := Some(lots);
  }

  // --- payments --------------------------------------------------------------------

  predicate PaymentAcceptable(p: RawPayment) {
    && AtLeast(p.amount, 0)
    && !p.tender.UnknownMethod?
    && (p.tender.Credit? ==> p.amount.value == 0)
  }

  /** Why a payment is refused: money on credit, or no tender and amount that can be read. */
  ghost predicate PaymentFault(p: RawPayment, reason: Reason) {
    && !PaymentAcceptable(p)
    && reason == if p.tender.Credit? && AtLeast(p.amount, 0) then CreditSaleUnsupported else PaymentsMalformed
  }

  /** Payment `i` is the first that is refused. */
  ghost predicate FirstPaymentFault(payments: seq<RawPayment>, i: nat, reason: Reason) {
    && i < |payments| && PaymentFault(payments[i], reason)
    && (forall j :: 0 <= j < i ==> PaymentAcceptable(payments[j]))
  }

  /** The amounts paid with one tender, payment by payment. */
  function AmountsOf(payments: seq<RawPayment>, m: Method): (r: seq<int>)
    ensures |r| == |payments|
  {
    seq(|payments|, i requires 0 <= i < |payments| =>
          if payments[i].tender == Money(m) && payments[i].amount.Some? then payments[i].amount.value else 0)
  }

  /** What each tender took in, before change. */
  function Collected(payments: seq<RawPayment>): Tender {
    Tender(Sum(AmountsOf(payments, Cash)), Sum(AmountsOf(payments, Qr)),
           Sum(AmountsOf(payments, Kbank)), Sum(AmountsOf(payments, Card)))
  }

  /** What each tender keeps: change is given in cash. */
  function Kept(payments: seq<RawPayment>, change: int): Tender {
    Tender(Sum(AmountsOf(payments, Cash)) - change, Sum(AmountsOf(payments, Qr)),
           Sum(AmountsOf(payments, Kbank)), Sum(AmountsOf(payments, Card)))
  }

  /** What was paid with a tender, less the change if it is cash. */
  ghost predicate PerTender(payments: seq<RawPayment>, change: int, netPaid: Tender) {
    forall m: Method ::
      netPaid.Get(m) ==
      Sum(seq(|payments|, i requires 0 <= i < |payments| =>
                if payments[i].tender == Money(m) && payments[i].amount.Some? then payments[i].amount.value else 0))
      - (if m == Cash then change else 0)
  }

  lemma KeptPerTender(payments: seq<RawPayment>, change: int)
    ensures PerTender(payments, change, Kept(payments, change))
  {
    forall m: Method
      ensures AmountsOf(payments, m) ==
              seq(|payments|, i requires 0 <= i < |payments| =>
                    if payments[i].tender == Money(m) && payments[i].amount.Some? then payments[i].amount.value else 0)
    {
    }
  }

  lemma AmountsSnoc(payments: seq<RawPayment>, i: nat, m: Method)
    requires i < |payments|
    ensures Sum(AmountsOf(payments[..i + 1], m)) == Sum(AmountsOf(payments[..i], m)) + AmountsOf(payments, m)[i]
  {
    var more := AmountsOf(payments[..i + 1], m);
    assert more[..i] == AmountsOf(payments[..i], m);
    assert more[i] == AmountsOf(payments, m)[i];
  }

  lemma CollectedSnoc(payments: seq<RawPayment>, i: nat)
    requires i < |payments| && PaymentAcceptable(payments[i])
    ensures Collected(payments[..i + 1]) ==
            if payments[i].tender.Credit? then Collected(payments[..i])
            else Collected(payments[..i]).Add(payments[i].tender.tender, payments[i].amount.value)
  {
    AmountsSnoc(payments, i, Cash);
    AmountsSnoc(payments, i, Qr);
    AmountsSnoc(payments, i, Kbank);
    AmountsSnoc(payments, i, Card);
  }

  method AddPayments(payments: seq<RawPayment>) returns (r: Result<Tender, Reason>)
    ensures r.Ok? <==> forall i :: 0 <= i < |payments| ==> PaymentAcceptable(payments[i])
    ensures r.Ok? ==> r.value == Collected(payments) && r.value.NonNegative()
    ensures r.Err? ==> exists i: nat :: FirstPaymentFault(payments, i, r.error)
  {
    var gross := NO_MONEY;
    for i := 0 to |payments|
      invariant forall j :: 0 <= j < i ==> PaymentAcceptable(payments[j])
      invariant gross == Collected(payments[..i]) && gross.NonNegative()
    {
      var p := payments[i];
      if !AtLeast(p.amount, 0) {
        assert FirstPaymentFault(payments, i, PaymentsMalformed);
        return Err(PaymentsMalformed);
      }
      if p.tender.Credit? {
        if p.amount.value > 0 {
          assert FirstPaymentFault(payments, i, CreditSaleUnsupported);
          return Err(CreditSaleUnsupported);
        }
      } else if p.tender.UnknownMethod? {
        assert FirstPaymentFault(payments, i, PaymentsMalformed);
        return Err(PaymentsMalformed);
      } else {
        gross := gross.Add(p.tender.tender, p.amount.value);
      }
      CollectedSnoc(payments, i);
    }
    assert payments[..|payments|] == payments;
    r := Ok(gross);
  }

  // --- lines -----------------------------------------------------------------------

  ghost predicate LineAcceptable(raw: RawLine) {
    && raw.productId != ""
    && raw.unitFactor.Some? && raw.unitFactor.value.Positive()
    && AtLeast(raw.qty, 1) && AtLeast(raw.qtyBase, 1)
    && ExactBase(raw.qty.value, raw.unitFactor.value) == raw.qtyBase
    && raw.unitPrice.Some? && raw.lineDiscount.Some? && AtLeast(raw.lineTotal, 0)
    && raw.lotRefs.Some? && raw.lotRefs.value != []
    && (forall i :: 0 <= i < |raw.lotRefs.value| ==> LotAcceptable(raw.lotRefs.value[i]))
    && (forall lots :: LotsFrom(raw.lotRefs.value, lots) ==> Lots.Total(lots) == raw.qtyBase.value)
  }

  /** The parsed line carries the document's own figures and lots; only the allocations are computed. */
  ghost predicate LineFrom(raw: RawLine, index: int, line: SaleLine) {
    && line.lineIndex == index
    && line.productId == raw.productId
    && raw.unitFactor == Some(line.unitFactor)
    && raw.qty == Some(line.soldQty)
    && raw.qtyBase == Some(line.soldQtyBase)
    && raw.lineTotal == Some(line.lineTotal)
    && raw.lotRefs.Some? && LotsFrom(raw.lotRefs.value, line.lots)
  }

  /** A line before allocation: its share is its own total. */
  ghost predicate Draft(line: SaleLine) {
    LineValid(line) && line.billDiscountAlloc == 0 && line.feeAlloc == 0
  }

  lemma LotsFromUnique(refs: seq<RawLot>, a: seq<Lots.Lot>, b: seq<Lots.Lot>)
    requires LotsFrom(refs, a) && LotsFrom(refs, b)
    ensures a == b
  {
  }

  ghost predicate Identified(raw: RawLine) {
    raw.productId != "" && raw.unitFactor.Some? && raw.unitFactor.value.Positive()
  }

  ghost predicate Counted(raw: RawLine)
    requires Identified(raw)
  {
    AtLeast(raw.qty, 1) && AtLeast(raw.qtyBase, 1) && ExactBase(raw.qty.value, raw.unitFactor.value) == raw.qtyBase
  }

  ghost predicate Priced(raw: RawLine) {
    raw.unitPrice.Some? && raw.lineDiscount.Some? && AtLeast(raw.lineTotal, 0)
  }

  /** Why a line is refused; each check speaks only once those before it pass. */
  ghost predicate LineFault(raw: RawLine, reason: Reason) {
    && !LineAcceptable(raw)
    && (!Identified(raw) ==> reason == LineMalformed)
    && (Identified(raw) && !Counted(raw) ==> reason == PrecisionUnsupported)
    && (Identified(raw) && Counted(raw) && !Priced(raw) ==> reason == LineMalformed)
    && (Identified(raw) && Counted(raw) && Priced(raw) ==>
          if raw.lotRefs.None? || raw.lotRefs.value == [] then reason == LineEvidenceMissing
          else if exists i :: 0 <= i < |raw.lotRefs.value| && !LotAcceptable(raw.lotRefs.value[i])
          then reason == LotEvidenceMalformed
          else reason == LotQtyMismatch)
  }

  ghost predicate FirstLineFault(raws: seq<RawLine>, i: nat, reason: Reason) {
    && i < |raws| && LineFault(raws[i], reason)
    && (forall j :: 0 <= j < i ==> LineAcceptable(raws[j]))
  }

  method ParseLine(raw: RawLine, index: nat) returns (r: Result<SaleLine, Reason>)
    ensures r.Ok? <==> LineAcceptable(raw)
    ensures r.Err? ==> LineFault(raw, r.error)
    ensures r.Ok? ==> Draft(r.value) && LineFrom(raw, index, r.value)
  {
    if raw.productId == "" { return Err(LineMalformed); }
    if raw.unitFactor.None? || !raw.unitFactor.value.Positive() { return Err(LineMalformed); }
    if !AtLeast(raw.qty, 1) || !AtLeast(raw.qtyBase, 1) { return Err(PrecisionUnsupported); }
    if ExactBase(raw.qty.value, raw.unitFactor.value) != raw.qtyBase { return Err(PrecisionUnsupported); }
    if raw.unitPrice.None? || raw.lineDiscount.None? || !AtLeast(raw.lineTotal, 0) { return Err(LineMalformed); }
    if raw.lotRefs.None? || raw.lotRefs.value == [] { return Err(LineEvidenceMissing); }
    var lots, total := ParseLots(raw.lotRefs.value);
    if lots.None? { return Err(LotEvidenceMalformed); }
    forall other | LotsFrom(raw.lotRefs.value, other) ensures other == lots.value {
      LotsFromUnique(raw.lotRefs.value, lots.value, other);
    }
    if total != raw.qtyBase.value { return Err(LotQtyMismatch); }
    return Ok(SaleLine(index, raw.productId, raw.unitFactor.value, raw.qty.value, raw.qtyBase.value,
                       raw.lineTotal.value, 0, 0, raw.lineTotal.value, lots.value));
  }

  method ParseLines(raws: seq<RawLine>) returns (r: Result<seq<SaleLine>, Reason>)
    ensures r.Ok? <==> forall i :: 0 <= i < |raws| ==> LineAcceptable(raws[i])
    ensures r.Err? ==> exists i: nat :: FirstLineFault(raws, i, r.error)
    ensures r.Ok? ==> |r.value| == |raws|
    ensures r.Ok? ==> forall i :: 0 <= i < |raws| ==> Draft(r.value[i]) && LineFrom(raws[i], i, r.value[i])
  {
    var drafts: seq<SaleLine> := [];
    for i := 0 to |raws|
      invariant |drafts| == i
      invariant forall j :: 0 <= j < i ==> LineAcceptable(raws[j])
      invariant forall j :: 0 <= j < i ==> Draft(drafts[j]) && LineFrom(raws[j], j, drafts[j])
    {
      var line := ParseLine(raws[i], i);
      if line.Err? {
        assert FirstLineFault(raws, i, line.error);
        return Err(line.error);
      }
      drafts := drafts + [line.value];
    }
    r := Ok(drafts);
  }

  function WithShares(line: SaleLine, discount: int, fee: int): SaleLine {
    line.(billDiscountAlloc := discount, feeAlloc := fee, refundableShare := line.lineTotal - discount + fee)
  }

  // --- the whole document --------------------------------------------------------------

  ghost predicate MoneyAcceptable(raw: RawOrder) {
    && AtLeast(raw.subtotal, 0) && AtLeast(raw.total, 0) && AtLeast(raw.billDiscount, 0)
    && AtLeast(raw.fee, 0) && AtLeast(raw.change, 0)
    && raw.subtotal.value - raw.billDiscount.value + raw.fee.value == raw.total.value
    && raw.billDiscount.value <= raw.subtotal.value
    && raw.canonicalTotal == raw.total
  }

  ghost predicate PaymentsAcceptable(raw: RawOrder)
    requires MoneyAcceptable(raw)
  {
    && raw.payments.Some?
    && (forall i :: 0 <= i < |raw.payments.value| ==> PaymentAcceptable(raw.payments.value[i]))
    && raw.change.value <= Sum(AmountsOf(raw.payments.value, Cash))
    && Collected(raw.payments.value).Total() - raw.change.value == raw.total.value
  }

  function RawTotals(raws: seq<RawLine>): (r: seq<int>)
    ensures |r| == |raws|
  {
    seq(|raws|, i requires 0 <= i < |raws| => if raws[i].lineTotal.Some? then raws[i].lineTotal.value else 0)
  }

  ghost predicate LinesAcceptable(raw: RawOrder)
    requires MoneyAcceptable(raw)
  {
    && raw.lines.Some? && raw.lines.value != []
    && (forall i :: 0 <= i < |raw.lines.value| ==> LineAcceptable(raw.lines.value[i]))
    && Sum(RawTotals(raw.lines.value)) == raw.subtotal.value
  }

  /** Why the payments are refused: the first bad one, else change beyond the cash or a sum that is not the total. */
  ghost predicate PaymentsFault(raw: RawOrder, reason: Reason)
    requires MoneyAcceptable(raw)
  {
    && !PaymentsAcceptable(raw)
    && (raw.payments.None? ==> reason == PaymentsMalformed)
    && (raw.payments.Some? && reason != PaidValueMismatch ==>
          exists i: nat :: FirstPaymentFault(raw.payments.value, i, reason))
    && (reason == PaidValueMismatch ==>
          && raw.payments.Some?
          && forall i :: 0 <= i < |raw.payments.value| ==> PaymentAcceptable(raw.payments.value[i]))
  }

  /** Why the lines are refused: none, the first bad one, else a sum that is not the subtotal. */
  ghost predicate LinesFault(raw: RawOrder, reason: Reason)
    requires MoneyAcceptable(raw)
  {
    && !LinesAcceptable(raw)
    && (raw.lines.None? || raw.lines.value == [] ==> reason == LineMalformed)
    && (raw.lines.Some? && raw.lines.value != [] && reason != MoneyInconsistent ==>
          exists i: nat :: FirstLineFault(raw.lines.value, i, reason))
    && (reason == MoneyInconsistent ==>
          && raw.lines.Some?
          && forall i :: 0 <= i < |raw.lines.value| ==> LineAcceptable(raw.lines.value[i]))
  }

  ghost predicate MoneyReadable(raw: RawOrder) {
    && AtLeast(raw.subtotal, 0) && AtLeast(raw.total, 0) && AtLeast(raw.billDiscount, 0)
    && AtLeast(raw.fee, 0) && AtLeast(raw.change, 0)
  }

  /** Money first, then payments, then lines. */
  ghost predicate Fault(raw: RawOrder, reason: Reason) {
    if !MoneyReadable(raw) then reason == MoneyMalformed
    else if !MoneyAcceptable(raw) then reason == MoneyInconsistent
    else if !PaymentsAcceptable(raw) then PaymentsFault(raw, reason)
    else LinesFault(raw, reason)
  }

  /** Which documents are evidence. */
  ghost predicate Acceptable(raw: RawOrder) {
    MoneyAcceptable(raw) && PaymentsAcceptable(raw) && LinesAcceptable(raw)
  }

  /** The document's lines, with discount and fee allocated over them. */
  ghost predicate SharedLines(raw: RawOrder, lines: seq<SaleLine>)
    requires MoneyAcceptable(raw) && LinesAcceptable(raw)
  {
    && |lines| == |raw.lines.value|
    && (forall i :: 0 <= i < |lines| ==> LineFrom(raw.lines.value[i], i, lines[i]))
    && (forall i :: 0 <= i < |lines| ==> lines[i].lineIndex == i && LineValid(lines[i]))
    && Sum(LineTotals(lines)) == raw.subtotal.value
    && Allocated(raw.billDiscount.value, LineTotals(lines), DiscountAllocs(lines))
    && Allocated(raw.fee.value, LineTotals(lines), FeeAllocs(lines))
  }

  /** The money totals, in the order they are checked. */
  function MoneyReject(raw: RawOrder): (reason: Option<Reason>)
    ensures reason.None? <==> MoneyAcceptable(raw)
    ensures reason.Some? ==> reason.value == if MoneyReadable(raw) then MoneyInconsistent else MoneyMalformed
  {
    if !AtLeast(raw.subtotal, 0) || !AtLeast(raw.total, 0) || !AtLeast(raw.billDiscount, 0) ||
       !AtLeast(raw.fee, 0) || !AtLeast(raw.change, 0) then Some(MoneyMalformed)
    else if raw.subtotal.value - raw.billDiscount.value + raw.fee.value != raw.total.value then Some(MoneyInconsistent)
    else if raw.billDiscount.value > raw.subtotal.value then Some(MoneyInconsistent)
    else if raw.canonicalTotal != raw.total then Some(MoneyInconsistent)
    else None
  }

  /** Tender split, cash net of change. */
  method NetPaid(raw: RawOrder) returns (r: Result<Tender, Reason>)
    requires MoneyAcceptable(raw)
    ensures r.Ok? <==> PaymentsAcceptable(raw)
    ensures r.Err? ==> PaymentsFault(raw, r.error)
    ensures r.Ok? ==> r.value == Kept(raw.payments.value, raw.change.value)
    ensures r.Ok? ==> r.value.NonNegative() && r.value.Total() == raw.total.value
  {
    if raw.payments.None? { return Err(PaymentsMalformed); }
    var gross := AddPayments(raw.payments.value);
    if gross.Err? { return Err(gross.error); }
    if raw.change.value > gross.value.cash { return Err(PaidValueMismatch); }
    var netPaid := gross.value.Add(Cash, -raw.change.value);
    if netPaid.Total() != raw.total.value { return Err(PaidValueMismatch); }
    r := Ok(netPaid);
  }

  method AddLineTotals(lines: seq<SaleLine>) returns (total: int)
    ensures total == Sum(LineTotals(lines))
  {
    total := 0;
    for i := 0 to |lines|
      invariant total == Sum(LineTotals(lines)[..i])
    {
      SumSnoc(LineTotals(lines), i);
      total := total + lines[i].lineTotal;
    }
    assert LineTotals(lines)[..|lines|] == LineTotals(lines);
  }

  function ApplyShares(drafts: seq<SaleLine>, discounts: seq<int>, fees: seq<int>): (lines: seq<SaleLine>)
    requires |drafts| == |discounts| == |fees|
    ensures |lines| == |drafts|
  {
    seq(|drafts|, i requires 0 <= i < |drafts| => WithShares(drafts[i], discounts[i], fees[i]))
  }

  lemma SharesApplied(drafts: seq<SaleLine>, discounts: seq<int>, fees: seq<int>)
    requires |drafts| == |discounts| == |fees|
    ensures LineTotals(ApplyShares(drafts, discounts, fees)) == LineTotals(drafts)
    ensures DiscountAllocs(ApplyShares(drafts, discounts, fees)) == discounts
    ensures FeeAllocs(ApplyShares(drafts, discounts, fees)) == fees
  {
  }

  ghost predicate Drafts(drafts: seq<SaleLine>) {
    forall i :: 0 <= i < |drafts| ==> drafts[i].lineIndex == i && Draft(drafts[i])
  }

  ghost predicate SharesGiven(drafts: seq<SaleLine>, lines: seq<SaleLine>) {
    exists discounts: seq<int>, fees: seq<int> ::
      |discounts| == |fees| == |drafts| && lines == ApplyShares(drafts, discounts, fees)
  }

  method AllocateShares(drafts: seq<SaleLine>, billDiscount: nat, fee: nat) returns (lines: seq<SaleLine>)
    requires Drafts(drafts)
    ensures SharesGiven(drafts, lines)
    ensures LineTotals(lines) == LineTotals(drafts)
    ensures Allocated(billDiscount, LineTotals(lines), DiscountAllocs(lines))
    ensures Allocated(fee, LineTotals(lines), FeeAllocs(lines))
  {
    var weights := LineTotals(drafts);
    SumNonNegative(weights);
    var discounts := AllocateProportional(billDiscount, weights);
    var fees := AllocateProportional(fee, weights);
    lines := ApplyShares(drafts, discounts, fees);
    SharesApplied(drafts, discounts, fees);
  }

  lemma DraftTotals(raws: seq<RawLine>, drafts: seq<SaleLine>)
    requires |drafts| == |raws| && Drafts(drafts)
    requires forall i :: 0 <= i < |raws| ==> LineAcceptable(raws[i]) && LineFrom(raws[i], i, drafts[i])
    ensures LineTotals(drafts) == RawTotals(raws)
  {
  }

  /** Lines, checked against the bill's subtotal. */
  method ParseDrafts(raw: RawOrder) returns (r: Result<seq<SaleLine>, Reason>)
    requires MoneyAcceptable(raw)
    ensures r.Ok? <==> LinesAcceptable(raw)
    ensures r.Err? ==> LinesFault(raw, r.error)
    ensures r.Ok? ==> Drafts(r.value) && |r.value| == |raw.lines.value|
    ensures r.Ok? ==> Sum(LineTotals(r.value)) == raw.subtotal.value
    ensures r.Ok? ==> forall i :: 0 <= i < |r.value| ==> LineFrom(raw.lines.value[i], i, r.value[i])
  {
    if raw.lines.None? || raw.lines.value == [] { return Err(LineMalformed); }
    var drafts := ParseLines(raw.lines.value);
    if drafts.Err? { return Err(drafts.error); }
    var linesTotal := AddLineTotals(drafts.value);
    DraftTotals(raw.lines.value, drafts.value);
    if linesTotal != raw.subtotal.value { return Err(MoneyInconsistent); }
    return drafts;
  }

  lemma SharesOfDrafts(raw: RawOrder, drafts: seq<SaleLine>, lines: seq<SaleLine>)
    requires MoneyAcceptable(raw) && LinesAcceptable(raw) && Drafts(drafts) && |drafts| == |raw.lines.value|
    requires Sum(LineTotals(drafts)) == raw.subtotal.value && LineTotals(lines) == LineTotals(drafts)
    requires forall i :: 0 <= i < |drafts| ==> LineFrom(raw.lines.value[i], i, drafts[i])
    requires SharesGiven(drafts, lines)
    requires Allocated(raw.billDiscount.value, LineTotals(lines), DiscountAllocs(lines))
    requires Allocated(raw.fee.value, LineTotals(lines), FeeAllocs(lines))
    ensures SharedLines(raw, lines)
  {
    var discounts: seq<int>, fees: seq<int> :|
      |discounts| == |fees| == |drafts| && lines == ApplyShares(drafts, discounts, fees);
    forall i | 0 <= i < |lines|
      ensures lines[i].lineIndex == i && LineValid(lines[i]) && LineFrom(raw.lines.value[i], i, lines[i])
    {
      assert lines[i] == WithShares(drafts[i], discounts[i], fees[i]);
    }
  }

  /** Lines with their shares of the bill's discount and fee. */
  method ParseSharedLines(raw: RawOrder) returns (r: Result<seq<SaleLine>, Reason>)
    requires MoneyAcceptable(raw)
    ensures r.Ok? <==> LinesAcceptable(raw)
    ensures r.Err? ==> LinesFault(raw, r.error)
    ensures r.Ok? ==> SharedLines(raw, r.value)
  {
    var drafts := ParseDrafts(raw);
    if drafts.Err? { return drafts; }
    var lines := AllocateShares(drafts.value, raw.billDiscount.value, raw.fee.value);
    SharesOfDrafts(raw, drafts.value, lines);
    return Ok(lines);
  }

  /** Accepts exactly the documents that are evidence, and what it returns is valid and the document's own. */
  method ParseSaleEvidence(raw: RawOrder) returns (r: Result<SaleEvidence, Reason>)
    ensures r.Ok? <==> Acceptable(raw)
    ensures r.Err? ==> Fault(raw, r.error)
    ensures r.Ok? ==> ValidSale(r.value)
    ensures r.Ok? ==> |r.value.lines| == |raw.lines.value| && raw.total == Some(r.value.total)
    ensures r.Ok? ==> forall i :: 0 <= i < |raw.lines.value| ==> LineFrom(raw.lines.value[i], i, r.value.lines[i])
    ensures r.Ok? ==> r.value.netPaidByMethod == Kept(raw.payments.value, raw.change.value)
    ensures r.Ok? ==> PerTender(raw.payments.value, raw.change.value, r.value.netPaidByMethod)
    ensures r.Ok? ==> raw.subtotal == Some(r.value.subtotal)
    ensures r.Ok? ==> raw.billDiscount == Some(r.value.billDiscount) && raw.fee == Some(r.value.fee)
  {
    var money := MoneyReject(raw);
    if money.Some? { return Err(money.value); }
    var netPaid := NetPaid(raw);
    if netPaid.Err? { return Err(netPaid.error); }
    var lines := ParseSharedLines(raw);
    if lines.Err? { return Err(lines.error); }
    KeptPerTender(raw.payments.value, raw.change.value);
    return Ok(SaleEvidence(raw.subtotal.value, raw.billDiscount.value, raw.fee.value, raw.total.value, netPaid.value,
                           lines.value));
  }
}
