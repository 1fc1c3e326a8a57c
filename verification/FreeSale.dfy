/** The one sale in the smallest case where a full return does not refund what was paid. */
module FreeSale {
  import opened Wrappers
  import opened Arithmetic
  import opened Sale
  import opened Returns
  import opened ReturnRuns
  import Refund
  import Lots

  const LOT := Lots.Lot("a", 1, 1.0)
  const PORTION := Lots.Portion(0, "a", 1, 1.0)

  /** One line given away, one unit of one lot. */
  const LINE := SaleLine(0, "p", Factor(1, 1), 1, 1, 0, 0, 0, 0, [LOT])

  /** A fee of ten paid in cash. */
  const SALE := SaleEvidence(0, 0, 10, 10, Tender(10, 0, 0, 0), [LINE])

  const PLANNED := PlannedLine(0, 0, 1, 1, 0, 0, [PORTION])

  const ATTEMPT := Attempt(Request([RequestLine(0, "p", 1)], None, "", 0), "r")

  lemma OneUnit()
    ensures Lots.Total([LOT]) == 1
  {
    assert [LOT][1..] == [];
    assert Lots.Units([LOT]) == Lots.Copies(Lots.Unit("a", 1.0), 1) + Lots.Units([]);
  }

  lemma OnePortion()
    ensures Lots.Cut([LOT], 0, 0, 1, 0) == [PORTION]
  {
    assert [LOT][1..] == [];
    assert Lots.Cut([], 1, 0, 1, 1) == [];
    assert [PORTION] + [] == [PORTION];
  }

  lemma NotOversold()
    ensures !Lots.TouchesOversell([PORTION])
  {
    assert |"a"| != |Lots.OVERSELL_LOT_ID|;
    assert [PORTION][1..] == [] && !Lots.TouchesOversell([]);
  }

  lemma OneRestored()
    ensures Lots.Restoration([LOT], 0, 1) == Some([PORTION])
  {
    OneUnit();
    OnePortion();
  }

  /** What a final return of a whole line plans, given what it restores. */
  lemma WholeLinePlanned(line: SaleLine, req: RequestLine, portions: seq<Lots.Portion>)
    requires line.unitFactor.Positive() && req.productId == line.productId && 0 < req.qty == line.soldQty
    requires ExactBase(req.qty, line.unitFactor) == Some(line.soldQtyBase) && 0 < line.soldQtyBase
    requires Lots.Restoration(line.lots, 0, line.soldQtyBase) == Some(portions)
    requires portions != [] && !Lots.TouchesOversell(portions)
    ensures PlanLine(line, UNTOUCHED, req) ==
            Ok(PlannedLine(line.lineIndex, 0, req.qty, line.soldQtyBase,
                           Refund.ForReturn(line.refundableShare, line.soldQty, 0, req.qty),
                           Refund.ForReturn(line.lineTotal, line.soldQty, 0, req.qty), portions))
  {
  }

  lemma LinePlanned(req: RequestLine)
    requires req == RequestLine(0, "p", 1)
    ensures PlanLine(LINE, UNTOUCHED, req) == Ok(PLANNED)
  {
    OneRestored();
    NotOversold();
    WholeLinePlanned(LINE, req, [PORTION]);
  }

  lemma SaleValid()
    ensures ValidSale(SALE) && FactorsPositive(SALE)
  {
    OneUnit();
    assert LineValid(LINE);
    assert LineTotals([LINE]) == [0] && DiscountAllocs([LINE]) == [0] && FeeAllocs([LINE]) == [0];
    assert [0][..0] == [] && Sum([0]) == 0;
  }

  lemma LinesPlanned(reqs: seq<RequestLine>)
    requires reqs == [RequestLine(0, "p", 1)] && FactorsPositive(SALE)
    ensures PlanLines(SALE, EMPTY_LEDGER, reqs) == Ok([PLANNED])
  {
    LinePlanned(reqs[0]);
    assert reqs[..0] == [] && PlanLines(SALE, EMPTY_LEDGER, []) == Ok([]);
    assert PlanRequestLine(SALE, EMPTY_LEDGER, reqs[0]) == Ok(PLANNED);
    assert [] + [PLANNED] == [PLANNED];
  }

  lemma Applied()
    ensures ApplyPlanned(map[], [PLANNED]) == map[0 := LedgerLine(1, 1, 0)]
    ensures Sum(RefundsOf([PLANNED])) == 0
  {
    assert [PLANNED][..0] == [] && RefundsOf([PLANNED]) == [0] && [0][..0] == [];
    assert Sum([]) == 0;
  }

  lemma ReturnAccepted()
    requires FactorsPositive(SALE)
    ensures After(SALE, EMPTY_LEDGER, ATTEMPT).refundedTotal == 0
    ensures After(SALE, EMPTY_LEDGER, ATTEMPT).lines == map[0 := LedgerLine(1, 1, 0)]
  {
    LinesPlanned(ATTEMPT.request.lines);
    Applied();
    assert !FullyReturned(SALE, EMPTY_LEDGER) by {
      assert Prior(EMPTY_LEDGER.lines, SALE.lines[0].lineIndex) == UNTOUCHED;
    }
    assert MethodReject(SALE, EMPTY_LEDGER, ATTEMPT.request, 0) == None;
  }

  /** A zero subtotal with a fee: everything comes back and nothing is refunded, although ten was paid. */
  lemma FeeOfFreeSaleKept()
    ensures ValidSale(SALE) && ValidRun([ATTEMPT]) && FactorsPositive(SALE)
    ensures FullyReturned(SALE, Replay(SALE, [ATTEMPT]))
    ensures Replay(SALE, [ATTEMPT]).refundedTotal == 0 < SALE.total
  {
    SaleValid();
    ReturnAccepted();
    assert [ATTEMPT][..0] == [];
    assert Replay(SALE, [ATTEMPT]) == After(SALE, EMPTY_LEDGER, ATTEMPT);
  }
}
