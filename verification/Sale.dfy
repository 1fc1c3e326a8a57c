/**
  Historical sale evidence (`SaleEvidence`) and the exact conversions it rests on. Money is integer
  satang, quantities are integer milli-units, a unit factor is an exact positive rational.
 */
module Sale {
  import opened Wrappers
  import opened Arithmetic
  import opened Allocation
  import Lots

  datatype Factor = Factor(num: nat, den: nat) {
    predicate Positive() { 0 < num && 0 < den }
  }

  /** Sale-unit milli-quantity times the factor, when that is a whole number of base milli-units. */
  function ExactBase(qty: int, f: Factor): Option<int>
    requires f.Positive()
  {
    if qty < 0 then None
    else if qty * f.num % f.den == 0 then Some(qty * f.num / f.den)
    else None
  }

  lemma ExactBaseMeaning(qty: int, f: Factor, base: int)
    requires f.Positive()
    ensures ExactBase(qty, f) == Some(base) <==> 0 <= qty && base * f.den == qty * f.num
  {
    if 0 <= qty {
      DivisionScaled(qty * f.num, f.den);
      if base * f.den == qty * f.num {
        DivisionUnique(f.den, base, 0, qty * f.num);
      }
    }
  }

  /** Exact conversions add up, so what is returned in pieces is what is returned at once. */
  lemma ExactBaseAdds(f: Factor, a: int, b: int, baseA: int)
    requires f.Positive() && 0 <= a && 0 <= b && ExactBase(a, f) == Some(baseA)
    ensures ExactBase(a + b, f).Some? <==> ExactBase(b, f).Some?
    ensures ExactBase(b, f).Some? ==> ExactBase(a + b, f).value == baseA + ExactBase(b, f).value
  {
    ExactBaseMeaning(a, f, baseA);
    assert (a + b) * f.num == a * f.num + b * f.num;
    if ExactBase(b, f).Some? {
      var baseB := ExactBase(b, f).value;
      ExactBaseMeaning(b, f, baseB);
      assert (baseA + baseB) * f.den == baseA * f.den + baseB * f.den;
      ExactBaseMeaning(a + b, f, baseA + baseB);
    }
    if ExactBase(a + b, f).Some? {
      var sum := ExactBase(a + b, f).value;
      ExactBaseMeaning(a + b, f, sum);
      assert (sum - baseA) * f.den == sum * f.den - baseA * f.den;
      ExactBaseMeaning(b, f, sum - baseA);
    }
  }

  lemma ExactBaseGrows(f: Factor, a: int, b: int)
    requires f.Positive() && 0 <= a < b && ExactBase(a, f).Some? && ExactBase(b, f).Some?
    ensures 0 <= ExactBase(a, f).value < ExactBase(b, f).value
  {
    var x, y := ExactBase(a, f).value, ExactBase(b, f).value;
    ExactBaseMeaning(a, f, x);
    ExactBaseMeaning(b, f, y);
    assert a * f.num < b * f.num;
    assert x >= y ==> x * f.den >= y * f.den;
    assert x < 0 ==> x * f.den < 0;
    assert 0 <= a * f.num;
  }

  datatype SaleLine = SaleLine(
    lineIndex: nat,
    productId: string,
    unitFactor: Factor,
    soldQty: int,
    soldQtyBase: int,
    lineTotal: int,
    billDiscountAlloc: int,
    feeAlloc: int,
    refundableShare: int,
    lots: seq<Lots.Lot>)

  datatype Method = Cash | Qr | Kbank | Card

  /** One amount per tender a refund can go back through. */
  datatype Tender = Tender(cash: int, qr: int, kbank: int, card: int) {
    function Get(m: Method): int {
      match m
      case Cash => cash
      case Qr => qr
      case Kbank => kbank
      case Card => card
    }

    function Add(m: Method, amount: int): Tender {
      match m
      case Cash => this.(cash := cash + amount)
      case Qr => this.(qr := qr + amount)
      case Kbank => this.(kbank := kbank + amount)
      case Card => this.(card := card + amount)
    }

    function Total(): int {
      cash + qr + kbank + card
    }

    predicate Within(cap: Tender) {
      cash <= cap.cash && qr <= cap.qr && kbank <= cap.kbank && card <= cap.card
    }

    predicate NonNegative() {
      0 <= cash && 0 <= qr && 0 <= kbank && 0 <= card
    }
  }

  const NO_MONEY := Tender(0, 0, 0, 0)

  datatype SaleEvidence = SaleEvidence(
    subtotal: int,
    billDiscount: int,
    fee: int,
    total: int,
    netPaidByMethod: Tender,
    lines: seq<SaleLine>)

  function LineTotals(lines: seq<SaleLine>): (r: seq<int>)
    ensures |r| == |lines|
  {
    seq(|lines|, i requires 0 <= i < |lines| => lines[i].lineTotal)
  }

  function Shares(lines: seq<SaleLine>): (r: seq<int>)
    ensures |r| == |lines|
  {
    seq(|lines|, i requires 0 <= i < |lines| => lines[i].refundableShare)
  }

  function DiscountAllocs(lines: seq<SaleLine>): (r: seq<int>)
    ensures |r| == |lines|
  {
    seq(|lines|, i requires 0 <= i < |lines| => lines[i].billDiscountAlloc)
  }

  function FeeAllocs(lines: seq<SaleLine>): (r: seq<int>)
    ensures |r| == |lines|
  {
    seq(|lines|, i requires 0 <= i < |lines| => lines[i].feeAlloc)
  }

  ghost predicate LineValid(line: SaleLine) {
    && line.unitFactor.Positive()
    && 0 < line.soldQty && 0 < line.soldQtyBase
    && ExactBase(line.soldQty, line.unitFactor) == Some(line.soldQtyBase)
    && 0 <= line.lineTotal
    && line.lots != [] && Lots.AllPositive(line.lots)
    && Lots.Total(line.lots) == line.soldQtyBase
    && line.refundableShare == line.lineTotal - line.billDiscountAlloc + line.feeAlloc
  }

  ghost predicate FactorsPositive(sale: SaleEvidence) {
    forall i :: 0 <= i < |sale.lines| ==> sale.lines[i].unitFactor.Positive()
  }

  /** What `allocateProportional` returns, as a relation. */
  ghost predicate Allocated(amount: int, weights: seq<int>, parts: seq<int>) {
    && 0 <= amount
    && |parts| == |weights|
    && (forall i :: 0 <= i < |weights| ==> 0 <= weights[i] && 0 <= parts[i])
    && if amount > 0 && Sum(weights) > 0 then LargestRemainder(amount, weights, parts)
       else forall i :: 0 <= i < |parts| ==> parts[i] == 0
  }

  ghost predicate LinesValid(sale: SaleEvidence) {
    && sale.lines != []
    && (forall i :: 0 <= i < |sale.lines| ==> sale.lines[i].lineIndex == i && LineValid(sale.lines[i]))
  }

  /** Evidence `parseSaleEvidence` lets through. */
  ghost predicate ValidSale(sale: SaleEvidence) {
    && LinesValid(sale)
    && Sum(LineTotals(sale.lines)) == sale.subtotal
    && 0 <= sale.billDiscount <= sale.subtotal
    && 0 <= sale.fee
    && sale.subtotal - sale.billDiscount + sale.fee == sale.total
    && Allocated(sale.billDiscount, LineTotals(sale.lines), DiscountAllocs(sale.lines))
    && Allocated(sale.fee, LineTotals(sale.lines), FeeAllocs(sale.lines))
    && sale.netPaidByMethod.NonNegative()
    && sale.netPaidByMethod.Total() == sale.total
  }

  lemma AllocatedSum(amount: int, weights: seq<int>, parts: seq<int>)
    requires Allocated(amount, weights, parts)
    ensures Sum(parts) == if Sum(weights) > 0 then amount else 0
    ensures amount <= Sum(weights) ==> forall i :: 0 <= i < |parts| ==> parts[i] <= weights[i]
  {
    SumNonNegative(weights);
    if amount > 0 && Sum(weights) > 0 {
      if amount <= Sum(weights) {
        forall i | 0 <= i < |parts| ensures parts[i] <= weights[i] {
          PartWithinWeight(amount, weights, parts, i);
        }
      }
    } else {
      SumScale(parts, 0, parts);
    }
  }

  /** No line is worth less than nothing after its share of the discount. */
  lemma ShareNonNegative(sale: SaleEvidence, i: nat)
    requires ValidSale(sale) && i < |sale.lines|
    ensures 0 <= sale.lines[i].refundableShare
  {
    var totals, discounts, fees := LineTotals(sale.lines), DiscountAllocs(sale.lines), FeeAllocs(sale.lines);
    AllocatedSum(sale.billDiscount, totals, discounts);
    assert discounts[i] <= totals[i] && 0 <= fees[i];
  }

  /**
    The shares never add up to more than was paid, and they add up to exactly what was paid except
    when a fee was charged on lines that are all free: nobody's share carries that fee.
   */
  lemma SharesSum(sale: SaleEvidence)
    requires ValidSale(sale)
    ensures 0 <= Sum(Shares(sale.lines)) <= sale.total
    ensures Sum(Shares(sale.lines)) == sale.total <==> sale.subtotal > 0 || sale.fee == 0
  {
    var totals, discounts, fees, shares :=
      LineTotals(sale.lines), DiscountAllocs(sale.lines), FeeAllocs(sale.lines), Shares(sale.lines);
    AllocatedSum(sale.billDiscount, totals, discounts);
    AllocatedSum(sale.fee, totals, fees);
    var gross := seq(|totals|, i requires 0 <= i < |totals| => shares[i] + discounts[i]);
    SumAdd(shares, discounts, gross);
    SumAdd(totals, fees, gross);
  }

  /** All that the return ledger needs of valid evidence (see `ValidIsReturnable`). */
  ghost predicate Returnable(sale: SaleEvidence) {
    && LinesValid(sale)
    && (forall i :: 0 <= i < |sale.lines| ==> 0 <= sale.lines[i].refundableShare)
    && Sum(Shares(sale.lines)) <= sale.total
    && sale.netPaidByMethod.NonNegative()
    && sale.netPaidByMethod.Total() == sale.total
  }

  lemma ValidIsReturnable(sale: SaleEvidence)
    requires ValidSale(sale)
    ensures Returnable(sale)
  {
    forall i | 0 <= i < |sale.lines| ensures 0 <= sale.lines[i].refundableShare {
      ShareNonNegative(sale, i);
    }
    SharesSum(sale);
  }
}
