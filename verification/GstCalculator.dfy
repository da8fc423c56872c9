/** The GST calculator of backend/app/rules/gst_calculator.py. Inputs are exact amounts in rupees and exact percentages;
    results are paise. */
module GstCalculator {
  import opened Util

  datatype TransactionType = IntraState | InterState | Export | SezSupply | Exempt | NilRated

  datatype Error = NegativeTaxable | RateOutOfRange | NegativeCessRate | NoItems

  datatype Calculation = Calculation(transactionType: TransactionType, taxableValue: int, gstRate: real, cessRate: real, cgst: int,
                                     sgst: int, igst: int, cess: int, totalTax: int, grandTotal: int, warnings: nat)

  datatype Item = Item(taxableValue: real, gstRate: real, cessRate: real)

  /** quantize to two places, ROUND_HALF_UP: halves go away from zero. */
  function Round(rupees: real): int {
    if rupees >= 0.0 then (rupees * 100.0 + 0.5).Floor else -((-rupees * 100.0 + 0.5).Floor)
  }

  predicate IsZeroTax(t: TransactionType) { t != IntraState && t != InterState }

  function Calculate(taxable: real, rate: real, transactionType: TransactionType, cessRate: real): Result<Calculation, Error> {
    if taxable < 0.0 then Err(NegativeTaxable)
    else if rate < 0.0 || rate > 100.0 then Err(RateOutOfRange)
    else if cessRate < 0.0 then Err(NegativeCessRate)
    else if IsZeroTax(transactionType) then
      Ok(Filled(transactionType, taxable, rate, cessRate, 0, 0, 0, 0, if rate != 0.0 then 1 else 0))
    else if transactionType == IntraState then
      var half := rate / 2.0;
      Ok(Filled(transactionType, taxable, rate, cessRate, Round(taxable * half / 100.0), Round(taxable * half / 100.0), 0,
                Round(taxable * cessRate / 100.0), 0))
    else
      Ok(Filled(transactionType, taxable, rate, cessRate, 0, 0, Round(taxable * rate / 100.0), Round(taxable * cessRate / 100.0), 0))
  }

  function Filled(transactionType: TransactionType, taxable: real, rate: real, cessRate: real, cgst: int, sgst: int, igst: int,
                  cess: int, warnings: nat): Calculation {
    var totalTax := cgst + sgst + igst + cess;
    Calculation(transactionType, Round(taxable), rate, cessRate, cgst, sgst, igst, cess, totalTax, Round(taxable) + totalTax, warnings)
  }

  /** The first item that cannot be calculated stops the list. */
  function CalculateEach(items: seq<Item>, transactionType: TransactionType): Result<seq<Calculation>, Error> {
    if items == [] then Ok([])
    else
      match CalculateEach(items[..|items| - 1], transactionType)
      case Err(e) => Err(e)
      case Ok(before) =>
        var item := items[|items| - 1];
        match Calculate(item.taxableValue, item.gstRate, transactionType, item.cessRate)
        case Err(e) => Err(e)
        case Ok(r) => Ok(before + [r])
  }

  function TaxableOf(): Calculation -> int { (r: Calculation) => r.taxableValue }
  function CgstOf(): Calculation -> int { (r: Calculation) => r.cgst }
  function SgstOf(): Calculation -> int { (r: Calculation) => r.sgst }
  function IgstOf(): Calculation -> int { (r: Calculation) => r.igst }
  function CessOf(): Calculation -> int { (r: Calculation) => r.cess }
  function TotalTaxOf(): Calculation -> int { (r: Calculation) => r.totalTax }
  function GrandTotalOf(): Calculation -> int { (r: Calculation) => r.grandTotal }

  function Summed(results: seq<Calculation>, transactionType: TransactionType): Calculation {
    Calculation(transactionType, SumBy(results, TaxableOf()), 0.0, 0.0, SumBy(results, CgstOf()), SumBy(results, SgstOf()),
                SumBy(results, IgstOf()), SumBy(results, CessOf()), SumBy(results, TotalTaxOf()), SumBy(results, GrandTotalOf()),
                CountWarnings(results))
  }

  function CountWarnings(results: seq<Calculation>): nat {
    if results == [] then 0 else CountWarnings(results[..|results| - 1]) + results[|results| - 1].warnings
  }

  function CalculateLineItems(items: seq<Item>, transactionType: TransactionType): Result<(seq<Calculation>, Calculation), Error> {
    if items == [] then Err(NoItems)
    else
      match CalculateEach(items, transactionType)
      case Err(e) => Err(e)
      case Ok(results) => Ok((results, Summed(results, transactionType)))
  }

  // -------------------------------------------------------- rounding bounds

  /** Rounding moves an amount by at most half a paisa. */
  lemma RoundError(rupees: real)
    ensures rupees * 100.0 - 0.5 <= Round(rupees) as real <= rupees * 100.0 + 0.5
  {
  }

  /** Amounts at most d paise apart round to at most d + 1 paise apart. */
  lemma RoundsClose(a: real, b: real, d: real)
    requires -d <= (a - b) * 100.0 <= d
    ensures -(d + 1.0) <= (Round(a) - Round(b)) as real <= d + 1.0
  {
    RoundError(a);
    RoundError(b);
  }

  /** A whole amount of paise is not changed by rounding. */
  lemma RoundOfPaise(paise: int)
    ensures Round(paise as real / 100.0) == paise
  {
    assert paise as real / 100.0 * 100.0 == paise as real;
    assert -(paise as real / 100.0) * 100.0 == (-paise) as real;
  }

  /** For the same value and rate, CGST and SGST together differ from IGST by at most one paisa, and not always by none. */
  lemma HalvesAndWhole(taxable: real, rate: real, cessRate: real)
    requires Calculate(taxable, rate, IntraState, cessRate).Ok?
    ensures Calculate(taxable, rate, InterState, cessRate).Ok?
    ensures var intra, inter := Calculate(taxable, rate, IntraState, cessRate).value, Calculate(taxable, rate, InterState, cessRate).value;
            && -1 <= intra.cgst + intra.sgst - inter.igst <= 1
            && intra.cgst == intra.sgst && intra.cess == inter.cess && intra.taxableValue == inter.taxableValue
  {
    var half, whole := taxable * (rate / 2.0) / 100.0, taxable * rate / 100.0;
    HalfOfProduct(taxable, rate);
    RoundError(half);
    RoundError(whole);
  }

  lemma HalfOfProduct(x: real, y: real)
    ensures x * (y / 2.0) / 100.0 == x * y / 100.0 / 2.0
  {
  }

  /** Exactly when they differ: with the exact tax between 2q and 2q + 2 paise, the two halves fall short by a paisa in
      its second quarter and exceed by one in its third. */
  lemma HalvesDifferWhen(taxable: real, rate: real, cessRate: real, q: nat)
    requires Calculate(taxable, rate, IntraState, cessRate).Ok? && Calculate(taxable, rate, InterState, cessRate).Ok?
    requires 2.0 * q as real <= taxable * rate < 2.0 * q as real + 2.0
    ensures var intra, inter := Calculate(taxable, rate, IntraState, cessRate).value, Calculate(taxable, rate, InterState, cessRate).value;
            var over := taxable * rate - 2.0 * q as real;
            intra.cgst + intra.sgst - inter.igst == if 0.5 <= over < 1.0 then -1 else if 1.0 <= over < 1.5 then 1 else 0
  {
    var half, whole := taxable * (rate / 2.0) / 100.0, taxable * rate / 100.0;
    HalfOfProduct(taxable, rate);
    var over := whole * 100.0 - 2.0 * q as real;
    RoundIs(half, if over < 1.0 then q else q + 1);
    RoundIs(whole, if over < 0.5 then 2 * q else if over < 1.5 then 2 * q + 1 else 2 * q + 2);
  }

  lemma RoundIs(rupees: real, paise: nat)
    requires rupees >= 0.0 && paise as real <= rupees * 100.0 + 0.5 < paise as real + 1.0
    ensures Round(rupees) == paise
  {
  }

  // ------------------------------------------------------------- line items

  /** The line results one by one. */
  lemma {:induction false} EachLine(items: seq<Item>, transactionType: TransactionType, i: nat)
    requires CalculateEach(items, transactionType).Ok? && i < |items|
    ensures |CalculateEach(items, transactionType).value| == |items|
    ensures Calculate(items[i].taxableValue, items[i].gstRate, transactionType, items[i].cessRate) ==
            Ok(CalculateEach(items, transactionType).value[i])
  {
    var n := |items| - 1;
    ResultsLength(items[..n], transactionType);
    if i < n {
      EachLine(items[..n], transactionType, i);
    }
  }

  /** What a line says of its input: value and cess are off by at most half a paisa, a zero-rated kind owes nothing at
      all, and is warned about exactly when a rate was given with it. */
  lemma LineMeaning(taxable: real, rate: real, transactionType: TransactionType, cessRate: real)
    requires Calculate(taxable, rate, transactionType, cessRate).Ok?
    ensures var r := Calculate(taxable, rate, transactionType, cessRate).value;
            && AddsUp(r) && -0.5 <= r.taxableValue as real - taxable * 100.0 <= 0.5
            && (IsZeroTax(transactionType) ==> r.totalTax == 0)
            && (!IsZeroTax(transactionType) ==> -0.5 <= r.cess as real - taxable * cessRate <= 0.5)
            && (r.warnings > 0 <==> IsZeroTax(transactionType) && rate != 0.0)
  {
    RoundError(taxable);
    RoundError(taxable * cessRate / 100.0);
  }

  /** Which tax a line carries, component by component: none for the four kinds that are not taxed, IGST alone across
      states, equal CGST and SGST within one; each of them off by at most half a paisa. */
  lemma LineComponents(taxable: real, rate: real, transactionType: TransactionType, cessRate: real)
    requires Calculate(taxable, rate, transactionType, cessRate).Ok?
    ensures var r := Calculate(taxable, rate, transactionType, cessRate).value;
            && (transactionType in {Export, SezSupply, Exempt, NilRated} ==> r.cgst == 0 && r.sgst == 0 && r.igst == 0 && r.cess == 0)
            && (transactionType == InterState ==>
                  r.cgst == 0 && r.sgst == 0 && -0.5 <= r.igst as real - taxable * rate <= 0.5)
            && (transactionType == IntraState ==>
                  r.igst == 0 && r.cgst == r.sgst && -0.5 <= r.cgst as real - taxable * rate / 2.0 <= 0.5)
            && r.transactionType == transactionType && r.gstRate == rate && r.cessRate == cessRate
  {
    HalfOfProduct(taxable, rate);
    RoundError(taxable * rate / 100.0);
    RoundError(taxable * (rate / 2.0) / 100.0);
  }

  /** What is calculated and what is not, and which of several complaints is made. */
  lemma Refusals(taxable: real, rate: real, transactionType: TransactionType, cessRate: real)
    ensures var r := Calculate(taxable, rate, transactionType, cessRate);
            && (r.Ok? <==> taxable >= 0.0 && 0.0 <= rate <= 100.0 && cessRate >= 0.0)
            && (r == Err(NegativeTaxable) <==> taxable < 0.0)
            && (r == Err(RateOutOfRange) <==> taxable >= 0.0 && !(0.0 <= rate <= 100.0))
            && (r == Err(NegativeCessRate) <==> taxable >= 0.0 && 0.0 <= rate <= 100.0 && cessRate < 0.0)
  {
  }

  /** A list is refused exactly when it is empty or one of its items is. */
  lemma {:induction false} RefusedItem(items: seq<Item>, transactionType: TransactionType)
    ensures CalculateEach(items, transactionType).Ok? <==>
            forall i :: 0 <= i < |items| ==>
              Calculate(items[i].taxableValue, items[i].gstRate, transactionType, items[i].cessRate).Ok?
  {
    if items != [] {
      RefusedItem(items[..|items| - 1], transactionType);
    }
  }

  /** Each line adds up, and so does the invoice: grand total is taxable value plus tax, and tax is its four components. */
  lemma TotalsAddUp(items: seq<Item>, transactionType: TransactionType)
    requires CalculateEach(items, transactionType).Ok?
    ensures forall i :: 0 <= i < |items| ==> i < |CalculateEach(items, transactionType).value| && AddsUp(CalculateEach(items, transactionType).value[i])
    ensures AddsUp(Summed(CalculateEach(items, transactionType).value, transactionType))
  {
    var results := CalculateEach(items, transactionType).value;
    ResultsLength(items, transactionType);
    forall i | 0 <= i < |items| ensures AddsUp(results[i]) {
      EachLine(items, transactionType, i);
    }
    SumsAddUp(results, transactionType);
  }

  lemma {:induction false} ResultsLength(items: seq<Item>, transactionType: TransactionType)
    requires CalculateEach(items, transactionType).Ok?
    ensures |CalculateEach(items, transactionType).value| == |items|
  {
    if items != [] {
      ResultsLength(items[..|items| - 1], transactionType);
    }
  }

  lemma {:induction false} SumsAddUp(results: seq<Calculation>, transactionType: TransactionType)
    requires forall i :: 0 <= i < |results| ==> AddsUp(results[i])
    ensures AddsUp(Summed(results, transactionType))
  {
    if results != [] {
      assert AddsUp(results[|results| - 1]);
      SumsAddUp(results[..|results| - 1], transactionType);
    }
  }

  /** The invoice total is each column's sum over the lines. */
  lemma TotalsByColumn(results: seq<Calculation>, transactionType: TransactionType)
    ensures var total := Summed(results, transactionType);
            && total.taxableValue == SumBy(results, (r: Calculation) => r.taxableValue)
            && total.cgst == SumBy(results, (r: Calculation) => r.cgst)
            && total.sgst == SumBy(results, (r: Calculation) => r.sgst)
            && total.igst == SumBy(results, (r: Calculation) => r.igst)
            && total.cess == SumBy(results, (r: Calculation) => r.cess)
            && total.warnings == SumBy(results, (r: Calculation) => r.warnings)
            && total.transactionType == transactionType && total.gstRate == 0.0 && total.cessRate == 0.0
  {
    WarningsAdd(results, (r: Calculation) => r.warnings);
    SumCongruent(results, TaxableOf(), (r: Calculation) => r.taxableValue);
    SumCongruent(results, CgstOf(), (r: Calculation) => r.cgst);
    SumCongruent(results, SgstOf(), (r: Calculation) => r.sgst);
    SumCongruent(results, IgstOf(), (r: Calculation) => r.igst);
    SumCongruent(results, CessOf(), (r: Calculation) => r.cess);
  }

  lemma {:induction false} WarningsAdd(results: seq<Calculation>, warnings: Calculation -> int)
    requires forall r :: warnings(r) == r.warnings
    ensures CountWarnings(results) == SumBy(results, warnings)
  {
    if results != [] {
      WarningsAdd(results[..|results| - 1], warnings);
    }
  }

  /** An invoice across states totals no CGST and SGST, one within a state no IGST and equal halves, and one of the kinds
      that are not taxed no tax at all. */
  lemma TotalComponents(items: seq<Item>, transactionType: TransactionType)
    requires CalculateEach(items, transactionType).Ok?
    ensures var total := Summed(CalculateEach(items, transactionType).value, transactionType);
            && (transactionType == InterState ==> total.cgst == 0 && total.sgst == 0 && total.totalTax == total.igst + total.cess)
            && (transactionType == IntraState ==> total.igst == 0 && total.cgst == total.sgst && total.totalTax == 2 * total.cgst + total.cess)
            && (transactionType in {Export, SezSupply, Exempt, NilRated} ==>
                  total.cgst == 0 && total.sgst == 0 && total.igst == 0 && total.cess == 0 && total.totalTax == 0)
  {
    var results := CalculateEach(items, transactionType).value;
    TotalsAddUp(items, transactionType);
    forall r | r in results ensures HasComponents(r, transactionType) {
      var i :| 0 <= i < |results| && results[i] == r;
      ResultsLength(items, transactionType);
      EachLine(items, transactionType, i);
      LineComponents(items[i].taxableValue, items[i].gstRate, transactionType, items[i].cessRate);
    }
    ComponentSums(results, transactionType);
  }

  predicate HasComponents(r: Calculation, transactionType: TransactionType) {
    match transactionType
    case InterState => r.cgst == 0 && r.sgst == 0
    case IntraState => r.igst == 0 && r.cgst == r.sgst
    case _ => r.cgst == 0 && r.sgst == 0 && r.igst == 0 && r.cess == 0
  }

  lemma ComponentSums(results: seq<Calculation>, transactionType: TransactionType)
    requires forall r :: r in results ==> HasComponents(r, transactionType)
    ensures HasComponents(Summed(results, transactionType), transactionType)
  {
    match transactionType
    case InterState =>
      SumZero(results, CgstOf());
      SumZero(results, SgstOf());
    case IntraState =>
      SumZero(results, IgstOf());
      SumCongruent(results, CgstOf(), SgstOf());
    case _ =>
      SumZero(results, CgstOf());
      SumZero(results, SgstOf());
      SumZero(results, IgstOf());
      SumZero(results, CessOf());
  }

  predicate AddsUp(r: Calculation) {
    r.grandTotal == r.taxableValue + r.totalTax && r.totalTax == r.cgst + r.sgst + r.igst + r.cess
  }

  /** The tax, in paise and before rounding, that the items owe: a rupee at one percent owes one paisa. */
  function ExactTax(items: seq<Item>): real {
    if items == [] then 0.0
    else ExactTax(items[..|items| - 1]) + items[|items| - 1].taxableValue * items[|items| - 1].gstRate
  }

  function TaxableSum(items: seq<Item>): real {
    if items == [] then 0.0 else TaxableSum(items[..|items| - 1]) + items[|items| - 1].taxableValue
  }

  /** At one rate the exact tax is the tax on the summed value. */
  lemma {:induction false} ExactTaxAtOneRate(items: seq<Item>, rate: real)
    requires forall i :: 0 <= i < |items| ==> items[i].gstRate == rate
    ensures ExactTax(items) == TaxableSum(items) * rate
  {
    if items != [] {
      ExactTaxAtOneRate(items[..|items| - 1], rate);
      assert items[|items| - 1].gstRate == rate;
    }
  }

  /** Largest drift of one line from its exact tax, in paise. */
  function LineDrift(transactionType: TransactionType): real { if transactionType == IntraState then 1.0 else 0.5 }

  lemma LineTaxError(taxable: real, rate: real, transactionType: TransactionType, cessRate: real)
    requires Calculate(taxable, rate, transactionType, cessRate).Ok? && !IsZeroTax(transactionType)
    ensures var r := Calculate(taxable, rate, transactionType, cessRate).value;
            -LineDrift(transactionType) <= (r.cgst + r.sgst + r.igst) as real - taxable * rate <= LineDrift(transactionType)
  {
    HalfOfProduct(taxable, rate);
    RoundError(taxable * rate / 100.0);
    RoundError(taxable * (rate / 2.0) / 100.0);
  }

  /** Rounding line by line, n lines drift from the exact tax by at most n/2 paise of IGST, or n paise of CGST and SGST. */
  lemma {:induction false} LinesTaxError(items: seq<Item>, transactionType: TransactionType)
    requires CalculateEach(items, transactionType).Ok? && !IsZeroTax(transactionType)
    ensures var total := Summed(CalculateEach(items, transactionType).value, transactionType);
            -(LineDrift(transactionType) * |items| as real) <= (total.cgst + total.sgst + total.igst) as real - ExactTax(items)
              <= LineDrift(transactionType) * |items| as real
  {
    if items != [] {
      var init, last := items[..|items| - 1], items[|items| - 1];
      var before := CalculateEach(init, transactionType).value;
      var results := CalculateEach(items, transactionType).value;
      LinesTaxError(init, transactionType);
      LineTaxError(last.taxableValue, last.gstRate, transactionType, last.cessRate);
      assert results[..|results| - 1] == before;
      OneMoreLine(LineDrift(transactionType), |init|);
    }
  }

  lemma OneMoreLine(d: real, n: nat)
    ensures d * (n + 1) as real == d * n as real + d
  {
  }
}
