/** What a validation report means, and that the calculator's own results always satisfy the validator. */
module ValidationLaws {
  import opened Util
  import opened Text
  import opened GstCalculator
  import opened InvoiceValidation
  import Gstin

  // ------------------------------------------------------------- the report

  lemma {:induction false} TaxIssuesEmpty(items: seq<LineItem>, scope: TransactionType)
    ensures TaxIssues(items, scope) == [] <==> forall i :: 0 <= i < |items| ==> LineTaxOk(items[i], scope)
  {
    if items != [] {
      TaxIssuesEmpty(items[..|items| - 1], scope);
    }
  }

  /** A rule is silent exactly when the invoice satisfies what it checks. */
  lemma RuleIsSilent(inv: Invoice, k: nat)
    ensures Findings(inv, k) == [] <==> RuleOk(inv, k)
  {
    if k == 8 && inv.scope.Some? {
      TaxIssuesEmpty(inv.items, inv.scope.value);
    }
    if k == 0 {
      OnlyGivenIsOk(inv.supplierGstin);
    }
    if k == 1 {
      OnlyGivenIsOk(inv.buyerGstin);
    }
  }

  lemma OnlyGivenIsOk(gstin: Option<string>)
    ensures GstinOk(gstin) ==> Given(gstin)
  {
  }

  lemma AllSilent(inv: Invoice, n: nat)
    ensures AllFindings(inv, n) == [] <==> FirstRulesOk(inv, n)
    ensures PassedRules(inv, n) <= n
    ensures PassedRules(inv, n) == n <==> FirstRulesOk(inv, n)
  {
    NothingFound(inv, n);
    AllPassed(inv, n);
  }

  lemma {:induction false} NothingFound(inv: Invoice, n: nat)
    ensures AllFindings(inv, n) == [] <==> FirstRulesOk(inv, n)
  {
    if n > 0 {
      NothingFound(inv, n - 1);
      RuleIsSilent(inv, n - 1);
      OneMoreOk(inv, n - 1);
    }
  }

  lemma {:induction false} AllPassed(inv: Invoice, n: nat)
    ensures PassedRules(inv, n) <= n
    ensures PassedRules(inv, n) == n <==> FirstRulesOk(inv, n)
  {
    if n > 0 {
      AllPassed(inv, n - 1);
      RuleIsSilent(inv, n - 1);
      OneMoreOk(inv, n - 1);
    }
  }

  ghost predicate FirstRulesOk(inv: Invoice, n: nat) { forall k :: 0 <= k < n ==> RuleOk(inv, k) }

  lemma OneMoreOk(inv: Invoice, n: nat)
    ensures FirstRulesOk(inv, n + 1) <==> FirstRulesOk(inv, n) && RuleOk(inv, n)
  {
  }

  /** An issue that costs something: every issue the rules raise does. */
  predicate Costs(i: Issue) { Penalty()(i) >= 8 }

  ghost predicate AllCost(issues: seq<Issue>) { forall i :: 0 <= i < |issues| ==> Costs(issues[i]) }

  lemma RuleCosts(inv: Invoice, k: nat)
    ensures AllCost(Findings(inv, k))
  {
    if k == 8 && inv.scope.Some? {
      TaxIssuesCost(inv.items, inv.scope.value);
    }
  }

  lemma {:induction false} FindingsCost(inv: Invoice, n: nat)
    ensures AllCost(AllFindings(inv, n))
  {
    if n > 0 {
      FindingsCost(inv, n - 1);
      RuleCosts(inv, n - 1);
      CostsConcat(AllFindings(inv, n - 1), Findings(inv, n - 1));
    }
  }

  lemma CostsConcat(a: seq<Issue>, b: seq<Issue>)
    requires AllCost(a) && AllCost(b)
    ensures AllCost(a + b)
  {
  }

  lemma {:induction false} TaxIssuesCost(items: seq<LineItem>, scope: TransactionType)
    ensures AllCost(TaxIssues(items, scope))
  {
    if items != [] {
      TaxIssuesCost(items[..|items| - 1], scope);
    }
  }

  lemma {:induction false} PenaltyGrows(issues: seq<Issue>)
    requires AllCost(issues)
    ensures SumBy(issues, Penalty()) >= 8 * |issues|
    ensures HasCritical(issues) ==> SumBy(issues, Penalty()) >= 30
  {
    if issues != [] {
      PenaltyGrows(issues[..|issues| - 1]);
      assert Costs(issues[|issues| - 1]);
    }
  }

  /** The three headline figures agree: no issue, all ten checks passed and a score of 100 are the same thing, and an
      invoice with a critical issue scores at most 70. */
  lemma ReportIsCoherent(inv: Invoice)
    ensures AllFindings(inv, 10) == [] <==> forall k :: 0 <= k < 10 ==> RuleOk(inv, k)
    ensures AllFindings(inv, 10) == [] <==> PassedRules(inv, 10) == 10
    ensures AllFindings(inv, 10) == [] <==> Score(AllFindings(inv, 10)) == 100
    ensures HasCritical(AllFindings(inv, 10)) ==> Score(AllFindings(inv, 10)) <= 70
  {
    AllSilent(inv, 10);
    FindingsCost(inv, 10);
    PenaltyGrows(AllFindings(inv, 10));
  }

  // -------------------------------------------------------- what is reported

  predicate IsBlank(s: Option<string>) { s.None? || s.value == "" }

  ghost predicate IsBadGstin(gstin: Option<string>) {
    gstin.Some? && gstin.value != "" && !Gstin.IsGstin(Upper(Strip(gstin.value)))
  }

  /** More than a rupee, which is a hundred paise, apart. */
  predicate IsFar(a: int, b: int) { a - b > 100 || b - a > 100 }

  /** The line's declared tax is far from the calculator's; a line that cannot be calculated is not questioned. */
  predicate IsMisdeclared(item: LineItem, scope: TransactionType) {
    var expected := Calculate(item.taxableValue as real / 100.0, item.gstRate, scope, 0.0);
    expected.Ok? && IsFar(item.cgst + item.sgst + item.igst, expected.value.cgst + expected.value.sgst + expected.value.igst)
  }

  /** The field names line i, counted from 1, and its tax is off. */
  predicate Questions(items: seq<LineItem>, scope: TransactionType, field: string, i: nat) {
    i < |items| && field == "items[" + Decimal(i + 1) + "]" && IsMisdeclared(items[i], scope)
  }

  /** What an issue says about the invoice it is raised for. */
  ghost predicate IsTrueOf(issue: Issue, inv: Invoice) {
    match issue.code
    case GstinMissing =>
      issue.severity == Critical &&
      ((issue.field == "supplier_gstin" && IsBlank(inv.supplierGstin)) || (issue.field == "buyer_gstin" && IsBlank(inv.buyerGstin)))
    case GstinInvalidFormat =>
      issue.severity == Critical &&
      ((issue.field == "supplier_gstin" && IsBadGstin(inv.supplierGstin)) || (issue.field == "buyer_gstin" && IsBadGstin(inv.buyerGstin)))
    case InvoiceNumberMissing =>
      issue.severity == High && issue.field == "invoice_number" && (inv.number.None? || Strip(inv.number.value) == "")
    case DuplicateInvoiceNumber => issue.severity == High && issue.field == "invoice_number" && inv.isDuplicateNumber
    case InvoiceDateMissing => issue.severity == Medium && issue.field == "invoice_date" && IsBlank(inv.date)
    case PlaceOfSupplyMissing => issue.severity == Medium && issue.field == "place_of_supply" && IsBlank(inv.placeOfSupply)
    case NoLineItems => issue.severity == Critical && issue.field == "items" && inv.items == []
    case HsnSacMissing =>
      issue.severity == Medium && issue.field == "items.hsn_sac" && exists i :: 0 <= i < |inv.items| && IsBlank(inv.items[i].hsnSac)
    case TaxArithmeticMismatch =>
      issue.severity == High && inv.scope.Some? && exists i :: Questions(inv.items, inv.scope.value, issue.field, i)
    case TaxableValueMismatch =>
      && issue.severity == High && issue.field == "taxable_value" && inv.items != [] && inv.declaredTaxableValue.Some?
      && IsFar(SumBy(inv.items, (item: LineItem) => item.taxableValue), inv.declaredTaxableValue.value)
  }

  /** The number of the rule that raises a code. */
  predicate Raises(k: nat, code: RuleCode, field: string) {
    match code
    case GstinMissing => k == if field == "supplier_gstin" then 0 else 1
    case GstinInvalidFormat => k == if field == "supplier_gstin" then 0 else 1
    case InvoiceNumberMissing => k == 2
    case DuplicateInvoiceNumber => k == 3
    case InvoiceDateMissing => k == 4
    case PlaceOfSupplyMissing => k == 5
    case NoLineItems => k == 6
    case HsnSacMissing => k == 7
    case TaxArithmeticMismatch => k == 8
    case TaxableValueMismatch => k == 9
  }

  lemma {:induction false} TaxIssueMeans(items: seq<LineItem>, scope: TransactionType, issue: Issue)
    ensures issue in TaxIssues(items, scope) <==>
            issue.code == TaxArithmeticMismatch && issue.severity == High && exists i :: Questions(items, scope, issue.field, i)
  {
    if items != [] {
      TaxIssueMeans(items[..|items| - 1], scope, issue);
      LastQuestion(items, scope, issue);
      LastLine(items, items[..|items| - 1], scope, issue.field);
    }
  }

  lemma LastQuestion(items: seq<LineItem>, scope: TransactionType, issue: Issue)
    requires items != []
    ensures issue in TaxIssues(items, scope) <==>
            issue in TaxIssues(items[..|items| - 1], scope) ||
            (issue.code == TaxArithmeticMismatch && issue.severity == High && Questions(items, scope, issue.field, |items| - 1))
  {
    LineMisdeclared(items[|items| - 1], scope);
  }

  lemma LastLine(items: seq<LineItem>, init: seq<LineItem>, scope: TransactionType, field: string)
    requires items != [] && init == items[..|items| - 1]
    ensures (exists i :: Questions(items, scope, field, i)) <==>
            (exists i :: Questions(init, scope, field, i)) || Questions(items, scope, field, |items| - 1)
  {
    forall i: nat ensures Questions(items, scope, field, i) <==>
                          Questions(init, scope, field, i) || (i == |items| - 1 && Questions(items, scope, field, |items| - 1)) {
      QuestionOfInit(items, scope, field, i);
    }
  }

  lemma QuestionOfInit(items: seq<LineItem>, scope: TransactionType, field: string, i: nat)
    requires items != []
    ensures i < |items| - 1 ==> (Questions(items, scope, field, i) <==> Questions(items[..|items| - 1], scope, field, i))
  {
  }

  lemma LineMisdeclared(item: LineItem, scope: TransactionType)
    ensures LineTaxOk(item, scope) <==> !IsMisdeclared(item, scope)
  {
  }

  lemma TotalsMean(inv: Invoice)
    ensures TotalsOk(inv) <==>
            inv.declaredTaxableValue.None? || inv.items == [] ||
            !IsFar(SumBy(inv.items, (item: LineItem) => item.taxableValue), inv.declaredTaxableValue.value)
  {
    SumCongruent(inv.items, TaxableValue(), (item: LineItem) => item.taxableValue);
  }

  lemma FindingMeans(inv: Invoice, k: nat, issue: Issue)
    requires k < 10
    ensures issue in Findings(inv, k) <==> Raises(k, issue.code, issue.field) && IsTrueOf(issue, inv)
  {
    if k <= 1 {
      GstinFindingMeans(inv, k, issue);
    } else if k == 8 {
      if inv.scope.Some? {
        TaxIssueMeans(inv.items, inv.scope.value, issue);
      }
    } else if k == 9 {
      TotalsMean(inv);
    }
  }

  lemma GstinFindingMeans(inv: Invoice, k: nat, issue: Issue)
    requires k <= 1
    ensures issue in Findings(inv, k) <==> Raises(k, issue.code, issue.field) && IsTrueOf(issue, inv)
  {
    var gstin, field := if k == 0 then inv.supplierGstin else inv.buyerGstin, if k == 0 then "supplier_gstin" else "buyer_gstin";
    assert Findings(inv, k) == GstinIssues(gstin, field);
    assert "supplier_gstin"[0] != "buyer_gstin"[0];
  }

  lemma {:induction false} FoundByRule(inv: Invoice, n: nat, issue: Issue)
    ensures issue in AllFindings(inv, n) <==> exists k :: 0 <= k < n && issue in Findings(inv, k)
  {
    if n > 0 {
      FoundByRule(inv, n - 1, issue);
    }
  }

  /** A report holds an issue if and only if it is true of the invoice. */
  lemma ReportedExactlyWhenTrue(inv: Invoice, issue: Issue)
    ensures issue in AllFindings(inv, 10) <==> IsTrueOf(issue, inv)
  {
    FoundByRule(inv, 10, issue);
    forall k: nat | k < 10 ensures issue in Findings(inv, k) <==> Raises(k, issue.code, issue.field) && IsTrueOf(issue, inv) {
      FindingMeans(inv, k, issue);
    }
    var k := RuleOf(issue);
    assert Raises(k, issue.code, issue.field);
  }

  function RuleOf(issue: Issue): (k: nat)
    ensures k < 10 && Raises(k, issue.code, issue.field)
  {
    match issue.code
    case GstinMissing => if issue.field == "supplier_gstin" then 0 else 1
    case GstinInvalidFormat => if issue.field == "supplier_gstin" then 0 else 1
    case InvoiceNumberMissing => 2
    case DuplicateInvoiceNumber => 3
    case InvoiceDateMissing => 4
    case PlaceOfSupplyMissing => 5
    case NoLineItems => 6
    case HsnSacMissing => 7
    case TaxArithmeticMismatch => 8
    case TaxableValueMismatch => 9
  }

  ghost predicate InRuleOrder(issues: seq<Issue>) {
    forall i, j :: 0 <= i < j < |issues| ==> RuleOf(issues[i]) <= RuleOf(issues[j])
  }

  /** Issues come rule by rule, the ten rules in their order. */
  lemma {:induction false} FindingsInOrder(inv: Invoice, n: nat)
    requires n <= 10
    ensures InRuleOrder(AllFindings(inv, n)) && forall issue :: issue in AllFindings(inv, n) ==> RuleOf(issue) < n
  {
    if n > 0 {
      FindingsInOrder(inv, n - 1);
      FoundAtRule(inv, n - 1);
      OrderContinues(AllFindings(inv, n - 1), Findings(inv, n - 1), n - 1);
    }
  }

  lemma FoundAtRule(inv: Invoice, k: nat)
    requires k < 10
    ensures forall issue :: issue in Findings(inv, k) ==> RuleOf(issue) == k
  {
    forall issue | issue in Findings(inv, k) ensures RuleOf(issue) == k {
      FindingMeans(inv, k, issue);
    }
  }

  lemma OrderContinues(before: seq<Issue>, found: seq<Issue>, k: nat)
    requires InRuleOrder(before) && forall issue :: issue in before ==> RuleOf(issue) < k
    requires forall issue :: issue in found ==> RuleOf(issue) == k
    ensures InRuleOrder(before + found) && forall issue :: issue in before + found ==> RuleOf(issue) < k + 1
  {
  }

  function OfSeverity(severity: Severity): Issue -> bool { (issue: Issue) => issue.severity == severity }

  function Count(issues: seq<Issue>, severity: Severity): nat { |Filter(issues, OfSeverity(severity))| }

  lemma {:induction false} PenaltyByCount(issues: seq<Issue>)
    ensures SumBy(issues, Penalty()) ==
            30 * Count(issues, Critical) + 15 * Count(issues, High) + 8 * Count(issues, Medium) + 3 * Count(issues, Low)
  {
    if issues != [] {
      var init, last := issues[..|issues| - 1], issues[|issues| - 1];
      PenaltyByCount(init);
      InitAndLast(issues);
      FilterAppend(init, last, OfSeverity(Critical));
      FilterAppend(init, last, OfSeverity(High));
      FilterAppend(init, last, OfSeverity(Medium));
      FilterAppend(init, last, OfSeverity(Low));
    }
  }

  /** The score is what is left of a hundred, but not below zero: a critical issue takes 30, a high one 15, a medium one 8
      and a low one 3. */
  lemma ScoreByCount(issues: seq<Issue>)
    ensures var left := 100 - 30 * Count(issues, Critical) - 15 * Count(issues, High) - 8 * Count(issues, Medium) - 3 * Count(issues, Low);
            Score(issues) == if left < 0 then 0 else left
  {
    PenaltyByCount(issues);
  }

  // ----------------------------------------- calculator against the validator

  /** The invoice line that carries a calculation. */
  predicate Carries(item: LineItem, r: Calculation) {
    && item.taxableValue == r.taxableValue && item.gstRate == r.gstRate
    && item.cgst == r.cgst && item.sgst == r.sgst && item.igst == r.igst
  }

  /** The exact tax on two values differs by at most half a paisa. */
  predicate SameTax(a: real, b: real, rate: real) { -0.5 <= (b - a) * rate <= 0.5 }

  /** The taxable value read back from a line is off by at most half a paisa, so its tax by at most half a paisa too. */
  lemma RoundedTaxable(taxable: real, rate: real)
    requires taxable >= 0.0 && 0.0 <= rate <= 100.0
    ensures var back := Round(taxable) as real / 100.0;
            back >= 0.0 && SameTax(taxable, back, rate)
  {
    RoundError(taxable);
    var d := Round(taxable) as real / 100.0 - taxable;
    ScaleDown(d, rate);
  }

  lemma ScaleDown(d: real, rate: real)
    requires -0.005 <= d <= 0.005 && 0.0 <= rate <= 100.0
    ensures -0.5 <= d * rate <= 0.5
  {
    Product(0.005 - d, rate);
    Product(0.005 + d, rate);
    assert (0.005 - d) * rate == 0.005 * rate - d * rate;
    assert (0.005 + d) * rate == 0.005 * rate + d * rate;
  }

  lemma Product(x: real, y: real)
    requires x >= 0.0 && y >= 0.0
    ensures x * y >= 0.0
  {
  }

  /** CGST, SGST and IGST together. */
  function TaxOf(taxable: real, rate: real, t: TransactionType): int {
    if IsZeroTax(t) then 0
    else if t == IntraState then 2 * Round(taxable * (rate / 2.0) / 100.0)
    else Round(taxable * rate / 100.0)
  }

  predicate Accepted(taxable: real, rate: real, cessRate: real) {
    taxable >= 0.0 && 0.0 <= rate <= 100.0 && cessRate >= 0.0
  }

  lemma CalculatedTax(taxable: real, rate: real, t: TransactionType, cessRate: real)
    ensures var r := Calculate(taxable, rate, t, cessRate);
            && (r.Ok? <==> Accepted(taxable, rate, cessRate))
            && (r.Ok? ==> IsTaxOn(r.value, taxable, rate, t))
  {
  }

  predicate IsTaxOn(r: Calculation, taxable: real, rate: real, t: TransactionType) {
    r.cgst + r.sgst + r.igst == TaxOf(taxable, rate, t) && r.taxableValue == Round(taxable) && r.gstRate == rate
  }

  /** Checking a line again from its rounded value finds a tax at most two paise away from the calculated one. */
  lemma RecheckedTax(taxable: real, rate: real, t: TransactionType, cessRate: real)
    requires Accepted(taxable, rate, cessRate)
    ensures Accepted(Round(taxable) as real / 100.0, rate, 0.0)
    ensures -2 <= TaxOf(taxable, rate, t) - TaxOf(Round(taxable) as real / 100.0, rate, t) <= 2
  {
    RoundedTaxable(taxable, rate);
    TaxesClose(taxable, Round(taxable) as real / 100.0, rate, t);
  }

  /** So a line is questioned only if its declared tax is more than 98 paise from the calculated one, and always beyond 102. */
  lemma RecheckedLine(taxable: real, rate: real, t: TransactionType, cessRate: real, item: LineItem)
    requires Accepted(taxable, rate, cessRate) && item.taxableValue == Round(taxable) && item.gstRate == rate
    ensures var off := Abs(item.cgst + item.sgst + item.igst - TaxOf(taxable, rate, t));
            (off <= 98 ==> LineTaxOk(item, t)) && (off > 102 ==> !LineTaxOk(item, t))
  {
    RecheckedTax(taxable, rate, t, cessRate);
    CalculatedTax(Round(taxable) as real / 100.0, rate, t, 0.0);
  }

  lemma TaxesClose(a: real, b: real, rate: real, t: TransactionType)
    requires SameTax(a, b, rate)
    ensures -2 <= TaxOf(a, rate, t) - TaxOf(b, rate, t) <= 2
  {
    RecheckedWhole(a, b, rate);
    RecheckedHalf(a, b, rate);
  }

  lemma RecheckedWhole(a: real, b: real, rate: real)
    requires SameTax(a, b, rate)
    ensures -1 <= Round(a * rate / 100.0) - Round(b * rate / 100.0) <= 1
  {
    assert (b - a) * rate == b * rate - a * rate;
    RoundsClose(a * rate / 100.0, b * rate / 100.0, 0.5);
  }

  lemma RecheckedHalf(a: real, b: real, rate: real)
    requires SameTax(a, b, rate)
    ensures -1 <= Round(a * (rate / 2.0) / 100.0) - Round(b * (rate / 2.0) / 100.0) <= 1
  {
    assert (b - a) * rate == b * rate - a * rate;
    HalfOfProduct(a, rate);
    HalfOfProduct(b, rate);
    RoundsClose(a * (rate / 2.0) / 100.0, b * (rate / 2.0) / 100.0, 0.25);
  }

  /** Lines taken from the calculator raise neither TAX_ARITHMETIC_MISMATCH nor TAXABLE_VALUE_MISMATCH. */
  lemma CalculatedInvoicePasses(items: seq<Item>, t: TransactionType, inv: Invoice)
    requires CalculateLineItems(items, t).Ok? && inv.scope == Some(t)
    requires var (results, total) := CalculateLineItems(items, t).value;
             && |inv.items| == |results| && (forall i :: 0 <= i < |results| ==> Carries(inv.items[i], results[i]))
             && inv.declaredTaxableValue == Some(total.taxableValue)
    ensures Findings(inv, 8) == [] && Findings(inv, 9) == []
  {
    var results := CalculateEach(items, t).value;
    ResultsLength(items, t);
    forall i | 0 <= i < |inv.items| ensures LineTaxOk(inv.items[i], t) {
      EachLine(items, t, i);
      assert Carries(inv.items[i], results[i]);
      CalculatedTax(items[i].taxableValue, items[i].gstRate, t, items[i].cessRate);
      RecheckedLine(items[i].taxableValue, items[i].gstRate, t, items[i].cessRate, inv.items[i]);
    }
    RuleIsSilent(inv, 8);
    SameTaxable(inv.items, results);
    RuleIsSilent(inv, 9);
  }

  lemma {:induction false} SameTaxable(lines: seq<LineItem>, results: seq<Calculation>)
    requires |lines| == |results| && forall i :: 0 <= i < |results| ==> Carries(lines[i], results[i])
    ensures SumBy(lines, TaxableValue()) == SumBy(results, TaxableOf())
  {
    if lines != [] {
      var n := |lines| - 1;
      assert Carries(lines[n], results[n]);
      SameTaxable(lines[..n], results[..n]);
    }
  }

  /** With its particulars in order such an invoice is PASSED with all ten checks and a score of 100. */
  lemma CalculatedInvoiceIsClean(items: seq<Item>, t: TransactionType, inv: Invoice)
    requires CalculateLineItems(items, t).Ok? && inv.scope == Some(t)
    requires var (results, total) := CalculateLineItems(items, t).value;
             && |inv.items| == |results| && (forall i :: 0 <= i < |results| ==> Carries(inv.items[i], results[i]))
             && inv.declaredTaxableValue == Some(total.taxableValue)
    requires forall k :: 0 <= k < 8 && k != 6 ==> RuleOk(inv, k)
    ensures AllFindings(inv, 10) == [] && PassedRules(inv, 10) == 10 && Score(AllFindings(inv, 10)) == 100
  {
    CalculatedInvoicePasses(items, t, inv);
    RuleIsSilent(inv, 8);
    RuleIsSilent(inv, 9);
    ResultsLength(items, t);
    assert RuleOk(inv, 6);
    AllSilent(inv, 10);
    ReportIsCoherent(inv);
  }

  /** How far a declared tax may stray from the calculator's: up to 98 paise it is never questioned, beyond 102 always. */
  lemma ToleranceIsSharp(taxable: real, rate: real, t: TransactionType, cessRate: real, item: LineItem)
    requires Calculate(taxable, rate, t, cessRate).Ok?
    requires var r := Calculate(taxable, rate, t, cessRate).value; item.taxableValue == r.taxableValue && item.gstRate == r.gstRate
    ensures var r := Calculate(taxable, rate, t, cessRate).value;
            var off := Abs(item.cgst + item.sgst + item.igst - (r.cgst + r.sgst + r.igst));
            (off <= 98 ==> LineTaxOk(item, t)) && (off > 102 ==> !LineTaxOk(item, t))
  {
    CalculatedTax(taxable, rate, t, cessRate);
    RecheckedLine(taxable, rate, t, cessRate, item);
  }

  /** Neither bound can be moved: a declared tax 99 paise off is questioned on one line, and 102 paise off is accepted on
      another, where rounding the taxable value moves the expected tax by two paise down and up. */
  lemma BoundsAreAttained() returns (a: LineItem, b: LineItem)
    ensures a.taxableValue == Round(0.0101) && a.gstRate == 99.9
    ensures Abs(a.cgst + a.sgst + a.igst - TaxOf(0.0101, 99.9, IntraState)) == 99 && !LineTaxOk(a, IntraState)
    ensures b.taxableValue == Round(0.0099) && b.gstRate == 100.0
    ensures Abs(b.cgst + b.sgst + b.igst - TaxOf(0.0099, 100.0, IntraState)) == 102 && LineTaxOk(b, IntraState)
  {
    HalvesOfOnePaisa();
    a := DeclaredLine(1, 99.9, 0, 101);
    b := DeclaredLine(1, 100.0, 2, 102);
  }

  /** A line with this taxable value and declared tax, which is checked against the expected tax. */
  lemma DeclaredLine(paise: nat, rate: real, expected: int, declared: int) returns (item: LineItem)
    requires 0.0 <= rate <= 100.0 && TaxOf(paise as real / 100.0, rate, IntraState) == expected
    ensures item.taxableValue == paise && item.gstRate == rate && item.cgst + item.sgst + item.igst == declared
    ensures LineTaxOk(item, IntraState) <==> Abs(declared - expected) <= TOLERANCE
  {
    item := LineItem(None, paise, rate, declared, 0, 0);
    CalculatedTax(paise as real / 100.0, rate, IntraState, 0.0);
  }

  lemma HalvesOfOnePaisa()
    ensures Round(0.0101) == 1 && Round(0.0099) == 1 && 1 as real / 100.0 == 0.01
    ensures TaxOf(0.0101, 99.9, IntraState) == 2 && TaxOf(0.01, 99.9, IntraState) == 0
    ensures TaxOf(0.0099, 100.0, IntraState) == 0 && TaxOf(0.01, 100.0, IntraState) == 2
  {
    RoundIs(0.0101, 1);
    RoundIs(0.0099, 1);
    RoundIs(0.0101 * (99.9 / 2.0) / 100.0, 1);
    RoundIs(0.01 * (99.9 / 2.0) / 100.0, 0);
    RoundIs(0.0099 * (100.0 / 2.0) / 100.0, 0);
    RoundIs(0.01 * (100.0 / 2.0) / 100.0, 1);
  }
}
