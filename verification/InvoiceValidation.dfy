/** The invoice checks of backend/app/rules/invoice_validation.py. Amounts on the invoice are paise. */
module InvoiceValidation {
  import opened Util
  import opened Text
  import opened GstCalculator
  import Gstin

  datatype Severity = Critical | High | Medium | Low | Info

  datatype RuleCode =
    | GstinMissing | GstinInvalidFormat | InvoiceNumberMissing | DuplicateInvoiceNumber | InvoiceDateMissing
    | PlaceOfSupplyMissing | NoLineItems | HsnSacMissing | TaxArithmeticMismatch | TaxableValueMismatch

  datatype Issue = Issue(code: RuleCode, severity: Severity, field: string)

  datatype LineItem = LineItem(hsnSac: Option<string>, taxableValue: int, gstRate: real, cgst: int, sgst: int, igst: int)

  datatype Invoice = Invoice(number: Option<string>, date: Option<string>, supplierGstin: Option<string>, buyerGstin: Option<string>,
                             placeOfSupply: Option<string>, scope: Option<TransactionType>, items: seq<LineItem>,
                             declaredTaxableValue: Option<int>, isDuplicateNumber: bool)

  datatype Status = Passed | Warning | Failed

  datatype Report = Report(status: Status, score: nat, passedChecks: nat, totalChecks: nat, issues: seq<Issue>)

  function Penalty(): Issue -> int {
    (issue: Issue) =>
      match issue.severity
      case Critical => 30
      case High => 15
      case Medium => 8
      case Low => 3
      case Info => 0
  }

  /** One rupee. */
  const TOLERANCE := 100

  // --------------------------------------------------- what each rule looks for

  ghost predicate GstinOk(gstin: Option<string>) { gstin.Some? && Gstin.IsGstin(Upper(Strip(gstin.value))) }

  predicate NumberOk(inv: Invoice) { inv.number.Some? && Strip(inv.number.value) != "" }

  predicate HsnOk(inv: Invoice) { forall i :: 0 <= i < |inv.items| ==> Given(inv.items[i].hsnSac) }

  /** The declared tax of a line is within a rupee of what the calculator says, if it can say. */
  predicate LineTaxOk(item: LineItem, scope: TransactionType) {
    match Calculate(item.taxableValue as real / 100.0, item.gstRate, scope, 0.0)
    case Err(_) => true
    case Ok(expected) =>
      Abs(item.cgst + item.sgst + item.igst - (expected.cgst + expected.sgst + expected.igst)) <= TOLERANCE
  }

  predicate TaxOk(inv: Invoice) {
    inv.scope.None? || forall i :: 0 <= i < |inv.items| ==> LineTaxOk(inv.items[i], inv.scope.value)
  }

  function TaxableValue(): LineItem -> int { (item: LineItem) => item.taxableValue }

  predicate TotalsOk(inv: Invoice) {
    inv.declaredTaxableValue.None? || inv.items == [] ||
    Abs(SumBy(inv.items, TaxableValue()) - inv.declaredTaxableValue.value) <= TOLERANCE
  }

  /** Whether rule k has nothing to say about the invoice, in the order of the rules. */
  ghost predicate RuleOk(inv: Invoice, k: nat) {
    match k
    case 0 => GstinOk(inv.supplierGstin)
    case 1 => GstinOk(inv.buyerGstin)
    case 2 => NumberOk(inv)
    case 3 => !inv.isDuplicateNumber
    case 4 => Given(inv.date)
    case 5 => Given(inv.placeOfSupply)
    case 6 => inv.items != []
    case 7 => HsnOk(inv)
    case 8 => TaxOk(inv)
    case _ => TotalsOk(inv)
  }

  // ------------------------------------------------------ what the rules find

  ghost function GstinIssues(gstin: Option<string>, field: string): seq<Issue> {
    if !Given(gstin) then [Issue(GstinMissing, Critical, field)]
    else if !GstinOk(gstin) then [Issue(GstinInvalidFormat, Critical, field)]
    else []
  }

  function IssueUnless(ok: bool, code: RuleCode, severity: Severity, field: string): seq<Issue> {
    if ok then [] else [Issue(code, severity, field)]
  }

  /** One issue for each line whose declared tax is off; lines are counted from 1. */
  function TaxIssues(items: seq<LineItem>, scope: TransactionType): seq<Issue> {
    if items == [] then []
    else
      TaxIssues(items[..|items| - 1], scope) +
      IssueUnless(LineTaxOk(items[|items| - 1], scope), TaxArithmeticMismatch, High, "items[" + Decimal(|items|) + "]")
  }

  /** The issues of rule k. */
  ghost function Findings(inv: Invoice, k: nat): seq<Issue> {
    match k
    case 0 => GstinIssues(inv.supplierGstin, "supplier_gstin")
    case 1 => GstinIssues(inv.buyerGstin, "buyer_gstin")
    case 2 => IssueUnless(NumberOk(inv), InvoiceNumberMissing, High, "invoice_number")
    case 3 => IssueUnless(!inv.isDuplicateNumber, DuplicateInvoiceNumber, High, "invoice_number")
    case 4 => IssueUnless(Given(inv.date), InvoiceDateMissing, Medium, "invoice_date")
    case 5 => IssueUnless(Given(inv.placeOfSupply), PlaceOfSupplyMissing, Medium, "place_of_supply")
    case 6 => IssueUnless(inv.items != [], NoLineItems, Critical, "items")
    case 7 => IssueUnless(HsnOk(inv), HsnSacMissing, Medium, "items.hsn_sac")
    case 8 => if inv.scope.Some? then TaxIssues(inv.items, inv.scope.value) else []
    case _ => IssueUnless(TotalsOk(inv), TaxableValueMismatch, High, "taxable_value")
  }

  /** The issues of the first n rules, in order. */
  ghost function AllFindings(inv: Invoice, n: nat): seq<Issue> {
    if n == 0 then [] else AllFindings(inv, n - 1) + Findings(inv, n - 1)
  }

  ghost function PassedRules(inv: Invoice, n: nat): nat {
    if n == 0 then 0 else PassedRules(inv, n - 1) + if Findings(inv, n - 1) == [] then 1 else 0
  }

  // -------------------------------------------------------------- the rules

  method CheckGstin(gstin: Option<string>, field: string) returns (issues: seq<Issue>)
    ensures issues == GstinIssues(gstin, field)
  {
    if !Given(gstin) {
      return [Issue(GstinMissing, Critical, field)];
    }
    var result := Gstin.ValidateGstin(gstin);
    issues := if result.isValid then [] else [Issue(GstinInvalidFormat, Critical, field)];
  }

  /** The numbers, from 1, of exactly the lines without a code, in increasing order. */
  method CheckHsn(items: seq<LineItem>) returns (missing: seq<nat>)
    ensures forall n :: n in missing <==> 1 <= n <= |items| && !Given(items[n - 1].hsnSac)
    ensures forall a, b :: 0 <= a < b < |missing| ==> missing[a] < missing[b]
    ensures missing == [] <==> forall i :: 0 <= i < |items| ==> Given(items[i].hsnSac)
  {
    missing := [];
    for i := 0 to |items|
      invariant forall n :: n in missing <==> 1 <= n <= i && !Given(items[n - 1].hsnSac)
      invariant forall k :: 0 <= k < |missing| ==> missing[k] <= i
      invariant forall a, b :: 0 <= a < b < |missing| ==> missing[a] < missing[b]
      invariant missing == [] <==> forall k :: 0 <= k < i ==> Given(items[k].hsnSac)
    {
      if !Given(items[i].hsnSac) {
        missing := missing + [i + 1];
      }
    }
  }

  method CheckTax(items: seq<LineItem>, scope: TransactionType) returns (issues: seq<Issue>)
    ensures issues == TaxIssues(items, scope)
  {
    issues := [];
    for i := 0 to |items|
      invariant issues == TaxIssues(items[..i], scope)
    {
      assert items[..i + 1][..i] == items[..i];
      var ok := CheckLine(items[i], scope);
      issues := issues + IssueUnless(ok, TaxArithmeticMismatch, High, "items[" + Decimal(i + 1) + "]");
    }
    assert items[..|items|] == items;
  }

  method CheckLine(item: LineItem, scope: TransactionType) returns (ok: bool)
    ensures ok <==> LineTaxOk(item, scope)
  {
    var expected := Calculate(item.taxableValue as real / 100.0, item.gstRate, scope, 0.0);
    if expected.Err? {
      return true;
    }
    var actualTotal := item.cgst + item.sgst + item.igst;
    var expectedTotal := expected.value.cgst + expected.value.sgst + expected.value.igst;
    ok := !(Abs(actualTotal - expectedTotal) > TOLERANCE);
  }

  method SumTaxable(items: seq<LineItem>) returns (sum: int)
    ensures sum == SumBy(items, TaxableValue())
  {
    sum := 0;
    for i := 0 to |items|
      invariant sum == SumBy(items[..i], TaxableValue())
    {
      assert items[..i + 1][..i] == items[..i];
      sum := sum + items[i].taxableValue;
    }
    assert items[..|items|] == items;
  }

  method ApplyRule(inv: Invoice, k: nat) returns (issues: seq<Issue>)
    requires k < 10
    ensures issues == Findings(inv, k)
  {
    match k {
      case 0 => issues := CheckGstin(inv.supplierGstin, "supplier_gstin");
      case 1 => issues := CheckGstin(inv.buyerGstin, "buyer_gstin");
      case 2 => issues := IssueUnless(NumberOk(inv), InvoiceNumberMissing, High, "invoice_number");
      case 3 => issues := IssueUnless(!inv.isDuplicateNumber, DuplicateInvoiceNumber, High, "invoice_number");
      case 4 => issues := IssueUnless(Given(inv.date), InvoiceDateMissing, Medium, "invoice_date");
      case 5 => issues := IssueUnless(Given(inv.placeOfSupply), PlaceOfSupplyMissing, Medium, "place_of_supply");
      case 6 => issues := IssueUnless(inv.items != [], NoLineItems, Critical, "items");
      case 7 =>
        var missing := CheckHsn(inv.items);
        issues := IssueUnless(missing == [], HsnSacMissing, Medium, "items.hsn_sac");
      case 8 =>
        issues := [];
        if inv.scope.Some? {
          issues := CheckTax(inv.items, inv.scope.value);
        }
      case _ =>
        issues := [];
        if inv.declaredTaxableValue.Some? && inv.items != [] {
          var sum := SumTaxable(inv.items);
          issues := IssueUnless(Abs(sum - inv.declaredTaxableValue.value) <= TOLERANCE, TaxableValueMismatch, High, "taxable_value");
        }
    }
  }

  // ------------------------------------------------------------- the report

  function Score(issues: seq<Issue>): nat {
    var penalty := SumBy(issues, Penalty());
    if penalty > 100 then 0 else if penalty < 0 then 100 else 100 - penalty
  }

  predicate HasCritical(issues: seq<Issue>) { exists i :: 0 <= i < |issues| && issues[i].severity == Critical }

  method ValidateInvoice(inv: Invoice) returns (report: Report)
    ensures report.issues == AllFindings(inv, 10)
    ensures report.passedChecks == PassedRules(inv, 10) && report.totalChecks == 10
    ensures report.score == Score(report.issues)
    ensures report.status == if HasCritical(report.issues) then Failed else if report.issues != [] then Warning else Passed
  {
    var issues: seq<Issue> := [];
    var passed := 0;
    for k := 0 to 10
      invariant issues == AllFindings(inv, k) && passed == PassedRules(inv, k)
    {
      var found := ApplyRule(inv, k);
      issues := issues + found;
      if found == [] {
        passed := passed + 1;
      }
    }
    report := Grade(issues, passed);
  }

  method Grade(issues: seq<Issue>, passed: nat) returns (report: Report)
    ensures report.issues == issues && report.passedChecks == passed && report.totalChecks == 10 && report.score == Score(issues)
    ensures report.status == if HasCritical(issues) then Failed else if issues != [] then Warning else Passed
  {
    var penalty := 0;
    var critical := false;
    for j := 0 to |issues|
      invariant penalty == SumBy(issues[..j], Penalty()) && penalty >= 0
      invariant critical <==> exists i :: 0 <= i < j && issues[i].severity == Critical
    {
      assert issues[..j + 1][..j] == issues[..j];
      penalty := penalty + Penalty()(issues[j]);
      critical := critical || issues[j].severity == Critical;
    }
    assert issues[..|issues|] == issues;
    var score := 100 - penalty;
    var status := if critical then Failed else if issues != [] then Warning else Passed;
    report := Report(status, if score < 0 then 0 else score, passed, 10, issues);
  }
}
