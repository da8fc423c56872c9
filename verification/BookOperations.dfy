/** The double-entry books of one organization as values: what every operation of the accounting service
    makes of them, and the laws that hold after any run of those operations. */
module BookOperations {
  import opened Util
  import opened Text
  import opened Accounting

  /** An ISO date read as the number yyyymmdd, which orders dates as their strings are ordered. */
  type Date = int

  const EPOCH: Date := 1900_01_01
  const FAR_FUTURE: Date := 9999_12_31

  /** First and last day of the Indian financial year (1 April to 31 March) that contains today. */
  function CurrentFyRange(today: Date): (Date, Date) {
    var year, month := today / 10000, today / 100 % 100;
    var startYear := if month >= 4 then year else year - 1;
    (startYear * 10000 + 0401, (startYear + 1) * 10000 + 0331)
  }

  /** A day from 1 April of year y to 31 March of the next. */
  predicate InYear(day: Date, y: int) { y * 10000 + 0401 <= day <= (y + 1) * 10000 + 0331 }

  /** Every day of a financial year gets the range of that year. */
  lemma FinancialYear(day: Date, y: int)
    requires InYear(day, y)
    ensures CurrentFyRange(day) == (y * 10000 + 0401, (y + 1) * 10000 + 0331)
  {
    var rest := day - y * 10000;
    if rest < 10000 {
      assert day / 10000 == y && day / 100 == y * 100 + rest / 100 && 4 <= rest / 100 < 100;
    } else {
      assert day / 10000 == y + 1 && day / 100 == (y + 1) * 100 + (rest - 10000) / 100 && 0 <= (rest - 10000) / 100 <= 3;
    }
  }

  /** The range runs from a 1 April to the next 31 March, contains today, and is given to every one of its days. */
  lemma FyRangeContainsToday(year: nat, month: nat, day: nat)
    requires 1 <= month <= 12 && 1 <= day <= 31
    ensures var today := year * 10000 + month * 100 + day;
            var (first, last) := CurrentFyRange(today);
            && first <= today <= last && first % 10000 == 0401 && last == first + 10000 - 0401 + 0331
            && forall d :: first <= d <= last ==> CurrentFyRange(d) == (first, last)
  {
    var y := if month >= 4 then year else year - 1;
    FinancialYear(year * 10000 + month * 100 + day, y);
    forall d | InYear(d, y) ensures CurrentFyRange(d) == (y * 10000 + 0401, (y + 1) * 10000 + 0331) {
      FinancialYear(d, y);
    }
  }

  datatype VoucherType = Sales | Purchase | Receipt | Payment | Contra | Journal | DebitNote | CreditNote

  datatype Group = Group(name: string, nature: Nature, classification: string, sortOrder: int)

  /** A ledger's id is its position in the chart. */
  datatype Ledger = Ledger(name: string, groupId: nat, openingBalance: int, openingSide: Side)

  datatype Voucher = Voucher(
    voucherType: VoucherType,
    number: string,
    date: Date,
    entries: seq<Entry>,
    totalAmount: int,
    sourceInvoice: Option<nat>)

  datatype Books = Books(groups: seq<Group>, ledgers: seq<Ledger>, vouchers: seq<Voucher>)

  datatype BookError =
    | Rejected(fault: VoucherFault)
    | ForeignLedger
    | UnknownGroup
    | NameTaken
    | AmbiguousName
    | DuplicateKey
    | AlreadyPosted
    | NothingToPost
    | ChartMissing
    | MissingSystemLedger
    | LedgerNotFound

  const EMPTY := Books([], [], [])

  // ------------------------------------------------------ chart of accounts

  /** The seeded groups by position. */
  function DefaultGroup(i: nat): Group {
    match i
    case 0 => Group("Capital Account", Liability, "capital", 10)
    case 1 => Group("Current Liabilities", Liability, "current_liability", 20)
    case 2 => Group("Sundry Creditors", Liability, "payable", 21)
    case 3 => Group("Duties & Taxes", Liability, "duties_taxes", 22)
    case 4 => Group("Loans (Liability)", Liability, "current_liability", 25)
    case 5 => Group("Fixed Assets", Asset, "fixed_asset", 40)
    case 6 => Group("Current Assets", Asset, "current_asset", 50)
    case 7 => Group("Bank Accounts", Asset, "bank", 51)
    case 8 => Group("Cash-in-hand", Asset, "cash", 52)
    case 9 => Group("Sundry Debtors", Asset, "receivable", 53)
    case 10 => Group("Sales Accounts", Income, "sales", 60)
    case 11 => Group("Direct Incomes", Income, "direct_income", 61)
    case 12 => Group("Indirect Incomes", Income, "indirect_income", 62)
    case 13 => Group("Purchase Accounts", Expense, "purchase", 70)
    case 14 => Group("Direct Expenses", Expense, "direct_expense", 71)
    case _ => Group("Indirect Expenses", Expense, "indirect_expense", 72)
  }

  function DefaultGroups(): (r: seq<Group>)
    ensures |r| == 16 && forall i: nat :: i < 16 ==> r[i] == DefaultGroup(i)
  {
    seq(16, (i: nat) => DefaultGroup(i))
  }

  datatype DefaultLedger = DefaultLedger(name: string, groupName: string)

  /** The seeded ledgers by position. */
  function DefaultLedgerAt(i: nat): DefaultLedger {
    match i
    case 0 => DefaultLedger("Cash", "Cash-in-hand")
    case 1 => DefaultLedger("Bank Account", "Bank Accounts")
    case 2 => DefaultLedger("Sales", "Sales Accounts")
    case 3 => DefaultLedger("Purchase", "Purchase Accounts")
    case 4 => DefaultLedger("Output CGST", "Duties & Taxes")
    case 5 => DefaultLedger("Output SGST", "Duties & Taxes")
    case 6 => DefaultLedger("Output IGST", "Duties & Taxes")
    case 7 => DefaultLedger("Output CESS", "Duties & Taxes")
    case 8 => DefaultLedger("Input CGST", "Duties & Taxes")
    case 9 => DefaultLedger("Input SGST", "Duties & Taxes")
    case 10 => DefaultLedger("Input IGST", "Duties & Taxes")
    case 11 => DefaultLedger("Input CESS", "Duties & Taxes")
    case 12 => DefaultLedger("Round Off", "Indirect Expenses")
    case _ => DefaultLedger("Opening Balance Equity", "Capital Account")
  }

  function DefaultLedgers(): (r: seq<DefaultLedger>)
    ensures |r| == 14 && forall i: nat :: i < 14 ==> r[i] == DefaultLedgerAt(i)
  {
    seq(14, (i: nat) => DefaultLedgerAt(i))
  }

  /** Position of the group with the given name, or the number of groups when there is none. */
  function GroupNamed(groups: seq<Group>, name: string): (i: nat)
    ensures i <= |groups|
    ensures i < |groups| ==> groups[i].name == name
    ensures i == |groups| <==> forall g :: g in groups ==> g.name != name
  {
    if groups == [] then 0
    else if groups[0].name == name then 0
    else 1 + GroupNamed(groups[1..], name)
  }

  function GroupClassified(groups: seq<Group>, classification: string): (i: nat)
    ensures i <= |groups|
    ensures i < |groups| ==> groups[i].classification == classification
    ensures i == |groups| <==> forall g :: g in groups ==> g.classification != classification
  {
    if groups == [] then 0
    else if groups[0].classification == classification then 0
    else 1 + GroupClassified(groups[1..], classification)
  }

  function LedgerNamed(ledgers: seq<Ledger>, name: string): (i: nat)
    ensures i <= |ledgers|
    ensures i < |ledgers| ==> ledgers[i].name == name
    ensures i == |ledgers| <==> forall l :: l in ledgers ==> l.name != name
  {
    if ledgers == [] then 0
    else if ledgers[0].name == name then 0
    else 1 + LedgerNamed(ledgers[1..], name)
  }

  /** Ids of the ledgers whose lower-cased name is key. */
  function LedgersLike(ledgers: seq<Ledger>, key: string): (r: seq<nat>)
    ensures forall i: nat :: i in r <==> i < |ledgers| && Lower(ledgers[i].name) == key
  {
    if ledgers == [] then [] else
      var n := |ledgers| - 1;
      LedgersLike(ledgers[..n], key) + if Lower(ledgers[n].name) == key then [n] else []
  }

  function AddGroups(groups: seq<Group>, defaults: seq<Group>): seq<Group>
    decreases defaults, groups
  {
    if defaults == [] then groups
    else AddGroups(if GroupNamed(groups, defaults[0].name) < |groups| then groups else groups + [defaults[0]], defaults[1..])
  }

  function LedgerNames(ledgers: seq<Ledger>): set<string> {
    set l | l in ledgers :: l.name
  }

  function AddLedgers(groups: seq<Group>, existing: set<string>, ledgers: seq<Ledger>, defaults: seq<DefaultLedger>): seq<Ledger>
    decreases defaults, ledgers
  {
    if defaults == [] then ledgers
    else
      var d := defaults[0];
      AddLedgers(groups, existing,
                 if d.name in existing then ledgers else ledgers + [Ledger(d.name, GroupNamed(groups, d.groupName), 0, Debit)],
                 defaults[1..])
  }

  function Seed(b: Books, groups: seq<Group>, ledgers: seq<DefaultLedger>): Books {
    var all := AddGroups(b.groups, groups);
    b.(groups := all, ledgers := AddLedgers(all, LedgerNames(b.ledgers), b.ledgers, ledgers))
  }

  function EnsureChart(b: Books): Books {
    Seed(b, DefaultGroups(), DefaultLedgers())
  }

  function CreateLedger(b: Books, name: string, groupId: nat, openingBalance: int, openingSide: Side): (Books, Result<nat, BookError>) {
    if groupId >= |b.groups| then (b, Err(UnknownGroup))
    else
      var like := LedgersLike(b.ledgers, Lower(name));
      if |like| > 1 then (b, Err(AmbiguousName))
      else if |like| == 1 then (b, Err(NameTaken))
      else if LedgerNamed(b.ledgers, Strip(name)) < |b.ledgers| then (b, Err(DuplicateKey))
      else (b.(ledgers := b.ledgers + [Ledger(Strip(name), groupId, openingBalance, openingSide)]), Ok(|b.ledgers|))
  }

  // --------------------------------------------------------------- vouchers

  function Prefix(t: VoucherType): string {
    match t
    case Sales => "SAL"
    case Purchase => "PUR"
    case Receipt => "RCT"
    case Payment => "PMT"
    case Contra => "CTR"
    case Journal => "JV"
    case DebitNote => "DN"
    case CreditNote => "CN"
  }

  function VoucherNumber(t: VoucherType, n: nat): string {
    Prefix(t) + "-" + Pad4(n)
  }

  function OfType(t: VoucherType): Voucher -> int {
    (v: Voucher) => if v.voucherType == t then 1 else 0
  }

  /** How many vouchers of a type there are. */
  function CountType(vouchers: seq<Voucher>, t: VoucherType): (n: nat) {
    CountNonNegative(vouchers, t);
    SumBy(vouchers, OfType(t))
  }

  lemma {:induction false} CountNonNegative(vouchers: seq<Voucher>, t: VoucherType)
    ensures 0 <= SumBy(vouchers, OfType(t)) <= |vouchers|
  {
    if vouchers != [] {
      CountNonNegative(vouchers[..|vouchers| - 1], t);
    }
  }

  predicate OwnedLedgers(entries: seq<Entry>, ledgerCount: nat) {
    forall e :: e in entries ==> e.ledgerId < ledgerCount
  }

  function CreateVoucher(b: Books, t: VoucherType, date: Date, entries: seq<Entry>, source: Option<nat>): (Books, Result<Voucher, BookError>) {
    match ValidateBalanced(entries)
    case Some(fault) => (b, Err(Rejected(fault)))
    case None =>
      if !OwnedLedgers(entries, |b.ledgers|) then (b, Err(ForeignLedger))
      else
        var v := Voucher(t, VoucherNumber(t, CountType(b.vouchers, t) + 1), date, entries,
                         SumBy(entries, AmountOn(Debit)), source);
        (b.(vouchers := b.vouchers + [v]), Ok(v))
  }

  // -------------------------------------------------------- invoice posting

  /** The amounts of an invoice line; a missing amount counts as zero. */
  datatype InvoiceItem = InvoiceItem(taxable: Option<int>, cgst: Option<int>, sgst: Option<int>, igst: Option<int>, cess: Option<int>)

  datatype Invoice = Invoice(
    id: nat,
    isSales: bool,
    date: Option<Date>,
    buyerName: Option<string>,
    supplierName: Option<string>,
    items: seq<InvoiceItem>)

  function OrZero(o: Option<int>): int {
    if o.Some? then o.value else 0
  }

  function Taxable(i: InvoiceItem): int { OrZero(i.taxable) }
  function Cgst(i: InvoiceItem): int { OrZero(i.cgst) }
  function Sgst(i: InvoiceItem): int { OrZero(i.sgst) }
  function Igst(i: InvoiceItem): int { OrZero(i.igst) }
  function Cess(i: InvoiceItem): int { OrZero(i.cess) }

  function TaxableTotal(inv: Invoice): int { SumBy(inv.items, Taxable) }

  function TaxLedgerName(isSales: bool, i: nat): string
    requires i < 4
  {
    if isSales then ["Output CGST", "Output SGST", "Output IGST", "Output CESS"][i]
    else ["Input CGST", "Input SGST", "Input IGST", "Input CESS"][i]
  }

  /** The four tax components of an invoice, each with the name of the ledger it is posted to. */
  function TaxComponents(inv: Invoice): seq<(string, int)> {
    [(TaxLedgerName(inv.isSales, 0), SumBy(inv.items, Cgst)), (TaxLedgerName(inv.isSales, 1), SumBy(inv.items, Sgst)),
     (TaxLedgerName(inv.isSales, 2), SumBy(inv.items, Igst)), (TaxLedgerName(inv.isSales, 3), SumBy(inv.items, Cess))]
  }

  function ComponentAmount(c: (string, int)): int { c.1 }

  function NegativePart(c: (string, int)): int { if c.1 < 0 then c.1 else 0 }

  function GrandTotal(inv: Invoice): int {
    TaxableTotal(inv) + SumBy(TaxComponents(inv), ComponentAmount)
  }

  /** The sum of the negative tax components, zero when there are none. */
  function NegativeTax(inv: Invoice): int {
    SumBy(TaxComponents(inv), NegativePart)
  }

  predicate IsPosted(vouchers: seq<Voucher>, invoiceId: nat) {
    exists v :: v in vouchers && v.sourceInvoice == Some(invoiceId)
  }

  function PartyName(inv: Invoice): string {
    var raw := if inv.isSales then inv.buyerName else inv.supplierName;
    var name := if raw.None? || raw.value == "" then "Unknown Party" else raw.value;
    var clean := Strip(name);
    if |clean| > 200 then clean[..200] else clean
  }

  function PartyClassification(inv: Invoice): string {
    if inv.isSales then "receivable" else "payable"
  }

  function GetOrCreateParty(b: Books, name: string, classification: string): (Books, Result<nat, BookError>) {
    var like := LedgersLike(b.ledgers, Lower(name));
    if |like| > 1 then (b, Err(AmbiguousName))
    else if |like| == 1 then (b, Ok(like[0]))
    else
      var g := GroupClassified(b.groups, classification);
      if g == |b.groups| then (b, Err(ChartMissing))
      else (b.(ledgers := b.ledgers + [Ledger(name, g, 0, Debit)]), Ok(|b.ledgers|))
  }

  function LedgerByName(b: Books, name: string): Result<nat, BookError> {
    var i := LedgerNamed(b.ledgers, name);
    if i < |b.ledgers| then Ok(i) else Err(MissingSystemLedger)
  }

  function PartySide(inv: Invoice): Side {
    if inv.isSales then Debit else Credit
  }

  function LegSide(inv: Invoice): Side {
    if inv.isSales then Credit else Debit
  }

  /** One leg for each positive component, to the tax ledger of that component. */
  function TaxLegs(b: Books, inv: Invoice, components: seq<(string, int)>): Result<seq<Entry>, BookError> {
    if components == [] then Ok([])
    else
      var init, c := components[..|components| - 1], components[|components| - 1];
      var legs := TaxLegs(b, inv, init);
      if legs.Err? || c.1 <= 0 then legs
      else
        var ledger := LedgerByName(b, c.0);
        if ledger.Err? then Err(ledger.error) else Ok(legs.value + [Entry(ledger.value, LegSide(inv), c.1)])
  }

  /** Posting on books whose chart has been seeded. */
  function PostOnChart(chart: Books, inv: Invoice, today: Date): (Books, Result<Voucher, BookError>) {
    if IsPosted(chart.vouchers, inv.id) then (chart, Err(AlreadyPosted))
    else if TaxableTotal(inv) <= 0 then (chart, Err(NothingToPost))
    else
      var (withParty, party) := GetOrCreateParty(chart, PartyName(inv), PartyClassification(inv));
      if party.Err? then (withParty, Err(party.error))
      else PostToParty(withParty, inv, party.value, today)
  }

  function BaseLedgerName(isSales: bool): string {
    if isSales then "Sales" else "Purchase"
  }

  function PostToParty(b: Books, inv: Invoice, party: nat, today: Date): (Books, Result<Voucher, BookError>) {
    var base := LedgerByName(b, BaseLedgerName(inv.isSales));
    if base.Err? then (b, Err(base.error))
    else
      var legs := TaxLegs(b, inv, TaxComponents(inv));
      if legs.Err? then (b, Err(legs.error))
      else
        CreateVoucher(b, if inv.isSales then Sales else Purchase,
                      if inv.date.Some? then inv.date.value else today,
                      PostedEntries(inv, party, base.value, legs.value),
                      Some(inv.id))
  }

  function PostedEntries(inv: Invoice, party: nat, base: nat, legs: seq<Entry>): seq<Entry> {
    [Entry(party, PartySide(inv), GrandTotal(inv)), Entry(base, LegSide(inv), TaxableTotal(inv))] + legs
  }

  function PostInvoice(b: Books, inv: Invoice, today: Date): (Books, Result<Voucher, BookError>) {
    PostOnChart(EnsureChart(b), inv, today)
  }

  // ------------------------------------------------------------ any run

  datatype Command =
    | InitialiseChart
    | NewLedger(name: string, groupId: nat, openingBalance: int, openingSide: Side)
    | NewVoucher(voucherType: VoucherType, date: Date, entries: seq<Entry>)
    | PostAnInvoice(invoice: Invoice, today: Date)

  function Step(b: Books, c: Command): Books {
    match c
    case InitialiseChart => EnsureChart(b)
    case NewLedger(name, groupId, balance, side) => CreateLedger(b, name, groupId, balance, side).0
    case NewVoucher(t, date, entries) => CreateVoucher(b, t, date, entries, None).0
    case PostAnInvoice(invoice, today) => PostInvoice(b, invoice, today).0
  }

  function Run(b: Books, commands: seq<Command>): Books {
    if commands == [] then b else Step(Run(b, commands[..|commands| - 1]), commands[|commands| - 1])
  }

  /** Group and ledger names are unique, as the database demands, and every ledger has its group. */
  predicate ChartOk(b: Books) {
    && (forall i, j :: 0 <= i < j < |b.groups| ==> b.groups[i].name != b.groups[j].name)
    && (forall l :: l in b.ledgers ==> l.groupId < |b.groups|)
    && (forall i, j :: 0 <= i < j < |b.ledgers| ==> b.ledgers[i].name != b.ledgers[j].name)
  }

  predicate GroupsAmong(b: Books, defaults: seq<Group>) {
    forall g :: g in b.groups ==> g in defaults
  }

  /** Groups only ever come from the seeded chart. */
  predicate StandardGroups(b: Books) {
    GroupsAmong(b, DefaultGroups())
  }

  predicate VoucherOk(v: Voucher, ledgerCount: nat) {
    ValidateBalanced(v.entries).None? && OwnedLedgers(v.entries, ledgerCount)
  }

  /** The voucher at position i was given the next number of its type. */
  predicate NumberedAt(vouchers: seq<Voucher>, i: nat)
    requires i < |vouchers|
  {
    vouchers[i].number == VoucherNumber(vouchers[i].voucherType, CountType(vouchers[..i], vouchers[i].voucherType) + 1)
  }

  predicate Numbered(vouchers: seq<Voucher>) {
    forall i :: 0 <= i < |vouchers| ==> NumberedAt(vouchers, i)
  }

  predicate PostedOnce(vouchers: seq<Voucher>) {
    forall i, j :: 0 <= i < j < |vouchers| && vouchers[i].sourceInvoice.Some? ==>
      vouchers[i].sourceInvoice != vouchers[j].sourceInvoice
  }

  predicate WellFormed(b: Books) {
    && ChartOk(b)
    && (forall v :: v in b.vouchers ==> VoucherOk(v, |b.ledgers|))
    && Numbered(b.vouchers)
  }
}
