/** What the amounts of the books are made of, in terms of dates, sides, fields and ledger names alone. */
module BookMeanings {
  import opened Util
  import opened Text
  import opened Accounting
  import opened BookOperations
  import opened BookRuns
  import opened BookReports
  import opened BookLaws

  // ---------------------------------------------------------- financial year

  /** Every calendar day belongs to just one financial year. */
  lemma OneFinancialYear(year: int, month: nat, day: nat, y: int)
    requires 1 <= month <= 12 && 1 <= day <= 31
    ensures InYear(year * 10000 + month * 100 + day, y) <==> y == if month >= 4 then year else year - 1
  {
  }

  // --------------------------------------------------------- sides of a ledger

  /** What the entries book to a ledger on one side. */
  function Booked(entries: seq<Entry>, l: nat, side: Side): int {
    if entries == [] then 0
    else
      var e := entries[|entries| - 1];
      Booked(entries[..|entries| - 1], l, side) + if e.ledgerId == l && e.side == side then e.amount else 0
  }

  /** The same for the vouchers of a period. */
  function BookedIn(vouchers: seq<Voucher>, l: nat, side: Side, from: Date, to: Date): int {
    if vouchers == [] then 0
    else
      var v := vouchers[|vouchers| - 1];
      BookedIn(vouchers[..|vouchers| - 1], l, side, from, to) + if from <= v.date <= to then Booked(v.entries, l, side) else 0
  }

  lemma {:induction false} BookedIsSide(entries: seq<Entry>, l: nat, side: Side)
    ensures SumBy(entries, SideTo(l, side)) == Booked(entries, l, side)
  {
    if entries != [] {
      BookedIsSide(entries[..|entries| - 1], l, side);
    }
  }

  lemma {:induction false} BookedInWindow(vouchers: seq<Voucher>, w: Window, l: nat, side: Side, from: Date, to: Date)
    requires forall v :: v in vouchers ==> (w.Has(v.date) <==> from <= v.date <= to)
    ensures SumBy(vouchers, PerVoucherIn(DatedIn(w), SideTo(l, side))) == BookedIn(vouchers, l, side, from, to)
  {
    if vouchers != [] {
      var v := vouchers[|vouchers| - 1];
      assert v in vouchers;
      BookedInWindow(vouchers[..|vouchers| - 1], w, l, side, from, to);
      BookedIsSide(v.entries, l, side);
    }
  }

  /** A day before all vouchers. */
  function FirstDay(vouchers: seq<Voucher>): Date {
    if vouchers == [] then 0
    else
      var first, day := FirstDay(vouchers[..|vouchers| - 1]), vouchers[|vouchers| - 1].date;
      if day < first then day else first
  }

  lemma {:induction false} FirstDayIsFirst(vouchers: seq<Voucher>)
    ensures forall v :: v in vouchers ==> FirstDay(vouchers) <= v.date
  {
    if vouchers != [] {
      FirstDayIsFirst(vouchers[..|vouchers| - 1]);
      InitAndLast(vouchers);
    }
  }

  /** A line holds its ledger's debits and credits of the period, dated from and to inclusive; its opening is the
      ledger's own, debit positive, plus debits less credits of all vouchers before the period. */
  lemma LineMeaning(b: Books, l: nat, from: Date, to: Date)
    requires ChartOk(b) && l < |b.ledgers|
    ensures b.ledgers[l].groupId < |b.groups|
    ensures var line, ledger, first := LineFor(b, from, to, true)(l), b.ledgers[l], FirstDay(b.vouchers);
            && line.ledgerId == l && line.name == ledger.name
            && line.groupName == b.groups[ledger.groupId].name && line.nature == b.groups[ledger.groupId].nature
            && line.classification == b.groups[ledger.groupId].classification
            && line.debitTotal == BookedIn(b.vouchers, l, Debit, from, to)
            && line.creditTotal == BookedIn(b.vouchers, l, Credit, from, to)
            && line.openingNet == (if ledger.openingSide == Debit then ledger.openingBalance else -ledger.openingBalance)
                                  + BookedIn(b.vouchers, l, Debit, first, from - 1) - BookedIn(b.vouchers, l, Credit, first, from - 1)
            && LineFor(b, from, to, false)(l) == line.(openingNet := 0)
  {
    assert b.ledgers[l] in b.ledgers;
    FirstDayIsFirst(b.vouchers);
    SideMeaning(b, l, Debit, Between(from, to), from, to);
    SideMeaning(b, l, Credit, Between(from, to), from, to);
    SideMeaning(b, l, Debit, Before(from), FirstDay(b.vouchers), from - 1);
    SideMeaning(b, l, Credit, Before(from), FirstDay(b.vouchers), from - 1);
    SidesMakeNet(EntriesIn(b, Before(from)), l);
  }

  lemma SideMeaning(b: Books, l: nat, side: Side, w: Window, from: Date, to: Date)
    requires forall v :: v in b.vouchers ==> (w.Has(v.date) <==> from <= v.date <= to)
    ensures SumBy(EntriesIn(b, w), SideTo(l, side)) == BookedIn(b.vouchers, l, side, from, to)
  {
    EntriesInSum(b, w, SideTo(l, side));
    BookedInWindow(b.vouchers, w, l, side, from, to);
  }

  /** The closing balance on a day is the ledger's own opening and all entries dated up to that day, from 1900 on. */
  lemma ClosingAsOn(b: Books, l: nat, asOn: Date)
    requires ChartOk(b) && l < |b.ledgers| && 1900_01_01 <= asOn
    ensures var ledger, first := b.ledgers[l], FirstDay(b.vouchers);
            ClosingNet(LineFor(b, EPOCH, asOn, true)(l)) ==
            (if ledger.openingSide == Debit then ledger.openingBalance else -ledger.openingBalance)
            + BookedIn(b.vouchers, l, Debit, first, asOn) - BookedIn(b.vouchers, l, Credit, first, asOn)
  {
    FirstDayIsFirst(b.vouchers);
    LineMeaning(b, l, EPOCH, asOn);
    UpToDay(b.vouchers, l, Debit, FirstDay(b.vouchers), EPOCH, asOn);
    UpToDay(b.vouchers, l, Credit, FirstDay(b.vouchers), EPOCH, asOn);
  }

  lemma {:induction false} UpToDay(vouchers: seq<Voucher>, l: nat, side: Side, first: Date, from: Date, to: Date)
    requires from <= to && forall v :: v in vouchers ==> first <= v.date
    ensures BookedIn(vouchers, l, side, first, from - 1) + BookedIn(vouchers, l, side, from, to) == BookedIn(vouchers, l, side, first, to)
  {
    if vouchers != [] {
      assert vouchers[|vouchers| - 1] in vouchers;
      UpToDay(vouchers[..|vouchers| - 1], l, side, first, from, to);
    }
  }

  /** Reports list every ledger once, by name. */
  lemma LedgersByName(b: Books, i: nat, j: nat)
    requires i < j < |ListLedgers(b)|
    ensures ListLedgers(b)[i] < |b.ledgers| && ListLedgers(b)[j] < |b.ledgers| && ListLedgers(b)[i] != ListLedgers(b)[j]
    ensures StringLe(b.ledgers[ListLedgers(b)[i]].name, b.ledgers[ListLedgers(b)[j]].name)
  {
    ListLedgersFacts(b);
    assert ListLedgers(b)[i] in ListLedgers(b) && ListLedgers(b)[j] in ListLedgers(b);
    assert NameLe(b.ledgers)(ListLedgers(b)[i], ListLedgers(b)[j]);
    NameLeIsTotalPreorder(b.ledgers);
    SortKeepsDistinct(Range(|b.ledgers|), NameLe(b.ledgers));
  }

  /** A statement without a last day goes on to the end of the year 9999, and its vouchers come by date. */
  lemma StatementVouchersAre(b: Books, from: Date, to: Date, v: Voucher)
    ensures v in StatementVouchers(b, from, to) <==> v in b.vouchers && from <= v.date <= to
    ensures forall i, j :: 0 <= i < j < |StatementVouchers(b, from, to)| ==>
              StatementVouchers(b, from, to)[i].date <= StatementVouchers(b, from, to)[j].date
    ensures FAR_FUTURE == 9999_12_31
  {
    SortFacts(Filter(b.vouchers, DatedIn(Between(from, to))), DateLe);
    SortedByDate(StatementVouchers(b, from, to));
  }

  lemma SortedByDate(vouchers: seq<Voucher>)
    requires Sorted(vouchers, DateLe)
    ensures forall i, j :: 0 <= i < j < |vouchers| ==> vouchers[i].date <= vouchers[j].date
  {
    forall i, j | 0 <= i < j < |vouchers| ensures vouchers[i].date <= vouchers[j].date {
      assert DateLe(vouchers[i], vouchers[j]);
    }
  }

  // ------------------------------------------------------------------ profit

  predicate IsNominal(b: Books, l: nat) {
    l < |b.ledgers| && b.ledgers[l].groupId < |b.groups|
    && (b.groups[b.ledgers[l].groupId].nature == Income || b.groups[b.ledgers[l].groupId].nature == Expense)
  }

  /** Credits less debits of the entries on income and expense ledgers. */
  function Earned(b: Books, entries: seq<Entry>): int {
    if entries == [] then 0
    else
      var e := entries[|entries| - 1];
      Earned(b, entries[..|entries| - 1]) +
      if !IsNominal(b, e.ledgerId) then 0 else if e.side == Credit then e.amount else -e.amount
  }

  /** The same for the vouchers of a period. */
  function EarnedIn(b: Books, vouchers: seq<Voucher>, from: Date, to: Date): int {
    if vouchers == [] then 0
    else
      var v := vouchers[|vouchers| - 1];
      EarnedIn(b, vouchers[..|vouchers| - 1], from, to) + if from <= v.date <= to then Earned(b, v.entries) else 0
  }

  lemma {:induction false} EarnedIsMoved(b: Books, entries: seq<Entry>)
    requires ChartOk(b)
    ensures SumBy(entries, Picked(HasNature(b, NOMINAL))) == -Earned(b, entries)
  {
    if entries != [] {
      EarnedIsMoved(b, entries[..|entries| - 1]);
      NominalLedger(b, entries[|entries| - 1].ledgerId);
    }
  }

  lemma NominalLedger(b: Books, l: nat)
    requires ChartOk(b)
    ensures HasNature(b, NOMINAL)(l) <==> IsNominal(b, l)
  {
    if l < |b.ledgers| {
      assert b.ledgers[l] in b.ledgers;
    }
  }

  lemma {:induction false} EarnedInIsMoved(b: Books, vouchers: seq<Voucher>, from: Date, to: Date)
    requires ChartOk(b)
    ensures SumBy(vouchers, PerVoucherIn(DatedIn(Between(from, to)), Picked(HasNature(b, NOMINAL)))) == -EarnedIn(b, vouchers, from, to)
  {
    if vouchers != [] {
      EarnedInIsMoved(b, vouchers[..|vouchers| - 1], from, to);
      EarnedIsMoved(b, vouchers[|vouchers| - 1].entries);
    }
  }

  /** Net profit of a period counts exactly the entries on income and expense ledgers dated in it, credits positive. */
  lemma NetProfitMeaning(b: Books, from: Date, to: Date)
    requires WellFormed(b)
    ensures NetProfit(b, from, to) == EarnedIn(b, b.vouchers, from, to)
  {
    ProfitIsMovement(b, from, to);
    EarnedInIsMoved(b, b.vouchers, from, to);
  }

  /** The profit of the books from 1 April of the financial year of today. */
  ghost predicate IsProfitSinceApril(b: Books, today: Date, to: Date, profit: int) {
    forall y :: InYear(today, y) ==> profit == EarnedIn(b, b.vouchers, y * 10000 + 0401, to)
  }

  /** The profit from one day to another, 1 April and 31 March around today by default. */
  ghost predicate IsProfitFor(b: Books, today: Date, from: Option<Date>, to: Option<Date>, profit: int) {
    forall y :: InYear(today, y) ==>
      profit == EarnedIn(b, b.vouchers, if from.Some? then from.value else y * 10000 + 0401,
                         if to.Some? then to.value else (y + 1) * 10000 + 0331)
  }

  lemma ProfitSinceApril(b: Books, today: Date, to: Date)
    requires WellFormed(b)
    ensures IsProfitSinceApril(b, today, to, NetProfit(b, CurrentFyRange(today).0, to))
  {
    var profit := NetProfit(b, CurrentFyRange(today).0, to);
    forall y | InYear(today, y) ensures profit == EarnedIn(b, b.vouchers, y * 10000 + 0401, to) {
      ProfitOfYear(b, today, y, to);
    }
  }

  lemma ProfitOfYear(b: Books, today: Date, y: int, to: Date)
    requires WellFormed(b) && InYear(today, y)
    ensures NetProfit(b, CurrentFyRange(today).0, to) == EarnedIn(b, b.vouchers, y * 10000 + 0401, to)
  {
    FinancialYear(today, y);
    NetProfitMeaning(b, CurrentFyRange(today).0, to);
  }

  lemma ProfitByDefault(b: Books, today: Date, from: Option<Date>, to: Option<Date>)
    requires WellFormed(b)
    ensures var (fyFrom, fyTo) := CurrentFyRange(today);
            IsProfitFor(b, today, from, to, NetProfit(b, if from.Some? then from.value else fyFrom, if to.Some? then to.value else fyTo))
  {
    forall y | InYear(today, y) ensures CurrentFyRange(today) == (y * 10000 + 0401, (y + 1) * 10000 + 0331) {
      FinancialYear(today, y);
    }
    NetProfitMeaning(b, if from.Some? then from.value else CurrentFyRange(today).0, if to.Some? then to.value else CurrentFyRange(today).1);
  }

  // ----------------------------------------------------- what has to balance

  /** The amounts of the entries on one side. */
  function SideTotal(entries: seq<Entry>, side: Side): int {
    if entries == [] then 0
    else
      var e := entries[|entries| - 1];
      SideTotal(entries[..|entries| - 1], side) + if e.side == side then e.amount else 0
  }

  lemma {:induction false} SidesAdd(entries: seq<Entry>)
    ensures SumBy(entries, AmountOn(Debit)) == SideTotal(entries, Debit) && SumBy(entries, AmountOn(Credit)) == SideTotal(entries, Credit)
    ensures Imbalance(entries) == SideTotal(entries, Debit) - SideTotal(entries, Credit)
  {
    if entries != [] {
      SidesAdd(entries[..|entries| - 1]);
    }
  }

  /** What is wrong with a voucher: too few entries before an amount that is not positive, before sides that are more than
      a paisa apart. */
  lemma BalancedMeans(entries: seq<Entry>)
    ensures var fault, apart := ValidateBalanced(entries), SideTotal(entries, Debit) - SideTotal(entries, Credit);
            && (fault == Some(TooFewEntries) <==> |entries| < 2)
            && (fault == Some(NonPositiveAmount) <==> |entries| >= 2 && exists e :: e in entries && e.amount <= 0)
            && (fault == Some(DoesNotBalance) <==> |entries| >= 2 && (forall e :: e in entries ==> e.amount > 0) && !(-1 <= apart <= 1))
            && (fault == None <==> |entries| >= 2 && (forall e :: e in entries ==> e.amount > 0) && -1 <= apart <= 1)
  {
    SidesAdd(entries);
  }

  function IsOfType(t: VoucherType): Voucher -> bool { (v: Voucher) => v.voucherType == t }

  lemma {:induction false} CountMeans(vouchers: seq<Voucher>, t: VoucherType)
    ensures CountType(vouchers, t) == |Filter(vouchers, IsOfType(t))|
  {
    if vouchers != [] {
      CountMeans(vouchers[..|vouchers| - 1], t);
      InitAndLast(vouchers);
      FilterAppend(vouchers[..|vouchers| - 1], vouchers[|vouchers| - 1], IsOfType(t));
    }
  }

  /** A new voucher carries the total of its debits, and the number after those of its type. */
  lemma CreatedVoucher(b: Books, t: VoucherType, date: Date, entries: seq<Entry>, source: Option<nat>)
    ensures var v := CreateVoucher(b, t, date, entries, source).1;
            v.Ok? ==> v.value == Voucher(t, VoucherNumber(t, |Filter(b.vouchers, IsOfType(t))| + 1), date, entries, SideTotal(entries, Debit), source)
  {
    CountMeans(b.vouchers, t);
    SidesAdd(entries);
  }

  /** Both statements call themselves balanced if their two totals are at most a paisa apart. */
  lemma FlagsMean(tb: TrialBalance, bs: BalanceSheet)
    ensures tb.IsBalanced() <==> -1 <= tb.totalDebit - tb.totalCredit <= 1
    ensures bs.IsBalanced() <==> -1 <= bs.totalAssets - bs.totalLiabilities <= 1
  {
  }

  // ------------------------------------------------------- rows and sections

  /** The trial balance shows each ledger with a balance, under its own name and group, debit balances on the left. */
  lemma TrialBalanceShows(lines: seq<LedgerLine>, row: TrialBalanceRow)
    ensures row in Map(ShownLines(lines), RowOf) <==> exists line :: line in lines && IsTrialRow(row, line)
  {
    TrialBalanceRows(lines);
    InMap(ShownLines(lines), RowOf, row);
    forall line ensures IsTrialRow(row, line) <==> ClosingNet(line) != 0 && RowOf(line) == row {
      TrialRow(row, line);
    }
  }

  lemma TrialRow(row: TrialBalanceRow, line: LedgerLine)
    ensures IsTrialRow(row, line) <==> ClosingNet(line) != 0 && RowOf(line) == row
  {
  }

  predicate IsTrialRow(row: TrialBalanceRow, line: LedgerLine) {
    var net := line.openingNet + line.debitTotal - line.creditTotal;
    net != 0 && row == TrialBalanceRow(line.ledgerId, line.name, line.groupName, if net > 0 then net else 0, if net > 0 then 0 else -net)
  }

  function NatureName(n: Nature): string {
    match n
    case Asset => "asset"
    case Liability => "liability"
    case Income => "income"
    case Expense => "expense"
  }

  /** Its rows come by the names of their natures, then of their groups, then of the ledgers. */
  lemma RowOrder(a: LedgerLine, b: LedgerLine)
    ensures LineLe(a, b) <==>
            if NatureName(a.nature) != NatureName(b.nature) then StringLe(NatureName(a.nature), NatureName(b.nature))
            else if a.groupName != b.groupName then StringLe(a.groupName, b.groupName) else StringLe(a.name, b.name)
  {
    if a.nature != b.nature {
      NaturesDiffer(a.nature, b.nature);
    }
  }

  lemma NaturesDiffer(a: Nature, b: Nature)
    requires a != b
    ensures NatureName(a) != NatureName(b)
    ensures NatureRank(a) < NatureRank(b) <==> StringLe(NatureName(a), NatureName(b))
  {
    var s, t := NatureName(a), NatureName(b);
    FirstDifference(s, t, 0);
  }

  /** The ledger's balance as an amount on a statement: a debit balance counts with this sign. */
  predicate IsRow(row: StatementLine, line: LedgerLine, sign: int) {
    var net := line.openingNet + line.debitTotal - line.creditTotal;
    net != 0 && row == StatementLine(line.name, line.groupName, if sign == 1 then net else -net)
  }

  lemma {:induction false} InSection(lines: seq<LedgerLine>, shown: LedgerLine -> bool, present: LedgerLine -> StatementLine, row: StatementLine)
    ensures row in Section(lines, shown, present) <==> exists line :: line in lines && shown(line) && present(line) == row
  {
    if lines != [] {
      var init, last := lines[..|lines| - 1], lines[|lines| - 1];
      InSection(init, shown, present, row);
      InitAndLast(lines);
      assert forall line :: line in lines <==> line in init || line == last;
    }
  }

  /** A section of the balance sheet lists exactly the ledgers of its nature with a balance: assets with the debit
      balance, liabilities with the credit balance. */
  lemma SheetSections(lines: seq<LedgerLine>, row: StatementLine)
    ensures row in Section(lines, Shown(Asset), Debited) <==> exists line :: line in lines && line.nature == Asset && IsRow(row, line, 1)
    ensures row in Section(lines, Shown(Liability), Credited) <==>
            exists line :: line in lines && line.nature == Liability && IsRow(row, line, -1)
  {
    InSection(lines, Shown(Asset), Debited, row);
    InSection(lines, Shown(Liability), Credited, row);
  }

  predicate IsDirect(line: LedgerLine) {
    line.classification in {"sales", "purchase", "direct_income", "direct_expense", "stock"}
  }

  /** Income and expenses are direct, and enter gross profit, if their group is classified as one of five. */
  lemma ProfitSection(lines: seq<LedgerLine>, direct: bool, row: StatementLine)
    ensures row in Section(lines, ShownDirect(Income, direct), Credited) <==>
            exists line :: line in lines && line.nature == Income && IsDirect(line) == direct && IsRow(row, line, -1)
    ensures row in Section(lines, ShownDirect(Expense, direct), Debited) <==>
            exists line :: line in lines && line.nature == Expense && IsDirect(line) == direct && IsRow(row, line, 1)
  {
    InSection(lines, ShownDirect(Income, direct), Credited, row);
    InSection(lines, ShownDirect(Expense, direct), Debited, row);
  }

  // ------------------------------------------------------- rows of a statement

  predicate IsTxn(row: LedgerTxn, v: Voucher, e: Entry) {
    row == LedgerTxn(v.date, v.number, if e.side == Debit then e.amount else 0, if e.side == Credit then e.amount else 0, 0)
  }

  lemma {:induction false} VoucherRows(v: Voucher, entries: seq<Entry>, l: nat, row: LedgerTxn)
    ensures row in VoucherTxns(v, entries, l) <==> exists e :: e in entries && e.ledgerId == l && IsTxn(row, v, e)
  {
    if entries != [] {
      VoucherRows(v, entries[..|entries| - 1], l, row);
      InitAndLast(entries);
      assert forall e :: e in entries <==> e in entries[..|entries| - 1] || e == entries[|entries| - 1];
    }
  }

  /** The rows of a statement are the entries on the ledger, each with its voucher's date and number and its amount on
      its own side. */
  lemma {:induction false} StatementRows(vouchers: seq<Voucher>, l: nat, row: LedgerTxn)
    ensures row in TxnsOf(vouchers, l) <==> exists v, e :: v in vouchers && e in v.entries && e.ledgerId == l && IsTxn(row, v, e)
  {
    if vouchers != [] {
      var init, last := vouchers[..|vouchers| - 1], vouchers[|vouchers| - 1];
      StatementRows(init, l, row);
      VoucherRows(last, last.entries, l, row);
      InitAndLast(vouchers);
      assert forall v :: v in vouchers <==> v in init || v == last;
    }
  }

  // -------------------------------------------------------------- posting

  datatype Field = TaxableField | CgstField | SgstField | IgstField | CessField

  function FieldOf(i: InvoiceItem, f: Field): Option<int> {
    match f
    case TaxableField => i.taxable
    case CgstField => i.cgst
    case SgstField => i.sgst
    case IgstField => i.igst
    case CessField => i.cess
  }

  /** The sum of a field over the items; where it is missing it adds nothing. */
  function FieldTotal(items: seq<InvoiceItem>, f: Field): int {
    if items == [] then 0
    else
      var o := FieldOf(items[|items| - 1], f);
      FieldTotal(items[..|items| - 1], f) + if o.Some? then o.value else 0
  }

  /** What the entries book to the ledgers of a name on one side. */
  function BookedTo(ledgers: seq<Ledger>, entries: seq<Entry>, name: string, side: Side): int {
    if entries == [] then 0
    else
      var e := entries[|entries| - 1];
      BookedTo(ledgers, entries[..|entries| - 1], name, side) +
      if e.ledgerId < |ledgers| && ledgers[e.ledgerId].name == name && e.side == side then e.amount else 0
  }

  function PositivePart(x: int): int { if x > 0 then x else 0 }

  /** Of four components, the positive ones booked to the ledger of the name. */
  function ComponentsTo(cs: seq<(string, int)>, name: string): int {
    if cs == [] then 0
    else
      var c := cs[|cs| - 1];
      ComponentsTo(cs[..|cs| - 1], name) + if c.0 == name then PositivePart(c.1) else 0
  }

  lemma {:induction false} LegsBook(r: Books, inv: Invoice, cs: seq<(string, int)>, legs: seq<Entry>, name: string)
    requires LegsMatch(r, inv, cs, legs)
    ensures BookedTo(r.ledgers, legs, name, if inv.isSales then Credit else Debit) == ComponentsTo(cs, name)
    ensures BookedTo(r.ledgers, legs, name, if inv.isSales then Debit else Credit) == 0
  {
    if cs != [] {
      var c := cs[|cs| - 1];
      LegsBook(r, inv, cs[..|cs| - 1], if c.1 <= 0 then legs else legs[..|legs| - 1], name);
    }
  }

  lemma {:induction false} FieldTotals(items: seq<InvoiceItem>)
    ensures SumBy(items, Taxable) == FieldTotal(items, TaxableField)
    ensures SumBy(items, Cgst) == FieldTotal(items, CgstField) && SumBy(items, Sgst) == FieldTotal(items, SgstField)
    ensures SumBy(items, Igst) == FieldTotal(items, IgstField) && SumBy(items, Cess) == FieldTotal(items, CessField)
  {
    if items != [] {
      FieldTotals(items[..|items| - 1]);
    }
  }

  lemma ComponentsAppend(cs: seq<(string, int)>, c: (string, int), name: string)
    ensures ComponentsTo(cs + [c], name) == ComponentsTo(cs, name) + if c.0 == name then PositivePart(c.1) else 0
  {
    assert (cs + [c])[..|cs|] == cs;
  }

  function Four(a: (string, int), b: (string, int), c: (string, int), d: (string, int)): seq<(string, int)> { [a] + [b] + [c] + [d] }

  lemma ComponentsOfFour(a: (string, int), b: (string, int), c: (string, int), d: (string, int), name: string)
    ensures ComponentsTo(Four(a, b, c, d), name) ==
            (if a.0 == name then PositivePart(a.1) else 0) + (if b.0 == name then PositivePart(b.1) else 0)
            + (if c.0 == name then PositivePart(c.1) else 0) + (if d.0 == name then PositivePart(d.1) else 0)
    ensures SumBy(Four(a, b, c, d), ComponentAmount) == a.1 + b.1 + c.1 + d.1
  {
    ComponentsAppend([a] + [b] + [c], d, name);
    ComponentsAppend([a] + [b], c, name);
    ComponentsAppend([a], b, name);
    ComponentsAppend([], a, name);
    SumAppend([a] + [b] + [c], d, ComponentAmount);
    SumAppend([a] + [b], c, ComponentAmount);
    SumAppend([a], b, ComponentAmount);
    SumAppend([], a, ComponentAmount);
    assert [] + [a] == [a];
  }

  lemma TaxNames(isSales: bool)
    ensures TaxLedgerName(isSales, 0) == if isSales then "Output CGST" else "Input CGST"
    ensures TaxLedgerName(isSales, 1) == if isSales then "Output SGST" else "Input SGST"
    ensures TaxLedgerName(isSales, 2) == if isSales then "Output IGST" else "Input IGST"
    ensures TaxLedgerName(isSales, 3) == if isSales then "Output CESS" else "Input CESS"
    ensures forall i: nat, j: nat :: i < j < 4 ==> TaxLedgerName(isSales, i) != TaxLedgerName(isSales, j)
  {
    forall i: nat, j: nat | i < j < 4 ensures TaxLedgerName(isSales, i) != TaxLedgerName(isSales, j) {
      assert TaxLedgerName(isSales, i)[|TaxLedgerName(isSales, i)| - 4] != TaxLedgerName(isSales, j)[|TaxLedgerName(isSales, j)| - 4]
          || TaxLedgerName(isSales, i)[|TaxLedgerName(isSales, i)| - 3] != TaxLedgerName(isSales, j)[|TaxLedgerName(isSales, j)| - 3];
    }
  }

  /** The entries of a posted invoice, in the words of the chart: the party for all amounts together, Sales or Purchase for
      the taxable value on the other side, and on that side the tax ledgers, each for the positive sum of its own field. */
  ghost predicate BooksFields(ledgers: seq<Ledger>, inv: Invoice, entries: seq<Entry>) {
    && |entries| >= 2 && entries[0].ledgerId < |ledgers| && entries[1].ledgerId < |ledgers|
    && entries[0].side == (if inv.isSales then Debit else Credit)
    && entries[0].amount == FieldTotal(inv.items, TaxableField) + FieldTotal(inv.items, CgstField) + FieldTotal(inv.items, SgstField)
                            + FieldTotal(inv.items, IgstField) + FieldTotal(inv.items, CessField)
    && ledgers[entries[1].ledgerId].name == (if inv.isSales then "Sales" else "Purchase")
    && entries[1].side == (if inv.isSales then Credit else Debit) && entries[1].amount == FieldTotal(inv.items, TaxableField)
    && (inv.isSales ==>
      && BookedTo(ledgers, entries[2..], "Output CGST", Credit) == PositivePart(FieldTotal(inv.items, CgstField))
      && BookedTo(ledgers, entries[2..], "Output SGST", Credit) == PositivePart(FieldTotal(inv.items, SgstField))
      && BookedTo(ledgers, entries[2..], "Output IGST", Credit) == PositivePart(FieldTotal(inv.items, IgstField))
      && BookedTo(ledgers, entries[2..], "Output CESS", Credit) == PositivePart(FieldTotal(inv.items, CessField)))
    && (!inv.isSales ==>
      && BookedTo(ledgers, entries[2..], "Input CGST", Debit) == PositivePart(FieldTotal(inv.items, CgstField))
      && BookedTo(ledgers, entries[2..], "Input SGST", Debit) == PositivePart(FieldTotal(inv.items, SgstField))
      && BookedTo(ledgers, entries[2..], "Input IGST", Debit) == PositivePart(FieldTotal(inv.items, IgstField))
      && BookedTo(ledgers, entries[2..], "Input CESS", Debit) == PositivePart(FieldTotal(inv.items, CessField)))
    && NothingOn(ledgers, entries[2..], if inv.isSales then Debit else Credit)
  }

  ghost predicate NothingOn(ledgers: seq<Ledger>, entries: seq<Entry>, side: Side) {
    forall name :: BookedTo(ledgers, entries, name, side) == 0
  }

  lemma PostedFields(b: Books, inv: Invoice, today: Date)
    requires WellFormed(b) && StandardGroups(b)
    ensures var (r, v) := PostInvoice(b, inv, today); v.Ok? ==> BooksFields(r.ledgers, inv, v.value.entries)
  {
    var (r, v) := PostInvoice(b, inv, today);
    PostedVoucherShape(b, inv, today);
    if v.Ok? {
      ShapeBooksFields(r, inv, v.value.entries);
    }
  }

  lemma ShapeBooksFields(r: Books, inv: Invoice, entries: seq<Entry>)
    requires BooksTheInvoice(r, inv, entries)
    ensures BooksFields(r.ledgers, inv, entries)
  {
    var s := inv.isSales;
    FieldTotals(inv.items);
    TaxNames(s);
    LegTotal(r, inv, entries[2..], 0);
    LegTotal(r, inv, entries[2..], 1);
    LegTotal(r, inv, entries[2..], 2);
    LegTotal(r, inv, entries[2..], 3);
    var legs, otherSide := entries[2..], if s then Debit else Credit;
    forall name ensures BookedTo(r.ledgers, legs, name, otherSide) == 0 {
      LegsBook(r, inv, TaxComponents(inv), entries[2..], name);
    }
    AllComponents(inv);
  }

  lemma AllComponents(inv: Invoice)
    ensures var cs := TaxComponents(inv);
            cs == Four(cs[0], cs[1], cs[2], cs[3]) && SumBy(cs, ComponentAmount) == cs[0].1 + cs[1].1 + cs[2].1 + cs[3].1
  {
    var cs := TaxComponents(inv);
    assert cs == Four(cs[0], cs[1], cs[2], cs[3]);
    ComponentsOfFour(cs[0], cs[1], cs[2], cs[3], "");
  }

  lemma LegTotal(r: Books, inv: Invoice, legs: seq<Entry>, i: nat)
    requires i < 4 && LegsMatch(r, inv, TaxComponents(inv), legs)
    ensures BookedTo(r.ledgers, legs, TaxLedgerName(inv.isSales, i), if inv.isSales then Credit else Debit) ==
            PositivePart(TaxComponents(inv)[i].1)
  {
    var cs := TaxComponents(inv);
    TaxNames(inv.isSales);
    AllComponents(inv);
    LegsBook(r, inv, cs, legs, TaxLedgerName(inv.isSales, i));
    ComponentsOfFour(cs[0], cs[1], cs[2], cs[3], TaxLedgerName(inv.isSales, i));
  }

  /** The party of a sale is the buyer, of a purchase the supplier, or else "Unknown Party"; names are stripped and cut to
      200 characters. */
  lemma PartyIs(inv: Invoice)
    ensures var raw := if inv.isSales then inv.buyerName else inv.supplierName;
            var given := if raw.Some? && raw.value != "" then raw.value else "Unknown Party";
            |PartyName(inv)| <= 200 && PartyName(inv) <= Strip(given) && (|Strip(given)| <= 200 ==> PartyName(inv) == Strip(given))
  {
  }

  /** A party whose name a ledger has, in whatever case, is that ledger. One seen for the first time gets a ledger of its
      own, opening at zero, among the debtors for a sale and among the creditors for a purchase. */
  ghost predicate HasParty(before: seq<Ledger>, groups: seq<Group>, after: seq<Ledger>, inv: Invoice, party: nat) {
    && party < |after| && Lower(after[party].name) == Lower(PartyName(inv))
    && if exists l :: l in before && Lower(l.name) == Lower(PartyName(inv)) then after == before
       else
         && |after| == |before| + 1 && after[..|before|] == before && party == |before|
         && after[party].name == PartyName(inv) && after[party].openingBalance == 0 && after[party].openingSide == Debit
         && after[party].groupId < |groups|
         && groups[after[party].groupId].classification == if inv.isSales then "receivable" else "payable"
  }

  /** The statement on which a group of the seeded chart belongs follows from its classification. */
  lemma SeededNatures(i: nat)
    requires i < 16
    ensures var g := DefaultGroup(i);
            && (g.nature == Income <==> g.classification in {"sales", "direct_income", "indirect_income"})
            && (g.nature == Expense <==> g.classification in {"purchase", "direct_expense", "indirect_expense"})
            && (g.nature == Asset <==> g.classification in {"fixed_asset", "current_asset", "bank", "cash", "receivable"})
  {
  }

  lemma PartyOnChart(chart: Books, inv: Invoice)
    requires WellFormed(chart) && exists g :: g in chart.groups && g.classification == PartyClassification(inv)
    ensures var (r, party) := GetOrCreateParty(chart, PartyName(inv), PartyClassification(inv));
            party.Ok? ==> r.groups == chart.groups && HasParty(chart.ledgers, chart.groups, r.ledgers, inv, party.value)
  {
    LikeNamed(chart.ledgers, Lower(PartyName(inv)));
    PartyFacts(chart, PartyName(inv), PartyClassification(inv));
  }

  lemma PostedParty(b: Books, inv: Invoice, today: Date)
    requires WellFormed(b) && StandardGroups(b)
    ensures var (r, v) := PostInvoice(b, inv, today);
            v.Ok? ==> |v.value.entries| >= 2 && HasParty(EnsureChart(b).ledgers, r.groups, r.ledgers, inv, v.value.entries[0].ledgerId)
  {
    var chart := SeededChart(b, inv);
    PartyOnChart(chart, inv);
    if PostOnChart(chart, inv, today).1.Ok? {
      PostOnChartParty(chart, inv, today);
    }
  }

  lemma PostOnChartParty(chart: Books, inv: Invoice, today: Date)
    requires PostOnChart(chart, inv, today).1.Ok?
    ensures var party := GetOrCreateParty(chart, PartyName(inv), PartyClassification(inv));
            var (r, v) := PostOnChart(chart, inv, today);
            && party.1.Ok? && r.ledgers == party.0.ledgers && r.groups == party.0.groups
            && |v.value.entries| >= 2 && v.value.entries[0].ledgerId == party.1.value
  {
    var party := GetOrCreateParty(chart, PartyName(inv), PartyClassification(inv));
    PostedParts(party.0, inv, party.1.value, today);
  }

  function NegativePartOf(x: int): int { if x < 0 then x else 0 }

  /** When an invoice may be posted, by its own fields: tax sums below zero come to at most one paisa. */
  lemma PostableMeaning(chart: Books, inv: Invoice)
    ensures Postable(chart, inv) <==>
              && (forall v :: v in chart.vouchers ==> v.sourceInvoice != Some(inv.id))
              && FieldTotal(inv.items, TaxableField) > 0
              && |LedgersLike(chart.ledgers, Lower(PartyName(inv)))| <= 1
              && NegativePartOf(FieldTotal(inv.items, CgstField)) + NegativePartOf(FieldTotal(inv.items, SgstField))
                 + NegativePartOf(FieldTotal(inv.items, IgstField)) + NegativePartOf(FieldTotal(inv.items, CessField)) >= -1
              && FieldTotal(inv.items, TaxableField) + FieldTotal(inv.items, CgstField) + FieldTotal(inv.items, SgstField)
                 + FieldTotal(inv.items, IgstField) + FieldTotal(inv.items, CessField) > 0
  {
    FieldTotals(inv.items);
    AllComponents(inv);
    NegativesOfFour(inv);
  }

  lemma NegativesOfFour(inv: Invoice)
    ensures var cs := TaxComponents(inv);
            NegativeTax(inv) == NegativePartOf(cs[0].1) + NegativePartOf(cs[1].1) + NegativePartOf(cs[2].1) + NegativePartOf(cs[3].1)
  {
    var cs := TaxComponents(inv);
    assert cs == [cs[0]] + [cs[1]] + [cs[2]] + [cs[3]];
    SumAppend([cs[0]] + [cs[1]] + [cs[2]], cs[3], NegativePart);
    SumAppend([cs[0]] + [cs[1]], cs[2], NegativePart);
    SumAppend([cs[0]], cs[1], NegativePart);
    SumAppend([], cs[0], NegativePart);
    assert [] + [cs[0]] == [cs[0]];
  }

  /** Voucher numbers are the type's letters, a dash and the count in at least four digits. */
  lemma VoucherNumbers(n: nat)
    ensures VoucherNumber(Sales, n) == "SAL-" + Pad4(n) && VoucherNumber(Purchase, n) == "PUR-" + Pad4(n)
    ensures VoucherNumber(Receipt, n) == "RCT-" + Pad4(n) && VoucherNumber(Payment, n) == "PMT-" + Pad4(n)
    ensures VoucherNumber(Contra, n) == "CTR-" + Pad4(n) && VoucherNumber(Journal, n) == "JV-" + Pad4(n)
    ensures VoucherNumber(DebitNote, n) == "DN-" + Pad4(n) && VoucherNumber(CreditNote, n) == "CN-" + Pad4(n)
    ensures Numeral(Pad4(n)) == n && |Pad4(n)| >= 4 && (n < 10000 ==> |Pad4(n)| == 4) && (n >= 1000 ==> Pad4(n)[0] != '0')
    ensures forall i :: 0 <= i < |Pad4(n)| ==> '0' <= Pad4(n)[i] <= '9'
  {
    Pad4RoundTrip(n);
    LeadingDigit(n);
    assert "SAL" + "-" == "SAL-" && "PUR" + "-" == "PUR-" && "RCT" + "-" == "RCT-" && "PMT" + "-" == "PMT-";
    assert "CTR" + "-" == "CTR-" && "JV" + "-" == "JV-" && "DN" + "-" == "DN-" && "CN" + "-" == "CN-";
  }

  /** A numeral has no leading zero, and four digits from 1000 on. */
  lemma {:induction false} LeadingDigit(n: nat)
    ensures n >= 1 ==> Decimal(n)[0] != '0'
    ensures n >= 10 ==> |Decimal(n)| >= 2
    ensures n >= 100 ==> |Decimal(n)| >= 3
    ensures n >= 1000 ==> |Decimal(n)| >= 4
    ensures (n < 10 ==> |Decimal(n)| == 1) && (n < 100 ==> |Decimal(n)| <= 2) && (n < 1000 ==> |Decimal(n)| <= 3)
    ensures n < 10000 ==> |Decimal(n)| <= 4
  {
    if n >= 10 {
      LeadingDigit(n / 10);
    }
  }
}
