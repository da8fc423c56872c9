/** Identities between the statements of any well-formed books, and the bounds on how far they can drift. */
module BookLaws {
  import opened Util
  import opened Accounting
  import opened BookOperations
  import opened BookRuns
  import opened BookReports

  // ----------------------------------------------------------- trial balance

  /** Total debit minus total credit of the trial balance as on a date. */
  function TrialBalanceDifference(b: Books, asOn: Date): int
    requires ChartOk(b)
  {
    SumBy(LedgerLines(b, EPOCH, asOn, true), ClosingNet)
  }

  /** The signed imbalances of the vouchers a trial balance as on a date takes in. */
  function Drift(b: Books, asOn: Date): int {
    SumBy(Filter(b.vouchers, Covered(EPOCH, asOn)), PerVoucher(Signed))
  }

  lemma EveryNature(n: Nature)
    ensures n in ALL
  {
  }

  lemma {:induction false} AllNaturesMoveEverything(b: Books, vouchers: seq<Voucher>, p: Voucher -> bool)
    requires ChartOk(b) && forall v :: v in vouchers ==> VoucherOk(v, |b.ledgers|)
    ensures SumBy(vouchers, PerVoucherIn(p, Picked(HasNature(b, ALL)))) == SumBy(vouchers, PerVoucherIn(p, Signed))
  {
    if vouchers != [] {
      var v := vouchers[|vouchers| - 1];
      AllNaturesMoveEverything(b, vouchers[..|vouchers| - 1], p);
      assert VoucherOk(v, |b.ledgers|);
      forall e | e in v.entries ensures HasNature(b, ALL)(e.ledgerId) {
        EveryNature(NatureOf(b, e.ledgerId));
      }
      SumCongruent(v.entries, Picked(HasNature(b, ALL)), Signed);
    }
  }

  lemma ClosingsOfAll(lines: seq<LedgerLine>)
    ensures SumBy(lines, ClosingNet) == SumBy(lines, ClosingOf(ALL))
  {
    forall line: LedgerLine ensures line.nature in ALL {
      EveryNature(line.nature);
    }
    SumCongruent(lines, ClosingNet, ClosingOf(ALL));
  }

  lemma DriftBounded(vouchers: seq<Voucher>, n: nat)
    requires forall v :: v in vouchers ==> VoucherOk(v, n)
    ensures -|vouchers| <= SumBy(vouchers, PerVoucher(Signed)) <= |vouchers|
  {
    forall v | v in vouchers ensures -1 <= PerVoucher(Signed)(v) <= 1 {
      assert VoucherOk(v, n);
    }
    SumBounded(vouchers, PerVoucher(Signed), 1);
  }

  lemma DriftOverAll(b: Books, asOn: Date)
    ensures Drift(b, asOn) == SumBy(b.vouchers, PerVoucherIn(Covered(EPOCH, asOn), Signed))
  {
    SumFilter(b.vouchers, Covered(EPOCH, asOn), PerVoucher(Signed), PerVoucherIn(Covered(EPOCH, asOn), Signed));
  }

  /** The trial balance is off by exactly the openings plus the imbalances of the vouchers it covers; each voucher
      contributes at most a paisa. */
  lemma TrialBalanceDrift(b: Books, asOn: Date)
    requires WellFormed(b)
    ensures TrialBalanceDifference(b, asOn) == Openings(b, ALL) + Drift(b, asOn)
    ensures -|Filter(b.vouchers, Covered(EPOCH, asOn))| <= Drift(b, asOn) <= |Filter(b.vouchers, Covered(EPOCH, asOn))|
  {
    ClosingsOfAll(LedgerLines(b, EPOCH, asOn, true));
    ClosingsWithOpening(b, EPOCH, asOn, ALL);
    AllNaturesMoveEverything(b, b.vouchers, Covered(EPOCH, asOn));
    DriftOverAll(b, asOn);
    DriftBounded(Filter(b.vouchers, Covered(EPOCH, asOn)), |b.ledgers|);
  }

  /** The same for the books any sequence of operations leaves behind. */
  lemma TrialBalanceOfEveryRun(commands: seq<Command>, asOn: Date)
    ensures var b := Run(EMPTY, commands);
            && WellFormed(b)
            && TrialBalanceDifference(b, asOn) == Openings(b, ALL) + Drift(b, asOn)
            && -|Filter(b.vouchers, Covered(EPOCH, asOn))| <= TrialBalanceDifference(b, asOn) - Openings(b, ALL)
            && TrialBalanceDifference(b, asOn) - Openings(b, ALL) <= |Filter(b.vouchers, Covered(EPOCH, asOn))|
  {
    EveryRunIsSound(commands);
    TrialBalanceDrift(Run(EMPTY, commands), asOn);
  }

  function Repeat(c: Command, n: nat): seq<Command> {
    seq(n, _ => c)
  }

  const LOPSIDED := [Entry(0, Debit, 2), Entry(0, Credit, 1)]

  lemma DriftOfAppended(b: Books, v: Voucher, asOn: Date)
    ensures Drift(b.(vouchers := b.vouchers + [v]), asOn)
         == Drift(b, asOn) + if Covered(EPOCH, asOn)(v) then Imbalance(v.entries) else 0
  {
    FilterAppend(b.vouchers, v, Covered(EPOCH, asOn));
    if Covered(EPOCH, asOn)(v) {
      SumAppend(Filter(b.vouchers, Covered(EPOCH, asOn)), v, PerVoucher(Signed));
    } else {
      assert Filter(b.vouchers, Covered(EPOCH, asOn)) + [] == Filter(b.vouchers, Covered(EPOCH, asOn));
    }
  }

  lemma TwoEntryVoucherIsAccepted(b: Books, t: VoucherType, date: Date, e: Entry, f: Entry) returns (v: Voucher)
    requires WellFormed(b) && e.ledgerId < |b.ledgers| && f.ledgerId < |b.ledgers| && e.amount > 0 && f.amount > 0
    requires -TOLERANCE <= Signed(e) + Signed(f) <= TOLERANCE
    ensures Step(b, NewVoucher(t, date, [e, f])) == b.(vouchers := b.vouchers + [v])
    ensures WellFormed(b.(vouchers := b.vouchers + [v]))
    ensures v.entries == [e, f] && v.date == date && Imbalance(v.entries) == Signed(e) + Signed(f)
  {
    TwoEntries(e, f);
    CreateVoucherOutcome(b, t, date, [e, f], None);
    var r := CreateVoucher(b, t, date, [e, f], None);
    assert forall x :: x in [e, f] ==> x == e || x == f;
    v := r.1.value;
  }

  lemma LopsidedVoucherIsAccepted(b: Books, t: VoucherType, date: Date, asOn: Date)
    requires WellFormed(b) && b.ledgers != [] && date <= asOn
    ensures var r := Step(b, NewVoucher(t, date, LOPSIDED));
            WellFormed(r) && r.ledgers == b.ledgers && r.groups == b.groups && Drift(r, asOn) == Drift(b, asOn) + 1
  {
    var v := TwoEntryVoucherIsAccepted(b, t, date, LOPSIDED[0], LOPSIDED[1]);
    DriftOfAppended(b, v, asOn);
  }

  lemma RunRepeated(b: Books, c: Command, n: nat)
    ensures Run(b, Repeat(c, 0)) == b
    ensures Run(b, Repeat(c, n + 1)) == Step(Run(b, Repeat(c, n)), c)
  {
    assert Repeat(c, n + 1)[..n] == Repeat(c, n);
  }

  /** The bound is sharp: n vouchers, each a paisa over on the debit side, move the difference by n paise. */
  lemma {:induction false} DriftIsUnbounded(b: Books, n: nat, t: VoucherType, date: Date, asOn: Date)
    requires WellFormed(b) && b.ledgers != [] && date <= asOn
    ensures var r := Run(b, Repeat(NewVoucher(t, date, LOPSIDED), n));
            WellFormed(r) && r.ledgers == b.ledgers && r.groups == b.groups && Drift(r, asOn) == Drift(b, asOn) + n
  {
    var c := NewVoucher(t, date, LOPSIDED);
    if n == 0 {
      RunRepeated(b, c, 0);
    } else {
      DriftIsUnbounded(b, n - 1, t, date, asOn);
      RunRepeated(b, c, n - 1);
      LopsidedVoucherIsAccepted(Run(b, Repeat(c, n - 1)), t, date, asOn);
    }
  }

  lemma TwoEntries(e: Entry, f: Entry)
    ensures Imbalance([e, f]) == Signed(e) + Signed(f)
  {
    SumOfTwo(e, f, Signed);
  }

  lemma LopsidedPair(b: Books, t: VoucherType, date: Date, asOn: Date)
    requires WellFormed(b) && b.ledgers != [] && date <= asOn && b.vouchers == [] && Openings(b, ALL) == 0
    ensures var r := Run(b, Repeat(NewVoucher(t, date, LOPSIDED), 2));
            WellFormed(r) && TrialBalanceDifference(r, asOn) == 2
  {
    DriftIsUnbounded(b, 2, t, date, asOn);
    var r := Run(b, Repeat(NewVoucher(t, date, LOPSIDED), 2));
    TrialBalanceDrift(r, asOn);
    SameOpenings(b, r, ALL);
  }

  lemma {:induction false} RunAfter(b: Books, c: Command, commands: seq<Command>)
    ensures Run(b, [c] + commands) == Run(Step(b, c), commands)
  {
    if commands == [] {
      assert [c] + commands == [c] && [c][..0] == [];
    } else {
      var init, last := commands[..|commands| - 1], commands[|commands| - 1];
      RunAfter(b, c, init);
      RunSnoc(b, [c] + init, last);
      assert [c] + commands == [c] + init + [last];
    }
  }

  lemma RunSnoc(b: Books, commands: seq<Command>, c: Command)
    ensures Run(b, commands + [c]) == Step(Run(b, commands), c)
  {
    assert (commands + [c])[..|commands|] == commands;
  }

  /** The books of a new organisation: the seeded chart, opening at zero, with cash at 0 and sales at 2. */
  ghost predicate IsNewChart(b: Books) {
    && WellFormed(b) && b.vouchers == [] && |b.ledgers| == 14
    && (forall l :: l in b.ledgers ==> l.openingBalance == 0)
    && NatureOf(b, 0) == Asset && NatureOf(b, 2) == Income
  }

  lemma NewBooks()
    ensures IsNewChart(Step(EMPTY, InitialiseChart))
  {
    var b := EnsureChart(EMPTY);
    EnsureChartFacts(EMPTY);
    SeedsNewBooks(EMPTY, b, DefaultGroups(), DefaultLedgers());
    HomesOfCashAndSales();
    SeededNature(b, 0, Asset);
    SeededNature(b, 2, Income);
  }

  lemma HomesOfCashAndSales()
    ensures DefaultGroup(HomeOf(0)).nature == Asset && DefaultGroup(HomeOf(2)).nature == Income
  {
  }

  lemma SeedsNewBooks(b: Books, r: Books, groups: seq<Group>, ledgers: seq<DefaultLedger>)
    requires ChartOk(r) && Seeded(b, r, groups, ledgers) && b.ledgers == [] && b.vouchers == []
    ensures WellFormed(r) && r.vouchers == [] && forall l :: l in r.ledgers ==> l.openingBalance == 0
  {
  }

  lemma SeededNature(b: Books, k: nat, nature: Nature)
    requires b == EnsureChart(EMPTY) && k < 14 && nature == DefaultGroup(HomeOf(k)).nature
    ensures ChartOk(b) && |b.ledgers| == 14 && NatureOf(b, k) == nature
  {
    EnsureChartFacts(EMPTY);
    SeededLedger(k);
  }

  lemma NothingOpens(b: Books, natures: set<Nature>)
    requires ChartOk(b) && forall l :: l in b.ledgers ==> l.openingBalance == 0
    ensures Openings(b, natures) == 0
  {
    SumZero(Range(|b.ledgers|), OpeningWithin(b, HasNature(b, natures)));
  }

  /** So the documented tie of the trial balance fails: on a newly seeded chart two such vouchers are enough. */
  lemma TrialBalanceNeedNotTie(t: VoucherType, date: Date, asOn: Date)
    requires date <= asOn
    ensures var r := Run(EMPTY, [InitialiseChart] + Repeat(NewVoucher(t, date, LOPSIDED), 2));
            WellFormed(r) && TrialBalanceDifference(r, asOn) == 2
  {
    var b := Step(EMPTY, InitialiseChart);
    NewBooks();
    NothingOpens(b, ALL);
    RunAfter(EMPTY, InitialiseChart, Repeat(NewVoucher(t, date, LOPSIDED), 2));
    LopsidedPair(b, t, date, asOn);
  }

  lemma SameOpenings(b: Books, r: Books, natures: set<Nature>)
    requires ChartOk(b) && ChartOk(r) && r.ledgers == b.ledgers && r.groups == b.groups
    ensures Openings(r, natures) == Openings(b, natures)
  {
    SumCongruent(Range(|b.ledgers|), OpeningWithin(r, HasNature(r, natures)), OpeningWithin(b, HasNature(b, natures)));
  }

  // ---------------------------------------------------------- balance sheet

  const NOMINAL := {Income, Expense}

  function NetProfit(b: Books, from: Date, to: Date): int
    requires ChartOk(b)
  {
    -SumBy(LedgerLines(b, from, to, false), ClosingOf(NOMINAL))
  }

  /** Total assets minus total liabilities of the balance sheet as on a date, drawn up today. */
  function SheetDifference(b: Books, today: Date, asOn: Date): int
    requires ChartOk(b)
  {
    var lines := LedgerLines(b, EPOCH, asOn, true);
    SumBy(lines, ClosingOf({Asset})) + SumBy(lines, ClosingOf({Liability})) - NetProfit(b, CurrentFyRange(today).0, asOn)
  }

  /** Vouchers the balances take in but the profit of the current year does not. */
  function LeftOut(fyFrom: Date, asOn: Date): Voucher -> bool {
    (v: Voucher) => Covered(EPOCH, asOn)(v) && !Between(fyFrom, asOn).Has(v.date)
  }

  /** The profit the sheet leaves out, credit positive: nominal openings and earlier years' income and expenses. */
  function OmittedProfit(b: Books, fyFrom: Date, asOn: Date): int
    requires ChartOk(b)
  {
    -Openings(b, NOMINAL) - Movements(b, LeftOut(fyFrom, asOn), NOMINAL)
  }

  lemma NaturesSplit(lines: seq<LedgerLine>)
    ensures SumBy(lines, ClosingOf(ALL))
         == SumBy(lines, ClosingOf({Asset})) + SumBy(lines, ClosingOf({Liability})) + SumBy(lines, ClosingOf(NOMINAL))
  {
    SumPlus(lines, ClosingOf({Asset}), ClosingOf({Liability}), ClosingOf({Asset, Liability}));
    SumPlus(lines, ClosingOf({Asset, Liability}), ClosingOf(NOMINAL), ClosingOf(ALL));
  }

  /** Vouchers that fall into exactly one of two selections move what the two move together. */
  lemma MovementsSplit(b: Books, p: Voucher -> bool, q: Voucher -> bool, either: Voucher -> bool, natures: set<Nature>)
    requires ChartOk(b)
    requires forall v :: v in b.vouchers ==> either(v) == (p(v) || q(v)) && !(p(v) && q(v))
    ensures Movements(b, either, natures) == Movements(b, p, natures) + Movements(b, q, natures)
  {
    var f := Picked(HasNature(b, natures));
    SumPlus(b.vouchers, PerVoucherIn(p, f), PerVoucherIn(q, f), PerVoucherIn(either, f));
  }

  lemma ProfitOfTheYear(b: Books, fyFrom: Date, asOn: Date)
    requires WellFormed(b)
    ensures NetProfit(b, fyFrom, asOn) == Movements(b, LeftOut(fyFrom, asOn), NOMINAL) - Movements(b, Covered(EPOCH, asOn), NOMINAL)
  {
    ClosingsOfPeriod(b, fyFrom, asOn, NOMINAL);
    MovementsSplit(b, DatedIn(Between(fyFrom, asOn)), LeftOut(fyFrom, asOn), Covered(EPOCH, asOn), NOMINAL);
  }

  /** The balance sheet is off by the trial balance difference plus exactly the profit it leaves out. */
  lemma BalanceSheetIdentity(b: Books, today: Date, asOn: Date)
    requires WellFormed(b)
    ensures SheetDifference(b, today, asOn)
         == TrialBalanceDifference(b, asOn) + OmittedProfit(b, CurrentFyRange(today).0, asOn)
  {
    NaturesSplit(LedgerLines(b, EPOCH, asOn, true));
    ClosingsOfAll(LedgerLines(b, EPOCH, asOn, true));
    ClosingsWithOpening(b, EPOCH, asOn, NOMINAL);
    ProfitOfTheYear(b, CurrentFyRange(today).0, asOn);
  }

  /** With vouchers and openings that balance exactly, assets equal liabilities plus equity if and only if no
      nominal amount is left out of the current year's profit; the sheet's flag allows such an amount of one paisa. */
  lemma SheetTiesExactlyWhenNothingIsLeftOut(b: Books, today: Date, asOn: Date)
    requires WellFormed(b)
    requires Openings(b, ALL) == 0 && forall v :: v in b.vouchers ==> Imbalance(v.entries) == 0
    ensures TrialBalanceDifference(b, asOn) == 0
    ensures SheetDifference(b, today, asOn) == 0 <==> OmittedProfit(b, CurrentFyRange(today).0, asOn) == 0
    ensures -TOLERANCE <= SheetDifference(b, today, asOn) <= TOLERANCE <==>
            -TOLERANCE <= OmittedProfit(b, CurrentFyRange(today).0, asOn) <= TOLERANCE
  {
    TrialBalanceDrift(b, asOn);
    SumZero(Filter(b.vouchers, Covered(EPOCH, asOn)), PerVoucher(Signed));
    BalanceSheetIdentity(b, today, asOn);
  }

  /** A balanced sale dated before the financial year of today puts the sheet off by its whole amount. */
  lemma EarlierSaleUnbalancesTheSheet(b: Books, cash: nat, sales: nat, amount: nat, date: Date, today: Date, asOn: Date)
    requires WellFormed(b) && cash < |b.ledgers| && sales < |b.ledgers| && amount > 0
    requires NatureOf(b, cash) == Asset && NatureOf(b, sales) == Income
    requires date < CurrentFyRange(today).0 && date <= asOn
    ensures var r := Step(b, NewVoucher(Receipt, date, CashSale(cash, sales, amount)));
            && WellFormed(r) && |r.vouchers| == |b.vouchers| + 1
            && Imbalance(CashSale(cash, sales, amount)) == 0
            && TrialBalanceDifference(r, asOn) == TrialBalanceDifference(b, asOn)
            && SheetDifference(r, today, asOn) == SheetDifference(b, today, asOn) + amount
  {
    var entries := CashSale(cash, sales, amount);
    var v := TwoEntryVoucherIsAccepted(b, Receipt, date, entries[0], entries[1]);
    SheetAfterEarlierSale(b, b.(vouchers := b.vouchers + [v]), v, cash, sales, amount, today, asOn);
  }

  lemma FreshSheetTies(b: Books, today: Date, asOn: Date)
    requires WellFormed(b) && b.vouchers == [] && forall l :: l in b.ledgers ==> l.openingBalance == 0
    ensures TrialBalanceDifference(b, asOn) == 0 && SheetDifference(b, today, asOn) == 0
  {
    BalanceSheetIdentity(b, today, asOn);
    TrialBalanceDrift(b, asOn);
    NothingOpens(b, ALL);
    NothingOpens(b, NOMINAL);
  }

  /** On books that are new the first sale leaves the trial balance tied and the sheet off, if it is of an earlier year. */
  lemma FirstSaleOfAnEarlierYear(b: Books, cash: nat, sales: nat, amount: nat, date: Date, today: Date, asOn: Date)
    requires WellFormed(b) && b.vouchers == [] && (forall l :: l in b.ledgers ==> l.openingBalance == 0)
    requires cash < |b.ledgers| && sales < |b.ledgers| && amount > 0
    requires NatureOf(b, cash) == Asset && NatureOf(b, sales) == Income
    requires date < CurrentFyRange(today).0 && date <= asOn
    ensures var r := Step(b, NewVoucher(Receipt, date, CashSale(cash, sales, amount)));
            WellFormed(r) && TrialBalanceDifference(r, asOn) == 0 && SheetDifference(r, today, asOn) == amount
  {
    FreshSheetTies(b, today, asOn);
    EarlierSaleUnbalancesTheSheet(b, cash, sales, amount, date, today, asOn);
  }

  lemma LastYear()
    ensures 2025_03_31 < CurrentFyRange(2025_04_01).0
  {
  }

  /** In particular: a newly seeded chart, one balanced sale of 31 March 2025, booked from cash to sales, and a sheet of
      1 April 2025 that is off by it while the trial balance ties. */
  lemma LastYearsSaleUnbalancesTheSheet()
    ensures var r := Run(EMPTY, [InitialiseChart] + [NewVoucher(Receipt, 2025_03_31, CashSale(0, 2, 100))]);
            WellFormed(r) && TrialBalanceDifference(r, 2025_04_01) == 0 && SheetDifference(r, 2025_04_01, 2025_04_01) == 100
  {
    var b, c := Step(EMPTY, InitialiseChart), NewVoucher(Receipt, 2025_03_31, CashSale(0, 2, 100));
    NewBooks();
    RunAfter(EMPTY, InitialiseChart, [c]);
    RunOne(b, c);
    LastYear();
    FirstSaleOfAnEarlierYear(b, 0, 2, 100, 2025_03_31, 2025_04_01, 2025_04_01);
  }

  lemma RunOne(b: Books, c: Command)
    ensures Run(b, [c]) == Step(b, c)
  {
    assert [c][..0] == [];
  }

  function CashSale(cash: nat, sales: nat, amount: nat): seq<Entry> {
    [Entry(cash, Debit, amount), Entry(sales, Credit, amount)]
  }

  lemma SheetAfterEarlierSale(b: Books, r: Books, v: Voucher, cash: nat, sales: nat, amount: nat, today: Date, asOn: Date)
    requires WellFormed(b) && WellFormed(r) && r == b.(vouchers := b.vouchers + [v])
    requires cash < |b.ledgers| && sales < |b.ledgers| && NatureOf(b, cash) == Asset && NatureOf(b, sales) == Income
    requires v.entries == CashSale(cash, sales, amount) && v.date < CurrentFyRange(today).0 && v.date <= asOn
    ensures TrialBalanceDifference(r, asOn) == TrialBalanceDifference(b, asOn)
    ensures SheetDifference(r, today, asOn) == SheetDifference(b, today, asOn) + amount
  {
    TwoEntries(v.entries[0], v.entries[1]);
    SameTrialBalance(b, r, v, asOn);
    BalanceSheetIdentity(b, today, asOn);
    BalanceSheetIdentity(r, today, asOn);
    EarlierSaleIsLeftOut(b, r, v, cash, sales, amount, CurrentFyRange(today).0, asOn);
  }

  /** A voucher that balances exactly leaves the trial balance as it was. */
  lemma SameTrialBalance(b: Books, r: Books, v: Voucher, asOn: Date)
    requires WellFormed(b) && WellFormed(r) && r == b.(vouchers := b.vouchers + [v]) && Imbalance(v.entries) == 0
    ensures TrialBalanceDifference(r, asOn) == TrialBalanceDifference(b, asOn)
  {
    TrialBalanceDrift(b, asOn);
    TrialBalanceDrift(r, asOn);
    DriftOfAppended(b, v, asOn);
    SameOpenings(b, r, ALL);
  }

  lemma EarlierSaleIsLeftOut(b: Books, r: Books, v: Voucher, cash: nat, sales: nat, amount: nat, fyFrom: Date, asOn: Date)
    requires ChartOk(b) && ChartOk(r) && r == b.(vouchers := b.vouchers + [v])
    requires cash < |b.ledgers| && sales < |b.ledgers| && NatureOf(b, cash) == Asset && NatureOf(b, sales) == Income
    requires v.entries == CashSale(cash, sales, amount) && v.date < fyFrom && v.date <= asOn
    ensures OmittedProfit(r, fyFrom, asOn) == OmittedProfit(b, fyFrom, asOn) + amount
  {
    var p := LeftOut(fyFrom, asOn);
    var g := Picked(HasNature(r, NOMINAL));
    SameOpenings(b, r, NOMINAL);
    SumAppend(b.vouchers, v, PerVoucherIn(p, g));
    SameMovements(b, r, b.vouchers, p, NOMINAL);
    SumOfTwo(v.entries[0], v.entries[1], g);
    assert NatureOf(r, cash) == Asset && NatureOf(r, sales) == Income;
    assert !HasNature(r, NOMINAL)(cash) && HasNature(r, NOMINAL)(sales);
    assert g(v.entries[0]) == 0 && g(v.entries[1]) == 0 - amount;
    assert Covered(EPOCH, asOn)(v) && !Between(fyFrom, asOn).Has(v.date);
    assert PerVoucherIn(p, g)(v) == SumBy(v.entries, g) == 0 - amount by {
      assert v.entries == [v.entries[0], v.entries[1]];
    }
  }

  lemma {:induction false} SameMovements(b: Books, r: Books, vouchers: seq<Voucher>, p: Voucher -> bool, natures: set<Nature>)
    requires ChartOk(b) && ChartOk(r) && r.ledgers == b.ledgers && r.groups == b.groups
    ensures SumBy(vouchers, PerVoucherIn(p, Picked(HasNature(b, natures)))) == SumBy(vouchers, PerVoucherIn(p, Picked(HasNature(r, natures))))
  {
    if vouchers != [] {
      var v := vouchers[|vouchers| - 1];
      SameMovements(b, r, vouchers[..|vouchers| - 1], p, natures);
      forall e | e in v.entries ensures HasNature(b, natures)(e.ledgerId) == HasNature(r, natures)(e.ledgerId) {
      }
      SumCongruent(v.entries, Picked(HasNature(b, natures)), Picked(HasNature(r, natures)));
    }
  }

  lemma SumOfTwo(e: Entry, f: Entry, g: Entry -> int)
    ensures SumBy([e, f], g) == g(e) + g(f)
  {
    SumAppend([e], f, g);
    SumAppend([], e, g);
    assert [] + [e] == [e] && [e] + [f] == [e, f];
  }

  // -------------------------------------------------------------- periods

  /** A ledger's closing balance does not depend on where the period begins. */
  lemma ClosingIgnoresPeriodStart(b: Books, l: nat, from: Date, other: Date, to: Date)
    requires ChartOk(b) && from <= to && other <= to
    ensures ClosingNet(LineFor(b, from, to, true)(l)) == ClosingNet(LineFor(b, other, to, true)(l))
  {
    WindowsCover(b, from, to, NetTo(l));
    WindowsCover(b, other, to, NetTo(l));
    SidesMakeNet(EntriesIn(b, Between(from, to)), l);
    SidesMakeNet(EntriesIn(b, Between(other, to)), l);
    SumCongruent(b.vouchers, PerVoucherIn(Covered(from, to), NetTo(l)), PerVoucherIn(Covered(other, to), NetTo(l)));
  }

  /** Net profit of two adjacent periods adds up to that of the whole; no voucher is dated between them. */
  lemma NetProfitIsAdditive(b: Books, from: Date, last: Date, next: Date, to: Date)
    requires WellFormed(b) && from <= last < next <= to
    requires forall v :: v in b.vouchers ==> !(last < v.date < next)
    ensures NetProfit(b, from, to) == NetProfit(b, from, last) + NetProfit(b, next, to)
  {
    ProfitIsMovement(b, from, last);
    ProfitIsMovement(b, next, to);
    ProfitIsMovement(b, from, to);
    SplitPeriod(b, from, last, next, to);
  }

  lemma SplitPeriod(b: Books, from: Date, last: Date, next: Date, to: Date)
    requires ChartOk(b) && from <= last < next <= to
    requires forall v :: v in b.vouchers ==> !(last < v.date < next)
    ensures Movements(b, DatedIn(Between(from, to)), NOMINAL)
         == Movements(b, DatedIn(Between(from, last)), NOMINAL) + Movements(b, DatedIn(Between(next, to)), NOMINAL)
  {
    MovementsSplit(b, DatedIn(Between(from, last)), DatedIn(Between(next, to)), DatedIn(Between(from, to)), NOMINAL);
  }

  lemma ProfitIsMovement(b: Books, from: Date, to: Date)
    requires WellFormed(b)
    ensures NetProfit(b, from, to) == -Movements(b, DatedIn(Between(from, to)), NOMINAL)
  {
    ClosingsOfPeriod(b, from, to, NOMINAL);
  }

  // ------------------------------------------------------- ledger statement

  predicate DateLe(v: Voucher, w: Voucher) { v.date <= w.date }

  /** The vouchers of a period by date, and by order of creation within a day. */
  function StatementVouchers(b: Books, from: Date, to: Date): seq<Voucher> {
    Sort(Filter(b.vouchers, DatedIn(Between(from, to))), DateLe)
  }

  function TxnOf(v: Voucher, e: Entry): LedgerTxn {
    LedgerTxn(v.date, v.number, if e.side == Debit then e.amount else 0, if e.side == Credit then e.amount else 0, 0)
  }

  function VoucherTxns(v: Voucher, entries: seq<Entry>, l: nat): seq<LedgerTxn> {
    if entries == [] then [] else
      var e := entries[|entries| - 1];
      VoucherTxns(v, entries[..|entries| - 1], l) + if e.ledgerId == l then [TxnOf(v, e)] else []
  }

  /** The transactions of a ledger: one for each of its entries, voucher by voucher. */
  function TxnsOf(vouchers: seq<Voucher>, l: nat): seq<LedgerTxn> {
    if vouchers == [] then [] else
      var v := vouchers[|vouchers| - 1];
      TxnsOf(vouchers[..|vouchers| - 1], l) + VoucherTxns(v, v.entries, l)
  }

  lemma {:induction false} VoucherTxnsSum(v: Voucher, entries: seq<Entry>, l: nat)
    ensures SumBy(VoucherTxns(v, entries, l), TxnNet) == SumBy(entries, NetTo(l))
  {
    if entries != [] {
      var init, e := entries[..|entries| - 1], entries[|entries| - 1];
      VoucherTxnsSum(v, init, l);
      if e.ledgerId == l {
        SumAppend(VoucherTxns(v, init, l), TxnOf(v, e), TxnNet);
      } else {
        assert VoucherTxns(v, entries, l) == VoucherTxns(v, init, l);
      }
    }
  }

  lemma {:induction false} TxnsSum(vouchers: seq<Voucher>, l: nat)
    ensures SumBy(TxnsOf(vouchers, l), TxnNet) == SumBy(vouchers, PerVoucher(NetTo(l)))
  {
    if vouchers != [] {
      var init, v := vouchers[..|vouchers| - 1], vouchers[|vouchers| - 1];
      TxnsSum(init, l);
      VoucherTxnsSum(v, v.entries, l);
      SumConcat(TxnsOf(init, l), VoucherTxns(v, v.entries, l), TxnNet);
    }
  }

  /** Walking a ledger transaction by transaction ends at the closing balance the grouped sums give. */
  lemma StatementAgreesWithLine(b: Books, l: nat, from: Date, to: Date)
    requires ChartOk(b) && l < |b.ledgers|
    ensures LineFor(b, from, to, true)(l).openingNet + SumBy(TxnsOf(StatementVouchers(b, from, to), l), TxnNet)
         == ClosingNet(LineFor(b, from, to, true)(l))
  {
    var selected := Filter(b.vouchers, DatedIn(Between(from, to)));
    SortFacts(selected, DateLe);
    TxnsSum(StatementVouchers(b, from, to), l);
    SumPermutation(StatementVouchers(b, from, to), selected, PerVoucher(NetTo(l)));
    EntriesOfSum(selected, NetTo(l));
    SidesMakeNet(EntriesIn(b, Between(from, to)), l);
  }

  /** The statement runs through exactly the vouchers of the period, in date order, same-day ones as created. */
  lemma StatementOrder(b: Books, from: Date, to: Date, day: Voucher)
    ensures Sorted(StatementVouchers(b, from, to), DateLe)
    ensures multiset(StatementVouchers(b, from, to)) == multiset(Filter(b.vouchers, DatedIn(Between(from, to))))
    ensures Filter(StatementVouchers(b, from, to), Ties(day, DateLe))
         == Filter(Filter(b.vouchers, DatedIn(Between(from, to))), Ties(day, DateLe))
  {
    SortFacts(Filter(b.vouchers, DatedIn(Between(from, to))), DateLe);
    SortIsStable(Filter(b.vouchers, DatedIn(Between(from, to))), day, DateLe);
  }
}
