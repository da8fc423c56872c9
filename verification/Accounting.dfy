/** The bookkeeping engine of backend/app/rules/accounting.py. Money is a whole number of paise. */
module Accounting {
  import opened Util
  import opened Text

  datatype Nature = Asset | Liability | Income | Expense

  datatype Side = Debit | Credit

  /** One leg of a voucher, posted to the ledger with the given id. */
  datatype Entry = Entry(ledgerId: nat, side: Side, amount: int)

  const TOLERANCE := 1

  function Signed(e: Entry): int {
    if e.side == Debit then e.amount else -e.amount
  }

  function AmountOn(side: Side): Entry -> int {
    (e: Entry) => if e.side == side then e.amount else 0
  }

  /** Debits minus credits. */
  function Imbalance(entries: seq<Entry>): int {
    SumBy(entries, Signed)
  }

  lemma ImbalanceIsDebitMinusCredit(entries: seq<Entry>)
    ensures Imbalance(entries) == SumBy(entries, AmountOn(Debit)) - SumBy(entries, AmountOn(Credit))
  {
    SumPlus(entries, Signed, AmountOn(Credit), AmountOn(Debit));
  }

  // ------------------------------------------------------ voucher validation

  datatype VoucherFault = TooFewEntries | NonPositiveAmount | DoesNotBalance

  function ValidateBalanced(entries: seq<Entry>): (r: Option<VoucherFault>)
    ensures r.None? <==>
            && |entries| >= 2
            && (forall e :: e in entries ==> e.amount > 0)
            && -TOLERANCE <= Imbalance(entries) <= TOLERANCE
    ensures r == Some(DoesNotBalance) ==> |entries| >= 2 && forall e :: e in entries ==> e.amount > 0
  {
    ImbalanceIsDebitMinusCredit(entries);
    var debit, credit := SumBy(entries, AmountOn(Debit)), SumBy(entries, AmountOn(Credit));
    if |entries| < 2 then Some(TooFewEntries)
    else if exists e :: e in entries && e.amount <= 0 then Some(NonPositiveAmount)
    else if debit - credit > TOLERANCE || credit - debit > TOLERANCE then Some(DoesNotBalance)
    else None
  }

  // ----------------------------------------------------------- ledger lines

  datatype LedgerLine = LedgerLine(
    ledgerId: nat,
    name: string,
    groupName: string,
    nature: Nature,
    classification: string,
    openingNet: int,
    debitTotal: int,
    creditTotal: int)

  function ClosingNet(line: LedgerLine): int {
    line.openingNet + line.debitTotal - line.creditTotal
  }

  function DebitBalance(line: LedgerLine): int {
    if ClosingNet(line) > 0 then ClosingNet(line) else 0
  }

  function CreditBalance(line: LedgerLine): int {
    if ClosingNet(line) < 0 then -ClosingNet(line) else 0
  }

  function OpeningNet(amount: int, side: Side): int {
    if side == Debit then amount else -amount
  }

  /** Closing balances of the ledgers of one nature, read as zero on the others. */
  function ClosingOf(natures: set<Nature>): LedgerLine -> int {
    (line: LedgerLine) => if line.nature in natures then ClosingNet(line) else 0
  }

  // ---------------------------------------------------------- trial balance

  datatype TrialBalanceRow = TrialBalanceRow(ledgerId: nat, name: string, groupName: string, debit: int, credit: int)

  datatype TrialBalance = TrialBalance(rows: seq<TrialBalanceRow>, totalDebit: int, totalCredit: int) {
    predicate IsBalanced() {
      -TOLERANCE <= totalDebit - totalCredit <= TOLERANCE
    }
  }

  /** Position of the nature's name ("asset", "expense", "income", "liability") in string order. */
  function NatureRank(n: Nature): nat {
    match n
    case Asset => 0
    case Expense => 1
    case Income => 2
    case Liability => 3
  }

  predicate LineLe(a: LedgerLine, b: LedgerLine) {
    if a.nature != b.nature then NatureRank(a.nature) < NatureRank(b.nature)
    else if a.groupName != b.groupName then StringLe(a.groupName, b.groupName)
    else StringLe(a.name, b.name)
  }

  lemma LineLeIsTotalPreorder()
    ensures TotalPreorder(LineLe)
  {
    forall x: LedgerLine, y: LedgerLine ensures LineLe(x, y) || LineLe(y, x) {
      StringLeTotal(x.groupName, y.groupName);
      StringLeTotal(x.name, y.name);
    }
    forall x: LedgerLine, y: LedgerLine, z: LedgerLine | LineLe(x, y) && LineLe(y, z) ensures LineLe(x, z) {
      LineLeTransitive(x, y, z);
    }
  }

  lemma LineLeTransitive(x: LedgerLine, y: LedgerLine, z: LedgerLine)
    requires LineLe(x, y) && LineLe(y, z)
    ensures LineLe(x, z)
  {
    if x.nature == y.nature == z.nature {
      if x.groupName == y.groupName == z.groupName {
        StringLeTransitive(x.name, y.name, z.name);
      } else if x.groupName != y.groupName && y.groupName != z.groupName {
        StringLeTransitive(x.groupName, y.groupName, z.groupName);
        if x.groupName == z.groupName {
          StringLeAntisymmetric(x.groupName, y.groupName);
        }
      }
    }
  }

  function RowOf(line: LedgerLine): TrialBalanceRow {
    TrialBalanceRow(line.ledgerId, line.name, line.groupName, DebitBalance(line), CreditBalance(line))
  }

  function RowDebit(r: TrialBalanceRow): int { r.debit }

  function RowCredit(r: TrialBalanceRow): int { r.credit }

  predicate HasBalance(line: LedgerLine) { ClosingNet(line) != 0 }

  /** The lines that appear on the trial balance, in the order in which they appear. */
  function ShownLines(lines: seq<LedgerLine>): seq<LedgerLine> {
    Filter(Sort(lines, LineLe), HasBalance)
  }

  method ComputeTrialBalance(lines: seq<LedgerLine>) returns (tb: TrialBalance)
    ensures tb.rows == Map(ShownLines(lines), RowOf)
    ensures tb.totalDebit == SumBy(lines, DebitBalance)
    ensures tb.totalCredit == SumBy(lines, CreditBalance)
    ensures tb.totalDebit - tb.totalCredit == SumBy(lines, ClosingNet)
  {
    var sorted := Sort(lines, LineLe);
    var rows: seq<TrialBalanceRow> := [];
    var i := 0;
    while i < |sorted|
      invariant 0 <= i <= |sorted|
      invariant rows == Map(Filter(sorted[..i], HasBalance), RowOf)
    {
      var line := sorted[i];
      assert sorted[..i + 1] == sorted[..i] + [line];
      FilterAppend(sorted[..i], line, HasBalance);
      if DebitBalance(line) != 0 || CreditBalance(line) != 0 {
        rows := rows + [TrialBalanceRow(line.ledgerId, line.name, line.groupName, DebitBalance(line), CreditBalance(line))];
      }
      i := i + 1;
    }
    assert sorted[..|sorted|] == sorted;
    TrialBalanceTotals(lines);
    tb := TrialBalance(rows, SumBy(rows, RowDebit), SumBy(rows, RowCredit));
  }

  /** Sorting and skipping empty ledgers changes no total, and the difference is the sum of all closing balances. */
  lemma TrialBalanceTotals(lines: seq<LedgerLine>)
    ensures SumBy(Map(ShownLines(lines), RowOf), RowDebit) == SumBy(lines, DebitBalance)
    ensures SumBy(Map(ShownLines(lines), RowOf), RowCredit) == SumBy(lines, CreditBalance)
    ensures SumBy(lines, DebitBalance) - SumBy(lines, CreditBalance) == SumBy(lines, ClosingNet)
  {
    LineLeIsTotalPreorder();
    SortFacts(lines, LineLe);
    var sorted := Sort(lines, LineLe);
    SumMap(ShownLines(lines), RowOf, RowDebit, DebitBalance);
    SumMap(ShownLines(lines), RowOf, RowCredit, CreditBalance);
    SumFilter(sorted, HasBalance, DebitBalance, DebitBalance);
    SumFilter(sorted, HasBalance, CreditBalance, CreditBalance);
    SumPermutation(sorted, lines, DebitBalance);
    SumPermutation(sorted, lines, CreditBalance);
    SumPlus(lines, ClosingNet, CreditBalance, DebitBalance);
  }

  /** Rows come in (nature, group, name) order, each on one side only, and every ledger with a balance is shown. */
  lemma TrialBalanceRows(lines: seq<LedgerLine>)
    ensures Sorted(ShownLines(lines), LineLe)
    ensures forall line :: line in ShownLines(lines) <==> line in lines && ClosingNet(line) != 0
    ensures forall line :: line in ShownLines(lines) ==> (RowOf(line).debit > 0) != (RowOf(line).credit > 0)
  {
    LineLeIsTotalPreorder();
    SortFacts(lines, LineLe);
    FilterKeepsSorted(Sort(lines, LineLe), HasBalance);
  }

  lemma {:induction false} FilterKeepsSorted(s: seq<LedgerLine>, p: LedgerLine -> bool)
    requires Sorted(s, LineLe)
    ensures Sorted(Filter(s, p), LineLe)
  {
    if s != [] {
      var init, last := s[..|s| - 1], s[|s| - 1];
      FilterKeepsSorted(init, p);
      forall x | x in Filter(init, p) ensures LineLe(x, last) {
        var i :| 0 <= i < |init| && init[i] == x;
        assert s[i] == x;
      }
    }
  }

  // -------------------------------------------------------- profit and loss

  datatype StatementLine = StatementLine(name: string, groupName: string, amount: int)

  datatype ProfitAndLoss = ProfitAndLoss(
    directIncome: seq<StatementLine>,
    directExpense: seq<StatementLine>,
    indirectIncome: seq<StatementLine>,
    indirectExpense: seq<StatementLine>,
    grossProfit: int,
    netProfit: int)

  const DIRECT_CLASSIFICATIONS := {"sales", "purchase", "direct_income", "direct_expense", "stock"}

  function LineAmount(l: StatementLine): int { l.amount }

  function Credited(line: LedgerLine): StatementLine {
    StatementLine(line.name, line.groupName, -ClosingNet(line))
  }

  function Debited(line: LedgerLine): StatementLine {
    StatementLine(line.name, line.groupName, ClosingNet(line))
  }

  function Shown(nature: Nature): LedgerLine -> bool {
    (line: LedgerLine) => line.nature == nature && HasBalance(line)
  }

  function ShownDirect(nature: Nature, direct: bool): LedgerLine -> bool {
    (line: LedgerLine) => line.nature == nature && HasBalance(line) && (line.classification in DIRECT_CLASSIFICATIONS) == direct
  }

  function ClosingDirect(nature: Nature, direct: bool): LedgerLine -> int {
    (line: LedgerLine) => if line.nature == nature && (line.classification in DIRECT_CLASSIFICATIONS) == direct then ClosingNet(line) else 0
  }

  /** The statement lines of the selected ledgers, in the order of the ledgers. */
  function Section(lines: seq<LedgerLine>, shown: LedgerLine -> bool, present: LedgerLine -> StatementLine): seq<StatementLine> {
    if lines == [] then [] else
      var last := lines[|lines| - 1];
      Section(lines[..|lines| - 1], shown, present) + if shown(last) then [present(last)] else []
  }

  lemma SectionStep(lines: seq<LedgerLine>, i: nat, shown: LedgerLine -> bool, present: LedgerLine -> StatementLine)
    requires i < |lines|
    ensures Section(lines[..i + 1], shown, present)
         == Section(lines[..i], shown, present) + if shown(lines[i]) then [present(lines[i])] else []
  {
    assert lines[..i + 1][..i] == lines[..i];
  }

  lemma {:induction false} SectionTotal(
    lines: seq<LedgerLine>, shown: LedgerLine -> bool, present: LedgerLine -> StatementLine, amount: LedgerLine -> int)
    requires forall line :: line in lines ==> amount(line) == if shown(line) then present(line).amount else 0
    ensures SumBy(Section(lines, shown, present), LineAmount) == SumBy(lines, amount)
  {
    if lines != [] {
      var init, last := lines[..|lines| - 1], lines[|lines| - 1];
      SectionTotal(init, shown, present, amount);
      if shown(last) {
        SumAppend(Section(init, shown, present), present(last), LineAmount);
      } else {
        assert Section(lines, shown, present) == Section(init, shown, present);
      }
    }
  }

  method ComputeProfitAndLoss(lines: seq<LedgerLine>) returns (pnl: ProfitAndLoss)
    ensures pnl.directIncome == Section(lines, ShownDirect(Income, true), Credited)
    ensures pnl.indirectIncome == Section(lines, ShownDirect(Income, false), Credited)
    ensures pnl.directExpense == Section(lines, ShownDirect(Expense, true), Debited)
    ensures pnl.indirectExpense == Section(lines, ShownDirect(Expense, false), Debited)
    ensures pnl.grossProfit == -SumBy(lines, ClosingDirect(Income, true)) - SumBy(lines, ClosingDirect(Expense, true))
    ensures pnl.netProfit == -SumBy(lines, ClosingOf({Income, Expense}))
  {
    var di, de, ii, ie := [], [], [], [];
    var i := 0;
    while i < |lines|
      invariant 0 <= i <= |lines|
      invariant di == Section(lines[..i], ShownDirect(Income, true), Credited)
      invariant ii == Section(lines[..i], ShownDirect(Income, false), Credited)
      invariant de == Section(lines[..i], ShownDirect(Expense, true), Debited)
      invariant ie == Section(lines[..i], ShownDirect(Expense, false), Debited)
    {
      var line := lines[i];
      SectionStep(lines, i, ShownDirect(Income, true), Credited);
      SectionStep(lines, i, ShownDirect(Income, false), Credited);
      SectionStep(lines, i, ShownDirect(Expense, true), Debited);
      SectionStep(lines, i, ShownDirect(Expense, false), Debited);
      i := i + 1;
      var isDirect := line.classification in DIRECT_CLASSIFICATIONS;
      if line.nature == Income {
        var amount := -ClosingNet(line);
        if amount == 0 { continue; }
        if isDirect {
          di := di + [StatementLine(line.name, line.groupName, amount)];
        } else {
          ii := ii + [StatementLine(line.name, line.groupName, amount)];
        }
      } else if line.nature == Expense {
        var amount := ClosingNet(line);
        if amount == 0 { continue; }
        if isDirect {
          de := de + [StatementLine(line.name, line.groupName, amount)];
        } else {
          ie := ie + [StatementLine(line.name, line.groupName, amount)];
        }
      }
    }
    assert lines[..|lines|] == lines;
    ProfitTotals(lines);
    var gross := SumBy(di, LineAmount) - SumBy(de, LineAmount);
    pnl := ProfitAndLoss(di, de, ii, ie, gross, gross + SumBy(ii, LineAmount) - SumBy(ie, LineAmount));
  }

  /** Each section adds up to the closing balances of its ledgers, and the four sections are all nominal ledgers. */
  lemma ProfitTotals(lines: seq<LedgerLine>)
    ensures forall direct :: SumBy(Section(lines, ShownDirect(Income, direct), Credited), LineAmount) == -SumBy(lines, ClosingDirect(Income, direct))
    ensures forall direct :: SumBy(Section(lines, ShownDirect(Expense, direct), Debited), LineAmount) == SumBy(lines, ClosingDirect(Expense, direct))
    ensures SumBy(lines, ClosingOf({Income, Expense}))
         == SumBy(lines, ClosingDirect(Income, true)) + SumBy(lines, ClosingDirect(Income, false))
          + SumBy(lines, ClosingDirect(Expense, true)) + SumBy(lines, ClosingDirect(Expense, false))
  {
    forall direct ensures SumBy(Section(lines, ShownDirect(Income, direct), Credited), LineAmount) == -SumBy(lines, ClosingDirect(Income, direct)) {
      CreditedTotal(lines, ShownDirect(Income, direct), ClosingDirect(Income, direct));
    }
    forall direct ensures SumBy(Section(lines, ShownDirect(Expense, direct), Debited), LineAmount) == SumBy(lines, ClosingDirect(Expense, direct)) {
      DebitedTotal(lines, ShownDirect(Expense, direct), ClosingDirect(Expense, direct));
    }
    SumPlus(lines, ClosingDirect(Income, true), ClosingDirect(Income, false), ClosingOf({Income}));
    SumPlus(lines, ClosingDirect(Expense, true), ClosingDirect(Expense, false), ClosingOf({Expense}));
    SumPlus(lines, ClosingOf({Income}), ClosingOf({Expense}), ClosingOf({Income, Expense}));
  }

  lemma DebitedTotal(lines: seq<LedgerLine>, p: LedgerLine -> bool, closing: LedgerLine -> int)
    requires forall line :: line in lines ==> closing(line) == if p(line) then ClosingNet(line) else 0
    ensures SumBy(Section(lines, p, Debited), LineAmount) == SumBy(lines, closing)
  {
    SectionTotal(lines, p, Debited, closing);
  }

  lemma CreditedTotal(lines: seq<LedgerLine>, p: LedgerLine -> bool, closing: LedgerLine -> int)
    requires forall line :: line in lines ==> closing(line) == if p(line) then ClosingNet(line) else 0
    ensures SumBy(Section(lines, p, Credited), LineAmount) == -SumBy(lines, closing)
  {
    var negated := (line: LedgerLine) => -closing(line);
    SectionTotal(lines, p, Credited, negated);
    SumNegated(lines, negated, closing);
  }

  // ----------------------------------------------------------- balance sheet

  datatype BalanceSheet = BalanceSheet(
    assets: seq<StatementLine>,
    liabilities: seq<StatementLine>,
    netProfit: int,
    totalAssets: int,
    totalLiabilities: int) {
    predicate IsBalanced() {
      -TOLERANCE <= totalAssets - totalLiabilities <= TOLERANCE
    }
  }

  method ComputeBalanceSheet(lines: seq<LedgerLine>, netProfit: int) returns (bs: BalanceSheet)
    ensures bs.assets == Section(lines, Shown(Asset), Debited)
    ensures bs.liabilities == Section(lines, Shown(Liability), Credited)
    ensures bs.netProfit == netProfit
    ensures bs.totalAssets == SumBy(lines, ClosingOf({Asset}))
    ensures bs.totalLiabilities == -SumBy(lines, ClosingOf({Liability})) + netProfit
  {
    var assets, liabilities := [], [];
    var i := 0;
    while i < |lines|
      invariant 0 <= i <= |lines|
      invariant assets == Section(lines[..i], Shown(Asset), Debited)
      invariant liabilities == Section(lines[..i], Shown(Liability), Credited)
    {
      var line := lines[i];
      SectionStep(lines, i, Shown(Asset), Debited);
      SectionStep(lines, i, Shown(Liability), Credited);
      if line.nature == Asset {
        var amount := ClosingNet(line);
        if amount != 0 {
          assets := assets + [StatementLine(line.name, line.groupName, amount)];
        }
      } else if line.nature == Liability {
        var amount := -ClosingNet(line);
        if amount != 0 {
          liabilities := liabilities + [StatementLine(line.name, line.groupName, amount)];
        }
      }
      i := i + 1;
    }
    assert lines[..|lines|] == lines;
    DebitedTotal(lines, Shown(Asset), ClosingOf({Asset}));
    CreditedTotal(lines, Shown(Liability), ClosingOf({Liability}));
    bs := BalanceSheet(assets, liabilities, netProfit,
                       SumBy(assets, LineAmount), SumBy(liabilities, LineAmount) + netProfit);
  }

  // -------------------------------------------------------- ledger statement

  datatype LedgerTxn = LedgerTxn(
    date: int,
    voucherNumber: string,
    debit: int,
    credit: int,
    runningNet: int)

  function TxnNet(t: LedgerTxn): int { t.debit - t.credit }

  /** Fills in the running balance of every transaction in place and returns the closing balance. */
  method ComputeLedgerStatement(openingNet: int, txns: array<LedgerTxn>) returns (closingNet: int)
    modifies txns
    ensures forall i :: 0 <= i < txns.Length ==>
              txns[i] == old(txns[i]).(runningNet := openingNet + SumBy(old(txns[..])[..i + 1], TxnNet))
    ensures closingNet == openingNet + SumBy(old(txns[..]), TxnNet)
    ensures txns.Length > 0 ==> closingNet == txns[txns.Length - 1].runningNet
  {
    ghost var was := txns[..];
    var running := openingNet;
    var i := 0;
    while i < txns.Length
      invariant 0 <= i <= txns.Length
      invariant running == openingNet + SumBy(was[..i], TxnNet)
      invariant forall k :: i <= k < txns.Length ==> txns[k] == was[k]
      invariant forall k :: 0 <= k < i ==> txns[k] == was[k].(runningNet := openingNet + SumBy(was[..k + 1], TxnNet))
    {
      assert was[..i + 1] == was[..i] + [was[i]];
      SumAppend(was[..i], was[i], TxnNet);
      running := running + txns[i].debit - txns[i].credit;
      txns[i] := txns[i].(runningNet := running);
      i := i + 1;
    }
    assert was[..i] == was;
    closingNet := running;
  }
}
