/** The accounting service of one organization: its ledgers and vouchers as mutable state, proved against the
    operations on values of module BookOperations. */
module AccountingService {
  import opened Util
  import opened Text
  import opened Accounting
  import opened BookOperations
  import opened BookRuns
  import opened BookReports
  import opened BookLaws
  import opened BookMeanings

  datatype Statement = Statement(ledgerName: string, openingNet: int, txns: seq<LedgerTxn>, closingNet: int)

  class AccountingService {
    var groups: seq<Group>
    var ledgers: seq<Ledger>
    var vouchers: seq<Voucher>

    function State(): Books
      reads this
    {
      Books(groups, ledgers, vouchers)
    }

    ghost predicate Valid()
      reads this
    {
      Sound(State())
    }

    constructor ()
      ensures Valid() && State() == EMPTY
    {
      groups, ledgers, vouchers := [], [], [];
      new;
      EveryRunIsSound([]);
    }

    // ------------------------------------------------------- chart of accounts

    method EnsureChartOfAccounts()
      requires Valid()
      modifies this`groups, this`ledgers
      ensures Valid()
      ensures State() == EnsureChart(old(State()))
    {
      ghost var b := State();
      AddMissingGroups(DefaultGroups());
      AddMissingLedgers(DefaultLedgers());
      SeedingKeepsSound(b);
    }

    method AddMissingGroups(defaults: seq<Group>)
      modifies this`groups
      ensures groups == AddGroups(old(groups), defaults)
    {
      var i := 0;
      while i < |defaults|
        invariant 0 <= i <= |defaults|
        invariant AddGroups(groups, defaults[i..]) == AddGroups(old(groups), defaults)
      {
        assert defaults[i..][1..] == defaults[i + 1..];
        if GroupNamed(groups, defaults[i].name) == |groups| {
          groups := groups + [defaults[i]];
        }
        i := i + 1;
      }
    }

    method AddMissingLedgers(defaults: seq<DefaultLedger>)
      modifies this`ledgers
      ensures ledgers == AddLedgers(groups, LedgerNames(old(ledgers)), old(ledgers), defaults)
    {
      var existing := LedgerNames(ledgers);
      var i := 0;
      while i < |defaults|
        invariant 0 <= i <= |defaults|
        invariant AddLedgers(groups, existing, ledgers, defaults[i..]) == AddLedgers(groups, existing, old(ledgers), defaults)
      {
        assert defaults[i..][1..] == defaults[i + 1..];
        var d := defaults[i];
        if d.name !in existing {
          ledgers := ledgers + [Ledger(d.name, GroupNamed(groups, d.groupName), 0, Debit)];
        }
        i := i + 1;
      }
    }

    method CreateLedger(name: string, groupId: nat, openingBalance: int, openingSide: Side) returns (r: Result<nat, BookError>)
      requires Valid()
      modifies this`ledgers
      ensures Valid()
      ensures (State(), r) == BookOperations.CreateLedger(old(State()), name, groupId, openingBalance, openingSide)
    {
      StepKeeps(State(), NewLedger(name, groupId, openingBalance, openingSide));
      if groupId >= |groups| {
        return Err(UnknownGroup);
      }
      var like := LedgersLike(ledgers, Lower(name));
      if |like| > 1 {
        return Err(AmbiguousName);
      } else if |like| == 1 {
        return Err(NameTaken);
      }
      var clean := Strip(name);
      if LedgerNamed(ledgers, clean) < |ledgers| {
        return Err(DuplicateKey);
      }
      r := Ok(|ledgers|);
      ledgers := ledgers + [Ledger(clean, groupId, openingBalance, openingSide)];
    }

    method GetOrCreatePartyLedger(name: string, classification: string) returns (r: Result<nat, BookError>)
      modifies this`ledgers
      ensures (State(), r) == GetOrCreateParty(old(State()), name, classification)
    {
      var like := LedgersLike(ledgers, Lower(name));
      if |like| > 1 {
        return Err(AmbiguousName);
      } else if |like| == 1 {
        return Ok(like[0]);
      }
      var g := GroupClassified(groups, classification);
      if g == |groups| {
        return Err(ChartMissing);
      }
      r := Ok(|ledgers|);
      ledgers := ledgers + [Ledger(name, g, 0, Debit)];
    }

    // ---------------------------------------------------------------- vouchers

    method NextVoucherNumber(t: VoucherType) returns (number: string)
      ensures number == VoucherNumber(t, CountType(vouchers, t) + 1)
    {
      var count := CountType(vouchers, t);
      number := Prefix(t) + "-" + Pad4(count + 1);
    }

    method CreateVoucher(t: VoucherType, date: Date, entries: seq<Entry>, source: Option<nat>) returns (r: Result<Voucher, BookError>)
      modifies this`vouchers
      ensures State() == BookOperations.CreateVoucher(old(State()), t, date, entries, source).0
      ensures r == BookOperations.CreateVoucher(old(State()), t, date, entries, source).1
      ensures old(Valid()) && (source.Some? ==> !IsPosted(old(vouchers), source.value)) ==> Valid()
    {
      ghost var b := State();
      if Sound(b) && (source.Some? ==> !IsPosted(b.vouchers, source.value)) {
        CreateVoucherKeepsSound(b, t, date, entries, source);
      }
      var fault := ValidateBalanced(entries);
      if fault.Some? {
        return Err(Rejected(fault.value));
      }
      if exists e :: e in entries && e.ledgerId >= |ledgers| {
        return Err(ForeignLedger);
      }
      var number := NextVoucherNumber(t);
      var v := Voucher(t, number, date, entries, SumBy(entries, AmountOn(Debit)), source);
      vouchers := vouchers + [v];
      r := Ok(v);
    }

    method LedgerByName(name: string) returns (r: Result<nat, BookError>)
      ensures r == BookOperations.LedgerByName(State(), name)
    {
      var i := LedgerNamed(ledgers, name);
      r := if i < |ledgers| then Ok(i) else Err(MissingSystemLedger);
    }

    /** Books an invoice to a sales or purchase voucher, once. On an error the vouchers are untouched; the seeded
        chart and a new party ledger stay in the session, until whoever owns the session rolls it back. */
    method PostInvoice(inv: Invoice, today: Date) returns (r: Result<Voucher, BookError>)
      requires Valid()
      modifies this
      ensures Valid()
      ensures State() == BookOperations.PostInvoice(old(State()), inv, today).0
      ensures r == BookOperations.PostInvoice(old(State()), inv, today).1
      ensures r.Ok? <==> Postable(EnsureChart(old(State())), inv)
      ensures vouchers == if r.Ok? then old(vouchers) + [r.value] else old(vouchers)
      ensures r.Ok? ==> BooksFields(ledgers, inv, r.value.entries)
      ensures r.Ok? ==> r.value.voucherType == (if inv.isSales then Sales else Purchase)
                        && r.value.date == if inv.date.Some? then inv.date.value else today
    {
      ghost var b := State();
      EnsureChartOfAccounts();
      r := PostOnSeededChart(inv, today);
      PostingKeepsSound(b, inv, today);
      PostedFields(b, inv, today);
      PostInvoiceOutcome(b, inv, today);
    }

    method PostOnSeededChart(inv: Invoice, today: Date) returns (r: Result<Voucher, BookError>)
      modifies this`ledgers, this`vouchers
      ensures State() == PostOnChart(old(State()), inv, today).0
      ensures r == PostOnChart(old(State()), inv, today).1
    {
      if exists v :: v in vouchers && v.sourceInvoice == Some(inv.id) {
        return Err(AlreadyPosted);
      }
      if SumBy(inv.items, Taxable) <= 0 {
        return Err(NothingToPost);
      }
      var party := GetOrCreatePartyLedger(PartyName(inv), if inv.isSales then "receivable" else "payable");
      if party.Err? {
        return Err(party.error);
      }
      r := PostToPartyLedger(inv, party.value, today);
    }

    method PostToPartyLedger(inv: Invoice, party: nat, today: Date) returns (r: Result<Voucher, BookError>)
      modifies this`vouchers
      ensures State() == PostToParty(old(State()), inv, party, today).0
      ensures r == PostToParty(old(State()), inv, party, today).1
    {
      var base := LedgerByName(if inv.isSales then "Sales" else "Purchase");
      if base.Err? {
        return Err(base.error);
      }
      var legs := BuildTaxLegs(inv);
      if legs.Err? {
        return Err(legs.error);
      }
      var taxable := SumBy(inv.items, Taxable);
      var total := taxable + SumBy(TaxComponents(inv), ComponentAmount);
      var partySide := if inv.isSales then Debit else Credit;
      var legSide := if inv.isSales then Credit else Debit;
      var entries := [Entry(party, partySide, total), Entry(base.value, legSide, taxable)] + legs.value;
      assert entries == PostedEntries(inv, party, base.value, legs.value);
      r := CreateVoucher(if inv.isSales then Sales else Purchase, if inv.date.Some? then inv.date.value else today,
                         entries, Some(inv.id));
    }

    method BuildTaxLegs(inv: Invoice) returns (r: Result<seq<Entry>, BookError>)
      ensures r == TaxLegs(State(), inv, TaxComponents(inv))
    {
      var components := TaxComponents(inv);
      var legs: seq<Entry> := [];
      var i := 0;
      while i < |components|
        invariant 0 <= i <= |components|
        invariant TaxLegs(State(), inv, components[..i]) == Ok(legs)
      {
        assert components[..i + 1][..i] == components[..i];
        if components[i].1 > 0 {
          var taxLedger := LedgerByName(components[i].0);
          if taxLedger.Err? {
            LaterLegsFail(State(), inv, components, i + 1);
            return Err(taxLedger.error);
          }
          legs := legs + [Entry(taxLedger.value, if inv.isSales then Credit else Debit, components[i].1)];
        }
        i := i + 1;
      }
      assert components[..|components|] == components;
      r := Ok(legs);
    }

    // ----------------------------------------------------------------- reports

    method LedgerLines(from: Date, to: Date, includeOpening: bool) returns (lines: seq<LedgerLine>)
      requires ChartOk(State())
      ensures lines == BookReports.LedgerLines(State(), from, to, includeOpening)
    {
      var ids := ListLedgers(State());
      var openingRows := GroupSums(EntriesIn(State(), Before(from)));
      var periodRows := GroupSums(EntriesIn(State(), Between(from, to)));
      var openingByLedger := SumOpenings(openingRows);
      var periodByLedger := SumPeriod(periodRows);
      RowsGiveSums(State(), from, to, openingByLedger, periodByLedger);
      ListLedgersFacts(State());
      lines := MakeLines(ids, from, to, includeOpening, openingByLedger, periodByLedger);
    }

    method MakeLines(ids: seq<nat>, from: Date, to: Date, includeOpening: bool,
                     openingByLedger: map<nat, int>, periodByLedger: map<nat, (int, int)>) returns (lines: seq<LedgerLine>)
      requires ChartOk(State()) && forall l :: l in ids ==> l < |ledgers|
      requires HoldSums(openingByLedger, periodByLedger, State(), from, to)
      ensures lines == Map(ids, LineFor(State(), from, to, includeOpening))
    {
      lines := [];
      var i := 0;
      while i < |ids|
        invariant 0 <= i <= |ids|
        invariant |lines| == i
        invariant forall k :: 0 <= k < i ==> lines[k] == LineFor(State(), from, to, includeOpening)(ids[k])
      {
        assert ids[i] in ids;
        var line := MakeLine(ids[i], from, to, includeOpening, openingByLedger, periodByLedger);
        lines := lines + [line];
        i := i + 1;
      }
    }

    method MakeLine(l: nat, from: Date, to: Date, includeOpening: bool,
                    openingByLedger: map<nat, int>, periodByLedger: map<nat, (int, int)>) returns (line: LedgerLine)
      requires ChartOk(State()) && l < |ledgers|
      requires HoldSums(openingByLedger, periodByLedger, State(), from, to)
      ensures line == LineFor(State(), from, to, includeOpening)(l)
    {
      var ledger := ledgers[l];
      assert ledger in ledgers;
      var group := groups[ledger.groupId];
      var manualOpening := if includeOpening then OpeningNet(ledger.openingBalance, ledger.openingSide) else 0;
      var txnOpening := if includeOpening then NetOf(openingByLedger, l) else 0;
      var (dr, cr) := SlotOf(periodByLedger, l);
      line := LedgerLine(l, ledger.name, group.name, group.nature, group.classification,
                         manualOpening + txnOpening, dr, cr);
    }

    method TrialBalance(asOn: Date) returns (tb: Accounting.TrialBalance)
      requires Valid()
      ensures tb.rows == Map(ShownLines(BookReports.LedgerLines(State(), EPOCH, asOn, true)), RowOf)
      ensures tb.totalDebit == SumBy(BookReports.LedgerLines(State(), EPOCH, asOn, true), DebitBalance)
      ensures tb.totalDebit - tb.totalCredit == Openings(State(), ALL) + Drift(State(), asOn)
      ensures tb.IsBalanced() <==> -TOLERANCE <= Openings(State(), ALL) + Drift(State(), asOn) <= TOLERANCE
    {
      var lines := LedgerLines(EPOCH, asOn, true);
      tb := ComputeTrialBalance(lines);
      TrialBalanceDrift(State(), asOn);
    }

    method ProfitAndLoss(dateFrom: Option<Date>, dateTo: Option<Date>, today: Date) returns (pnl: Accounting.ProfitAndLoss)
      requires Valid()
      ensures var (fyFrom, fyTo) := CurrentFyRange(today);
              var from := if dateFrom.Some? then dateFrom.value else fyFrom;
              var to := if dateTo.Some? then dateTo.value else fyTo;
              var lines := BookReports.LedgerLines(State(), from, to, false);
              && pnl.directIncome == Section(lines, ShownDirect(Income, true), Credited)
              && pnl.indirectIncome == Section(lines, ShownDirect(Income, false), Credited)
              && pnl.directExpense == Section(lines, ShownDirect(Expense, true), Debited)
              && pnl.indirectExpense == Section(lines, ShownDirect(Expense, false), Debited)
              && pnl.grossProfit == -SumBy(lines, ClosingDirect(Income, true)) - SumBy(lines, ClosingDirect(Expense, true))
              && pnl.netProfit == NetProfit(State(), from, to)
              && pnl.netProfit == -Movements(State(), DatedIn(Between(from, to)), NOMINAL)
      ensures IsProfitFor(State(), today, dateFrom, dateTo, pnl.netProfit)
    {
      var (fyFrom, fyTo) := CurrentFyRange(today);
      var from := if dateFrom.Some? then dateFrom.value else fyFrom;
      var to := if dateTo.Some? then dateTo.value else fyTo;
      var lines := LedgerLines(from, to, false);
      pnl := ComputeProfitAndLoss(lines);
      ProfitIsMovement(State(), from, to);
      ProfitByDefault(State(), today, dateFrom, dateTo);
    }

    method BalanceSheet(asOn: Date, today: Date) returns (bs: Accounting.BalanceSheet)
      requires Valid()
      ensures bs.netProfit == NetProfit(State(), CurrentFyRange(today).0, asOn)
      ensures IsProfitSinceApril(State(), today, asOn, bs.netProfit)
      ensures bs.assets == Section(BookReports.LedgerLines(State(), EPOCH, asOn, true), Shown(Asset), Debited)
      ensures bs.liabilities == Section(BookReports.LedgerLines(State(), EPOCH, asOn, true), Shown(Liability), Credited)
      ensures bs.totalAssets == SumBy(BookReports.LedgerLines(State(), EPOCH, asOn, true), ClosingOf({Asset}))
      ensures bs.totalAssets - bs.totalLiabilities
           == Openings(State(), ALL) + Drift(State(), asOn) + OmittedProfit(State(), CurrentFyRange(today).0, asOn)
      ensures bs.IsBalanced() <==>
                -TOLERANCE <= Openings(State(), ALL) + Drift(State(), asOn) + OmittedProfit(State(), CurrentFyRange(today).0, asOn)
                  <= TOLERANCE
    {
      var (fyFrom, _) := CurrentFyRange(today);
      var pnlLines := LedgerLines(fyFrom, asOn, false);
      var pnl := ComputeProfitAndLoss(pnlLines);
      var lines := LedgerLines(EPOCH, asOn, true);
      bs := ComputeBalanceSheet(lines, pnl.netProfit);
      BalanceSheetIdentity(State(), today, asOn);
      TrialBalanceDrift(State(), asOn);
      ProfitSinceApril(State(), today, asOn);
    }

    /** Every running balance is the opening plus what has been posted so far, and the walk ends at the closing
        balance of the grouped sums. */
    method LedgerStatement(l: nat, dateFrom: Option<Date>, dateTo: Option<Date>, today: Date) returns (r: Result<Statement, BookError>)
      requires Valid()
      ensures r.Ok? <==> l < |ledgers|
      ensures r.Ok? ==>
                var from := if dateFrom.Some? then dateFrom.value else CurrentFyRange(today).0;
                var to := if dateTo.Some? then dateTo.value else FAR_FUTURE;
                var line := LineFor(State(), from, to, true)(l);
                && r.value.ledgerName == ledgers[l].name
                && r.value.openingNet == line.openingNet
                && r.value.closingNet == ClosingNet(line)
                && IsWalk(TxnsOf(StatementVouchers(State(), from, to), l), line.openingNet, r.value.txns)
    {
      if l >= |ledgers| {
        return Err(LedgerNotFound);
      }
      var from := if dateFrom.Some? then dateFrom.value else CurrentFyRange(today).0;
      var to := if dateTo.Some? then dateTo.value else FAR_FUTURE;
      var openingNet := OpeningAsOf(l, from);
      var txns, closing := Walk(openingNet, TxnsOf(StatementVouchers(State(), from, to), l));
      StatementAgreesWithLine(State(), l, from, to);
      r := Ok(Statement(ledgers[l].name, openingNet, txns, closing));
    }

    method OpeningAsOf(l: nat, from: Date) returns (openingNet: int)
      requires l < |ledgers|
      ensures openingNet == OpeningNet(ledgers[l].openingBalance, ledgers[l].openingSide) + SumBy(EntriesIn(State(), Before(from)), NetTo(l))
    {
      var rows := GroupSums(EntriesIn(State(), Before(from)));
      openingNet := OpeningNet(ledgers[l].openingBalance, ledgers[l].openingSide);
      var i := 0;
      while i < |rows|
        invariant 0 <= i <= |rows|
        invariant openingNet == OpeningNet(ledgers[l].openingBalance, ledgers[l].openingSide) + SumBy(rows[..i], NetTo(l))
      {
        assert rows[..i + 1] == rows[..i] + [rows[i]];
        SumAppend(rows[..i], rows[i], NetTo(l));
        if rows[i].ledgerId == l {
          openingNet := openingNet + if rows[i].side == Debit then rows[i].amount else -rows[i].amount;
        }
        i := i + 1;
      }
      assert rows[..|rows|] == rows;
      GroupedNet(EntriesIn(State(), Before(from)), l);
    }
  }

  /** The rows with their running balances filled in. */
  ghost predicate IsWalk(rows: seq<LedgerTxn>, openingNet: int, txns: seq<LedgerTxn>) {
    && |txns| == |rows|
    && forall i :: 0 <= i < |rows| ==> txns[i] == rows[i].(runningNet := openingNet + SumBy(rows[..i + 1], TxnNet))
  }

  method Walk(openingNet: int, rows: seq<LedgerTxn>) returns (txns: seq<LedgerTxn>, closing: int)
    ensures IsWalk(rows, openingNet, txns)
    ensures closing == openingNet + SumBy(rows, TxnNet)
  {
    var a := new LedgerTxn[|rows|](k requires 0 <= k < |rows| => rows[k]);
    assert a[..] == rows;
    closing := ComputeLedgerStatement(openingNet, a);
    txns := a[..];
  }

  // ------------------------------------------------------------ helper loops

  /** The two dictionaries hold what each ledger has before the period and inside it. */
  ghost predicate HoldSums(openings: map<nat, int>, periods: map<nat, (int, int)>, b: Books, from: Date, to: Date) {
    forall l: nat ::
      && NetOf(openings, l) == SumBy(EntriesIn(b, Before(from)), NetTo(l))
      && SlotOf(periods, l).0 == SumBy(EntriesIn(b, Between(from, to)), SideTo(l, Debit))
      && SlotOf(periods, l).1 == SumBy(EntriesIn(b, Between(from, to)), SideTo(l, Credit))
  }

  /** Summing grouped rows is summing the entries themselves. */
  lemma RowsGiveSums(b: Books, from: Date, to: Date, openings: map<nat, int>, periods: map<nat, (int, int)>)
    requires forall l: nat :: NetOf(openings, l) == SumBy(GroupSums(EntriesIn(b, Before(from))), NetTo(l))
    requires forall l: nat ::
               SlotOf(periods, l) == (SumBy(GroupSums(EntriesIn(b, Between(from, to))), SideTo(l, Debit)),
                                      SumBy(GroupSums(EntriesIn(b, Between(from, to))), SideTo(l, Credit)))
    ensures HoldSums(openings, periods, b, from, to)
  {
    forall l: nat
      ensures NetOf(openings, l) == SumBy(EntriesIn(b, Before(from)), NetTo(l))
      ensures SlotOf(periods, l).0 == SumBy(EntriesIn(b, Between(from, to)), SideTo(l, Debit))
      ensures SlotOf(periods, l).1 == SumBy(EntriesIn(b, Between(from, to)), SideTo(l, Credit))
    {
      GroupedNet(EntriesIn(b, Before(from)), l);
      GroupSumsFacts(EntriesIn(b, Between(from, to)), l, Debit);
      GroupSumsFacts(EntriesIn(b, Between(from, to)), l, Credit);
    }
  }

  lemma {:induction false} LaterLegsFail(b: Books, inv: Invoice, components: seq<(string, int)>, i: nat)
    requires i <= |components| && TaxLegs(b, inv, components[..i]).Err?
    ensures TaxLegs(b, inv, components) == TaxLegs(b, inv, components[..i])
  {
    if i < |components| {
      var n := |components| - 1;
      assert components[..n][..i] == components[..i];
      LaterLegsFail(b, inv, components[..n], i);
    } else {
      assert components[..i] == components;
    }
  }

  function NetOf(m: map<nat, int>, l: nat): int {
    if l in m then m[l] else 0
  }

  function SlotOf(m: map<nat, (int, int)>, l: nat): (int, int) {
    if l in m then m[l] else (0, 0)
  }

  method SumOpenings(rows: seq<Entry>) returns (byLedger: map<nat, int>)
    ensures forall l: nat :: NetOf(byLedger, l) == SumBy(rows, NetTo(l))
  {
    byLedger := map[];
    var i := 0;
    while i < |rows|
      invariant 0 <= i <= |rows|
      invariant forall l: nat :: NetOf(byLedger, l) == SumBy(rows[..i], NetTo(l))
    {
      var row := rows[i];
      assert rows[..i + 1] == rows[..i] + [row];
      forall l: nat ensures SumBy(rows[..i + 1], NetTo(l)) == SumBy(rows[..i], NetTo(l)) + NetTo(l)(row) {
        SumAppend(rows[..i], row, NetTo(l));
      }
      var delta := if row.side == Debit then row.amount else -row.amount;
      byLedger := byLedger[row.ledgerId := NetOf(byLedger, row.ledgerId) + delta];
      i := i + 1;
    }
    assert rows[..|rows|] == rows;
  }

  method SumPeriod(rows: seq<Entry>) returns (byLedger: map<nat, (int, int)>)
    ensures forall l: nat :: SlotOf(byLedger, l) == (SumBy(rows, SideTo(l, Debit)), SumBy(rows, SideTo(l, Credit)))
  {
    byLedger := map[];
    var i := 0;
    while i < |rows|
      invariant 0 <= i <= |rows|
      invariant forall l: nat :: SlotOf(byLedger, l) == (SumBy(rows[..i], SideTo(l, Debit)), SumBy(rows[..i], SideTo(l, Credit)))
    {
      var row := rows[i];
      assert rows[..i + 1] == rows[..i] + [row];
      forall l: nat
        ensures SumBy(rows[..i + 1], SideTo(l, Debit)) == SumBy(rows[..i], SideTo(l, Debit)) + SideTo(l, Debit)(row)
        ensures SumBy(rows[..i + 1], SideTo(l, Credit)) == SumBy(rows[..i], SideTo(l, Credit)) + SideTo(l, Credit)(row)
      {
        SumAppend(rows[..i], row, SideTo(l, Debit));
        SumAppend(rows[..i], row, SideTo(l, Credit));
      }
      var (dr, cr) := SlotOf(byLedger, row.ledgerId);
      byLedger := byLedger[row.ledgerId := if row.side == Debit then (dr + row.amount, cr) else (dr, cr + row.amount)];
      i := i + 1;
    }
    assert rows[..|rows|] == rows;
  }
}
