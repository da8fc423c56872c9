/** The reports drawn from the books: what each line holds, and the identities between the statements. */
module BookReports {
  import opened Util
  import opened Text
  import opened Accounting
  import opened BookOperations

  // ---------------------------------------------------------- date windows

  /** The two date filters of the ledger queries. */
  datatype Window = Before(until: Date) | Between(from: Date, to: Date) {
    predicate Has(d: Date) {
      match this
      case Before(until) => d < until
      case Between(from, to) => from <= d <= to
    }
  }

  function DatedIn(w: Window): Voucher -> bool {
    (v: Voucher) => w.Has(v.date)
  }

  /** The vouchers a report up to a date takes in: those before its period and those inside it. */
  function Covered(from: Date, to: Date): Voucher -> bool {
    (v: Voucher) => v.date < from || v.date <= to
  }

  function EntriesOf(vouchers: seq<Voucher>): seq<Entry> {
    if vouchers == [] then [] else EntriesOf(vouchers[..|vouchers| - 1]) + vouchers[|vouchers| - 1].entries
  }

  /** The rows of the join of vouchers and entries within a window. */
  function EntriesIn(b: Books, w: Window): seq<Entry> {
    EntriesOf(Filter(b.vouchers, DatedIn(w)))
  }

  function NetTo(ledgerId: nat): Entry -> int {
    (e: Entry) => if e.ledgerId == ledgerId then Signed(e) else 0
  }

  function SideTo(ledgerId: nat, side: Side): Entry -> int {
    (e: Entry) => if e.ledgerId == ledgerId && e.side == side then e.amount else 0
  }

  /** What a voucher moves in total, counting each of its entries by f. */
  function PerVoucher(f: Entry -> int): Voucher -> int {
    (v: Voucher) => SumBy(v.entries, f)
  }

  function PerVoucherIn(p: Voucher -> bool, f: Entry -> int): Voucher -> int {
    (v: Voucher) => if p(v) then SumBy(v.entries, f) else 0
  }

  // ----------------------------------------------------------- ledger lines

  function LineFor(b: Books, from: Date, to: Date, includeOpening: bool): nat -> LedgerLine
    requires ChartOk(b)
  {
    (l: nat) =>
      if l >= |b.ledgers| then LedgerLine(l, "", "", Asset, "", 0, 0, 0) else
        var ledger := b.ledgers[l];
        assert ledger in b.ledgers;
        var group := b.groups[ledger.groupId];
        LedgerLine(l, ledger.name, group.name, group.nature, group.classification,
                   if includeOpening
                   then OpeningNet(ledger.openingBalance, ledger.openingSide) + SumBy(EntriesIn(b, Before(from)), NetTo(l))
                   else 0,
                   SumBy(EntriesIn(b, Between(from, to)), SideTo(l, Debit)),
                   SumBy(EntriesIn(b, Between(from, to)), SideTo(l, Credit)))
  }

  function NameLe(ledgers: seq<Ledger>): (nat, nat) -> bool {
    (i: nat, j: nat) =>
      if i < |ledgers| && j < |ledgers| then StringLe(ledgers[i].name, ledgers[j].name) else i >= |ledgers| ==> j >= |ledgers|
  }

  lemma NameLeIsTotalPreorder(ledgers: seq<Ledger>)
    ensures TotalPreorder(NameLe(ledgers))
  {
    var le := NameLe(ledgers);
    forall i: nat, j: nat ensures le(i, j) || le(j, i) {
      if i < |ledgers| && j < |ledgers| {
        StringLeTotal(ledgers[i].name, ledgers[j].name);
      }
    }
    forall i: nat, j: nat, k: nat | le(i, j) && le(j, k) ensures le(i, k) {
      if i < |ledgers| && j < |ledgers| && k < |ledgers| {
        StringLeTransitive(ledgers[i].name, ledgers[j].name, ledgers[k].name);
      }
    }
  }

  /** Ledger ids in the order of the ledgers' names. */
  function ListLedgers(b: Books): seq<nat> {
    Sort(Range(|b.ledgers|), NameLe(b.ledgers))
  }

  function LedgerLines(b: Books, from: Date, to: Date, includeOpening: bool): seq<LedgerLine>
    requires ChartOk(b)
  {
    Map(ListLedgers(b), LineFor(b, from, to, includeOpening))
  }

  function NatureOf(b: Books, l: nat): Nature
    requires ChartOk(b) && l < |b.ledgers|
  {
    assert b.ledgers[l] in b.ledgers;
    b.groups[b.ledgers[l].groupId].nature
  }

  // ------------------------------------------------------------ sum lemmas

  lemma {:induction false} EntriesOfSum(vouchers: seq<Voucher>, f: Entry -> int)
    ensures SumBy(EntriesOf(vouchers), f) == SumBy(vouchers, PerVoucher(f))
  {
    if vouchers != [] {
      EntriesOfSum(vouchers[..|vouchers| - 1], f);
      SumConcat(EntriesOf(vouchers[..|vouchers| - 1]), vouchers[|vouchers| - 1].entries, f);
    }
  }

  lemma EntriesInSum(b: Books, w: Window, f: Entry -> int)
    ensures SumBy(EntriesIn(b, w), f) == SumBy(b.vouchers, PerVoucherIn(DatedIn(w), f))
  {
    EntriesOfSum(Filter(b.vouchers, DatedIn(w)), f);
    SumFilter(b.vouchers, DatedIn(w), PerVoucher(f), PerVoucherIn(DatedIn(w), f));
  }

  /** Reading before a period and inside it is reading everything the report covers, wherever the period starts. */
  lemma WindowsCover(b: Books, from: Date, to: Date, f: Entry -> int)
    ensures SumBy(EntriesIn(b, Before(from)), f) + SumBy(EntriesIn(b, Between(from, to)), f)
         == SumBy(b.vouchers, PerVoucherIn(Covered(from, to), f))
  {
    EntriesInSum(b, Before(from), f);
    EntriesInSum(b, Between(from, to), f);
    SumPlus(b.vouchers, PerVoucherIn(DatedIn(Before(from)), f), PerVoucherIn(DatedIn(Between(from, to)), f),
            PerVoucherIn(Covered(from, to), f));
  }

  lemma SidesMakeNet(entries: seq<Entry>, l: nat)
    ensures SumBy(entries, NetTo(l)) == SumBy(entries, SideTo(l, Debit)) - SumBy(entries, SideTo(l, Credit))
  {
    SumPlus(entries, NetTo(l), SideTo(l, Credit), SideTo(l, Debit));
  }

  function Picked(pick: nat -> bool): Entry -> int {
    (e: Entry) => if pick(e.ledgerId) then Signed(e) else 0
  }

  function PickedNet(entries: seq<Entry>, pick: nat -> bool): nat -> int {
    (l: nat) => if pick(l) then SumBy(entries, NetTo(l)) else 0
  }

  function PickedOne(e: Entry, pick: nat -> bool): nat -> int {
    (l: nat) => if l == e.ledgerId && pick(l) then Signed(e) else 0
  }

  lemma {:induction false} SumOfOne(n: nat, e: Entry, pick: nat -> bool)
    ensures SumBy(Range(n), PickedOne(e, pick)) == if e.ledgerId < n then Picked(pick)(e) else 0
  {
    if n > 0 {
      RangeStep(n - 1);
      SumOfOne(n - 1, e, pick);
    }
  }

  /** Adding up ledger by ledger is adding up entry by entry, provided every entry is on a ledger that is listed. */
  lemma {:induction false} LedgersExhaustEntries(n: nat, entries: seq<Entry>, pick: nat -> bool)
    requires OwnedLedgers(entries, n)
    ensures SumBy(Range(n), PickedNet(entries, pick)) == SumBy(entries, Picked(pick))
  {
    if entries == [] {
      SumZero(Range(n), PickedNet(entries, pick));
    } else {
      var init, e := entries[..|entries| - 1], entries[|entries| - 1];
      LedgersExhaustEntries(n, init, pick);
      SumOfOne(n, e, pick);
      SumPlus(Range(n), PickedNet(init, pick), PickedOne(e, pick), PickedNet(entries, pick));
    }
  }

  lemma {:induction false} EntriesOfOwned(vouchers: seq<Voucher>, n: nat)
    requires forall v :: v in vouchers ==> VoucherOk(v, n)
    ensures OwnedLedgers(EntriesOf(vouchers), n)
  {
    if vouchers != [] {
      EntriesOfOwned(vouchers[..|vouchers| - 1], n);
      assert VoucherOk(vouchers[|vouchers| - 1], n);
    }
  }

  // ----------------------------------------------------- sums over the lines

  function OpeningOf(b: Books): nat -> int {
    (l: nat) => if l < |b.ledgers| then OpeningNet(b.ledgers[l].openingBalance, b.ledgers[l].openingSide) else 0
  }

  /** Ledgers whose group has one of the given natures. */
  function HasNature(b: Books, natures: set<Nature>): nat -> bool
    requires ChartOk(b)
  {
    (l: nat) => l < |b.ledgers| && NatureOf(b, l) in natures
  }

  function OpeningWithin(b: Books, pick: nat -> bool): nat -> int {
    (l: nat) => if pick(l) then OpeningOf(b)(l) else 0
  }

  /** Opening balances of the ledgers of the given natures. */
  function Openings(b: Books, natures: set<Nature>): int
    requires ChartOk(b)
  {
    SumBy(Range(|b.ledgers|), OpeningWithin(b, HasNature(b, natures)))
  }

  /** What the vouchers selected by p move on ledgers of the given natures. */
  function Movements(b: Books, p: Voucher -> bool, natures: set<Nature>): int
    requires ChartOk(b)
  {
    SumBy(b.vouchers, PerVoucherIn(p, Picked(HasNature(b, natures))))
  }

  const ALL := {Asset, Liability, Income, Expense}

  function ClosingAt(b: Books, from: Date, to: Date, includeOpening: bool, natures: set<Nature>): nat -> int
    requires ChartOk(b)
  {
    (l: nat) => if HasNature(b, natures)(l) then ClosingNet(LineFor(b, from, to, includeOpening)(l)) else 0
  }

  /** Every ledger is listed exactly once, in name order. */
  lemma ListLedgersFacts(b: Books)
    ensures multiset(ListLedgers(b)) == multiset(Range(|b.ledgers|))
    ensures forall l: nat :: l in ListLedgers(b) <==> l < |b.ledgers|
    ensures Sorted(ListLedgers(b), NameLe(b.ledgers))
  {
    NameLeIsTotalPreorder(b.ledgers);
    SortFacts(Range(|b.ledgers|), NameLe(b.ledgers));
    forall l: nat ensures l in ListLedgers(b) <==> l < |b.ledgers| {
      assert l in ListLedgers(b) <==> l in Range(|b.ledgers|);
      if l < |b.ledgers| {
        assert Range(|b.ledgers|)[l] == l;
      }
    }
  }

  lemma LinesAreLedgers(b: Books, from: Date, to: Date, includeOpening: bool, natures: set<Nature>)
    requires ChartOk(b)
    ensures SumBy(LedgerLines(b, from, to, includeOpening), ClosingOf(natures))
         == SumBy(Range(|b.ledgers|), ClosingAt(b, from, to, includeOpening, natures))
  {
    ListLedgersFacts(b);
    SumMap(ListLedgers(b), LineFor(b, from, to, includeOpening), ClosingOf(natures),
           ClosingAt(b, from, to, includeOpening, natures));
    SumPermutation(ListLedgers(b), Range(|b.ledgers|), ClosingAt(b, from, to, includeOpening, natures));
  }

  /** The closing balances of a set of natures: their openings plus everything posted up to the report's end. */
  lemma ClosingsWithOpening(b: Books, from: Date, to: Date, natures: set<Nature>)
    requires WellFormed(b)
    ensures SumBy(LedgerLines(b, from, to, true), ClosingOf(natures)) == Openings(b, natures) + Movements(b, Covered(from, to), natures)
  {
    var pick, n := HasNature(b, natures), |b.ledgers|;
    var before, within := EntriesIn(b, Before(from)), EntriesIn(b, Between(from, to));
    LinesAreLedgers(b, from, to, true, natures);
    EntriesOfOwned(Filter(b.vouchers, DatedIn(Before(from))), n);
    EntriesOfOwned(Filter(b.vouchers, DatedIn(Between(from, to))), n);
    LedgersExhaustEntries(n, before, pick);
    LedgersExhaustEntries(n, within, pick);
    WindowsCover(b, from, to, Picked(pick));
    var moved := (l: nat) => PickedNet(before, pick)(l) + PickedNet(within, pick)(l);
    SumPlus(Range(n), PickedNet(before, pick), PickedNet(within, pick), moved);
    forall l ensures SumBy(within, NetTo(l)) == SumBy(within, SideTo(l, Debit)) - SumBy(within, SideTo(l, Credit)) {
      SidesMakeNet(within, l);
    }
    SumPlus(Range(n), OpeningWithin(b, pick), moved, ClosingAt(b, from, to, true, natures));
  }

  /** Without openings only the period counts. */
  lemma ClosingsOfPeriod(b: Books, from: Date, to: Date, natures: set<Nature>)
    requires WellFormed(b)
    ensures SumBy(LedgerLines(b, from, to, false), ClosingOf(natures)) == Movements(b, DatedIn(Between(from, to)), natures)
  {
    var pick, n := HasNature(b, natures), |b.ledgers|;
    var within := EntriesIn(b, Between(from, to));
    LinesAreLedgers(b, from, to, false, natures);
    EntriesOfOwned(Filter(b.vouchers, DatedIn(Between(from, to))), n);
    LedgersExhaustEntries(n, within, pick);
    EntriesInSum(b, Between(from, to), Picked(pick));
    forall l ensures SumBy(within, NetTo(l)) == SumBy(within, SideTo(l, Debit)) - SumBy(within, SideTo(l, Credit)) {
      SidesMakeNet(within, l);
    }
    SumCongruent(Range(n), ClosingAt(b, from, to, false, natures), PickedNet(within, pick));
  }

  // ---------------------------------------------------------- grouped sums

  /** Adds an entry to the row of its ledger and side. */
  function AddToRows(rows: seq<Entry>, e: Entry): seq<Entry> {
    if rows == [] then [e]
    else
      var last := rows[|rows| - 1];
      if last.ledgerId == e.ledgerId && last.side == e.side
      then rows[..|rows| - 1] + [last.(amount := last.amount + e.amount)]
      else AddToRows(rows[..|rows| - 1], e) + [last]
  }

  /** The rows of `GROUP BY ledger_id, side` with the summed amounts. */
  function GroupSums(entries: seq<Entry>): seq<Entry> {
    if entries == [] then [] else AddToRows(GroupSums(entries[..|entries| - 1]), entries[|entries| - 1])
  }

  ghost predicate OneRowPerKey(rows: seq<Entry>) {
    forall i, j :: 0 <= i < j < |rows| ==> !SameKey(rows[i], rows[j])
  }

  lemma {:induction false} AddToRowsSum(rows: seq<Entry>, e: Entry, l: nat, side: Side)
    ensures SumBy(AddToRows(rows, e), SideTo(l, side)) == SumBy(rows, SideTo(l, side)) + SideTo(l, side)(e)
  {
    if rows == [] {
      SumAppend([], e, SideTo(l, side));
      assert [] + [e] == [e];
    } else {
      var init, last := rows[..|rows| - 1], rows[|rows| - 1];
      if last.ledgerId == e.ledgerId && last.side == e.side {
        SumAppend(init, last.(amount := last.amount + e.amount), SideTo(l, side));
      } else {
        AddToRowsSum(init, e, l, side);
        SumAppend(AddToRows(init, e), last, SideTo(l, side));
      }
    }
  }

  predicate SameKey(r: Entry, q: Entry) {
    r.ledgerId == q.ledgerId && r.side == q.side
  }

  lemma {:induction false} AddToRowsKeys(rows: seq<Entry>, e: Entry)
    requires OneRowPerKey(rows)
    ensures OneRowPerKey(AddToRows(rows, e))
    ensures forall r :: r in AddToRows(rows, e) ==> SameKey(r, e) || exists q :: q in rows && SameKey(r, q)
  {
    if rows == [] {
    } else {
      var init, last := rows[..|rows| - 1], rows[|rows| - 1];
      assert last in rows && SameKey(last, last);
      if !SameKey(last, e) {
        AddToRowsKeys(init, e);
        forall r | r in AddToRows(init, e) ensures !SameKey(r, last) && (SameKey(r, e) || exists q :: q in rows && SameKey(r, q)) {
          if !SameKey(r, e) {
            var q :| q in init && SameKey(r, q);
            assert q in rows;
          }
        }
      } else {
        forall r | r in init ensures exists q :: q in rows && SameKey(r, q) {
          assert r in rows && SameKey(r, r);
        }
      }
    }
  }

  /** Grouping leaves one row per ledger and side and keeps what each ledger has on each side. */
  lemma {:induction false} GroupSumsFacts(entries: seq<Entry>, l: nat, side: Side)
    ensures SumBy(GroupSums(entries), SideTo(l, side)) == SumBy(entries, SideTo(l, side))
    ensures OneRowPerKey(GroupSums(entries))
  {
    if entries != [] {
      GroupSumsFacts(entries[..|entries| - 1], l, side);
      AddToRowsSum(GroupSums(entries[..|entries| - 1]), entries[|entries| - 1], l, side);
      AddToRowsKeys(GroupSums(entries[..|entries| - 1]), entries[|entries| - 1]);
    }
  }

  lemma GroupedNet(entries: seq<Entry>, l: nat)
    ensures SumBy(GroupSums(entries), NetTo(l)) == SumBy(entries, NetTo(l))
  {
    GroupSumsFacts(entries, l, Debit);
    GroupSumsFacts(entries, l, Credit);
    SidesMakeNet(entries, l);
    SidesMakeNet(GroupSums(entries), l);
  }
}
