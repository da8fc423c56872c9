/** What every run of the accounting operations keeps: a sound chart, accepted vouchers, issued numbers. */
module BookRuns {
  import opened Util
  import opened Text
  import opened Accounting
  import opened BookOperations

  // ------------------------------------------------------ chart of accounts

  ghost predicate DistinctNames(ledgers: seq<Ledger>) {
    forall i, j :: 0 <= i < j < |ledgers| ==> ledgers[i].name != ledgers[j].name
  }

  lemma DefaultNamesDistinct()
    ensures forall i, j :: 0 <= i < j < |DefaultLedgers()| ==> DefaultLedgers()[i].name != DefaultLedgers()[j].name
  {
    forall i: nat, j: nat | i < j < 14 ensures DefaultLedgerAt(i).name != DefaultLedgerAt(j).name {
    }
  }

  ghost predicate HasGroup(groups: seq<Group>, name: string) {
    GroupNamed(groups, name) < |groups|
  }

  lemma HasGroupAt(groups: seq<Group>, i: nat)
    requires i < |groups|
    ensures HasGroup(groups, groups[i].name)
  {
    assert groups[i] in groups;
  }

  /** Where the group of each default ledger stands in the table of groups. */
  function HomeOf(i: nat): nat {
    match i
    case 0 => 8
    case 1 => 7
    case 2 => 10
    case 3 => 13
    case 12 => 15
    case 13 => 0
    case _ => 3
  }

  lemma HomesMatch(i: nat)
    requires i < 14
    ensures HomeOf(i) < 16 && DefaultGroup(HomeOf(i)).name == DefaultLedgerAt(i).groupName
  {
  }

  lemma DefaultGroupsExist()
    ensures forall d :: d in DefaultLedgers() ==> HasGroup(DefaultGroups(), d.groupName)
  {
    forall d | d in DefaultLedgers() ensures HasGroup(DefaultGroups(), d.groupName) {
      var i: nat :| i < 14 && DefaultLedgers()[i] == d;
      HomesMatch(i);
      HasGroupAt(DefaultGroups(), HomeOf(i));
    }
  }

  lemma {:induction false} AddGroupsFacts(groups: seq<Group>, defaults: seq<Group>)
    ensures groups <= AddGroups(groups, defaults)
    ensures forall d :: d in defaults ==> HasGroup(AddGroups(groups, defaults), d.name)
    ensures forall g :: g in AddGroups(groups, defaults) ==> g in groups || g in defaults
    ensures (forall i, j :: 0 <= i < j < |groups| ==> groups[i].name != groups[j].name) ==>
            var r := AddGroups(groups, defaults); forall i, j :: 0 <= i < j < |r| ==> r[i].name != r[j].name
    decreases defaults
  {
    if defaults != [] {
      var d := defaults[0];
      var next := if HasGroup(groups, d.name) then groups else groups + [d];
      AddGroupsFacts(next, defaults[1..]);
      var r := AddGroups(next, defaults[1..]);
      var i := GroupNamed(next, d.name);
      assert i < |next| by { assert next == groups + [d] ==> next[|groups|] in next; }
      HasGroupAt(r, i);
    }
  }

  lemma {:induction false} AddGroupsTwice(groups: seq<Group>, defaults: seq<Group>)
    requires forall d :: d in defaults ==> HasGroup(groups, d.name)
    ensures AddGroups(groups, defaults) == groups
    decreases defaults
  {
    if defaults != [] {
      AddGroupsTwice(groups, defaults[1..]);
    }
  }

  /** New ledgers go to the end, open at zero, and belong to existing groups. */
  lemma {:induction false} AddLedgersFacts(groups: seq<Group>, existing: set<string>, ledgers: seq<Ledger>, defaults: seq<DefaultLedger>)
    requires forall i, j :: 0 <= i < j < |defaults| ==> defaults[i].name != defaults[j].name
    requires forall d :: d in defaults ==> HasGroup(groups, d.groupName)
    requires forall d :: d in defaults && d.name !in existing ==> d.name !in LedgerNames(ledgers)
    requires existing <= LedgerNames(ledgers)
    ensures var r := AddLedgers(groups, existing, ledgers, defaults);
            && ledgers <= r
            && (forall d :: d in defaults ==> d.name in LedgerNames(r))
            && (forall i :: |ledgers| <= i < |r| ==> r[i].groupId < |groups| && r[i].openingBalance == 0)
            && (DistinctNames(ledgers) ==> DistinctNames(r))
    decreases defaults
  {
    if defaults != [] {
      var d := defaults[0];
      var next := if d.name in existing then ledgers else ledgers + [Ledger(d.name, GroupNamed(groups, d.groupName), 0, Debit)];
      assert d in defaults;
      assert LedgerNames(next) == LedgerNames(ledgers) + {d.name} by {
        if d.name in existing {
        } else {
          assert next[|ledgers|] in next;
          forall l | l in ledgers ensures l in next {}
        }
      }
      if DistinctNames(ledgers) && d.name !in existing {
        forall i | 0 <= i < |ledgers| ensures ledgers[i].name != d.name {
          assert ledgers[i] in ledgers;
        }
      }
      AddLedgersFacts(groups, existing, next, defaults[1..]);
      var r := AddLedgers(groups, existing, next, defaults[1..]);
      assert forall l :: l in next ==> l in r;
    }
  }

  lemma {:induction false} AddLedgersTwice(groups: seq<Group>, existing: set<string>, ledgers: seq<Ledger>, defaults: seq<DefaultLedger>)
    requires forall d :: d in defaults ==> d.name in existing
    ensures AddLedgers(groups, existing, ledgers, defaults) == ledgers
    decreases defaults
  {
    if defaults != [] {
      AddLedgersTwice(groups, existing, ledgers, defaults[1..]);
    }
  }

  ghost predicate GroupsFrom(groups: seq<Group>, defaults: seq<Group>) {
    && (forall g :: g in groups ==> g in defaults)
    && (forall i, j :: 0 <= i < j < |groups| ==> groups[i].name != groups[j].name)
  }

  lemma AddGroupsCompletes(groups: seq<Group>, defaults: seq<Group>)
    requires GroupsFrom(groups, defaults)
    requires forall g, h :: g in defaults && h in defaults && g.name == h.name ==> g == h
    ensures var r := AddGroups(groups, defaults);
            groups <= r && GroupsFrom(r, defaults) && forall g :: g in defaults ==> g in r
  {
    AddGroupsFacts(groups, defaults);
    var r := AddGroups(groups, defaults);
    forall g | g in defaults ensures g in r {
      assert HasGroup(r, g.name);
      assert r[GroupNamed(r, g.name)] in r;
    }
  }

  lemma GroupHomes(defaults: seq<Group>, groups: seq<Group>, ledgers: seq<DefaultLedger>)
    requires forall g :: g in defaults ==> g in groups
    requires forall d :: d in ledgers ==> HasGroup(defaults, d.groupName)
    ensures forall d :: d in ledgers ==> HasGroup(groups, d.groupName)
  {
    forall d | d in ledgers ensures HasGroup(groups, d.groupName) {
      assert defaults[GroupNamed(defaults, d.groupName)] in groups;
    }
  }

  lemma DefaultGroupsByName()
    ensures forall g, h :: g in DefaultGroups() && h in DefaultGroups() && g.name == h.name ==> g == h
  {
    forall i: nat, j: nat | i < j < 16 ensures DefaultGroup(i).name != DefaultGroup(j).name {
    }
    forall g, h | g in DefaultGroups() && h in DefaultGroups() && g.name == h.name ensures g == h {
      var i: nat :| i < 16 && DefaultGroup(i) == g;
      var j: nat :| j < 16 && DefaultGroup(j) == h;
    }
  }

  lemma AddLedgersKeepsChart(b: Books, groups: seq<Group>, defaults: seq<DefaultLedger>)
    requires DistinctNames(b.ledgers) && |b.groups| <= |groups| && forall l :: l in b.ledgers ==> l.groupId < |b.groups|
    requires forall i, j :: 0 <= i < j < |defaults| ==> defaults[i].name != defaults[j].name
    requires forall d :: d in defaults ==> HasGroup(groups, d.groupName)
    ensures var r := AddLedgers(groups, LedgerNames(b.ledgers), b.ledgers, defaults);
            && b.ledgers <= r && DistinctNames(r)
            && (forall l :: l in r ==> l.groupId < |groups|)
            && (forall d :: d in defaults ==> d.name in LedgerNames(r))
            && (forall i :: |b.ledgers| <= i < |r| ==> r[i].openingBalance == 0)
  {
    AddLedgersFacts(groups, LedgerNames(b.ledgers), b.ledgers, defaults);
    var r := AddLedgers(groups, LedgerNames(b.ledgers), b.ledgers, defaults);
    forall l | l in r ensures l.groupId < |groups| {
      var i :| 0 <= i < |r| && r[i] == l;
      if i < |b.ledgers| {
        assert b.ledgers[i] in b.ledgers;
      }
    }
  }

  ghost predicate ProperDefaults(groups: seq<Group>, ledgers: seq<DefaultLedger>) {
    && (forall g, h :: g in groups && h in groups && g.name == h.name ==> g == h)
    && (forall i, j :: 0 <= i < j < |ledgers| ==> ledgers[i].name != ledgers[j].name)
    && (forall d :: d in ledgers ==> HasGroup(groups, d.groupName))
  }

  ghost predicate Seeded(b: Books, r: Books, groups: seq<Group>, ledgers: seq<DefaultLedger>) {
    && r.vouchers == b.vouchers && b.groups <= r.groups && b.ledgers <= r.ledgers
    && (forall g :: g in groups ==> g in r.groups)
    && (forall d :: d in ledgers ==> d.name in LedgerNames(r.ledgers))
    && (forall i :: |b.ledgers| <= i < |r.ledgers| ==> r.ledgers[i].openingBalance == 0)
  }

  lemma SeedingWorks(b: Books, groups: seq<Group>, ledgers: seq<DefaultLedger>)
    requires ProperDefaults(groups, ledgers) && ChartOk(b) && GroupsAmong(b, groups)
    ensures ChartOk(Seed(b, groups, ledgers)) && GroupsAmong(Seed(b, groups, ledgers), groups)
    ensures Seeded(b, Seed(b, groups, ledgers), groups, ledgers)
  {
    AddGroupsCompletes(b.groups, groups);
    var all := AddGroups(b.groups, groups);
    GroupHomes(groups, all, ledgers);
    AddLedgersKeepsChart(b, all, ledgers);
  }

  lemma DefaultsAreProper()
    ensures ProperDefaults(DefaultGroups(), DefaultLedgers())
  {
    DefaultNamesDistinct();
    DefaultGroupsExist();
    DefaultGroupsByName();
  }

  /** Seeding keeps every existing group and ledger, leaves the vouchers alone, completes the chart, and adds
      only ledgers that open at zero. */
  lemma EnsureChartFacts(b: Books)
    requires ChartOk(b) && StandardGroups(b)
    ensures ChartOk(EnsureChart(b)) && StandardGroups(EnsureChart(b))
    ensures Seeded(b, EnsureChart(b), DefaultGroups(), DefaultLedgers())
  {
    DefaultsAreProper();
    SeedingWorks(b, DefaultGroups(), DefaultLedgers());
  }

  /** The seeding is idempotent. */
  lemma EnsureChartIdempotent(b: Books)
    requires ChartOk(b) && StandardGroups(b)
    ensures EnsureChart(EnsureChart(b)) == EnsureChart(b)
  {
    EnsureChartFacts(b);
    var r := EnsureChart(b);
    AddGroupsFacts(b.groups, DefaultGroups());
    AddGroupsTwice(r.groups, DefaultGroups());
    AddLedgersTwice(r.groups, LedgerNames(r.ledgers), r.ledgers, DefaultLedgers());
  }

  /** On a chart without ledgers the defaults are added one after another. */
  lemma {:induction false} AddLedgersAt(groups: seq<Group>, ledgers: seq<Ledger>, defaults: seq<DefaultLedger>, k: nat)
    requires k < |defaults|
    ensures var r := AddLedgers(groups, {}, ledgers, defaults);
            && |r| == |ledgers| + |defaults|
            && r[|ledgers| + k] == Ledger(defaults[k].name, GroupNamed(groups, defaults[k].groupName), 0, Debit)
    decreases defaults
  {
    var next := ledgers + [Ledger(defaults[0].name, GroupNamed(groups, defaults[0].groupName), 0, Debit)];
    AddLedgersExtends(groups, next, defaults[1..]);
    if k > 0 {
      AddLedgersAt(groups, next, defaults[1..], k - 1);
    }
  }

  lemma {:induction false} AddLedgersExtends(groups: seq<Group>, ledgers: seq<Ledger>, defaults: seq<DefaultLedger>)
    ensures ledgers <= AddLedgers(groups, {}, ledgers, defaults)
    ensures |AddLedgers(groups, {}, ledgers, defaults)| == |ledgers| + |defaults|
    decreases defaults
  {
    if defaults != [] {
      AddLedgersExtends(groups, ledgers + [Ledger(defaults[0].name, GroupNamed(groups, defaults[0].groupName), 0, Debit)], defaults[1..]);
    }
  }

  /** Ledger k of a new chart is default ledger k, in the group that the table gives it. */
  lemma SeededLedger(k: nat)
    requires k < 14
    ensures var b := EnsureChart(EMPTY);
            && |b.ledgers| == 14 && b.ledgers[k].groupId < |b.groups|
            && b.groups[b.ledgers[k].groupId] == DefaultGroup(HomeOf(k))
  {
    DefaultsAreProper();
    HomesMatch(k);
    assert DefaultGroups()[HomeOf(k)] in DefaultGroups();
    SeedPlaces(DefaultGroups(), DefaultLedgers(), k, DefaultGroup(HomeOf(k)));
  }

  lemma SeedPlaces(groups: seq<Group>, ledgers: seq<DefaultLedger>, k: nat, home: Group)
    requires ProperDefaults(groups, ledgers) && k < |ledgers| && home in groups && ledgers[k].groupName == home.name
    ensures var b := Seed(EMPTY, groups, ledgers);
            && |b.ledgers| == |ledgers| && b.ledgers[k].groupId < |b.groups| && b.groups[b.ledgers[k].groupId] == home
  {
    var all := AddGroups([], groups);
    AddGroupsCompletes([], groups);
    AddLedgersAt(all, [], ledgers, k);
    assert LedgerNames([]) == {};
    assert home in all && all[GroupNamed(all, home.name)] in all;
  }

  // --------------------------------------------------------------- vouchers

  lemma VouchersSurviveNewLedgers(b: Books, r: Books)
    requires WellFormed(b) && ChartOk(r) && r.vouchers == b.vouchers && b.ledgers <= r.ledgers
    ensures WellFormed(r)
  {
    forall v | v in r.vouchers ensures VoucherOk(v, |r.ledgers|) {
      assert VoucherOk(v, |b.ledgers|);
    }
  }

  /** A ledger is refused exactly for an unknown group or a name that is taken: by a ledger of that name in any case, or
      of that name once stripped. Otherwise it is appended, and the books stay well formed. */
  lemma CreateLedgerKeeps(b: Books, name: string, groupId: nat, balance: int, side: Side)
    requires WellFormed(b)
    ensures var (r, id) := CreateLedger(b, name, groupId, balance, side);
            && WellFormed(r) && r.groups == b.groups && r.vouchers == b.vouchers
            && (id.Ok? <==> groupId < |b.groups| && forall l :: l in b.ledgers ==> Lower(l.name) != Lower(name) && l.name != Strip(name))
            && (id.Err? ==> r == b)
            && (id.Ok? ==> r.ledgers == b.ledgers + [Ledger(Strip(name), groupId, balance, side)] && id.value == |b.ledgers|)
  {
    var (r, id) := CreateLedger(b, name, groupId, balance, side);
    LikeNamed(b.ledgers, Lower(name));
    if id.Ok? {
      LedgerAddedKeepsChart(b, Ledger(Strip(name), groupId, balance, side));
      VouchersSurviveNewLedgers(b, r);
    }
  }

  lemma LikeNamed(ledgers: seq<Ledger>, key: string)
    ensures LedgersLike(ledgers, key) == [] <==> forall l :: l in ledgers ==> Lower(l.name) != key
  {
    var like := LedgersLike(ledgers, key);
    if like != [] {
      assert like[0] in like;
      assert ledgers[like[0]] in ledgers;
    }
    forall l | l in ledgers && Lower(l.name) == key ensures like != [] {
      var i: nat :| i < |ledgers| && ledgers[i] == l;
      assert i in like;
    }
  }

  lemma LedgerAddedKeepsChart(b: Books, l: Ledger)
    requires ChartOk(b) && l.groupId < |b.groups| && forall k :: k in b.ledgers ==> k.name != l.name
    ensures ChartOk(b.(ledgers := b.ledgers + [l]))
  {
    forall i | 0 <= i < |b.ledgers| ensures b.ledgers[i].name != l.name {
      assert b.ledgers[i] in b.ledgers;
    }
  }

  /** A voucher is accepted exactly when it has two entries or more, all positive, is at most a paisa off, and
      touches only ledgers of the organization; then it is appended, and nothing else changes. */
  lemma CreateVoucherOutcome(b: Books, t: VoucherType, date: Date, entries: seq<Entry>, source: Option<nat>)
    requires WellFormed(b)
    ensures var (r, v) := CreateVoucher(b, t, date, entries, source);
            && WellFormed(r)
            && (v.Ok? <==>
                && |entries| >= 2
                && (forall e :: e in entries ==> e.amount > 0 && e.ledgerId < |b.ledgers|)
                && -TOLERANCE <= Imbalance(entries) <= TOLERANCE)
            && (v.Err? ==> r == b)
            && (v.Ok? ==>
                && r == b.(vouchers := b.vouchers + [v.value])
                && v.value.entries == entries && v.value.date == date
                && v.value.voucherType == t && v.value.sourceInvoice == source)
  {
    var (r, v) := CreateVoucher(b, t, date, entries, source);
    if v.Ok? {
      NumberingContinues(b.vouchers, v.value);
    }
  }

  lemma NumberingContinues(vouchers: seq<Voucher>, v: Voucher)
    requires Numbered(vouchers) && v.number == VoucherNumber(v.voucherType, CountType(vouchers, v.voucherType) + 1)
    ensures Numbered(vouchers + [v])
  {
    var all := vouchers + [v];
    forall i | 0 <= i < |all| ensures NumberedAt(all, i) {
      if i < |vouchers| {
        NumberedStays(vouchers, v, i);
      } else {
        assert all[..i] == vouchers;
      }
    }
  }

  lemma NumberedStays(vouchers: seq<Voucher>, v: Voucher, i: nat)
    requires i < |vouchers| && NumberedAt(vouchers, i)
    ensures NumberedAt(vouchers + [v], i)
  {
    assert (vouchers + [v])[..i] == vouchers[..i];
  }

  // -------------------------------------------------------------- numbering

  lemma {:induction false} CountGrows(vouchers: seq<Voucher>, i: nat, j: nat, t: VoucherType)
    requires i < j <= |vouchers| && vouchers[i].voucherType == t
    ensures CountType(vouchers[..i], t) < CountType(vouchers[..j], t)
  {
    assert vouchers[..j][..j - 1] == vouchers[..j - 1];
    if i < j - 1 {
      CountGrows(vouchers, i, j - 1, t);
    }
  }

  lemma PrefixesDiffer(s: VoucherType, t: VoucherType)
    requires s != t
    ensures Prefix(s)[..2] != Prefix(t)[..2]
  {
    assert Prefix(s)[..2][0] == Prefix(s)[0] && Prefix(s)[..2][1] == Prefix(s)[1];
    assert Prefix(t)[..2][0] == Prefix(t)[0] && Prefix(t)[..2][1] == Prefix(t)[1];
  }

  /** Formatted voucher numbers are as distinct as the (type, count) pairs they are made of. */
  lemma VoucherNumberInjective(s: VoucherType, m: nat, t: VoucherType, n: nat)
    requires s != t || m != n
    ensures VoucherNumber(s, m) != VoucherNumber(t, n)
  {
    if s != t {
      PrefixesDiffer(s, t);
      assert VoucherNumber(s, m)[..2] == Prefix(s)[..2] && VoucherNumber(t, n)[..2] == Prefix(t)[..2];
    } else {
      var k := |Prefix(s)| + 1;
      assert VoucherNumber(s, m)[k..] == Pad4(m) && VoucherNumber(t, n)[k..] == Pad4(n);
      Pad4RoundTrip(m);
      Pad4RoundTrip(n);
    }
  }

  /** The count the voucher at position i was numbered with. */
  function SerialAt(vouchers: seq<Voucher>, i: nat): nat
    requires i < |vouchers|
  {
    CountType(vouchers[..i], vouchers[i].voucherType) + 1
  }

  lemma NumberAt(vouchers: seq<Voucher>, i: nat)
    requires Numbered(vouchers) && i < |vouchers|
    ensures vouchers[i].number == VoucherNumber(vouchers[i].voucherType, SerialAt(vouchers, i))
  {
    assert NumberedAt(vouchers, i);
  }

  lemma SerialsDiffer(vouchers: seq<Voucher>, i: nat, j: nat)
    requires i < j < |vouchers|
    ensures vouchers[i].voucherType != vouchers[j].voucherType || SerialAt(vouchers, i) != SerialAt(vouchers, j)
  {
    if vouchers[i].voucherType == vouchers[j].voucherType {
      CountGrows(vouchers, i, j, vouchers[i].voucherType);
    }
  }

  /** No two vouchers share a number, whatever their types and however many there are. */
  lemma NumbersAreUnique(vouchers: seq<Voucher>, i: nat, j: nat)
    requires Numbered(vouchers) && i < j < |vouchers|
    ensures vouchers[i].number != vouchers[j].number
  {
    SerialsDiffer(vouchers, i, j);
    NumberAt(vouchers, i);
    NumberAt(vouchers, j);
    VoucherNumberInjective(vouchers[i].voucherType, SerialAt(vouchers, i), vouchers[j].voucherType, SerialAt(vouchers, j));
  }

  lemma {:induction false} SerialExists(vouchers: seq<Voucher>, t: VoucherType, n: nat) returns (i: nat)
    requires 1 <= n <= CountType(vouchers, t)
    ensures i < |vouchers| && vouchers[i].voucherType == t && SerialAt(vouchers, i) == n
  {
    var k := |vouchers| - 1;
    if n <= CountType(vouchers[..k], t) {
      i := SerialExists(vouchers[..k], t, n);
      assert vouchers[..k][..i] == vouchers[..i];
    } else {
      i := k;
    }
  }

  /** The numbers issued to a type are the formatted values 1..n: each of them has been issued. */
  lemma NumbersHaveNoGaps(vouchers: seq<Voucher>, t: VoucherType, n: nat)
    requires Numbered(vouchers) && 1 <= n <= CountType(vouchers, t)
    ensures exists i :: 0 <= i < |vouchers| && vouchers[i].voucherType == t && vouchers[i].number == VoucherNumber(t, n)
  {
    var i := SerialExists(vouchers, t, n);
    NumberAt(vouchers, i);
  }

  // -------------------------------------------------------- invoice posting

  ghost predicate HasLedger(b: Books, name: string) {
    LedgerNamed(b.ledgers, name) < |b.ledgers|
  }

  lemma HasDefaultLedger(b: Books, k: nat, name: string)
    requires k < |DefaultLedgers()| && DefaultLedgers()[k].name == name
    requires forall d :: d in DefaultLedgers() ==> d.name in LedgerNames(b.ledgers)
    ensures HasLedger(b, name)
  {
    assert DefaultLedgers()[k] in DefaultLedgers();
  }

  ghost predicate HasSystemLedgers(b: Books, inv: Invoice) {
    && HasLedger(b, BaseLedgerName(inv.isSales))
    && forall c :: c in TaxComponents(inv) ==> HasLedger(b, c.0)
  }

  lemma SeedingProvidesTaxLedger(b: Books, isSales: bool, i: nat)
    requires i < 4 && forall d :: d in DefaultLedgers() ==> d.name in LedgerNames(b.ledgers)
    ensures HasLedger(b, TaxLedgerName(isSales, i))
  {
    var k := if isSales then 4 + i else 8 + i;
    assert DefaultLedgerAt(k).name == TaxLedgerName(isSales, i);
    HasDefaultLedger(b, k, TaxLedgerName(isSales, i));
  }

  lemma SeedingProvidesBaseLedger(b: Books, isSales: bool)
    requires forall d :: d in DefaultLedgers() ==> d.name in LedgerNames(b.ledgers)
    ensures HasLedger(b, BaseLedgerName(isSales))
  {
    assert DefaultLedgerAt(2).name == "Sales" && DefaultLedgerAt(3).name == "Purchase";
    HasDefaultLedger(b, if isSales then 2 else 3, BaseLedgerName(isSales));
  }

  lemma HasTaxLedgers(b: Books, inv: Invoice)
    requires forall i: nat :: i < 4 ==> HasLedger(b, TaxLedgerName(inv.isSales, i))
    ensures forall c :: c in TaxComponents(inv) ==> HasLedger(b, c.0)
  {
    forall i: nat | i < 4 ensures TaxComponents(inv)[i].0 == TaxLedgerName(inv.isSales, i) {
    }
    forall c | c in TaxComponents(inv) ensures HasLedger(b, c.0) {
      var i: nat :| i < 4 && TaxComponents(inv)[i] == c;
    }
  }

  lemma SeedingProvidesSystemLedgers(b: Books, inv: Invoice)
    requires forall d :: d in DefaultLedgers() ==> d.name in LedgerNames(b.ledgers)
    ensures HasSystemLedgers(b, inv)
  {
    SeedingProvidesBaseLedger(b, inv.isSales);
    forall i: nat | i < 4 ensures HasLedger(b, TaxLedgerName(inv.isSales, i)) {
      SeedingProvidesTaxLedger(b, inv.isSales, i);
    }
    HasTaxLedgers(b, inv);
  }

  /** The tax legs are the positive components, all on the leg side. */
  lemma {:induction false} TaxLegsFacts(b: Books, inv: Invoice, cs: seq<(string, int)>)
    requires forall c :: c in cs ==> HasLedger(b, c.0)
    ensures var legs := TaxLegs(b, inv, cs);
            && legs.Ok?
            && (forall e :: e in legs.value ==> e.amount > 0 && e.ledgerId < |b.ledgers|)
            && var total := SumBy(cs, ComponentAmount) - SumBy(cs, NegativePart);
               Imbalance(legs.value) == if inv.isSales then -total else total
  {
    if cs != [] {
      var init, c := cs[..|cs| - 1], cs[|cs| - 1];
      TaxLegsFacts(b, inv, init);
      if c.1 > 0 {
        var e := Entry(LedgerNamed(b.ledgers, c.0), LegSide(inv), c.1);
        SumAppend(TaxLegs(b, inv, init).value, e, Signed);
      }
    }
  }

  lemma PartyFacts(b: Books, name: string, classification: string)
    requires WellFormed(b) && exists g :: g in b.groups && g.classification == classification
    ensures var (r, party) := GetOrCreateParty(b, name, classification);
            && WellFormed(r) && r.vouchers == b.vouchers && b.ledgers <= r.ledgers && r.groups == b.groups
            && (party.Ok? <==> |LedgersLike(b.ledgers, Lower(name))| <= 1)
            && (party.Ok? ==> party.value < |r.ledgers| && Lower(r.ledgers[party.value].name) == Lower(name))
            && (forall i :: |b.ledgers| <= i < |r.ledgers| ==> r.ledgers[i].openingBalance == 0)
  {
    var like := LedgersLike(b.ledgers, Lower(name));
    var (r, party) := GetOrCreateParty(b, name, classification);
    if |like| == 1 {
      assert like[0] in like;
    } else if |like| == 0 {
      forall k | k in b.ledgers ensures k.name != name {
        var i :| 0 <= i < |b.ledgers| && b.ledgers[i] == k;
        assert i !in like;
      }
      LedgerAddedKeepsChart(b, Ledger(name, GroupClassified(b.groups, classification), 0, Debit));
      VouchersSurviveNewLedgers(b, r);
    }
  }

  lemma PartyGroupsSeeded(b: Books, inv: Invoice)
    requires forall g :: g in DefaultGroups() ==> g in b.groups
    ensures exists g :: g in b.groups && g.classification == PartyClassification(inv)
  {
    var g := if inv.isSales then DefaultGroup(9) else DefaultGroup(2);
    assert DefaultGroups()[9] == DefaultGroup(9) && DefaultGroups()[2] == DefaultGroup(2);
    assert g in DefaultGroups() && g.classification == PartyClassification(inv);
  }

  lemma LongerChartKeepsLedgers(b: Books, r: Books, inv: Invoice)
    requires HasSystemLedgers(b, inv) && b.ledgers <= r.ledgers
    ensures HasSystemLedgers(r, inv)
  {
    forall name | HasLedger(b, name) ensures HasLedger(r, name) {
      assert r.ledgers[LedgerNamed(b.ledgers, name)] in r.ledgers;
    }
  }

  lemma PostedImbalance(inv: Invoice, party: nat, base: nat, legs: seq<Entry>)
    requires var total := SumBy(TaxComponents(inv), ComponentAmount) - NegativeTax(inv);
             Imbalance(legs) == if inv.isSales then -total else total
    ensures Imbalance(PostedEntries(inv, party, base, legs)) == if inv.isSales then NegativeTax(inv) else -NegativeTax(inv)
  {
    var e, f := Entry(party, PartySide(inv), GrandTotal(inv)), Entry(base, LegSide(inv), TaxableTotal(inv));
    SumConcat([e, f], legs, Signed);
    SumAppend([e], f, Signed);
    SumAppend([], e, Signed);
    assert [] + [e] == [e] && [e] + [f] == [e, f];
  }

  lemma {:induction false} NegativeSumNotPositive(cs: seq<(string, int)>)
    ensures SumBy(cs, NegativePart) <= 0
    ensures (forall c :: c in cs ==> c.1 >= 0) ==> SumBy(cs, NegativePart) == 0
  {
    if cs != [] {
      NegativeSumNotPositive(cs[..|cs| - 1]);
    }
  }

  /** What posting leaves behind: a well-formed book, longer by at most this invoice's voucher. */
  ghost predicate PostedAs(b: Books, inv: Invoice, today: Date, r: Books, v: Result<Voucher, BookError>) {
    && WellFormed(r) && b.ledgers <= r.ledgers && b.groups <= r.groups
    && (v.Err? ==> r.vouchers == b.vouchers)
    && (v.Ok? ==>
      && r.vouchers == b.vouchers + [v.value]
      && v.value.sourceInvoice == Some(inv.id)
      && v.value.voucherType == (if inv.isSales then Sales else Purchase)
      && v.value.date == (if inv.date.Some? then inv.date.value else today)
      && Imbalance(v.value.entries) == (if inv.isSales then NegativeTax(inv) else -NegativeTax(inv)))
    && (forall i :: |b.ledgers| <= i < |r.ledgers| ==> r.ledgers[i].openingBalance == 0)
  }

  lemma PostedEntriesFacts(b: Books, inv: Invoice, party: nat)
    requires HasSystemLedgers(b, inv) && party < |b.ledgers| && TaxableTotal(inv) > 0
    ensures var base := LedgerByName(b, BaseLedgerName(inv.isSales));
            var legs := TaxLegs(b, inv, TaxComponents(inv));
            && base.Ok? && legs.Ok?
            && var entries := PostedEntries(inv, party, base.value, legs.value);
            && |entries| >= 2
            && ((forall e :: e in entries ==> e.amount > 0 && e.ledgerId < |b.ledgers|) <==> GrandTotal(inv) > 0)
            && Imbalance(entries) == (if inv.isSales then NegativeTax(inv) else -NegativeTax(inv))
  {
    var base := LedgerByName(b, BaseLedgerName(inv.isSales)).value;
    TaxLegsFacts(b, inv, TaxComponents(inv));
    var legs := TaxLegs(b, inv, TaxComponents(inv)).value;
    PostedImbalance(inv, party, base, legs);
    var entries := PostedEntries(inv, party, base, legs);
    assert entries[0].amount == GrandTotal(inv) && entries[0] in entries;
    forall e | e in entries && GrandTotal(inv) > 0 ensures e.amount > 0 && e.ledgerId < |b.ledgers| {
      assert e == entries[0] || e == entries[1] || e in legs;
    }
  }

  lemma PostToPartyOutcome(b: Books, inv: Invoice, party: nat, today: Date)
    requires WellFormed(b) && HasSystemLedgers(b, inv) && party < |b.ledgers| && TaxableTotal(inv) > 0
    ensures var (r, v) := PostToParty(b, inv, party, today);
            && PostedAs(b, inv, today, r, v) && r.groups == b.groups
            && (v.Ok? <==> NegativeTax(inv) >= -TOLERANCE && GrandTotal(inv) > 0)
  {
    PostedEntriesFacts(b, inv, party);
    NegativeSumNotPositive(TaxComponents(inv));
    var base := LedgerByName(b, BaseLedgerName(inv.isSales)).value;
    var legs := TaxLegs(b, inv, TaxComponents(inv)).value;
    CreateVoucherOutcome(b, if inv.isSales then Sales else Purchase,
                         if inv.date.Some? then inv.date.value else today,
                         PostedEntries(inv, party, base, legs), Some(inv.id));
  }

  lemma PostOnChartOutcome(chart: Books, inv: Invoice, today: Date)
    requires WellFormed(chart) && HasSystemLedgers(chart, inv)
    requires exists g :: g in chart.groups && g.classification == PartyClassification(inv)
    ensures var (r, v) := PostOnChart(chart, inv, today); PostedAs(chart, inv, today, r, v) && r.groups == chart.groups
    ensures PostOnChart(chart, inv, today).1.Ok? <==> Postable(chart, inv)
  {
    if !IsPosted(chart.vouchers, inv.id) && TaxableTotal(inv) > 0 {
      PartyFacts(chart, PartyName(inv), PartyClassification(inv));
      var (withParty, party) := GetOrCreateParty(chart, PartyName(inv), PartyClassification(inv));
      if party.Ok? {
        PostWithParty(chart, withParty, inv, party.value, today);
      }
    }
  }

  lemma PostWithParty(chart: Books, withParty: Books, inv: Invoice, party: nat, today: Date)
    requires WellFormed(withParty) && HasSystemLedgers(chart, inv) && party < |withParty.ledgers| && TaxableTotal(inv) > 0
    requires withParty.vouchers == chart.vouchers && chart.ledgers <= withParty.ledgers && withParty.groups == chart.groups
    requires forall i :: |chart.ledgers| <= i < |withParty.ledgers| ==> withParty.ledgers[i].openingBalance == 0
    ensures var (r, v) := PostToParty(withParty, inv, party, today);
            && PostedAs(chart, inv, today, r, v) && r.groups == chart.groups
            && (v.Ok? <==> NegativeTax(inv) >= -TOLERANCE && GrandTotal(inv) > 0)
  {
    LongerChartKeepsLedgers(chart, withParty, inv);
    PostToPartyOutcome(withParty, inv, party, today);
    var (r, v) := PostToParty(withParty, inv, party, today);
    PostedFromBefore(chart, withParty, inv, today, r, v);
  }

  /** Seeding as seen by everything that follows it. */
  lemma SeededChart(b: Books, inv: Invoice) returns (chart: Books)
    requires WellFormed(b) && StandardGroups(b)
    ensures chart == EnsureChart(b)
    ensures WellFormed(chart) && chart.vouchers == b.vouchers && b.ledgers <= chart.ledgers && b.groups <= chart.groups
    ensures forall i :: |b.ledgers| <= i < |chart.ledgers| ==> chart.ledgers[i].openingBalance == 0
    ensures HasSystemLedgers(chart, inv)
    ensures exists g :: g in chart.groups && g.classification == PartyClassification(inv)
  {
    chart := EnsureChart(b);
    EnsureChartFacts(b);
    VouchersSurviveNewLedgers(b, chart);
    PartyGroupsSeeded(chart, inv);
    SeedingProvidesSystemLedgers(chart, inv);
  }

  lemma PostedFromBefore(b: Books, chart: Books, inv: Invoice, today: Date, r: Books, v: Result<Voucher, BookError>)
    requires PostedAs(chart, inv, today, r, v)
    requires chart.vouchers == b.vouchers && b.ledgers <= chart.ledgers && b.groups <= chart.groups
    requires forall i :: |b.ledgers| <= i < |chart.ledgers| ==> chart.ledgers[i].openingBalance == 0
    ensures PostedAs(b, inv, today, r, v)
  {
  }

  /** When an invoice may be posted on books whose chart is seeded. */
  ghost predicate Postable(chart: Books, inv: Invoice) {
    && !IsPosted(chart.vouchers, inv.id)
    && TaxableTotal(inv) > 0
    && |LedgersLike(chart.ledgers, Lower(PartyName(inv)))| <= 1
    && NegativeTax(inv) >= -TOLERANCE
    && GrandTotal(inv) > 0
  }

  /** An invoice is posted exactly when it was not posted before, has a positive taxable value, its party's name
      is not ambiguous, its negative tax components come to at most one paisa and its grand total is positive.
      The voucher is off by exactly those negative components, so without them it balances to the paisa. */
  lemma PostInvoiceOutcome(b: Books, inv: Invoice, today: Date)
    requires WellFormed(b) && StandardGroups(b)
    ensures var (r, v) := PostInvoice(b, inv, today); PostedAs(b, inv, today, r, v)
    ensures PostInvoice(b, inv, today).1.Ok? <==> Postable(EnsureChart(b), inv)
  {
    var chart := SeededChart(b, inv);
    PostOnChartOutcome(chart, inv, today);
    var (r, v) := PostOnChart(chart, inv, today);
    PostedFromBefore(b, chart, inv, today, r, v);
    assert PostInvoice(b, inv, today) == (r, v);
  }

  /** Without negative components the posted voucher balances exactly. */
  lemma OrdinaryInvoiceBalances(b: Books, inv: Invoice, today: Date)
    requires WellFormed(b) && StandardGroups(b)
    requires forall c :: c in TaxComponents(inv) ==> c.1 >= 0
    ensures var v := PostInvoice(b, inv, today).1; v.Ok? ==> Imbalance(v.value.entries) == 0
  {
    PostInvoiceOutcome(b, inv, today);
    NegativeSumNotPositive(TaxComponents(inv));
  }

  /** The entries of a posted voucher: the party for the grand total, the sales or purchase ledger for the taxable
      value on the other side, and on that side one leg for each positive tax component, to its own ledger. */
  ghost predicate BooksTheInvoice(r: Books, inv: Invoice, entries: seq<Entry>) {
    && OwnedLedgers(entries, |r.ledgers|) && |entries| >= 2
    && Lower(r.ledgers[entries[0].ledgerId].name) == Lower(PartyName(inv))
    && entries[0].amount == GrandTotal(inv) && (entries[0].side == Debit <==> inv.isSales)
    && r.ledgers[entries[1].ledgerId].name == BaseLedgerName(inv.isSales)
    && entries[1].amount == TaxableTotal(inv) && (entries[1].side == Credit <==> inv.isSales)
    && LegsMatch(r, inv, TaxComponents(inv), entries[2..])
  }

  ghost predicate LegsMatch(r: Books, inv: Invoice, cs: seq<(string, int)>, legs: seq<Entry>) {
    if cs == [] then legs == []
    else
      var init, c := cs[..|cs| - 1], cs[|cs| - 1];
      if c.1 <= 0 then LegsMatch(r, inv, init, legs)
      else
        && legs != []
        && var e := legs[|legs| - 1];
           && e.ledgerId < |r.ledgers| && r.ledgers[e.ledgerId].name == c.0
           && e.amount == c.1 && (e.side == Credit <==> inv.isSales)
           && LegsMatch(r, inv, init, legs[..|legs| - 1])
  }

  lemma {:induction false} TaxLegsMatch(b: Books, inv: Invoice, cs: seq<(string, int)>)
    requires TaxLegs(b, inv, cs).Ok?
    ensures LegsMatch(b, inv, cs, TaxLegs(b, inv, cs).value)
  {
    if cs != [] {
      TaxLegsMatch(b, inv, cs[..|cs| - 1]);
    }
  }

  lemma PostToPartyShape(b: Books, inv: Invoice, party: nat, today: Date)
    requires party < |b.ledgers| && Lower(b.ledgers[party].name) == Lower(PartyName(inv))
    ensures var (r, v) := PostToParty(b, inv, party, today);
            v.Ok? ==> BooksTheInvoice(r, inv, v.value.entries)
  {
    var (r, v) := PostToParty(b, inv, party, today);
    if v.Ok? {
      var base, legs := LedgerByName(b, BaseLedgerName(inv.isSales)), TaxLegs(b, inv, TaxComponents(inv));
      PostedParts(b, inv, party, today);
      TaxLegsMatch(b, inv, TaxComponents(inv));
      ShapeOnLedgers(b, r, inv, party, base.value, legs.value);
    }
  }

  lemma ShapeOnLedgers(b: Books, r: Books, inv: Invoice, party: nat, base: nat, legs: seq<Entry>)
    requires r.ledgers == b.ledgers && LegsMatch(b, inv, TaxComponents(inv), legs)
    requires OwnedLedgers(PostedEntries(inv, party, base, legs), |b.ledgers|)
    requires party < |b.ledgers| && Lower(b.ledgers[party].name) == Lower(PartyName(inv))
    requires base < |b.ledgers| && b.ledgers[base].name == BaseLedgerName(inv.isSales)
    ensures BooksTheInvoice(r, inv, PostedEntries(inv, party, base, legs))
  {
    LegsMatchIn(b, r, inv, TaxComponents(inv), legs);
    EntriesShape(r, inv, party, base, legs);
  }

  lemma PostedParts(b: Books, inv: Invoice, party: nat, today: Date)
    requires PostToParty(b, inv, party, today).1.Ok?
    ensures var (r, v) := PostToParty(b, inv, party, today);
            var base, legs := LedgerByName(b, BaseLedgerName(inv.isSales)), TaxLegs(b, inv, TaxComponents(inv));
            && r.ledgers == b.ledgers && r.groups == b.groups && base.Ok? && legs.Ok?
            && base.value < |b.ledgers| && b.ledgers[base.value].name == BaseLedgerName(inv.isSales)
            && v.value.entries == PostedEntries(inv, party, base.value, legs.value)
            && OwnedLedgers(v.value.entries, |b.ledgers|)
  {
  }

  lemma EntriesShape(r: Books, inv: Invoice, party: nat, base: nat, legs: seq<Entry>)
    requires LegsMatch(r, inv, TaxComponents(inv), legs) && OwnedLedgers(PostedEntries(inv, party, base, legs), |r.ledgers|)
    requires party < |r.ledgers| && Lower(r.ledgers[party].name) == Lower(PartyName(inv))
    requires base < |r.ledgers| && r.ledgers[base].name == BaseLedgerName(inv.isSales)
    ensures BooksTheInvoice(r, inv, PostedEntries(inv, party, base, legs))
  {
    assert PostedEntries(inv, party, base, legs)[2..] == legs;
  }

  lemma {:induction false} LegsMatchIn(b: Books, r: Books, inv: Invoice, cs: seq<(string, int)>, legs: seq<Entry>)
    requires LegsMatch(b, inv, cs, legs) && r.ledgers == b.ledgers
    ensures LegsMatch(r, inv, cs, legs)
  {
    if cs != [] {
      var c := cs[|cs| - 1];
      LegsMatchIn(b, r, inv, cs[..|cs| - 1], if c.1 <= 0 then legs else legs[..|legs| - 1]);
    }
  }

  lemma PostOnChartShape(chart: Books, inv: Invoice, today: Date)
    requires WellFormed(chart) && exists g :: g in chart.groups && g.classification == PartyClassification(inv)
    ensures var (r, v) := PostOnChart(chart, inv, today);
            v.Ok? ==> BooksTheInvoice(r, inv, v.value.entries)
  {
    var party := GetOrCreateParty(chart, PartyName(inv), PartyClassification(inv));
    PartyFacts(chart, PartyName(inv), PartyClassification(inv));
    if party.1.Ok? {
      PostToPartyShape(party.0, inv, party.1.value, today);
    }
  }

  /** What is booked when an invoice is posted. */
  lemma PostedVoucherShape(b: Books, inv: Invoice, today: Date)
    requires WellFormed(b) && StandardGroups(b)
    ensures var (r, v) := PostInvoice(b, inv, today);
            v.Ok? ==> BooksTheInvoice(r, inv, v.value.entries)
  {
    var chart := SeededChart(b, inv);
    PostOnChartShape(chart, inv, today);
  }

  // ------------------------------------------------------------ any run

  ghost predicate Sound(b: Books) {
    WellFormed(b) && StandardGroups(b) && PostedOnce(b.vouchers)
  }

  lemma GroupsUnchanged(b: Books, r: Books)
    requires StandardGroups(b) && r.groups == b.groups
    ensures StandardGroups(r)
  {
  }

  lemma PostInvoiceKeepsGroups(b: Books, inv: Invoice, today: Date)
    requires WellFormed(b) && StandardGroups(b)
    ensures StandardGroups(PostInvoice(b, inv, today).0)
  {
    var chart := SeededChart(b, inv);
    EnsureChartFacts(b);
    PostOnChartOutcome(chart, inv, today);
    GroupsUnchanged(chart, PostInvoice(b, inv, today).0);
  }

  lemma CreateVoucherKeepsSound(b: Books, t: VoucherType, date: Date, entries: seq<Entry>, source: Option<nat>)
    requires Sound(b) && (source.Some? ==> !IsPosted(b.vouchers, source.value))
    ensures Sound(CreateVoucher(b, t, date, entries, source).0)
  {
    CreateVoucherOutcome(b, t, date, entries, source);
    var (r, v) := CreateVoucher(b, t, date, entries, source);
    GroupsUnchanged(b, r);
    if v.Ok? {
      PostedOnceContinues(b.vouchers, v.value);
    }
  }

  lemma SeedingKeepsSound(b: Books)
    requires Sound(b)
    ensures Sound(EnsureChart(b))
  {
    EnsureChartFacts(b);
    VouchersSurviveNewLedgers(b, EnsureChart(b));
  }

  lemma PostingKeepsSound(b: Books, inv: Invoice, today: Date)
    requires Sound(b)
    ensures Sound(PostInvoice(b, inv, today).0)
    ensures var (r, v) := PostInvoice(b, inv, today);
            r.vouchers == if v.Ok? then b.vouchers + [v.value] else b.vouchers
    ensures PostInvoice(b, inv, today).1.Ok? <==> Postable(EnsureChart(b), inv)
  {
    PostInvoiceOutcome(b, inv, today);
    PostInvoiceKeepsGroups(b, inv, today);
    var (r, v) := PostInvoice(b, inv, today);
    if v.Ok? {
      NewInvoice(b, inv);
      PostedOnceContinues(b.vouchers, v.value);
    }
  }

  lemma NewInvoice(b: Books, inv: Invoice)
    requires Postable(EnsureChart(b), inv)
    ensures !IsPosted(b.vouchers, inv.id)
  {
  }

  lemma StepKeeps(b: Books, c: Command)
    requires Sound(b)
    ensures Sound(Step(b, c))
  {
    match c
    case InitialiseChart =>
      SeedingKeepsSound(b);
    case NewLedger(name, groupId, balance, side) =>
      CreateLedgerKeeps(b, name, groupId, balance, side);
      GroupsUnchanged(b, Step(b, c));
    case NewVoucher(t, date, entries) =>
      CreateVoucherKeepsSound(b, t, date, entries, None);
    case PostAnInvoice(invoice, today) =>
      PostingKeepsSound(b, invoice, today);
  }

  /** After any sequence of operations on empty books every voucher is one the engine accepts on known ledgers,
      the numbers are the ones the counter issued, and no invoice has two vouchers. */
  lemma {:induction false} EveryRunIsSound(commands: seq<Command>)
    ensures Sound(Run(EMPTY, commands))
  {
    if commands != [] {
      EveryRunIsSound(commands[..|commands| - 1]);
      StepKeeps(Run(EMPTY, commands[..|commands| - 1]), commands[|commands| - 1]);
    }
  }

  lemma PostedOnceContinues(vouchers: seq<Voucher>, v: Voucher)
    requires PostedOnce(vouchers) && (v.sourceInvoice.Some? ==> !IsPosted(vouchers, v.sourceInvoice.value))
    ensures PostedOnce(vouchers + [v])
  {
    forall i | 0 <= i < |vouchers| && vouchers[i].sourceInvoice.Some? ensures vouchers[i].sourceInvoice != v.sourceInvoice {
      assert vouchers[i] in vouchers;
    }
  }
}
