/** Conservation of every amount through both levels of grouping and into the CSV rows. */
module ReturnLaws {
  import opened Util
  import opened Text
  import opened ReturnAggregation

  // ---------------------------------------------------------------- buckets

  /** The buckets of the lines add up to the lines, in each of the five columns. */
  lemma BucketsConserve(lines: seq<ReturnLine>, c: Column)
    ensures SumBy(RateWise(lines), BucketAmount(c)) == SumBy(lines, LineAmount(c))
  {
    var rates := Sort(Rates(lines), RateLe());
    SortedRates(lines);
    BucketSums(lines, rates, c);
    forall line | line in lines ensures RateOf()(line) in rates {
      RateOccurs(lines, line);
    }
    PartitionSum(lines, RateOf(), rates, LineAmount(c));
  }

  lemma {:induction false} BucketSums(lines: seq<ReturnLine>, rates: seq<real>, c: Column)
    ensures SumBy(BucketsOf(lines, rates), BucketAmount(c)) == SumBy(rates, GroupSum(lines, RateOf(), LineAmount(c)))
  {
    if rates != [] {
      var r := rates[|rates| - 1];
      BucketSums(lines, rates[..|rates| - 1], c);
      SumAppend(BucketsOf(lines, rates[..|rates| - 1]), RateBucket(r, RateTotals(lines, r)), BucketAmount(c));
      assert BucketAmount(c)(RateBucket(r, RateTotals(lines, r))) == GroupSum(lines, RateOf(), LineAmount(c))(r);
    }
  }

  lemma RateOccurs(lines: seq<ReturnLine>, line: ReturnLine)
    requires line in lines
    ensures line.gstRate in Sort(Rates(lines), RateLe())
  {
    var i :| 0 <= i < |lines| && lines[i] == line;
    assert Map(lines, RateOf())[i] == line.gstRate;
    DistinctFacts(Map(lines, RateOf()));
    SortFacts(Rates(lines), RateLe());
  }

  lemma SortedRates(lines: seq<ReturnLine>)
    ensures var rates := Sort(Rates(lines), RateLe());
            NoDuplicates(rates) && Sorted(rates, RateLe()) && forall r :: r in rates <==> r in Map(lines, RateOf())
  {
    DistinctFacts(Map(lines, RateOf()));
    SortFacts(Rates(lines), RateLe());
    SortKeepsDistinct(Rates(lines), RateLe());
  }

  lemma {:induction false} BucketAt(lines: seq<ReturnLine>, rates: seq<real>, i: nat)
    requires i < |rates|
    ensures |BucketsOf(lines, rates)| == |rates|
    ensures BucketsOf(lines, rates)[i] == RateBucket(rates[i], RateTotals(lines, rates[i]))
  {
    var n := |rates| - 1;
    BucketsLength(lines, rates[..n]);
    if i < n {
      BucketAt(lines, rates[..n], i);
    }
  }

  lemma {:induction false} BucketsLength(lines: seq<ReturnLine>, rates: seq<real>)
    ensures |BucketsOf(lines, rates)| == |rates|
  {
    if rates != [] {
      BucketsLength(lines, rates[..|rates| - 1]);
    }
  }

  /** The buckets are by strictly increasing rate: no rate has two. */
  lemma RatesIncrease(lines: seq<ReturnLine>, i: nat, j: nat)
    requires i < j < |RateWise(lines)|
    ensures RateWise(lines)[i].gstRate < RateWise(lines)[j].gstRate
  {
    var rates := Sort(Rates(lines), RateLe());
    SortedRates(lines);
    BucketsLength(lines, rates);
    BucketAt(lines, rates, i);
    BucketAt(lines, rates, j);
    assert RateLe()(rates[i], rates[j]);
  }

  /** A rate has a bucket exactly when a line has that rate, and the bucket holds the totals of just those lines. */
  lemma RateHasBucket(lines: seq<ReturnLine>, rate: real)
    ensures RateBucket(rate, RateTotals(lines, rate)) in RateWise(lines) <==> rate in Map(lines, RateOf())
  {
    var rates := Sort(Rates(lines), RateLe());
    SortedRates(lines);
    BucketsLength(lines, rates);
    if rate in rates {
      var i :| 0 <= i < |rates| && rates[i] == rate;
      BucketAt(lines, rates, i);
    }
    if RateBucket(rate, RateTotals(lines, rate)) in RateWise(lines) {
      var i :| 0 <= i < |rates| && RateWise(lines)[i] == RateBucket(rate, RateTotals(lines, rate));
      BucketAt(lines, rates, i);
    }
  }

  lemma BucketOfRate(lines: seq<ReturnLine>, b: RateBucket)
    requires b in RateWise(lines)
    ensures b == RateBucket(b.gstRate, RateTotals(lines, b.gstRate)) && b.gstRate in Map(lines, RateOf())
  {
    var rates := Sort(Rates(lines), RateLe());
    SortedRates(lines);
    BucketsLength(lines, rates);
    var i :| 0 <= i < |rates| && RateWise(lines)[i] == b;
    BucketAt(lines, rates, i);
  }

  // ----------------------------------------------------------------- groups

  function InvoiceAmount(c: Column): ReturnInvoice -> int {
    (inv: ReturnInvoice) => SumBy(inv.lines, LineAmount(c))
  }

  function One(): ReturnInvoice -> int { (inv: ReturnInvoice) => 1 }

  lemma {:induction false} LinesSum(invoices: seq<ReturnInvoice>, c: Column)
    ensures SumBy(LinesOf(invoices), LineAmount(c)) == SumBy(invoices, InvoiceAmount(c))
  {
    if invoices != [] {
      LinesSum(invoices[..|invoices| - 1], c);
      SumConcat(LinesOf(invoices[..|invoices| - 1]), invoices[|invoices| - 1].lines, LineAmount(c));
    }
  }

  lemma {:induction false} CountOnes(invoices: seq<ReturnInvoice>)
    ensures SumBy(invoices, One()) == |invoices|
  {
    if invoices != [] {
      CountOnes(invoices[..|invoices| - 1]);
    }
  }

  /** A measure of groups that agrees with a measure of the invoices in them. */
  ghost predicate Measures(g: CounterpartyGroup -> int, f: ReturnInvoice -> int) {
    forall members: seq<ReturnInvoice>, key: string :: members != [] ==> g(GroupOf(members, key)) == SumBy(members, f)
  }

  lemma AmountMeasures(c: Column)
    ensures Measures(GroupAmount(c), InvoiceAmount(c))
  {
    forall members: seq<ReturnInvoice>, key: string | members != []
      ensures GroupAmount(c)(GroupOf(members, key)) == SumBy(members, InvoiceAmount(c)) {
      LinesSum(members, c);
    }
  }

  lemma CountMeasures()
    ensures Measures(GroupCount(), One())
  {
    forall members: seq<ReturnInvoice>, key: string | members != []
      ensures GroupCount()(GroupOf(members, key)) == SumBy(members, One()) {
      CountOnes(members);
    }
  }

  lemma {:induction false} GroupsOfSum(invoices: seq<ReturnInvoice>, keys: seq<string>, g: CounterpartyGroup -> int, f: ReturnInvoice -> int)
    requires Measures(g, f) && forall k :: k in keys ==> Members(invoices, k) != []
    ensures SumBy(GroupsOf(invoices, keys), g) == SumBy(keys, GroupSum(invoices, GroupKey(), f))
  {
    if keys != [] {
      var k := keys[|keys| - 1];
      GroupsOfSum(invoices, keys[..|keys| - 1], g, f);
      SumAppend(GroupsOf(invoices, keys[..|keys| - 1]), GroupOf(Members(invoices, k), k), g);
    }
  }

  lemma GroupsConserve(invoices: seq<ReturnInvoice>, withGstin: bool, g: CounterpartyGroup -> int, f: ReturnInvoice -> int)
    requires Measures(g, f)
    ensures SumBy(CounterpartyGroups(invoices, withGstin), g) == SumBy(Filter(invoices, Registered(withGstin)), f)
  {
    var selected := Filter(invoices, Registered(withGstin));
    var keys := Keys(selected);
    KeysHaveMembers(selected);
    DistinctFacts(Map(selected, GroupKey()));
    forall inv | inv in selected ensures GroupKey()(inv) in keys {
      assert inv in Members(selected, GroupKey()(inv));
      KeyHasMembers(selected, GroupKey()(inv));
    }
    GroupsOfSum(selected, keys, g, f);
    PartitionSum(selected, GroupKey(), keys, f);
    SortFacts(GroupsOf(selected, keys), LargerFirst());
    SumPermutation(CounterpartyGroups(invoices, withGstin), GroupsOf(selected, keys), g);
  }

  lemma TwoKinds(invoices: seq<ReturnInvoice>, f: ReturnInvoice -> int)
    ensures SumBy(Filter(invoices, Registered(true)), f) + SumBy(Filter(invoices, Registered(false)), f) == SumBy(invoices, f)
  {
    PartitionSum(invoices, HasGstin(), [true] + [false], f);
    SumAppend([true], false, GroupSum(invoices, HasGstin(), f));
    SumAppend([], true, GroupSum(invoices, HasGstin(), f));
    assert [] + [true] == [true];
  }

  /** GSTR-1: in each column B2B and B2C groups together, and the rate-wise buckets, come to the totals of the sales;
      every sales invoice is counted once. */
  lemma Gstr1Conserves(sales: seq<ReturnInvoice>, c: Column)
    ensures SumBy(CounterpartyGroups(sales, true), GroupAmount(c)) + SumBy(CounterpartyGroups(sales, false), GroupAmount(c)) ==
            Of(TotalsOf(LinesOf(sales)), c)
    ensures SumBy(RateWise(LinesOf(sales)), BucketAmount(c)) == Of(TotalsOf(LinesOf(sales)), c)
    ensures SumBy(CounterpartyGroups(sales, true), GroupCount()) + SumBy(CounterpartyGroups(sales, false), GroupCount()) == |sales|
  {
    AmountMeasures(c);
    GroupsConserve(sales, true, GroupAmount(c), InvoiceAmount(c));
    GroupsConserve(sales, false, GroupAmount(c), InvoiceAmount(c));
    TwoKinds(sales, InvoiceAmount(c));
    LinesSum(sales, c);
    BucketsConserve(LinesOf(sales), c);
    CountMeasures();
    GroupsConserve(sales, true, GroupCount(), One());
    GroupsConserve(sales, false, GroupCount(), One());
    TwoKinds(sales, One());
    CountOnes(sales);
  }

  // --------------------------------------------------------- shape of groups

  lemma {:induction false} GroupOfKey(invoices: seq<ReturnInvoice>, keys: seq<string>, k: string)
    requires k in keys && forall k :: k in keys ==> Members(invoices, k) != []
    ensures GroupOf(Members(invoices, k), k) in GroupsOf(invoices, keys)
  {
    var n := |keys| - 1;
    if k in keys[..n] {
      GroupOfKey(invoices, keys[..n], k);
    } else {
      assert k == keys[n];
    }
  }

  lemma {:induction false} KeyOfGroup(invoices: seq<ReturnInvoice>, keys: seq<string>, g: CounterpartyGroup) returns (k: string)
    requires forall k :: k in keys ==> Members(invoices, k) != []
    requires g in GroupsOf(invoices, keys)
    ensures k in keys && Members(invoices, k) != [] && g == GroupOf(Members(invoices, k), k)
  {
    var n := |keys| - 1;
    if g in GroupsOf(invoices, keys[..n]) {
      k := KeyOfGroup(invoices, keys[..n], g);
    } else {
      k := keys[n];
    }
  }

  /** Every group is the group of the selected invoices with some key. */
  lemma GroupHasKey(invoices: seq<ReturnInvoice>, withGstin: bool, g: CounterpartyGroup) returns (k: string)
    requires g in CounterpartyGroups(invoices, withGstin)
    ensures var selected := Filter(invoices, Registered(withGstin));
            Members(selected, k) != [] && g == GroupOf(Members(selected, k), k)
  {
    var selected := Filter(invoices, Registered(withGstin));
    KeysHaveMembers(selected);
    SortFacts(GroupsOf(selected, Keys(selected)), LargerFirst());
    k := KeyOfGroup(selected, Keys(selected), g);
  }

  /** Every key of the selected invoices has its group. */
  lemma KeyHasGroup(invoices: seq<ReturnInvoice>, withGstin: bool, k: string)
    requires Members(Filter(invoices, Registered(withGstin)), k) != []
    ensures GroupOf(Members(Filter(invoices, Registered(withGstin)), k), k) in CounterpartyGroups(invoices, withGstin)
  {
    var selected := Filter(invoices, Registered(withGstin));
    KeysHaveMembers(selected);
    KeyHasMembers(selected, k);
    GroupOfKey(selected, Keys(selected), k);
    SortFacts(GroupsOf(selected, Keys(selected)), LargerFirst());
  }

  /** A GSTIN that occurs in the sales has a B2B group, and it is made of all invoices of that GSTIN. */
  lemma GstinHasGroup(invoices: seq<ReturnInvoice>, gstin: string)
    requires gstin != "" && Filter(invoices, OfGstin(gstin)) != []
    ensures GroupOf(Filter(invoices, OfGstin(gstin)), gstin) in CounterpartyGroups(invoices, true)
  {
    SameMembers(invoices, gstin);
    KeyHasGroup(invoices, true, gstin);
  }

  /** No B2B group is anything else: it stands for one GSTIN and all invoices of it. */
  lemma GroupIsWhole(invoices: seq<ReturnInvoice>, g: CounterpartyGroup) returns (gstin: string)
    requires g in CounterpartyGroups(invoices, true)
    ensures g.gstin == Some(gstin) && gstin != "" && Filter(invoices, OfGstin(gstin)) != []
    ensures g == GroupOf(Filter(invoices, OfGstin(gstin)), gstin)
  {
    gstin := GroupHasKey(invoices, true, g);
    var members := Members(Filter(invoices, Registered(true)), gstin);
    assert members[0] in members;
    SameMembers(invoices, gstin);
  }

  function OfGstin(gstin: string): ReturnInvoice -> bool { (inv: ReturnInvoice) => inv.counterpartyGstin == Some(gstin) }

  lemma {:induction false} SameMembers(invoices: seq<ReturnInvoice>, gstin: string)
    requires gstin != ""
    ensures Members(Filter(invoices, Registered(true)), gstin) == Filter(invoices, OfGstin(gstin))
  {
    if invoices != [] {
      var init, last := invoices[..|invoices| - 1], invoices[|invoices| - 1];
      SameMembers(init, gstin);
      assert invoices == init + [last];
      FilterAppend(init, last, Registered(true));
      FilterAppend(init, last, OfGstin(gstin));
      FilterAppend(Filter(init, Registered(true)), last, HasKey(GroupKey(), gstin));
    }
  }

  /** Groups come by decreasing taxable value. */
  lemma LargestFirst(invoices: seq<ReturnInvoice>, withGstin: bool, i: nat, j: nat)
    requires i < j < |CounterpartyGroups(invoices, withGstin)|
    ensures CounterpartyGroups(invoices, withGstin)[i].totals.taxableValue >= CounterpartyGroups(invoices, withGstin)[j].totals.taxableValue
  {
    var selected := Filter(invoices, Registered(withGstin));
    KeysHaveMembers(selected);
    var unsorted := GroupsOf(selected, Keys(selected));
    SortFacts(unsorted, LargerFirst());
    assert LargerFirst()(Sort(unsorted, LargerFirst())[i], Sort(unsorted, LargerFirst())[j]);
  }

  /** Every group's rate breakdown adds up to its totals, and it is in the section its GSTIN says. */
  lemma GroupShape(invoices: seq<ReturnInvoice>, withGstin: bool, g: CounterpartyGroup)
    requires g in CounterpartyGroups(invoices, withGstin)
    ensures IsBrokenDown(g) && Given(g.gstin) == withGstin && g.invoiceCount > 0
  {
    var k := GroupHasKey(invoices, withGstin, g);
    var members := Members(Filter(invoices, Registered(withGstin)), k);
    GroupIsBrokenDown(members, k);
    assert members[0] in members;
  }

  ghost predicate IsBrokenDown(g: CounterpartyGroup) {
    forall c :: SumBy(g.rateBuckets, BucketAmount(c)) == Of(g.totals, c)
  }

  lemma GroupIsBrokenDown(members: seq<ReturnInvoice>, key: string)
    requires members != []
    ensures IsBrokenDown(GroupOf(members, key))
  {
    forall c ensures SumBy(RateWise(LinesOf(members)), BucketAmount(c)) == Of(TotalsOf(LinesOf(members)), c) {
      BucketsConserve(LinesOf(members), c);
    }
  }

  // -------------------------------------------------------------------- CSV

  lemma {:induction false} GroupRowsSum(section: string, group: CounterpartyGroup, buckets: seq<RateBucket>, c: Column)
    ensures SumBy(GroupRows(section, group, buckets), RowAmount(c)) == SumBy(buckets, BucketAmount(c))
  {
    if buckets != [] {
      var b := buckets[|buckets| - 1];
      GroupRowsSum(section, group, buckets[..|buckets| - 1], c);
      SumAppend(GroupRows(section, group, buckets[..|buckets| - 1]), Row(section, OrElse(group.gstin, ""), group.name, b.gstRate, b.totals),
                RowAmount(c));
    }
  }

  lemma {:induction false} SectionSum(section: string, groups: seq<CounterpartyGroup>, c: Column)
    requires forall g :: g in groups ==> IsBrokenDown(g)
    ensures SumBy(SectionRows(section, groups), RowAmount(c)) == SumBy(groups, GroupAmount(c))
  {
    if groups != [] {
      var init, g := groups[..|groups| - 1], groups[|groups| - 1];
      SectionSum(section, init, c);
      GroupRowsSum(section, g, g.rateBuckets, c);
      SumConcat(SectionRows(section, init), GroupRows(section, g, g.rateBuckets), RowAmount(c));
      assert g in groups;
      assert SumBy(g.rateBuckets, BucketAmount(c)) == Of(g.totals, c);
    }
  }

  /** The CSV rows of the summary of the sales add up to the totals of the sales, in every column. */
  lemma CsvConserves(sales: seq<ReturnInvoice>, c: Column)
    ensures SumBy([Header] + SectionRows("B2B", CounterpartyGroups(sales, true)) + SectionRows("B2C", CounterpartyGroups(sales, false)),
                  RowAmount(c)) == Of(TotalsOf(LinesOf(sales)), c)
  {
    var b2b, b2c := CounterpartyGroups(sales, true), CounterpartyGroups(sales, false);
    forall g | g in b2b ensures IsBrokenDown(g) {
      GroupShape(sales, true, g);
    }
    forall g | g in b2c ensures IsBrokenDown(g) {
      GroupShape(sales, false, g);
    }
    SectionSum("B2B", b2b, c);
    SectionSum("B2C", b2c, c);
    SumConcat([Header], SectionRows("B2B", b2b), RowAmount(c));
    SumConcat([Header] + SectionRows("B2B", b2b), SectionRows("B2C", b2c), RowAmount(c));
    assert SumBy([Header], RowAmount(c)) == SumBy([], RowAmount(c)) + 0;
    Gstr1Conserves(sales, c);
  }
}
