/** What the two summaries say, in the invoices' own fields: which lines are in which figure. */
module ReturnMeanings {
  import opened Util
  import opened Text
  import opened ReturnAggregation
  import ReturnLaws

  // ---------------------------------------------------------------- GSTR-3B

  /** The totals after some more lines, field by field. */
  ghost predicate MoreBy(after: Totals, before: Totals, lines: seq<ReturnLine>) {
    && after.taxableValue == before.taxableValue + SumBy(lines, (line: ReturnLine) => line.taxableValue)
    && after.cgst == before.cgst + SumBy(lines, (line: ReturnLine) => line.cgst)
    && after.sgst == before.sgst + SumBy(lines, (line: ReturnLine) => line.sgst)
    && after.igst == before.igst + SumBy(lines, (line: ReturnLine) => line.igst)
    && after.cess == before.cess + SumBy(lines, (line: ReturnLine) => line.cess)
  }

  lemma MoreLines(lines: seq<ReturnLine>, more: seq<ReturnLine>)
    ensures MoreBy(TotalsOf(lines + more), TotalsOf(lines), more)
  {
    SumConcat(lines, more, LineAmount(TaxableValue));
    SumConcat(lines, more, LineAmount(Cgst));
    SumConcat(lines, more, LineAmount(Sgst));
    SumConcat(lines, more, LineAmount(Igst));
    SumConcat(lines, more, LineAmount(Cess));
    SumCongruent(more, LineAmount(TaxableValue), (line: ReturnLine) => line.taxableValue);
    SumCongruent(more, LineAmount(Cgst), (line: ReturnLine) => line.cgst);
    SumCongruent(more, LineAmount(Sgst), (line: ReturnLine) => line.sgst);
    SumCongruent(more, LineAmount(Igst), (line: ReturnLine) => line.igst);
    SumCongruent(more, LineAmount(Cess), (line: ReturnLine) => line.cess);
  }

  lemma MoreInvoices(invoices: seq<ReturnInvoice>, inv: ReturnInvoice, p: ReturnInvoice -> bool)
    ensures var before, after := TotalsOf(LinesOf(Filter(invoices, p))), TotalsOf(LinesOf(Filter(invoices + [inv], p)));
            if p(inv) then MoreBy(after, before, inv.lines) else after == before
  {
    FilterAppend(invoices, inv, p);
    if p(inv) {
      Appended(Filter(invoices, p), inv);
      MoreLines(LinesOf(Filter(invoices, p)), inv.lines);
    }
  }

  /** One more invoice moves the side it belongs to by just its lines, and the other side not at all. */
  lemma OneMoreInvoice(period: string, invoices: seq<ReturnInvoice>, inv: ReturnInvoice)
    ensures var before, after := Gstr3bOf(period, invoices), Gstr3bOf(period, invoices + [inv]);
            && (if inv.direction == "sales" then MoreBy(after.outward, before.outward, inv.lines) else after.outward == before.outward)
            && (if inv.direction == "purchase" then MoreBy(after.itc, before.itc, inv.lines) else after.itc == before.itc)
  {
    DirectionsMean(invoices);
    DirectionsMean(invoices + [inv]);
    MoreInvoices(invoices, inv, Sold());
    MoreInvoices(invoices, inv, Bought());
  }

  // ----------------------------------------------------------------- GSTR-1

  function SoldTo(gstin: string): ReturnInvoice -> bool {
    (inv: ReturnInvoice) => inv.direction == "sales" && inv.counterpartyGstin == Some(gstin)
  }

  /** Sold to someone without a GSTIN, at a place or, if that is not known either, "unregistered". */
  function SoldAt(place: string): ReturnInvoice -> bool {
    (inv: ReturnInvoice) =>
      && inv.direction == "sales" && (inv.counterpartyGstin == None || inv.counterpartyGstin == Some(""))
      && place == if inv.placeOfSupply.None? || inv.placeOfSupply.value == "" then "unregistered" else inv.placeOfSupply.value
  }

  function AtRate(rate: real): ReturnLine -> bool { (line: ReturnLine) => line.gstRate == rate }

  ghost predicate HasRate(invoices: seq<ReturnInvoice>, p: ReturnInvoice -> bool, rate: real) {
    exists inv, line :: inv in invoices && p(inv) && line in inv.lines && line.gstRate == rate
  }

  /** One bucket for each rate that occurs in the picked invoices, rates increasing, each column the sum at that rate. */
  ghost predicate IsBreakdown(buckets: seq<RateBucket>, invoices: seq<ReturnInvoice>, p: ReturnInvoice -> bool) {
    && (forall i, j :: 0 <= i < j < |buckets| ==> buckets[i].gstRate < buckets[j].gstRate)
    && (forall b :: b in buckets ==> HasRate(invoices, p, b.gstRate) && IsTotalOf(b.totals, invoices, p, AtRate(b.gstRate)))
    && (forall rate :: HasRate(invoices, p, rate) ==> exists b :: b in buckets && b.gstRate == rate)
  }

  /** All picked invoices in one group, under the name on the first of them or else the key. */
  ghost predicate IsGroupOf(g: CounterpartyGroup, invoices: seq<ReturnInvoice>, p: ReturnInvoice -> bool, key: string) {
    var members := Filter(invoices, p);
    && members != [] && g.invoiceCount == |members|
    && g.gstin == members[0].counterpartyGstin
    && g.name == (if members[0].counterpartyName.None? || members[0].counterpartyName.value == "" then key
                  else members[0].counterpartyName.value)
    && IsTotalOf(g.totals, invoices, p, AnyLine())
    && IsBreakdown(g.rateBuckets, invoices, p)
  }

  lemma {:induction false} LineOfInvoice(invoices: seq<ReturnInvoice>, line: ReturnLine)
    ensures line in LinesOf(invoices) <==> exists inv :: inv in invoices && line in inv.lines
  {
    if invoices != [] {
      var init, last := invoices[..|invoices| - 1], invoices[|invoices| - 1];
      LineOfInvoice(init, line);
      InitAndLast(invoices);
      assert forall inv :: inv in invoices <==> inv in init || inv == last;
    }
  }

  lemma RateOccurs(invoices: seq<ReturnInvoice>, p: ReturnInvoice -> bool, rate: real)
    ensures HasRate(invoices, p, rate) <==> rate in Map(LinesOf(Filter(invoices, p)), RateOf())
  {
    var picked := Filter(invoices, p);
    var lines := LinesOf(picked);
    if HasRate(invoices, p, rate) {
      var inv, line :| inv in invoices && p(inv) && line in inv.lines && line.gstRate == rate;
      LineOfInvoice(picked, line);
      assert inv in picked;
      var i :| 0 <= i < |lines| && lines[i] == line;
      assert Map(lines, RateOf())[i] == rate;
    }
    if rate in Map(lines, RateOf()) {
      var i :| 0 <= i < |lines| && Map(lines, RateOf())[i] == rate;
      LineOfInvoice(picked, lines[i]);
    }
  }

  lemma BucketMeans(invoices: seq<ReturnInvoice>, p: ReturnInvoice -> bool, rate: real)
    ensures IsTotalOf(RateTotals(LinesOf(Filter(invoices, p)), rate), invoices, p, AtRate(rate))
  {
    PickedTotals(invoices, p, AtRate(rate));
    FilterSame(LinesOf(Filter(invoices, p)), HasKey(RateOf(), rate), AtRate(rate));
  }

  lemma BreakdownMeans(invoices: seq<ReturnInvoice>, p: ReturnInvoice -> bool)
    ensures IsBreakdown(RateWise(LinesOf(Filter(invoices, p))), invoices, p)
  {
    var lines := LinesOf(Filter(invoices, p));
    var buckets := RateWise(lines);
    forall i, j | 0 <= i < j < |buckets| ensures buckets[i].gstRate < buckets[j].gstRate {
      ReturnLaws.RatesIncrease(lines, i, j);
    }
    forall b | b in buckets ensures HasRate(invoices, p, b.gstRate) && IsTotalOf(b.totals, invoices, p, AtRate(b.gstRate)) {
      ReturnLaws.BucketOfRate(lines, b);
      RateOccurs(invoices, p, b.gstRate);
      BucketMeans(invoices, p, b.gstRate);
    }
    forall rate | HasRate(invoices, p, rate) ensures exists b :: b in buckets && b.gstRate == rate {
      RateOccurs(invoices, p, rate);
      ReturnLaws.RateHasBucket(lines, rate);
      assert RateBucket(rate, RateTotals(lines, rate)) in buckets;
    }
  }

  lemma GroupMeans(invoices: seq<ReturnInvoice>, p: ReturnInvoice -> bool, key: string)
    requires Filter(invoices, p) != []
    ensures IsGroupOf(GroupOf(Filter(invoices, p), key), invoices, p, key)
  {
    AllLinesPicked(invoices, p);
    BreakdownMeans(invoices, p);
  }

  lemma MembersSoldTo(invoices: seq<ReturnInvoice>, gstin: string)
    requires gstin != ""
    ensures Members(Filter(Sales(invoices), Registered(true)), gstin) == Filter(invoices, SoldTo(gstin))
  {
    FilterTwice(Sales(invoices), Registered(true), HasKey(GroupKey(), gstin), ReturnLaws.OfGstin(gstin));
    FilterTwice(invoices, Directed("sales"), ReturnLaws.OfGstin(gstin), SoldTo(gstin));
  }

  function At(place: string): ReturnInvoice -> bool {
    (inv: ReturnInvoice) => !Given(inv.counterpartyGstin) && OrElse(inv.placeOfSupply, "unregistered") == place
  }

  lemma MembersSoldAt(invoices: seq<ReturnInvoice>, place: string)
    ensures Members(Filter(Sales(invoices), Registered(false)), place) == Filter(invoices, SoldAt(place))
  {
    FilterTwice(Sales(invoices), Registered(false), HasKey(GroupKey(), place), At(place));
    FilterTwice(invoices, Directed("sales"), At(place), SoldAt(place));
  }

  /** The B2B section is one group for each GSTIN that was sold to, all sales to it and nothing else. */
  ghost predicate IsB2b(groups: seq<CounterpartyGroup>, invoices: seq<ReturnInvoice>) {
    && (forall g :: g in groups ==> g.gstin.Some? && g.gstin.value != "" && IsGroupOf(g, invoices, SoldTo(g.gstin.value), g.gstin.value))
    && (forall inv :: inv in invoices && inv.direction == "sales" && inv.counterpartyGstin.Some? && inv.counterpartyGstin.value != "" ==>
          exists g :: g in groups && g.gstin == inv.counterpartyGstin)
  }

  /** The B2C section is one group for each place that was sold at without a GSTIN. */
  ghost predicate IsB2c(groups: seq<CounterpartyGroup>, invoices: seq<ReturnInvoice>) {
    && (forall g :: g in groups ==> exists place :: IsGroupOf(g, invoices, SoldAt(place), place))
    && (forall inv, place :: inv in invoices && SoldAt(place)(inv) ==> exists g :: g in groups && IsGroupOf(g, invoices, SoldAt(place), place))
  }

  ghost predicate IsGstr1(s: Gstr1Summary, period: string, invoices: seq<ReturnInvoice>) {
    && s.period == period
    && IsB2b(s.b2b, invoices) && IsB2c(s.b2c, invoices)
    && LargestFirst(s.b2b) && LargestFirst(s.b2c)
    && IsBreakdown(s.rateWise, invoices, Sold())
    && IsTotalOf(s.totals, invoices, Sold(), AnyLine())
  }

  ghost predicate LargestFirst(groups: seq<CounterpartyGroup>) {
    forall i, j :: 0 <= i < j < |groups| ==> groups[i].totals.taxableValue >= groups[j].totals.taxableValue
  }

  lemma GroupsInOrder(sales: seq<ReturnInvoice>, withGstin: bool)
    ensures LargestFirst(CounterpartyGroups(sales, withGstin))
  {
    var groups := CounterpartyGroups(sales, withGstin);
    forall i, j | 0 <= i < j < |groups| ensures groups[i].totals.taxableValue >= groups[j].totals.taxableValue {
      ReturnLaws.LargestFirst(sales, withGstin, i, j);
    }
  }

  lemma B2bGroupMeans(invoices: seq<ReturnInvoice>, g: CounterpartyGroup)
    requires g in CounterpartyGroups(Sales(invoices), true)
    ensures g.gstin.Some? && g.gstin.value != "" && IsGroupOf(g, invoices, SoldTo(g.gstin.value), g.gstin.value)
  {
    var gstin := ReturnLaws.GroupHasKey(Sales(invoices), true, g);
    var members := Members(Filter(Sales(invoices), Registered(true)), gstin);
    assert members[0] in members;
    MembersSoldTo(invoices, gstin);
    GroupMeans(invoices, SoldTo(gstin), gstin);
  }

  lemma B2bGroupExists(invoices: seq<ReturnInvoice>, inv: ReturnInvoice)
    requires inv in invoices && inv.direction == "sales" && inv.counterpartyGstin.Some? && inv.counterpartyGstin.value != ""
    ensures exists g :: g in CounterpartyGroups(Sales(invoices), true) && g.gstin == inv.counterpartyGstin
  {
    var gstin := inv.counterpartyGstin.value;
    var members := Filter(Sales(invoices), ReturnLaws.OfGstin(gstin));
    assert inv in Sales(invoices);
    assert inv in members;
    ReturnLaws.GstinHasGroup(Sales(invoices), gstin);
    assert members[0] in members;
    assert GroupOf(members, gstin).gstin == inv.counterpartyGstin;
  }

  lemma B2cGroupMeans(invoices: seq<ReturnInvoice>, g: CounterpartyGroup) returns (place: string)
    requires g in CounterpartyGroups(Sales(invoices), false)
    ensures IsGroupOf(g, invoices, SoldAt(place), place)
  {
    place := ReturnLaws.GroupHasKey(Sales(invoices), false, g);
    MembersSoldAt(invoices, place);
    GroupMeans(invoices, SoldAt(place), place);
  }

  lemma B2cGroupExists(invoices: seq<ReturnInvoice>, inv: ReturnInvoice, place: string)
    requires inv in invoices && SoldAt(place)(inv)
    ensures exists g :: g in CounterpartyGroups(Sales(invoices), false) && IsGroupOf(g, invoices, SoldAt(place), place)
  {
    assert inv in Filter(invoices, SoldAt(place));
    MembersSoldAt(invoices, place);
    ReturnLaws.KeyHasGroup(Sales(invoices), false, place);
    GroupMeans(invoices, SoldAt(place), place);
  }

  lemma SectionsMean(invoices: seq<ReturnInvoice>)
    ensures IsB2b(CounterpartyGroups(Sales(invoices), true), invoices) && IsB2c(CounterpartyGroups(Sales(invoices), false), invoices)
  {
    var b2b, b2c := CounterpartyGroups(Sales(invoices), true), CounterpartyGroups(Sales(invoices), false);
    forall g | g in b2b
      ensures g.gstin.Some? && g.gstin.value != "" && IsGroupOf(g, invoices, SoldTo(g.gstin.value), g.gstin.value) {
      B2bGroupMeans(invoices, g);
    }
    forall inv | inv in invoices && inv.direction == "sales" && inv.counterpartyGstin.Some? && inv.counterpartyGstin.value != ""
      ensures exists g :: g in b2b && g.gstin == inv.counterpartyGstin {
      B2bGroupExists(invoices, inv);
    }
    forall g | g in b2c ensures exists place :: IsGroupOf(g, invoices, SoldAt(place), place) {
      var place := B2cGroupMeans(invoices, g);
    }
    forall inv, place | inv in invoices && SoldAt(place)(inv)
      ensures exists g :: g in b2c && IsGroupOf(g, invoices, SoldAt(place), place) {
      B2cGroupExists(invoices, inv, place);
    }
  }

  // -------------------------------------------------------------------- CSV

  /** A row of a section: one rate of one group, under the group's GSTIN, if any, and name. */
  ghost predicate IsCsvRow(row: CsvRow, section: string, g: CounterpartyGroup, b: RateBucket) {
    row.Row? && row.section == section && row.gstin == (if g.gstin.None? then "" else g.gstin.value) && row.name == g.name
    && row.gstRate == b.gstRate && row.totals == b.totals
  }

  lemma CsvRowIs(row: CsvRow, section: string, g: CounterpartyGroup, b: RateBucket)
    ensures IsCsvRow(row, section, g, b) <==> row == Row(section, OrElse(g.gstin, ""), g.name, b.gstRate, b.totals)
  {
  }

  lemma {:induction false} GroupRowsMean(section: string, g: CounterpartyGroup, buckets: seq<RateBucket>, row: CsvRow)
    ensures row in GroupRows(section, g, buckets) <==> exists b :: b in buckets && IsCsvRow(row, section, g, b)
  {
    if buckets != [] {
      GroupRowsMean(section, g, buckets[..|buckets| - 1], row);
      InitAndLast(buckets);
      CsvRowIs(row, section, g, buckets[|buckets| - 1]);
      assert forall b :: b in buckets <==> b in buckets[..|buckets| - 1] || b == buckets[|buckets| - 1];
    }
  }

  /** The rows of a section are those of all rates of all its groups. */
  lemma {:induction false} SectionRowsMean(section: string, groups: seq<CounterpartyGroup>, row: CsvRow)
    ensures row in SectionRows(section, groups) <==>
            exists g, b :: g in groups && b in g.rateBuckets && IsCsvRow(row, section, g, b)
  {
    if groups != [] {
      var init, last := groups[..|groups| - 1], groups[|groups| - 1];
      SectionRowsMean(section, init, row);
      GroupRowsMean(section, last, last.rateBuckets, row);
      InitAndLast(groups);
      assert forall g :: g in groups <==> g in init || g == last;
    }
  }

  /** GSTR-1 in the invoices' fields: its two sections, its rates and its totals are those of the sales. */
  lemma Gstr1Means(period: string, invoices: seq<ReturnInvoice>)
    ensures IsGstr1(Gstr1Of(period, invoices), period, invoices)
  {
    SectionsMean(invoices);
    GroupsInOrder(Sales(invoices), true);
    GroupsInOrder(Sales(invoices), false);
    DirectionsMean(invoices);
    BreakdownMeans(invoices, Sold());
    AllLinesPicked(invoices, Sold());
  }
}
