/** The summaries for GSTR-1 and GSTR-3B of backend/app/rules/return_aggregation.py: totals, rate-wise buckets and
    counterparty groups. Amounts are paise, rates are exact. */
module ReturnAggregation {
  import opened Util
  import opened Text

  // ------------------------------------------------------------------- data

  datatype ReturnLine = ReturnLine(taxableValue: int, gstRate: real, cgst: int, sgst: int, igst: int, cess: int)

  datatype ReturnInvoice = ReturnInvoice(direction: string, counterpartyName: Option<string>, counterpartyGstin: Option<string>,
                                         placeOfSupply: Option<string>, lines: seq<ReturnLine>)

  datatype Totals = Totals(taxableValue: int, cgst: int, sgst: int, igst: int, cess: int) {
    function TotalTax(): int { cgst + sgst + igst + cess }
  }

  datatype RateBucket = RateBucket(gstRate: real, totals: Totals)

  datatype CounterpartyGroup = CounterpartyGroup(gstin: Option<string>, name: string, invoiceCount: nat, totals: Totals,
                                                 rateBuckets: seq<RateBucket>)

  datatype Gstr1Summary = Gstr1Summary(period: string, b2b: seq<CounterpartyGroup>, b2c: seq<CounterpartyGroup>,
                                       rateWise: seq<RateBucket>, totals: Totals)

  datatype Gstr3bSummary = Gstr3bSummary(period: string, outward: Totals, itc: Totals, netCgst: int, netSgst: int, netIgst: int,
                                         netCess: int, netTotal: int)

  datatype CsvRow = Header | Row(section: string, gstin: string, name: string, gstRate: real, totals: Totals)

  /** The five amounts of which every figure is a total. */
  datatype Column = TaxableValue | Cgst | Sgst | Igst | Cess

  function Of(t: Totals, c: Column): int {
    match c
    case TaxableValue => t.taxableValue
    case Cgst => t.cgst
    case Sgst => t.sgst
    case Igst => t.igst
    case Cess => t.cess
  }

  function LineAmount(c: Column): ReturnLine -> int {
    (line: ReturnLine) =>
      match c
      case TaxableValue => line.taxableValue
      case Cgst => line.cgst
      case Sgst => line.sgst
      case Igst => line.igst
      case Cess => line.cess
  }

  function BucketAmount(c: Column): RateBucket -> int { (b: RateBucket) => Of(b.totals, c) }

  function GroupAmount(c: Column): CounterpartyGroup -> int { (g: CounterpartyGroup) => Of(g.totals, c) }

  function RowAmount(c: Column): CsvRow -> int { (r: CsvRow) => if r.Header? then 0 else Of(r.totals, c) }

  function GroupCount(): CounterpartyGroup -> int { (g: CounterpartyGroup) => g.invoiceCount }

  // --------------------------------------------- what the summaries should be

  /** Column by column the sum over the lines. */
  function TotalsOf(lines: seq<ReturnLine>): Totals {
    Totals(SumBy(lines, LineAmount(TaxableValue)), SumBy(lines, LineAmount(Cgst)), SumBy(lines, LineAmount(Sgst)),
           SumBy(lines, LineAmount(Igst)), SumBy(lines, LineAmount(Cess)))
  }

  function RateOf(): ReturnLine -> real { (line: ReturnLine) => line.gstRate }

  function RateLe(): (real, real) -> bool { (a: real, b: real) => a <= b }

  /** The buckets of the rates, in the order of the rates. */
  function BucketsOf(lines: seq<ReturnLine>, rates: seq<real>): seq<RateBucket> {
    if rates == [] then []
    else
      var r := rates[|rates| - 1];
      BucketsOf(lines, rates[..|rates| - 1]) + [RateBucket(r, RateTotals(lines, r))]
  }

  function RateTotals(lines: seq<ReturnLine>, rate: real): Totals {
    TotalsOf(Filter(lines, HasKey(RateOf(), rate)))
  }

  function Rates(lines: seq<ReturnLine>): seq<real> { Distinct(Map(lines, RateOf())) }

  /** One bucket for each rate that occurs, by increasing rate, with the totals of the lines at that rate. */
  function RateWise(lines: seq<ReturnLine>): seq<RateBucket> {
    BucketsOf(lines, Sort(Rates(lines), RateLe()))
  }

  function OrElse(s: Option<string>, other: string): string {
    if Given(s) then s.value else other
  }

  function GroupKey(): ReturnInvoice -> string {
    (inv: ReturnInvoice) => OrElse(inv.counterpartyGstin, OrElse(inv.placeOfSupply, "unregistered"))
  }

  function HasGstin(): ReturnInvoice -> bool { (inv: ReturnInvoice) => Given(inv.counterpartyGstin) }

  function Registered(withGstin: bool): ReturnInvoice -> bool { HasKey(HasGstin(), withGstin) }

  function LinesOf(invoices: seq<ReturnInvoice>): seq<ReturnLine> {
    if invoices == [] then [] else LinesOf(invoices[..|invoices| - 1]) + invoices[|invoices| - 1].lines
  }

  /** The group of the members that share a key. */
  function GroupOf(members: seq<ReturnInvoice>, key: string): CounterpartyGroup
    requires members != []
  {
    CounterpartyGroup(members[0].counterpartyGstin, OrElse(members[0].counterpartyName, key), |members|,
                      TotalsOf(LinesOf(members)), RateWise(LinesOf(members)))
  }

  function Members(invoices: seq<ReturnInvoice>, key: string): seq<ReturnInvoice> {
    Filter(invoices, HasKey(GroupKey(), key))
  }

  function LargerFirst(): (CounterpartyGroup, CounterpartyGroup) -> bool {
    (a: CounterpartyGroup, b: CounterpartyGroup) => a.totals.taxableValue >= b.totals.taxableValue
  }

  function Keys(invoices: seq<ReturnInvoice>): seq<string> { Distinct(Map(invoices, GroupKey())) }

  lemma KeyHasMembers(invoices: seq<ReturnInvoice>, key: string)
    ensures key in Keys(invoices) <==> Members(invoices, key) != []
  {
    DistinctFacts(Map(invoices, GroupKey()));
    if key in Keys(invoices) {
      var i :| 0 <= i < |invoices| && Map(invoices, GroupKey())[i] == key;
      assert invoices[i] in Members(invoices, key);
    }
    if Members(invoices, key) != [] {
      var inv := Members(invoices, key)[0];
      assert inv in Members(invoices, key);
      var i :| 0 <= i < |invoices| && invoices[i] == inv;
      assert Map(invoices, GroupKey())[i] == key;
    }
  }

  /** The groups of the keys, in the order of the keys. */
  function GroupsOf(invoices: seq<ReturnInvoice>, keys: seq<string>): seq<CounterpartyGroup>
    requires forall k :: k in keys ==> Members(invoices, k) != []
  {
    if keys == [] then []
    else
      var k := keys[|keys| - 1];
      GroupsOf(invoices, keys[..|keys| - 1]) + [GroupOf(Members(invoices, k), k)]
  }

  /** One group for each key that occurs among the selected invoices, largest taxable value first. */
  function CounterpartyGroups(invoices: seq<ReturnInvoice>, withGstin: bool): seq<CounterpartyGroup> {
    var selected := Filter(invoices, Registered(withGstin));
    KeysHaveMembers(selected);
    Sort(GroupsOf(selected, Keys(selected)), LargerFirst())
  }

  lemma KeysHaveMembers(invoices: seq<ReturnInvoice>)
    ensures forall k :: k in Keys(invoices) ==> Members(invoices, k) != []
  {
    forall k | k in Keys(invoices) ensures Members(invoices, k) != [] {
      KeyHasMembers(invoices, k);
    }
  }

  function Directed(direction: string): ReturnInvoice -> bool { (inv: ReturnInvoice) => inv.direction == direction }

  function Sales(invoices: seq<ReturnInvoice>): seq<ReturnInvoice> { Filter(invoices, Directed("sales")) }

  function Purchases(invoices: seq<ReturnInvoice>): seq<ReturnInvoice> { Filter(invoices, Directed("purchase")) }

  // --------------------------------------------------- what the figures mean

  function PickedLine(q: ReturnLine -> bool, field: ReturnLine -> int): ReturnLine -> int {
    (line: ReturnLine) => if q(line) then field(line) else 0
  }

  function PickedFrom(p: ReturnInvoice -> bool, q: ReturnLine -> bool, field: ReturnLine -> int): ReturnInvoice -> int {
    (inv: ReturnInvoice) => if p(inv) then SumBy(inv.lines, PickedLine(q, field)) else 0
  }

  /** One field summed over certain lines of certain invoices. */
  function Picked(invoices: seq<ReturnInvoice>, p: ReturnInvoice -> bool, q: ReturnLine -> bool, field: ReturnLine -> int): int {
    SumBy(invoices, PickedFrom(p, q, field))
  }

  /** Every column holds the sum of the field it is named after. */
  ghost predicate IsTotalOf(t: Totals, invoices: seq<ReturnInvoice>, p: ReturnInvoice -> bool, q: ReturnLine -> bool) {
    && t.taxableValue == Picked(invoices, p, q, (line: ReturnLine) => line.taxableValue)
    && t.cgst == Picked(invoices, p, q, (line: ReturnLine) => line.cgst)
    && t.sgst == Picked(invoices, p, q, (line: ReturnLine) => line.sgst)
    && t.igst == Picked(invoices, p, q, (line: ReturnLine) => line.igst)
    && t.cess == Picked(invoices, p, q, (line: ReturnLine) => line.cess)
  }

  function AnyLine(): ReturnLine -> bool { (line: ReturnLine) => true }

  function Sold(): ReturnInvoice -> bool { (inv: ReturnInvoice) => inv.direction == "sales" }

  function Bought(): ReturnInvoice -> bool { (inv: ReturnInvoice) => inv.direction == "purchase" }

  function LinesSumOf(field: ReturnLine -> int): ReturnInvoice -> int { (inv: ReturnInvoice) => SumBy(inv.lines, field) }

  lemma {:induction false} SumOfLines(invoices: seq<ReturnInvoice>, field: ReturnLine -> int)
    ensures SumBy(LinesOf(invoices), field) == SumBy(invoices, LinesSumOf(field))
  {
    if invoices != [] {
      SumOfLines(invoices[..|invoices| - 1], field);
      SumConcat(LinesOf(invoices[..|invoices| - 1]), invoices[|invoices| - 1].lines, field);
    }
  }

  lemma PickedIs(invoices: seq<ReturnInvoice>, p: ReturnInvoice -> bool, q: ReturnLine -> bool, field: ReturnLine -> int, c: Column)
    requires forall line :: field(line) == LineAmount(c)(line)
    ensures Of(TotalsOf(Filter(LinesOf(Filter(invoices, p)), q)), c) == Picked(invoices, p, q, field)
  {
    var lines := LinesOf(Filter(invoices, p));
    SumFilter(lines, q, LineAmount(c), PickedLine(q, field));
    SumOfLines(Filter(invoices, p), PickedLine(q, field));
    SumFilter(invoices, p, LinesSumOf(PickedLine(q, field)), PickedFrom(p, q, field));
  }

  lemma PickedTotals(invoices: seq<ReturnInvoice>, p: ReturnInvoice -> bool, q: ReturnLine -> bool)
    ensures IsTotalOf(TotalsOf(Filter(LinesOf(Filter(invoices, p)), q)), invoices, p, q)
  {
    PickedIs(invoices, p, q, (line: ReturnLine) => line.taxableValue, TaxableValue);
    PickedIs(invoices, p, q, (line: ReturnLine) => line.cgst, Cgst);
    PickedIs(invoices, p, q, (line: ReturnLine) => line.sgst, Sgst);
    PickedIs(invoices, p, q, (line: ReturnLine) => line.igst, Igst);
    PickedIs(invoices, p, q, (line: ReturnLine) => line.cess, Cess);
  }

  lemma AllLinesPicked(invoices: seq<ReturnInvoice>, p: ReturnInvoice -> bool)
    ensures IsTotalOf(TotalsOf(LinesOf(Filter(invoices, p))), invoices, p, AnyLine())
  {
    PickedTotals(invoices, p, AnyLine());
    FilterAll(LinesOf(Filter(invoices, p)), AnyLine());
  }

  lemma DirectionsMean(invoices: seq<ReturnInvoice>)
    ensures Sales(invoices) == Filter(invoices, Sold()) && Purchases(invoices) == Filter(invoices, Bought())
  {
    FilterSame(invoices, Directed("sales"), Sold());
    FilterSame(invoices, Directed("purchase"), Bought());
  }

  /** Outward are the lines of sales, credit those of purchases; what is due in a component is what outward exceeds the
      credit by, or nothing. */
  ghost predicate IsGstr3b(summary: Gstr3bSummary, period: string, invoices: seq<ReturnInvoice>) {
    && summary.period == period
    && IsTotalOf(summary.outward, invoices, Sold(), AnyLine())
    && IsTotalOf(summary.itc, invoices, Bought(), AnyLine())
    && IsExcess(summary.netCgst, summary.outward.cgst, summary.itc.cgst)
    && IsExcess(summary.netSgst, summary.outward.sgst, summary.itc.sgst)
    && IsExcess(summary.netIgst, summary.outward.igst, summary.itc.igst)
    && IsExcess(summary.netCess, summary.outward.cess, summary.itc.cess)
    && summary.netTotal == summary.netCgst + summary.netSgst + summary.netIgst + summary.netCess
  }

  predicate IsExcess(net: int, outward: int, credit: int) {
    net >= 0 && net >= outward - credit && (net == 0 || net == outward - credit)
  }

  lemma Gstr3bMeans(period: string, invoices: seq<ReturnInvoice>)
    ensures IsGstr3b(Gstr3bOf(period, invoices), period, invoices)
  {
    DirectionsMean(invoices);
    AllLinesPicked(invoices, Sold());
    AllLinesPicked(invoices, Bought());
  }

  // ------------------------------------------------------ the code's own form

  class TaxTotals {
    var taxableValue: int
    var cgst: int
    var sgst: int
    var igst: int
    var cess: int

    function Value(): Totals
      reads this
    {
      Totals(taxableValue, cgst, sgst, igst, cess)
    }

    constructor ()
      ensures Value() == TotalsOf([])
    {
      taxableValue, cgst, sgst, igst, cess := 0, 0, 0, 0, 0;
    }

    method AddLine(line: ReturnLine)
      modifies this
      ensures Value() == Plus(old(Value()), line)
    {
      taxableValue := taxableValue + line.taxableValue;
      cgst := cgst + line.cgst;
      sgst := sgst + line.sgst;
      igst := igst + line.igst;
      cess := cess + line.cess;
    }
  }

  function Plus(t: Totals, line: ReturnLine): Totals {
    Totals(t.taxableValue + line.taxableValue, t.cgst + line.cgst, t.sgst + line.sgst, t.igst + line.igst, t.cess + line.cess)
  }

  lemma TotalsAppend(lines: seq<ReturnLine>, line: ReturnLine)
    ensures TotalsOf(lines + [line]) == Plus(TotalsOf(lines), line)
  {
    SumAppend(lines, line, LineAmount(TaxableValue));
    SumAppend(lines, line, LineAmount(Cgst));
    SumAppend(lines, line, LineAmount(Sgst));
    SumAppend(lines, line, LineAmount(Igst));
    SumAppend(lines, line, LineAmount(Cess));
  }

  method SumLines(lines: seq<ReturnLine>) returns (totals: Totals)
    ensures totals == TotalsOf(lines)
  {
    var sum := new TaxTotals();
    for i := 0 to |lines|
      invariant sum.Value() == TotalsOf(lines[..i])
    {
      assert lines[..i + 1] == lines[..i] + [lines[i]];
      TotalsAppend(lines[..i], lines[i]);
      sum.AddLine(lines[i]);
    }
    assert lines[..|lines|] == lines;
    totals := sum.Value();
  }

  lemma RateTotalsAppend(lines: seq<ReturnLine>, line: ReturnLine, rate: real)
    ensures RateTotals(lines + [line], rate) ==
            if line.gstRate == rate then Plus(RateTotals(lines, rate), line) else RateTotals(lines, rate)
  {
    FilterAppend(lines, line, HasKey(RateOf(), rate));
    TotalsAppend(Filter(lines, HasKey(RateOf(), rate)), line);
  }

  /** The dictionary of buckets after some lines. */
  ghost predicate Collected(byRate: map<real, Totals>, lines: seq<ReturnLine>) {
    && (forall r :: r in byRate <==> r in Rates(lines))
    && (forall r :: r in byRate ==> byRate[r] == RateTotals(lines, r))
  }

  lemma CollectLine(byRate: map<real, Totals>, lines: seq<ReturnLine>, line: ReturnLine)
    requires Collected(byRate, lines)
    ensures Collected(AddToRate(byRate, line), lines + [line])
    ensures Rates(lines + [line]) == AddKey(Rates(lines), line.gstRate)
  {
    DistinctAppend(lines, line, RateOf());
    NewKeyIsNew(lines, line.gstRate, RateOf());
    assert line.gstRate !in byRate ==> RateTotals(lines, line.gstRate) == TotalsOf([]);
    var after := AddToRate(byRate, line);
    forall r | r in after ensures after[r] == RateTotals(lines + [line], r) {
      RateTotalsAppend(lines, line, r);
    }
  }

  function AddToRate(byRate: map<real, Totals>, line: ReturnLine): map<real, Totals> {
    var rate := line.gstRate;
    byRate[rate := Plus(if rate in byRate then byRate[rate] else TotalsOf([]), line)]
  }

  method CollectByRate(lines: seq<ReturnLine>) returns (byRate: map<real, Totals>, order: seq<real>)
    ensures Collected(byRate, lines) && order == Rates(lines)
  {
    byRate, order := map[], [];
    for i := 0 to |lines|
      invariant Collected(byRate, lines[..i]) && order == Rates(lines[..i])
    {
      assert lines[..i + 1] == lines[..i] + [lines[i]];
      CollectLine(byRate, lines[..i], lines[i]);
      byRate := AddToRate(byRate, lines[i]);
      order := AddKey(order, lines[i].gstRate);
    }
    assert lines[..|lines|] == lines;
  }

  method BucketByRate(lines: seq<ReturnLine>) returns (buckets: seq<RateBucket>)
    ensures buckets == RateWise(lines)
  {
    var byRate, order := CollectByRate(lines);
    var rates := Sort(order, RateLe());
    SortFacts(order, RateLe());
    buckets := ReadBuckets(byRate, rates, lines);
  }

  method ReadBuckets(byRate: map<real, Totals>, rates: seq<real>, ghost lines: seq<ReturnLine>) returns (buckets: seq<RateBucket>)
    requires forall r :: r in rates ==> r in byRate && byRate[r] == RateTotals(lines, r)
    ensures buckets == BucketsOf(lines, rates)
  {
    buckets := [];
    for j := 0 to |rates|
      invariant buckets == BucketsOf(lines, rates[..j])
    {
      BucketsStep(lines, rates, j);
      assert rates[j] in rates;
      buckets := buckets + [RateBucket(rates[j], byRate[rates[j]])];
    }
    assert rates[..|rates|] == rates;
  }

  lemma BucketsStep(lines: seq<ReturnLine>, rates: seq<real>, j: nat)
    requires j < |rates|
    ensures BucketsOf(lines, rates[..j + 1]) == BucketsOf(lines, rates[..j]) + [RateBucket(rates[j], RateTotals(lines, rates[j]))]
  {
    assert rates[..j + 1][..j] == rates[..j];
  }

  /** The dictionary of invoices by key. */
  ghost predicate Grouped(grouped: map<string, seq<ReturnInvoice>>, selected: seq<ReturnInvoice>) {
    && (forall k :: k in grouped <==> k in Keys(selected))
    && (forall k :: k in grouped ==> grouped[k] == Members(selected, k))
  }

  function AddToGroup(grouped: map<string, seq<ReturnInvoice>>, key: string, inv: ReturnInvoice): map<string, seq<ReturnInvoice>> {
    grouped[key := (if key in grouped then grouped[key] else []) + [inv]]
  }

  lemma GroupInvoice(grouped: map<string, seq<ReturnInvoice>>, selected: seq<ReturnInvoice>, inv: ReturnInvoice)
    requires Grouped(grouped, selected)
    ensures Grouped(AddToGroup(grouped, GroupKey()(inv), inv), selected + [inv])
    ensures Keys(selected + [inv]) == AddKey(Keys(selected), GroupKey()(inv))
  {
    var key := GroupKey()(inv);
    DistinctAppend(selected, inv, GroupKey());
    KeyHasMembers(selected, key);
    var after := AddToGroup(grouped, key, inv);
    forall k | k in after ensures after[k] == Members(selected + [inv], k) {
      FilterAppend(selected, inv, HasKey(GroupKey(), k));
    }
  }

  method CollectByKey(invoices: seq<ReturnInvoice>, withGstin: bool)
    returns (grouped: map<string, seq<ReturnInvoice>>, order: seq<string>)
    ensures Grouped(grouped, Filter(invoices, Registered(withGstin)))
    ensures order == Keys(Filter(invoices, Registered(withGstin)))
  {
    grouped, order := map[], [];
    ghost var before: seq<ReturnInvoice> := [];
    for i := 0 to |invoices|
      invariant before == Filter(invoices[..i], Registered(withGstin))
      invariant Grouped(grouped, before) && order == Keys(before)
    {
      var inv := invoices[i];
      assert invoices[..i + 1][..i] == invoices[..i];
      var hasGstin := Given(inv.counterpartyGstin);
      if hasGstin != withGstin {
        continue;
      }
      GroupInvoice(grouped, before, inv);
      var key := OrElse(inv.counterpartyGstin, OrElse(inv.placeOfSupply, "unregistered"));
      grouped := AddToGroup(grouped, key, inv);
      order := AddKey(order, key);
      before := before + [inv];
    }
    assert invoices[..|invoices|] == invoices;
  }

  method GroupCounterparties(invoices: seq<ReturnInvoice>, withGstin: bool) returns (groups: seq<CounterpartyGroup>)
    ensures groups == CounterpartyGroups(invoices, withGstin)
  {
    var grouped, order := CollectByKey(invoices, withGstin);
    ghost var selected := Filter(invoices, Registered(withGstin));
    KeysHaveMembers(selected);
    groups := BuildGroups(grouped, order, selected);
    groups := Sort(groups, LargerFirst());
  }

  method BuildGroups(grouped: map<string, seq<ReturnInvoice>>, order: seq<string>, ghost selected: seq<ReturnInvoice>)
    returns (groups: seq<CounterpartyGroup>)
    requires HoldMembers(grouped, order, selected)
    ensures groups == GroupsOf(selected, order)
  {
    groups := [];
    for j := 0 to |order|
      invariant groups == FirstGroups(grouped, order, selected, j)
    {
      NextGroup(grouped, order, selected, j);
      var group := MakeGroup(grouped[order[j]], order[j]);
      groups := groups + [group];
    }
    assert order[..|order|] == order;
  }

  ghost predicate HoldMembers(grouped: map<string, seq<ReturnInvoice>>, order: seq<string>, selected: seq<ReturnInvoice>) {
    forall k :: k in order ==> k in grouped && grouped[k] == Members(selected, k) && Members(selected, k) != []
  }

  ghost function FirstGroups(grouped: map<string, seq<ReturnInvoice>>, order: seq<string>, selected: seq<ReturnInvoice>, j: nat): seq<CounterpartyGroup>
    requires HoldMembers(grouped, order, selected) && j <= |order|
  {
    GroupsOf(selected, order[..j])
  }

  lemma NextGroup(grouped: map<string, seq<ReturnInvoice>>, order: seq<string>, selected: seq<ReturnInvoice>, j: nat)
    requires HoldMembers(grouped, order, selected) && j < |order|
    ensures order[j] in grouped && grouped[order[j]] != []
    ensures FirstGroups(grouped, order, selected, j + 1) ==
            FirstGroups(grouped, order, selected, j) + [GroupOf(grouped[order[j]], order[j])]
  {
    assert order[j] in order;
    GroupsStep(selected, order, j);
  }

  lemma GroupsStep(invoices: seq<ReturnInvoice>, keys: seq<string>, j: nat)
    requires j < |keys| && forall k :: k in keys ==> Members(invoices, k) != []
    ensures GroupsOf(invoices, keys[..j + 1]) == GroupsOf(invoices, keys[..j]) + [GroupOf(Members(invoices, keys[j]), keys[j])]
  {
    assert keys[..j + 1][..j] == keys[..j];
  }

  method MakeGroup(members: seq<ReturnInvoice>, key: string) returns (group: CounterpartyGroup)
    requires members != []
    ensures group == GroupOf(members, key)
  {
    var allLines := LinesOf(members);
    var totals := SumLines(allLines);
    var buckets := BucketByRate(allLines);
    group := CounterpartyGroup(members[0].counterpartyGstin, OrElse(members[0].counterpartyName, key), |members|, totals, buckets);
  }

  method TotalsFor(invoices: seq<ReturnInvoice>) returns (totals: Totals)
    ensures totals == TotalsOf(LinesOf(invoices))
  {
    var sum := new TaxTotals();
    for i := 0 to |invoices|
      invariant sum.Value() == TotalsOf(LinesOf(invoices[..i]))
    {
      assert invoices[..i + 1][..i] == invoices[..i];
      ghost var before := LinesOf(invoices[..i]);
      var lines := invoices[i].lines;
      assert before + lines[..0] == before;
      for j := 0 to |lines|
        invariant sum.Value() == TotalsOf(before + lines[..j])
      {
        assert before + lines[..j + 1] == before + lines[..j] + [lines[j]];
        TotalsAppend(before + lines[..j], lines[j]);
        sum.AddLine(lines[j]);
      }
      assert lines[..|lines|] == lines;
    }
    assert invoices[..|invoices|] == invoices;
    totals := sum.Value();
  }

  function Gstr1Of(period: string, invoices: seq<ReturnInvoice>): Gstr1Summary {
    var sales := Sales(invoices);
    Gstr1Summary(period, CounterpartyGroups(sales, true), CounterpartyGroups(sales, false), RateWise(LinesOf(sales)),
                 TotalsOf(LinesOf(sales)))
  }

  method BuildGstr1(period: string, invoices: seq<ReturnInvoice>) returns (summary: Gstr1Summary)
    ensures summary == Gstr1Of(period, invoices)
  {
    var sales := Sales(invoices);
    var b2b := GroupCounterparties(sales, true);
    var b2c := GroupCounterparties(sales, false);
    var rateWise := BucketByRate(LinesOf(sales));
    var totals := TotalsFor(sales);
    summary := Gstr1Summary(period, b2b, b2c, rateWise, totals);
  }

  function Max0(x: int): int { if x > 0 then x else 0 }

  /** Net tax is worked out component by component: credit of one component never pays another. So it is never negative
      and never less than outward tax less credit, and it is just that only when no credit is in excess. */
  function Net(period: string, outward: Totals, itc: Totals): (summary: Gstr3bSummary)
    ensures summary.netTotal >= 0 && summary.netTotal >= outward.TotalTax() - itc.TotalTax()
    ensures summary.netTotal == outward.TotalTax() - itc.TotalTax() <==> NoExcessCredit(outward, itc)
  {
    var cgst := Max0(outward.cgst - itc.cgst);
    var sgst := Max0(outward.sgst - itc.sgst);
    var igst := Max0(outward.igst - itc.igst);
    var cess := Max0(outward.cess - itc.cess);
    Gstr3bSummary(period, outward, itc, cgst, sgst, igst, cess, cgst + sgst + igst + cess)
  }

  function Gstr3bOf(period: string, invoices: seq<ReturnInvoice>): Gstr3bSummary {
    Net(period, TotalsOf(LinesOf(Sales(invoices))), TotalsOf(LinesOf(Purchases(invoices))))
  }

  method BuildGstr3b(period: string, invoices: seq<ReturnInvoice>) returns (summary: Gstr3bSummary)
    ensures summary == Gstr3bOf(period, invoices) && IsGstr3b(summary, period, invoices)
  {
    Gstr3bMeans(period, invoices);
    var outward := TotalsFor(Sales(invoices));
    var itc := TotalsFor(Purchases(invoices));
    summary := Net(period, outward, itc);
  }

  /** No component's credit is larger than its outward tax. */
  predicate NoExcessCredit(outward: Totals, itc: Totals) {
    itc.cgst <= outward.cgst && itc.sgst <= outward.sgst && itc.igst <= outward.igst && itc.cess <= outward.cess
  }

  /** The rows of one section: a row for each bucket of each group. */
  function GroupRows(section: string, group: CounterpartyGroup, buckets: seq<RateBucket>): seq<CsvRow> {
    if buckets == [] then []
    else
      var b := buckets[|buckets| - 1];
      GroupRows(section, group, buckets[..|buckets| - 1]) +
      [Row(section, OrElse(group.gstin, ""), group.name, b.gstRate, b.totals)]
  }

  function SectionRows(section: string, groups: seq<CounterpartyGroup>): seq<CsvRow> {
    if groups == [] then []
    else
      var g := groups[|groups| - 1];
      SectionRows(section, groups[..|groups| - 1]) + GroupRows(section, g, g.rateBuckets)
  }

  method CsvRows(summary: Gstr1Summary) returns (rows: seq<CsvRow>)
    ensures rows == [Header] + SectionRows("B2B", summary.b2b) + SectionRows("B2C", summary.b2c)
  {
    rows := AddSection([Header], "B2B", summary.b2b);
    rows := AddSection(rows, "B2C", summary.b2c);
  }

  method AddSection(before: seq<CsvRow>, section: string, groups: seq<CounterpartyGroup>) returns (rows: seq<CsvRow>)
    ensures rows == before + SectionRows(section, groups)
  {
    rows := before;
    for i := 0 to |groups|
      invariant rows == before + SectionRows(section, groups[..i])
    {
      assert groups[..i + 1][..i] == groups[..i];
      ghost var done := rows;
      var group := groups[i];
      for j := 0 to |group.rateBuckets|
        invariant rows == done + GroupRows(section, group, group.rateBuckets[..j])
      {
        assert group.rateBuckets[..j + 1][..j] == group.rateBuckets[..j];
        var bucket := group.rateBuckets[j];
        rows := rows + [Row(section, OrElse(group.gstin, ""), group.name, bucket.gstRate, bucket.totals)];
      }
      assert group.rateBuckets[..|group.rateBuckets|] == group.rateBuckets;
    }
    assert groups[..|groups|] == groups;
  }
}
