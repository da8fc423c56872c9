/** The summary of a reconciliation and what its totals say about the inputs. */
module ReconciliationAudit {
  import opened Util
  import opened Reconciliation

  datatype Summary = Summary(
    bookInvoices: int,
    returnRecords: int,
    matched: int,
    mismatch: int,
    missingInReturn: int,
    missingInBooks: int,
    itcAtRisk: int,
    potentialUnclaimed: int)

  function HasStatus(s: Status): MatchResult -> int {
    (r: MatchResult) => if r.status == s then 1 else 0
  }

  function HasBook(r: MatchResult): int { if r.bookId.Some? then 1 else 0 }

  function HasRecord(r: MatchResult): int { if r.recordId.Some? then 1 else 0 }

  function ItcAtRisk(r: MatchResult): int { r.itcAtRisk }

  function Unclaimed(r: MatchResult): int {
    if r.status == MissingInBooks && r.returnTax.Some? then r.returnTax.value else 0
  }

  /** The totals of a list of results. */
  function Tally(results: seq<MatchResult>): Summary {
    Summary(SumBy(results, HasBook), SumBy(results, HasRecord),
            SumBy(results, HasStatus(Matched)), SumBy(results, HasStatus(Mismatch)),
            SumBy(results, HasStatus(MissingInReturn)), SumBy(results, HasStatus(MissingInBooks)),
            SumBy(results, ItcAtRisk), SumBy(results, Unclaimed))
  }

  lemma TallyStep(results: seq<MatchResult>, r: MatchResult)
    ensures var t := Tally(results);
            Tally(results + [r]) == Summary(
              t.bookInvoices + HasBook(r), t.returnRecords + HasRecord(r),
              t.matched + HasStatus(Matched)(r), t.mismatch + HasStatus(Mismatch)(r),
              t.missingInReturn + HasStatus(MissingInReturn)(r), t.missingInBooks + HasStatus(MissingInBooks)(r),
              t.itcAtRisk + ItcAtRisk(r), t.potentialUnclaimed + Unclaimed(r))
  {
    assert (results + [r])[..|results|] == results;
  }

  method Summarize(results: seq<MatchResult>) returns (summary: Summary)
    ensures summary == Tally(results)
  {
    var counts: map<Status, int> := map[Matched := 0, Mismatch := 0, MissingInReturn := 0, MissingInBooks := 0];
    var itcAtRisk, potentialUnclaimed, bookCount, returnCount := 0, 0, 0, 0;
    var i := 0;
    while i < |results|
      invariant 0 <= i <= |results|
      invariant Matched in counts && Mismatch in counts && MissingInReturn in counts && MissingInBooks in counts
      invariant Summary(bookCount, returnCount, counts[Matched], counts[Mismatch], counts[MissingInReturn],
                        counts[MissingInBooks], itcAtRisk, potentialUnclaimed) == Tally(results[..i])
    {
      var r := results[i];
      assert results[..i + 1] == results[..i] + [r];
      TallyStep(results[..i], r);
      counts := counts[r.status := counts[r.status] + 1];
      itcAtRisk := itcAtRisk + r.itcAtRisk;
      if r.status == MissingInBooks {
        potentialUnclaimed := potentialUnclaimed + if r.returnTax.Some? then r.returnTax.value else 0;
      }
      if r.bookId.Some? {
        bookCount := bookCount + 1;
      }
      if r.recordId.Some? {
        returnCount := returnCount + 1;
      }
      i := i + 1;
    }
    assert results[..|results|] == results;
    summary := Summary(bookCount, returnCount, counts[Matched], counts[Mismatch], counts[MissingInReturn],
                       counts[MissingInBooks], itcAtRisk, potentialUnclaimed);
  }

  // ------------------------------------------------------------------ counts

  lemma {:induction false} SidesOfReport(pairing: seq<Pairing>, f: Pairing -> MatchResult)
    requires forall p :: p in pairing ==> IsReportOf(f(p), p)
    ensures var t := Tally(Map(pairing, f));
            && t.bookInvoices == t.matched + t.mismatch + t.missingInReturn == |BookSide(pairing)|
            && t.returnRecords == t.matched + t.mismatch + t.missingInBooks == |RecordSide(pairing)|
            && t.matched + t.mismatch == |Filter(pairing, IsPair)|
  {
    if pairing != [] {
      var init, p := pairing[..|pairing| - 1], pairing[|pairing| - 1];
      SidesOfReport(init, f);
      assert Map(pairing, f) == Map(init, f) + [f(p)];
      TallyStep(Map(init, f), f(p));
      assert p in pairing && IsReportOf(f(p), p);
    }
  }

  /** The buckets and ids a result must carry for its pairing. */
  ghost predicate IsReportOf(r: MatchResult, p: Pairing) {
    match p
    case Pair(_, _) => (r.status == Matched || r.status == Mismatch) && r.bookId.Some? && r.recordId.Some?
    case BookOnly(_) => r.status == MissingInReturn && r.bookId.Some? && r.recordId.None?
    case RecordOnly(_) => r.status == MissingInBooks && r.bookId.None? && r.recordId.Some?
  }

  lemma ReportsAreReports(books: seq<BookInvoice>, records: seq<ReturnRecord>, tol: Tolerances, p: Pairing)
    ensures IsReportOf(Report(books, records, tol)(p), p)
  {
  }

  /** The buckets add up to the inputs on both sides. */
  lemma BucketsCountInputs(pairing: seq<Pairing>, books: seq<BookInvoice>, records: seq<ReturnRecord>, tol: Tolerances)
    requires IsReconciliation(pairing, BookKeys(books), RecordKeys(records))
    ensures var t := Tally(Map(pairing, Report(books, records, tol)));
            && t.bookInvoices == t.matched + t.mismatch + t.missingInReturn == |books|
            && t.returnRecords == t.matched + t.mismatch + t.missingInBooks == |records|
  {
    forall p ensures IsReportOf(Report(books, records, tol)(p), p) {
      ReportsAreReports(books, records, tol, p);
    }
    SidesOfReport(pairing, Report(books, records, tol));
    ExactPartition(pairing, BookKeys(books), RecordKeys(records));
    assert |multiset(BookSide(pairing))| == |multiset(Range(|books|))|;
    assert |multiset(RecordSide(pairing))| == |multiset(Range(|records|))|;
  }

  // ------------------------------------------------------------- tax at risk

  function BookTax(b: BookInvoice): int { b.tax }

  function RecordTax(r: ReturnRecord): int { r.tax }

  function BookTaxIn(r: MatchResult): int { if r.bookTax.Some? then r.bookTax.value else 0 }

  function ReturnTaxIn(r: MatchResult): int { if r.returnTax.Some? then r.returnTax.value else 0 }

  /** The tax the supplier reported for a paired row. */
  function PairedReturnTax(r: MatchResult): int {
    if r.status == Matched || r.status == Mismatch then ReturnTaxIn(r) else 0
  }

  function BookTaxAt(books: seq<BookInvoice>): nat -> int { (i: nat) => BookAt(books, i).tax }

  function RecordTaxAt(records: seq<ReturnRecord>): nat -> int { (j: nat) => RecordAt(records, j).tax }

  /** A result carries the tax of the rows it stands for. */
  ghost predicate CarriesTax(r: MatchResult, p: Pairing, books: seq<BookInvoice>, records: seq<ReturnRecord>) {
    && BookTaxIn(r) == (if p.RecordOnly? then 0 else BookAt(books, p.book).tax)
    && ReturnTaxIn(r) == (if p.BookOnly? then 0 else RecordAt(records, p.record).tax)
  }

  lemma ReportCarriesTax(books: seq<BookInvoice>, records: seq<ReturnRecord>, tol: Tolerances, p: Pairing)
    ensures CarriesTax(Report(books, records, tol)(p), p, books, records)
  {
  }

  lemma {:induction false} TaxOnBookSide(pairing: seq<Pairing>, f: Pairing -> MatchResult, books: seq<BookInvoice>)
    requires forall p :: p in pairing ==> BookTaxIn(f(p)) == (if p.RecordOnly? then 0 else BookAt(books, p.book).tax)
    ensures SumBy(Map(pairing, f), BookTaxIn) == SumBy(BookSide(pairing), BookTaxAt(books))
  {
    if pairing != [] {
      var init, p := pairing[..|pairing| - 1], pairing[|pairing| - 1];
      TaxOnBookSide(init, f, books);
      assert Map(pairing, f) == Map(init, f) + [f(p)] && p in pairing;
      SumAppend(Map(init, f), f(p), BookTaxIn);
      if !p.RecordOnly? {
        SumAppend(BookSide(init), p.book, BookTaxAt(books));
      } else {
        assert BookSide(pairing) == BookSide(init);
      }
    }
  }

  lemma {:induction false} TaxOnRecordSide(pairing: seq<Pairing>, f: Pairing -> MatchResult, records: seq<ReturnRecord>)
    requires forall p :: p in pairing ==> ReturnTaxIn(f(p)) == (if p.BookOnly? then 0 else RecordAt(records, p.record).tax)
    ensures SumBy(Map(pairing, f), ReturnTaxIn) == SumBy(RecordSide(pairing), RecordTaxAt(records))
  {
    if pairing != [] {
      var init, p := pairing[..|pairing| - 1], pairing[|pairing| - 1];
      TaxOnRecordSide(init, f, records);
      assert Map(pairing, f) == Map(init, f) + [f(p)] && p in pairing;
      SumAppend(Map(init, f), f(p), ReturnTaxIn);
      if !p.BookOnly? {
        SumAppend(RecordSide(init), p.record, RecordTaxAt(records));
      } else {
        assert RecordSide(pairing) == RecordSide(init);
      }
    }
  }

  lemma {:induction false} SumOverRange<T>(s: seq<T>, f: T -> int, g: nat -> int)
    requires forall i: nat :: i < |s| ==> g(i) == f(s[i])
    ensures SumBy(Range(|s|), g) == SumBy(s, f)
  {
    if s != [] {
      RangeStep(|s| - 1);
      SumOverRange(s[..|s| - 1], f, g);
    }
  }

  /** All tax in the inputs is in the results. */
  lemma TaxIsConserved(pairing: seq<Pairing>, books: seq<BookInvoice>, records: seq<ReturnRecord>, tol: Tolerances)
    requires IsReconciliation(pairing, BookKeys(books), RecordKeys(records))
    ensures SumBy(Map(pairing, Report(books, records, tol)), BookTaxIn) == SumBy(books, BookTax)
    ensures SumBy(Map(pairing, Report(books, records, tol)), ReturnTaxIn) == SumBy(records, RecordTax)
  {
    forall p ensures CarriesTax(Report(books, records, tol)(p), p, books, records) {
      ReportCarriesTax(books, records, tol, p);
    }
    TaxOnBookSide(pairing, Report(books, records, tol), books);
    TaxOnRecordSide(pairing, Report(books, records, tol), records);
    ExactPartition(pairing, BookKeys(books), RecordKeys(records));
    SumPermutation(BookSide(pairing), Range(|books|), BookTaxAt(books));
    SumPermutation(RecordSide(pairing), Range(|records|), RecordTaxAt(records));
    SumOverRange(books, BookTax, BookTaxAt(books));
    SumOverRange(records, RecordTax, RecordTaxAt(records));
  }

  /** Within the tolerance, a row's book tax is covered by what was reported for it and what is at risk. */
  ghost predicate Covered(r: MatchResult, tol: Tolerances) {
    && BookTaxIn(r) <= PairedReturnTax(r) + r.itcAtRisk + (if r.status == Matched then tol.tax else 0)
    && ReturnTaxIn(r) == PairedReturnTax(r) + Unclaimed(r)
  }

  lemma ReportIsCovered(books: seq<BookInvoice>, records: seq<ReturnRecord>, tol: Tolerances, p: Pairing)
    ensures Covered(Report(books, records, tol)(p), tol)
  {
  }

  lemma {:induction false} CoveredTotals(results: seq<MatchResult>, tol: Tolerances)
    requires forall r :: r in results ==> Covered(r, tol)
    ensures SumBy(results, BookTaxIn) <= SumBy(results, PairedReturnTax) + SumBy(results, ItcAtRisk) + tol.tax * SumBy(results, HasStatus(Matched))
    ensures SumBy(results, ReturnTaxIn) == SumBy(results, PairedReturnTax) + SumBy(results, Unclaimed)
  {
    if results != [] {
      var init, r := results[..|results| - 1], results[|results| - 1];
      CoveredTotals(init, tol);
      assert r in results && Covered(r, tol);
      var m := SumBy(init, HasStatus(Matched));
      assert tol.tax * (m + 1) == tol.tax * m + tol.tax;
    }
  }

  /** The tax claimed in the books exceeds what suppliers reported for the paired rows by no more than the credit
      declared at risk plus the tolerance of each matched row; and everything reported is paired or unclaimed. */
  lemma AuditInequality(pairing: seq<Pairing>, books: seq<BookInvoice>, records: seq<ReturnRecord>, tol: Tolerances)
    requires IsReconciliation(pairing, BookKeys(books), RecordKeys(records))
    ensures var results := Map(pairing, Report(books, records, tol));
            var t := Tally(results);
            && SumBy(books, BookTax) <= SumBy(results, PairedReturnTax) + t.itcAtRisk + tol.tax * t.matched
            && SumBy(records, RecordTax) == SumBy(results, PairedReturnTax) + t.potentialUnclaimed
  {
    var results := Map(pairing, Report(books, records, tol));
    TaxIsConserved(pairing, books, records, tol);
    forall r | r in results ensures Covered(r, tol) {
      var n :| 0 <= n < |results| && results[n] == r;
      ReportIsCovered(books, records, tol, pairing[n]);
    }
    CoveredTotals(results, tol);
  }
}
