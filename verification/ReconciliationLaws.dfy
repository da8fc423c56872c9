/** What the reconciliation pairs and reports, in terms of the rows' own fields. */
module ReconciliationLaws {
  import opened Util
  import opened Text
  import opened Reconciliation
  import opened ReconciliationEngine
  import opened ReconciliationAudit
  import opened ReconciliationService

  // ------------------------------------------------------------ rows that agree

  function Field(o: Option<string>): string { if o.Some? then o.value else "" }

  /** The letters and digits of a text, letters in upper case. */
  function Codes(s: string): string {
    if s == "" then ""
    else
      var c := s[|s| - 1];
      Codes(s[..|s| - 1]) +
      if 'a' <= c <= 'z' then [(c as int - 32) as char] else if 'A' <= c <= 'Z' || '0' <= c <= '9' then [c] else ""
  }

  /** The two rows name the same supplier and, but for case and punctuation, the same invoice number, which is not blank. */
  predicate Agree(b: BookInvoice, r: ReturnRecord) {
    && Upper(Strip(Field(b.supplierGstin))) == Upper(Strip(Field(r.supplierGstin)))
    && Codes(Field(b.number)) == Codes(Field(r.number)) && Codes(Field(b.number)) != ""
  }

  lemma {:induction false} CodesAreKept(s: string)
    ensures Filter(Upper(s), IsAlphanumeric) == Codes(s)
  {
    if s != "" {
      var init, c := s[..|s| - 1], s[|s| - 1];
      CodesAreKept(init);
      UpperAppend(init, c);
      InitAndLast(s);
      FilterAppend(Upper(init), UpperChar(c), IsAlphanumeric);
    }
  }

  lemma UpperAppend(s: string, c: char)
    ensures Upper(s + [c]) == Upper(s) + [UpperChar(c)]
  {
  }

  lemma {:induction false} CodesConcat(s: string, t: string)
    ensures Codes(s + t) == Codes(s) + Codes(t)
  {
    if t == "" {
      assert s + t == s;
    } else {
      CodesConcat(s, t[..|t| - 1]);
      assert (s + t)[..|s + t| - 1] == s + t[..|t| - 1];
    }
  }

  lemma {:induction false} SpaceHasNoCodes(s: string)
    requires forall i :: 0 <= i < |s| ==> IsSpace(s[i])
    ensures Codes(s) == ""
  {
    if s != "" {
      SpaceHasNoCodes(s[..|s| - 1]);
      IsSpaceMeans(s[|s| - 1]);
    }
  }

  lemma StripKeepsCodes(s: string)
    ensures Codes(Strip(s)) == Codes(s)
  {
    var from, to := TrimMeans(s, IsSpace);
    SpaceHasNoCodes(s[..from]);
    SpaceHasNoCodes(s[to..]);
    CodesCut(s, to);
    CodesCut(s[..to], from);
    assert s[..to][..from] == s[..from] && s[..to][from..] == s[from..to];
  }

  lemma CodesCut(s: string, k: nat)
    requires k <= |s|
    ensures Codes(s) == Codes(s[..k]) + Codes(s[k..])
  {
    assert s == s[..k] + s[k..];
    CodesConcat(s[..k], s[k..]);
  }

  lemma NumberKey(number: Option<string>, gstin: Option<string>)
    ensures MatchKey(gstin, number) == (Upper(Strip(Field(gstin))), Codes(Field(number)))
  {
    StripKeepsCodes(Field(number));
    CodesAreKept(Strip(Field(number)));
  }

  lemma AgreeIsSameKey(b: BookInvoice, r: ReturnRecord)
    ensures Agree(b, r) <==> BookKey(b) == RecordKey(r) && !IsBlank(BookKey(b))
  {
    NumberKey(b.number, b.supplierGstin);
    NumberKey(r.number, r.supplierGstin);
  }

  // ------------------------------------------------------------ who is paired

  function Results(books: seq<BookInvoice>, records: seq<ReturnRecord>, tol: Tolerances): seq<MatchResult> {
    Map(Pairings(BookKeys(books), RecordKeys(records)), Report(books, records, tol))
  }

  /** A result names a book and a record only if these rows agree. */
  lemma OnlyAgreeingRowsArePaired(books: seq<BookInvoice>, records: seq<ReturnRecord>, tol: Tolerances, k: nat) returns (i: nat, j: nat)
    requires k < |Results(books, records, tol)|
    requires Results(books, records, tol)[k].bookId.Some? && Results(books, records, tol)[k].recordId.Some?
    ensures i < |books| && j < |records| && Agree(books[i], records[j])
    ensures Results(books, records, tol)[k] == Paired(books[i], records[j], tol)
  {
    var bk, rk := BookKeys(books), RecordKeys(records);
    var p := Pairings(bk, rk)[k];
    PairingsReconcile(bk, rk);
    assert p in Pairings(bk, rk) && Belongs(p, bk, rk);
    assert p.Pair?;
    i, j := p.book, p.record;
    BookKeysAt(books, i);
    RecordKeysAt(records, j);
    AgreeIsSameKey(books[i], records[j]);
  }

  /** A book and a record that agree, each with no other row, are paired. */
  lemma LoneAgreeingRowsArePaired(books: seq<BookInvoice>, records: seq<ReturnRecord>, tol: Tolerances, i: nat, j: nat)
    requires i < |books| && j < |records| && Agree(books[i], records[j])
    requires forall k :: 0 <= k < |books| && k != i ==> !Agree(books[k], records[j])
    requires forall k :: 0 <= k < |records| && k != j ==> !Agree(books[i], records[k])
    ensures Paired(books[i], records[j], tol) in Results(books, records, tol)
  {
    FirstAgreeingBook(books, i, records[j]);
    FirstAgreeingRecord(records, j, books[i]);
    ReportedPair(books, records, tol, i, j);
  }

  lemma ReportedPair(books: seq<BookInvoice>, records: seq<ReturnRecord>, tol: Tolerances, i: nat, j: nat)
    requires i < |books| && j < |records| && BookKeys(books)[i] == RecordKeys(records)[j] && !IsBlank(BookKeys(books)[i])
    requires Rank(BookKeys(books), i) == 0 && Rank(RecordKeys(records), j) == 0
    ensures Paired(books[i], records[j], tol) in Results(books, records, tol)
  {
    ReportOfPair(books, records, tol, i, j);
    ReportedPairing(books, records, tol, Pair(i, j));
  }

  lemma FirstAgreeingBook(books: seq<BookInvoice>, i: nat, r: ReturnRecord)
    requires i < |books| && Agree(books[i], r) && forall k :: 0 <= k < i ==> !Agree(books[k], r)
    ensures BookKeys(books)[i] == RecordKey(r) && !IsBlank(RecordKey(r)) && Rank(BookKeys(books), i) == 0
  {
    BookKeysAt(books, i);
    AgreeIsSameKey(books[i], r);
    forall k | 0 <= k < i ensures BookKeys(books)[k] != BookKeys(books)[i] {
      BookKeysAt(books, k);
      AgreeIsSameKey(books[k], r);
    }
    FirstOfItsKey(BookKeys(books), i);
  }

  lemma FirstAgreeingRecord(records: seq<ReturnRecord>, j: nat, b: BookInvoice)
    requires j < |records| && Agree(b, records[j]) && forall k :: 0 <= k < j ==> !Agree(b, records[k])
    ensures RecordKeys(records)[j] == RecordKey(records[j]) && Rank(RecordKeys(records), j) == 0
  {
    RecordKeysAt(records, j);
    AgreeIsSameKey(b, records[j]);
    forall k | 0 <= k < j ensures RecordKeys(records)[k] != RecordKeys(records)[j] {
      RecordKeysAt(records, k);
      AgreeIsSameKey(b, records[k]);
    }
    FirstOfItsKey(RecordKeys(records), j);
  }

  lemma FirstOfItsKey(keys: seq<Key>, i: nat)
    requires i < |keys| && forall k :: 0 <= k < i ==> keys[k] != keys[i]
    ensures Rank(keys, i) == 0
  {
    NoPositions(keys[..i], keys[i]);
  }

  lemma ReportedPairing(books: seq<BookInvoice>, records: seq<ReturnRecord>, tol: Tolerances, p: Pairing)
    requires Belongs(p, BookKeys(books), RecordKeys(records))
    ensures Report(books, records, tol)(p) in Results(books, records, tol)
  {
    var pairing := Pairings(BookKeys(books), RecordKeys(records));
    PairingsReconcile(BookKeys(books), RecordKeys(records));
    var k :| 0 <= k < |pairing| && pairing[k] == p;
    assert Results(books, records, tol)[k] == Report(books, records, tol)(p);
  }

  /** A book that no record agrees with is missing in the return, with all its tax at risk. */
  lemma UnreportedBook(books: seq<BookInvoice>, records: seq<ReturnRecord>, tol: Tolerances, i: nat)
    requires i < |books| && forall k :: 0 <= k < |records| ==> !Agree(books[i], records[k])
    ensures MissingFromReturn(books[i], if Codes(Field(books[i].number)) == "" then BookNumberBlank else NotReported)
            in Results(books, records, tol)
  {
    var bk, rk := BookKeys(books), RecordKeys(records);
    BookKeysAt(books, i);
    NumberKey(books[i].number, books[i].supplierGstin);
    if !IsBlank(bk[i]) {
      forall k | 0 <= k < |records| ensures rk[k] != bk[i] {
        RecordKeysAt(records, k);
        AgreeIsSameKey(books[i], records[k]);
      }
      NoPositions(rk, bk[i]);
    }
    ReportedPairing(books, records, tol, BookOnly(i));
  }

  /** A record that no book agrees with is missing in the books. */
  lemma UnrecordedRecord(books: seq<BookInvoice>, records: seq<ReturnRecord>, tol: Tolerances, j: nat)
    requires j < |records| && forall k :: 0 <= k < |books| ==> !Agree(books[k], records[j])
    ensures MissingFromBooks(records[j], if Codes(Field(records[j].number)) == "" then RecordNumberBlank else NotRecorded)
            in Results(books, records, tol)
  {
    var bk, rk := BookKeys(books), RecordKeys(records);
    RecordKeysAt(records, j);
    NumberKey(records[j].number, records[j].supplierGstin);
    if !IsBlank(rk[j]) {
      forall k | 0 <= k < |books| ensures bk[k] != rk[j] {
        BookKeysAt(books, k);
        AgreeIsSameKey(books[k], records[j]);
      }
      NoPositions(bk, rk[j]);
    }
    ReportedPairing(books, records, tol, RecordOnly(j));
  }

  // --------------------------------------------------------- what is reported

  /** A paired row is matched exactly if both amounts are within their tolerances; otherwise what the books claim above the
      return is at risk. */
  lemma PairedMeans(b: BookInvoice, r: ReturnRecord, tol: Tolerances)
    ensures var m := Paired(b, r, tol);
            && m.bookId == Some(b.id) && m.recordId == Some(r.id)
            && m.bookTaxable == Some(b.taxable) && m.bookTax == Some(b.tax)
            && m.returnTaxable == Some(r.taxable) && m.returnTax == Some(r.tax)
            && m.supplierGstin == b.supplierGstin && m.number == b.number && m.date == b.date
            && (m.taxableDifference == b.taxable - r.taxable || m.taxableDifference == r.taxable - b.taxable) && m.taxableDifference >= 0
            && (m.taxDifference == b.tax - r.tax || m.taxDifference == r.tax - b.tax) && m.taxDifference >= 0
            && (m.status == Matched <==> m.taxableDifference <= tol.taxable && m.taxDifference <= tol.tax)
            && (m.status == Matched || m.status == Mismatch)
            && m.itcAtRisk == (if m.status == Mismatch && b.tax > r.tax then b.tax - r.tax else 0)
            && (TaxableValueDiffers in m.reasons <==> m.taxableDifference > tol.taxable)
            && (TaxDiffers in m.reasons <==> m.taxDifference > tol.tax)
  {
  }

  /** Runs let each amount differ by a rupee, a hundred paise. */
  lemma RunsAllowOneRupee(b: BookInvoice, r: ReturnRecord)
    ensures Paired(b, r, DEFAULT_TOLERANCES).status == Matched <==>
            -100 <= b.taxable - r.taxable <= 100 && -100 <= b.tax - r.tax <= 100
  {
  }

  /** An unmatched row reports its own amounts as the difference; all of a book's tax is at risk, none of a record's. */
  lemma MissingMeans(b: BookInvoice, r: ReturnRecord, reason: Reason)
    ensures var m := MissingFromReturn(b, reason);
            && m.status == MissingInReturn && m.bookId == Some(b.id) && m.recordId == None && m.itcAtRisk == b.tax
            && m.bookTaxable == Some(b.taxable) && m.bookTax == Some(b.tax) && m.returnTaxable == None && m.returnTax == None
            && m.taxableDifference == b.taxable && m.taxDifference == b.tax && m.reasons == [reason]
            && m.supplierGstin == b.supplierGstin && m.number == b.number && m.date == b.date
    ensures var m := MissingFromBooks(r, reason);
            && m.status == MissingInBooks && m.bookId == None && m.recordId == Some(r.id) && m.itcAtRisk == 0
            && m.bookTaxable == None && m.bookTax == None && m.returnTaxable == Some(r.taxable) && m.returnTax == Some(r.tax)
            && m.taxableDifference == r.taxable && m.taxDifference == r.tax && m.reasons == [reason]
            && m.supplierGstin == r.supplierGstin && m.number == r.number && m.date == r.date
  {
  }

  /** What one more result adds to a summary that starts at zero. */
  lemma SummaryMeans(results: seq<MatchResult>, r: MatchResult)
    ensures Tally([]) == Summary(0, 0, 0, 0, 0, 0, 0, 0)
    ensures var t, u := Tally(results), Tally(results + [r]);
            && u.bookInvoices == t.bookInvoices + (if r.bookId.Some? then 1 else 0)
            && u.returnRecords == t.returnRecords + (if r.recordId.Some? then 1 else 0)
            && u.matched == t.matched + (if r.status == Matched then 1 else 0)
            && u.mismatch == t.mismatch + (if r.status == Mismatch then 1 else 0)
            && u.missingInReturn == t.missingInReturn + (if r.status == MissingInReturn then 1 else 0)
            && u.missingInBooks == t.missingInBooks + (if r.status == MissingInBooks then 1 else 0)
            && u.itcAtRisk == t.itcAtRisk + r.itcAtRisk
            && u.potentialUnclaimed ==
               t.potentialUnclaimed + (if r.status == MissingInBooks && r.returnTax.Some? then r.returnTax.value else 0)
  {
    TallyStep(results, r);
  }

  // ----------------------------------------------------------- what is compared

  /** A run takes the purchases of the period, by the date's text, that have neither failed nor been rejected; a missing
      amount counts as zero. */
  lemma BooksOfRun(invoices: seq<StoredInvoice>, period: string, inv: StoredInvoice)
    ensures inv in Filter(invoices, PurchaseOf(period)) <==>
            && inv in invoices && inv.isPurchase && inv.status != InvoiceStatus.Failed && inv.status != Rejected
            && inv.date.Some? && |inv.date.value| > |period| && inv.date.value[..|period|] == period && inv.date.value[|period|] == '-'
    ensures var b := ToBook(inv);
            && b.id == inv.id && b.supplierGstin == inv.supplierGstin && b.number == inv.number && b.date == inv.date
            && (inv.taxable.Some? ==> b.taxable == inv.taxable.value) && (inv.taxable.None? ==> b.taxable == 0)
            && (inv.tax.Some? ==> b.tax == inv.tax.value) && (inv.tax.None? ==> b.tax == 0)
  {
    if inv.date.Some? && |inv.date.value| > |period| {
      assert inv.date.value[..|period| + 1] == inv.date.value[..|period|] + [inv.date.value[|period|]];
      assert (period + "-")[..|period|] == period;
    }
  }

  /** It compares them with the records of the period and source; a record's tax is all four components. */
  lemma RecordsOfRun(records: seq<StoredRecord>, period: string, source: Source, rec: StoredRecord)
    ensures rec in Filter(records, InFile(period, source)) <==> rec in records && rec.period == period && rec.source == source
    ensures rec in Filter(records, NotInFile(period, source)) <==> rec in records && (rec.period != period || rec.source != source)
    ensures var r := ToRecord(rec);
            && r.id == rec.id && r.supplierGstin == rec.gstin && r.supplierName == rec.name && r.number == rec.number
            && r.date == rec.date && r.taxable == rec.taxable && r.tax == rec.igst + rec.cgst + rec.sgst + rec.cess
  {
  }

  /** The rows of an upload are numbered from 0 in their order. */
  lemma StoredRowAt(rows: seq<UploadedRow>, nextId: nat, period: string, source: Source, i: nat)
    requires i < |rows|
    ensures |StoredRows(rows, nextId, period, source)| == |rows|
    ensures StoredRows(rows, nextId, period, source)[i] == Stored(rows[i], nextId + i, period, source, i)
  {
    NumberedRowAt(rows, Storing(nextId, period, source), i);
  }

  lemma {:induction false} NumberedRowAt(rows: seq<UploadedRow>, store: (UploadedRow, nat) -> StoredRecord, i: nat)
    requires i < |rows|
    ensures |NumberedRows(rows, store)| == |rows| && NumberedRows(rows, store)[i] == store(rows[i], i)
  {
    var n := |rows| - 1;
    if i < n {
      NumberedRowAt(rows[..n], store, i);
    } else if n > 0 {
      NumberedRowAt(rows[..n], store, n - 1);
    }
  }

  /** A row is stored with its texts stripped, blank ones as missing, and the GSTIN in upper case. */
  lemma StoredMeans(row: UploadedRow, id: nat, period: string, source: Source, rowNumber: nat)
    ensures var rec := Stored(row, id, period, source, rowNumber);
            && rec.id == id && rec.period == period && rec.source == source && rec.rowNumber == rowNumber
            && rec.gstin == (if Strip(row.gstin) == "" then None else Some(Upper(Strip(row.gstin))))
            && rec.name == (if Strip(row.name) == "" then None else Some(Strip(row.name)))
            && rec.number == (if Strip(row.number) == "" then None else Some(Strip(row.number)))
            && rec.date == (if Strip(row.date) == "" then None else Some(Strip(row.date)))
            && rec.taxable == row.taxable && rec.igst == row.igst && rec.cgst == row.cgst && rec.sgst == row.sgst && rec.cess == row.cess
  {
  }
}
