/** GSTR-2A/2B reconciliation (backend/app/rules/gstr_reconciliation.py): purchase invoices in the books against
    the records the suppliers reported. Amounts are paise. */
module Reconciliation {
  import opened Util
  import opened Text

  datatype BookInvoice = BookInvoice(
    id: nat, supplierGstin: Option<string>, number: Option<string>, date: Option<string>, taxable: int, tax: int)

  datatype ReturnRecord = ReturnRecord(
    id: nat, supplierGstin: Option<string>, supplierName: Option<string>, number: Option<string>, date: Option<string>,
    taxable: int, tax: int)

  // ---------------------------------------------------------------- the key

  /** Normalised supplier GSTIN and invoice number. */
  type Key = (string, string)

  function OrEmpty(o: Option<string>): string {
    if o.Some? then o.value else ""
  }

  predicate IsAlphanumeric(c: char) {
    'A' <= c <= 'Z' || '0' <= c <= '9'
  }

  function MatchKey(gstin: Option<string>, number: Option<string>): Key {
    (Upper(Strip(OrEmpty(gstin))), Filter(Upper(Strip(OrEmpty(number))), IsAlphanumeric))
  }

  function BookKey(b: BookInvoice): Key { MatchKey(b.supplierGstin, b.number) }

  function RecordKey(r: ReturnRecord): Key { MatchKey(r.supplierGstin, r.number) }

  function BookKeys(books: seq<BookInvoice>): (keys: seq<Key>)
    ensures |keys| == |books|
  {
    if books == [] then [] else BookKeys(books[..|books| - 1]) + [BookKey(books[|books| - 1])]
  }

  function RecordKeys(records: seq<ReturnRecord>): (keys: seq<Key>)
    ensures |keys| == |records|
  {
    if records == [] then [] else RecordKeys(records[..|records| - 1]) + [RecordKey(records[|records| - 1])]
  }

  lemma {:induction false} BookKeysAt(books: seq<BookInvoice>, i: nat)
    requires i < |books|
    ensures BookKeys(books)[i] == BookKey(books[i])
  {
    if i < |books| - 1 {
      BookKeysAt(books[..|books| - 1], i);
    }
  }

  lemma {:induction false} RecordKeysAt(records: seq<ReturnRecord>, j: nat)
    requires j < |records|
    ensures RecordKeys(records)[j] == RecordKey(records[j])
  {
    if j < |records| - 1 {
      RecordKeysAt(records[..|records| - 1], j);
    }
  }

  /** A blank number never matches anything. */
  predicate IsBlank(k: Key) { k.1 == "" }

  // -------------------------------------------------------------- the pairing

  /** One result: a book with a record, or either of them alone, by their positions in the inputs. */
  datatype Pairing = Pair(book: nat, record: nat) | BookOnly(book: nat) | RecordOnly(record: nat)

  /** The positions of a key, in increasing order. */
  function Positions(keys: seq<Key>, k: Key): seq<nat> {
    if keys == [] then [] else
      Positions(keys[..|keys| - 1], k) + if keys[|keys| - 1] == k then [|keys| - 1] else []
  }

  function Count(keys: seq<Key>, k: Key): nat { |Positions(keys, k)| }

  /** How many earlier inputs have the same key. */
  function Rank(keys: seq<Key>, i: nat): nat
    requires i < |keys|
  {
    Count(keys[..i], keys[i])
  }

  /** When a result belongs to the reconciliation of the given keys. */
  predicate Belongs(p: Pairing, books: seq<Key>, records: seq<Key>) {
    match p
    case Pair(i, j) =>
      i < |books| && j < |records| && books[i] == records[j] && !IsBlank(books[i]) && Rank(books, i) == Rank(records, j)
    case BookOnly(i) =>
      i < |books| && (IsBlank(books[i]) || Rank(books, i) >= Count(records, books[i]))
    case RecordOnly(j) =>
      j < |records| && (IsBlank(records[j]) || Rank(records, j) >= Count(books, records[j]))
  }

  /** The results are exactly those that belong, each once. */
  ghost predicate IsReconciliation(pairing: seq<Pairing>, books: seq<Key>, records: seq<Key>) {
    && NoDuplicates(pairing)
    && forall p :: p in pairing <==> Belongs(p, books, records)
  }

  // ---------------------------------------------------------------- results

  datatype Status = Matched | Mismatch | MissingInReturn | MissingInBooks

  datatype Reason =
    | BookNumberBlank | RecordNumberBlank | NotReported | NotRecorded | ExtraBook | ExtraRecord
    | TaxableValueDiffers | TaxDiffers

  datatype MatchResult = MatchResult(
    status: Status,
    supplierGstin: Option<string>,
    number: Option<string>,
    date: Option<string>,
    bookId: Option<nat>,
    recordId: Option<nat>,
    bookTaxable: Option<int>,
    bookTax: Option<int>,
    returnTaxable: Option<int>,
    returnTax: Option<int>,
    taxableDifference: int,
    taxDifference: int,
    itcAtRisk: int,
    reasons: seq<Reason>)

  datatype Tolerances = Tolerances(taxable: int, tax: int)

  const DEFAULT_TOLERANCES := Tolerances(100, 100)

  function MissingFromReturn(b: BookInvoice, reason: Reason): MatchResult {
    MatchResult(MissingInReturn, b.supplierGstin, b.number, b.date, Some(b.id), None,
                Some(b.taxable), Some(b.tax), None, None, b.taxable, b.tax, b.tax, [reason])
  }

  function MissingFromBooks(r: ReturnRecord, reason: Reason): MatchResult {
    MatchResult(MissingInBooks, r.supplierGstin, r.number, r.date, None, Some(r.id),
                None, None, Some(r.taxable), Some(r.tax), r.taxable, r.tax, 0, [reason])
  }

  function Paired(b: BookInvoice, r: ReturnRecord, tol: Tolerances): MatchResult {
    var taxableDiff, taxDiff := Abs(b.taxable - r.taxable), Abs(b.tax - r.tax);
    var agrees := taxableDiff <= tol.taxable && taxDiff <= tol.tax;
    MatchResult(if agrees then Matched else Mismatch, b.supplierGstin, b.number, b.date, Some(b.id), Some(r.id),
                Some(b.taxable), Some(b.tax), Some(r.taxable), Some(r.tax), taxableDiff, taxDiff,
                if !agrees && b.tax > r.tax then b.tax - r.tax else 0,
                (if taxableDiff > tol.taxable then [TaxableValueDiffers] else []) + (if taxDiff > tol.tax then [TaxDiffers] else []))
  }

  function BookReason(k: Key, records: seq<Key>): Reason {
    if IsBlank(k) then BookNumberBlank else if Count(records, k) == 0 then NotReported else ExtraBook
  }

  function RecordReason(k: Key, books: seq<Key>): Reason {
    if IsBlank(k) then RecordNumberBlank else if Count(books, k) == 0 then NotRecorded else ExtraRecord
  }

  /** The input at a position; a reconciliation holds no position outside its inputs. */
  function BookAt(books: seq<BookInvoice>, i: nat): BookInvoice {
    if i < |books| then books[i] else BookInvoice(0, None, None, None, 0, 0)
  }

  function RecordAt(records: seq<ReturnRecord>, j: nat): ReturnRecord {
    if j < |records| then records[j] else ReturnRecord(0, None, None, None, None, 0, 0)
  }

  /** What is reported for a pairing. */
  function Report(books: seq<BookInvoice>, records: seq<ReturnRecord>, tol: Tolerances): Pairing -> MatchResult {
    (p: Pairing) =>
      match p
      case Pair(i, j) => Paired(BookAt(books, i), RecordAt(records, j), tol)
      case BookOnly(i) =>
        var b := BookAt(books, i); MissingFromReturn(b, BookReason(BookKey(b), RecordKeys(records)))
      case RecordOnly(j) =>
        var r := RecordAt(records, j); MissingFromBooks(r, RecordReason(RecordKey(r), BookKeys(books)))
  }

  // --------------------------------------------------------- positions and ranks

  lemma {:induction false} PositionsAt(keys: seq<Key>, k: Key, t: nat)
    requires t < Count(keys, k)
    ensures var i := Positions(keys, k)[t]; i < |keys| && keys[i] == k && Rank(keys, i) == t
  {
    var n := |keys| - 1;
    if t < Count(keys[..n], k) {
      PositionsAt(keys[..n], k, t);
      var i := Positions(keys[..n], k)[t];
      assert keys[..n][..i] == keys[..i];
    }
  }

  lemma {:induction false} PositionOf(keys: seq<Key>, i: nat)
    requires i < |keys|
    ensures Rank(keys, i) < Count(keys, keys[i]) && Positions(keys, keys[i])[Rank(keys, i)] == i
  {
    var n := |keys| - 1;
    if i < n {
      PositionOf(keys[..n], i);
      assert keys[..n][..i] == keys[..i];
    }
  }

  /** Position and rank determine each other within a key. */
  lemma SameRankSamePosition(keys: seq<Key>, i: nat, j: nat)
    requires i < |keys| && j < |keys| && keys[i] == keys[j] && Rank(keys, i) == Rank(keys, j)
    ensures i == j
  {
    PositionOf(keys, i);
    PositionOf(keys, j);
  }

  // ---------------------------------------------------- laws of a reconciliation

  function BookSide(pairing: seq<Pairing>): seq<nat> {
    if pairing == [] then [] else
      var p := pairing[|pairing| - 1];
      BookSide(pairing[..|pairing| - 1]) + if p.RecordOnly? then [] else [p.book]
  }

  function RecordSide(pairing: seq<Pairing>): seq<nat> {
    if pairing == [] then [] else
      var p := pairing[|pairing| - 1];
      RecordSide(pairing[..|pairing| - 1]) + if p.BookOnly? then [] else [p.record]
  }

  /** Two results of one reconciliation with the same book are the same result. */
  lemma OneResultPerBook(p: Pairing, q: Pairing, books: seq<Key>, records: seq<Key>)
    requires Belongs(p, books, records) && Belongs(q, books, records)
    requires !p.RecordOnly? && !q.RecordOnly? && p.book == q.book
    ensures p == q
  {
    if p.Pair? {
      PositionOf(records, p.record);
    }
    if q.Pair? {
      PositionOf(records, q.record);
    }
    if p.Pair? && q.Pair? {
      SameRankSamePosition(records, p.record, q.record);
    }
  }

  lemma OneResultPerRecord(p: Pairing, q: Pairing, books: seq<Key>, records: seq<Key>)
    requires Belongs(p, books, records) && Belongs(q, books, records)
    requires !p.BookOnly? && !q.BookOnly? && p.record == q.record
    ensures p == q
  {
    if p.Pair? {
      PositionOf(books, p.book);
    }
    if q.Pair? {
      PositionOf(books, q.book);
    }
    if p.Pair? && q.Pair? {
      SameRankSamePosition(books, p.book, q.book);
    }
  }

  /** Every book has a result. */
  lemma ResultOfBook(i: nat, books: seq<Key>, records: seq<Key>) returns (p: Pairing)
    requires i < |books|
    ensures Belongs(p, books, records) && !p.RecordOnly? && p.book == i
  {
    p := BookOnly(i);
    if !IsBlank(books[i]) && Rank(books, i) < Count(records, books[i]) {
      PositionsAt(records, books[i], Rank(books, i));
      p := Pair(i, Positions(records, books[i])[Rank(books, i)]);
    }
  }

  lemma ResultOfRecord(j: nat, books: seq<Key>, records: seq<Key>) returns (p: Pairing)
    requires j < |records|
    ensures Belongs(p, books, records) && !p.BookOnly? && p.record == j
  {
    p := RecordOnly(j);
    if !IsBlank(records[j]) && Rank(records, j) < Count(books, records[j]) {
      PositionsAt(books, records[j], Rank(records, j));
      p := Pair(Positions(books, records[j])[Rank(records, j)], j);
    }
  }

  lemma {:induction false} BookSideIndex(pairing: seq<Pairing>, i: nat) returns (a: nat)
    requires i in BookSide(pairing)
    ensures a < |pairing| && !pairing[a].RecordOnly? && pairing[a].book == i
  {
    var n := |pairing| - 1;
    if i in BookSide(pairing[..n]) {
      a := BookSideIndex(pairing[..n], i);
    } else {
      a := n;
    }
  }

  lemma {:induction false} InBookSide(pairing: seq<Pairing>, p: Pairing)
    requires p in pairing && !p.RecordOnly?
    ensures p.book in BookSide(pairing)
  {
    var init, last := pairing[..|pairing| - 1], pairing[|pairing| - 1];
    if p in init {
      InBookSide(init, p);
    }
  }

  ghost predicate DistinctBooks(pairing: seq<Pairing>) {
    forall a, b :: 0 <= a < b < |pairing| && !pairing[a].RecordOnly? && !pairing[b].RecordOnly? ==> pairing[a].book != pairing[b].book
  }

  lemma {:induction false} BookSideDistinct(pairing: seq<Pairing>)
    requires DistinctBooks(pairing)
    ensures NoDuplicates(BookSide(pairing))
  {
    if pairing != [] {
      var init, last := pairing[..|pairing| - 1], pairing[|pairing| - 1];
      BookSideDistinct(init);
      if !last.RecordOnly? && last.book in BookSide(init) {
        var a := BookSideIndex(init, last.book);
        assert false;
      }
    }
  }

  lemma {:induction false} RecordSideIndex(pairing: seq<Pairing>, i: nat) returns (a: nat)
    requires i in RecordSide(pairing)
    ensures a < |pairing| && !pairing[a].BookOnly? && pairing[a].record == i
  {
    var n := |pairing| - 1;
    if i in RecordSide(pairing[..n]) {
      a := RecordSideIndex(pairing[..n], i);
    } else {
      a := n;
    }
  }

  lemma {:induction false} InRecordSide(pairing: seq<Pairing>, p: Pairing)
    requires p in pairing && !p.BookOnly?
    ensures p.record in RecordSide(pairing)
  {
    var init, last := pairing[..|pairing| - 1], pairing[|pairing| - 1];
    if p in init {
      InRecordSide(init, p);
    }
  }

  ghost predicate DistinctRecords(pairing: seq<Pairing>) {
    forall a, b :: 0 <= a < b < |pairing| && !pairing[a].BookOnly? && !pairing[b].BookOnly? ==> pairing[a].record != pairing[b].record
  }

  lemma {:induction false} RecordSideDistinct(pairing: seq<Pairing>)
    requires DistinctRecords(pairing)
    ensures NoDuplicates(RecordSide(pairing))
  {
    if pairing != [] {
      var init, last := pairing[..|pairing| - 1], pairing[|pairing| - 1];
      RecordSideDistinct(init);
      if !last.BookOnly? && last.record in RecordSide(init) {
        var a := RecordSideIndex(init, last.record);
        assert false;
      }
    }
  }

  /** Every book invoice and every return record occurs in exactly one result. */
  lemma ExactPartition(pairing: seq<Pairing>, books: seq<Key>, records: seq<Key>)
    requires IsReconciliation(pairing, books, records)
    ensures multiset(BookSide(pairing)) == multiset(Range(|books|))
    ensures multiset(RecordSide(pairing)) == multiset(Range(|records|))
  {
    BooksOnce(pairing, books, records);
    RecordsOnce(pairing, books, records);
  }

  lemma BooksOnce(pairing: seq<Pairing>, books: seq<Key>, records: seq<Key>)
    requires IsReconciliation(pairing, books, records)
    ensures multiset(BookSide(pairing)) == multiset(Range(|books|))
  {
    forall a, b | 0 <= a < b < |pairing| && !pairing[a].RecordOnly? && !pairing[b].RecordOnly? ensures pairing[a].book != pairing[b].book {
      if pairing[a].book == pairing[b].book {
        OneResultPerBook(pairing[a], pairing[b], books, records);
      }
    }
    BookSideDistinct(pairing);
    forall i: nat ensures i in BookSide(pairing) <==> i in Range(|books|) {
      if i < |books| {
        var p := ResultOfBook(i, books, records);
        InBookSide(pairing, p);
        assert Range(|books|)[i] == i;
      }
      if i in BookSide(pairing) {
        var a := BookSideIndex(pairing, i);
        assert pairing[a] in pairing;
        assert Range(|books|)[i] == i;
      }
    }
    SameElementsPermute(BookSide(pairing), Range(|books|));
  }

  lemma RecordsOnce(pairing: seq<Pairing>, books: seq<Key>, records: seq<Key>)
    requires IsReconciliation(pairing, books, records)
    ensures multiset(RecordSide(pairing)) == multiset(Range(|records|))
  {
    forall a, b | 0 <= a < b < |pairing| && !pairing[a].BookOnly? && !pairing[b].BookOnly? ensures pairing[a].record != pairing[b].record {
      if pairing[a].record == pairing[b].record {
        OneResultPerRecord(pairing[a], pairing[b], books, records);
      }
    }
    RecordSideDistinct(pairing);
    forall i: nat ensures i in RecordSide(pairing) <==> i in Range(|records|) {
      if i < |records| {
        var p := ResultOfRecord(i, books, records);
        InRecordSide(pairing, p);
        assert Range(|records|)[i] == i;
      }
      if i in RecordSide(pairing) {
        var a := RecordSideIndex(pairing, i);
        assert pairing[a] in pairing;
        assert Range(|records|)[i] == i;
      }
    }
    SameElementsPermute(RecordSide(pairing), Range(|records|));
  }

  /** No key is left with unmatched rows on both sides. */
  lemma NoKeyUnmatchedOnBothSides(i: nat, j: nat, books: seq<Key>, records: seq<Key>)
    requires Belongs(BookOnly(i), books, records) && Belongs(RecordOnly(j), books, records)
    ensures books[i] != records[j] || IsBlank(books[i])
  {
    PositionOf(books, i);
    PositionOf(records, j);
  }

  // ----------------------------------------------------------- maximum matching

  function PairOfKey(books: seq<Key>, k: Key): Pairing -> bool {
    (p: Pairing) => p.Pair? && p.book < |books| && books[p.book] == k
  }

  predicate IsPair(p: Pairing) { p.Pair? }

  function Zip(bs: seq<nat>, rs: seq<nat>): (r: seq<Pairing>) {
    seq(Min(|bs|, |rs|), t requires 0 <= t < Min(|bs|, |rs|) => Pair(bs[t], rs[t]))
  }

  function Min(a: nat, b: nat): nat { if a < b then a else b }

  lemma ZipFacts(books: seq<Key>, records: seq<Key>, k: Key)
    ensures NoDuplicates(Zip(Positions(books, k), Positions(records, k)))
    ensures !IsBlank(k) ==> forall p :: p in Zip(Positions(books, k), Positions(records, k)) <==>
              Belongs(p, books, records) && PairOfKey(books, k)(p)
  {
    var zip := Zip(Positions(books, k), Positions(records, k));
    forall s, t | 0 <= s < t < |zip| ensures zip[s] != zip[t] {
      PositionsAt(books, k, s);
      PositionsAt(books, k, t);
    }
    if !IsBlank(k) {
      forall p ensures p in zip <==> Belongs(p, books, records) && PairOfKey(books, k)(p) {
        if p in zip {
          var t :| 0 <= t < |zip| && zip[t] == p;
          PositionsAt(books, k, t);
          PositionsAt(records, k, t);
        }
        if Belongs(p, books, records) && PairOfKey(books, k)(p) {
          PositionOf(books, p.book);
          PositionOf(records, p.record);
          assert zip[Rank(books, p.book)] == p;
        }
      }
    }
  }

  lemma {:induction false} FilterNoDuplicates<T(!new)>(s: seq<T>, p: T -> bool)
    requires NoDuplicates(s)
    ensures NoDuplicates(Filter(s, p))
  {
    if s != [] {
      FilterNoDuplicates(s[..|s| - 1], p);
    }
  }

  /** A key with b books and r records yields exactly min(b, r) pairs. */
  lemma PairsPerKey(pairing: seq<Pairing>, books: seq<Key>, records: seq<Key>, k: Key)
    requires IsReconciliation(pairing, books, records) && !IsBlank(k)
    ensures |Filter(pairing, PairOfKey(books, k))| == Min(Count(books, k), Count(records, k))
  {
    var zip := Zip(Positions(books, k), Positions(records, k));
    ZipFacts(books, records, k);
    FilterNoDuplicates(pairing, PairOfKey(books, k));
    SameElementsPermute(Filter(pairing, PairOfKey(books, k)), zip);
    assert |multiset(Filter(pairing, PairOfKey(books, k)))| == |multiset(zip)|;
  }

  /** Any other way of pairing books with records of the same non-blank key. */
  ghost predicate IsMatching(m: seq<Pairing>, books: seq<Key>, records: seq<Key>) {
    && (forall p :: p in m ==> p.Pair? && p.book < |books| && p.record < |records| && books[p.book] == records[p.record] && !IsBlank(books[p.book]))
    && (forall a, b :: 0 <= a < b < |m| ==> m[a].Pair? && m[b].Pair? && m[a].book != m[b].book && m[a].record != m[b].record)
  }

  /** The result that covers a pair of another matching: through its book if its key has no more books than
      records, and through its record otherwise. */
  lemma CoveringPair(p: Pairing, books: seq<Key>, records: seq<Key>) returns (q: Pairing)
    requires p.Pair? && p.book < |books| && p.record < |records| && books[p.book] == records[p.record] && !IsBlank(books[p.book])
    ensures q.Pair? && Belongs(q, books, records) && books[q.book] == books[p.book]
    ensures if Count(books, books[p.book]) <= Count(records, books[p.book]) then q.book == p.book else q.record == p.record
  {
    PositionOf(books, p.book);
    PositionOf(records, p.record);
    if Count(books, books[p.book]) <= Count(records, books[p.book]) {
      q := ResultOfBook(p.book, books, records);
    } else {
      q := ResultOfRecord(p.record, books, records);
    }
  }

  lemma {:induction false} CoveringPairs(m: seq<Pairing>, books: seq<Key>, records: seq<Key>) returns (c: seq<Pairing>)
    requires IsMatching(m, books, records)
    ensures |c| == |m| && NoDuplicates(c)
    ensures forall a :: 0 <= a < |c| ==>
              && c[a].Pair? && Belongs(c[a], books, records) && books[c[a].book] == books[m[a].book]
              && if Count(books, books[m[a].book]) <= Count(records, books[m[a].book]) then c[a].book == m[a].book else c[a].record == m[a].record
  {
    if m == [] {
      c := [];
    } else {
      var init, last := m[..|m| - 1], m[|m| - 1];
      assert IsMatching(init, books, records) by {
        assert forall p :: p in init ==> p in m;
      }
      c := CoveringPairs(init, books, records);
      var q := CoveringPair(last, books, records);
      forall a | 0 <= a < |c| ensures c[a] != q {
        assert m[a].book != last.book && m[a].record != last.record;
      }
      c := c + [q];
    }
  }

  lemma {:induction false} NoMoreThan<T(!new)>(s: seq<T>, t: seq<T>)
    requires NoDuplicates(s) && forall x :: x in s ==> x in t
    ensures |s| <= |t|
  {
    if s != [] {
      var n := |s| - 1;
      assert s[n] in s;
      var i :| 0 <= i < |t| && t[i] == s[n];
      var rest := t[..i] + t[i + 1..];
      forall x | x in s[..n] ensures x in rest {
        var a :| 0 <= a < n && s[a] == x;
        assert s[a] in s;
        var b :| 0 <= b < |t| && t[b] == x;
        assert b < i ==> rest[b] == x;
        assert b > i ==> rest[b - 1] == x;
      }
      NoMoreThan(s[..n], rest);
    }
  }

  /** No other matching of equal keys pairs more rows. */
  lemma PairsAreMaximum(pairing: seq<Pairing>, m: seq<Pairing>, books: seq<Key>, records: seq<Key>)
    requires IsReconciliation(pairing, books, records) && IsMatching(m, books, records)
    ensures |m| <= |Filter(pairing, IsPair)|
  {
    var c := CoveringPairs(m, books, records);
    forall q | q in c ensures q in Filter(pairing, IsPair) {
      var a :| 0 <= a < |c| && c[a] == q;
    }
    NoMoreThan(c, Filter(pairing, IsPair));
  }
}
