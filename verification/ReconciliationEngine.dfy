/** The matching loop itself, its summary, and the audit inequality on tax at risk. */
module ReconciliationEngine {
  import opened Util
  import opened Reconciliation

  // ------------------------------------------------------- grouping by key

  function BlankPositions(keys: seq<Key>): seq<nat> {
    if keys == [] then [] else
      BlankPositions(keys[..|keys| - 1]) + if IsBlank(keys[|keys| - 1]) then [|keys| - 1] else []
  }

  /** Positions of each non-blank key in a dictionary, with its keys in insertion order, and the blank positions. */
  ghost predicate Grouped(keys: seq<Key>, groups: map<Key, seq<nat>>, order: seq<Key>, blank: seq<nat>) {
    && NoDuplicates(order)
    && (forall k :: k in order <==> k in groups)
    && (forall k :: k in groups <==> k in keys && !IsBlank(k))
    && (forall k :: k in groups ==> groups[k] == Positions(keys, k))
    && blank == BlankPositions(keys)
  }

  datatype Grouping = Grouping(groups: map<Key, seq<nat>>, order: seq<Key>, blank: seq<nat>)

  function FileKey(g: Grouping, k: Key, i: nat): Grouping {
    if IsBlank(k) then g.(blank := g.blank + [i])
    else if k in g.groups then g.(groups := g.groups[k := g.groups[k] + [i]])
    else g.(groups := g.groups[k := [i]], order := g.order + [k])
  }

  function GroupAll(keys: seq<Key>): Grouping {
    if keys == [] then Grouping(map[], [], [])
    else FileKey(GroupAll(keys[..|keys| - 1]), keys[|keys| - 1], |keys| - 1)
  }

  /** The non-blank keys in order of first use. */
  function Order(keys: seq<Key>): seq<Key> { GroupAll(keys).order }

  method GroupByKey(keys: seq<Key>) returns (groups: map<Key, seq<nat>>, order: seq<Key>, blank: seq<nat>)
    ensures Grouped(keys, groups, order, blank) && order == Order(keys)
  {
    groups, order, blank := map[], [], [];
    var i := 0;
    while i < |keys|
      invariant 0 <= i <= |keys|
      invariant Grouping(groups, order, blank) == GroupAll(keys[..i])
    {
      var k := keys[i];
      assert keys[..i + 1][..i] == keys[..i];
      if !IsBlank(k) {
        if k in groups {
          groups := groups[k := groups[k] + [i]];
        } else {
          groups := groups[k := [i]];
          order := order + [k];
        }
      } else {
        blank := blank + [i];
      }
      i := i + 1;
    }
    assert keys[..|keys|] == keys;
    GroupAllFacts(keys);
  }

  lemma {:induction false} GroupAllFacts(keys: seq<Key>)
    ensures var g := GroupAll(keys); Grouped(keys, g.groups, g.order, g.blank)
  {
    if keys != [] {
      var init, k := keys[..|keys| - 1], keys[|keys| - 1];
      var g := GroupAll(init);
      GroupAllFacts(init);
      assert keys == init + [k];
      if IsBlank(k) {
        BlankStep(init, k, g.groups, g.order, g.blank);
      } else {
        GroupStep(init, k, g.groups, g.order, g.blank);
      }
    }
  }

  lemma PositionsStep(keys: seq<Key>, k: Key, q: Key)
    ensures Positions(keys + [k], q) == Positions(keys, q) + if k == q then [|keys|] else []
  {
    assert (keys + [k])[..|keys|] == keys;
  }

  lemma BlankStep(keys: seq<Key>, k: Key, groups: map<Key, seq<nat>>, order: seq<Key>, blank: seq<nat>)
    requires Grouped(keys, groups, order, blank) && IsBlank(k)
    ensures Grouped(keys + [k], groups, order, blank + [|keys|])
  {
    assert (keys + [k])[..|keys|] == keys;
    forall q | q in groups ensures groups[q] == Positions(keys + [k], q) {
      PositionsStep(keys, k, q);
    }
  }

  lemma GroupStep(keys: seq<Key>, k: Key, groups: map<Key, seq<nat>>, order: seq<Key>, blank: seq<nat>)
    requires Grouped(keys, groups, order, blank) && !IsBlank(k)
    ensures k in groups ==> Grouped(keys + [k], groups[k := groups[k] + [|keys|]], order, blank)
    ensures k !in groups ==> Grouped(keys + [k], groups[k := [|keys|]], order + [k], blank)
  {
    assert (keys + [k])[..|keys|] == keys;
    NoPositions(keys, k);
    forall q ensures Positions(keys + [k], q) == Positions(keys, q) + if k == q then [|keys|] else [] {
      PositionsStep(keys, k, q);
    }
  }

  lemma {:induction false} NoPositions(keys: seq<Key>, k: Key)
    ensures k !in keys <==> Positions(keys, k) == []
  {
    if keys != [] {
      NoPositions(keys[..|keys| - 1], k);
      assert keys == keys[..|keys| - 1] + [keys[|keys| - 1]];
    }
  }

  // --------------------------------------------- the results in code order

  function LoneBooks(bs: seq<nat>): seq<Pairing> {
    seq(|bs|, t requires 0 <= t < |bs| => BookOnly(bs[t]))
  }

  function LoneRecords(rs: seq<nat>): seq<Pairing> {
    seq(|rs|, t requires 0 <= t < |rs| => RecordOnly(rs[t]))
  }

  /** The results of one key: pairs in step, then what is left over on either side. */
  function KeyBlock(bs: seq<nat>, rs: seq<nat>): seq<Pairing> {
    var m := Min(|bs|, |rs|);
    Zip(bs, rs) + LoneBooks(bs[m..]) + LoneRecords(rs[m..])
  }

  function BookBlocks(order: seq<Key>, books: seq<Key>, records: seq<Key>): seq<Pairing> {
    if order == [] then [] else
      var k := order[|order| - 1];
      BookBlocks(order[..|order| - 1], books, records) + KeyBlock(Positions(books, k), Positions(records, k))
  }

  function RecordBlocks(order: seq<Key>, books: seq<Key>, records: seq<Key>): seq<Pairing> {
    if order == [] then [] else
      var k := order[|order| - 1];
      RecordBlocks(order[..|order| - 1], books, records) + if k in books then [] else LoneRecords(Positions(records, k))
  }

  /** The key a result is about. */
  function KeyOf(p: Pairing, books: seq<Key>, records: seq<Key>): Key
    requires Belongs(p, books, records)
  {
    if p.RecordOnly? then records[p.record] else books[p.book]
  }

  ghost predicate BelongsTo(p: Pairing, k: Key, books: seq<Key>, records: seq<Key>) {
    Belongs(p, books, records) && KeyOf(p, books, records) == k
  }

  /** Exactly the results of a key, each once. */
  ghost predicate IsBlockOf(block: seq<Pairing>, k: Key, books: seq<Key>, records: seq<Key>) {
    NoDuplicates(block) && forall p :: p in block <==> BelongsTo(p, k, books, records)
  }

  lemma LeftoverBooks(k: Key, books: seq<Key>, records: seq<Key>, p: Pairing)
    requires !IsBlank(k)
    ensures var bs := Positions(books, k);
            p in LoneBooks(bs[Min(|bs|, Count(records, k))..]) <==> p.BookOnly? && BelongsTo(p, k, books, records)
  {
    var bs := Positions(books, k);
    var m := Min(|bs|, Count(records, k));
    var lone := LoneBooks(bs[m..]);
    if p in lone {
      var t :| 0 <= t < |lone| && lone[t] == p;
      PositionsAt(books, k, m + t);
    }
    if p.BookOnly? && BelongsTo(p, k, books, records) {
      PositionOf(books, p.book);
      assert lone[Rank(books, p.book) - m] == p;
    }
  }

  lemma LeftoverRecords(k: Key, books: seq<Key>, records: seq<Key>, p: Pairing)
    requires !IsBlank(k)
    ensures var rs := Positions(records, k);
            p in LoneRecords(rs[Min(Count(books, k), |rs|)..]) <==> p.RecordOnly? && BelongsTo(p, k, books, records)
  {
    var rs := Positions(records, k);
    var m := Min(Count(books, k), |rs|);
    var lone := LoneRecords(rs[m..]);
    if p in lone {
      var t :| 0 <= t < |lone| && lone[t] == p;
      PositionsAt(records, k, m + t);
    }
    if p.RecordOnly? && BelongsTo(p, k, books, records) {
      PositionOf(records, p.record);
      assert lone[Rank(records, p.record) - m] == p;
    }
  }

  lemma KeyBlockElement(k: Key, books: seq<Key>, records: seq<Key>, p: Pairing)
    requires !IsBlank(k)
    ensures p in KeyBlock(Positions(books, k), Positions(records, k)) <==> BelongsTo(p, k, books, records)
  {
    ZipFacts(books, records, k);
    LeftoverBooks(k, books, records, p);
    LeftoverRecords(k, books, records, p);
  }

  lemma PositionsDistinct(keys: seq<Key>, k: Key)
    ensures NoDuplicates(Positions(keys, k))
  {
    forall s, t | 0 <= s < t < Count(keys, k) ensures Positions(keys, k)[s] != Positions(keys, k)[t] {
      PositionsAt(keys, k, s);
      PositionsAt(keys, k, t);
    }
  }

  lemma ConcatNoDuplicates<T(!new)>(s: seq<T>, t: seq<T>)
    requires NoDuplicates(s) && NoDuplicates(t) && forall x :: x in s ==> x !in t
    ensures NoDuplicates(s + t)
  {
    forall i, j | 0 <= i < j < |s + t| ensures (s + t)[i] != (s + t)[j] {
      if i < |s| <= j {
        assert (s + t)[i] in s && (s + t)[j] in t;
      }
    }
  }

  lemma KeyBlockIsBlock(k: Key, books: seq<Key>, records: seq<Key>)
    requires !IsBlank(k)
    ensures IsBlockOf(KeyBlock(Positions(books, k), Positions(records, k)), k, books, records)
  {
    var bs, rs := Positions(books, k), Positions(records, k);
    var m := Min(|bs|, |rs|);
    forall p ensures p in KeyBlock(bs, rs) <==> BelongsTo(p, k, books, records) {
      KeyBlockElement(k, books, records, p);
    }
    ZipFacts(books, records, k);
    PositionsDistinct(books, k);
    PositionsDistinct(records, k);
    assert NoDuplicates(LoneBooks(bs[m..])) && NoDuplicates(LoneRecords(rs[m..]));
    ConcatNoDuplicates(Zip(bs, rs), LoneBooks(bs[m..]));
    ConcatNoDuplicates(Zip(bs, rs) + LoneBooks(bs[m..]), LoneRecords(rs[m..]));
  }

  /** Exactly the results of the keys in a list, each once. */
  ghost predicate Covers(block: seq<Pairing>, order: seq<Key>, books: seq<Key>, records: seq<Key>) {
    NoDuplicates(block) && forall p :: p in block <==> Belongs(p, books, records) && KeyOf(p, books, records) in order
  }

  lemma AppendBlock(all: seq<Pairing>, order: seq<Key>, block: seq<Pairing>, k: Key, books: seq<Key>, records: seq<Key>)
    requires Covers(all, order, books, records) && IsBlockOf(block, k, books, records) && k !in order
    ensures Covers(all + block, order + [k], books, records)
  {
    ConcatNoDuplicates(all, block);
    forall p ensures p in all + block <==> Belongs(p, books, records) && KeyOf(p, books, records) in order + [k] {
      assert p in all + block <==> p in all || p in block;
    }
  }

  lemma {:induction false} BookBlocksCover(order: seq<Key>, books: seq<Key>, records: seq<Key>)
    requires NoDuplicates(order) && forall k :: k in order ==> !IsBlank(k)
    ensures Covers(BookBlocks(order, books, records), order, books, records)
  {
    if order != [] {
      var init, k := order[..|order| - 1], order[|order| - 1];
      BookBlocksCover(init, books, records);
      KeyBlockIsBlock(k, books, records);
      InitAndLast(order);
      assert k in order && k !in init;
      AppendBlock(BookBlocks(init, books, records), init, KeyBlock(Positions(books, k), Positions(records, k)), k, books, records);
    }
  }

  /** The record blocks are the results of the listed keys that no book has. */
  lemma {:induction false} RecordBlocksCover(order: seq<Key>, books: seq<Key>, records: seq<Key>)
    requires NoDuplicates(order) && forall k :: k in order ==> !IsBlank(k)
    ensures Covers(RecordBlocks(order, books, records), Filter(order, NotIn(books)), books, records)
  {
    if order != [] {
      var init, k := order[..|order| - 1], order[|order| - 1];
      RecordBlocksCover(init, books, records);
      assert order == init + [k] && k in order;
      if k in books {
        assert RecordBlocks(order, books, records) == RecordBlocks(init, books, records);
        assert Filter(order, NotIn(books)) == Filter(init, NotIn(books));
      } else {
        KeyBlockIsBlock(k, books, records);
        NoPositions(books, k);
        assert KeyBlock(Positions(books, k), Positions(records, k)) == LoneRecords(Positions(records, k));
        AppendBlock(RecordBlocks(init, books, records), Filter(init, NotIn(books)), LoneRecords(Positions(records, k)), k, books, records);
      }
    }
  }

  function NotIn(books: seq<Key>): Key -> bool { (k: Key) => k !in books }

  lemma {:induction false} BlankPositionsFacts(keys: seq<Key>)
    ensures NoDuplicates(BlankPositions(keys))
    ensures forall i: nat :: i in BlankPositions(keys) <==> i < |keys| && IsBlank(keys[i])
  {
    if keys != [] {
      var init := keys[..|keys| - 1];
      BlankPositionsFacts(init);
      assert forall i :: i in BlankPositions(init) ==> i != |keys| - 1;
      ConcatNoDuplicates(BlankPositions(init), if IsBlank(keys[|keys| - 1]) then [|keys| - 1] else []);
    }
  }

  /** The order of the results as the code produces them. */
  function AllResults(books: seq<Key>, records: seq<Key>, bookOrder: seq<Key>, recordOrder: seq<Key>): seq<Pairing> {
    LoneBooks(BlankPositions(books)) + LoneRecords(BlankPositions(records))
    + BookBlocks(bookOrder, books, records) + RecordBlocks(recordOrder, books, records)
  }

  lemma BlankResults(books: seq<Key>, records: seq<Key>)
    ensures var s := LoneBooks(BlankPositions(books)) + LoneRecords(BlankPositions(records));
            NoDuplicates(s) && forall p :: p in s <==> Belongs(p, books, records) && IsBlank(KeyOf(p, books, records))
  {
    var lb, lr := LoneBooks(BlankPositions(books)), LoneRecords(BlankPositions(records));
    BlankPositionsFacts(books);
    BlankPositionsFacts(records);
    forall p ensures p in lb <==> Belongs(p, books, records) && p.BookOnly? && IsBlank(KeyOf(p, books, records)) {
      if p.BookOnly? && p.book in BlankPositions(books) {
        var t :| 0 <= t < |BlankPositions(books)| && BlankPositions(books)[t] == p.book;
        assert lb[t] == p;
      }
    }
    forall p ensures p in lr <==> Belongs(p, books, records) && p.RecordOnly? && IsBlank(KeyOf(p, books, records)) {
      if p.RecordOnly? && p.record in BlankPositions(records) {
        var t :| 0 <= t < |BlankPositions(records)| && BlankPositions(records)[t] == p.record;
        assert lr[t] == p;
      }
    }
    ConcatNoDuplicates(lb, lr);
  }

  lemma AllResultsReconcile(books: seq<Key>, records: seq<Key>, bookOrder: seq<Key>, recordOrder: seq<Key>)
    requires NoDuplicates(bookOrder) && forall k :: k in bookOrder <==> k in books && !IsBlank(k)
    requires NoDuplicates(recordOrder) && forall k :: k in recordOrder <==> k in records && !IsBlank(k)
    ensures IsReconciliation(AllResults(books, records, bookOrder, recordOrder), books, records)
  {
    var blank := LoneBooks(BlankPositions(books)) + LoneRecords(BlankPositions(records));
    var byBook, byRecord := BookBlocks(bookOrder, books, records), RecordBlocks(recordOrder, books, records);
    BlankResults(books, records);
    BookBlocksCover(bookOrder, books, records);
    RecordBlocksCover(recordOrder, books, records);
    ConcatNoDuplicates(blank, byBook);
    ConcatNoDuplicates(blank + byBook, byRecord);
    forall p ensures p in blank + byBook + byRecord <==> Belongs(p, books, records) {
      assert p in blank + byBook + byRecord <==> p in blank || p in byBook || p in byRecord;
      if Belongs(p, books, records) {
        var k := KeyOf(p, books, records);
        assert k in books || k in records;
      }
    }
  }

  // ---------------------------------------------------------- the algorithm

  /** Reports invoices of the books as missing in the return, all for the same reason. */
  method EmitBooks(books: seq<BookInvoice>, bs: seq<nat>, reason: Reason, ghost f: Pairing -> MatchResult)
    returns (results: seq<MatchResult>)
    requires forall t :: 0 <= t < |bs| ==> bs[t] < |books| && f(BookOnly(bs[t])) == MissingFromReturn(books[bs[t]], reason)
    ensures results == Map(LoneBooks(bs), f)
  {
    results := [];
    var i := 0;
    while i < |bs|
      invariant 0 <= i <= |bs|
      invariant |results| == i
      invariant forall t :: 0 <= t < i ==> results[t] == f(BookOnly(bs[t]))
    {
      results := results + [MissingFromReturn(books[bs[i]], reason)];
      i := i + 1;
    }
  }

  /** Reports return records as missing in the books, all for the same reason. */
  method EmitRecords(records: seq<ReturnRecord>, rs: seq<nat>, reason: Reason, ghost f: Pairing -> MatchResult)
    returns (results: seq<MatchResult>)
    requires forall t :: 0 <= t < |rs| ==> rs[t] < |records| && f(RecordOnly(rs[t])) == MissingFromBooks(records[rs[t]], reason)
    ensures results == Map(LoneRecords(rs), f)
  {
    results := [];
    var i := 0;
    while i < |rs|
      invariant 0 <= i <= |rs|
      invariant |results| == i
      invariant forall t :: 0 <= t < i ==> results[t] == f(RecordOnly(rs[t]))
    {
      results := results + [MissingFromBooks(records[rs[i]], reason)];
      i := i + 1;
    }
  }

  method EmitPairs(books: seq<BookInvoice>, records: seq<ReturnRecord>, tol: Tolerances, invs: seq<nat>, recs: seq<nat>,
                   ghost f: Pairing -> MatchResult)
    returns (results: seq<MatchResult>)
    requires forall t :: 0 <= t < Min(|invs|, |recs|) ==>
               invs[t] < |books| && recs[t] < |records| && f(Pair(invs[t], recs[t])) == Paired(books[invs[t]], records[recs[t]], tol)
    ensures results == Map(Zip(invs, recs), f)
  {
    results := [];
    var i := 0;
    while i < |invs| && i < |recs|
      invariant 0 <= i <= Min(|invs|, |recs|)
      invariant |results| == i
      invariant forall t :: 0 <= t < i ==> results[t] == f(Pair(invs[t], recs[t]))
    {
      var result := ComparePair(books[invs[i]], records[recs[i]], tol);
      results := results + [result];
      i := i + 1;
    }
  }

  method ComparePair(inv: BookInvoice, rec: ReturnRecord, tol: Tolerances) returns (result: MatchResult)
    ensures result == Paired(inv, rec, tol)
  {
    var taxableDiff, taxDiff := Abs(inv.taxable - rec.taxable), Abs(inv.tax - rec.tax);
    if taxableDiff <= tol.taxable && taxDiff <= tol.tax {
      return MatchResult(Matched, inv.supplierGstin, inv.number, inv.date, Some(inv.id), Some(rec.id),
                         Some(inv.taxable), Some(inv.tax), Some(rec.taxable), Some(rec.tax), taxableDiff, taxDiff, 0, []);
    }
    var reasons: seq<Reason> := [];
    if taxableDiff > tol.taxable {
      reasons := reasons + [TaxableValueDiffers];
    }
    if taxDiff > tol.tax {
      reasons := reasons + [TaxDiffers];
    }
    var itcAtRisk := if inv.tax - rec.tax > 0 then inv.tax - rec.tax else 0;
    result := MatchResult(Mismatch, inv.supplierGstin, inv.number, inv.date, Some(inv.id), Some(rec.id),
                          Some(inv.taxable), Some(inv.tax), Some(rec.taxable), Some(rec.tax), taxableDiff, taxDiff, itcAtRisk, reasons);
  }

  lemma ReportOfBook(books: seq<BookInvoice>, records: seq<ReturnRecord>, tol: Tolerances, i: nat)
    requires i < |books|
    ensures Report(books, records, tol)(BookOnly(i))
         == MissingFromReturn(books[i], BookReason(BookKeys(books)[i], RecordKeys(records)))
  {
    BookKeysAt(books, i);
  }

  lemma ReportOfRecord(books: seq<BookInvoice>, records: seq<ReturnRecord>, tol: Tolerances, j: nat)
    requires j < |records|
    ensures Report(books, records, tol)(RecordOnly(j))
         == MissingFromBooks(records[j], RecordReason(RecordKeys(records)[j], BookKeys(books)))
  {
    RecordKeysAt(records, j);
  }

  lemma ReportOfPair(books: seq<BookInvoice>, records: seq<ReturnRecord>, tol: Tolerances, i: nat, j: nat)
    requires i < |books| && j < |records|
    ensures Report(books, records, tol)(Pair(i, j)) == Paired(books[i], records[j], tol)
  {
  }

  ghost predicate ArePositions(ps: seq<nat>, keys: seq<Key>, k: Key) { ps == Positions(keys, k) }

  /** The results of one key of the books: pairs in step, then what is left over on either side. */
  method ReconcileKey(books: seq<BookInvoice>, records: seq<ReturnRecord>, tol: Tolerances, key: Key, invs: seq<nat>, recs: seq<nat>)
    returns (results: seq<MatchResult>)
    requires !IsBlank(key) && ArePositions(invs, BookKeys(books), key) && ArePositions(recs, RecordKeys(records), key)
    requires invs != []
    ensures results == Map(KeyBlock(invs, recs), Report(books, records, tol))
  {
    ghost var bk, rk, f := BookKeys(books), RecordKeys(records), Report(books, records, tol);
    var m := Min(|invs|, |recs|);
    forall t | 0 <= t < |invs|
      ensures invs[t] < |books| && f(BookOnly(invs[t])) == MissingFromReturn(books[invs[t]], if recs == [] then NotReported else ExtraBook)
    {
      PositionsAt(bk, key, t);
      ReportOfBook(books, records, tol, invs[t]);
    }
    forall t | 0 <= t < |recs|
      ensures recs[t] < |records| && f(RecordOnly(recs[t])) == MissingFromBooks(records[recs[t]], ExtraRecord)
    {
      PositionsAt(rk, key, t);
      ReportOfRecord(books, records, tol, recs[t]);
    }
    forall t | 0 <= t < m ensures f(Pair(invs[t], recs[t])) == Paired(books[invs[t]], records[recs[t]], tol) {
      ReportOfPair(books, records, tol, invs[t], recs[t]);
    }
    var paired := EmitPairs(books, records, tol, invs, recs, f);
    var extraBooks := EmitBooks(books, invs[m..], if recs == [] then NotReported else ExtraBook, f);
    var extraRecords := EmitRecords(records, recs[m..], ExtraRecord, f);
    MapConcat(Zip(invs, recs), LoneBooks(invs[m..]), f);
    MapConcat(Zip(invs, recs) + LoneBooks(invs[m..]), LoneRecords(recs[m..]), f);
    results := paired + extraBooks + extraRecords;
  }

  lemma MapConcat<S, T>(s: seq<S>, t: seq<S>, f: S -> T)
    ensures Map(s + t, f) == Map(s, f) + Map(t, f)
  {
  }

  /** Rows without an invoice number go straight to their unmatched bucket. */
  method ReportBlank(books: seq<BookInvoice>, records: seq<ReturnRecord>, tol: Tolerances, blankBooks: seq<nat>, blankRecords: seq<nat>)
    returns (results: seq<MatchResult>)
    requires blankBooks == BlankPositions(BookKeys(books)) && blankRecords == BlankPositions(RecordKeys(records))
    ensures results == Map(LoneBooks(blankBooks) + LoneRecords(blankRecords), Report(books, records, tol))
  {
    ghost var f := Report(books, records, tol);
    BlankPositionsFacts(BookKeys(books));
    BlankPositionsFacts(RecordKeys(records));
    forall t | 0 <= t < |blankBooks|
      ensures blankBooks[t] < |books| && f(BookOnly(blankBooks[t])) == MissingFromReturn(books[blankBooks[t]], BookNumberBlank)
    {
      assert blankBooks[t] in blankBooks;
      ReportOfBook(books, records, tol, blankBooks[t]);
    }
    forall t | 0 <= t < |blankRecords|
      ensures blankRecords[t] < |records| && f(RecordOnly(blankRecords[t])) == MissingFromBooks(records[blankRecords[t]], RecordNumberBlank)
    {
      assert blankRecords[t] in blankRecords;
      ReportOfRecord(books, records, tol, blankRecords[t]);
    }
    var lone := EmitBooks(books, blankBooks, BookNumberBlank, f);
    results := EmitRecords(records, blankRecords, RecordNumberBlank, f);
    MapConcat(LoneBooks(blankBooks), LoneRecords(blankRecords), f);
    results := lone + results;
  }

  /** Keys that only the return has. */
  method ReportUnrecorded(books: seq<BookInvoice>, records: seq<ReturnRecord>, tol: Tolerances, key: Key, recs: seq<nat>)
    returns (results: seq<MatchResult>)
    requires !IsBlank(key) && key !in BookKeys(books) && recs == Positions(RecordKeys(records), key)
    ensures results == Map(LoneRecords(recs), Report(books, records, tol))
  {
    ghost var f := Report(books, records, tol);
    NoPositions(BookKeys(books), key);
    forall t | 0 <= t < |recs|
      ensures recs[t] < |records| && f(RecordOnly(recs[t])) == MissingFromBooks(records[recs[t]], NotRecorded)
    {
      PositionsAt(RecordKeys(records), key, t);
      ReportOfRecord(books, records, tol, recs[t]);
    }
    results := EmitRecords(records, recs, NotRecorded, f);
  }

  lemma BookBlocksStep(order: seq<Key>, i: nat, books: seq<Key>, records: seq<Key>)
    requires i < |order|
    ensures BookBlocks(order[..i + 1], books, records)
         == BookBlocks(order[..i], books, records) + KeyBlock(Positions(books, order[i]), Positions(records, order[i]))
  {
    assert order[..i + 1][..i] == order[..i];
  }

  lemma RecordBlocksStep(order: seq<Key>, i: nat, books: seq<Key>, records: seq<Key>)
    requires i < |order|
    ensures RecordBlocks(order[..i + 1], books, records)
         == RecordBlocks(order[..i], books, records) + if order[i] in books then [] else LoneRecords(Positions(records, order[i]))
  {
    assert order[..i + 1][..i] == order[..i];
  }

  lemma BlockAppended(order: seq<Key>, i: nat, books: seq<Key>, records: seq<Key>, f: Pairing -> MatchResult,
                      results: seq<MatchResult>, block: seq<MatchResult>)
    requires i < |order| && results == Map(BookBlocks(order[..i], books, records), f)
    requires block == Map(BlockOf(order[i], books, records), f)
    ensures results + block == Map(BookBlocks(order[..i + 1], books, records), f)
  {
    BookBlocksStep(order, i, books, records);
    MapConcat(BookBlocks(order[..i], books, records), KeyBlock(Positions(books, order[i]), Positions(records, order[i])), f);
  }

  /** The dictionary holds the positions of the key, if it has any. */
  ghost predicate Holds(groups: map<Key, seq<nat>>, keys: seq<Key>, k: Key) {
    if k in groups then groups[k] == Positions(keys, k) && groups[k] != [] else Positions(keys, k) == []
  }

  /** The keys that both sides have. */
  function Common(order: seq<Key>, groups: map<Key, seq<nat>>): set<Key> {
    if order == [] then {} else
      var k := order[|order| - 1];
      Common(order[..|order| - 1], groups) + if k in groups then {k} else {}
  }

  lemma {:induction false} CommonFacts(order: seq<Key>, groups: map<Key, seq<nat>>, k: Key)
    ensures k in Common(order, groups) <==> k in order && k in groups
  {
    if order != [] {
      CommonFacts(order[..|order| - 1], groups, k);
      assert order == order[..|order| - 1] + [order[|order| - 1]];
    }
  }

  /** The dictionary has a key and holds its positions. */
  ghost predicate KeyIsFiled(groups: map<Key, seq<nat>>, keys: seq<Key>, k: Key) {
    !IsBlank(k) && k in groups && Holds(groups, keys, k)
  }

  function BlockOf(k: Key, books: seq<Key>, records: seq<Key>): seq<Pairing> {
    KeyBlock(Positions(books, k), Positions(records, k))
  }

  method ReportBookKeys(books: seq<BookInvoice>, records: seq<ReturnRecord>, tol: Tolerances,
                        booksByKey: map<Key, seq<nat>>, bookOrder: seq<Key>, recordsByKey: map<Key, seq<nat>>)
    returns (results: seq<MatchResult>, matchedKeys: set<Key>)
    requires forall k :: k in bookOrder ==> KeyIsFiled(booksByKey, BookKeys(books), k) && Holds(recordsByKey, RecordKeys(records), k)
    ensures results == Map(BookBlocks(bookOrder, BookKeys(books), RecordKeys(records)), Report(books, records, tol))
    ensures matchedKeys == Common(bookOrder, recordsByKey)
  {
    ghost var bk, rk, f := BookKeys(books), RecordKeys(records), Report(books, records, tol);
    results, matchedKeys := [], {};
    var i := 0;
    while i < |bookOrder|
      invariant 0 <= i <= |bookOrder|
      invariant results == Map(BookBlocks(bookOrder[..i], bk, rk), f)
      invariant matchedKeys == Common(bookOrder[..i], recordsByKey)
    {
      var key := bookOrder[i];
      assert key in bookOrder;
      assert bookOrder[..i + 1][..i] == bookOrder[..i];
      var block := ReportBookKey(books, records, tol, key, booksByKey, recordsByKey);
      BlockAppended(bookOrder, i, bk, rk, f, results, block);
      if key in recordsByKey {
        matchedKeys := matchedKeys + {key};
      }
      results := results + block;
      i := i + 1;
    }
    assert bookOrder[..i] == bookOrder;
  }

  method ReportBookKey(books: seq<BookInvoice>, records: seq<ReturnRecord>, tol: Tolerances, key: Key,
                       booksByKey: map<Key, seq<nat>>, recordsByKey: map<Key, seq<nat>>)
    returns (results: seq<MatchResult>)
    requires KeyIsFiled(booksByKey, BookKeys(books), key) && Holds(recordsByKey, RecordKeys(records), key)
    ensures results == Map(BlockOf(key, BookKeys(books), RecordKeys(records)), Report(books, records, tol))
  {
    var recs := if key in recordsByKey then recordsByKey[key] else [];
    results := ReconcileKey(books, records, tol, key, booksByKey[key], recs);
  }

  method ReportRecordKeys(books: seq<BookInvoice>, records: seq<ReturnRecord>, tol: Tolerances,
                          recordsByKey: map<Key, seq<nat>>, recordOrder: seq<Key>, matchedKeys: set<Key>)
    returns (results: seq<MatchResult>)
    requires forall k :: k in recordOrder ==> !IsBlank(k) && k in recordsByKey && Holds(recordsByKey, RecordKeys(records), k)
    requires forall k :: k in recordOrder ==> (k in matchedKeys <==> k in BookKeys(books))
    ensures results == Map(RecordBlocks(recordOrder, BookKeys(books), RecordKeys(records)), Report(books, records, tol))
  {
    ghost var bk, rk, f := BookKeys(books), RecordKeys(records), Report(books, records, tol);
    results := [];
    var i := 0;
    while i < |recordOrder|
      invariant 0 <= i <= |recordOrder|
      invariant results == Map(RecordBlocks(recordOrder[..i], bk, rk), f)
    {
      var key := recordOrder[i];
      assert key in recordOrder;
      RecordBlocksStep(recordOrder, i, bk, rk);
      if key !in matchedKeys {
        var block := ReportUnrecorded(books, records, tol, key, recordsByKey[key]);
        MapConcat(RecordBlocks(recordOrder[..i], bk, rk), LoneRecords(recordsByKey[key]), f);
        results := results + block;
      } else {
        assert RecordBlocks(recordOrder[..i + 1], bk, rk) == RecordBlocks(recordOrder[..i], bk, rk);
      }
      i := i + 1;
    }
    assert recordOrder[..i] == recordOrder;
  }

  lemma GroupedHolds(keys: seq<Key>, groups: map<Key, seq<nat>>, order: seq<Key>, blank: seq<nat>, k: Key)
    requires Grouped(keys, groups, order, blank) && !IsBlank(k)
    ensures Holds(groups, keys, k) && (k in groups <==> k in keys)
  {
    NoPositions(keys, k);
  }

  /** Who is reported with whom: blank rows, then the keys of the books, then the keys only the records have. */
  function Pairings(books: seq<Key>, records: seq<Key>): seq<Pairing> {
    AllResults(books, records, Order(books), Order(records))
  }

  /** The pairings of the code are a reconciliation. */
  lemma PairingsReconcile(books: seq<Key>, records: seq<Key>)
    ensures IsReconciliation(Pairings(books, records), books, records)
  {
    GroupAllFacts(books);
    GroupAllFacts(records);
    AllResultsReconcile(books, records, Order(books), Order(records));
  }

  lemma MapAll(blank: seq<Pairing>, byBook: seq<Pairing>, byRecord: seq<Pairing>, f: Pairing -> MatchResult)
    ensures Map(blank + byBook + byRecord, f) == Map(blank, f) + Map(byBook, f) + Map(byRecord, f)
  {
    MapConcat(blank, byBook, f);
    MapConcat(blank + byBook, byRecord, f);
  }

  method Reconcile(books: seq<BookInvoice>, records: seq<ReturnRecord>, tol: Tolerances) returns (results: seq<MatchResult>)
    ensures results == Map(Pairings(BookKeys(books), RecordKeys(records)), Report(books, records, tol))
  {
    var bk, rk := BookKeys(books), RecordKeys(records);
    var booksByKey, bookOrder, unmatchableBooks := GroupByKey(bk);
    var recordsByKey, recordOrder, unmatchableRecords := GroupByKey(rk);
    forall k | !IsBlank(k)
      ensures Holds(booksByKey, bk, k) && (k in booksByKey <==> k in bk)
      ensures Holds(recordsByKey, rk, k) && (k in recordsByKey <==> k in rk)
    {
      GroupedHolds(bk, booksByKey, bookOrder, unmatchableBooks, k);
      GroupedHolds(rk, recordsByKey, recordOrder, unmatchableRecords, k);
    }
    var blank := ReportBlank(books, records, tol, unmatchableBooks, unmatchableRecords);
    var byBook, matchedKeys := ReportBookKeys(books, records, tol, booksByKey, bookOrder, recordsByKey);
    forall k | k in recordOrder ensures k in matchedKeys <==> k in bk {
      CommonFacts(bookOrder, recordsByKey, k);
    }
    var byRecord := ReportRecordKeys(books, records, tol, recordsByKey, recordOrder, matchedKeys);
    results := blank + byBook + byRecord;
    MapAll(LoneBooks(unmatchableBooks) + LoneRecords(unmatchableRecords), BookBlocks(bookOrder, bk, rk),
           RecordBlocks(recordOrder, bk, rk), Report(books, records, tol));
  }
}
