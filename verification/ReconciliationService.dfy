/** The reconciliation service: imported records, stored runs and their matches, replaced period by period
    (backend/app/services/reconciliation_service.py). */
module ReconciliationService {
  import opened Util
  import opened Text
  import opened Reconciliation
  import opened ReconciliationEngine
  import opened ReconciliationAudit

  datatype Source = Gstr2a | Gstr2b

  /** A parsed row of an uploaded file. */
  datatype UploadedRow = UploadedRow(
    gstin: string, name: string, number: string, date: string, taxable: int, igst: int, cgst: int, sgst: int, cess: int)

  datatype StoredRecord = StoredRecord(
    id: nat, period: string, source: Source, rowNumber: nat,
    gstin: Option<string>, name: Option<string>, number: Option<string>, date: Option<string>,
    taxable: int, igst: int, cgst: int, sgst: int, cess: int)

  datatype InvoiceStatus = Failed | Rejected | Live

  /** An invoice of the organization; the invoice store belongs to another component. */
  datatype StoredInvoice = StoredInvoice(
    id: nat, isPurchase: bool, status: InvoiceStatus, date: Option<string>,
    supplierGstin: Option<string>, number: Option<string>, taxable: Option<int>, tax: Option<int>)

  datatype RunRow = RunRow(period: string, source: Source, summary: Summary)

  /** A stored match; a run is named by its position. */
  datatype MatchRow = MatchRow(runId: nat, result: MatchResult)

  datatype ServiceError = InvalidPeriod | NoRows | NothingUploaded

  function NonBlank(s: string): Option<string> {
    if Strip(s) == "" then None else Some(Strip(s))
  }

  function NonBlankUpper(s: string): Option<string> {
    if Upper(Strip(s)) == "" then None else Some(Upper(Strip(s)))
  }

  function InFile(period: string, source: Source): StoredRecord -> bool {
    (r: StoredRecord) => r.period == period && r.source == source
  }

  function NotInFile(period: string, source: Source): StoredRecord -> bool {
    (r: StoredRecord) => !(r.period == period && r.source == source)
  }

  function Stored(row: UploadedRow, id: nat, period: string, source: Source, rowNumber: nat): StoredRecord {
    StoredRecord(id, period, source, rowNumber, NonBlankUpper(row.gstin), NonBlank(row.name), NonBlank(row.number),
                 NonBlank(row.date), row.taxable, row.igst, row.cgst, row.sgst, row.cess)
  }

  function ToRecord(r: StoredRecord): ReturnRecord {
    ReturnRecord(r.id, r.gstin, r.name, r.number, r.date, r.taxable, r.igst + r.cgst + r.sgst + r.cess)
  }

  function ToBook(inv: StoredInvoice): BookInvoice {
    BookInvoice(inv.id, inv.supplierGstin, inv.number, inv.date,
                if inv.taxable.Some? then inv.taxable.value else 0, if inv.tax.Some? then inv.tax.value else 0)
  }

  /** Live purchase invoices dated in the period. */
  function PurchaseOf(period: string): StoredInvoice -> bool {
    (inv: StoredInvoice) =>
      inv.isPurchase && inv.status == Live && inv.date.Some? && period + "-" <= inv.date.value
  }

  function NotOfRun(runId: nat): MatchRow -> bool {
    (m: MatchRow) => m.runId != runId
  }

  /** The stored results of a run. */
  function MatchesOf(matches: seq<MatchRow>, runId: nat): seq<MatchResult> {
    if matches == [] then [] else
      var m := matches[|matches| - 1];
      MatchesOf(matches[..|matches| - 1], runId) + if m.runId == runId then [m.result] else []
  }

  /** The stored counts of a run against the tallies of its stored matches. A re-import may cut the link from a
      match to its record, so the record count is told by the buckets. */
  ghost predicate CountsAgree(s: Summary, results: seq<MatchResult>) {
    var t := Tally(results);
    && s.matched == t.matched && s.mismatch == t.mismatch
    && s.missingInReturn == t.missingInReturn && s.missingInBooks == t.missingInBooks
    && s.bookInvoices == t.bookInvoices == t.matched + t.mismatch + t.missingInReturn
    && s.returnRecords == t.matched + t.mismatch + t.missingInBooks
    && s.itcAtRisk == t.itcAtRisk && s.potentialUnclaimed == t.potentialUnclaimed
  }

  /** A deleted record leaves its match without a link. */
  function UnlinkResult(deleted: set<nat>): MatchResult -> MatchResult {
    (r: MatchResult) => if r.recordId.Some? && r.recordId.value in deleted then r.(recordId := None) else r
  }

  function Unlink(deleted: set<nat>): MatchRow -> MatchRow {
    (m: MatchRow) => m.(result := UnlinkResult(deleted)(m.result))
  }

  lemma {:induction false} UnlinkedMatches(matches: seq<MatchRow>, deleted: set<nat>, runId: nat)
    ensures MatchesOf(Map(matches, Unlink(deleted)), runId) == Map(MatchesOf(matches, runId), UnlinkResult(deleted))
  {
    if matches != [] {
      var init, m := matches[..|matches| - 1], matches[|matches| - 1];
      UnlinkedMatches(init, deleted, runId);
      assert Map(matches, Unlink(deleted))[..|matches| - 1] == Map(init, Unlink(deleted));
    }
  }

  /** Cutting links changes no count but that of linked records. */
  lemma UnlinkKeepsTally(results: seq<MatchResult>, deleted: set<nat>)
    ensures var t := Tally(results); Tally(Map(results, UnlinkResult(deleted))).(returnRecords := t.returnRecords) == t
  {
    var f := UnlinkResult(deleted);
    SumMap(results, f, HasBook, HasBook);
    SumMap(results, f, HasStatus(Matched), HasStatus(Matched));
    SumMap(results, f, HasStatus(Mismatch), HasStatus(Mismatch));
    SumMap(results, f, HasStatus(MissingInReturn), HasStatus(MissingInReturn));
    SumMap(results, f, HasStatus(MissingInBooks), HasStatus(MissingInBooks));
    SumMap(results, f, ItcAtRisk, ItcAtRisk);
    SumMap(results, f, Unclaimed, Unclaimed);
  }

  function Tagged(results: seq<MatchResult>, runId: nat): seq<MatchRow> {
    Map(results, (r: MatchResult) => MatchRow(runId, r))
  }

  lemma {:induction false} MatchesOfConcat(s: seq<MatchRow>, t: seq<MatchRow>, runId: nat)
    ensures MatchesOf(s + t, runId) == MatchesOf(s, runId) + MatchesOf(t, runId)
  {
    if t == [] {
      assert s + t == s;
    } else {
      MatchesOfConcat(s, t[..|t| - 1], runId);
      assert (s + t)[..|s + t| - 1] == s + t[..|t| - 1];
    }
  }

  lemma {:induction false} MatchesOfKept(matches: seq<MatchRow>, runId: nat, other: nat)
    ensures MatchesOf(Filter(matches, NotOfRun(runId)), other) == if other == runId then [] else MatchesOf(matches, other)
  {
    if matches != [] {
      var init, m := matches[..|matches| - 1], matches[|matches| - 1];
      MatchesOfKept(init, runId, other);
      MatchesOfConcat(Filter(init, NotOfRun(runId)), if m.runId != runId then [m] else [], other);
    }
  }

  lemma {:induction false} MatchesOfTagged(results: seq<MatchResult>, runId: nat, other: nat)
    ensures MatchesOf(Tagged(results, runId), other) == if other == runId then results else []
  {
    if results != [] {
      var n := |results| - 1;
      MatchesOfTagged(results[..n], runId, other);
      assert Tagged(results, runId)[..n] == Tagged(results[..n], runId);
      assert results == results[..n] + [results[n]];
    }
  }

  /** Replacing one run's matches gives that run the new results and leaves the other runs' alone. */
  lemma ReplacedMatches(matches: seq<MatchRow>, results: seq<MatchResult>, runId: nat, other: nat)
    ensures MatchesOf(Filter(matches, NotOfRun(runId)) + Tagged(results, runId), other)
         == if other == runId then results else MatchesOf(matches, other)
  {
    MatchesOfConcat(Filter(matches, NotOfRun(runId)), Tagged(results, runId), other);
    MatchesOfKept(matches, runId, other);
    MatchesOfTagged(results, runId, other);
  }

  // ------------------------------------------------------ record ids and links

  /** Ids are given out once. */
  ghost predicate IdsOk(records: seq<StoredRecord>, nextId: nat) {
    && (forall i :: 0 <= i < |records| ==> records[i].id < nextId)
    && (forall i, j :: 0 <= i < j < |records| ==> records[i].id != records[j].id)
  }

  ghost predicate HasId(records: seq<StoredRecord>, id: nat) {
    exists rec :: rec in records && rec.id == id
  }

  ghost predicate LinkOk(r: MatchResult, records: seq<StoredRecord>) {
    r.recordId.Some? ==> HasId(records, r.recordId.value)
  }

  /** Every match that names a record names a stored one. */
  ghost predicate LinksOk(matches: seq<MatchRow>, records: seq<StoredRecord>) {
    forall m :: m in matches ==> LinkOk(m.result, records)
  }

  lemma {:induction false} FilteredIds(records: seq<StoredRecord>, p: StoredRecord -> bool, nextId: nat)
    requires IdsOk(records, nextId)
    ensures IdsOk(Filter(records, p), nextId)
  {
    if records != [] {
      var init, last := records[..|records| - 1], records[|records| - 1];
      FilteredIds(init, p, nextId);
      if p(last) {
        forall i | 0 <= i < |Filter(init, p)| ensures Filter(init, p)[i].id != last.id {
          assert Filter(init, p)[i] in Filter(init, p);
          var j :| 0 <= j < |init| && init[j] == Filter(init, p)[i];
          assert records[j] == init[j];
        }
      }
    }
  }

  /** A record with the next id can be added. */
  lemma IdAppended(records: seq<StoredRecord>, rec: StoredRecord, nextId: nat)
    requires IdsOk(records, nextId) && rec.id == nextId
    ensures IdsOk(records + [rec], nextId + 1)
  {
  }

  /** Replacing a file keeps ids distinct: the new rows get new ones. */
  lemma ReplacedIds(kept: seq<StoredRecord>, rows: seq<UploadedRow>, nextId: nat, period: string, source: Source)
    requires IdsOk(kept, nextId)
    ensures IdsOk(kept + StoredRows(rows, nextId, period, source), nextId + |rows|)
  {
    var store := Storing(nextId, period, source);
    forall row: UploadedRow, i: nat ensures store(row, i).id == nextId + i {
      assert store(row, i) == Stored(row, nextId + i, period, source, i);
    }
    NumberedIds(kept, rows, nextId, store);
  }

  lemma {:induction false} NumberedIds(kept: seq<StoredRecord>, rows: seq<UploadedRow>, nextId: nat, store: (UploadedRow, nat) -> StoredRecord)
    requires IdsOk(kept, nextId) && forall row: UploadedRow, i: nat :: store(row, i).id == nextId + i
    ensures IdsOk(kept + NumberedRows(rows, store), nextId + |rows|)
  {
    if rows == [] {
      assert kept + [] == kept;
    } else {
      var n := |rows| - 1;
      var before := kept + NumberedRows(rows[..n], store);
      NumberedIds(kept, rows[..n], nextId, store);
      ConcatAppend(kept, NumberedRows(rows[..n], store), store(rows[n], n));
      IdAppended(before, store(rows[n], n), nextId + n);
    }
  }

  /** Unlinking by id cuts the links to the records that go, and no others: a match that named a record which stays
      keeps naming it. */
  lemma UnlinkIsExact(records: seq<StoredRecord>, nextId: nat, period: string, source: Source, rec: StoredRecord)
    requires IdsOk(records, nextId) && rec in records
    ensures rec.id in IdsIn(records, period, source) <==> rec.period == period && rec.source == source
  {
    if rec.id in IdsIn(records, period, source) {
      var other :| other in records && other.period == period && other.source == source && other.id == rec.id;
      var i, j :| 0 <= i < |records| && 0 <= j < |records| && records[i] == rec && records[j] == other;
    }
  }

  /** Once the links to deleted records are cut, every match links to a record that stays. */
  lemma UnlinkedLinks(matches: seq<MatchRow>, deleted: set<nat>, records: seq<StoredRecord>, after: seq<StoredRecord>)
    requires LinksOk(matches, records)
    requires forall rec :: rec in records && rec.id !in deleted ==> rec in after
    ensures LinksOk(Map(matches, Unlink(deleted)), after)
  {
    var unlinked := Map(matches, Unlink(deleted));
    forall m | m in unlinked ensures LinkOk(m.result, after) {
      var i :| 0 <= i < |unlinked| && unlinked[i] == m;
      assert matches[i] in matches;
      UnlinkedLink(matches[i].result, deleted, records, after);
      assert m.result == UnlinkResult(deleted)(matches[i].result);
    }
  }

  lemma UnlinkedLink(r: MatchResult, deleted: set<nat>, records: seq<StoredRecord>, after: seq<StoredRecord>)
    requires LinkOk(r, records) && forall rec :: rec in records && rec.id !in deleted ==> rec in after
    ensures LinkOk(UnlinkResult(deleted)(r), after)
  {
    if UnlinkResult(deleted)(r).recordId.Some? {
      var rec :| rec in records && rec.id == r.recordId.value;
      assert rec in after;
    }
  }

  lemma OutcomeLinks(results: seq<MatchResult>, books: seq<BookInvoice>, selected: seq<StoredRecord>)
    requires IsOutcome(results, books, Map(selected, ToRecord))
    ensures forall r :: r in results ==> LinkOk(r, selected)
  {
    var inputs := Map(selected, ToRecord);
    var pairing := Pairings(BookKeys(books), RecordKeys(inputs));
    PairingsReconcile(BookKeys(books), RecordKeys(inputs));
    forall r | r in results ensures LinkOk(r, selected) {
      var i :| 0 <= i < |results| && results[i] == r;
      assert pairing[i] in pairing && Belongs(pairing[i], BookKeys(books), RecordKeys(inputs));
      ResultLink(books, selected, pairing[i]);
    }
  }

  lemma ResultLink(books: seq<BookInvoice>, selected: seq<StoredRecord>, p: Pairing)
    requires p.BookOnly? || p.record < |selected|
    ensures LinkOk(Report(books, Map(selected, ToRecord), DEFAULT_TOLERANCES)(p), selected)
  {
    if !p.BookOnly? {
      assert selected[p.record] in selected;
    }
  }

  lemma SelectedLinks(results: seq<MatchResult>, selected: seq<StoredRecord>, records: seq<StoredRecord>)
    requires (forall r :: r in results ==> LinkOk(r, selected)) && forall rec :: rec in selected ==> rec in records
    ensures forall r :: r in results ==> LinkOk(r, records)
  {
  }

  lemma StoredLinks(matches: seq<MatchRow>, results: seq<MatchResult>, runId: nat, records: seq<StoredRecord>)
    requires LinksOk(matches, records) && forall r :: r in results ==> LinkOk(r, records)
    ensures LinksOk(Filter(matches, NotOfRun(runId)) + Tagged(results, runId), records)
  {
  }

  class ReconciliationService {
    var records: seq<StoredRecord>
    var runs: seq<RunRow>
    var matches: seq<MatchRow>
    var nextId: nat

    /** One run a period, every match in a run, the counts of every run those of its matches; record ids are distinct
        and matches link to stored records. */
    ghost predicate Valid()
      reads this
    {
      && (forall i, j :: 0 <= i < j < |runs| ==> runs[i].period != runs[j].period)
      && (forall m :: m in matches ==> m.runId < |runs|)
      && (forall i :: 0 <= i < |runs| ==> CountsAgree(runs[i].summary, MatchesOf(matches, i)))
      && IdsOk(records, nextId) && LinksOk(matches, records)
    }

    constructor ()
      ensures Valid() && records == [] && runs == [] && matches == []
    {
      records, runs, matches, nextId := [], [], [], 0;
    }

    /** Re-uploading a period and source replaces its records outright. */
    method ImportRecords(period: string, source: Source, rows: seq<UploadedRow>) returns (r: Result<nat, ServiceError>)
      requires Valid()
      modifies this
      ensures Valid()
      ensures runs == old(runs)
      ensures r == if !ValidPeriod(period) then Err(InvalidPeriod) else if rows == [] then Err(NoRows) else Ok(|rows|)
      ensures r.Err? ==> records == old(records) && matches == old(matches)
      ensures r.Ok? ==> IsReplacement(old(records), records, period, source, rows, old(nextId))
      ensures r.Ok? ==> matches == Map(old(matches), Unlink(IdsIn(old(records), period, source)))
    {
      if !ValidPeriod(period) {
        return Err(InvalidPeriod);
      }
      if rows == [] {
        return Err(NoRows);
      }
      ghost var kept := Filter(records, NotInFile(period, source));
      FilteredIds(records, NotInFile(period, source), nextId);
      ReplacedIds(kept, rows, nextId, period, source);
      UnlinkedLinks(matches, IdsIn(records, period, source), records, kept + StoredRows(rows, nextId, period, source));
      UnlinkRecords(IdsIn(records, period, source));
      ReplaceRecords(period, source, rows);
      r := Ok(|rows|);
    }

    method ReplaceRecords(period: string, source: Source, rows: seq<UploadedRow>)
      modifies this`records, this`nextId
      ensures IsReplacement(old(records), records, period, source, rows, old(nextId))
      ensures nextId == old(nextId) + |rows|
    {
      records := Filter(records, NotInFile(period, source));
      ghost var kept := records;
      ghost var store := Storing(nextId, period, source);
      for i := 0 to |rows|
        invariant records == kept + NumberedRows(rows[..i], store)
        invariant nextId == old(nextId) + i
      {
        var stored := Stored(rows[i], nextId, period, source, i);
        assert stored == store(rows[i], i);
        StoredRowsStep(kept, rows, i, store);
        records := records + [stored];
        nextId := nextId + 1;
      }
      assert rows[..|rows|] == rows;
    }

    /** What the database does to the matches of deleted records. */
    method UnlinkRecords(deleted: set<nat>)
      requires Valid()
      modifies this`matches
      ensures Valid()
      ensures matches == Map(old(matches), Unlink(deleted))
    {
      forall i | 0 <= i < |runs| ensures CountsAgree(runs[i].summary, MatchesOf(Map(matches, Unlink(deleted)), i)) {
        UnlinkedMatches(matches, deleted, i);
        UnlinkKeepsTally(MatchesOf(matches, i), deleted);
      }
      UnlinkedLinks(matches, deleted, records, records);
      matches := Map(matches, Unlink(deleted));
    }

    /** Reconciles a period against one source and replaces what an earlier run of the period had stored. */
    method Run(period: string, source: Source, invoices: seq<StoredInvoice>) returns (r: Result<nat, ServiceError>)
      requires Valid()
      modifies this`runs, this`matches
      ensures Valid()
      ensures r.Ok? <==> ValidPeriod(period) && Filter(records, InFile(period, source)) != []
      ensures r.Err? ==> runs == old(runs) && matches == old(matches)
      ensures r.Ok? ==>
                && r.value < |runs| && runs[r.value].period == period && runs[r.value].source == source
                && OnlyRunChanged(old(runs), old(matches), runs, matches, r.value)
                && IsOutcome(MatchesOf(matches, r.value), Map(Filter(invoices, PurchaseOf(period)), ToBook),
                             Map(Filter(records, InFile(period, source)), ToRecord))
                && var s := runs[r.value].summary;
                   && s == Tally(MatchesOf(matches, r.value))
                   && s.bookInvoices == |Filter(invoices, PurchaseOf(period))|
                   && s.returnRecords == |Filter(records, InFile(period, source))|
    {
      if !ValidPeriod(period) {
        return Err(InvalidPeriod);
      }
      var selected := Filter(records, InFile(period, source));
      if selected == [] {
        return Err(NothingUploaded);
      }
      var results, summary := Compare(Map(Filter(invoices, PurchaseOf(period)), ToBook), Map(selected, ToRecord));
      OutcomeLinks(results, Map(Filter(invoices, PurchaseOf(period)), ToBook), selected);
      SelectedLinks(results, selected, records);
      var runId := Store(RunRow(period, source, summary), results);
      r := Ok(runId);
    }

    method Store(row: RunRow, results: seq<MatchResult>) returns (runId: nat)
      requires Valid() && row.summary == Tally(results) && CountsAgree(row.summary, results)
      requires forall r :: r in results ==> LinkOk(r, records)
      modifies this`runs, this`matches
      ensures Valid()
      ensures runId < |runs| && runs[runId] == row && MatchesOf(matches, runId) == results
      ensures OnlyRunChanged(old(runs), old(matches), runs, matches, runId)
    {
      runId := FindRun(row.period);
      ghost var before := matches;
      if runId == |runs| {
        runs := runs + [row];
      } else {
        runs := runs[runId := row];
      }
      StoredLinks(matches, results, runId, records);
      matches := Filter(matches, NotOfRun(runId)) + Tagged(results, runId);
      forall i: nat ensures MatchesOf(matches, i) == if i == runId then results else MatchesOf(before, i) {
        ReplacedMatches(before, results, runId, i);
      }
    }

    /** The run of a period, or the number of runs if it has none. */
    method FindRun(period: string) returns (runId: nat)
      ensures runId <= |runs|
      ensures runId < |runs| ==> runs[runId].period == period
      ensures runId == |runs| ==> forall row :: row in runs ==> row.period != period
    {
      runId := 0;
      while runId < |runs| && runs[runId].period != period
        invariant runId <= |runs|
        invariant forall i :: 0 <= i < runId ==> runs[i].period != period
      {
        runId := runId + 1;
      }
    }
  }

  function IdsIn(records: seq<StoredRecord>, period: string, source: Source): set<nat> {
    set rec | rec in records && rec.period == period && rec.source == source :: rec.id
  }

  /** How row i of an upload is stored, with ids from nextId on. */
  function Storing(nextId: nat, period: string, source: Source): (UploadedRow, nat) -> StoredRecord {
    (row: UploadedRow, i: nat) => Stored(row, nextId + i, period, source, i)
  }

  function NumberedRows(rows: seq<UploadedRow>, store: (UploadedRow, nat) -> StoredRecord): seq<StoredRecord> {
    if rows == [] then [] else NumberedRows(rows[..|rows| - 1], store) + [store(rows[|rows| - 1], |rows| - 1)]
  }

  /** The rows as stored, numbered from 0. */
  function StoredRows(rows: seq<UploadedRow>, nextId: nat, period: string, source: Source): seq<StoredRecord> {
    NumberedRows(rows, Storing(nextId, period, source))
  }

  lemma StoredRowsStep(kept: seq<StoredRecord>, rows: seq<UploadedRow>, i: nat, store: (UploadedRow, nat) -> StoredRecord)
    requires i < |rows|
    ensures kept + NumberedRows(rows[..i], store) + [store(rows[i], i)] == kept + NumberedRows(rows[..i + 1], store)
  {
    assert rows[..i + 1][..i] == rows[..i];
    ConcatAppend(kept, NumberedRows(rows[..i], store), store(rows[i], i));
  }

  lemma ConcatAppend(kept: seq<StoredRecord>, added: seq<StoredRecord>, stored: StoredRecord)
    ensures kept + added + [stored] == kept + (added + [stored])
  {
  }

  /** The records of a file replaced by new rows, all others kept in order. */
  ghost predicate IsReplacement(before: seq<StoredRecord>, after: seq<StoredRecord>, period: string, source: Source,
                                rows: seq<UploadedRow>, nextId: nat) {
    after == Filter(before, NotInFile(period, source)) + StoredRows(rows, nextId, period, source)
  }

  /** Every other run keeps its row and its matches; a run is added only at the end. */
  ghost predicate OnlyRunChanged(runs: seq<RunRow>, matches: seq<MatchRow>, runs': seq<RunRow>, matches': seq<MatchRow>, runId: nat) {
    && |runs| <= |runs'| <= |runs| + 1 && (|runs'| == |runs| + 1 ==> runId == |runs|)
    && forall i :: 0 <= i < |runs| && i != runId ==> runs'[i] == runs[i] && MatchesOf(matches', i) == MatchesOf(matches, i)
  }

  /** The results of a reconciliation of these inputs with the default tolerances. */
  ghost predicate IsOutcome(results: seq<MatchResult>, books: seq<BookInvoice>, inputs: seq<ReturnRecord>) {
    results == Map(Pairings(BookKeys(books), RecordKeys(inputs)), Report(books, inputs, DEFAULT_TOLERANCES))
  }

  method Compare(books: seq<BookInvoice>, inputs: seq<ReturnRecord>) returns (results: seq<MatchResult>, summary: Summary)
    ensures summary == Tally(results) && CountsAgree(summary, results)
    ensures summary.bookInvoices == |books| && summary.returnRecords == |inputs|
    ensures IsOutcome(results, books, inputs)
  {
    results := Reconcile(books, inputs, DEFAULT_TOLERANCES);
    summary := Summarize(results);
    PairingsReconcile(BookKeys(books), RecordKeys(inputs));
    BucketsCountInputs(Pairings(BookKeys(books), RecordKeys(inputs)), books, inputs, DEFAULT_TOLERANCES);
  }
}
