# Verified model of the deterministic core

A Dafny model of the language-model-free core of a GST compliance assistant, with proofs of what that core keeps. Eight
components are modelled, each in the form of its source: services that change stored state are classes whose methods are
proved against pure step functions, loops are loops with invariants, and formulas are functions.

| component | files |
|---|---|
| double-entry books | `Accounting`, `BookOperations`, `BookRuns`, `BookReports`, `BookLaws`, `BookMeanings`, `AccountingService` |
| GSTR-2A/2B reconciliation | `Reconciliation`, `ReconciliationEngine`, `ReconciliationAudit`, `ReconciliationService`, `ReconciliationLaws` |
| paragraph chunker | `Chunking`, `ChunkPages`, `ChunkRuns`, `ChunkPieces` |
| chat event stream | `SseStream` |
| return figures and their review | `ReturnAggregation`, `ReturnLaws`, `ReturnMeanings`, `ReturnLifecycle`, `LifecycleLaws`, `LifecycleOutcomes` |
| GST arithmetic and invoice checks | `GstCalculator`, `InvoiceValidation`, `ValidationLaws` |
| GSTIN check character | `Gstin` |
| reciprocal rank fusion | `RankFusion` |

The laws of a component are about the functions its methods are proved against. `BookMeanings`, `ReconciliationLaws`, `ChunkRuns`,
`ChunkPieces`, `ReturnMeanings`, `LifecycleOutcomes` and parts of the other files say what those functions give in terms of nothing
but the inputs' own fields, dates, names and amounts.

`Util` and `Text` hold sums, stable sorting, grouping, strings and decimal numerals.

Money is an integer number of paise, as the database columns keep two decimals. Tax rates, and the amounts handed to the GST
calculator, are exact reals. Dates are numbers of the form yyyymmdd, which order like the ISO strings of the source. Each
service method is one atomic step over the rows of a single organisation; ids are positions. Today's date, uploaded rows,
loaded invoices and search results are parameters.

## What the proofs found

The header of `backend/app/rules/accounting.py` (lines 3-6) says that the trial balance ties and that assets equal liabilities
plus equity. The code keeps neither, and the model follows the code:

* A voucher may be one paisa off, so after n vouchers the trial balance may be off by n paise, and two vouchers are enough to
  break its tie on a newly seeded chart (`BookLaws.DriftIsUnbounded`, `BookLaws.TrialBalanceNeedNotTie`). Opening balances are
  not required to balance.
  What holds over every run is the exact difference and its linear bound (`BookLaws.TrialBalanceOfEveryRun`).
* The balance sheet sets all-time balances against the profit since the start of the financial year of *today*. It is off by the
  trial balance difference plus exactly the nominal amounts before that day (`BookLaws.BalanceSheetIdentity`). When openings and
  vouchers balance exactly, it ties if and only if those amounts come to nothing (`BookLaws.SheetTiesExactlyWhenNothingIsLeftOut`);
  on a newly seeded chart one balanced sale of 31 March 2025 makes the sheet of 1 April 2025 fail
  (`BookLaws.LastYearsSaleUnbalancesTheSheet`).
* Approving a task approves the figures it showed if and only if the return was not regenerated in between, or its last
  regeneration came out with the submitted invoice count and tax (`LifecycleLaws.TaskShowsApprovedFiguresExactlyWhen`). A sale
  that arrives during the review and is generated in is approved unseen (`LifecycleLaws.LateSaleIsApprovedUnseen`). An exported
  return can be regenerated too (`LifecycleLaws.RegenerationOverwrites`).
* The GSTIN check character misses the swap of a neighbouring 0 and Z and, over a prefix of odd length, every swap with the last
  prefix character; the structure of a GSTIN closes the gap (`Gstin.SwapDetected`, `Gstin.SwappedNeighboursAreRejected`).

## Model

| member | source | states |
|---|---|---|
| Accounting.ValidateBalanced | backend/app/rules/accounting.py:49-60 | a voucher passes exactly with two or more entries, all positive, and debits within one paisa of credits; imbalance is reported last |
| Accounting.ComputeTrialBalance | backend/app/rules/accounting.py:136-158 | the rows are the non-zero ledgers in (nature, group, name) order, and the totals' difference is the sum of all closing balances |
| Accounting.TrialBalanceRows | backend/app/rules/accounting.py:136-158 | every ledger with a balance has a row, rows are in order, and each has exactly one side |
| Accounting.TrialBalanceTotals | backend/app/rules/accounting.py:136-158 | sorting and leaving out empty ledgers changes neither total |
| Accounting.ComputeProfitAndLoss | backend/app/rules/accounting.py:207-238 | the four sections by nature and directness; net profit is minus the closing balances of all income and expense ledgers |
| Accounting.ComputeBalanceSheet | backend/app/rules/accounting.py:265-293 | asset and liability sections with their totals; profit is added to the liabilities |
| Accounting.ComputeLedgerStatement | backend/app/rules/accounting.py:339-351 | writes into each transaction in place the opening plus the prefix sum, and returns the last of them |
| BookOperations.FyRangeContainsToday | backend/app/services/accounting_service.py:96-101 | the range runs from a 1 April to the next 31 March, contains its day, and every day in it gets the same range |
| BookOperations.FinancialYear | backend/app/services/accounting_service.py:96-101 | every day from 1 April of a year to 31 March of the next gets just these two days |
| BookMeanings.BalancedMeans | backend/app/rules/accounting.py:49-60 | which of the three complaints a voucher meets, from the number of its entries, their amounts and the totals of its two sides |
| BookMeanings.FlagsMean | backend/app/rules/accounting.py:122-124 | trial balance and balance sheet call themselves balanced if their totals are at most a paisa apart |
| BookMeanings.TrialBalanceShows | backend/app/rules/accounting.py:136-158 | the rows are the ledgers with a balance, under their own names and groups, debit balances on the left |
| BookMeanings.RowOrder | backend/app/rules/accounting.py:138 | rows are ordered by the names of nature, group and ledger |
| BookMeanings.SheetSections | backend/app/rules/accounting.py:265-293 | the asset and liability sections list exactly the ledgers of that nature with a balance, with their debit or credit balance |
| BookMeanings.ProfitSection | backend/app/rules/accounting.py:207-238 | the same for direct and indirect income and expenses, with the five direct classifications by name |
| BookMeanings.LineMeaning | backend/app/services/accounting_service.py:524-565 | a ledger line holds debits and credits dated in the period, and its own opening plus all earlier entries |
| BookMeanings.ClosingAsOn | backend/app/services/accounting_service.py:567-575 | a closing balance on a day is the opening and all entries dated up to that day |
| BookMeanings.LedgersByName | backend/app/services/accounting_service.py:176-183 | reports list every ledger once, by name |
| BookMeanings.NetProfitMeaning | backend/app/services/accounting_service.py:577-594 | net profit counts exactly the entries on income and expense ledgers dated in the period, credits positive |
| BookMeanings.ProfitByDefault | backend/app/services/accounting_service.py:577-594 | without dates the period is 1 April to 31 March around today |
| BookMeanings.ProfitSinceApril | backend/app/services/accounting_service.py:596-613 | the profit of a balance sheet is that of the entries since 1 April of the financial year of today |
| BookMeanings.StatementRows | backend/app/services/accounting_service.py:650-680 | the rows of a statement are the entries on the ledger, each with its voucher's date and number and its amount on its own side |
| BookMeanings.StatementVouchersAre | backend/app/services/accounting_service.py:650-668 | its vouchers are those dated in the period, by date |
| BookMeanings.CreatedVoucher | backend/app/services/accounting_service.py:323-345 | a new voucher carries the total of its debits and the number after those of its type |
| BookMeanings.VoucherNumbers | backend/app/services/accounting_service.py:280-293 | the eight prefixes and the count in at least four digits without other leading zeros |
| BookMeanings.SeededNatures | backend/app/services/accounting_service.py:58-75 | on which statement a seeded group belongs follows from its classification |
| BookMeanings.PostedFields | backend/app/services/accounting_service.py:439-486 | the party for all amounts, Sales or Purchase for the taxable value, and the entries on each tax ledger, by name, total the positive sum of that very field of the items |
| BookMeanings.PostedParty | backend/app/services/accounting_service.py:232-274 | the party is the ledger with its name in any case, or a new one that opens at zero among debtors for a sale and creditors for a purchase |
| BookMeanings.PartyIs | backend/app/services/accounting_service.py:242 | whose name it is, stripped and cut to 200 characters |
| BookMeanings.PostableMeaning | backend/app/services/accounting_service.py:415-486 | when an invoice may be posted, by the sums of its fields |
| Text.CaseMeans | backend/app/services/accounting_service.py:210-214 | names are compared without regard to the case of letters and to nothing else |
| Text.FirstDifference | backend/app/rules/accounting.py:138 | texts compare by their first different character, and a text comes before those it begins |
| BookRuns.EnsureChartFacts | backend/app/services/accounting_service.py:119-166 | seeding keeps all groups, ledgers and vouchers, completes the chart, and adds only ledgers that open at zero |
| BookRuns.EnsureChartIdempotent | backend/app/services/accounting_service.py:119-166 | seeding twice is seeding once |
| BookRuns.CreateLedgerKeeps | backend/app/services/accounting_service.py:196-230 | a ledger is refused exactly for an unknown group or a name taken in any case or once stripped; else it is appended with its stripped name, and the books stay well formed |
| BookRuns.CreateVoucherOutcome | backend/app/services/accounting_service.py:295-363 | a voucher is accepted exactly when it balances to a paisa, has two or more positive entries and only ledgers of the organisation; then it is appended and nothing else changes |
| BookRuns.VoucherNumberInjective | backend/app/services/accounting_service.py:280-293 | different types or counts give different formatted numbers, also beyond 9999 |
| BookRuns.NumbersAreUnique | backend/app/services/accounting_service.py:280-293 | no two vouchers of a run share a number |
| BookRuns.NumbersHaveNoGaps | backend/app/services/accounting_service.py:280-293 | the numbers issued to a type are all of the formatted values 1..n |
| BookRuns.PostInvoiceOutcome | backend/app/services/accounting_service.py:415-486 | an invoice is posted exactly when it was not posted, its taxable value and grand total are positive, its party name is unambiguous and its negative tax comes to at most a paisa; the voucher is off by exactly that negative tax |
| BookRuns.OrdinaryInvoiceBalances | backend/app/services/accounting_service.py:415-486 | without negative tax components the generated voucher balances exactly |
| BookRuns.PostedVoucherShape | backend/app/services/accounting_service.py:415-486 | which ledger, side and amount each entry of the generated voucher has |
| BookRuns.PostingKeepsSound | backend/app/services/accounting_service.py:415-486 | posting keeps the invariant and adds one voucher or none |
| BookRuns.StepKeeps | backend/app/services/accounting_service.py:196-363 | every operation keeps: proper chart, accepted vouchers on known ledgers, counter-issued numbers, at most one voucher per invoice |
| BookRuns.EveryRunIsSound | backend/app/services/accounting_service.py:119-486 | the invariant holds after every sequence of operations on empty books |
| BookReports.WindowsCover | backend/app/services/accounting_service.py:514-543 | entries before the period and inside it are all entries up to its end, wherever it starts |
| BookReports.LedgersExhaustEntries | backend/app/services/accounting_service.py:544-565 | summing ledger by ledger is summing entry by entry, because no entry is on a foreign ledger |
| BookReports.GroupSumsFacts | backend/app/services/accounting_service.py:514-543 | the grouped sums have one row per ledger and side and keep what each ledger has on it |
| BookReports.ClosingsWithOpening | backend/app/services/accounting_service.py:492-565 | closing balances of any natures are their openings plus all movements up to the end |
| BookReports.ListLedgersFacts | backend/app/services/accounting_service.py:492-512 | every ledger is listed once, in name order |
| BookLaws.TrialBalanceDrift | backend/app/services/accounting_service.py:567-575 | debit minus credit is the openings plus the signed imbalance of the covered vouchers, at most a paisa each |
| BookLaws.TrialBalanceOfEveryRun | backend/app/services/accounting_service.py:567-575 | the same for the books that any sequence of operations leaves |
| BookLaws.DriftIsUnbounded | backend/app/rules/accounting.py:49-60 | n vouchers of one paisa each move the difference by n paise: the bound is sharp |
| BookLaws.TrialBalanceNeedNotTie | backend/app/rules/accounting.py:122-124 | two such vouchers on a newly seeded chart break the tie |
| BookLaws.BalanceSheetIdentity | backend/app/services/accounting_service.py:596-613 | assets minus liabilities is the trial balance difference plus exactly the profit left out |
| BookLaws.SheetTiesExactlyWhenNothingIsLeftOut | backend/app/services/accounting_service.py:596-613 | with exact vouchers and openings the sheet ties if and only if the left-out profit is zero, and its flag is set if and only if that profit is at most a paisa |
| BookLaws.EarlierSaleUnbalancesTheSheet | backend/app/services/accounting_service.py:596-613 | a balanced sale before the financial year of today moves the sheet's difference by its amount and the trial balance not at all |
| BookLaws.LastYearsSaleUnbalancesTheSheet | backend/app/services/accounting_service.py:596-613 | a run from empty books, seeding and one balanced sale, after which the trial balance ties and the sheet does not |
| BookLaws.ClosingIgnoresPeriodStart | backend/app/services/accounting_service.py:524-565 | a ledger's closing balance does not depend on where the period begins |
| BookLaws.NetProfitIsAdditive | backend/app/services/accounting_service.py:577-594 | net profit adds up over adjacent periods |
| BookLaws.StatementAgreesWithLine | backend/app/services/accounting_service.py:638-680 | the statement, transaction by transaction, ends at the closing balance of the grouped sums |
| BookLaws.StatementOrder | backend/app/services/accounting_service.py:650-668 | it runs through exactly the vouchers of the period in date order |
| AccountingService.AccountingService.EnsureChartOfAccounts | backend/app/services/accounting_service.py:119-166 | the loops seed exactly what is missing, by name |
| AccountingService.AccountingService.CreateLedger | backend/app/services/accounting_service.py:196-230 | new state and reply of the ledger step |
| AccountingService.AccountingService.GetOrCreatePartyLedger | backend/app/services/accounting_service.py:232-274 | finds the party's ledger without regard to case, or adds it to the first group of its classification |
| AccountingService.AccountingService.NextVoucherNumber | backend/app/services/accounting_service.py:280-293 | the number follows the count of the type's vouchers |
| AccountingService.AccountingService.CreateVoucher | backend/app/services/accounting_service.py:295-363 | new state and reply of the voucher step; the invariant is kept unless a posted invoice is posted again |
| AccountingService.AccountingService.PostInvoice | backend/app/services/accounting_service.py:415-486 | accepted exactly when postable; adds that one voucher, which books the fields of the items to the ledgers of the names; on an error the session keeps the seeded chart and new party |
| AccountingService.AccountingService.LedgerLines | backend/app/services/accounting_service.py:492-565 | the two dictionaries filled by loops give each ledger its opening, debit and credit sums over the entries |
| AccountingService.AccountingService.TrialBalance | backend/app/services/accounting_service.py:567-575 | rows and totals, their exact difference, and when the balanced flag is set |
| AccountingService.AccountingService.ProfitAndLoss | backend/app/services/accounting_service.py:577-594 | the four sections and gross profit; net profit is what income and expense ledgers earned in the period, 1 April to 31 March around today by default |
| AccountingService.AccountingService.BalanceSheet | backend/app/services/accounting_service.py:596-613 | sections, totals, the profit since 1 April of the financial year of today, the exact difference of the sheet, and when its balanced flag is set |
| AccountingService.AccountingService.LedgerStatement | backend/app/services/accounting_service.py:626-686 | every running balance is opening plus prefix sum, and the walk ends at the closing balance of the grouped sums |
| Reconciliation.ExactPartition | backend/app/rules/gstr_reconciliation.py:167-310 | every book invoice and every return record occurs in exactly one result |
| Reconciliation.NoKeyUnmatchedOnBothSides | backend/app/rules/gstr_reconciliation.py:205-308 | no non-blank key has unmatched rows on both sides |
| Reconciliation.PairsPerKey | backend/app/rules/gstr_reconciliation.py:220-295 | a key with b books and r records yields exactly min(b, r) pairs |
| Reconciliation.PairsAreMaximum | backend/app/rules/gstr_reconciliation.py:205-308 | no other matching of equal keys has more pairs |
| ReconciliationEngine.GroupByKey | backend/app/rules/gstr_reconciliation.py:167-183 | the dictionary loop files each position under its key in order, blank numbers apart |
| ReconciliationEngine.Reconcile | backend/app/rules/gstr_reconciliation.py:151-310 | the loops report the pairings in their order, each with its status, differences, tax at risk and reason |
| ReconciliationEngine.PairingsReconcile | backend/app/rules/gstr_reconciliation.py:185-310 | the pairings reported are exactly those that belong, each once: rows of the same non-blank key at the same position within it, and every other row alone |
| ReconciliationLaws.AgreeIsSameKey | backend/app/rules/gstr_reconciliation.py:41-50 | rows have the same usable key exactly when their stripped, upper-cased GSTINs are equal and their numbers have the same letters and digits, at least one |
| ReconciliationLaws.OnlyAgreeingRowsArePaired | backend/app/rules/gstr_reconciliation.py:205-295 | a result names a book and a record only if these two rows agree in that sense |
| ReconciliationLaws.LoneAgreeingRowsArePaired | backend/app/rules/gstr_reconciliation.py:205-295 | a book and a record that agree with each other and nothing else are paired |
| ReconciliationLaws.UnreportedBook | backend/app/rules/gstr_reconciliation.py:185-308 | a book no record agrees with is missing in the return with all its tax at risk, for a blank number or as not reported |
| ReconciliationLaws.UnrecordedRecord | backend/app/rules/gstr_reconciliation.py:185-308 | a record no book agrees with is missing in the books |
| ReconciliationLaws.PairedMeans | backend/app/rules/gstr_reconciliation.py:221-268 | a pair is matched exactly if both amounts are within their tolerances, else what the books claim above the return is at risk |
| ReconciliationLaws.RunsAllowOneRupee | backend/app/rules/gstr_reconciliation.py:35-36 | the default tolerances are a rupee each |
| ReconciliationLaws.SummaryMeans | backend/app/rules/gstr_reconciliation.py:337-363 | what each result adds to a summary that starts at zero |
| ReconciliationAudit.Summarize | backend/app/rules/gstr_reconciliation.py:337-363 | the counters and sums are the tallies of the results |
| ReconciliationAudit.BucketsCountInputs | backend/app/rules/gstr_reconciliation.py:337-363 | the buckets add up to the number of books and of records |
| ReconciliationAudit.TaxIsConserved | backend/app/rules/gstr_reconciliation.py:221-308 | all tax of both inputs is in the results |
| ReconciliationAudit.AuditInequality | backend/app/rules/gstr_reconciliation.py:221-308 | book tax is at most paired return tax plus tax at risk plus the tolerance per match; return tax is paired plus unclaimed, exactly |
| ReconciliationService.UnlinkKeepsTally | backend/app/services/reconciliation_service.py:149-157 | deleting records unlinks matches but changes no bucket |
| ReconciliationService.UnlinkIsExact | backend/app/services/reconciliation_service.py:149-157 | a stored record's id is among the deleted ones exactly if the record is deleted |
| ReconciliationService.ReplacedMatches | backend/app/services/reconciliation_service.py:276-319 | replacing a run's matches leaves the other runs' matches alone |
| ReconciliationService.ReconciliationService.ImportRecords | backend/app/services/reconciliation_service.py:136-193 | a valid upload replaces exactly the rows of its period and source; stored counts keep agreeing with stored matches, record ids stay distinct, and every link of a match stays live |
| ReconciliationService.ReconciliationService.Run | backend/app/services/reconciliation_service.py:221-333 | one run per period, replaced by a reconciliation of the period's live purchases with the source's records; its counts are the tallies of its matches |
| ReconciliationLaws.BooksOfRun | backend/app/services/reconciliation_service.py:197-253 | a run compares the purchases dated in the period that have not failed or been rejected, a missing amount as zero |
| ReconciliationLaws.RecordsOfRun | backend/app/services/reconciliation_service.py:210-266 | with the records of the period and source, whose tax is all four components |
| ReconciliationLaws.StoredMeans | backend/app/services/reconciliation_service.py:159-177 | a row is stored stripped, blank texts as missing, the GSTIN in upper case |
| ReconciliationLaws.StoredRowAt | backend/app/services/reconciliation_service.py:159-165 | rows are numbered from 0 in their order |
| Chunking.ParagraphsKeepContent | backend/app/ingestion/chunking.py:17 | splitting into paragraphs removes whitespace only |
| Chunking.SentencesKeepContent | backend/app/ingestion/chunking.py:18 | splitting into sentences removes whitespace only |
| ChunkPieces.ParagraphsAreSplit | backend/app/ingestion/chunking.py:17 | paragraphs end where two newlines with only whitespace between begin, and go on behind the longest such stretch |
| ChunkPieces.SentencesAreSplit | backend/app/ingestion/chunking.py:18 | sentences end at whitespace behind a full stop, exclamation or question mark, and go on behind all of it |
| ChunkPieces.SentencesAreRuns | backend/app/ingestion/chunking.py:32-43 | a long paragraph is packed into runs of its sentences that could not take the next one |
| Chunking.SplitParagraph | backend/app/ingestion/chunking.py:29-52 | the loops compute the pieces: the paragraph if it fits, else packed sentences, cut where still too long |
| Chunking.HardSplit | backend/app/ingestion/chunking.py:46-52 | the slice loop computes the consecutive cuts |
| Chunking.ParagraphFits | backend/app/ingestion/chunking.py:29-52 | every piece has between 1 and max_chars characters, and the pieces hold the paragraph's content |
| Chunking.PagePiecesFit | backend/app/ingestion/chunking.py:66-76 | the same for all paragraphs of a page |
| ChunkPieces.CutMeans | backend/app/ingestion/chunking.py:47-51 | a hard split is the text itself in slices, all of them full but the last |
| ChunkPieces.ParagraphMeans | backend/app/ingestion/chunking.py:29-52 | a paragraph that fits is one piece, of a longer one each packed text is cut by itself |
| ChunkPieces.PagePiecesMean | backend/app/ingestion/chunking.py:73-76 | the pieces of a page are those of its stripped paragraphs in order; blank ones give none |
| ChunkPages.ChunkPage | backend/app/ingestion/chunking.py:70-97 | the packing loop emits the page's texts, numbered on from the document's index |
| ChunkPages.PageIsCovered | backend/app/ingestion/chunking.py:75-97 | each chunk is an end of the one before, no longer than the overlap, followed by a body; the bodies hold exactly the page's text, and every chunk fits max_chars |
| ChunkRuns.PageRuns | backend/app/ingestion/chunking.py:78-97 | the chunks of a page are runs of its pieces, joined by blank lines, from the first piece to the last; no run could take the next piece |
| ChunkRuns.ChunkBeginsWithOverlap | backend/app/ingestion/chunking.py:88-91 | each later chunk begins with the last characters of the one before, as many as the overlap or that chunk has, a blank line and the piece that did not fit, if these fit together, and else with that piece |
| ChunkRuns.EmittedChunkBegins | backend/app/ingestion/chunking.py:85-91 | the same for the emitted chunks |
| ChunkPages.NoOverlapNoRepetition | backend/app/ingestion/chunking.py:86-93 | without overlap the chunks hold each character once |
| ChunkPages.ChunkDocument | backend/app/ingestion/chunking.py:55-99 | the page loop appends the pages' chunks with one running index |
| ChunkPages.ChunkShape | backend/app/ingestion/chunking.py:66-99 | chunk k has index k, fits, comes from one page, and pages hold consecutive runs of chunks |
| ChunkPages.PageHasChunk | backend/app/ingestion/chunking.py:67-68 | a page has a chunk exactly when its text is not all whitespace |
| SseStream.SplitIsSplit | frontend/lib/api-client.ts:120-121 | splitting gives frames that join to the text, hold no blank line, and do not end in a newline before one |
| SseStream.SplitIsUnique | frontend/lib/api-client.ts:120-121 | there is only one such list of frames |
| SseStream.SplitContinues | frontend/lib/api-client.ts:118-121 | later text only ever extends the last frame |
| SseStream.StreamChat | frontend/lib/api-client.ts:113-131 | however the text is cut into reads, the events delivered are those of the whole text split once without its last frame, which stays in the buffer |
| SseStream.DataFrame | frontend/lib/api-client.ts:123-127 | whitespace around a data line and behind its colon does not matter: the event is that of the text |
| SseStream.OtherFrame | frontend/lib/api-client.ts:124-125 | a frame that is blank or whose text does not begin with "data:" has no event |
| SseStream.DeliveryOnlyGrows | frontend/lib/api-client.ts:113-131 | more text never takes an event back |
| SseStream.PrintedStreamIsDelivered | backend/app/api/v1/chat.py:63-76 | reading what the endpoint prints delivers exactly the emitted events and leaves nothing over |
| SseStream.BrokenStream | backend/app/api/v1/chat.py:63-76 | a stream that breaks off inside a frame has delivered exactly the events before it |
| ReturnAggregation.TaxTotals.AddLine | backend/app/rules/return_aggregation.py:55-60 | adds a line's five amounts to the five totals |
| ReturnAggregation.BucketByRate | backend/app/rules/return_aggregation.py:100-105 | the dictionary loop gives one bucket per rate, sorted, with the totals of the lines at that rate |
| ReturnAggregation.GroupCounterparties | backend/app/rules/return_aggregation.py:108-139 | the loops give one group per key of the registered or unregistered invoices, with its totals and rate breakdown |
| ReturnAggregation.TotalsFor | backend/app/rules/return_aggregation.py:172-177 | totals over all lines of all invoices |
| ReturnAggregation.BuildGstr1 | backend/app/rules/return_aggregation.py:180-189 | sections, buckets and totals of the sales invoices |
| ReturnMeanings.Gstr1Means | backend/app/rules/return_aggregation.py:180-189 | B2B has one group for each GSTIN sold to, with all sales to it; B2C one for each place sold at without a GSTIN; names, counts, totals and rates of each, largest first, and the rates and totals of all sales |
| ReturnMeanings.BreakdownMeans | backend/app/rules/return_aggregation.py:100-105 | one bucket for each rate that occurs, rates increasing, each column the sum at that rate |
| ReturnAggregation.BuildGstr3b | backend/app/rules/return_aggregation.py:192-215 | outward is, column by column, the sum over the lines of sales, credit that of purchases; each net component is what outward exceeds the credit by, or nothing |
| ReturnAggregation.Gstr3bMeans | backend/app/rules/return_aggregation.py:192-215 | the same of the summary as a function of the invoices |
| ReturnMeanings.OneMoreInvoice | backend/app/rules/return_aggregation.py:192-197 | one more sale moves outward by just its lines, one more purchase the credit, any other invoice neither |
| ReturnAggregation.Net | backend/app/rules/return_aggregation.py:199-202 | net tax is at least zero and at least outward less credit, and equal to that exactly when no component's credit exceeds its outward tax |
| ReturnAggregation.CsvRows | backend/app/rules/return_aggregation.py:218-250 | header, then a row for each bucket of each B2B and B2C group |
| ReturnMeanings.SectionRowsMean | backend/app/rules/return_aggregation.py:234-249 | the rows of a section are those of all rates of all its groups, with GSTIN or blank, name and amounts |
| ReturnLaws.BucketsConserve | backend/app/rules/return_aggregation.py:100-105 | the buckets add up to the lines in each of the five amounts |
| ReturnLaws.RatesIncrease | backend/app/rules/return_aggregation.py:105 | bucket rates strictly increase |
| ReturnLaws.RateHasBucket | backend/app/rules/return_aggregation.py:100-105 | a rate has its bucket exactly when a line has that rate |
| ReturnLaws.GroupsConserve | backend/app/rules/return_aggregation.py:108-139 | any measure summed over the groups is that measure summed over the selected invoices |
| ReturnLaws.Gstr1Conserves | backend/app/rules/return_aggregation.py:180-189 | B2B plus B2C, and the buckets, each come to the sales totals; every sales invoice is counted once |
| ReturnLaws.GstinHasGroup | backend/app/rules/return_aggregation.py:108-139 | a GSTIN that occurs has a B2B group of all its invoices |
| ReturnLaws.GroupIsWhole | backend/app/rules/return_aggregation.py:108-139 | every B2B group is the group of one GSTIN and all its invoices |
| ReturnLaws.GroupShape | backend/app/rules/return_aggregation.py:119-137 | a group's breakdown adds up to its totals, and it is in the section its GSTIN says |
| ReturnLaws.LargestFirst | backend/app/rules/return_aggregation.py:138 | groups come by decreasing taxable value |
| ReturnLaws.CsvConserves | backend/app/rules/return_aggregation.py:218-250 | the CSV rows add up to the sales totals in each amount |
| ReturnLifecycle.Find | backend/app/services/return_service.py:126-133 | the first return of a type and period, if there is one |
| ReturnLifecycle.BuildFigures | backend/app/services/return_service.py:112-124 | count, taxable value, tax and summary stored for either return type |
| LifecycleOutcomes.FiguresMean | backend/app/services/return_service.py:117-126 | GSTR-1 stores number, value and tax of the sales, GSTR-3B the number of all invoices, the outward value and the net tax |
| ReturnLifecycle.ReviewDesk.Generate | backend/app/services/return_service.py:101-176 | new state and reply: refused for a bad period or a locked return, else the return holds the new figures and nothing of its review |
| ReturnLifecycle.ReviewDesk.SubmitForReview | backend/app/services/return_service.py:197-235 | only a generated or draft return goes under review, with a pending task showing its figures |
| ReturnLifecycle.ReviewDesk.Export | backend/app/services/return_service.py:277-312 | never refused for an existing return; an approved one becomes exported |
| ReturnLifecycle.ReviewDesk.CreateTask | backend/app/services/approval_service.py:36-63 | a pending task is added |
| ReturnLifecycle.ReviewDesk.Decide | backend/app/services/approval_service.py:98-147 | which decisions are refused, and what an accepted one does to task and return |
| ReturnLifecycle.ReviewDesk.PropagateReturnDecision | backend/app/services/approval_service.py:149-173 | a return task moves the return it names, any other task none |
| LifecycleLaws.StepKeepsSound | backend/app/services/approval_service.py:112-173 | every command keeps the invariant |
| LifecycleLaws.EveryRunIsSound | backend/app/services/return_service.py:101-312 | after every run: one return per type and period; under review means an own task pending or modified; approved or exported means approved by the named user on an own task |
| LifecycleLaws.RefusalChangesNothing | backend/app/services/approval_service.py:108-120 | a refused command leaves the state as it was |
| LifecycleOutcomes.ValidPeriodIsMonth | backend/app/services/return_service.py:42-47 | a period is accepted exactly if it is four digits, a hyphen and one of 01 to 12 |
| LifecycleOutcomes.GenerateOutcome | backend/app/services/return_service.py:101-176 | accepted exactly for a month whose return, if any, is neither approved nor filed; that return, or a new one at the end, then holds the figures and nothing of a review |
| LifecycleOutcomes.SubmitOutcome | backend/app/services/return_service.py:197-235 | accepted exactly for a generated or draft return, which goes under review with one new task that shows its figures |
| LifecycleOutcomes.ExportOutcome | backend/app/services/return_service.py:277-312 | an approved return becomes exported, every other one keeps its status, and only the storage key may change besides |
| LifecycleOutcomes.DecideOutcome | backend/app/services/approval_service.py:98-173 | accepted exactly for one of three decisions on a pending task, a modification with a payload; approving, rejecting and modifying each do just one thing to task and return |
| LifecycleOutcomes.CreateOutcome | backend/app/services/approval_service.py:36-63 | a task waits for a decision, and no return changes |
| LifecycleLaws.DecidedOnce | backend/app/services/approval_service.py:113-126 | over every run a decided task never changes again, and what a task is about never does |
| LifecycleLaws.FiguresChangeOnlyByGenerate | backend/app/services/return_service.py:144-157 | only an accepted generate changes figures; none does while the return is approved |
| LifecycleLaws.ApprovedFiguresWereReviewed | backend/app/services/return_service.py:200-222 | whatever happens between a submit and the approval of its task, short of a regeneration, the approved figures are those the task shows |
| LifecycleLaws.FiguresAreOfLastRegeneration | backend/app/services/return_service.py:144-157 | after any run a return's figures are those of its last regeneration, or else the ones it had |
| LifecycleLaws.TaskShowsApprovedFiguresExactlyWhen | backend/app/services/approval_service.py:122-173 | for any run between submit and approval, the task shows the approved figures if and only if there was no regeneration or the last one has the submitted count and tax |
| LifecycleLaws.StaleTaskApprovesNewFigures | backend/app/services/approval_service.py:165-173 | a task survives the regeneration of its return: its approval approves the new figures, which it shows exactly if count and tax are the old ones |
| LifecycleLaws.StaleRunApprovesWhatWasNotShown | backend/app/services/approval_service.py:165-173 | the run from nothing that generates, submits, regenerates with another count or tax and approves ends with a task that does not show what was approved |
| LifecycleLaws.LateSaleIsApprovedUnseen | backend/app/services/return_service.py:112-157 | with the figures of real invoices: a sale generated in during the review is approved on a task that lacks it and all its tax |
| LifecycleLaws.RegenerationOverwrites | backend/app/services/return_service.py:144-157 | a return that is not approved is overwritten, also under review or exported |
| LifecycleLaws.StatusMoves | backend/app/services/approval_service.py:149-173 | the only moves of a return's status, each with the command and status it needs |
| GstCalculator.RoundError | backend/app/rules/gst_calculator.py:81-82 | rounding moves an amount by at most half a paisa |
| GstCalculator.RoundOfPaise | backend/app/rules/gst_calculator.py:81-82 | whole paise are not changed |
| GstCalculator.LineMeaning | backend/app/rules/gst_calculator.py:112-155 | a line adds up, value and cess are within half a paisa, zero-rated kinds owe nothing and warn exactly when given a rate |
| GstCalculator.LineComponents | backend/app/rules/gst_calculator.py:119-135 | the four untaxed kinds owe nothing, inter-state lines IGST alone, intra-state ones equal CGST and SGST, each within half a paisa |
| GstCalculator.Refusals | backend/app/rules/gst_calculator.py:112-117 | what is refused, and with which of several complaints |
| GstCalculator.HalvesAndWhole | backend/app/rules/gst_calculator.py:126-135 | CGST plus SGST and IGST differ by at most one paisa |
| GstCalculator.HalvesDifferWhen | backend/app/rules/gst_calculator.py:126-135 | exactly for which amounts they differ, and which way |
| GstCalculator.EachLine | backend/app/rules/gst_calculator.py:173-181 | the i-th result is the calculation of the i-th item |
| GstCalculator.RefusedItem | backend/app/rules/gst_calculator.py:173-181 | a list is accepted exactly when each item is |
| GstCalculator.TotalsAddUp | backend/app/rules/gst_calculator.py:183-198 | grand total is value plus tax, and tax its four components, per line and for the invoice |
| GstCalculator.TotalsByColumn | backend/app/rules/gst_calculator.py:184-197 | the invoice total is each column's sum over the lines |
| GstCalculator.TotalComponents | backend/app/rules/gst_calculator.py:173-198 | an inter-state total has no CGST and SGST, an intra-state one no IGST and equal halves, an untaxed one no tax |
| GstCalculator.ExactTaxAtOneRate | backend/app/rules/gst_calculator.py:183-198 | at one rate the exact tax of the items is the tax on their summed value |
| GstCalculator.LinesTaxError | backend/app/rules/gst_calculator.py:183-198 | n lines drift from the exact tax by at most n/2 paise (IGST) or n paise (CGST and SGST) |
| InvoiceValidation.CheckTax | backend/app/rules/invoice_validation.py:233-269 | one issue, naming the line, for each line more than a rupee off, none for the others |
| InvoiceValidation.CheckHsn | backend/app/rules/invoice_validation.py:215-230 | lists the numbers of exactly the lines without a code, in increasing order |
| InvoiceValidation.ApplyRule | backend/app/rules/invoice_validation.py:295-308 | the issues of each of the ten rules |
| InvoiceValidation.ValidateInvoice | backend/app/rules/invoice_validation.py:311-332 | issues of all rules in order, number passed, score and status |
| ValidationLaws.RuleIsSilent | backend/app/rules/invoice_validation.py:103-292 | a rule raises nothing exactly when the invoice satisfies what it checks |
| ValidationLaws.ReportedExactlyWhenTrue | backend/app/rules/invoice_validation.py:103-308 | an issue, with its code, severity and field, is reported if and only if what it says is true of the invoice; a declared tax or value counts as off by more than 100 paise |
| ValidationLaws.FindingsInOrder | backend/app/rules/invoice_validation.py:295-318 | issues come rule by rule |
| ValidationLaws.ScoreByCount | backend/app/rules/invoice_validation.py:92-98 | the score is a hundred less 30, 15, 8 and 3 for each critical, high, medium and low issue, and not below zero |
| ValidationLaws.ReportIsCoherent | backend/app/rules/invoice_validation.py:311-332 | no issue, ten passed checks and a score of 100 are the same; a critical issue caps the score at 70 |
| ValidationLaws.RecheckedTax | backend/app/rules/invoice_validation.py:243-256 | tax recomputed from the rounded value is at most two paise from the calculated tax |
| ValidationLaws.CalculatedInvoicePasses | backend/app/rules/invoice_validation.py:233-292 | lines from the calculator raise neither mismatch, for any number of lines, rate and transaction type |
| ValidationLaws.CalculatedInvoiceIsClean | backend/app/rules/invoice_validation.py:311-332 | with its particulars in order such an invoice has no issue, ten passed checks and 100 points |
| ValidationLaws.ToleranceIsSharp | backend/app/rules/invoice_validation.py:255-256 | a declared tax up to 98 paise off the calculator's is never questioned, beyond 102 always |
| ValidationLaws.BoundsAreAttained | backend/app/rules/invoice_validation.py:255-256 | a line 99 paise off that is questioned and one 102 paise off that is accepted |
| Gstin.ComputeChecksum | backend/app/rules/gstin_validator.py:39-51 | the loop finds a fitting check character, or fails outside the alphabet |
| Gstin.OneCheckCharacter | backend/app/rules/gstin_validator.py:39-51 | exactly one check character fits a prefix of any length |
| Gstin.TotalIsWeightedSum | backend/app/rules/gstin_validator.py:39-51 | the checksum total of any text is the sum of its values, those at every second place doubled and their base-36 digits added |
| Gstin.CheckEquation | backend/app/rules/gstin_validator.py:39-51 | the equation the fifteen characters have to satisfy |
| Gstin.SubstitutionDetected | backend/app/rules/gstin_validator.py:39-51 | every change of a single character is noticed |
| Gstin.SwapDetected | backend/app/rules/gstin_validator.py:39-51 | a swap of prefix neighbours goes unnoticed exactly for equal characters and the pair 0, Z |
| Gstin.LastSwapDetected | backend/app/rules/gstin_validator.py:39-51 | the same for the last prefix character and the check character at even prefix length; at odd length no such swap is noticed |
| Gstin.ValidateGstin | backend/app/rules/gstin_validator.py:54-85 | valid exactly for a GSTIN after stripping and upper-casing; which errors are listed when |
| Gstin.GstinMeans | backend/app/rules/gstin_validator.py:16-27 | what a GSTIN is, place by place |
| Gstin.KnownGstin | backend/app/rules/gstin_validator.py:54-85 | 27AAPFU0939F1ZV is one |
| Gstin.WrongCharacterIsRejected | backend/app/rules/gstin_validator.py:54-85 | no GSTIN becomes another by changing one character |
| Gstin.SwappedNeighboursAreRejected | backend/app/rules/gstin_validator.py:54-85 | nor by swapping two different neighbours |
| RankFusion.ReciprocalRankFusion | backend/app/rag/hybrid_retriever.py:145-154 | the two loops give every id found its summed shares, keyed in order of first occurrence |
| RankFusion.ScoreOfRanks | backend/app/rag/hybrid_retriever.py:145-154 | an id found at ranks r and q scores 1/(60+r) + 1/(60+q), or the one of them if it was found once |
| RankFusion.RankedIds | backend/app/rag/hybrid_retriever.py:116-117 | sorting and truncating give the first ids of the ranking with their scores |
| RankFusion.RankingIsUnion | backend/app/rag/hybrid_retriever.py:116-117 | the ranking holds exactly the ids either search found, each once, by non-increasing score |
| RankFusion.TiesAsFound | backend/app/rag/hybrid_retriever.py:116 | of two ids the one found first, dense results first, is ranked first unless the other scores more |
| RankFusion.Dominance | backend/app/rag/hybrid_retriever.py:145-154 | an id ahead of another in both lists is ranked before it |
| RankFusion.BothBeatOne | backend/app/rag/hybrid_retriever.py:145-154 | with lists of at most 61 ids, what both searches found precedes what only one found |
| RankFusion.SixtyOneIsTheLimit | backend/app/rag/hybrid_retriever.py:145-154 | lists of 62 on which that fails |

## Left out

- Database, sessions, queues, object storage, HTTP, authentication and audit log rows: foreign calls and records nothing reads back.
- Language model, OCR, embeddings, reranker and BM25 scoring: the lists they return are inputs.
- JSON and UTF-8 in the event stream: encoder and parser are parameters with the round trip that `SseStream.Decodes` states; the reader works on decoded characters.
- Loading the invoices of a return's period and taking buyer or supplier as the counterparty: they arrive as the inputs of the aggregation.
- A throwing event callback in the stream reader: delivery means that the callback was called.
- Unicode case mapping and Unicode digits: upper and lower case, and `isdigit`, are those of ASCII; the whitespace of `strip`, `\s` and `trim` is modelled in full.
- Row order of queries without ORDER BY: taken as the order of insertion.
- Narration, references, reason and message texts, party and GSTIN metadata of ledgers: carried along by the code but read by none of the operations modelled; reasons are an enumeration.
- Day book, outstanding list and CSV output of the accounting reports: filters and formatting over figures that are modelled.
- Deleting invoices or users, which clears references elsewhere.
- CSV parsing of uploads: rows arrive parsed, with amounts already in paise.
- Amounts with more than two decimals in the ledger, and the 28-digit context of Decimal: integers and reals are exact.
- Floating-point rounding of fused scores: scores are exact reals, so ties are exact.
- Building candidates from payloads and reranking after fusion.
- A non-positive max_chars: for 0 the slice loop of the source raises, and for a negative value it is empty, so that text is dropped.
- Rolling back a failed request: `backend/app/core/database.py` (52-60) does so on an exception, and then the chart and party that posting added go too; the model is of the session, which callers may also keep after an error.
- RateBucket and group objects in dictionaries are values: replacing an entry stands for updating the object in place, so aliasing is not captured; the running totals of a loop are an object.
- SplitParagraph: computes the pieces only; that they fit and hold the paragraph is `Chunking.ParagraphFits`.
- ChunkPage: computes the chunks only; what they cover is `ChunkPages.PageIsCovered`.
- Export: the text of the exported file is not part of the state; its rows are `ReturnAggregation.CsvRows`.
- Find: the query raises on two returns of one type and period, which no run produces (`LifecycleLaws.EveryRunIsSound`).
- GSTR3BSummary as text: figures are numbers, not the strings of `as_dict`.
- Evaluation metrics, organisation membership rules, analytics and web pages: easy members or outside the core.
