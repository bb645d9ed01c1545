# EDGAR filing-to-canonical-table pipeline, modelled in Dafny

This project models the core of a service that builds financial statements from SEC
EDGAR filings. It covers three things.

- **Filing locators.** These pick a company's filings:
  - the trailing window of `sec_edgar_endpoint` in `backend/headers/edgarAPI.py`;
  - the EDGAR full-text search of `fetch_historical_10k_filings_api_get`;
  - the submissions feed of `check_fillings.py`.
- **Instance-address builders.** These are `create_edgar_link`, the five link candidates
  of the validation script, and the search-hit links.
- **`xbrl_data_processor`** in its three variants:
  - `backend/headers/xbrlprocesscheck.py` (A) parses every filing's XBRL instance
    document. It extracts the facts with exactly five dimension keys. A document with
    fewer than 1000 facts turns on a fallback to the company-facts API.
  - `backend/headers/xbrlprocessor_check.py` (B) uploads every parsed document to a
    bucket, then reads it back.
  - `backend/headers/xbrlprocessing.py` (C) saves the documents of the filings whose link
    answers to local files, then reads them back.

  In every variant, each accounting variable is resolved by `find_latest_tuple_by_string`.
  This takes the first synonym any fact carries, then that concept's latest fact. The
  values land in a canonical table: fixed rows, one column per report date in ascending
  order, zero by default, and a few cells derived from others.

The project also covers the incremental sync controllers of the two batch loaders. These
decide whether a company is reprocessed, and which slice of the company list a batch run
takes. It also covers the small ticker and CIK helpers.

## How the model is built

- Dates are integer ordinals and fact values are integers; values are only copied,
  added or subtracted.
- A fact is `(concept, value, stamp)`.
- Python dictionaries that the code fills in a loop are sequences of key/value pairs,
  with the dictionary's insertion order and replacement on a repeated key (`Dicts`).
- The canonical table is a class:
  - `rows`, the labels in order;
  - `dates`, the columns, ascending;
  - `cells`, a map from (label, date) to value.
- Every loop of the source is a method with a `while` loop. Each method is proved equal
  to a recursive specification function, and the properties are lemmas about that function.
- The outside world enters as parameters:
  - the XBRL parser is a function from link to `Parsed(document)` or `Failed(message)`;
  - `datetime.fromisoformat`/`pd.to_datetime` are functions from string to `Option<int>`;
  - the HTTP link probe is a predicate on URLs;
  - the company-facts response, today's date and the search hits are plain inputs;
  - the bucket and the output directory are maps from key to document.

## Model

| member | source | states |
|---|---|---|
| ConceptLookup.Latest | backend/headers/xbrlprocesscheck.py:99-110 | the result is absent exactly when no fact has the key; otherwise it is a fact of the input with that concept whose stamp is at least every other such fact's |
| ConceptLookup.LatestIsFirstOfLatest | backend/headers/xbrlprocessing.py:108-125 | on equal stamps the earliest fact in list order wins: every earlier fact of the key is strictly older |
| ConceptLookup.KeyFromNone | backend/headers/xbrlprocesscheck.py:86-95 | the synonym scan finds no key iff no fact carries any synonym |
| ConceptLookup.SearchKeyIsFirstMatch | backend/headers/xbrlprocesscheck.py:86-95 | the search key is the first synonym, in list order, that some fact carries |
| ConceptLookup.FindLatestNone | backend/headers/xbrlprocessor_check.py:83-108 | the lookup returns None iff no fact's concept equals any synonym |
| ConceptLookup.FindLatestPriority | backend/headers/xbrlprocesscheck.py:83-110 | synonym priority first: when synonym i is the first present, the result has concept i and the latest stamp among its facts, even if a later synonym has newer facts |
| ConceptLookup.ScanSynonyms | backend/headers/xbrlprocesscheck.py:86-95 | the nested scan loop yields exactly the specified search key |
| ConceptLookup.ScanLatest | backend/headers/xbrlprocesscheck.py:99-110 | the latest-fact loop with strict `>` replacement yields exactly `Latest` |
| ConceptLookup.FindLatestGuarded | backend/headers/xbrlprocesscheck.py:83-110 | the variant with the early `return None` computes the specified lookup |
| ConceptLookup.FindLatestUnguarded | backend/headers/xbrlprocessor_check.py:83-108 | the variant without the early return computes the same lookup: with no key no fact matches |
| Accounts.RowListsShape | backend/headers/xbrlprocesscheck.py:60-81 | the row lists have 35, 31 and 18 labels, and list A spells `InteresIncome`, not `InterestIncome` |
| CanonicalTable.Insert | backend/headers/xbrlprocesscheck.py:67-68 | inserting a date into an ascending list keeps it ascending and adds exactly that date |
| CanonicalTable.SortedDates | backend/headers/xbrlprocesscheck.py:67-68 | the columns are strictly ascending and are exactly the dictionary's dates |
| CanonicalTable.AscendingUnique | backend/headers/xbrlprocesscheck.py:67-68 | two ascending lists with the same members are equal, so the column order is determined by the dates alone |
| CanonicalTable.Zeros | backend/headers/xbrlprocesscheck.py:70-81 | the initial table has a cell for exactly every (row, date) pair, each 0 |
| CanonicalTable.Table.constructor | backend/headers/xbrlprocesscheck.py:60-81 | a new table has the given rows in order, the sorted dates and all-zero cells |
| CanonicalTable.Table.SetCell | backend/headers/xbrlprocesscheck.py:872-880 | a `.at` write changes only the named cell, and writing a label that is not a row changes nothing |
| CanonicalTable.WriteColumn | backend/headers/xbrlprocesscheck.py:493-880 | writing a date's column changes only that date's cells of the written labels, to the column's values |
| CanonicalTable.Table.FillColumn | backend/headers/xbrlprocesscheck.py:493-880 | the loop of cell writes for one date leaves the table `WriteColumn` describes |
| CanonicalTable.LastColumn | backend/headers/xbrlprocesscheck.py:493-497 | the column a date receives is the one of its last occurrence in the dictionary, or none |
| CanonicalTable.Populated | backend/headers/xbrlprocesscheck.py:493-497 | after the population loop a cell holds its date's column value when the date is a column and the label is written, and is otherwise unchanged |
| CanonicalTable.Table.Populate | backend/headers/xbrlprocesscheck.py:493-880 | the population loop over the dictionary leaves the table `Populated` describes |
| CanonicalTable.PopulatedFrame | backend/headers/xbrlprocesscheck.py:493-497 | cells of unwritten labels or of dates without a column keep their value |
| CanonicalTable.PopulatedCell | backend/headers/xbrlprocesscheck.py:493-880 | in the built table, a written label's cell holds the value computed from its date's facts |
| CanonicalTable.UnwrittenZero | backend/headers/xbrlprocesscheck.py:872-880 | a row that no block writes stays 0 in every column |
| Extraction.PeriodEndOfInterval | backend/headers/xbrlprocesscheck.py:392-396 | an ISO 8601 interval `start/end` is reduced to `end` under both rules |
| Extraction.PeriodEndOfInstant | backend/headers/xbrlprocesscheck.py:392-396 | a period without `/` is kept as it is under both rules |
| Extraction.SlashMeansTwoPieces | backend/headers/xbrlprocessor_check.py:356-361 | a period containing `/` splits into at least two pieces |
| Extraction.PeriodRulesAgree | backend/headers/xbrlprocessor_check.py:356-361 | the strict rule raises exactly on periods with two or more `/`, and otherwise agrees with the lenient rule of variant A |
| Extraction.KeepRulesAgree | backend/headers/xbrlprocessor_check.py:345-370 | a fact the strict rule keeps is kept identically by the lenient rule, and a fact it skips is skipped |
| Extraction.Extracted | backend/headers/xbrlprocesscheck.py:378-406 | the extracted list holds every fact the filter keeps (concept, period, value, five keys, parseable date) and nothing else |
| Extraction.ExtractedStrict | backend/headers/xbrlprocessing.py:230-261 | the strict extraction fails exactly when some fact has a malformed range |
| Extraction.StrictMatchesLenient | backend/headers/xbrlprocessing.py:230-261 | when the strict extraction succeeds it yields the same facts as the lenient one |
| Extraction.ExtractedStrictPrefix | backend/headers/xbrlprocessor_check.py:356-379 | a raise anywhere drops the whole file |
| Extraction.ExtractLenient | backend/headers/xbrlprocesscheck.py:378-406 | the fact loop computes `Extracted` |
| Extraction.ExtractStrict | backend/headers/xbrlprocessor_check.py:345-372 | the fact loop computes `ExtractedStrict`, stopping at the first malformed range |
| FactGroups.OnDates | backend/headers/xbrlprocesscheck.py:444-447 | the kept company-facts facts are exactly those dated on a reporting date, in order |
| FactGroups.KeepOnDates | backend/headers/xbrlprocesscheck.py:444-447 | the filter loop computes `OnDates` |
| FactGroups.WithStamp | backend/headers/xbrlprocesscheck.py:450-456 | a date's group holds only facts of that date and is empty iff no fact has it |
| FactGroups.GroupSpec | backend/headers/xbrlprocesscheck.py:450-456 | grouping gives distinct dates, and each date present maps to exactly its facts in input order |
| FactGroups.GroupByDate | backend/headers/xbrlprocesscheck.py:450-456 | the grouping loop computes `Group` |
| FactGroups.NonEmpty | backend/headers/xbrlprocesscheck.py:476-481 | the second fallback keeps exactly the per-document entries with non-empty lists |
| FactGroups.NonEmptyDistinct | backend/headers/xbrlprocesscheck.py:476-481 | keeping the non-empty entries keeps the dates distinct |
| ProcessCheck.ApiFacts | backend/headers/xbrlprocesscheck.py:240-298 | no response gives no facts, and every fact is dated within the five-year lookback |
| ProcessCheck.ApiFactsComplete | backend/headers/xbrlprocesscheck.py:260-281 | every entry of either taxonomy that has an end date and a value within the window is among the facts |
| ProcessCheck.FetchCompanyFacts | backend/headers/xbrlprocesscheck.py:240-298 | the nested taxonomy, concept, unit and entry loops compute `ApiFacts` |
| ProcessCheck.ProcessFilings | backend/headers/xbrlprocesscheck.py:311-428 | the filing loop computes the specified pass |
| ProcessCheck.ExitedStays | backend/headers/xbrlprocesscheck.py:420-433 | once the run has ended, later filings change nothing |
| ProcessCheck.ExitIff | backend/headers/xbrlprocesscheck.py:420-433 | the run ends iff some dated filing's parse error names the missing `cyd/2024` taxonomy |
| ProcessCheck.PassState | backend/headers/xbrlprocesscheck.py:329-428 | the fallback flag is on iff some dated filing had no link, a parse error or too few facts; the dates are distinct reporting dates |
| ProcessCheck.ThresholdDecides | backend/headers/xbrlprocesscheck.py:359-374 | a document with fewer than 1000 raw facts records an empty list and sets the fallback; exactly 1000 is extracted normally |
| ProcessCheck.FinalFactsSpec | backend/headers/xbrlprocesscheck.py:436-481 | the merged dictionary has distinct dates and non-empty lists; in the fallback it holds company-facts facts of their own reporting date, otherwise entries of the per-filing dictionary |
| ProcessCheck.FallbackMerge | backend/headers/xbrlprocesscheck.py:436-481 | the merge code computes `FinalFacts` |
| ProcessCheck.OrdersDiffer | backend/headers/xbrlprocesscheck.py:872-880 | the write order as written and as corrected differ only in the last label |
| ProcessCheck.CheckColumn | backend/headers/xbrlprocesscheck.py:493-880 | a date's column assigns every written label its looked-up or derived value |
| ProcessCheck.DebtDerivation | backend/headers/xbrlprocesscheck.py:574-579 | Debt is long-term debt with lease plus short-term debt |
| ProcessCheck.WithLeaseDerivation | backend/headers/xbrlprocesscheck.py:563-572 | long-term debt with lease is its first synonym found, otherwise debt without lease plus lease |
| ProcessCheck.TotalLiabilityDerivation | backend/headers/xbrlprocesscheck.py:716-726 | total liability is liabilities-and-equity (or 0) minus the equity cell |
| ProcessCheck.MissingIsZero | backend/headers/xbrlprocesscheck.py:493-880 | a looked-up label with no matching synonym is 0 |
| ProcessCheck.Columns | backend/headers/xbrlprocesscheck.py:493-497 | one column per dictionary entry, in dictionary order, holding that date's values |
| ProcessCheck.XbrlDataProcessor | backend/headers/xbrlprocesscheck.py:301-880 | the run ends, finds no facts, or builds a fresh 35-row table whose dates are the sorted dictionary keys and whose cells are populated in the blocks' order as written, so the `InteresIncome` row is never written |
| ProcessCheckTable.ColumnOfDate | backend/headers/xbrlprocesscheck.py:493-497 | every date of the dictionary is a column, and it receives its own facts' column |
| ProcessCheckTable.WrittenCell | backend/headers/xbrlprocesscheck.py:493-880 | a written label's cell holds its value for the date's facts |
| ProcessCheckTable.UnwrittenCell | backend/headers/xbrlprocesscheck.py:60-81 | a label that is never written stays 0 |
| ProcessCheckTable.RowsWrittenAsWritten | backend/headers/xbrlprocesscheck.py:60-81 | as written, every row but `InteresIncome` is written by some block |
| ProcessCheckTable.BuiltCellAsWritten | backend/headers/xbrlprocesscheck.py:493-880 | in the table the function builds, every row but `InteresIncome` holds its label's value for the date's facts, and `InteresIncome` holds 0 |
| ProcessCheckTable.BuiltCell | backend/headers/xbrlprocesscheck.py:493-880 | with the corrected write order, every cell holds its label's value for the date's facts |
| ProcessCheckTable.TableDerivations | backend/headers/xbrlprocesscheck.py:574-579 | in every column, Debt equals lease-inclusive debt plus short-term debt, and total liability is liabilities-and-equity minus equity |
| ProcessCheckTable.NoInterestIncomeRow | backend/headers/xbrlprocesscheck.py:62 | the row list has no `InterestIncome` label |
| ProcessCheckTable.InteresIncomeUnwritten | backend/headers/xbrlprocesscheck.py:872-880 | as written, no block writes the `InteresIncome` row |
| ProcessCheckTable.InterestIncomeLostAsWritten | backend/headers/xbrlprocesscheck.py:872-880 | as written, the interest-income cell stays 0 in every column |
| ProcessCheckTable.InterestIncomeCorrected | backend/headers/xbrlprocesscheck.py:872-880 | corrected, the interest-income cell holds the latest `InvestmentIncomeInterest` value |
| ProcessCheckTable.InterestIncomeCounterexample | backend/headers/xbrlprocesscheck.py:872-880 | one date with an interest-income fact of 7: as written the cell is 0, corrected it is 7 |
| FullSearch.FileName | backend/validation/sec_fullsearch_API.py:108-116 | the file name is the text after the first `:` of `_id`, or empty when there is none |
| FullSearch.LinkParts | backend/validation/sec_fullsearch_API.py:99-116 | a link is built only from a present accession and `_id` with a `:`; it joins the CIK without leading zeros, the accession without dashes and the file name |
| FullSearch.NoLinkWithoutParts | backend/validation/sec_fullsearch_API.py:99-116 | a missing accession, a missing `_id` or an `_id` without `:` leaves the link `N/A` |
| FullSearch.RowsOf | backend/validation/sec_fullsearch_API.py:119-127 | only 10-K and 10-K/A hits become rows |
| FullSearch.RowsOfSpec | backend/validation/sec_fullsearch_API.py:119-127 | every annual-form hit becomes a row and every row comes from a hit |
| FullSearch.Processed | backend/validation/sec_fullsearch_API.py:88-127 | the hits before the first one whose CIK conversion raises are processed |
| FullSearch.FetchAnnualReports | backend/validation/sec_fullsearch_API.py:37-148 | the hit loop computes the collected rows; a raise loses the rows so far |
| FullSearch.DigitCikKeepsAllAnnual | backend/validation/sec_fullsearch_API.py:88-127 | with a numeric CIK, every annual-form hit is collected |
| FullSearch.NoRaise | backend/validation/sec_fullsearch_API.py:99-105 | with a numeric CIK, no hit raises |
| FullSearch.CollectedRowsAreAnnualHits | backend/validation/sec_fullsearch_API.py:119-127 | each row is an annual form carrying a hit's accession and raw reporting date |
| FullSearch.ParsedDate | backend/headers/xbrlprocesscheck.py:190-198 | a missing reporting date stays None, and any other is parsed |
| CikLookup.PaddedCik | backend/validation/sec_fullsearch_API.py:28-32 | the CIK is all digits, zero-padded to at least ten, and unchanged in value |
| CikLookup.FirstMatch | backend/validation/sec_fullsearch_API.py:28-32 | the match is the first entry with the ticker, or none iff no entry has it |
| CikLookup.GetCompanyCik | backend/validation/sec_fullsearch_API.py:17-35 | a failed request gives None; otherwise the padded CIK of the upper-cased ticker's first match |
| CikLookup.CikForSpec | backend/validation/sec_fullsearch_API.py:17-35 | None iff no entry matches; otherwise the first match's CIK padded to ten digits |
| EdgarApi.NormalizeTicker | backend/headers/edgarAPI.py:11-12 | the normalised ticker has the same length and no `.` is left |
| EdgarApi.NormalizeTickerChars | backend/headers/edgarAPI.py:11-12 | every `.` becomes `-` and every other character is upper-cased |
| EdgarApi.NormalizeIdempotent | backend/headers/edgarAPI.py:11-21 | normalising twice is normalising once |
| EdgarApi.FilterFilings | backend/headers/edgarAPI.py:28-37 | the filter keeps exactly the 10-K and 10-Q submissions, projected to accession, date and form |
| EdgarApi.KthTenK | backend/headers/edgarAPI.py:40-51 | the k-th 10-K is a 10-K with exactly k-1 10-Ks before it |
| EdgarApi.KthUnique | backend/headers/edgarAPI.py:40-51 | a 10-K position with k-1 10-Ks before it is the k-th 10-K |
| EdgarApi.Boundary | backend/headers/edgarAPI.py:40-51 | the boundary is a 10-K position |
| EdgarApi.BoundarySpec | backend/headers/edgarAPI.py:40-51 | the boundary is the second 10-K, or the only one when there is exactly one |
| EdgarApi.FormsIn | backend/headers/edgarAPI.py:58-60 | the form filter keeps exactly the listed forms, in order |
| EdgarApi.LocUpTo | backend/headers/edgarAPI.py:58-60 | label slicing up to `last` includes `last`, and a negative end gives nothing |
| EdgarApi.TrailingOfFiltered | backend/headers/edgarAPI.py:39-64 | the window is every filing before the boundary, then every 10-K from it on, in source order |
| EdgarApi.TrailingNone | backend/headers/edgarAPI.py:53-54 | there is no window iff there is no 10-K, and the boundary filing is in the window |
| EdgarApi.FindBoundary | backend/headers/edgarAPI.py:41-51 | the counter loop finds -1 iff there is no 10-K, and the boundary otherwise |
| EdgarApi.SecEdgarEndpoint.constructor | backend/headers/edgarAPI.py:8-9 | a new endpoint has empty fields |
| EdgarApi.SecEdgarEndpoint.GetCikMatchingTicker | backend/headers/edgarAPI.py:11-21 | stores the normalised ticker, and the CIK when found; the other fields are unchanged |
| EdgarApi.SecEdgarEndpoint.GetSubmissionData | backend/headers/edgarAPI.py:23-26 | stores and returns the submissions, nothing else changes |
| EdgarApi.SecEdgarEndpoint.GetFilteredFilingsData | backend/headers/edgarAPI.py:28-37 | stores and returns the filtered filings |
| EdgarApi.SecEdgarEndpoint.GetTrailingData | backend/headers/edgarAPI.py:39-64 | returns the trailing window, stored only when there is one |
| EdgarApi.SecEdgarEndpoint.MainExecution | backend/headers/edgarAPI.py:66-72 | the normalised ticker is stored; an unknown ticker stops with nothing else changed; otherwise the result is the window of the filtered submissions and the CIK, and the object holds the CIK, the submissions, the filtered rows and the window when there is one |
| LinkCandidates.UrlsFor | backend/validation/xbrlprocessing.py:45-49 | one URL per file name, in order |
| LinkCandidates.Cross | backend/validation/xbrlprocessing.py:45-49 | the cross product has one URL per CIK and file pair |
| LinkCandidates.CandidatesListed | backend/validation/xbrlprocessing.py:23-56 | exactly five candidates: CIK variants outer, file names inner, then `index.htm` under the original CIK |
| LinkCandidates.GenerateCandidates | backend/validation/xbrlprocessing.py:23-56 | the nested loops produce the specified candidate list |
| LinkCandidates.CrossLoop | backend/validation/xbrlprocessing.py:45-49 | the nested loop computes `Cross` |
| LinkCandidates.CrossOfTwo | backend/validation/xbrlprocessing.py:45-49 | two CIKs by two files give the four URLs in loop order |
| LinkCandidates.UrlEmbedsAccession | backend/validation/xbrlprocessing.py:48 | every candidate URL embeds the accession without dashes as a path segment |
| LinkCandidates.DuplicatesWithoutLeadingZero | backend/validation/xbrlprocessing.py:32-35 | a CIK without leading zeros makes the two CIK variants and their URLs coincide |
| LinkCandidates.CheckMultipleLinks | backend/validation/xbrlprocessing.py:58-74 | the working links are the order-preserving subsequence of URLs that answer |
| LinkCandidates.FirstOf | backend/validation/xbrlprocessing.py:99 | the first working link, or None iff there is none |
| LinkCandidates.CandidatesOf | backend/validation/xbrlprocessing.py:99 | every filing has five candidates |
| LinkCandidates.EdgarLinkIsFirstWorking | backend/validation/xbrlprocessing.py:99 | the chosen link is None iff no candidate answers, otherwise the first candidate that answers |
| LinkCandidates.FirstSatisfying | backend/validation/xbrlprocessing.py:99 | when some candidate answers there is a first one |
| LinkCandidates.FirstFilterIsFirstSatisfying | backend/validation/xbrlprocessing.py:99 | the head of the working links is the first answering candidate |
| LinkCandidates.CountWorkingLinks | backend/validation/xbrlprocessing.py:99-114 | the kept filings are those with a working link, and the count is their number |
| Submissions.AnnualIndices | backend/validation/check_fillings.py:52-59 | exactly the indices of 10-K and 10-K/A forms, increasing |
| Submissions.EntriesAt | backend/validation/check_fillings.py:55-58 | each entry takes its form, accession and date from the same index |
| Submissions.FetchTenKSubmissionDates | backend/validation/check_fillings.py:28-60 | a failed request gives an empty list; a short parallel array raises; otherwise the entries of the annual indices |
| Submissions.EqualLengthsNeverRaise | backend/validation/check_fillings.py:52-59 | parallel arrays of equal length never raise |
| Tickers.Companies | backend/validation/get_ticker_list.py:37-46 | one `{name, ticker}` record per usable row, in order |
| Tickers.GetSecTickers | backend/validation/get_ticker_list.py:4-58 | any error gives an empty list; otherwise the loop computes `Companies` |
| Tickers.CompaniesSpec | backend/validation/get_all_companydata.py:71-80 | records have truthy name and ticker, every usable row is kept, and short rows are skipped |
| Tickers.CompaniesAppend | backend/validation/get_ticker_list.py:37-46 | the filter distributes over concatenation |
| Sync.MaxOf | backend/validation/bash_getallcompanydata.py:140-143 | the maximum is a member and bounds every element |
| Sync.ParseAll | backend/validation/bash_getallcompanydata.py:140-143 | parsing the column names fails iff one does not parse |
| Sync.StoredMax | backend/validation/bash_getallcompanydata.py:131-149 | the latest stored date is the maximum date column; any read failure or no date column leaves it None |
| Sync.LatestFetched | backend/validation/bash_getallcompanydata.py:127-128 | the latest fetched date is the maximum present date, None iff all are missing |
| Sync.Message | backend/validation/bash_getallcompanydata.py:164-168 | "first time" without a stored date, "updated" when newer, the generic message otherwise |
| Sync.BatchOutcome | backend/validation/bash_getallcompanydata.py:103-180 | every process exit of the batch loader has status 1; a written result goes to the ticker's CSV key |
| Sync.GetCompanyInfo | backend/validation/bash_getallcompanydata.py:103-180 | the controller's steps, including the early returns and the `sys.exit(1)` of its handlers, give the batch loader's decision |
| Sync.WrittenIff | backend/validation/bash_getallcompanydata.py:151-161 | a result is written iff nothing raised, the table is not empty, and there is no stored date, or the fetched one is newer, or the run is forced; the key is the ticker's CSV key |
| Sync.BatchExitIff | backend/validation/bash_getallcompanydata.py:175-180 | the batch loader ends the process with status 1 iff the fetch raised, or a company due for processing has its processing raise or hit the taxonomy stop, or its upload raise |
| Sync.EqualDatesSkip | backend/validation/bash_getallcompanydata.py:151 | equal latest dates skip unless forced |
| Sync.MissingFetchedDatesNeverNewer | backend/validation/bash_getallcompanydata.py:151 | with no fetched date, only a missing stored date triggers processing |
| Sync.ForcedMessage | backend/validation/bash_getallcompanydata.py:164-168 | a forced run that is not newer processes and reports the generic message |
| Sync.SingleOutcome | backend/validation/get_all_companydata.py:94-174 | a raising fetch or no fetched dates fail; the loader never stops for a missing CIK or an empty table; its only process exit is the processor's status-0 taxonomy stop |
| Sync.SingleAgreesWithBatch | backend/validation/get_all_companydata.py:146-174 | with a CIK, filings, no raise and a non-empty table, the single loader decides as the batch loader without force; where a raise stops the batch process with status 1, the single loader only fails that company |
| Sync.SliceBound | backend/validation/bash_getallcompanydata.py:198-201 | slice bounds follow Python: clamped, negative indices count from the end |
| Sync.BatchWindowSpec | backend/validation/bash_getallcompanydata.py:192-201 | the batch is the slice of the first 100 companies between the clamped indices |
| Sync.RunDataloader | backend/validation/bash_getallcompanydata.py:182-216 | an empty list exits 1, an empty batch exits 0, otherwise the companies' outcomes in order, stopping with status 1 at the first company that exits |
| StoredFiles.AfterLastSlash | backend/headers/xbrlprocessor_check.py:289-296 | the text after the last `/` is a suffix without `/` |
| StoredFiles.BaseName | backend/headers/xbrlprocessor_check.py:289-296 | a base name is the non-empty last path segment before `.htm` |
| StoredFiles.BaseNameOf | backend/headers/xbrlprocessor_check.py:289-296 | the base name of `dir/name.htm` is `name` |
| StoredFiles.FileFacts | backend/headers/xbrlprocessor_check.py:334-379 | a file gives no facts iff its key is empty or marked `ERROR`, it is missing, it has no `facts`, or a range is malformed; otherwise its strict extraction |
| StoredFiles.ReadsSpec | backend/headers/xbrlprocessor_check.py:329-379 | the read pass's dictionary has distinct dates, and each date holds the facts of its last file that read |
| StoredFiles.ReadFile | backend/headers/xbrlprocessor_check.py:334-379 | reading one file computes `FileFacts` |
| StoredFiles.ReadFilings | backend/headers/xbrlprocessor_check.py:329-379 | the read loop computes `Reads` |
| StoredFiles.ErrorKeySkipped | backend/headers/xbrlprocessor_check.py:334-336 | an error entry is skipped by the read pass |
| ProcessorCheck.UploadExitedStays | backend/headers/xbrlprocessor_check.py:310-320 | once the run has ended, later rows change nothing |
| ProcessorCheck.UploadExitIff | backend/headers/xbrlprocessor_check.py:310-320 | the run ends iff some parse error is exactly the taxonomy-missing message |
| ProcessorCheck.UploadKeys | backend/headers/xbrlprocessor_check.py:276-316 | the key column has one entry per row: its storage key, or `ERROR: ` and the message |
| ProcessorCheck.UploadStore | backend/headers/xbrlprocessor_check.py:289-308 | the bucket holds a key iff some parsed row uploaded under it, with the last such document |
| ProcessorCheck.UploadFilings | backend/headers/xbrlprocessor_check.py:276-320 | the upload loop computes `Uploads` |
| ProcessorCheck.KeyedFiles | backend/headers/xbrlprocessor_check.py:329-336 | each row pairs its reporting date with its key |
| ProcessorCheck.ProcessorColumn | backend/headers/xbrlprocessor_check.py:397-734 | a date's column assigns every label its looked-up or derived value, with the corrected 0 for a missing depreciation figure |
| ProcessorCheck.LongTermDebtDerivation | backend/headers/xbrlprocessor_check.py:467-472 | long-term debt is always debt without lease plus lease |
| ProcessorCheck.DebtDerivation | backend/headers/xbrlprocessor_check.py:474-479 | Debt is long-term debt plus short-term debt |
| ProcessorCheck.TotalLiabilityDerivation | backend/headers/xbrlprocessor_check.py:615-624 | total liability is liabilities-and-equity (or 0) minus equity |
| ProcessorCheck.DepreciationBlockAsWritten | backend/headers/xbrlprocessor_check.py:714-723 | as written, the cell gets None exactly when no depreciation synonym matches, and `ppenet` is reset to 0 instead |
| ProcessorCheck.Dated | backend/headers/xbrlprocessor_check.py:390 | with every key a date, the dictionary's dates are unwrapped in order and stay distinct |
| ProcessorCheck.Columns | backend/headers/xbrlprocessor_check.py:397-400 | one column per dictionary entry, in order |
| ProcessorCheckTable.NoneCellsShape | backend/headers/xbrlprocessor_check.py:714-723 | the cells left `None` are depreciation cells of the frame's dates |
| ProcessorCheckTable.AsWritten | backend/headers/xbrlprocessor_check.py:714-723 | the frame as written has the table's cells, `None` exactly in the missing ones and the table's value elsewhere |
| ProcessorCheck.XbrlDataProcessor | backend/headers/xbrlprocessor_check.py:255-737 | the run ends, crashes on a `None` date, or builds a fresh 31-row table with sorted dates and the populated cells, together with the depreciation cells the source leaves `None` |
| ProcessorCheckTable.ExitMessageContainsCheckText | backend/headers/xbrlprocessor_check.py:313 | the exact exit message contains the text variant A exits on |
| ProcessorCheckTable.RowsAllWritten | backend/headers/xbrlprocessor_check.py:59-81 | every row is written and the blocks write no other label |
| ProcessorCheckTable.ColumnAt | backend/headers/xbrlprocessor_check.py:397-400 | every date is a column and receives its own facts' column |
| ProcessorCheckTable.BuiltCell | backend/headers/xbrlprocessor_check.py:397-734 | every cell of the corrected table holds its label's value for its date's facts |
| ProcessorCheckTable.NoneCellAt | backend/headers/xbrlprocessor_check.py:714-723 | a date's depreciation cell is left `None` iff the block as written hands it `None` |
| ProcessorCheckTable.AsWrittenCell | backend/headers/xbrlprocessor_check.py:397-734 | in the frame the source builds, every cell holds its label's value for its date's facts, except a depreciation cell with no depreciation fact, which holds `None` |
| ProcessorCheckTable.BuiltFromLastFile | backend/headers/xbrlprocessor_check.py:276-390 | from the rows to the cells: a column's facts are those of the last row of its date whose file read back |
| ProcessorCheckTable.TableDerivations | backend/headers/xbrlprocessor_check.py:467-479 | in every column, long-term debt and Debt are the sums of their parts |
| ProcessorCheckTable.TableTotalLiability | backend/headers/xbrlprocessor_check.py:615-624 | in every column, total liability is liabilities-and-equity minus the equity cell |
| ProcessorCheckTable.DepreciationValue | backend/headers/xbrlprocessor_check.py:714-723 | the depreciation block looks up the four depreciation synonyms |
| ProcessorCheckTable.PPEnetValue | backend/headers/xbrlprocessor_check.py:703-712 | the PP&E block looks up its synonym |
| ProcessorCheckTable.DepreciationCorrected | backend/headers/xbrlprocessor_check.py:714-723 | corrected, the depreciation cell holds the latest depreciation fact, or 0 when none matches |
| ProcessorCheckTable.DepreciationNoneInFrame | backend/headers/xbrlprocessor_check.py:714-723 | one date with a PP&E fact and no depreciation fact: the frame as written holds `None` in the depreciation cell, the corrected table 0 |
| ProcessorCheckTable.DepreciationCounterexample | backend/headers/xbrlprocessor_check.py:714-723 | a PP&E fact of 5 and no depreciation fact: as written the cell gets None, corrected it gets 0 |
| ProcessorCheckTable.ProcessorCash | backend/headers/xbrlprocessor_check.py:482-491 | the cash cell uses cash and equivalents only |
| Processing.EdgarLinkParts | backend/headers/xbrlprocessing.py:13-23 | the link joins the accession's CIK part, the accession without dashes and `{ticker}-{date}.htm` |
| Processing.AccessionCik | backend/headers/xbrlprocessing.py:17 | the CIK is the accession's text before its first dash |
| Processing.AccessionDigits | backend/headers/xbrlprocessing.py:18 | removing the dashes concatenates the accession's three parts |
| Processing.EdgarLinkBaseName | backend/headers/xbrlprocessing.py:184-185 | the saved file of a built link is named `{ticker}-{date}` |
| Processing.RemoveCharAppend | backend/headers/xbrlprocessing.py:18 | removing a character distributes over concatenation |
| Processing.Linked | backend/headers/xbrlprocessing.py:132-133 | every row gets its link, built with the lower-cased ticker, at its own position |
| Processing.WorkingSpec | backend/headers/xbrlprocessing.py:138-144 | the kept filings are exactly those whose link answers, in their original order |
| Processing.WorkingInOrder | backend/headers/xbrlprocessing.py:141-144 | filtering keeps the positions increasing |
| Processing.SavedPaths | backend/headers/xbrlprocessing.py:167-197 | the path column has one entry per filing: its save path, or `ERROR: ` and the message |
| Processing.SavedFiles | backend/headers/xbrlprocessing.py:184-192 | a path holds a file iff a parsed filing was saved there, with the last such document |
| Processing.SaveFilings | backend/headers/xbrlprocessing.py:167-197 | the save loop computes `Saves` |
| Processing.DatedPaths | backend/headers/xbrlprocessing.py:210-216 | each filing pairs its report date with its path |
| Processing.ProcessingColumn | backend/headers/xbrlprocessing.py:291-506 | a date's column assigns every one of the 18 labels its value |
| Processing.LongTermDebtDerivation | backend/headers/xbrlprocessing.py:370-376 | long-term debt is debt without lease plus lease |
| Processing.DebtDerivation | backend/headers/xbrlprocessing.py:378-384 | Debt is long-term debt plus short-term debt |
| Processing.Columns | backend/headers/xbrlprocessing.py:291-297 | one column per dictionary entry, in order |
| Processing.XbrlDataProcessor | backend/headers/xbrlprocessing.py:129-509 | the result's dictionary is the specified one, and the table is fresh with the 18 rows, sorted dates and the populated cells |
| ProcessingTable.FailedFilingSkipped | backend/headers/xbrlprocessing.py:194-197 | a filing whose document did not parse leaves an error entry that the read pass skips |
| ProcessingTable.ParsedFilingSaved | backend/headers/xbrlprocessing.py:184-192 | a parsed filing's path is in the path column, and the file there holds the last document saved to it |
| ProcessingTable.LastSaveFound | backend/headers/xbrlprocessing.py:184-192 | a path a parsed filing was saved to has a last save |
| ProcessingTable.ColumnAt | backend/headers/xbrlprocessing.py:291-297 | every date is a column and receives its own facts' column |
| ProcessingTable.BuiltCell | backend/headers/xbrlprocessing.py:291-506 | every cell holds its label's value for its date's facts |
| ProcessingTable.BuiltFromLastFile | backend/headers/xbrlprocessing.py:160-282 | from the filings to the cells: a column's facts are those of the last kept filing of its date whose saved file read back |
| ProcessingTable.TableDerivations | backend/headers/xbrlprocessing.py:370-384 | in every column, long-term debt and Debt are the sums of their parts |
| ProcessingTable.CashCell | backend/headers/xbrlprocessing.py:386-395 | the cash cell holds the restricted-cash-inclusive figure |
| Strings.Split | backend/headers/xbrlprocessing.py:17 | the pieces have no separator, and joining them gives the string back |
| Strings.SplitJoin | backend/headers/xbrlprocessing.py:17 | splitting a join of separator-free pieces gives the pieces |
| Strings.RemoveChar | backend/headers/xbrlprocessing.py:18 | the character is gone and every other character's count is kept |
| Strings.LstripZeros | backend/validation/xbrlprocessing.py:33 | only leading zeros are stripped, and the result does not start with `0` |
| Strings.IntRoundTrip | backend/validation/sec_fullsearch_API.py:102 | `str(int(s))` succeeds iff `s` is a non-empty digit string, and gives it without leading zeros |
| Strings.ZFillShape | backend/validation/sec_fullsearch_API.py:30 | zero-filling pads on the left to the width, keeping the string as the suffix |
| Strings.LstripZFill | backend/validation/sec_fullsearch_API.py:30 | zero-filling does not change the value |
| Strings.Upper | backend/validation/sec_fullsearch_API.py:28 | upper-casing maps every character |
| Strings.UpperIdempotent | backend/headers/edgarAPI.py:12 | upper-casing twice is upper-casing once |
| Seqs.Filter | backend/validation/xbrlprocessing.py:58-74 | the filter keeps exactly the elements satisfying the predicate |
| Seqs.FilterAppend | backend/validation/xbrlprocessing.py:58-74 | filtering distributes over concatenation |
| Seqs.FilterEmpty | backend/validation/xbrlprocessing.py:108-114 | the filter is empty iff no element satisfies the predicate |

## Left out

- Network I/O is not modelled: every `requests` call, the HEAD/GET link probes, `time.sleep` and the `XbrlParser`/`HttpCache` parser. Their results are parameters: the search hits, the company-facts response, the submissions feed, the ticker rows, the link predicate, and the parse outcome of each link.
- `backend/headers/s3_utils.py` and the local file system are not modelled. In the three processor variants storage is a map from key to document, every write succeeds, and reading back gives what was written. The sync controllers take whether the CSV upload raised as an input.
- `datetime.fromisoformat`, `pd.to_datetime` and `strftime` are parameters. Variant C's report dates enter already parsed, so a `NaT` or unparseable report date in its trailing data is not modelled.
- `datetime.now()` is the parameter `today`.
- Fact values are integers. Python floats and rounding are not modelled, and a JSON value that is not a number is not modelled.
- `sys.exit`, logging and printing are not modelled. An exit is an outcome (`Exit`, `Exited(code)`, `Exit(code, outcomes)`), and log messages are dropped.
- Variant C's path column is assumed to sit on the default 0-based `RangeIndex`, so a row's label is its position. `unknown_file_{index}` uses that position.
- The `$` of the file-name regex also matches before a final newline. Links with a trailing newline are not modelled.
- The `len(...) is not 5` test is modelled as `!= 5`. For small integers, CPython gives the same answer.
- Variant C's `apply` on an empty frame is not modelled. The link column is taken to be built for every row.
- The ratio modules, `backend/app.py`, the frontend, `check_d2.py`, `validate_xbrl_links.py` and `get_avg_finratios.py` are not part of this model. They are floating-point numerics, routing, UI or I/O drivers.
- The pandas DataFrame is a class holding `rows`, `dates` and a cell map. The column named "Accounting Variable" is the `rows` field, and the `YYYY-MM-DD` strings of the columns are the integer dates.
- Timestamps are integers. A comparison of timezone-aware with naive datetimes, which raises in Python, is not modelled.
- EdgarApi.SecEdgarEndpoint.GetCikMatchingTicker: the `ValueError` for an unknown ticker is the result `None`, and the CIK stays as it was.
- ProcessorCheck.ProcessorColumn: the depreciation value is the corrected 0 where the source writes `None`; `ProcessorCheck.NoneCells` and `ProcessorCheckTable.AsWrittenCell` give the cells where the source differs.
- ProcessorCheckTable.BuiltCell: states the corrected table; the frame the source builds is `ProcessorCheckTable.AsWritten` of it, with `None` in the depreciation cells of dates without a depreciation fact.
- ProcessorCheck.XbrlDataProcessor: the table's `cells` are integers, so the `None` cells are returned beside the table as the set `missing` instead of being stored in it.
- CikLookup.GetCompanyCik: the copy in `backend/validation/check_fillings.py` (lines 7-26) has no handler, so a failed request raises there instead of giving `None`; that raise is not modelled.
- Strings.Upper: ASCII only. Python's `str.upper` also maps non-ASCII letters and can change a string's length (`ß` becomes `SS`); tickers and concept names are taken to be ASCII.
- Strings.Lower: ASCII only, for the same reason as `Upper`; the tickers lower-cased into CSV keys are taken to be ASCII.
- EdgarApi.NormalizeTicker: built on the ASCII `Upper`, so a ticker with non-ASCII letters is not modelled.
- Strings.IntRoundTrip: gives `None` for every string that is not a non-empty run of decimal digits, while Python's `int` also accepts surrounding whitespace, a leading sign and underscores between digits; the CIKs it is applied to are taken to be digit strings.
- Sync.StoredMax: a stored column name that does not parse as a date makes the maximum `None`, which is the source's caught exception.

## Findings

| source | as written | input that shows it | evidently intended | confidence | as-written member | corrected member |
|---|---|---|---|---|---|---|
| backend/headers/xbrlprocesscheck.py:872-880 | the interest-income block looks up the row `InterestIncome`, but the row list (line 62) spells `InteresIncome`; the lookup finds no row, nothing is written, and the `InteresIncome` cell stays 0 | one date whose facts hold `InvestmentIncomeInterest` = 7 | the `InteresIncome` row receives 7 | not executed | ProcessCheckTable.InterestIncomeLostAsWritten | ProcessCheckTable.InterestIncomeCorrected |
| backend/headers/xbrlprocessor_check.py:714-723 | when no depreciation synonym matches, the else-branch sets `ppenet = 0.0` instead of `depreciation`, so the Depreciation cell receives `None` | one date whose facts hold `PropertyPlantAndEquipmentNet` = 5 and no depreciation concept | the Depreciation cell receives 0, like every other missing value | not executed | ProcessorCheck.DepreciationBlockAsWritten | ProcessorCheckTable.DepreciationCorrected |
