/**
 * The incremental sync controllers: `get_company_info` and `run_dataloader` in
 * backend/validation/bash_getallcompanydata.py (the batch loader, with a force flag)
 * and `get_company_info` in backend/validation/get_all_companydata.py (no force flag).
 * A company is reprocessed only when there is no stored table or the newest fetched
 * reporting date is later than the newest stored one.
 */
module Sync {
  import opened Wrappers
  import opened Strings
  import opened Seqs

  const AccountingVariable: string := "Accounting Variable"
  const CsvPrefix: string := "company-csv-data/"

  const MsgLatest: string := "Company's Latest Financial data obtained and saved to S3!"
  const MsgFirstTime: string := "Company's financial data obtained and saved to S3 for the first time."
  const MsgUpdated: string := "Company's financial data updated with more recent information in S3."

  /** `company-csv-data/{ticker.lower()}.csv`. */
  function CsvKey(ticker: string): string
  {
    CsvPrefix + Lower(ticker) + ".csv"
  }

  /** What reading the stored CSV gave: its column names, or the kind of failure. */
  datatype StoredRead = NotFound | EmptyFile | ReadFailed | Columns(names: seq<string>)

  function MaxOf(xs: seq<int>): (m: int)
    requires |xs| > 0
    ensures m in xs
    ensures forall k :: 0 <= k < |xs| ==> xs[k] <= m
  {
    if |xs| == 1 then xs[0]
    else
      var rest := MaxOf(xs[1..]);
      assert forall k :: 1 <= k < |xs| ==> xs[k] == xs[1..][k - 1];
      if xs[0] >= rest then xs[0] else rest
  }

  /** `pd.to_datetime(names)`: every name parses, or the whole conversion raises (`None`). */
  function ParseAll(names: seq<string>, parse: string -> Option<int>): (r: Option<seq<int>>)
    ensures r.None? <==> exists k :: 0 <= k < |names| && parse(names[k]).None?
    ensures r.Some? ==> |r.value| == |names| &&
                        forall k :: 0 <= k < |names| ==> parse(names[k]) == Some(r.value[k])
  {
    if exists k :: 0 <= k < |names| && parse(names[k]).None? then None
    else Some(seq(|names|, k requires 0 <= k < |names| => parse(names[k]).value))
  }

  /** The stored table's date columns: every column but "Accounting Variable". */
  function DateColumns(names: seq<string>): seq<string>
  {
    Filter(names, (c: string) => c != AccountingVariable)
  }

  /**
   * The newest stored date: the maximum over the date columns. A missing file, an empty
   * file, any read error, no date column, or a column name that does not parse (the
   * conversion raises and the handler leaves the value unset) all give `None`.
   */
  function StoredMax(read: StoredRead, parse: string -> Option<int>): (r: Option<int>)
    ensures !read.Columns? ==> r.None?
    ensures read.Columns? && |DateColumns(read.names)| == 0 ==> r.None?
    ensures r.Some? ==>
      read.Columns? &&
      (exists c :: c in read.names && c != AccountingVariable && parse(c) == r) &&
      (forall c :: c in read.names && c != AccountingVariable ==> parse(c).Some? && parse(c).value <= r.value)
  {
    if !read.Columns? then None
    else
      var dates := DateColumns(read.names);
      var parsed := ParseAll(dates, parse);
      if |dates| == 0 || parsed.None? then None
      else
        var m := MaxOf(parsed.value);
        assert forall c :: c in read.names && c != AccountingVariable ==> c in dates;
        Some(m)
  }

  /**
   * `reporting_date.max()` after `pd.to_datetime`: missing dates (NaT) are ignored, and
   * when every date is missing the maximum is itself missing (`None`).
   */
  function LatestFetched(dates: seq<Option<int>>): (r: Option<int>)
    ensures r.None? <==> forall i :: 0 <= i < |dates| ==> dates[i].None?
    ensures r.Some? ==> r in dates
    ensures r.Some? ==> forall i :: 0 <= i < |dates| && dates[i].Some? ==> dates[i].value <= r.value
    decreases |dates|
  {
    if |dates| == 0 then None
    else
      var rest := LatestFetched(dates[1..]);
      assert forall i :: 1 <= i < |dates| ==> dates[i] == dates[1..][i - 1];
      if dates[0].None? then rest
      else if rest.None? || dates[0].value >= rest.value then dates[0]
      else rest
  }

  /** `latest_fetched_date > latest_stored_date`; any comparison with NaT is false. */
  predicate Newer(fetched: Option<int>, stored: Option<int>)
  {
    fetched.Some? && stored.Some? && fetched.value > stored.value
  }

  /** The reprocessing decision; the batch loader adds `update_all`. */
  predicate ShouldProcess(fetched: Option<int>, stored: Option<int>, force: bool)
  {
    stored.None? || Newer(fetched, stored) || force
  }

  /** The status message, chosen after the write. */
  function Message(fetched: Option<int>, stored: Option<int>): (m: string)
    ensures stored.None? ==> m == MsgFirstTime
    ensures stored.Some? && Newer(fetched, stored) ==> m == MsgUpdated
    ensures stored.Some? && !Newer(fetched, stored) ==> m == MsgLatest
  {
    if stored.None? then MsgFirstTime
    else if Newer(fetched, stored) then MsgUpdated
    else MsgLatest
  }

  /** How one call of `get_company_info` ends. */
  datatype Outcome =
    | NoCik                            // the CIK lookup gave nothing: return early
    | NoFilings                        // the search returned no rows: return early
    | UpToDate                         // stored data is as new as the fetched data
    | NothingToWrite                   // processing produced an empty table: no write
    | Written(key: string, message: string)
    | Failed                           // an exception reached the outer handler, which logs it
    | Exited(code: int)                // `sys.exit(code)`: the whole process ends here

  /**
   * What `xbrl_data_processor` did: return a table (empty or not), raise an exception,
   * or stop the process at the missing CYD taxonomy (`SystemExit`, which no
   * `except Exception` handler catches).
   */
  datatype Processed = Table(empty: bool) | Raised | TaxonomyStop

  /**
   * What the loader learns about one company from the calls it makes. `fetchRaises`
   * says that the CIK lookup, the filings search or the date conversion raised;
   * `writeRaises` that the upload of the processed table raised.
   */
  datatype CompanyInputs = CompanyInputs(fetchRaises: bool, cik: Option<string>,
                                         reportingDates: seq<Option<int>>, stored: StoredRead,
                                         processed: Processed, writeRaises: bool)

  /**
   * The batch loader's decision for one company. Every exception reaching its outer
   * handlers ends the process with status 1, and so does the processor's own
   * `sys.exit(1)` at the taxonomy stop.
   */
  function BatchOutcome(ticker: string, inp: CompanyInputs, force: bool, parse: string -> Option<int>): (o: Outcome)
    ensures o.Exited? ==> o.code == 1
    ensures o.Written? ==> o.key == CsvKey(ticker)
  {
    if inp.fetchRaises then Exited(1)
    else if inp.cik.None? || inp.cik.value == "" then NoCik
    else if |inp.reportingDates| == 0 then NoFilings
    else
      var fetched := LatestFetched(inp.reportingDates);
      var stored := StoredMax(inp.stored, parse);
      if !ShouldProcess(fetched, stored, force) then UpToDate
      else if !inp.processed.Table? then Exited(1)
      else if inp.processed.empty then NothingToWrite
      else if inp.writeRaises then Exited(1)
      else Written(CsvKey(ticker), Message(fetched, stored))
  }

  /**
   * `get_company_info(ticker, update_all)` of the batch loader, step by step: early
   * returns, the stored maximum, the decision, the processing, the emptiness check, the
   * write, the message; a raise anywhere ends in `sys.exit(1)`.
   */
  method GetCompanyInfo(ticker: string, inp: CompanyInputs, updateAll: bool, parse: string -> Option<int>)
    returns (o: Outcome)
    ensures o == BatchOutcome(ticker, inp, updateAll, parse)
  {
    var key := CsvKey(ticker);
    if inp.fetchRaises {
      return Exited(1);
    }
    if inp.cik.None? || inp.cik.value == "" {
      return NoCik;
    }
    if |inp.reportingDates| == 0 {
      return NoFilings;
    }
    var latestFetched := LatestFetched(inp.reportingDates);
    var latestStored: Option<int> := None;
    if inp.stored.Columns? {
      var dateColumns := DateColumns(inp.stored.names);
      if |dateColumns| > 0 {
        var parsed := ParseAll(dateColumns, parse);
        if parsed.Some? {
          latestStored := Some(MaxOf(parsed.value));
        }
      }
    }
    assert latestStored == StoredMax(inp.stored, parse);
    if latestStored.None? || Newer(latestFetched, latestStored) || updateAll {
      match inp.processed {
        case Raised => return Exited(1);
        case TaxonomyStop => return Exited(1);
        case Table(empty) =>
          if empty {
            return NothingToWrite;
          }
      }
      if inp.writeRaises {
        return Exited(1);
      }
      var message := MsgLatest;
      if latestStored.None? {
        message := MsgFirstTime;
      } else if Newer(latestFetched, latestStored) {
        message := MsgUpdated;
      }
      return Written(key, message);
    }
    return UpToDate;
  }

  /**
   * The decision in words: a company with a CIK and filings is written exactly when
   * there is no stored date, the fetched data is newer, or the run is forced, and the
   * processing gave a non-empty table that uploads without raising.
   */
  lemma WrittenIff(ticker: string, inp: CompanyInputs, force: bool, parse: string -> Option<int>)
    requires inp.cik.Some? && inp.cik.value != "" && |inp.reportingDates| > 0
    ensures BatchOutcome(ticker, inp, force, parse).Written? <==>
              !inp.fetchRaises && inp.processed == Table(false) && !inp.writeRaises &&
              (StoredMax(inp.stored, parse).None? ||
               Newer(LatestFetched(inp.reportingDates), StoredMax(inp.stored, parse)) || force)
    ensures BatchOutcome(ticker, inp, force, parse).Written? ==>
              BatchOutcome(ticker, inp, force, parse).key == CsvKey(ticker)
  {
  }

  /**
   * When the batch loader stops the process: a raising fetch, or a company that needs
   * processing whose processing raises or hits the taxonomy stop, or whose non-empty
   * table fails to upload.
   */
  lemma BatchExitIff(ticker: string, inp: CompanyInputs, force: bool, parse: string -> Option<int>)
    ensures BatchOutcome(ticker, inp, force, parse) == Exited(1) <==>
              inp.fetchRaises ||
              (inp.cik.Some? && inp.cik.value != "" && |inp.reportingDates| > 0 &&
               ShouldProcess(LatestFetched(inp.reportingDates), StoredMax(inp.stored, parse), force) &&
               (inp.processed.Raised? || inp.processed.TaxonomyStop? ||
                (inp.processed == Table(false) && inp.writeRaises)))
  {
  }

  /** Equal newest dates without force mean no processing and no write. */
  lemma EqualDatesSkip(d: int)
    ensures !ShouldProcess(Some(d), Some(d), false)
    ensures ShouldProcess(Some(d), Some(d), true)
  {
  }

  /** When every fetched date is missing, only a missing stored date or force leads to processing. */
  lemma MissingFetchedDatesNeverNewer(dates: seq<Option<int>>, stored: Option<int>)
    requires forall i :: 0 <= i < |dates| ==> dates[i].None?
    ensures ShouldProcess(LatestFetched(dates), stored, false) <==> stored.None?
  {
  }

  /** A forced write over data that is not newer carries the generic message. */
  lemma ForcedMessage(fetched: Option<int>, d: int)
    requires !Newer(fetched, Some(d))
    ensures ShouldProcess(fetched, Some(d), true)
    ensures Message(fetched, Some(d)) == MsgLatest
  {
  }

  /**
   * `get_company_info(ticker)` of get_all_companydata.py: no CIK check, no force flag
   * and no emptiness check. Its outer handlers log an exception and return, so a raise
   * is `Failed`; an empty search result has no `reporting_date` column, so the column
   * access raises too. The processor it imports ends the process with a bare
   * `sys.exit()` (status 0) at the taxonomy stop.
   */
  function SingleOutcome(ticker: string, inp: CompanyInputs, parse: string -> Option<int>): (o: Outcome)
    ensures inp.fetchRaises || |inp.reportingDates| == 0 ==> o == Failed
    ensures o != NoCik && o != NoFilings && o != NothingToWrite
    ensures o.Exited? <==> o == Exited(0)
    ensures o.Written? ==> o.key == CsvKey(ticker)
  {
    if inp.fetchRaises || |inp.reportingDates| == 0 then Failed
    else
      var fetched := LatestFetched(inp.reportingDates);
      var stored := StoredMax(inp.stored, parse);
      if !(stored.None? || Newer(fetched, stored)) then UpToDate
      else if inp.processed.Raised? then Failed
      else if inp.processed.TaxonomyStop? then Exited(0)
      else if inp.writeRaises then Failed
      else Written(CsvKey(ticker), Message(fetched, stored))
  }

  /**
   * Without the force flag the single-company loader agrees with the batch loader on
   * every company with a CIK, filings and a non-empty table that uploads; where the
   * batch loader stops the whole process on a raise, the single loader only logs it.
   */
  lemma SingleAgreesWithBatch(ticker: string, inp: CompanyInputs, parse: string -> Option<int>)
    requires inp.cik.Some? && inp.cik.value != "" && |inp.reportingDates| > 0
    ensures !inp.fetchRaises && inp.processed == Table(false) && !inp.writeRaises ==>
              SingleOutcome(ticker, inp, parse) == BatchOutcome(ticker, inp, false, parse)
    ensures inp.processed.Raised? || inp.fetchRaises ==>
              BatchOutcome(ticker, inp, false, parse) in {UpToDate, Exited(1)} &&
              SingleOutcome(ticker, inp, parse) in {UpToDate, Failed}
  {
  }

  /** Python's normalisation of a slice bound against a length `n`. */
  function SliceBound(i: int, n: nat): (b: nat)
    ensures b <= n
    ensures 0 <= i <= n ==> b == i
    ensures i < 0 && i + n >= 0 ==> b == i + n
  {
    if i < 0 then (if i + n < 0 then 0 else i + n) else if i > n then n else i
  }

  /** Python `s[i:j]` with step 1. */
  function PySlice<T>(s: seq<T>, i: int, j: int): seq<T>
  {
    var a := SliceBound(i, |s|);
    var b := SliceBound(j, |s|);
    if a < b then s[a..b] else []
  }

  /** The companies of one batch: the first 100, then `[max(0, start) : min(len, end)]`. */
  function BatchWindow<T>(all: seq<T>, startIndex: int, endIndex: int): seq<T>
  {
    var capped := PySlice(all, 0, 100);
    var start := if startIndex > 0 then startIndex else 0;
    var end := if |capped| < endIndex then |capped| else endIndex;
    PySlice(capped, start, end)
  }

  /**
   * For bounds `0 <= start <= end` the batch is the plain sub-range of the first 100
   * companies, clipped to the list; an end index below zero counts from the end of
   * the capped list, as Python slicing does.
   */
  lemma BatchWindowSpec<T>(all: seq<T>, startIndex: int, endIndex: int)
    ensures |BatchWindow(all, startIndex, endIndex)| <= 100
    ensures 0 <= startIndex <= endIndex ==>
      var n := if |all| < 100 then |all| else 100;
      var lo := if startIndex < n then startIndex else n;
      var hi := if endIndex < n then endIndex else n;
      BatchWindow(all, startIndex, endIndex) == all[lo..hi]
    ensures endIndex < 0 && startIndex <= 0 && -endIndex <= |all| && |all| <= 100 ==>
      BatchWindow(all, startIndex, endIndex) == all[..|all| + endIndex]
  {
    var n := if |all| < 100 then |all| else 100;
    var capped := PySlice(all, 0, 100);
    assert capped == all[..n];
    if 0 <= startIndex <= endIndex {
      var lo := if startIndex < n then startIndex else n;
      var hi := if endIndex < n then endIndex else n;
      assert SliceBound(startIndex, n) == lo;
      assert SliceBound(hi, n) == hi;
      if lo < hi {
        assert forall k :: lo <= k < hi ==> capped[k] == all[k];
        assert capped[lo..hi] == all[lo..hi];
      }
    }
  }

  /**
   * How a batch run ends: the process exits with a status, or the loop completes; either
   * way, the outcomes of the companies handled before the end, in order.
   */
  datatype RunResult = Exit(code: int, outcomes: seq<Outcome>) | Ran(outcomes: seq<Outcome>)

  /**
   * `run_dataloader(start_index, end_index)`: an empty (or unreadable) company list
   * exits with 1, an empty batch exits with 0, otherwise the companies of the batch are
   * processed in order without force until one of them ends the process with status 1.
   * `inputs` stands for what the calls return.
   */
  method RunDataloader(all: seq<string>, startIndex: int, endIndex: int,
                       inputs: string -> CompanyInputs, parse: string -> Option<int>)
    returns (r: RunResult)
    ensures PySlice(all, 0, 100) == [] ==> r == Exit(1, [])
    ensures PySlice(all, 0, 100) != [] && BatchWindow(all, startIndex, endIndex) == [] ==> r == Exit(0, [])
    ensures BatchWindow(all, startIndex, endIndex) != [] ==>
      var batch := BatchWindow(all, startIndex, endIndex);
      |r.outcomes| <= |batch| &&
      (forall k :: 0 <= k < |r.outcomes| ==>
         r.outcomes[k] == BatchOutcome(batch[k], inputs(batch[k]), false, parse) && !r.outcomes[k].Exited?) &&
      (r.Ran? ==> |r.outcomes| == |batch|) &&
      (r.Exit? ==> |r.outcomes| < |batch| && r.code == 1 &&
                   BatchOutcome(batch[|r.outcomes|], inputs(batch[|r.outcomes|]), false, parse) == Exited(1))
  {
    var allCompanies := PySlice(all, 0, 100);
    if allCompanies == [] {
      return Exit(1, []);
    }
    var batch := BatchWindow(all, startIndex, endIndex);
    if batch == [] {
      return Exit(0, []);
    }
    var outcomes: seq<Outcome> := [];
    var i := 0;
    while i < |batch|
      invariant 0 <= i <= |batch|
      invariant |outcomes| == i
      invariant forall k :: 0 <= k < i ==>
                  outcomes[k] == BatchOutcome(batch[k], inputs(batch[k]), false, parse) && !outcomes[k].Exited?
      decreases |batch| - i
    {
      var ticker := batch[i];
      var o := GetCompanyInfo(ticker, inputs(ticker), false, parse);
      if o.Exited? {
        return Exit(o.code, outcomes);
      }
      outcomes := outcomes + [o];
      i := i + 1;
    }
    return Ran(outcomes);
  }
}
