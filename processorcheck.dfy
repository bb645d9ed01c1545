/**
 * `xbrl_data_processor` of backend/headers/xbrlprocessor_check.py, from the annual filings
 * the full-text search found to the 31-row canonical table.
 *
 * 1. Upload pass: every row's instance document is parsed and stored under a key made
 *    from the file name of its link; the key (or `ERROR: ` and the parse error) goes
 *    into the row's key column. A later upload under the same key replaces the earlier
 *    one. The one parse error whose text is exactly the missing `cyd/2024` taxonomy
 *    message ends the run.
 * 2. Read pass: every row whose key is neither empty nor marked `ERROR` has its stored
 *    document read back and its facts extracted under the strict rule; a malformed
 *    range drops the whole file, and a file that reads assigns its facts to the row's
 *    reporting date, replacing what an earlier row of that date stored.
 * 3. The table has one column per date of the dictionary; a row without a reporting
 *    date puts a `None` key into it, and formatting that key as a column name (or
 *    sorting it beside a dated key) raises. Each label's cell gets its looked-up value
 *    (0 when no synonym matches), three of them derived, except that the depreciation
 *    cell of a date with no depreciation fact receives `None` (`NoneCells`); the table's
 *    `cells` hold the corrected 0 there, and `ProcessorCheckTable.AsWritten` gives the
 *    frame as the source leaves it.
 *
 * The instance parser and the date parsers are parameters; the storage bucket is a map
 * from keys to documents.
 */
module ProcessorCheck {
  import opened Wrappers
  import opened Strings
  import opened Dicts
  import opened ConceptLookup
  import opened Extraction
  import opened Accounts
  import opened CanonicalTable
  import opened FullSearch
  import opened FactGroups
  import opened StoredFiles
  import PC = ProcessCheck

  // ---------------------------------------------------------------------------
  // Storage keys
  // ---------------------------------------------------------------------------

  /** The folder every uploaded document is stored in. */
  const KeyFolder: string := "xbrl_json_data/"

  /** `xbrl_json_data/{base}.json`, with `unknown_file_{index}` when the link has no base name. */
  function StorageKey(link: string, index: nat): string
  {
    var base := match BaseName(link)
      case Some(b) => b
      case None => "unknown_file_" + NatToString(index);
    KeyFolder + base + ".json"
  }

  // ---------------------------------------------------------------------------
  // The upload pass
  // ---------------------------------------------------------------------------

  /** The exact parse-error text that ends the run. */
  const TaxonomyMissingMessage: string :=
    PC.TaxonomyMissing + ". Please check if it is imported in the schema file"

  /** The state of the upload loop: the key column so far and the bucket, or the exit. */
  datatype Upload = Exited | Uploaded(keys: seq<string>, store: map<string, Document>)

  /** The key-column entry of row `index`, when its parse does not end the run. */
  function RowKey(row: PC.FilingRow, index: nat, instance: string -> PC.Instance): string
  {
    match instance(row.reportLink)
    case Failed(msg) => ErrorPrefix + msg
    case Parsed(_) => StorageKey(row.reportLink, index)
  }

  /** A row whose parse error is exactly the missing-taxonomy message. */
  predicate Ends(row: PC.FilingRow, instance: string -> PC.Instance)
  {
    instance(row.reportLink) == PC.Failed(TaxonomyMissingMessage)
  }

  /** One iteration of the upload loop, for the row at position `index`. */
  function UploadStep(st: Upload, index: nat, row: PC.FilingRow, instance: string -> PC.Instance): Upload
  {
    if st.Exited? then st
    else if Ends(row, instance) then Exited
    else
      match instance(row.reportLink)
      case Failed(msg) => Uploaded(st.keys + [ErrorPrefix + msg], st.store)
      case Parsed(doc) =>
        var key := StorageKey(row.reportLink, index);
        Uploaded(st.keys + [key], st.store[key := doc])
  }

  /** The upload loop over `rows`, from an empty key column and an empty bucket. */
  function Uploads(rows: seq<PC.FilingRow>, instance: string -> PC.Instance): Upload
    decreases |rows|
  {
    if |rows| == 0 then Uploaded([], map[])
    else
      var n := |rows| - 1;
      UploadStep(Uploads(rows[..n], instance), n, rows[n], instance)
  }

  /** The document the last row parsed under key `k` uploaded, if any. */
  function LastUpload(rows: seq<PC.FilingRow>, instance: string -> PC.Instance, k: string): Option<Document>
    decreases |rows|
  {
    if |rows| == 0 then None
    else
      var n := |rows| - 1;
      match instance(rows[n].reportLink)
      case Parsed(doc) =>
        if StorageKey(rows[n].reportLink, n) == k then Some(doc) else LastUpload(rows[..n], instance, k)
      case Failed(_) => LastUpload(rows[..n], instance, k)
  }

  /** Once the run has ended, later rows change nothing. */
  lemma {:induction false} UploadExitedStays(rows: seq<PC.FilingRow>, k: nat, instance: string -> PC.Instance)
    requires k <= |rows| && Uploads(rows[..k], instance).Exited?
    ensures Uploads(rows, instance).Exited?
    decreases |rows| - k
  {
    if k < |rows| {
      assert rows[..k + 1][..k] == rows[..k];
      UploadExitedStays(rows, k + 1, instance);
    } else {
      assert rows[..k] == rows;
    }
  }

  /** The run ends exactly when some row's parse error is the missing-taxonomy message. */
  lemma {:induction false} UploadExitIff(rows: seq<PC.FilingRow>, instance: string -> PC.Instance)
    ensures Uploads(rows, instance).Exited? <==> exists i :: 0 <= i < |rows| && Ends(rows[i], instance)
    decreases |rows|
  {
    if |rows| > 0 {
      var n := |rows| - 1;
      var init := rows[..n];
      var prev := Uploads(init, instance);
      assert Uploads(rows, instance) == UploadStep(prev, n, rows[n], instance);
      UploadExitIff(init, instance);
      if prev.Exited? {
        var i :| 0 <= i < n && Ends(init[i], instance);
        assert init[i] == rows[i];
      } else {
        forall i | 0 <= i < n
          ensures !Ends(rows[i], instance)
        {
          assert init[i] == rows[i];
        }
      }
    }
  }

  /**
   * When the run goes on, the key column has one entry per row: the parse error after
   * `ERROR: `, or the storage key made from the link and the row's position.
   */
  lemma {:induction false} UploadKeys(rows: seq<PC.FilingRow>, instance: string -> PC.Instance)
    requires Uploads(rows, instance).Uploaded?
    ensures |Uploads(rows, instance).keys| == |rows|
    ensures forall i :: 0 <= i < |rows| ==> Uploads(rows, instance).keys[i] == RowKey(rows[i], i, instance)
    decreases |rows|
  {
    if |rows| > 0 {
      var n := |rows| - 1;
      var init := rows[..n];
      var prev := Uploads(init, instance);
      assert Uploads(rows, instance) == UploadStep(prev, n, rows[n], instance);
      UploadStepKeys(prev, n, rows[n], instance);
      UploadKeys(init, instance);
      var ks := Uploads(rows, instance).keys;
      forall i | 0 <= i < |rows|
        ensures ks[i] == RowKey(rows[i], i, instance)
      {
        if i < n {
          assert init[i] == rows[i];
          assert ks[i] == prev.keys[i];
        }
      }
    }
  }

  /** A step that leaves the run going appends the row's key-column entry. */
  lemma UploadStepKeys(st: Upload, index: nat, row: PC.FilingRow, instance: string -> PC.Instance)
    requires UploadStep(st, index, row, instance).Uploaded?
    ensures st.Uploaded?
    ensures UploadStep(st, index, row, instance).keys == st.keys + [RowKey(row, index, instance)]
  {
  }

  /** The bucket holds, under each key, the document of the last row uploaded under it. */
  lemma {:induction false} UploadStore(rows: seq<PC.FilingRow>, instance: string -> PC.Instance, k: string)
    requires Uploads(rows, instance).Uploaded?
    ensures k in Uploads(rows, instance).store <==> LastUpload(rows, instance, k).Some?
    ensures k in Uploads(rows, instance).store ==>
      Uploads(rows, instance).store[k] == LastUpload(rows, instance, k).value
    decreases |rows|
  {
    if |rows| > 0 {
      UploadStore(rows[..|rows| - 1], instance, k);
    }
  }

  /**
   * The upload loop: parse each row's document, store it under its key and record the
   * key, or record the error; the missing-taxonomy message breaks out and ends the run.
   */
  method UploadFilings(rows: seq<PC.FilingRow>, instance: string -> PC.Instance) returns (up: Upload)
    ensures up == Uploads(rows, instance)
  {
    var keys: seq<string> := [];
    var store: map<string, Document> := map[];
    var i := 0;
    while i < |rows|
      invariant 0 <= i <= |rows|
      invariant Uploads(rows[..i], instance) == Uploaded(keys, store)
      decreases |rows| - i
    {
      assert rows[..i + 1][..i] == rows[..i];
      var link := rows[i].reportLink;
      match instance(link) {
        case Failed(msg) =>
          keys := keys + [ErrorPrefix + msg];
          if msg == TaxonomyMissingMessage {
            UploadExitedStays(rows, i + 1, instance);
            return Exited;
          }
        case Parsed(doc) =>
          var key := StorageKey(link, i);
          store := store[key := doc];
          keys := keys + [key];
      }
      i := i + 1;
    }
    assert rows[..|rows|] == rows;
    up := Uploaded(keys, store);
  }

  // ---------------------------------------------------------------------------
  // The read pass
  // ---------------------------------------------------------------------------

  /** The rows' report dates beside the key column the upload pass filled. */
  function KeyedFiles(rows: seq<PC.FilingRow>, keys: seq<string>): (r: seq<(Option<int>, string)>)
    requires |keys| == |rows|
    ensures |r| == |rows| && forall i :: 0 <= i < |r| ==> r[i] == (rows[i].reportingDate, keys[i])
  {
    seq(|rows|, i requires 0 <= i < |rows| => (rows[i].reportingDate, keys[i]))
  }

  // ---------------------------------------------------------------------------
  // The population blocks
  // ---------------------------------------------------------------------------

  // The four synonym lists this variant narrows; the others are those of
  // backend/headers/xbrlprocesscheck.py.
  const LongTermDebtWithoutLeaseSyns: seq<string> := ["LongTermDebtNoncurrent"]
  const CashSyns: seq<string> := ["CashAndCashEquivalentsAtCarryingValue"]
  const NetIncomeSyns: seq<string> := ["NetIncomeLoss"]
  const InterestSyns: seq<string> := ["InterestExpense"]

  /** The synonyms of each label filled by a plain lookup. */
  function ProcessorSyns(v: Var): seq<string>
  {
    if v == LongTermDebtWithoutLeaseBV then LongTermDebtWithoutLeaseSyns
    else if v == Cash then CashSyns
    else if v == NetIncome then NetIncomeSyns
    else if v == Interest then InterestSyns
    else PC.CheckSyns(v)
  }

  /** Long-term debt: debt without leases plus leases. */
  function LongTermDebt(facts: seq<Fact>): int
  {
    ValueOrZero(facts, ProcessorSyns(LongTermDebtWithoutLeaseBV)) + ValueOrZero(facts, ProcessorSyns(LongTermLeaseBV))
  }

  /**
   * The value a label's block computes for one date's facts. For the depreciation block
   * this is the corrected value, 0 when no synonym matches; as written, that block
   * writes `None` instead (see `DepreciationBlockAsWritten` and `NoneCells`).
   */
  function ProcessorValue(facts: seq<Fact>, v: Var): int
  {
    if v == LongTermDebtBV then LongTermDebt(facts)
    else if v == DebtBV then LongTermDebt(facts) + ValueOrZero(facts, ProcessorSyns(ShortTermDebtBV))
    else if v == TotalLiability then
      ValueOrZero(facts, PC.LiabilitiesAndEquitySyns) - ValueOrZero(facts, ProcessorSyns(EquityBV))
    else ValueOrZero(facts, ProcessorSyns(v))
  }

  /** The labels the blocks write, in source order: each of the 31 rows once. */
  const ProcessorOrder: seq<Var> := [
    Revenue, OperatingIncome, EquityBV, ShortTermDebtBV, LongTermDebtWithoutLeaseBV, LongTermLeaseBV,
    LongTermDebtBV, DebtBV, Cash, Tax, LeaseDueThisYear, LeaseDueYearOne, LeaseDueYearTwo,
    LeaseDueYearThree, LeaseDueYearFour, LeaseDueYearFive, LeaseDueAfterYearFive, NetIncome,
    CurrentAssets, CurrentLiabilities, TotalLiability, TotalAsset, Inventory, CostofSales, GrossProfit,
    OperatingExpense, ResearchExpense, Interest, PPEnet, Depreciation, Amortization
  ]

  /** The values of one date's blocks. */
  function ProcessorColumn(facts: seq<Fact>): (col: map<Var, int>)
    ensures Complete(ProcessorOrder, col)
    ensures forall v :: v in col ==> col[v] == ProcessorValue(facts, v)
  {
    map v | v in ProcessorOrder :: ProcessorValue(facts, v)
  }

  /** Long-term debt is debt without leases plus leases. */
  lemma LongTermDebtDerivation(facts: seq<Fact>)
    ensures ProcessorValue(facts, LongTermDebtBV) ==
      ProcessorValue(facts, LongTermDebtWithoutLeaseBV) + ProcessorValue(facts, LongTermLeaseBV)
  {
  }

  /** Total debt is long-term debt plus short-term debt. */
  lemma DebtDerivation(facts: seq<Fact>)
    ensures ProcessorValue(facts, DebtBV) == ProcessorValue(facts, LongTermDebtBV) + ProcessorValue(facts, ShortTermDebtBV)
  {
  }

  /** Total liability is liabilities-plus-equity minus equity. */
  lemma TotalLiabilityDerivation(facts: seq<Fact>)
    ensures ProcessorValue(facts, TotalLiability) ==
      ValueOrZero(facts, PC.LiabilitiesAndEquitySyns) - ProcessorValue(facts, EquityBV)
  {
  }

  /**
   * The depreciation block as written: the looked-up value, or, when no synonym matches,
   * `None` for the cell while the `else` arm resets `ppenet`, a variable no later block
   * reads and whose cell was already written.
   */
  function DepreciationBlockAsWritten(facts: seq<Fact>, ppenet: int): (r: (Option<int>, int))
    ensures r.0.None? <==> forall j :: 0 <= j < |ProcessorSyns(Depreciation)| ==> !HasConcept(facts, ProcessorSyns(Depreciation)[j])
    ensures r.0.Some? ==> r.0.value == ProcessorValue(facts, Depreciation) && r.1 == ppenet
    ensures r.0.None? ==> r.1 == 0 && ProcessorValue(facts, Depreciation) == 0
  {
    FindLatestNone(facts, ProcessorSyns(Depreciation));
    match FindLatest(facts, ProcessorSyns(Depreciation))
    case Some(f) => (Some(f.value), ppenet)
    case None => (None, 0)
  }

  // ---------------------------------------------------------------------------
  // The whole function
  // ---------------------------------------------------------------------------

  /** How the function ends: the exit, the failed sort of a `None` date, or a table. */
  datatype Outcome = Exit | Crash | Built(final: ByDate)

  /** The read pass's dictionary, keyed by the rows' report dates, `None` included. */
  type DatedFacts = seq<(Option<int>, seq<Fact>)>

  predicate AllDated(fs: DatedFacts)
  {
    forall k :: 0 <= k < |fs| ==> fs[k].0.Some?
  }

  /** The dictionary with its date keys unwrapped. */
  function Dated(fs: DatedFacts): (r: ByDate)
    requires AllDated(fs)
    ensures |r| == |fs| && forall k :: 0 <= k < |r| ==> r[k] == (fs[k].0.value, fs[k].1)
    ensures DistinctKeys(fs) ==> DistinctKeys(r)
  {
    seq(|fs|, k requires 0 <= k < |fs| => (fs[k].0.value, fs[k].1))
  }

  function OutcomeOf(rows: seq<PC.FilingRow>, instance: string -> PC.Instance, parse: string -> Option<int>): Outcome
  {
    var up := Uploads(rows, instance);
    if up.Exited? then Exit
    else
      UploadKeys(rows, instance);
      var fs := Reads(KeyedFiles(rows, up.keys), up.store, parse);
      if AllDated(fs) then Built(Dated(fs)) else Crash
  }

  /** The column values of every date, in dictionary order. */
  function Columns(final: ByDate): (r: seq<(int, map<Var, int>)>)
    ensures |r| == |final| && forall k :: 0 <= k < |r| ==> r[k] == (final[k].0, ProcessorColumn(final[k].1))
    ensures AllComplete(ProcessorOrder, r)
  {
    seq(|final|, k requires 0 <= k < |final| => (final[k].0, ProcessorColumn(final[k].1)))
  }

  /** The cells of the built table. */
  function BuiltCells(final: ByDate): Cells
  {
    var ds := SortedDates(PC.Keys(final));
    Populated(Zeros(ProcessorCheckRows, ds), ds, ProcessorOrder, Columns(final))
  }

  /**
   * The cells the depreciation block leaves holding `None`: the depreciation cell of
   * every date none of whose facts carries a depreciation synonym.
   */
  function NoneCells(final: ByDate): set<(Var, int)>
  {
    set k | 0 <= k < |final| && FindLatest(final[k].1, ProcessorSyns(Depreciation)).None? ::
      (Depreciation, final[k].0)
  }

  /**
   * `xbrl_data_processor`: the search rows, the upload pass, the read pass, then the
   * table: the 31 rows, the dates ascending, zeros, and the blocks of every date, with
   * `missing` the depreciation cells the source leaves `None`.
   */
  method XbrlDataProcessor(hits: Option<seq<Hit>>, cik: string, reportDate: string -> Option<int>,
                           instance: string -> PC.Instance, parse: string -> Option<int>)
    returns (outcome: Outcome, table: Table?, missing: set<(Var, int)>)
    ensures outcome == OutcomeOf(Collected(hits, cik, reportDate), instance, parse)
    ensures outcome.Built? <==> table != null
    ensures outcome.Built? ==>
      fresh(table) && table.Valid() && table.rows == ProcessorCheckRows &&
      table.dates == SortedDates(PC.Keys(outcome.final)) && table.cells == BuiltCells(outcome.final) &&
      missing == NoneCells(outcome.final)
    ensures !outcome.Built? ==> missing == {}
  {
    missing := {};
    var rows := FetchAnnualReports(hits, cik, reportDate);
    var up := UploadFilings(rows, instance);
    if up.Exited? {
      return Exit, null, {};
    }
    UploadKeys(rows, instance);
    var fs := ReadFilings(KeyedFiles(rows, up.keys), up.store, parse);
    if !AllDated(fs) {
      return Crash, null, {};
    }
    var final := Dated(fs);
    table := new Table(ProcessorCheckRows, PC.Keys(final));
    table.Populate(ProcessorOrder, Columns(final));
    outcome := Built(final);
    missing := NoneCells(final);
  }
}
