/**
 * Properties of the run and the table `xbrl_data_processor` of
 * backend/headers/xbrlprocessing.py builds: what the save pass leaves in the path column
 * and the saved files, where each column's facts come from, what each cell holds and the
 * derivations between cells.
 */
module ProcessingTable {
  import opened Wrappers
  import opened Dicts
  import opened Accounts
  import opened CanonicalTable
  import opened ConceptLookup
  import opened Extraction
  import opened FactGroups
  import opened StoredFiles
  import opened Processing
  import PC = ProcessCheck

  /** A filing whose document did not parse leaves an error entry, which the read pass passes over. */
  lemma FailedFilingSkipped(fs: seq<Filing>, instance: string -> PC.Instance, parse: string -> Option<int>, i: nat)
    requires i < |fs| && instance(fs[i].link).Failed?
    ensures |Saves(fs, instance).paths| == |fs|
    ensures Skipped(Saves(fs, instance).paths[i])
    ensures FileFacts(Saves(fs, instance).paths[i], Saves(fs, instance).files, parse).None?
  {
    SavedPaths(fs, instance);
    ErrorKeySkipped(instance(fs[i].link).message);
  }

  /**
   * A filing whose document parsed leaves its path in the path column, and the file at
   * that path holds the document of the last filing saved there.
   */
  lemma ParsedFilingSaved(fs: seq<Filing>, instance: string -> PC.Instance, i: nat)
    requires i < |fs| && instance(fs[i].link).Parsed?
    ensures |Saves(fs, instance).paths| == |fs|
    ensures Saves(fs, instance).paths[i] == SavePath(fs[i])
    ensures LastSave(fs, instance, SavePath(fs[i])).Some?
    ensures SavePath(fs[i]) in Saves(fs, instance).files
    ensures Saves(fs, instance).files[SavePath(fs[i])] == LastSave(fs, instance, SavePath(fs[i])).value
  {
    SavedPaths(fs, instance);
    LastSaveFound(fs, instance, i);
    SavedFiles(fs, instance, SavePath(fs[i]));
  }

  /** A path some parsed filing was saved to has a last save. */
  lemma {:induction false} LastSaveFound(fs: seq<Filing>, instance: string -> PC.Instance, i: nat)
    requires i < |fs| && instance(fs[i].link).Parsed?
    ensures LastSave(fs, instance, SavePath(fs[i])).Some?
    decreases |fs|
  {
    var n := |fs| - 1;
    if i < n && !(instance(fs[n].link).Parsed? && SavePath(fs[n]) == SavePath(fs[i])) {
      assert fs[..n][i] == fs[i];
      LastSaveFound(fs[..n], instance, i);
    }
  }

  /** With distinct dates, the column of the `k`-th date is the one computed from its facts. */
  lemma ColumnAt(final: ByDate, k: nat)
    requires DistinctKeys(final) && k < |final|
    ensures final[k].0 in PC.Keys(final)
    ensures LastColumn(Columns(final), final[k].0) == Some(ProcessingColumn(final[k].1))
  {
    var d := final[k].0;
    var items := Columns(final);
    assert PC.Keys(final)[k] == d;
    assert items[k].0 == d;
    var last := LastColumn(items, d);
    var j :| 0 <= j < |items| && items[j] == (d, last.value);
    assert j == k;
  }

  /** Each row of the built table holds, for every date, its label's value for that date's facts. */
  lemma BuiltCell(final: ByDate, k: nat, v: Var)
    requires DistinctKeys(final) && k < |final| && v in ProcessingRows
    ensures (v, final[k].0) in BuiltCells(final)
    ensures BuiltCells(final)[(v, final[k].0)] == ProcessingValue(final[k].1, v)
  {
    ColumnAt(final, k);
    PopulatedCell(ProcessingRows, PC.Keys(final), ProcessingRows, Columns(final), v, final[k].0);
    var col := ProcessingColumn(final[k].1);
    assert v in col;
  }

  /**
   * From the filings to the cells: the `k`-th date's facts are those of the last kept
   * filing of that date whose saved file read back, and every row of that column holds its
   * label's value for those facts.
   */
  lemma BuiltFromLastFile(rows: seq<TrailingRow>, ticker: string, compact: int -> string, working: string -> bool,
                          instance: string -> PC.Instance, parse: string -> Option<int>, k: nat, v: Var)
    requires k < |FinalOf(rows, ticker, compact, working, instance, parse)| && v in ProcessingRows
    ensures var fs := Working(rows, ticker, compact, working);
      var saved := Saves(fs, instance);
      var final := FinalOf(rows, ticker, compact, working, instance, parse);
      |saved.paths| == |fs| &&
      LastRead(DatedPaths(fs, saved.paths), saved.files, parse, final[k].0) == Some(final[k].1) &&
      (v, final[k].0) in BuiltCells(final) &&
      BuiltCells(final)[(v, final[k].0)] == ProcessingValue(final[k].1, v)
  {
    var fs := Working(rows, ticker, compact, working);
    var saved := Saves(fs, instance);
    SavedPaths(fs, instance);
    var files := DatedPaths(fs, saved.paths);
    var final := Reads(files, saved.files, parse);
    assert final == FinalOf(rows, ticker, compact, working, instance, parse);
    ReadsSpec(files, saved.files, parse);
    GetDistinct(final, k);
    BuiltCell(final, k, v);
  }

  /** The derivations hold between the cells of every column of the built table. */
  lemma TableDerivations(final: ByDate, k: nat)
    requires DistinctKeys(final) && k < |final|
    ensures var c := BuiltCells(final); var d := final[k].0;
      (DebtBV, d) in c && (LongTermDebtBV, d) in c && (ShortTermDebtBV, d) in c &&
      (LongTermDebtWithoutLeaseBV, d) in c && (LongTermLeaseBV, d) in c &&
      c[(LongTermDebtBV, d)] == c[(LongTermDebtWithoutLeaseBV, d)] + c[(LongTermLeaseBV, d)] &&
      c[(DebtBV, d)] == c[(LongTermDebtBV, d)] + c[(ShortTermDebtBV, d)]
  {
    BuiltCell(final, k, DebtBV);
    BuiltCell(final, k, LongTermDebtBV);
    BuiltCell(final, k, ShortTermDebtBV);
    BuiltCell(final, k, LongTermDebtWithoutLeaseBV);
    BuiltCell(final, k, LongTermLeaseBV);
    LongTermDebtDerivation(final[k].1);
    DebtDerivation(final[k].1);
  }

  /**
   * The cash cell holds the latest restricted-cash-inclusive figure.
   */
  lemma CashCell(final: ByDate, k: nat)
    requires DistinctKeys(final) && k < |final|
    ensures (Cash, final[k].0) in BuiltCells(final)
    ensures BuiltCells(final)[(Cash, final[k].0)] == ValueOrZero(final[k].1, CashSyns)
  {
    BuiltCell(final, k, Cash);
  }
}
