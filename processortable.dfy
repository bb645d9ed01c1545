/**
 * Properties of the run and the table `xbrl_data_processor` of
 * backend/headers/xbrlprocessor_check.py builds: where each column's facts come from,
 * what each cell holds, the derivations between cells, and the depreciation block that
 * leaves its cell empty.
 */
module ProcessorCheckTable {
  import opened Wrappers
  import opened Strings
  import opened Dicts
  import opened Accounts
  import opened CanonicalTable
  import opened ConceptLookup
  import opened FactGroups
  import opened StoredFiles
  import opened ProcessorCheck
  import PC = ProcessCheck

  /**
   * The exact message that ends this variant's run contains the text whose presence
   * ends the run of backend/headers/xbrlprocesscheck.py, so every parse error that ends
   * this run would end that one too.
   */
  lemma ExitMessageContainsCheckText()
    ensures Contains(TaxonomyMissingMessage, PC.TaxonomyMissing)
  {
    assert TaxonomyMissingMessage[..|PC.TaxonomyMissing|] == PC.TaxonomyMissing;
    assert OccursAt(TaxonomyMissingMessage, PC.TaxonomyMissing, 0);
  }

  /** Every label the table has is written, and the blocks write no other label. */
  lemma RowsAllWritten()
    ensures forall v :: v in ProcessorCheckRows <==> v in ProcessorOrder
    ensures |ProcessorOrder| == |ProcessorCheckRows|
  {
  }

  /** With distinct dates, the column of the `k`-th date is the one computed from its facts. */
  lemma ColumnAt(final: ByDate, k: nat)
    requires DistinctKeys(final) && k < |final|
    ensures final[k].0 in PC.Keys(final)
    ensures LastColumn(Columns(final), final[k].0) == Some(ProcessorColumn(final[k].1))
  {
    var d := final[k].0;
    var items := Columns(final);
    assert PC.Keys(final)[k] == d;
    assert items[k].0 == d;
    var last := LastColumn(items, d);
    var j :| 0 <= j < |items| && items[j] == (d, last.value);
    assert j == k;
  }

  /** Each row of the built table holds, for every date, its label's value for that date's facts. */
  lemma BuiltCell(final: ByDate, k: nat, v: Var)
    requires DistinctKeys(final) && k < |final| && v in ProcessorCheckRows
    ensures (v, final[k].0) in BuiltCells(final)
    ensures BuiltCells(final)[(v, final[k].0)] == ProcessorValue(final[k].1, v)
  {
    RowsAllWritten();
    ColumnAt(final, k);
    PopulatedCell(ProcessorCheckRows, PC.Keys(final), ProcessorOrder, Columns(final), v, final[k].0);
    var col := ProcessorColumn(final[k].1);
    assert v in col;
  }

  /**
   * From the filings to the cells: when the run builds a table, its `k`-th date's facts
   * are those of the last row of that date whose stored file read back, and every row
   * of that column holds its label's value for those facts.
   */
  lemma BuiltFromLastFile(rows: seq<PC.FilingRow>, instance: string -> PC.Instance, parse: string -> Option<int>,
                          k: nat, v: Var)
    requires OutcomeOf(rows, instance, parse).Built?
    requires k < |OutcomeOf(rows, instance, parse).final| && v in ProcessorCheckRows
    ensures Uploads(rows, instance).Uploaded? && |Uploads(rows, instance).keys| == |rows|
    ensures var final := OutcomeOf(rows, instance, parse).final;
      var up := Uploads(rows, instance);
      LastRead(KeyedFiles(rows, up.keys), up.store, parse, Some(final[k].0)) == Some(final[k].1) &&
      (v, final[k].0) in BuiltCells(final) &&
      BuiltCells(final)[(v, final[k].0)] == ProcessorValue(final[k].1, v)
  {
    var up := Uploads(rows, instance);
    UploadKeys(rows, instance);
    var files := KeyedFiles(rows, up.keys);
    var fs := Reads(files, up.store, parse);
    ReadsSpec(files, up.store, parse);
    GetDistinct(fs, k);
    var final := Dated(fs);
    assert final == OutcomeOf(rows, instance, parse).final;
    assert fs[k].0 == Some(final[k].0) && fs[k].1 == final[k].1;
    BuiltCell(final, k, v);
  }

  /** The derivations hold between the cells of every column of the built table. */
  lemma TableDerivations(final: ByDate, k: nat)
    requires DistinctKeys(final) && k < |final|
    ensures var c := BuiltCells(final); var d := final[k].0;
      (DebtBV, d) in c && (LongTermDebtBV, d) in c && (ShortTermDebtBV, d) in c &&
      (LongTermDebtWithoutLeaseBV, d) in c && (LongTermLeaseBV, d) in c &&
      c[(LongTermDebtBV, d)] == c[(LongTermDebtWithoutLeaseBV, d)] + c[(LongTermLeaseBV, d)] &&
      c[(DebtBV, d)] == c[(LongTermDebtBV, d)] + c[(ShortTermDebtBV, d)]
  {
    BuiltCell(final, k, DebtBV);
    BuiltCell(final, k, LongTermDebtBV);
    BuiltCell(final, k, ShortTermDebtBV);
    BuiltCell(final, k, LongTermDebtWithoutLeaseBV);
    BuiltCell(final, k, LongTermLeaseBV);
    LongTermDebtDerivation(final[k].1);
    DebtDerivation(final[k].1);
  }

  /** Total liability is, in every column, liabilities-plus-equity minus the equity cell. */
  lemma TableTotalLiability(final: ByDate, k: nat)
    requires DistinctKeys(final) && k < |final|
    ensures var c := BuiltCells(final); var d := final[k].0;
      (TotalLiability, d) in c && (EquityBV, d) in c &&
      c[(TotalLiability, d)] == ValueOrZero(final[k].1, PC.LiabilitiesAndEquitySyns) - c[(EquityBV, d)]
  {
    BuiltCell(final, k, TotalLiability);
    BuiltCell(final, k, EquityBV);
    TotalLiabilityDerivation(final[k].1);
  }

  /**
   * Corrected: the depreciation cell holds the latest depreciation fact, or 0 when none
   * of the four synonyms matches, like every other looked-up cell.
   */
  lemma DepreciationCorrected(final: ByDate, k: nat)
    requires DistinctKeys(final) && k < |final|
    ensures (Depreciation, final[k].0) in BuiltCells(final)
    ensures BuiltCells(final)[(Depreciation, final[k].0)] == ValueOrZero(final[k].1, PC.DepreciationSyns)
  {
    BuiltCell(final, k, Depreciation);
    DepreciationValue(final[k].1);
  }

  /** The frame as the source leaves it: the cells, with `None` in the missing ones. */
  function AsWritten(cells: Cells, missing: set<(Var, int)>): (r: map<(Var, int), Option<int>>)
    ensures r.Keys == cells.Keys
    ensures forall c :: c in r ==> (r[c].None? <==> c in missing)
    ensures forall c :: c in r && c !in missing ==> r[c] == Some(cells[c])
  {
    map c | c in cells :: if c in missing then None else Some(cells[c])
  }

  /** The cells left `None` are depreciation cells, one per date without a depreciation fact. */
  lemma NoneCellsShape(final: ByDate)
    ensures forall c :: c in NoneCells(final) ==> c.0 == Depreciation && c.1 in PC.Keys(final)
  {
    forall c | c in NoneCells(final)
      ensures c.0 == Depreciation && c.1 in PC.Keys(final)
    {
      var k :| 0 <= k < |final| && FindLatest(final[k].1, ProcessorSyns(Depreciation)).None? &&
               c == (Depreciation, final[k].0);
      assert PC.Keys(final)[k] == final[k].0;
    }
  }

  /**
   * With distinct dates, the depreciation cell of the `k`-th date is among the cells left
   * `None` exactly when the block as written hands it `None`.
   */
  lemma NoneCellAt(final: ByDate, k: nat)
    requires DistinctKeys(final) && k < |final|
    ensures (Depreciation, final[k].0) in NoneCells(final) <==>
      DepreciationBlockAsWritten(final[k].1, ProcessorValue(final[k].1, PPEnet)).0.None?
  {
    var facts := final[k].1;
    var block := DepreciationBlockAsWritten(facts, ProcessorValue(facts, PPEnet));
    FindLatestNone(facts, ProcessorSyns(Depreciation));
    if (Depreciation, final[k].0) in NoneCells(final) {
      var j :| 0 <= j < |final| && FindLatest(final[j].1, ProcessorSyns(Depreciation)).None? &&
               (Depreciation, final[j].0) == (Depreciation, final[k].0);
      assert j == k;
    }
  }

  /**
   * The frame the source builds: each row holds, for every date, its label's value for
   * that date's facts, except the depreciation cell, which holds what the block as
   * written hands it, `None` when no depreciation synonym matches.
   */
  lemma AsWrittenCell(final: ByDate, k: nat, v: Var)
    requires DistinctKeys(final) && k < |final| && v in ProcessorCheckRows
    ensures (v, final[k].0) in AsWritten(BuiltCells(final), NoneCells(final))
    ensures AsWritten(BuiltCells(final), NoneCells(final))[(v, final[k].0)] ==
      if v == Depreciation then DepreciationBlockAsWritten(final[k].1, ProcessorValue(final[k].1, PPEnet)).0
      else Some(ProcessorValue(final[k].1, v))
  {
    BuiltCell(final, k, v);
    var block := DepreciationBlockAsWritten(final[k].1, ProcessorValue(final[k].1, PPEnet));
    if v == Depreciation {
      NoneCellAt(final, k);
    }
  }

  /** The depreciation block looks up the four depreciation synonyms. */
  lemma DepreciationValue(facts: seq<Fact>)
    ensures ProcessorValue(facts, Depreciation) == ValueOrZero(facts, PC.DepreciationSyns)
  {
    assert ProcessorSyns(Depreciation) == PC.DepreciationSyns;
  }

  /** The cash block reads cash and equivalents only. */
  lemma ProcessorCash(facts: seq<Fact>)
    ensures ProcessorValue(facts, Cash) == ValueOrZero(facts, CashSyns)
  {
    assert ProcessorSyns(Cash) == CashSyns;
  }

  /** The PP&E block looks up the PP&E synonym. */
  lemma PPEnetValue(facts: seq<Fact>)
    ensures ProcessorValue(facts, PPEnet) == ValueOrZero(facts, PC.PPEnetSyns)
  {
    assert ProcessorSyns(PPEnet) == PC.PPEnetSyns;
  }

  /** The facts of the example date: a PP&E figure of 5 and no depreciation fact. */
  function ExampleFacts(): seq<Fact>
  {
    [Fact("PropertyPlantAndEquipmentNet", 5, 1)]
  }

  lemma ExamplePPEnet()
    ensures ProcessorValue(ExampleFacts(), PPEnet) == 5
  {
    var facts := ExampleFacts();
    assert facts[0].concept == "PropertyPlantAndEquipmentNet";
    assert HasConcept(facts, "PropertyPlantAndEquipmentNet");
    FindLatestPriority(facts, PC.PPEnetSyns, 0);
    PPEnetValue(facts);
  }

  lemma ExampleNoDepreciation()
    ensures forall j :: 0 <= j < |ProcessorSyns(Depreciation)| ==>
      !HasConcept(ExampleFacts(), ProcessorSyns(Depreciation)[j])
  {
    assert ProcessorSyns(Depreciation) == PC.DepreciationSyns;
  }

  /**
   * One date with a PP&E fact of 5 and no depreciation fact: as written, the block hands
   * the depreciation cell `None` and resets `ppenet` to 0, a value no cell receives, since
   * the PP&E cell already holds 5; corrected, the depreciation value is 0.
   */
  lemma DepreciationCounterexample()
    ensures DepreciationBlockAsWritten(ExampleFacts(), 5) == (None, 0)
    ensures ProcessorValue(ExampleFacts(), PPEnet) == 5
    ensures ProcessorValue(ExampleFacts(), Depreciation) == 0
  {
    ExamplePPEnet();
    ExampleDepreciationZero();
  }

  /**
   * The same date as the only column of a table: the frame as written has `None` in the
   * depreciation cell, where the corrected table holds 0.
   */
  lemma DepreciationNoneInFrame()
    ensures (Depreciation, 1) in AsWritten(BuiltCells([(1, ExampleFacts())]), NoneCells([(1, ExampleFacts())]))
    ensures AsWritten(BuiltCells([(1, ExampleFacts())]), NoneCells([(1, ExampleFacts())]))[(Depreciation, 1)] == None
    ensures BuiltCells([(1, ExampleFacts())])[(Depreciation, 1)] == 0
  {
    var final: ByDate := [(1, ExampleFacts())];
    assert Depreciation in ProcessorCheckRows;
    AsWrittenCell(final, 0, Depreciation);
    DepreciationCounterexample();
    BuiltCell(final, 0, Depreciation);
  }

  lemma ExampleDepreciationZero()
    ensures ProcessorValue(ExampleFacts(), Depreciation) == 0
  {
    ExampleNoDepreciation();
    FindLatestNone(ExampleFacts(), ProcessorSyns(Depreciation));
    assert FindLatest(ExampleFacts(), ProcessorSyns(Depreciation)).None?;
  }
}
