/**
 * Properties of the table `xbrl_data_processor` of backend/headers/xbrlprocesscheck.py
 * builds: what each cell holds, the derivations between cells, and the interest-income
 * row that the block meant for it misses.
 */
module ProcessCheckTable {
  import opened Wrappers
  import opened Dicts
  import opened Accounts
  import opened CanonicalTable
  import opened ProcessCheck
  import opened ConceptLookup
  import opened FactGroups

  /** Every label the table has is written. */
  lemma RowsAllWritten()
    ensures forall v :: v in CheckRows ==> v in CheckOrder
  {
  }

  /** With distinct dates, the column of a date is the one computed from that date's facts. */
  lemma ColumnOfDate(final: ByDate, d: int)
    requires DistinctKeys(final) && Get(final, d).Some?
    ensures d in Keys(final)
    ensures LastColumn(Columns(final), d) == Some(CheckColumn(Get(final, d).value))
  {
    var items := Columns(final);
    var i := IndexOf(final, d).value;
    assert Keys(final)[i] == d;
    assert items[i].0 == d;
    var last := LastColumn(items, d);
    var j :| 0 <= j < |items| && items[j] == (d, last.value);
    assert j == i;
  }

  /**
   * A label the write order names holds, in every column of the built table, the label's
   * value for the facts of that date, when dates are distinct (as the final facts' are, see
   * `FinalFactsSpec`).
   */
  lemma WrittenCell(final: ByDate, order: seq<Var>, d: int, v: Var)
    requires AllComplete(order, Columns(final))
    requires DistinctKeys(final) && Get(final, d).Some? && v in CheckRows && v in order
    ensures (v, d) in BuiltCells(final, order)
    ensures BuiltCells(final, order)[(v, d)] == CheckValue(Get(final, d).value, v)
  {
    ColumnOfDate(final, d);
    PopulatedCell(CheckRows, Keys(final), order, Columns(final), v, d);
    var col := CheckColumn(Get(final, d).value);
    var i :| 0 <= i < |order| && order[i] == v;
    assert v in col;
  }

  /** A label the write order does not name keeps the 0 the table starts with. */
  lemma UnwrittenCell(final: ByDate, order: seq<Var>, d: int, v: Var)
    requires AllComplete(order, Columns(final))
    requires d in Keys(final) && v in CheckRows && v !in order
    ensures (v, d) in BuiltCells(final, order)
    ensures BuiltCells(final, order)[(v, d)] == 0
  {
    UnwrittenZero(CheckRows, Keys(final), order, Columns(final), v, d);
  }

  /** Each row of the built table holds, for every date, its label's value for that date's facts. */
  lemma BuiltCell(final: ByDate, d: int, v: Var)
    requires DistinctKeys(final) && Get(final, d).Some? && v in CheckRows
    ensures (v, d) in BuiltCells(final, CheckOrder)
    ensures BuiltCells(final, CheckOrder)[(v, d)] == CheckValue(Get(final, d).value, v)
  {
    RowsAllWritten();
    WrittenCell(final, CheckOrder, d, v);
  }

  /** Every label the table has, except `InteresIncome`, is written as the source stands. */
  lemma RowsWrittenAsWritten()
    ensures forall v :: v in CheckRows && v != InteresIncome ==> v in CheckOrderAsWritten
  {
  }

  /**
   * The table `XbrlDataProcessor` builds: every row but `InteresIncome` holds, for every
   * date, its label's value for that date's facts, and `InteresIncome` holds 0.
   */
  lemma BuiltCellAsWritten(final: ByDate, d: int, v: Var)
    requires DistinctKeys(final) && Get(final, d).Some? && v in CheckRows
    ensures (v, d) in BuiltCells(final, CheckOrderAsWritten)
    ensures v != InteresIncome ==>
      BuiltCells(final, CheckOrderAsWritten)[(v, d)] == CheckValue(Get(final, d).value, v)
    ensures v == InteresIncome ==> BuiltCells(final, CheckOrderAsWritten)[(v, d)] == 0
  {
    if v == InteresIncome {
      ColumnOfDate(final, d);
      InterestIncomeLostAsWritten(final, d);
    } else {
      RowsWrittenAsWritten();
      WrittenCell(final, CheckOrderAsWritten, d, v);
    }
  }

  /** The derivations hold between the cells of every column of the built table. */
  lemma TableDerivations(final: ByDate, d: int)
    requires DistinctKeys(final) && Get(final, d).Some?
    ensures var c := BuiltCells(final, CheckOrder);
      (DebtBV, d) in c && (LongTermDebtWithLeaseBV, d) in c && (ShortTermDebtBV, d) in c &&
      (TotalLiability, d) in c && (EquityBV, d) in c &&
      c[(DebtBV, d)] == c[(LongTermDebtWithLeaseBV, d)] + c[(ShortTermDebtBV, d)] &&
      c[(TotalLiability, d)] == ValueOrZero(Get(final, d).value, LiabilitiesAndEquitySyns) - c[(EquityBV, d)]
  {
    BuiltCell(final, d, DebtBV);
    BuiltCell(final, d, LongTermDebtWithLeaseBV);
    BuiltCell(final, d, ShortTermDebtBV);
    BuiltCell(final, d, TotalLiability);
    BuiltCell(final, d, EquityBV);
    DebtDerivation(Get(final, d).value);
    TotalLiabilityDerivation(Get(final, d).value);
  }

  /** The table has no `InterestIncome` row: the label the last block writes as written. */
  lemma NoInterestIncomeRow()
    ensures InterestIncome !in CheckRows
  {
  }

  /** The table's `InteresIncome` row, which only the corrected order writes. */
  lemma InteresIncomeRow()
    ensures InteresIncome in CheckRows && InteresIncome in CheckOrder
  {
    assert CheckRows[9] == InteresIncome;
    assert CheckOrder[34] == InteresIncome;
  }

  lemma InteresIncomeUnwritten()
    ensures InteresIncome !in CheckOrderAsWritten
  {
  }

  /**
   * As written, the last block looks for a row labelled `InterestIncome`, finds none, and
   * writes nothing, so the `InteresIncome` row keeps its 0 in every column.
   */
  lemma InterestIncomeLostAsWritten(final: ByDate, d: int)
    requires d in Keys(final)
    ensures (InteresIncome, d) in BuiltCells(final, CheckOrderAsWritten)
    ensures BuiltCells(final, CheckOrderAsWritten)[(InteresIncome, d)] == 0
  {
    InteresIncomeRow();
    InteresIncomeUnwritten();
    UnwrittenCell(final, CheckOrderAsWritten, d, InteresIncome);
  }

  /** The value the corrected last block writes: the latest interest-income fact, or 0. */
  lemma InterestIncomeValue(facts: seq<Fact>)
    ensures CheckValue(facts, InteresIncome) == ValueOrZero(facts, ["InvestmentIncomeInterest"])
  {
  }

  /** Corrected: the `InteresIncome` row holds the interest income looked up for its date. */
  lemma InterestIncomeCorrected(final: ByDate, d: int)
    requires DistinctKeys(final) && Get(final, d).Some?
    ensures (InteresIncome, d) in BuiltCells(final, CheckOrder)
    ensures BuiltCells(final, CheckOrder)[(InteresIncome, d)] ==
      ValueOrZero(Get(final, d).value, ["InvestmentIncomeInterest"])
  {
    InteresIncomeRow();
    WrittenCell(final, CheckOrder, d, InteresIncome);
    InterestIncomeValue(Get(final, d).value);
  }

  /** The facts of the example date: one interest-income fact of 7. */
  function ExampleFinal(): ByDate
  {
    [(1, [Fact("InvestmentIncomeInterest", 7, 1)])]
  }

  lemma ExampleFinalShape()
    ensures DistinctKeys(ExampleFinal()) && 1 in Keys(ExampleFinal())
    ensures Get(ExampleFinal(), 1) == Some([Fact("InvestmentIncomeInterest", 7, 1)])
    ensures ValueOrZero([Fact("InvestmentIncomeInterest", 7, 1)], ["InvestmentIncomeInterest"]) == 7
  {
    var facts := [Fact("InvestmentIncomeInterest", 7, 1)];
    assert Keys(ExampleFinal())[0] == 1;
    assert IndexOf(ExampleFinal(), 1) == Some(0);
    assert facts[0].concept == "InvestmentIncomeInterest";
    assert HasConcept(facts, "InvestmentIncomeInterest");
    FindLatestPriority(facts, ["InvestmentIncomeInterest"], 0);
  }

  /** One filing date whose facts report interest income of 7: the as-written table shows 0. */
  lemma InterestIncomeCounterexample()
    ensures (InteresIncome, 1) in BuiltCells(ExampleFinal(), CheckOrderAsWritten)
    ensures BuiltCells(ExampleFinal(), CheckOrderAsWritten)[(InteresIncome, 1)] == 0
    ensures (InteresIncome, 1) in BuiltCells(ExampleFinal(), CheckOrder)
    ensures BuiltCells(ExampleFinal(), CheckOrder)[(InteresIncome, 1)] == 7
  {
    ExampleFinalShape();
    InterestIncomeLostAsWritten(ExampleFinal(), 1);
    InterestIncomeCorrected(ExampleFinal(), 1);
  }
}
