/**
 * The accounting variables that label the rows of the canonical table, and the
 * fixed row lists of the three pipeline variants.
 */
module Accounts {
  /**
   * Every row label any variant uses, plus `InterestIncome`, which one variant
   * writes to although its table has no row of that name.
   */
  datatype Var =
    | Revenue | CostofSales | GrossProfit | OperatingExpense | ResearchExpense
    | Depreciation | Amortization | OperatingIncome | OperatingIncomeAfterInterest
    | InteresIncome | InterestIncome | Interest | Tax | NetIncome
    | TotalAsset | CurrentAssets | Inventory | PPEnet | MinorityInterest
    | EquityIncludingMinorityInterest | EquityBV | ShortTermDebtBV | LongTermDebtBV
    | LongTermDebtWithLeaseBV | DebtBV | CurrentLiabilities | TotalLiability
    | LongTermDebtWithoutLeaseBV | LongTermLeaseBV | LeaseDueThisYear
    | LeaseDueYearOne | LeaseDueYearTwo | LeaseDueYearThree | LeaseDueYearFour
    | LeaseDueYearFive | LeaseDueAfterYearFive | Cash

  /** The label as it appears in the "Accounting Variable" column. */
  function Name(v: Var): string
  {
    match v
    case Revenue => "Revenue"
    case CostofSales => "CostofSales"
    case GrossProfit => "GrossProfit"
    case OperatingExpense => "OperatingExpense"
    case ResearchExpense => "ResearchExpense"
    case Depreciation => "Depreciation"
    case Amortization => "Amortization"
    case OperatingIncome => "OperatingIncome"
    case OperatingIncomeAfterInterest => "OperatingIncomeAfterInterest"
    case InteresIncome => "InteresIncome"
    case InterestIncome => "InterestIncome"
    case Interest => "Interest"
    case Tax => "Tax"
    case NetIncome => "NetIncome"
    case TotalAsset => "TotalAsset"
    case CurrentAssets => "CurrentAssets"
    case Inventory => "Inventory"
    case PPEnet => "PPEnet"
    case MinorityInterest => "MinorityInterest"
    case EquityIncludingMinorityInterest => "EquityIncludingMinorityInterest"
    case EquityBV => "Equity(BV)"
    case ShortTermDebtBV => "ShortTermDebt(BV)"
    case LongTermDebtBV => "LongTermDebt(BV)"
    case LongTermDebtWithLeaseBV => "LongTermDebtWithLease(BV)"
    case DebtBV => "Debt(BV)"
    case CurrentLiabilities => "CurrentLiabilities"
    case TotalLiability => "TotalLiability"
    case LongTermDebtWithoutLeaseBV => "LongTermDebtWithoutLease(BV)"
    case LongTermLeaseBV => "LongTermLease(BV)"
    case LeaseDueThisYear => "LeaseDueThisYear"
    case LeaseDueYearOne => "LeaseDueYearOne"
    case LeaseDueYearTwo => "LeaseDueYearTwo"
    case LeaseDueYearThree => "LeaseDueYearThree"
    case LeaseDueYearFour => "LeaseDueYearFour"
    case LeaseDueYearFive => "LeaseDueYearFive"
    case LeaseDueAfterYearFive => "LeaseDueAfterYearFive"
    case Cash => "Cash"
  }

  /** The 35 rows of backend/headers/xbrlprocesscheck.py, in order. */
  const CheckRows: seq<Var> := [
    Revenue, CostofSales, GrossProfit, OperatingExpense, ResearchExpense, Depreciation,
    Amortization, OperatingIncome, OperatingIncomeAfterInterest, InteresIncome, Interest,
    Tax, NetIncome, TotalAsset, CurrentAssets, Inventory, PPEnet, MinorityInterest,
    EquityIncludingMinorityInterest, EquityBV, ShortTermDebtBV, LongTermDebtWithLeaseBV,
    DebtBV, CurrentLiabilities, TotalLiability, LongTermDebtWithoutLeaseBV, LongTermLeaseBV,
    LeaseDueThisYear, LeaseDueYearOne, LeaseDueYearTwo, LeaseDueYearThree, LeaseDueYearFour,
    LeaseDueYearFive, LeaseDueAfterYearFive, Cash
  ]

  /** The 31 rows of backend/headers/xbrlprocessor_check.py, in order. */
  const ProcessorCheckRows: seq<Var> := [
    Revenue, CostofSales, GrossProfit, OperatingExpense, ResearchExpense, Depreciation,
    Amortization, OperatingIncome, Interest, Tax, NetIncome, TotalAsset, CurrentAssets,
    Inventory, PPEnet, EquityBV, ShortTermDebtBV, LongTermDebtBV, DebtBV, CurrentLiabilities,
    TotalLiability, LongTermDebtWithoutLeaseBV, LongTermLeaseBV, LeaseDueThisYear,
    LeaseDueYearOne, LeaseDueYearTwo, LeaseDueYearThree, LeaseDueYearFour, LeaseDueYearFive,
    LeaseDueAfterYearFive, Cash
  ]

  /** The 18 rows of backend/headers/xbrlprocessing.py, in order. */
  const ProcessingRows: seq<Var> := [
    Revenue, OperatingIncome, EquityBV, ShortTermDebtBV, LongTermDebtWithoutLeaseBV,
    LongTermLeaseBV, LongTermDebtBV, DebtBV, Cash, Tax, LeaseDueThisYear, LeaseDueYearOne,
    LeaseDueYearTwo, LeaseDueYearThree, LeaseDueYearFour, LeaseDueYearFive,
    LeaseDueAfterYearFive, NetIncome
  ]

  /**
   * The row lists have the documented sizes, and the
   * first variant spells its interest-income row `InteresIncome`, so a lookup of the
   * label `InterestIncome` finds no row there.
   */
  lemma RowListsShape()
    ensures |CheckRows| == 35
    ensures |ProcessorCheckRows| == 31
    ensures |ProcessingRows| == 18
    ensures InterestIncome !in CheckRows && InteresIncome in CheckRows
    ensures Name(InterestIncome) != Name(InteresIncome)
  {
  }
}
