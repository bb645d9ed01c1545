/**
 * `xbrl_data_processor` of backend/headers/xbrlprocesscheck.py, from the annual filings
 * the full-text search found to the 35-row canonical table.
 *
 * 1. Every filing with a reporting date has its instance document parsed. A filing with
 *    no link, a parse error, or fewer than 1000 raw facts records an empty fact list for
 *    its date and turns the company-facts fallback on; a parse error naming the missing
 *    `cyd/2024` taxonomy ends the run. Any other filing records the facts the lenient
 *    extraction rule keeps.
 * 2. With the fallback on, the company-facts facts dated on a reporting date are grouped
 *    by date; when there are none, the non-empty per-filing lists are used instead.
 * 3. The table has one column per remaining date, and each label's cell gets its
 *    looked-up value (0 when no synonym matches), three of them derived. The last block
 *    writes to `InterestIncome`, a label the table has no row for, so the `InteresIncome`
 *    row keeps its 0; `CheckOrder` is the corrected write order.
 *
 * The instance parser, the two date parsers, the company-facts response and today's date
 * are parameters.
 */
module ProcessCheck {
  import opened Wrappers
  import opened Strings
  import opened Seqs
  import opened Dicts
  import opened ConceptLookup
  import opened Extraction
  import opened Accounts
  import opened CanonicalTable
  import opened FullSearch
  import opened FactGroups

  // ---------------------------------------------------------------------------
  // The company-facts API (`fetch_company_facts_from_sec_api`)
  // ---------------------------------------------------------------------------

  /** `timedelta(days=5 * 365)`: the lookback window, leap days ignored as in the source. */
  const LookbackDays: int := 5 * 365

  /** One entry of a unit's list: its "end" date text and its "val". */
  datatype ApiEntry = ApiEntry(end: Option<string>, val: Option<int>)

  /** One concept of a taxonomy, with the entry lists of its units in key order. */
  datatype ApiConcept = ApiConcept(name: string, units: seq<seq<ApiEntry>>)

  /** The "facts" object of a response: the concepts of each taxonomy, in key order. */
  type CompanyFacts = map<string, seq<ApiConcept>>

  /** The taxonomies read, in the order they are read. */
  const Taxonomies: seq<string> := ["us-gaap", "dei"]

  /**
   * The fact an entry yields: it needs a non-empty end date that parses and is on or
   * after the cutoff, and a value.
   */
  function EntryFact(concept: string, e: ApiEntry, parse: string -> Option<int>, cutoff: int): Option<Fact>
  {
    if e.end.None? || e.end.value == "" then None
    else
      match parse(e.end.value)
      case None => None
      case Some(d) => if d >= cutoff && e.val.Some? then Some(Fact(concept, e.val.value, d)) else None
  }

  /** The facts of one unit's entries, in order; all of them recent enough. */
  function EntriesFacts(concept: string, es: seq<ApiEntry>, parse: string -> Option<int>, cutoff: int): (r: seq<Fact>)
    ensures forall k :: 0 <= k < |r| ==> r[k].concept == concept && r[k].stamp >= cutoff
    ensures forall i :: 0 <= i < |es| && EntryFact(concept, es[i], parse, cutoff).Some? ==>
              EntryFact(concept, es[i], parse, cutoff).value in r
    decreases |es|
  {
    if |es| == 0 then []
    else
      var n := |es| - 1;
      var front := EntriesFacts(concept, es[..n], parse, cutoff);
      assert forall i :: 0 <= i < n ==> es[..n][i] == es[i];
      match EntryFact(concept, es[n], parse, cutoff)
      case None => front
      case Some(f) => front + [f]
  }

  /** The facts of all units of a concept, unit after unit. */
  function UnitsFacts(concept: string, us: seq<seq<ApiEntry>>, parse: string -> Option<int>, cutoff: int): (r: seq<Fact>)
    ensures forall k :: 0 <= k < |r| ==> r[k].concept == concept && r[k].stamp >= cutoff
    decreases |us|
  {
    if |us| == 0 then []
    else UnitsFacts(concept, us[..|us| - 1], parse, cutoff) + EntriesFacts(concept, us[|us| - 1], parse, cutoff)
  }

  /** The facts of a taxonomy's concepts, concept after concept. */
  function ConceptsFacts(cs: seq<ApiConcept>, parse: string -> Option<int>, cutoff: int): (r: seq<Fact>)
    ensures forall k :: 0 <= k < |r| ==> r[k].stamp >= cutoff
    decreases |cs|
  {
    if |cs| == 0 then []
    else
      var c := cs[|cs| - 1];
      ConceptsFacts(cs[..|cs| - 1], parse, cutoff) + UnitsFacts(c.name, c.units, parse, cutoff)
  }

  /** The facts of the listed taxonomies that the response has. */
  function TaxonomiesFacts(m: CompanyFacts, ts: seq<string>, parse: string -> Option<int>, cutoff: int): (r: seq<Fact>)
    ensures forall k :: 0 <= k < |r| ==> r[k].stamp >= cutoff
    decreases |ts|
  {
    if |ts| == 0 then []
    else
      var t := ts[|ts| - 1];
      TaxonomiesFacts(m, ts[..|ts| - 1], parse, cutoff) + (if t in m then ConceptsFacts(m[t], parse, cutoff) else [])
  }

  /**
   * What the fetch returns: no facts when the request or the decoding failed (`None`),
   * otherwise the facts of "us-gaap" then "dei", none older than five years before today.
   */
  function ApiFacts(resp: Option<CompanyFacts>, parse: string -> Option<int>, today: int): (r: seq<Fact>)
    ensures resp.None? ==> r == []
    ensures forall k :: 0 <= k < |r| ==> r[k].stamp >= today - LookbackDays
  {
    match resp
    case None => []
    case Some(m) => TaxonomiesFacts(m, Taxonomies, parse, today - LookbackDays)
  }

  /** Every entry that passes the filters contributes its fact. */
  lemma ApiFactsComplete(m: CompanyFacts, parse: string -> Option<int>, today: int,
                         t: nat, c: nat, u: nat, e: nat)
    requires t < |Taxonomies| && Taxonomies[t] in m
    requires c < |m[Taxonomies[t]]| && u < |m[Taxonomies[t]][c].units|
    requires e < |m[Taxonomies[t]][c].units[u]|
    requires EntryFact(m[Taxonomies[t]][c].name, m[Taxonomies[t]][c].units[u][e], parse, today - LookbackDays).Some?
    ensures EntryFact(m[Taxonomies[t]][c].name, m[Taxonomies[t]][c].units[u][e], parse, today - LookbackDays).value
              in ApiFacts(Some(m), parse, today)
  {
    var cutoff := today - LookbackDays;
    var cs := m[Taxonomies[t]];
    var con := cs[c];
    var x := EntryFact(con.name, con.units[u][e], parse, cutoff).value;
    assert x in EntriesFacts(con.name, con.units[u], parse, cutoff);
    UnitsContain(con.name, con.units, parse, cutoff, u, x);
    ConceptsContain(cs, parse, cutoff, c, x);
    assert x in ConceptsFacts(m[Taxonomies[t]], parse, cutoff);
    var ts := Taxonomies;
    assert ts[..1] == ["us-gaap"];
    if t == 0 {
      assert x in TaxonomiesFacts(m, ts[..1], parse, cutoff);
    } else {
      assert x in TaxonomiesFacts(m, ts[..1], parse, cutoff) + ConceptsFacts(m[ts[1]], parse, cutoff);
    }
  }

  lemma {:induction false} UnitsContain(concept: string, us: seq<seq<ApiEntry>>, parse: string -> Option<int>,
                                        cutoff: int, u: nat, x: Fact)
    requires u < |us| && x in EntriesFacts(concept, us[u], parse, cutoff)
    ensures x in UnitsFacts(concept, us, parse, cutoff)
    decreases |us|
  {
    var n := |us| - 1;
    if u < n {
      assert us[..n][u] == us[u];
      UnitsContain(concept, us[..n], parse, cutoff, u, x);
    }
  }

  lemma {:induction false} ConceptsContain(cs: seq<ApiConcept>, parse: string -> Option<int>, cutoff: int, c: nat, x: Fact)
    requires c < |cs| && x in UnitsFacts(cs[c].name, cs[c].units, parse, cutoff)
    ensures x in ConceptsFacts(cs, parse, cutoff)
    decreases |cs|
  {
    var n := |cs| - 1;
    if c < n {
      assert cs[..n][c] == cs[c];
      ConceptsContain(cs[..n], parse, cutoff, c, x);
    }
  }

  /** The innermost loop: the entries of one unit, appended to `acc`. */
  method CollectEntries(acc: seq<Fact>, concept: string, es: seq<ApiEntry>, parse: string -> Option<int>, cutoff: int)
    returns (facts: seq<Fact>)
    ensures facts == acc + EntriesFacts(concept, es, parse, cutoff)
  {
    facts := acc;
    var i := 0;
    while i < |es|
      invariant 0 <= i <= |es|
      invariant facts == acc + EntriesFacts(concept, es[..i], parse, cutoff)
      decreases |es| - i
    {
      assert es[..i + 1][..i] == es[..i];
      var e := es[i];
      i := i + 1;
      if e.end.None? || e.end.value == "" {
        continue;
      }
      var d := parse(e.end.value);
      if d.None? {
        continue;
      }
      if d.value >= cutoff && e.val.Some? {
        facts := facts + [Fact(concept, e.val.value, d.value)];
      }
    }
    assert es[..|es|] == es;
  }

  /** The loop over the units of one concept. */
  method CollectUnits(acc: seq<Fact>, c: ApiConcept, parse: string -> Option<int>, cutoff: int)
    returns (facts: seq<Fact>)
    ensures facts == acc + UnitsFacts(c.name, c.units, parse, cutoff)
  {
    facts := acc;
    var j := 0;
    while j < |c.units|
      invariant 0 <= j <= |c.units|
      invariant facts == acc + UnitsFacts(c.name, c.units[..j], parse, cutoff)
      decreases |c.units| - j
    {
      assert c.units[..j + 1][..j] == c.units[..j];
      facts := CollectEntries(facts, c.name, c.units[j], parse, cutoff);
      j := j + 1;
    }
    assert c.units[..|c.units|] == c.units;
  }

  /** The loop over the concepts of one taxonomy. */
  method CollectConcepts(acc: seq<Fact>, cs: seq<ApiConcept>, parse: string -> Option<int>, cutoff: int)
    returns (facts: seq<Fact>)
    ensures facts == acc + ConceptsFacts(cs, parse, cutoff)
  {
    facts := acc;
    var i := 0;
    while i < |cs|
      invariant 0 <= i <= |cs|
      invariant facts == acc + ConceptsFacts(cs[..i], parse, cutoff)
      decreases |cs| - i
    {
      assert cs[..i + 1][..i] == cs[..i];
      facts := CollectUnits(facts, cs[i], parse, cutoff);
      i := i + 1;
    }
    assert cs[..|cs|] == cs;
  }

  /** `fetch_company_facts_from_sec_api`, given the decoded response or `None` on failure. */
  method FetchCompanyFacts(resp: Option<CompanyFacts>, parse: string -> Option<int>, today: int)
    returns (facts: seq<Fact>)
    ensures facts == ApiFacts(resp, parse, today)
  {
    facts := [];
    if resp.None? {
      return;
    }
    var m := resp.value;
    var cutoff := today - LookbackDays;
    var i := 0;
    while i < |Taxonomies|
      invariant 0 <= i <= |Taxonomies|
      invariant facts == TaxonomiesFacts(m, Taxonomies[..i], parse, cutoff)
      decreases |Taxonomies| - i
    {
      assert Taxonomies[..i + 1][..i] == Taxonomies[..i];
      var t := Taxonomies[i];
      if t in m {
        facts := CollectConcepts(facts, m[t], parse, cutoff);
      }
      i := i + 1;
    }
    assert Taxonomies[..|Taxonomies|] == Taxonomies;
  }

  // ---------------------------------------------------------------------------
  // The filing loop
  // ---------------------------------------------------------------------------

  /** The text of the parse error that ends the run. */
  const TaxonomyMissing: string := "The taxonomy with namespace http://xbrl.sec.gov/cyd/2024 could not be found"

  /** What parsing the instance document at a link gives: a document, or an error message. */
  datatype Instance = Parsed(doc: Document) | Failed(message: string)

  /** A row of the search result, its reporting date parsed (`None` when missing). */
  type FilingRow = Row<Option<int>>

  /** The state of the filing loop: the facts by date and the fallback flag, or the exit. */
  datatype Pass = Exited | Pass(extracted: ByDate, fallback: bool)

  /** `set(df_filings['reporting_date'].dropna())`. */
  function ValidDates(rows: seq<FilingRow>): set<int>
  {
    set i | 0 <= i < |rows| && rows[i].reportingDate.Some? :: rows[i].reportingDate.value
  }

  /** The facts a sufficiently large document contributes. */
  function DocFacts(doc: Document, parse: string -> Option<int>): seq<Fact>
  {
    if doc.facts.Some? then Extracted(doc.facts.value, parse) else []
  }

  /** A row the loop takes up: it has a reporting date among the valid ones. */
  predicate Dated(row: FilingRow, valid: set<int>)
  {
    row.reportingDate.Some? && row.reportingDate.value in valid
  }

  /** A row whose parse error names the missing taxonomy. */
  predicate Ends(row: FilingRow, valid: set<int>, instance: string -> Instance)
  {
    Dated(row, valid) && row.reportLink != NA && instance(row.reportLink).Failed? &&
    Contains(instance(row.reportLink).message, TaxonomyMissing)
  }

  /** A row that records an empty list and turns the fallback on. */
  predicate FallsBack(row: FilingRow, valid: set<int>, instance: string -> Instance)
  {
    Dated(row, valid) &&
    (row.reportLink == NA || instance(row.reportLink).Failed? || BelowThreshold(instance(row.reportLink).doc))
  }

  /** One iteration of the filing loop. */
  function RowStep(st: Pass, row: FilingRow, valid: set<int>, instance: string -> Instance,
                   parse: string -> Option<int>): Pass
  {
    if st.Exited? || !Dated(row, valid) then st
    else
      var d := row.reportingDate.value;
      if row.reportLink == NA then Pass(Set(st.extracted, d, []), true)
      else
        match instance(row.reportLink)
        case Failed(msg) =>
          if Contains(msg, TaxonomyMissing) then Exited else Pass(Set(st.extracted, d, []), true)
        case Parsed(doc) =>
          if BelowThreshold(doc) then Pass(Set(st.extracted, d, []), true)
          else Pass(Set(st.extracted, d, DocFacts(doc, parse)), st.fallback)
  }

  /** The loop over `rows`, from an empty dictionary and the flag off. */
  function Over(rows: seq<FilingRow>, valid: set<int>, instance: string -> Instance,
                parse: string -> Option<int>): Pass
    decreases |rows|
  {
    if |rows| == 0 then Pass([], false)
    else RowStep(Over(rows[..|rows| - 1], valid, instance, parse), rows[|rows| - 1], valid, instance, parse)
  }

  /** The first phase: with no filings at all, the fallback is on from the start. */
  function FilingPass(rows: seq<FilingRow>, instance: string -> Instance, parse: string -> Option<int>): Pass
  {
    if |rows| == 0 then Pass([], true) else Over(rows, ValidDates(rows), instance, parse)
  }

  /** Once the run has ended, later rows change nothing. */
  lemma {:induction false} ExitedStays(rows: seq<FilingRow>, k: nat, valid: set<int>,
                                       instance: string -> Instance, parse: string -> Option<int>)
    requires k <= |rows| && Over(rows[..k], valid, instance, parse).Exited?
    ensures Over(rows, valid, instance, parse).Exited?
    decreases |rows| - k
  {
    if k < |rows| {
      assert rows[..k + 1][..k] == rows[..k];
      ExitedStays(rows, k + 1, valid, instance, parse);
    } else {
      assert rows[..k] == rows;
    }
  }

  /**
   * The loop over the search rows. A row without a valid date is skipped, and a parse
   * error naming the missing taxonomy breaks out of the loop and ends the run.
   */
  method ProcessFilings(rows: seq<FilingRow>, instance: string -> Instance, parse: string -> Option<int>)
    returns (st: Pass)
    ensures st == FilingPass(rows, instance, parse)
  {
    var valid := ValidDates(rows);
    var extracted: ByDate := [];
    var fallback := |rows| == 0;
    if |rows| == 0 {
      return Pass(extracted, fallback);
    }
    var i := 0;
    while i < |rows|
      invariant 0 <= i <= |rows|
      invariant Over(rows[..i], valid, instance, parse) == Pass(extracted, fallback)
      decreases |rows| - i
    {
      assert rows[..i + 1][..i] == rows[..i];
      var row := rows[i];
      var d := row.reportingDate;
      i := i + 1;
      if d.None? || d.value !in valid {
        continue;
      }
      if row.reportLink == NA {
        fallback := true;
        extracted := Set(extracted, d.value, []);
        continue;
      }
      match instance(row.reportLink) {
        case Failed(msg) =>
          extracted := Set(extracted, d.value, []);
          fallback := true;
          if Contains(msg, TaxonomyMissing) {
            ExitedStays(rows, i, valid, instance, parse);
            return Exited;
          }
        case Parsed(doc) =>
          if BelowThreshold(doc) {
            fallback := true;
            extracted := Set(extracted, d.value, []);
          } else {
            var facts: seq<Fact> := [];
            if doc.facts.Some? {
              facts := ExtractLenient(doc.facts.value, parse);
            }
            extracted := Set(extracted, d.value, facts);
          }
      }
    }
    assert rows[..|rows|] == rows;
    st := Pass(extracted, fallback);
  }

  /** The run ends exactly when some dated row's parse error names the missing taxonomy. */
  lemma {:induction false} ExitIff(rows: seq<FilingRow>, valid: set<int>, instance: string -> Instance,
                                   parse: string -> Option<int>)
    ensures Over(rows, valid, instance, parse).Exited? <==>
      exists i :: 0 <= i < |rows| && Ends(rows[i], valid, instance)
    decreases |rows|
  {
    if |rows| > 0 {
      var n := |rows| - 1;
      ExitIff(rows[..n], valid, instance, parse);
      assert forall i :: 0 <= i < n ==> rows[..n][i] == rows[i];
      if Ends(rows[n], valid, instance) {
        assert Over(rows, valid, instance, parse).Exited?;
      }
    }
  }

  /**
   * When the run goes on, the fallback is on exactly when some dated row had no link, a
   * parse error, or fewer than 1000 raw facts; the dictionary has distinct dates, all of
   * them valid.
   */
  lemma {:induction false} PassState(rows: seq<FilingRow>, valid: set<int>, instance: string -> Instance,
                                     parse: string -> Option<int>)
    requires Over(rows, valid, instance, parse).Pass?
    ensures Over(rows, valid, instance, parse).fallback <==>
      exists i :: 0 <= i < |rows| && FallsBack(rows[i], valid, instance)
    ensures DistinctKeys(Over(rows, valid, instance, parse).extracted)
    ensures forall k :: 0 <= k < |Over(rows, valid, instance, parse).extracted| ==>
      Over(rows, valid, instance, parse).extracted[k].0 in valid
    decreases |rows|
  {
    if |rows| > 0 {
      var n := |rows| - 1;
      var prev := Over(rows[..n], valid, instance, parse);
      assert forall i :: 0 <= i < n ==> rows[..n][i] == rows[i];
      PassState(rows[..n], valid, instance, parse);
      var row := rows[n];
      if Dated(row, valid) {
        var d := row.reportingDate.value;
        var r := Over(rows, valid, instance, parse);
        var v := if row.reportLink == NA || instance(row.reportLink).Failed? ||
                    BelowThreshold(instance(row.reportLink).doc)
                 then [] else DocFacts(instance(row.reportLink).doc, parse);
        assert r.extracted == Set(prev.extracted, d, v);
        SetProperties(prev.extracted, d, v);
        forall k | 0 <= k < |r.extracted| ensures r.extracted[k].0 in valid {
          if k < |prev.extracted| {
            assert r.extracted[k].0 == prev.extracted[k].0;
          } else {
            assert r.extracted == prev.extracted + [(d, v)];
          }
        }
        if FallsBack(row, valid, instance) {
          assert r.fallback;
        }
      }
    }
  }

  /**
   * The threshold decides a parsed filing: below 1000 raw facts its date gets an empty
   * list and the fallback turns on; from exactly 1000 on its date gets the extracted
   * facts and the flag is left as it was.
   */
  lemma ThresholdDecides(st: Pass, row: FilingRow, valid: set<int>, instance: string -> Instance,
                         parse: string -> Option<int>, doc: Document)
    requires st.Pass? && Dated(row, valid) && row.reportLink != NA
    requires instance(row.reportLink) == Parsed(doc)
    ensures RowStep(st, row, valid, instance, parse).Pass?
    ensures Get(RowStep(st, row, valid, instance, parse).extracted, row.reportingDate.value) ==
      Some(if RawCount(doc) < 1000 then [] else DocFacts(doc, parse))
    ensures RowStep(st, row, valid, instance, parse).fallback == (st.fallback || RawCount(doc) < 1000)
  {
    var d := row.reportingDate.value;
    SetProperties(st.extracted, d, if RawCount(doc) < 1000 then [] else DocFacts(doc, parse));
  }

  // ---------------------------------------------------------------------------
  // The fallback merge
  // ---------------------------------------------------------------------------

  /** The facts the table is built from. */
  function FinalFacts(p: Pass, api: seq<Fact>, valid: set<int>): ByDate
    requires p.Pass?
  {
    if p.fallback && |api| > 0 && |OnDates(api, valid)| > 0 then Group(OnDates(api, valid))
    else NonEmpty(p.extracted)
  }

  /**
   * Every date of the final facts is distinct and has a non-empty list. On the API path
   * the list of a date holds API facts of exactly that date, a valid one; otherwise each
   * entry is an entry of the filing loop's dictionary.
   */
  lemma FinalFactsSpec(p: Pass, api: seq<Fact>, valid: set<int>)
    requires p.Pass? && DistinctKeys(p.extracted)
    ensures DistinctKeys(FinalFacts(p, api, valid))
    ensures forall k :: 0 <= k < |FinalFacts(p, api, valid)| ==> |FinalFacts(p, api, valid)[k].1| > 0
    ensures p.fallback && |OnDates(api, valid)| > 0 ==>
      forall k, j :: 0 <= k < |FinalFacts(p, api, valid)| && 0 <= j < |FinalFacts(p, api, valid)[k].1| ==>
        FinalFacts(p, api, valid)[k].0 in valid &&
        FinalFacts(p, api, valid)[k].1[j].stamp == FinalFacts(p, api, valid)[k].0 &&
        FinalFacts(p, api, valid)[k].1[j] in api
    ensures !(p.fallback && |OnDates(api, valid)| > 0) ==>
      forall k :: 0 <= k < |FinalFacts(p, api, valid)| ==> FinalFacts(p, api, valid)[k] in p.extracted
  {
    var f := FinalFacts(p, api, valid);
    NonEmptyDistinct(p.extracted);
    if p.fallback && |OnDates(api, valid)| > 0 {
      var on := OnDates(api, valid);
      GroupSpec(on);
      forall k | 0 <= k < |f|
        ensures |f[k].1| > 0 && f[k].1 == WithStamp(on, f[k].0)
      {
        GetDistinct(f, k);
      }
      forall k, j | 0 <= k < |f| && 0 <= j < |f[k].1|
        ensures f[k].0 in valid && f[k].1[j].stamp == f[k].0 && f[k].1[j] in api
      {
        assert f[k].1[j] in on;
      }
    }
  }

  /** The choice between the API facts and the per-filing facts. */
  method FallbackMerge(p: Pass, api: seq<Fact>, valid: set<int>) returns (final: ByDate)
    requires p.Pass?
    ensures final == FinalFacts(p, api, valid)
  {
    if p.fallback && |api| > 0 {
      var onDates := KeepOnDates(api, valid);
      if |onDates| > 0 {
        final := GroupByDate(onDates);
        return;
      }
    }
    final := NonEmpty(p.extracted);
  }

  // ---------------------------------------------------------------------------
  // The population blocks
  // ---------------------------------------------------------------------------

  /** The synonyms of each label filled by a plain lookup; `[]` for the rest. */
  function CheckSyns(v: Var): seq<string>
  {
    match v
    case Revenue => RevenueSyns
    case OperatingIncome => OperatingIncomeSyns
    case EquityBV => EquityBVSyns
    case ShortTermDebtBV => ShortTermDebtBVSyns
    case LongTermDebtWithoutLeaseBV => LongTermDebtWithoutLeaseBVSyns
    case LongTermLeaseBV => LongTermLeaseBVSyns
    case Cash => CashSyns
    case Tax => TaxSyns
    case LeaseDueThisYear => LeaseDueThisYearSyns
    case LeaseDueYearOne => LeaseDueYearOneSyns
    case LeaseDueYearTwo => LeaseDueYearTwoSyns
    case LeaseDueYearThree => LeaseDueYearThreeSyns
    case LeaseDueYearFour => LeaseDueYearFourSyns
    case LeaseDueYearFive => LeaseDueYearFiveSyns
    case LeaseDueAfterYearFive => LeaseDueAfterYearFiveSyns
    case NetIncome => NetIncomeSyns
    case CurrentAssets => CurrentAssetsSyns
    case CurrentLiabilities => CurrentLiabilitiesSyns
    case TotalAsset => TotalAssetSyns
    case Inventory => InventorySyns
    case CostofSales => CostofSalesSyns
    case GrossProfit => GrossProfitSyns
    case OperatingExpense => OperatingExpenseSyns
    case ResearchExpense => ResearchExpenseSyns
    case Interest => InterestSyns
    case PPEnet => PPEnetSyns
    case Depreciation => DepreciationSyns
    case Amortization => AmortizationSyns
    case OperatingIncomeAfterInterest => OperatingIncomeAfterInterestSyns
    case MinorityInterest => MinorityInterestSyns
    case EquityIncludingMinorityInterest => EquityIncludingMinorityInterestSyns
    case InterestIncome => InterestIncomeSyns
    case InteresIncome => InterestIncomeSyns
    case _ => []
  }

  // The synonym lists of the plain lookups, in the order they are tried.
  const RevenueSyns: seq<string> := ["Revenues", "RevenueFromContractWithCustomerExcludingAssessedTax"]
  const OperatingIncomeSyns: seq<string> := ["OperatingIncomeLoss"]
  const EquityBVSyns: seq<string> := ["StockholdersEquity"]
  const ShortTermDebtBVSyns: seq<string> := ["DebtCurrent"]
  const LongTermDebtWithoutLeaseBVSyns: seq<string> := ["LongTermDebtNoncurrent", "LongTermDebt"]
  const LongTermLeaseBVSyns: seq<string> := ["LongTermLeaseLiabilityNoncurrentNet"]
  const CashSyns: seq<string> :=
    ["CashAndCashEquivalentsAtCarryingValue", "CashCashEquivalentsRestrictedCashAndRestrictedCashEquivalents"]
  const TaxSyns: seq<string> := ["IncomeTaxExpenseBenefit"]
  const LeaseDueThisYearSyns: seq<string> := ["CurrentLeaseLiabilityNet"]
  const LeaseDueYearOneSyns: seq<string> := ["LesseeOperatingLeaseLiabilityPaymentsDueNextTwelveMonths"]
  const LeaseDueYearTwoSyns: seq<string> := ["LesseeOperatingLeaseLiabilityPaymentsDueYearTwo"]
  const LeaseDueYearThreeSyns: seq<string> := ["LesseeOperatingLeaseLiabilityPaymentsDueYearThree"]
  const LeaseDueYearFourSyns: seq<string> := ["LesseeOperatingLeaseLiabilityPaymentsDueYearFour"]
  const LeaseDueYearFiveSyns: seq<string> := ["LesseeOperatingLeaseLiabilityPaymentsDueYearFive"]
  const LeaseDueAfterYearFiveSyns: seq<string> := ["LesseeOperatingLeaseLiabilityPaymentsDueAfterYearFive"]
  const NetIncomeSyns: seq<string> :=
    ["NetIncomeLoss", "ProfitLoss", "NetIncomeLossAvailableToCommonStockholdersBasic"]
  const CurrentAssetsSyns: seq<string> := ["AssetsCurrent"]
  const CurrentLiabilitiesSyns: seq<string> := ["LiabilitiesCurrent"]
  const TotalAssetSyns: seq<string> := ["Assets"]
  const InventorySyns: seq<string> := ["InventoryNet"]
  const CostofSalesSyns: seq<string> := ["CostOfRevenue", "CostOfGoodsAndServicesSold"]
  const GrossProfitSyns: seq<string> := ["GrossProfit"]
  const OperatingExpenseSyns: seq<string> := ["CostsAndExpenses"]
  const ResearchExpenseSyns: seq<string> := ["ResearchAndDevelopmentExpense"]
  const InterestSyns: seq<string> :=
    ["InterestExpense", "InterestExpenseNonoperating", "InterestAndDebtExpense", "InterestIncomeExpenseNet"]
  const PPEnetSyns: seq<string> := ["PropertyPlantAndEquipmentNet"]
  const DepreciationSyns: seq<string> := ["Depreciation", "DepreciationDepletionAndAmortization",
    "DepreciationAmortizationAndOther", "DepreciationAmortizationAndAccretionNet"]
  const AmortizationSyns: seq<string> := ["AmortizationOfIntangibleAssets"]
  const OperatingIncomeAfterInterestSyns: seq<string> := [
    "IncomeLossFromContinuingOperationsBeforeIncomeTaxesMinorityInterestAndIncomeLossFromEquityMethodInvestments",
    "IncomeLossFromContinuingOperationsBeforeIncomeTaxesExtraordinaryItemsNoncontrollingInterest"]
  const MinorityInterestSyns: seq<string> := ["MinorityInterest"]
  const EquityIncludingMinorityInterestSyns: seq<string> := ["StockholdersEquityIncludingPortionAttributableToNoncontrollingInterest"]
  const InterestIncomeSyns: seq<string> := ["InvestmentIncomeInterest"]

  /** The synonyms reported long-term debt including leases is looked up under. */
  const WithLeaseSyns: seq<string> := ["LongTermDebtAndCapitalLeaseObligations",
    "LongTermDebtAndCapitalLeaseObligationsIncludingCurrentMaturities", "DebtAndCapitalLeaseObligations"]

  /** The synonym of total liabilities plus equity. */
  const LiabilitiesAndEquitySyns: seq<string> := ["LiabilitiesAndStockholdersEquity"]

  /** Long-term debt with leases: the reported figure, or debt without leases plus leases. */
  function WithLease(facts: seq<Fact>): int
  {
    match FindLatest(facts, WithLeaseSyns)
    case Some(f) => f.value
    case None => ValueOrZero(facts, CheckSyns(LongTermDebtWithoutLeaseBV)) + ValueOrZero(facts, CheckSyns(LongTermLeaseBV))
  }

  /** The value a label's block computes for one date's facts. */
  function CheckValue(facts: seq<Fact>, v: Var): int
  {
    if v == LongTermDebtWithLeaseBV then WithLease(facts)
    else if v == DebtBV then WithLease(facts) + ValueOrZero(facts, CheckSyns(ShortTermDebtBV))
    else if v == TotalLiability then
      ValueOrZero(facts, LiabilitiesAndEquitySyns) - ValueOrZero(facts, CheckSyns(EquityBV))
    else ValueOrZero(facts, CheckSyns(v))
  }

  /**
   * The labels the blocks write, in source order, as written: the last block writes to
   * `InterestIncome`, a label the table has no row for.
   */
  const CheckOrderAsWritten: seq<Var> := [
    Revenue, OperatingIncome, EquityBV, ShortTermDebtBV, LongTermDebtWithoutLeaseBV, LongTermLeaseBV,
    LongTermDebtWithLeaseBV, DebtBV, Cash, Tax, LeaseDueThisYear, LeaseDueYearOne, LeaseDueYearTwo,
    LeaseDueYearThree, LeaseDueYearFour, LeaseDueYearFive, LeaseDueAfterYearFive, NetIncome,
    CurrentAssets, CurrentLiabilities, TotalLiability, TotalAsset, Inventory, CostofSales, GrossProfit,
    OperatingExpense, ResearchExpense, Interest, PPEnet, Depreciation, Amortization,
    OperatingIncomeAfterInterest, MinorityInterest, EquityIncludingMinorityInterest, InterestIncome
  ]

  /** The same order with the last block writing to the table's `InteresIncome` row. */
  const CheckOrder: seq<Var> := [
    Revenue, OperatingIncome, EquityBV, ShortTermDebtBV, LongTermDebtWithoutLeaseBV, LongTermLeaseBV,
    LongTermDebtWithLeaseBV, DebtBV, Cash, Tax, LeaseDueThisYear, LeaseDueYearOne, LeaseDueYearTwo,
    LeaseDueYearThree, LeaseDueYearFour, LeaseDueYearFive, LeaseDueAfterYearFive, NetIncome,
    CurrentAssets, CurrentLiabilities, TotalLiability, TotalAsset, Inventory, CostofSales, GrossProfit,
    OperatingExpense, ResearchExpense, Interest, PPEnet, Depreciation, Amortization,
    OperatingIncomeAfterInterest, MinorityInterest, EquityIncludingMinorityInterest, InteresIncome
  ]

  /** The two orders differ only in the label of the last block. */
  lemma OrdersDiffer()
    ensures |CheckOrder| == |CheckOrderAsWritten| == 35
    ensures CheckOrder[..34] == CheckOrderAsWritten[..34]
    ensures CheckOrder[34] == InteresIncome && CheckOrderAsWritten[34] == InterestIncome
  {
  }

  /** The values of one date's blocks, for every label either order names. */
  function CheckColumn(facts: seq<Fact>): (col: map<Var, int>)
    ensures Complete(CheckOrder, col) && Complete(CheckOrderAsWritten, col)
    ensures forall v :: v in col ==> col[v] == CheckValue(facts, v)
  {
    map v | v in CheckOrder || v in CheckOrderAsWritten :: CheckValue(facts, v)
  }

  /** Total debt is debt with leases plus short-term debt. */
  lemma DebtDerivation(facts: seq<Fact>)
    ensures CheckValue(facts, DebtBV) == CheckValue(facts, LongTermDebtWithLeaseBV) + CheckValue(facts, ShortTermDebtBV)
  {
  }

  /** Total liability is liabilities-plus-equity minus equity. */
  lemma TotalLiabilityDerivation(facts: seq<Fact>)
    ensures CheckValue(facts, TotalLiability) ==
      ValueOrZero(facts, LiabilitiesAndEquitySyns) - CheckValue(facts, EquityBV)
  {
  }

  /**
   * Debt with leases is the sum of its parts exactly when no synonym of the reported
   * figure matches, and the reported figure otherwise.
   */
  lemma WithLeaseDerivation(facts: seq<Fact>)
    ensures (forall j :: 0 <= j < |WithLeaseSyns| ==> !HasConcept(facts, WithLeaseSyns[j])) ==>
      WithLease(facts) == CheckValue(facts, LongTermDebtWithoutLeaseBV) + CheckValue(facts, LongTermLeaseBV)
    ensures (exists j :: 0 <= j < |WithLeaseSyns| && HasConcept(facts, WithLeaseSyns[j])) ==>
      FindLatest(facts, WithLeaseSyns).Some? && WithLease(facts) == FindLatest(facts, WithLeaseSyns).value.value
  {
    FindLatestNone(facts, WithLeaseSyns);
  }

  /** A plainly looked-up label none of whose synonyms any fact carries gets 0. */
  lemma MissingIsZero(facts: seq<Fact>, v: Var)
    requires v != LongTermDebtWithLeaseBV && v != DebtBV && v != TotalLiability
    requires forall j :: 0 <= j < |CheckSyns(v)| ==> !HasConcept(facts, CheckSyns(v)[j])
    ensures CheckValue(facts, v) == 0
  {
    FindLatestNone(facts, CheckSyns(v));
  }

  // ---------------------------------------------------------------------------
  // The whole function
  // ---------------------------------------------------------------------------

  /** The report dates of the final facts, in dictionary order. */
  function Keys(final: ByDate): (r: seq<int>)
    ensures |r| == |final| && forall k :: 0 <= k < |r| ==> r[k] == final[k].0
  {
    seq(|final|, k requires 0 <= k < |final| => final[k].0)
  }

  /** The column values of every date, in dictionary order. */
  function Columns(final: ByDate): (r: seq<(int, map<Var, int>)>)
    ensures |r| == |final| && forall k :: 0 <= k < |r| ==> r[k] == (final[k].0, CheckColumn(final[k].1))
    ensures AllComplete(CheckOrder, r) && AllComplete(CheckOrderAsWritten, r)
  {
    seq(|final|, k requires 0 <= k < |final| => (final[k].0, CheckColumn(final[k].1)))
  }

  /** How the function ends: the exit, an empty frame, or a table built from these facts. */
  datatype Plan = Exit | NoFacts | Build(final: ByDate)

  function PlanOf(rows: seq<FilingRow>, instance: string -> Instance, parse: string -> Option<int>,
                  api: Option<CompanyFacts>, today: int): Plan
  {
    var p := FilingPass(rows, instance, parse);
    if p.Exited? then Exit
    else
      var apiFacts := if p.fallback then ApiFacts(api, parse, today) else [];
      var final := FinalFacts(p, apiFacts, ValidDates(rows));
      if |final| == 0 then NoFacts else Build(final)
  }

  /**
   * `xbrl_data_processor`: the search rows, the filing loop, the fallback (the API is
   * queried only when the flag is on), then the table: the 35 rows, the dates ascending,
   * zeros, and the blocks of every date in the order they are written.
   */
  method XbrlDataProcessor(hits: Option<seq<Hit>>, cik: string, reportDate: string -> Option<int>,
                           instance: string -> Instance, parse: string -> Option<int>,
                           api: Option<CompanyFacts>, today: int)
    returns (plan: Plan, table: Table?)
    ensures plan == PlanOf(Collected(hits, cik, reportDate), instance, parse, api, today)
    ensures plan.Build? <==> table != null
    ensures plan.Build? ==>
      fresh(table) && table.Valid() && table.rows == CheckRows &&
      table.dates == SortedDates(Keys(plan.final)) &&
      table.cells == Populated(Zeros(CheckRows, table.dates), table.dates, CheckOrderAsWritten, Columns(plan.final))
  {
    var rows := FetchAnnualReports(hits, cik, reportDate);
    var p := ProcessFilings(rows, instance, parse);
    if p.Exited? {
      return Exit, null;
    }
    var apiFacts: seq<Fact> := [];
    if p.fallback {
      apiFacts := FetchCompanyFacts(api, parse, today);
    }
    var final := FallbackMerge(p, apiFacts, ValidDates(rows));
    if |final| == 0 {
      return NoFacts, null;
    }
    table := new Table(CheckRows, Keys(final));
    table.Populate(CheckOrderAsWritten, Columns(final));
    plan := Build(final);
  }

  /** The cells of the built table. */
  function BuiltCells(final: ByDate, order: seq<Var>): Cells
    requires AllComplete(order, Columns(final))
  {
    var ds := SortedDates(Keys(final));
    Populated(Zeros(CheckRows, ds), ds, order, Columns(final))
  }
}
