/**
 * `fetch_historical_10k_filings_api_get`: turn the hits of one EDGAR full-text search
 * response into annual-report rows. It appears twice, in
 * backend/validation/sec_fullsearch_API.py (reporting date kept as the raw string) and
 * in backend/headers/xbrlprocesscheck.py (reporting date parsed, `None` when absent or
 * unparseable); the row type is generic in that one field.
 */
module FullSearch {
  import opened Wrappers
  import opened Strings

  /** The default every missing field of a hit takes. */
  const NA: string := "N/A"

  const ArchivesRoot: string := "https://www.sec.gov/Archives/edgar/data/"

  /** One search hit: `_id` and the `_source` fields read, missing ones already "N/A". */
  datatype Hit = Hit(id: string, form: string, fileDate: string, adsh: string, periodEnding: string)

  /** One collected row; `D` is the type the reporting date is stored as. */
  datatype Row<D> = Row(formType: string, filingDate: string, reportingDate: D,
                        accession: string, reportLink: string, cik: string)

  /** `_id.split(':', 1)[-1] if ':' in _id else ''`. */
  function FileName(id: string): (r: string)
    ensures ':' !in id ==> r == ""
    ensures ':' in id ==> Split(id, ':')[0] + [':'] + r == id
  {
    if ':' in id then AfterFirst(id, ':') else ""
  }

  /**
   * The report link of a hit. `None` is the `ValueError` that `int(cik)` raises; the
   * model takes every CIK that is not a plain digit string as raising (see
   * `IntRoundTrip`). `Some(NA)` is a hit without a usable link.
   */
  function ReportLink(cik: string, adsh: string, id: string): (r: Option<string>)
  {
    if adsh == NA || id == NA then Some(NA)
    else
      match IntRoundTrip(cik)
      case None => None
      case Some(c) =>
        var accession := RemoveChar(adsh, '-');
        var file := FileName(id);
        if c != "" && accession != "" && file != "" then
          Some(ArchivesRoot + c + "/" + accession + "/" + file)
        else Some(NA)
  }

  /**
   * When a link is built, its parts are the CIK without leading zeros, the accession
   * without dashes and the text after the first `:` of `_id`; the link is "N/A" when
   * accession or `_id` is missing or `_id` has no `:` to split on.
   */
  lemma LinkParts(cik: string, adsh: string, id: string) returns (c: string, accession: string, file: string)
    requires ReportLink(cik, adsh, id).Some? && ReportLink(cik, adsh, id).value != NA
    ensures ReportLink(cik, adsh, id).value == ArchivesRoot + c + "/" + accession + "/" + file
    ensures adsh != NA && id != NA && ':' in id
    ensures AllDigits(c) && c != "" && (c == "0" || c[0] != '0')
    ensures c != "0" ==> c == LstripZeros(cik)
    ensures accession == RemoveChar(adsh, '-') && '-' !in accession
    ensures Split(id, ':')[0] + [':'] + file == id
  {
    c := IntRoundTrip(cik).value;
    accession := RemoveChar(adsh, '-');
    file := FileName(id);
    assert c == LstripZeros(cik) || c == "0";
  }

  /** A missing accession or `_id`, or an `_id` without `:`, leaves the link "N/A". */
  lemma NoLinkWithoutParts(cik: string, adsh: string, id: string)
    requires adsh == NA || id == NA || (':' !in id && AllDigits(cik) && cik != "")
    ensures ReportLink(cik, adsh, id) == Some(NA)
  {
  }

  /** Only filings of form 10-K and 10-K/A are collected. */
  predicate IsAnnualForm(form: string)
  {
    form == "10-K" || form == "10-K/A"
  }

  /** The row of a hit whose link could be computed. */
  function RowOf<D>(h: Hit, cik: string, link: string, reportDate: string -> D): Row<D>
  {
    Row(h.form, h.fileDate, reportDate(h.periodEnding), h.adsh, link, cik)
  }

  /** The row a hit whose link does not raise yields. */
  function HitRow<D>(h: Hit, cik: string, reportDate: string -> D): Row<D>
    requires ReportLink(cik, h.adsh, h.id).Some?
  {
    RowOf(h, cik, ReportLink(cik, h.adsh, h.id).value, reportDate)
  }

  /** Rows of the annual-form hits, in hit order, when no hit raises. */
  function RowsOf<D>(hits: seq<Hit>, cik: string, reportDate: string -> D): (r: seq<Row<D>>)
    requires forall i :: 0 <= i < |hits| ==> ReportLink(cik, hits[i].adsh, hits[i].id).Some?
    ensures |r| <= |hits|
    ensures forall k :: 0 <= k < |r| ==> IsAnnualForm(r[k].formType)
    decreases |hits|
  {
    if |hits| == 0 then []
    else
      var last := hits[|hits| - 1];
      var front := RowsOf(hits[..|hits| - 1], cik, reportDate);
      if IsAnnualForm(last.form) then front + [HitRow(last, cik, reportDate)]
      else front
  }

  /**
   * Every annual-form hit yields its row, and every row is the row of some hit (of an
   * annual form, by `RowsOf`'s contract).
   */
  lemma {:induction false} RowsOfSpec<D>(hits: seq<Hit>, cik: string, reportDate: string -> D)
    requires forall i :: 0 <= i < |hits| ==> ReportLink(cik, hits[i].adsh, hits[i].id).Some?
    ensures forall i :: 0 <= i < |hits| && IsAnnualForm(hits[i].form) ==>
              HitRow(hits[i], cik, reportDate) in RowsOf(hits, cik, reportDate)
    ensures forall k :: 0 <= k < |RowsOf(hits, cik, reportDate)| ==>
              exists i :: 0 <= i < |hits| && RowsOf(hits, cik, reportDate)[k] == HitRow(hits[i], cik, reportDate)
    decreases |hits|
  {
    if |hits| > 0 {
      var n := |hits| - 1;
      var pre := hits[..n];
      assert forall i :: 0 <= i < n ==> pre[i] == hits[i];
      RowsOfSpec(pre, cik, reportDate);
      var front := RowsOf(pre, cik, reportDate);
      forall k | 0 <= k < |RowsOf(hits, cik, reportDate)|
        ensures exists i :: 0 <= i < |hits| && RowsOf(hits, cik, reportDate)[k] == HitRow(hits[i], cik, reportDate)
      {
        if k < |front| {
          var i :| 0 <= i < n && front[k] == HitRow(pre[i], cik, reportDate);
          assert RowsOf(hits, cik, reportDate)[k] == HitRow(hits[i], cik, reportDate);
        } else {
          assert RowsOf(hits, cik, reportDate)[k] == HitRow(hits[n], cik, reportDate);
        }
      }
    }
  }

  /** How many hits are processed before the first one whose link raises. */
  function Processed(hits: seq<Hit>, cik: string): (n: nat)
    ensures n <= |hits|
    ensures forall i :: 0 <= i < n ==> ReportLink(cik, hits[i].adsh, hits[i].id).Some?
    ensures n < |hits| ==> ReportLink(cik, hits[n].adsh, hits[n].id).None?
    decreases |hits|
  {
    if |hits| == 0 then 0
    else if ReportLink(cik, hits[0].adsh, hits[0].id).None? then 0
    else 1 + Processed(hits[1..], cik)
  }

  /**
   * What the function returns: the rows of the hits before the first raising one (the
   * exception handler sits outside the loop, and the rows gathered so far are
   * returned). `hits` is `None` when the request or the JSON decoding failed.
   */
  function Collected<D>(hits: Option<seq<Hit>>, cik: string, reportDate: string -> D): seq<Row<D>>
  {
    match hits
    case None => []
    case Some(hs) => RowsOf(hs[..Processed(hs, cik)], cik, reportDate)
  }

  /** The loop over the hits, appending annual-form rows; a raising hit ends it. */
  method FetchAnnualReports<D>(hits: Option<seq<Hit>>, cik: string, reportDate: string -> D)
    returns (rows: seq<Row<D>>)
    ensures rows == Collected(hits, cik, reportDate)
  {
    rows := [];
    if hits.None? {
      return;
    }
    var hs := hits.value;
    var n := Processed(hs, cik);
    var i := 0;
    while i < |hs|
      invariant 0 <= i <= n
      invariant rows == RowsOf(hs[..i], cik, reportDate)
      decreases |hs| - i
    {
      var h := hs[i];
      var link := ReportLink(cik, h.adsh, h.id);
      if link.None? {
        break;
      }
      assert hs[..i + 1][..i] == hs[..i];
      if IsAnnualForm(h.form) {
        rows := rows + [HitRow(h, cik, reportDate)];
      }
      i := i + 1;
    }
  }

  /** With a well-formed CIK no hit raises, so every annual-form hit yields a row. */
  lemma DigitCikKeepsAllAnnual<D>(hs: seq<Hit>, cik: string, reportDate: string -> D, i: nat)
    requires cik != "" && AllDigits(cik)
    requires i < |hs| && IsAnnualForm(hs[i].form)
    ensures ReportLink(cik, hs[i].adsh, hs[i].id).Some?
    ensures HitRow(hs[i], cik, reportDate) in Collected(Some(hs), cik, reportDate)
  {
    NoRaise(hs, cik);
    assert hs[..Processed(hs, cik)] == hs;
    RowsOfSpec(hs, cik, reportDate);
  }

  lemma {:induction false} NoRaise(hs: seq<Hit>, cik: string)
    requires cik != "" && AllDigits(cik)
    ensures Processed(hs, cik) == |hs|
    decreases |hs|
  {
    if |hs| > 0 {
      NoRaise(hs[1..], cik);
    }
  }

  /** Every collected row is an annual-form hit of the response, unchanged. */
  lemma CollectedRowsAreAnnualHits<D>(hs: seq<Hit>, cik: string, reportDate: string -> D, k: nat)
    requires k < |Collected(Some(hs), cik, reportDate)|
    ensures IsAnnualForm(Collected(Some(hs), cik, reportDate)[k].formType)
    ensures exists i :: 0 <= i < |hs| &&
              Collected(Some(hs), cik, reportDate)[k].accession == hs[i].adsh &&
              Collected(Some(hs), cik, reportDate)[k].reportingDate == reportDate(hs[i].periodEnding)
  {
    var pre := hs[..Processed(hs, cik)];
    var r := Collected(Some(hs), cik, reportDate);
    RowsOfSpec(pre, cik, reportDate);
    var i :| 0 <= i < |pre| && r[k] == HitRow(pre[i], cik, reportDate);
    assert pre[i] == hs[i];
  }

  /** The raw-string variant: the reporting date is the hit's `period_ending` as given. */
  function RawDate(s: string): string
  {
    s
  }

  /**
   * The parsing variant: "N/A" stays `None`, any other text goes through `strptime`
   * with format %Y-%m-%d, whose failure is also `None` (`parse` stands for it).
   */
  function ParsedDate(parse: string -> Option<int>, s: string): (r: Option<int>)
    ensures s == NA ==> r.None?
    ensures s != NA ==> r == parse(s)
  {
    if s != NA then parse(s) else None
  }
}
