/**
 * Link validation in backend/validation/xbrlprocessing.py: for each filing of the
 * trailing window, build the candidate instance-document URLs, keep those that answer
 * with status 200, take the first, and count the filings that have one.
 */
module LinkCandidates {
  import opened Wrappers
  import opened Strings
  import opened Seqs
  import opened EdgarApi

  const ArchivesRoot: string := "https://www.sec.gov/Archives/edgar/data/"

  /** `https://www.sec.gov/Archives/edgar/data/{cik}/{accession}/{file}`. */
  function Url(cik: string, accession: string, file: string): string
  {
    ArchivesRoot + cik + "/" + accession + "/" + file
  }

  /** The URLs of one CIK, one per file name, in file-name order. */
  function UrlsFor(cik: string, accession: string, files: seq<string>): (r: seq<string>)
    ensures |r| == |files|
    ensures forall k :: 0 <= k < |files| ==> r[k] == Url(cik, accession, files[k])
  {
    seq(|files|, k requires 0 <= k < |files| => Url(cik, accession, files[k]))
  }

  /** The cross product, CIKs in the outer position. */
  function Cross(ciks: seq<string>, accession: string, files: seq<string>): (r: seq<string>)
    ensures |r| == |ciks| * |files|
    decreases |ciks|
  {
    if |ciks| == 0 then []
    else Cross(ciks[..|ciks| - 1], accession, files) + UrlsFor(ciks[|ciks| - 1], accession, files)
  }

  /**
   * The candidate list: every CIK variant (as given, then without leading zeros) with
   * every file name (`{ticker}-{date}.htm`, then `{accession}.htm`), then `index.htm`
   * under the CIK as given.
   */
  function Candidates(accessionNumber: string, compactDate: string, ticker: string, cikOriginal: string): seq<string>
  {
    var a := RemoveChar(accessionNumber, '-');
    Cross([cikOriginal, LstripZeros(cikOriginal)], a, [ticker + "-" + compactDate + ".htm", a + ".htm"])
      + [Url(cikOriginal, a, "index.htm")]
  }

  /** The five candidates, in the order they are tried. */
  lemma CandidatesListed(accessionNumber: string, compactDate: string, ticker: string, cikOriginal: string)
    ensures var a := RemoveChar(accessionNumber, '-');
      var stripped := LstripZeros(cikOriginal);
      var f0 := ticker + "-" + compactDate + ".htm";
      var f1 := a + ".htm";
      Candidates(accessionNumber, compactDate, ticker, cikOriginal) ==
        [Url(cikOriginal, a, f0), Url(cikOriginal, a, f1), Url(stripped, a, f0), Url(stripped, a, f1),
         Url(cikOriginal, a, "index.htm")]
  {
    var a := RemoveChar(accessionNumber, '-');
    CrossOfTwo(cikOriginal, LstripZeros(cikOriginal), a, ticker + "-" + compactDate + ".htm", a + ".htm");
  }

  /**
   * `generate_edgar_link_candidates`: the nested loop over the CIK as given and with
   * leading zeros stripped, and over the `{ticker}-{date}.htm` and `{accession}.htm`
   * file names, then `index.htm` under the CIK as given. `compactDate` is the report
   * date formatted as %Y%m%d.
   */
  method GenerateCandidates(accessionNumber: string, compactDate: string, ticker: string, cikOriginal: string)
    returns (urls: seq<string>)
    ensures urls == Candidates(accessionNumber, compactDate, ticker, cikOriginal)
  {
    var accessionNoDashes := RemoveChar(accessionNumber, '-');
    var cikVariations := [cikOriginal, LstripZeros(cikOriginal)];
    var fileVariations := [ticker + "-" + compactDate + ".htm", accessionNoDashes + ".htm"];
    urls := CrossLoop(cikVariations, accessionNoDashes, fileVariations);
    urls := urls + [Url(cikOriginal, accessionNoDashes, "index.htm")];
  }

  /** The nested loop: CIK variants outside, file names inside. */
  method CrossLoop(ciks: seq<string>, accession: string, files: seq<string>) returns (urls: seq<string>)
    ensures urls == Cross(ciks, accession, files)
  {
    urls := [];
    var i := 0;
    while i < |ciks|
      invariant 0 <= i <= |ciks|
      invariant urls == Cross(ciks[..i], accession, files)
      decreases |ciks| - i
    {
      var j := 0;
      while j < |files|
        invariant 0 <= j <= |files|
        invariant urls == Cross(ciks[..i], accession, files) + UrlsFor(ciks[i], accession, files[..j])
        decreases |files| - j
      {
        UrlsForStep(ciks[i], accession, files, j);
        urls := urls + [Url(ciks[i], accession, files[j])];
        j := j + 1;
      }
      assert files[..j] == files;
      CrossStep(ciks, accession, files, i);
      i := i + 1;
    }
    assert ciks[..i] == ciks;
  }

  /** One more file name adds its URL at the end. */
  lemma UrlsForStep(cik: string, accession: string, files: seq<string>, j: nat)
    requires j < |files|
    ensures UrlsFor(cik, accession, files[..j + 1]) ==
      UrlsFor(cik, accession, files[..j]) + [Url(cik, accession, files[j])]
  {
  }

  /** One more CIK adds its URLs at the end. */
  lemma CrossStep(ciks: seq<string>, accession: string, files: seq<string>, i: nat)
    requires i < |ciks|
    ensures Cross(ciks[..i + 1], accession, files) ==
      Cross(ciks[..i], accession, files) + UrlsFor(ciks[i], accession, files)
  {
    assert ciks[..i + 1][..i] == ciks[..i];
  }

  /** The cross product of two CIKs and two file names, written out. */
  lemma CrossOfTwo(c0: string, c1: string, accession: string, f0: string, f1: string)
    ensures Cross([c0, c1], accession, [f0, f1]) ==
      [Url(c0, accession, f0), Url(c0, accession, f1), Url(c1, accession, f0), Url(c1, accession, f1)]
  {
    assert [c0, c1][..1] == [c0];
    assert [c0][..0] == [];
  }

  /** Every candidate has the dash-free accession number as a whole path segment. */
  lemma UrlEmbedsAccession(cik: string, accession: string, file: string)
    ensures OccursAt(Url(cik, accession, file), "/" + accession + "/", |ArchivesRoot| + |cik|)
    ensures Contains(Url(cik, accession, file), "/" + accession + "/")
  {
    var u := Url(cik, accession, file);
    var i := |ArchivesRoot| + |cik|;
    assert u == (ArchivesRoot + cik) + ("/" + accession + "/") + file;
    assert u[i..i + |"/" + accession + "/"|] == "/" + accession + "/";
    assert 0 <= i <= |u| && OccursAt(u, "/" + accession + "/", i);
  }

  /**
   * A CIK without leading zeros makes the two CIK variants equal, so the candidate list
   * repeats its first two URLs.
   */
  lemma DuplicatesWithoutLeadingZero(cikOriginal: string, a: string, f0: string, f1: string)
    requires cikOriginal == "" || cikOriginal[0] != '0'
    ensures LstripZeros(cikOriginal) == cikOriginal
    ensures Url(LstripZeros(cikOriginal), a, f0) == Url(cikOriginal, a, f0)
    ensures Url(LstripZeros(cikOriginal), a, f1) == Url(cikOriginal, a, f1)
  {
  }

  /**
   * `check_multiple_links`: the candidates, in order, whose HEAD request answered 200;
   * `ok` stands for that probe, a request failure being `false`.
   */
  method CheckMultipleLinks(urls: seq<string>, ok: string -> bool) returns (working: seq<string>)
    ensures working == Filter(urls, ok)
  {
    working := [];
    var i := 0;
    while i < |urls|
      invariant 0 <= i <= |urls|
      invariant working == Filter(urls[..i], ok)
      decreases |urls| - i
    {
      FilterStep(urls, i, ok);
      if ok(urls[i]) {
        working := working + [urls[i]];
      }
      i := i + 1;
    }
    assert urls[..i] == urls;
  }

  /** `x[0] if x else None`. */
  function FirstOf(links: seq<string>): (r: Option<string>)
    ensures r.None? <==> |links| == 0
    ensures r.Some? ==> r.value == links[0]
  {
    if |links| == 0 then None else Some(links[0])
  }

  /** The candidate list of one filing, the ticker lower-cased. */
  function CandidatesOf(f: Filing, compact: string -> string, ticker: string, cik: string): (r: seq<string>)
    ensures |r| == 5
  {
    Candidates(f.accessionNumber, compact(f.reportDate), Lower(ticker), cik)
  }

  /** The link chosen for one filing: its first working candidate, if any. */
  function EdgarLink(f: Filing, compact: string -> string, ticker: string, cik: string, ok: string -> bool): Option<string>
  {
    FirstOf(Filter(CandidatesOf(f, compact, ticker, cik), ok))
  }

  /** The chosen link is a working candidate, and no earlier candidate works. */
  lemma EdgarLinkIsFirstWorking(f: Filing, compact: string -> string, ticker: string, cik: string, ok: string -> bool)
    ensures EdgarLink(f, compact, ticker, cik, ok).None? <==>
              forall k :: 0 <= k < 5 ==> !ok(CandidatesOf(f, compact, ticker, cik)[k])
    ensures EdgarLink(f, compact, ticker, cik, ok).Some? ==>
              exists k :: 0 <= k < 5 && EdgarLink(f, compact, ticker, cik, ok).value == CandidatesOf(f, compact, ticker, cik)[k] &&
                          ok(CandidatesOf(f, compact, ticker, cik)[k]) &&
                          (forall j :: 0 <= j < k ==> !ok(CandidatesOf(f, compact, ticker, cik)[j]))
  {
    var c := CandidatesOf(f, compact, ticker, cik);
    FilterEmpty(c, ok);
    if Filter(c, ok) != [] {
      var k :| 0 <= k < 5 && ok(c[k]) && (forall j :: 0 <= j < k ==> !ok(c[j])) by {
        FirstSatisfying(c, ok);
      }
      FirstFilterIsFirstSatisfying(c, ok, k);
    }
  }

  lemma FirstSatisfying<T>(s: seq<T>, p: T -> bool)
    requires exists i :: 0 <= i < |s| && p(s[i])
    ensures exists k :: 0 <= k < |s| && p(s[k]) && (forall j :: 0 <= j < k ==> !p(s[j]))
    decreases |s|
  {
    if !p(s[0]) {
      var i :| 0 <= i < |s| && p(s[i]);
      assert s[1..][i - 1] == s[i];
      FirstSatisfying(s[1..], p);
      var k :| 0 <= k < |s[1..]| && p(s[1..][k]) && (forall j :: 0 <= j < k ==> !p(s[1..][j]));
      assert forall j :: 1 <= j < k + 1 ==> s[j] == s[1..][j - 1];
      assert s[k + 1] == s[1..][k];
    }
  }

  /** The head of a filtered list is the first element satisfying the filter. */
  lemma FirstFilterIsFirstSatisfying<T>(s: seq<T>, p: T -> bool, k: nat)
    requires k < |s| && p(s[k]) && forall j :: 0 <= j < k ==> !p(s[j])
    ensures |Filter(s, p)| > 0 && Filter(s, p)[0] == s[k]
  {
    var pre, tail := s[..k], s[k + 1..];
    assert s == pre + ([s[k]] + tail);
    assert forall j :: 0 <= j < k ==> pre[j] == s[j];
    FilterEmpty(pre, p);
    FilterAppend(pre, [s[k]] + tail, p);
    FilterAppend([s[k]], tail, p);
    assert Filter([s[k]], p) == [s[k]];
    assert Filter(s, p) == [s[k]] + Filter(tail, p);
  }

  /** Filings for which some candidate works. */
  predicate HasWorkingLink(f: Filing, compact: string -> string, ticker: string, cik: string, ok: string -> bool)
  {
    EdgarLink(f, compact, ticker, cik, ok).Some?
  }

  /**
   * `xbrl_data_processor` of the validation script: lower-case the ticker, choose a link
   * per filing, drop the filings without one and return how many remain.
   */
  method CountWorkingLinks(rows: seq<Filing>, ticker: string, cikOriginal: string,
                           compact: string -> string, ok: string -> bool)
    returns (cleaned: seq<Filing>, total: nat)
    ensures cleaned == Filter(rows, f => HasWorkingLink(f, compact, ticker, cikOriginal, ok))
    ensures total == |cleaned| && total <= |rows|
  {
    var lowered := Lower(ticker);
    cleaned := [];
    var i := 0;
    while i < |rows|
      invariant 0 <= i <= |rows|
      invariant cleaned == Filter(rows[..i], f => HasWorkingLink(f, compact, ticker, cikOriginal, ok))
      decreases |rows| - i
    {
      var row := rows[i];
      var candidates := GenerateCandidates(row.accessionNumber, compact(row.reportDate), lowered, cikOriginal);
      assert candidates == CandidatesOf(row, compact, ticker, cikOriginal);
      var working := CheckMultipleLinks(candidates, ok);
      var link := FirstOf(working);
      FilterStep(rows, i, f => HasWorkingLink(f, compact, ticker, cikOriginal, ok));
      if link.Some? {
        cleaned := cleaned + [row];
      }
      i := i + 1;
    }
    assert rows[..i] == rows;
    total := |cleaned|;
  }
}
