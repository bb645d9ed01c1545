/**
 * `sec_edgar_endpoint` (backend/headers/edgarAPI.py): resolve a ticker to its CIK,
 * keep the company's 10-K and 10-Q submissions, and cut the trailing window of
 * filings the pipeline processes.
 */
module EdgarApi {
  import opened Wrappers
  import opened Strings
  import opened CikLookup
  import opened Seqs

  /** One entry of the submissions feed's `filings.recent` arrays (the fields read or kept). */
  datatype Submission = Submission(accessionNumber: string, filingDate: string, reportDate: string,
                                   form: string, primaryDocument: string)

  /** A row of the filtered table: only accessionNumber, reportDate and form are kept. */
  datatype Filing = Filing(accessionNumber: string, reportDate: string, form: string)

  /** `ticker.upper().replace(".", "-")`, for ASCII tickers. */
  function NormalizeTicker(t: string): (r: string)
    ensures |r| == |t|
    ensures '.' !in r
  {
    ReplaceChar(Upper(t), '.', '-')
  }

  /** Character by character: a `.` becomes `-`, and every other character is upper-cased. */
  lemma NormalizeTickerChars(t: string)
    ensures forall i :: 0 <= i < |t| ==>
      NormalizeTicker(t)[i] == if t[i] == '.' then '-' else UpperChar(t[i])
  {
  }

  /** Normalising twice is normalising once, so a stored ticker matches itself. */
  lemma NormalizeIdempotent(t: string)
    ensures NormalizeTicker(NormalizeTicker(t)) == NormalizeTicker(t)
  {
    var n := NormalizeTicker(t);
    var nn := NormalizeTicker(n);
    forall i | 0 <= i < |t|
      ensures nn[i] == n[i]
    {
      assert Upper(n)[i] == UpperChar(n[i]);
    }
  }

  /** `(form == '10-K') | (form == '10-Q')` followed by the column projection, in order. */
  function FilterFilings(subs: seq<Submission>): (r: seq<Filing>)
    ensures |r| <= |subs|
    ensures forall k :: 0 <= k < |r| ==> r[k].form == "10-K" || r[k].form == "10-Q"
    ensures forall i :: 0 <= i < |subs| && (subs[i].form == "10-K" || subs[i].form == "10-Q") ==>
              Project(subs[i]) in r
    ensures forall k :: 0 <= k < |r| ==> (exists i :: 0 <= i < |subs| && r[k] == Project(subs[i]))
    decreases |subs|
  {
    if |subs| == 0 then []
    else
      var rest := FilterFilings(subs[1..]);
      assert forall i :: 1 <= i < |subs| ==> subs[i] == subs[1..][i - 1];
      if subs[0].form == "10-K" || subs[0].form == "10-Q" then [Project(subs[0])] + rest else rest
  }

  function Project(s: Submission): Filing
  {
    Filing(s.accessionNumber, s.reportDate, s.form)
  }

  predicate IsTenK(f: Filing)
  {
    f.form == "10-K"
  }

  /** Number of 10-K rows. */
  function CountTenK(fs: seq<Filing>): nat
  {
    if |fs| == 0 then 0
    else CountTenK(fs[..|fs| - 1]) + (if IsTenK(fs[|fs| - 1]) then 1 else 0)
  }

  /** Counting one more row adds that row's contribution. */
  lemma CountStep(fs: seq<Filing>, i: nat)
    requires i < |fs|
    ensures CountTenK(fs[..i + 1]) == CountTenK(fs[..i]) + (if IsTenK(fs[i]) then 1 else 0)
  {
    assert fs[..i + 1][..i] == fs[..i];
  }

  /** Counts over longer prefixes are no smaller. */
  lemma {:induction false} CountMonotone(fs: seq<Filing>, i: nat, j: nat)
    requires i <= j <= |fs|
    ensures CountTenK(fs[..i]) <= CountTenK(fs[..j])
    decreases j - i
  {
    if i < j {
      CountStep(fs, j - 1);
      CountMonotone(fs, i, j - 1);
    }
  }

  /** Position of the `k`-th 10-K (counting from 1). */
  function KthTenK(fs: seq<Filing>, k: nat): (b: nat)
    requires 1 <= k <= CountTenK(fs)
    ensures b < |fs| && IsTenK(fs[b]) && CountTenK(fs[..b]) == k - 1
    decreases |fs|
  {
    var n := |fs| - 1;
    assert fs[..n] == fs[..|fs| - 1];
    if CountTenK(fs[..n]) >= k then
      var b := KthTenK(fs[..n], k);
      assert fs[..n][..b] == fs[..b];
      b
    else n
  }

  /** The `k`-th 10-K is the only 10-K preceded by exactly `k - 1` others. */
  lemma KthUnique(fs: seq<Filing>, k: nat, b: nat)
    requires 1 <= k && b < |fs| && IsTenK(fs[b]) && CountTenK(fs[..b]) == k - 1
    ensures k <= CountTenK(fs) && KthTenK(fs, k) == b
  {
    CountStep(fs, b);
    CountMonotone(fs, b + 1, |fs|);
    assert fs[..|fs|] == fs;
    var c := KthTenK(fs, k);
    if c < b {
      CountStep(fs, c);
      CountMonotone(fs, c + 1, b);
      assert false;
    } else if c > b {
      CountMonotone(fs, b + 1, c);
      assert false;
    }
  }

  /** The boundary: the second 10-K, or the only one when there is exactly one. */
  function Boundary(fs: seq<Filing>): (b: nat)
    requires CountTenK(fs) >= 1
    ensures b < |fs| && IsTenK(fs[b])
  {
    KthTenK(fs, if CountTenK(fs) >= 2 then 2 else 1)
  }

  /** The rows whose form is one of `forms`, in order. */
  function FormsIn(fs: seq<Filing>, forms: set<string>): (r: seq<Filing>)
    ensures forall k :: 0 <= k < |r| ==> r[k].form in forms && r[k] in fs
    ensures forall i :: 0 <= i < |fs| && fs[i].form in forms ==> fs[i] in r
    ensures (forall i :: 0 <= i < |fs| ==> fs[i].form in forms) ==> r == fs
  {
    Filter(fs, (f: Filing) => f.form in forms)
  }

  /**
   * pandas `df.loc[:last]` on the 0-based default index: label slicing includes its
   * end, and an end before the first label selects nothing.
   */
  function LocUpTo(fs: seq<Filing>, last: int): (r: seq<Filing>)
    requires last < |fs|
    ensures last >= 0 ==> r == fs[..last + 1]
    ensures last < 0 ==> r == []
  {
    if last < 0 then [] else fs[..last + 1]
  }

  /**
   * The trailing window: every row before the boundary whose form is 10-Q or 10-K,
   * then every 10-K from the boundary on. No 10-K at all gives `None`.
   */
  function TrailingWindow(fs: seq<Filing>): Option<seq<Filing>>
  {
    if CountTenK(fs) == 0 then None
    else
      var b := Boundary(fs);
      Some(FormsIn(fs[..b], {"10-Q", "10-K"}) + FormsIn(fs[b..], {"10-K"}))
  }

  /**
   * On a filtered table the window is literally the rows before the boundary, in
   * their order, followed by the 10-Ks from the boundary on; no 10-Q at or after the
   * boundary is in it.
   */
  lemma TrailingOfFiltered(fs: seq<Filing>)
    requires forall i :: 0 <= i < |fs| ==> fs[i].form == "10-K" || fs[i].form == "10-Q"
    requires CountTenK(fs) >= 1
    ensures TrailingWindow(fs) == Some(fs[..Boundary(fs)] + FormsIn(fs[Boundary(fs)..], {"10-K"}))
    ensures forall x :: x in FormsIn(fs[Boundary(fs)..], {"10-K"}) ==> x.form == "10-K"
  {
    var b := Boundary(fs);
    var p := fs[..b];
    var qk: set<string> := {"10-Q", "10-K"};
    forall i | 0 <= i < |p|
      ensures p[i].form in qk
    {
      assert p[i] == fs[i];
    }
    assert FormsIn(p, qk) == p;
  }

  /**
   * The boundary in words: with two or more 10-Ks it is the 10-K with exactly one
   * 10-K before it; with one it is that 10-K.
   */
  lemma BoundarySpec(fs: seq<Filing>, b: nat)
    requires b < |fs| && IsTenK(fs[b])
    requires CountTenK(fs[..b]) == (if CountTenK(fs) >= 2 then 1 else 0)
    ensures CountTenK(fs) >= 1 && Boundary(fs) == b
  {
    KthUnique(fs, if CountTenK(fs) >= 2 then 2 else 1, b);
  }

  /** No 10-K means no window, and a window holds the boundary 10-K. */
  lemma TrailingNone(fs: seq<Filing>)
    ensures TrailingWindow(fs).None? <==> forall i :: 0 <= i < |fs| ==> !IsTenK(fs[i])
    ensures TrailingWindow(fs).Some? ==> fs[Boundary(fs)] in TrailingWindow(fs).value
  {
    if CountTenK(fs) == 0 {
      forall i | 0 <= i < |fs|
        ensures !IsTenK(fs[i])
      {
        CountStep(fs, i);
        CountMonotone(fs, i + 1, |fs|);
        assert fs[..|fs|] == fs;
      }
    } else {
      var b := Boundary(fs);
      assert fs[b..][0] == fs[b];
    }
  }

  /**
   * The row walk of `get_trailing_data`: count 10-Ks, remember the position of the
   * latest one, and stop at the second. -1 means no 10-K was seen.
   */
  method FindBoundary(fs: seq<Filing>) returns (first: int)
    ensures first == -1 <==> CountTenK(fs) == 0
    ensures first != -1 ==> 0 <= first < |fs| && first == Boundary(fs)
  {
    first := -1;
    var indexCount := 0;
    var count := 0;
    while indexCount < |fs|
      invariant 0 <= indexCount <= |fs|
      invariant count == CountTenK(fs[..indexCount]) && count <= 1
      invariant count == 0 ==> first == -1
      invariant count == 1 ==> 0 <= first < indexCount && IsTenK(fs[first]) && CountTenK(fs[..first]) == 0
      decreases |fs| - indexCount
    {
      CountStep(fs, indexCount);
      if fs[indexCount].form == "10-K" {
        count := count + 1;
        first := indexCount;
        if count == 2 {
          first := indexCount;
          CountMonotone(fs, indexCount + 1, |fs|);
          assert fs[..|fs|] == fs;
          BoundarySpec(fs, first);
          return;
        }
      }
      indexCount := indexCount + 1;
    }
    assert fs[..indexCount] == fs;
    if count == 1 {
      BoundarySpec(fs, first);
    }
  }

  /** The outcome of `main_execution`: `TickerNotFound` is the ValueError it lets through. */
  datatype Outcome = TickerNotFound | Done(trailing: Option<seq<Filing>>, cik: string)

  class SecEdgarEndpoint {
    var ticker: string
    var cik: string
    var submissions: seq<Submission>
    var filtered: seq<Filing>
    var trailing: Option<seq<Filing>>

    constructor()
      ensures ticker == "" && cik == "" && submissions == [] && filtered == [] && trailing == None
    {
      ticker := "";
      cik := "";
      submissions := [];
      filtered := [];
      trailing := None;
    }

    /**
     * Normalise the ticker, remember it, and return the first matching entry's padded
     * CIK, remembering it too; `None` is the ValueError raised when nothing matches.
     */
    method GetCikMatchingTicker(entries: seq<CompanyEntry>, t: string) returns (r: Option<string>)
      modifies this
      ensures ticker == NormalizeTicker(t)
      ensures r == CikFor(entries, NormalizeTicker(t))
      ensures r.Some? ==> cik == r.value
      ensures r.None? ==> cik == old(cik)
      ensures submissions == old(submissions) && filtered == old(filtered) && trailing == old(trailing)
    {
      var key := NormalizeTicker(t);
      ticker := key;
      var i := 0;
      while i < |entries| && entries[i].ticker != key
        invariant 0 <= i <= |entries|
        invariant forall j :: 0 <= j < i ==> entries[j].ticker != key
        decreases |entries| - i
      {
        i := i + 1;
      }
      if i == |entries| {
        assert FirstMatch(entries, key).None?;
        return None;
      }
      var m := FirstMatch(entries, key);
      assert entries[i].ticker == key;
      assert m == Some(i);
      cik := PaddedCik(entries[i].cikStr);
      r := Some(cik);
    }

    /** `get_submission_data`: the fetched `filings.recent` rows are stored. */
    method GetSubmissionData(recent: seq<Submission>) returns (r: seq<Submission>)
      modifies this
      ensures submissions == recent && r == recent
      ensures ticker == old(ticker) && cik == old(cik) && filtered == old(filtered) && trailing == old(trailing)
    {
      submissions := recent;
      r := recent;
    }

    /** `get_filtered_filings_data`: 10-K and 10-Q rows, projected, in order. */
    method GetFilteredFilingsData() returns (r: seq<Filing>)
      modifies this
      ensures filtered == FilterFilings(submissions) && r == filtered
      ensures ticker == old(ticker) && cik == old(cik) && submissions == old(submissions) && trailing == old(trailing)
    {
      filtered := FilterFilings(submissions);
      r := filtered;
    }

    /**
     * `get_trailing_data`: locate the boundary, then slice. The discarded
     * `drop_duplicates().sort_values(...)` has no effect, so the window stays in row
     * order. With no 10-K nothing is stored and `None` returned.
     */
    method GetTrailingData() returns (r: Option<seq<Filing>>)
      modifies this
      ensures r == TrailingWindow(filtered)
      ensures r.Some? ==> trailing == r
      ensures r.None? ==> trailing == old(trailing)
      ensures ticker == old(ticker) && cik == old(cik) && submissions == old(submissions) && filtered == old(filtered)
    {
      var fs := filtered;
      var first := FindBoundary(fs);
      if first == -1 {
        return None;
      }
      var before := FormsIn(LocUpTo(fs, first - 1), {"10-Q", "10-K"});
      var after := FormsIn(fs[first..], {"10-K"});
      trailing := Some(before + after);
      r := trailing;
    }

    /**
     * `main_execution`: lookup, filter and window, in that order. The normalised ticker
     * is remembered either way; an unknown ticker stops before anything else changes,
     * and a known one leaves its CIK, the submissions, the filtered rows and (when there
     * is a 10-K) the trailing window in the fields.
     */
    method MainExecution(entries: seq<CompanyEntry>, t: string, recent: seq<Submission>) returns (o: Outcome)
      modifies this
      ensures ticker == NormalizeTicker(t)
      ensures CikFor(entries, NormalizeTicker(t)).None? ==>
                o == TickerNotFound && cik == old(cik) && submissions == old(submissions) &&
                filtered == old(filtered) && trailing == old(trailing)
      ensures CikFor(entries, NormalizeTicker(t)).Some? ==>
                o == Done(TrailingWindow(FilterFilings(recent)), CikFor(entries, NormalizeTicker(t)).value) &&
                cik == CikFor(entries, NormalizeTicker(t)).value &&
                submissions == recent && filtered == FilterFilings(recent) &&
                trailing == (if TrailingWindow(filtered).Some? then TrailingWindow(filtered) else old(trailing))
    {
      var c := GetCikMatchingTicker(entries, t);
      if c.None? {
        return TickerNotFound;
      }
      var _ := GetSubmissionData(recent);
      var _ := GetFilteredFilingsData();
      var w := GetTrailingData();
      return Done(w, c.value);
    }
  }
}
