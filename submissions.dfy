/**
 * `fetch_10k_submission_dates` (backend/validation/check_fillings.py): walk the
 * parallel arrays of a submissions feed and keep the 10-K and 10-K/A entries.
 */
module Submissions {
  import opened Wrappers

  /** The `filings.recent` arrays read; a missing key is the empty array. */
  datatype Recent = Recent(form: seq<string>, accessionNumber: seq<string>, filingDate: seq<string>)

  datatype TenKEntry = TenKEntry(formType: string, accessionNumber: string, submissionDate: string)

  predicate IsAnnualForm(form: string)
  {
    form == "10-K" || form == "10-K/A"
  }

  /** The indices whose form is 10-K or 10-K/A, increasing. */
  function AnnualIndices(forms: seq<string>): (r: seq<nat>)
    ensures forall k :: 0 <= k < |r| ==> r[k] < |forms| && IsAnnualForm(forms[r[k]])
    ensures forall k, l :: 0 <= k < l < |r| ==> r[k] < r[l]
    ensures forall i :: 0 <= i < |forms| && IsAnnualForm(forms[i]) ==> i in r
    decreases |forms|
  {
    if |forms| == 0 then []
    else
      var n := |forms| - 1;
      var front := AnnualIndices(forms[..n]);
      assert forall i :: 0 <= i < n ==> forms[..n][i] == forms[i];
      if IsAnnualForm(forms[n]) then front + [n] else front
  }

  /** Every index of `idx` can be read from all three arrays. */
  predicate InBounds(r: Recent, idx: seq<nat>)
  {
    forall k :: 0 <= k < |idx| ==>
      idx[k] < |r.form| && idx[k] < |r.accessionNumber| && idx[k] < |r.filingDate|
  }

  /** Some selected index lies past the end of one of the other two arrays. */
  predicate Raises(r: Recent)
  {
    !InBounds(r, AnnualIndices(r.form))
  }

  /** The entries at the selected indices, each read from the same index of all three arrays. */
  function EntriesAt(r: Recent, idx: seq<nat>): (out: seq<TenKEntry>)
    requires InBounds(r, idx)
    ensures |out| == |idx|
    ensures forall k :: 0 <= k < |idx| ==>
              out[k] == TenKEntry(r.form[idx[k]], r.accessionNumber[idx[k]], r.filingDate[idx[k]])
  {
    seq(|idx|, k requires 0 <= k < |idx| =>
      TenKEntry(r.form[idx[k]], r.accessionNumber[idx[k]], r.filingDate[idx[k]]))
  }

  /**
   * The index loop. `feed` is `None` when the request failed, giving the empty list;
   * `None` as a result is the IndexError the loop lets escape when the accession or
   * filing-date array is shorter than the form array at a selected index.
   */
  method FetchTenKSubmissionDates(feed: Option<Recent>) returns (r: Option<seq<TenKEntry>>)
    ensures feed.None? ==> r == Some([])
    ensures feed.Some? ==> (r.None? <==> Raises(feed.value))
    ensures feed.Some? && r.Some? ==> r.value == EntriesAt(feed.value, AnnualIndices(feed.value.form))
  {
    if feed.None? {
      return Some([]);
    }
    var rec := feed.value;
    var forms := rec.form;
    var tenK: seq<TenKEntry> := [];
    var i := 0;
    while i < |forms|
      invariant 0 <= i <= |forms|
      invariant InBounds(rec, AnnualIndices(forms[..i]))
      invariant tenK == EntriesAt(rec, AnnualIndices(forms[..i]))
      decreases |forms| - i
    {
      IndicesStep(forms, i);
      if forms[i] == "10-K" || forms[i] == "10-K/A" {
        if i >= |rec.accessionNumber| || i >= |rec.filingDate| {
          RaisesAt(rec, i);
          return None;
        }
        EntriesStep(rec, AnnualIndices(forms[..i]), i);
        tenK := tenK + [TenKEntry(forms[i], rec.accessionNumber[i], rec.filingDate[i])];
      }
      i := i + 1;
    }
    assert forms[..i] == forms;
    return Some(tenK);
  }

  /** One more form adds its index exactly when it is an annual form. */
  lemma IndicesStep(forms: seq<string>, i: nat)
    requires i < |forms|
    ensures AnnualIndices(forms[..i + 1]) ==
      AnnualIndices(forms[..i]) + (if IsAnnualForm(forms[i]) then [i] else [])
  {
    assert forms[..i + 1][..i] == forms[..i];
  }

  /** An annual form whose index is past the end of another array makes the loop raise. */
  lemma RaisesAt(r: Recent, i: nat)
    requires i < |r.form| && IsAnnualForm(r.form[i])
    requires i >= |r.accessionNumber| || i >= |r.filingDate|
    ensures Raises(r)
  {
    var idx := AnnualIndices(r.form);
    assert i in idx;
    var k :| 0 <= k < |idx| && idx[k] == i;
  }

  /** Reading one more in-bounds index appends its entry. */
  lemma EntriesStep(r: Recent, idx: seq<nat>, i: nat)
    requires InBounds(r, idx) && i < |r.form| && i < |r.accessionNumber| && i < |r.filingDate|
    ensures InBounds(r, idx + [i])
    ensures EntriesAt(r, idx + [i]) ==
      EntriesAt(r, idx) + [TenKEntry(r.form[i], r.accessionNumber[i], r.filingDate[i])]
  {
  }

  /** Arrays of equal length never raise, and then exactly the annual indices are reported. */
  lemma EqualLengthsNeverRaise(r: Recent)
    requires |r.accessionNumber| == |r.form| && |r.filingDate| == |r.form|
    ensures !Raises(r)
    ensures |EntriesAt(r, AnnualIndices(r.form))| == |AnnualIndices(r.form)|
  {
  }
}
