/**
 * The dictionaries of facts by report date the pipelines build: the company-facts facts
 * kept on a filing date, grouped by date in first-seen order, and the per-filing
 * dictionary with its empty lists dropped.
 */
module FactGroups {
  import opened Wrappers
  import opened Dicts
  import opened ConceptLookup

  /** Fact lists by report date: a dictionary, in insertion order. */
  type ByDate = seq<(int, seq<Fact>)>

  /** The API facts dated on one of the filings' reporting dates, in order. */
  function OnDates(fs: seq<Fact>, valid: set<int>): (r: seq<Fact>)
    ensures forall k :: 0 <= k < |r| ==> r[k].stamp in valid && r[k] in fs
    ensures forall i :: 0 <= i < |fs| && fs[i].stamp in valid ==> fs[i] in r
    decreases |fs|
  {
    if |fs| == 0 then []
    else
      var n := |fs| - 1;
      assert forall i :: 0 <= i < n ==> fs[..n][i] == fs[i];
      OnDates(fs[..n], valid) + (if fs[n].stamp in valid then [fs[n]] else [])
  }

  predicate HasStamp(fs: seq<Fact>, d: int)
  {
    exists i :: 0 <= i < |fs| && fs[i].stamp == d
  }

  /** The facts dated `d`, in order. */
  function WithStamp(fs: seq<Fact>, d: int): (r: seq<Fact>)
    ensures forall k :: 0 <= k < |r| ==> r[k].stamp == d && r[k] in fs
    ensures |r| == 0 <==> !HasStamp(fs, d)
    decreases |fs|
  {
    if |fs| == 0 then []
    else
      var n := |fs| - 1;
      assert forall i :: 0 <= i < n ==> fs[..n][i] == fs[i];
      assert HasStamp(fs, d) <==> HasStamp(fs[..n], d) || fs[n].stamp == d;
      WithStamp(fs[..n], d) + (if fs[n].stamp == d then [fs[n]] else [])
  }

  /** Grouping by date: each fact is appended to the list of its date, a new date starting one. */
  function Group(fs: seq<Fact>): ByDate
    decreases |fs|
  {
    if |fs| == 0 then []
    else
      var n := |fs| - 1;
      var g := Group(fs[..n]);
      var d := fs[n].stamp;
      var cur := if Get(g, d).Some? then Get(g, d).value else [];
      Set(g, d, cur + [fs[n]])
  }

  /** The grouping has one entry per date present, holding exactly that date's facts in order. */
  lemma {:induction false} GroupSpec(fs: seq<Fact>)
    ensures DistinctKeys(Group(fs))
    ensures forall d :: Get(Group(fs), d) == if HasStamp(fs, d) then Some(WithStamp(fs, d)) else None
    decreases |fs|
  {
    if |fs| > 0 {
      var n := |fs| - 1;
      var pre, x := fs[..n], fs[n];
      assert pre + [x] == fs;
      GroupSpec(pre);
      SetProperties(Group(pre), x.stamp, GroupedWith(pre, x));
      forall d ensures Get(Group(fs), d) == if HasStamp(fs, d) then Some(WithStamp(fs, d)) else None {
        GroupStep(pre, x, d);
      }
    }
  }

  /** The list the grouping stores for the date of `x` once `x` is appended. */
  function GroupedWith(pre: seq<Fact>, x: Fact): seq<Fact>
  {
    var g := Group(pre);
    (if Get(g, x.stamp).Some? then Get(g, x.stamp).value else []) + [x]
  }

  /** Grouping one more fact stores, under its date, the list it extends. */
  lemma GroupAppend(pre: seq<Fact>, x: Fact)
    ensures Group(pre + [x]) == Set(Group(pre), x.stamp, GroupedWith(pre, x))
  {
    assert (pre + [x])[..|pre|] == pre;
  }

  /** Appending `x` to the facts: the grouping's list for one date, given the one before. */
  lemma GroupStep(pre: seq<Fact>, x: Fact, d: int)
    requires Get(Group(pre), d) == if HasStamp(pre, d) then Some(WithStamp(pre, d)) else None
    requires Get(Group(pre), x.stamp) ==
      (if HasStamp(pre, x.stamp) then Some(WithStamp(pre, x.stamp)) else None)
    ensures Get(Group(pre + [x]), d) ==
      if HasStamp(pre + [x], d) then Some(WithStamp(pre + [x], d)) else None
  {
    var fs := pre + [x];
    var g := Group(pre);
    SetProperties(g, x.stamp, GroupedWith(pre, x));
    GroupAppend(pre, x);
    assert forall i :: 0 <= i < |pre| ==> fs[i] == pre[i];
    assert HasStamp(fs, d) <==> HasStamp(pre, d) || x.stamp == d;
    if d == x.stamp {
      assert WithStamp(fs, d) == WithStamp(pre, d) + [x];
      if !HasStamp(pre, d) {
        assert WithStamp(pre, d) == [];
      }
    } else {
      assert WithStamp(fs, d) == WithStamp(pre, d);
    }
  }

  /** `{k: v for k, v in d.items() if v}`: the dates with a non-empty fact list. */
  function NonEmpty(ex: ByDate): (r: ByDate)
    ensures forall k :: 0 <= k < |r| ==> |r[k].1| > 0 && r[k] in ex
    ensures forall i :: 0 <= i < |ex| && |ex[i].1| > 0 ==> ex[i] in r
    decreases |ex|
  {
    if |ex| == 0 then []
    else
      var n := |ex| - 1;
      assert forall i :: 0 <= i < n ==> ex[..n][i] == ex[i];
      var front := NonEmpty(ex[..n]);
      if |ex[n].1| > 0 then front + [ex[n]] else front
  }

  /** Dropping the empty lists keeps the dates distinct. */
  lemma {:induction false} NonEmptyDistinct(ex: ByDate)
    requires DistinctKeys(ex)
    ensures DistinctKeys(NonEmpty(ex))
    decreases |ex|
  {
    if |ex| > 0 {
      var n := |ex| - 1;
      var pre := ex[..n];
      assert forall i :: 0 <= i < n ==> pre[i] == ex[i];
      NonEmptyDistinct(pre);
      var front := NonEmpty(pre);
      forall k | 0 <= k < |front| ensures front[k].0 != ex[n].0 {
        var j :| 0 <= j < n && pre[j] == front[k];
      }
    }
  }

  /** With distinct keys, looking up the key at position `k` gives the value there. */
  lemma GetDistinct<K, V>(items: seq<(K, V)>, k: nat)
    requires DistinctKeys(items) && k < |items|
    ensures Get(items, items[k].0) == Some(items[k].1)
  {
    var j := IndexOf(items, items[k].0);
    assert j.Some?;
  }

  /** The loop collecting the API facts on a filing date. */
  method KeepOnDates(api: seq<Fact>, valid: set<int>) returns (kept: seq<Fact>)
    ensures kept == OnDates(api, valid)
  {
    kept := [];
    var i := 0;
    while i < |api|
      invariant 0 <= i <= |api|
      invariant kept == OnDates(api[..i], valid)
      decreases |api| - i
    {
      assert api[..i + 1][..i] == api[..i];
      if api[i].stamp in valid {
        kept := kept + [api[i]];
      }
      i := i + 1;
    }
    assert api[..|api|] == api;
  }

  /** The grouping loop: a new date first gets an empty list, then the fact is appended. */
  method GroupByDate(fs: seq<Fact>) returns (g: ByDate)
    ensures g == Group(fs)
  {
    g := [];
    var i := 0;
    while i < |fs|
      invariant 0 <= i <= |fs|
      invariant g == Group(fs[..i])
      decreases |fs| - i
    {
      assert fs[..i + 1] == fs[..i] + [fs[i]];
      GroupLoopStep(fs[..i], fs[i]);
      var d := fs[i].stamp;
      if Get(g, d).None? {
        g := Set(g, d, []);
      }
      g := Set(g, d, Get(g, d).value + [fs[i]]);
      i := i + 1;
    }
    assert fs[..|fs|] == fs;
  }

  /** One turn of the grouping loop, both when the date is new and when it is not. */
  lemma GroupLoopStep(pre: seq<Fact>, x: Fact)
    ensures var g := Group(pre);
      var g1 := if Get(g, x.stamp).None? then Set(g, x.stamp, []) else g;
      Set(g1, x.stamp, Get(g1, x.stamp).value + [x]) == Group(pre + [x])
  {
    var g := Group(pre);
    GroupAppend(pre, x);
    if Get(g, x.stamp).None? {
      NewKey(g, x.stamp, [x]);
      assert GroupedWith(pre, x) == [x];
    }
  }

  /** Starting an empty list for a new date, then appending, stores the one-element list. */
  lemma NewKey(g: ByDate, d: int, l: seq<Fact>)
    requires Get(g, d).None?
    ensures Get(Set(g, d, []), d) == Some([])
    ensures Set(Set(g, d, []), d, l) == Set(g, d, l)
  {
    SetProperties(g, d, []);
    SetTwice(g, d, [], l);
  }
}
