/**
 * The concept normaliser `find_latest_tuple_by_string`, which appears in all three
 * pipeline variants.
 *
 * A fact is a `(concept, value, timestamp)` triple. Given an ordered list of synonyms,
 * the lookup first fixes a search key: the first synonym that some fact carries. Then
 * it returns, among the facts carrying exactly that key, the one with the latest
 * timestamp. A fact replaces the current best only when it is strictly later, so the
 * earliest of several equally late facts wins.
 */
module ConceptLookup {
  import opened Wrappers

  /** A raw fact: concept name, numeric value and period-end date as a day ordinal. */
  datatype Fact = Fact(concept: string, value: int, stamp: int)

  predicate HasConcept(facts: seq<Fact>, c: string)
  {
    exists j :: 0 <= j < |facts| && facts[j].concept == c
  }

  /** Python truthiness of the search key: both `None` and `""` are false. */
  predicate Truthy(key: Option<string>)
  {
    key.Some? && key.value != ""
  }

  /**
   * The search key left by the synonym scan when it resumes with `key` and the
   * synonyms `syns` still to try. A matching synonym overwrites the key, and the
   * scan stops as soon as the key is truthy.
   */
  function KeyFrom(facts: seq<Fact>, syns: seq<string>, key: Option<string>): Option<string>
    decreases |syns|
  {
    if |syns| == 0 then key
    else
      var k := if HasConcept(facts, syns[0]) then Some(syns[0]) else key;
      if Truthy(k) then k else KeyFrom(facts, syns[1..], k)
  }

  /** The search key of a lookup, starting from `None`. */
  function SearchKey(facts: seq<Fact>, syns: seq<string>): Option<string>
  {
    KeyFrom(facts, syns, None)
  }

  /**
   * The left-to-right scan for the latest fact carrying `key`: the first matching
   * fact is taken, and a later one replaces it only with a strictly greater stamp.
   */
  function Latest(facts: seq<Fact>, key: Option<string>): (r: Option<Fact>)
    ensures r.None? <==> forall j :: 0 <= j < |facts| ==> Some(facts[j].concept) != key
    ensures r.Some? ==> r.value in facts && Some(r.value.concept) == key
    ensures r.Some? ==>
      forall j :: 0 <= j < |facts| && Some(facts[j].concept) == key ==> facts[j].stamp <= r.value.stamp
    decreases |facts|
  {
    if |facts| == 0 then None
    else
      var prev := Latest(facts[..|facts| - 1], key);
      var f := facts[|facts| - 1];
      if Some(f.concept) != key then prev
      else if prev.None? || f.stamp > prev.value.stamp then Some(f)
      else prev
  }

  /** The whole lookup: latest fact of the winning synonym, or `None`. */
  function FindLatest(facts: seq<Fact>, syns: seq<string>): Option<Fact>
  {
    Latest(facts, SearchKey(facts, syns))
  }

  /** The value a population block writes: the looked-up value, or 0 when nothing matched. */
  function ValueOrZero(facts: seq<Fact>, syns: seq<string>): int
  {
    match FindLatest(facts, syns)
    case None => 0
    case Some(f) => f.value
  }

  // ---------------------------------------------------------------------------
  // Properties of the specification
  // ---------------------------------------------------------------------------

  /** The scan ends with no key exactly when it started with none and no synonym matched. */
  lemma {:induction false} KeyFromNone(facts: seq<Fact>, syns: seq<string>, key: Option<string>)
    ensures KeyFrom(facts, syns, key).None? <==>
      key.None? && forall j :: 0 <= j < |syns| ==> !HasConcept(facts, syns[j])
    decreases |syns|
  {
    if |syns| > 0 {
      var k := if HasConcept(facts, syns[0]) then Some(syns[0]) else key;
      if !Truthy(k) {
        KeyFromNone(facts, syns[1..], k);
        forall j | 0 < j < |syns| ensures syns[j] == syns[1..][j - 1] { }
      }
    }
  }

  /** The lookup returns `None` exactly when no fact carries any of the synonyms. */
  lemma FindLatestNone(facts: seq<Fact>, syns: seq<string>)
    ensures FindLatest(facts, syns).None? <==>
      forall j :: 0 <= j < |syns| ==> !HasConcept(facts, syns[j])
  {
    KeyFromNone(facts, syns, None);
    var key := SearchKey(facts, syns);
    if key.Some? {
      KeyFromMatches(facts, syns, None);
      var i :| 0 <= i < |syns| && syns[i] == key.value;
      var j :| 0 <= j < |facts| && facts[j].concept == syns[i];
      assert Some(facts[j].concept) == key;
    }
  }

  /** A key the scan produces is the starting key or a synonym that some fact carries. */
  lemma {:induction false} KeyFromMatches(facts: seq<Fact>, syns: seq<string>, key: Option<string>)
    ensures var k := KeyFrom(facts, syns, key);
      k.Some? ==> k == key || exists i :: 0 <= i < |syns| && syns[i] == k.value && HasConcept(facts, syns[i])
    decreases |syns|
  {
    if |syns| > 0 {
      var k := if HasConcept(facts, syns[0]) then Some(syns[0]) else key;
      if !Truthy(k) {
        KeyFromMatches(facts, syns[1..], k);
        var r := KeyFrom(facts, syns[1..], k);
        if r.Some? && r != k {
          var i :| 0 <= i < |syns[1..]| && syns[1..][i] == r.value && HasConcept(facts, syns[1..][i]);
          assert syns[i + 1] == r.value;
        }
      }
    }
  }

  /**
   * Synonym priority: when no synonym is the empty string, the key is the first
   * synonym, in list order, that some fact carries.
   */
  lemma {:induction false} SearchKeyIsFirstMatch(facts: seq<Fact>, syns: seq<string>, i: nat)
    requires forall j :: 0 <= j < |syns| ==> syns[j] != ""
    requires i < |syns| && HasConcept(facts, syns[i])
    requires forall j :: 0 <= j < i ==> !HasConcept(facts, syns[j])
    ensures SearchKey(facts, syns) == Some(syns[i])
    decreases i
  {
    if i > 0 {
      assert !HasConcept(facts, syns[0]);
      SearchKeyIsFirstMatch(facts, syns[1..], i - 1);
    }
  }

  /**
   * Tie-break: the chosen fact is the first, in list order, of the facts carrying the
   * key with the greatest stamp; every earlier fact with that key is strictly older.
   */
  lemma {:induction false} LatestIsFirstOfLatest(facts: seq<Fact>, key: Option<string>)
    requires Latest(facts, key).Some?
    ensures exists i :: 0 <= i < |facts| && facts[i] == Latest(facts, key).value &&
                        (forall j :: 0 <= j < i && Some(facts[j].concept) == key ==> facts[j].stamp < facts[i].stamp)
    decreases |facts|
  {
    var n := |facts| - 1;
    var pre := facts[..n];
    var prev := Latest(pre, key);
    var f := facts[n];
    if Some(f.concept) == key && (prev.None? || f.stamp > prev.value.stamp) {
      assert facts[n] == Latest(facts, key).value;
      forall j | 0 <= j < n && Some(facts[j].concept) == key
        ensures facts[j].stamp < facts[n].stamp
      {
        assert pre[j] == facts[j];
      }
    } else {
      LatestIsFirstOfLatest(pre, key);
      var i :| 0 <= i < |pre| && pre[i] == prev.value &&
               (forall j :: 0 <= j < i && Some(pre[j].concept) == key ==> pre[j].stamp < pre[i].stamp);
      assert facts[i] == Latest(facts, key).value;
      forall j | 0 <= j < i && Some(facts[j].concept) == key
        ensures facts[j].stamp < facts[i].stamp
      {
        assert pre[j] == facts[j];
      }
    }
  }

  /**
   * The lookup end to end: when no synonym is empty and `syns[i]` is the first
   * synonym some fact carries, the result carries `syns[i]` and is at least as late as
   * every fact with that concept, whatever later stamps lower-priority synonyms have.
   */
  lemma FindLatestPriority(facts: seq<Fact>, syns: seq<string>, i: nat)
    requires forall j :: 0 <= j < |syns| ==> syns[j] != ""
    requires i < |syns| && HasConcept(facts, syns[i])
    requires forall j :: 0 <= j < i ==> !HasConcept(facts, syns[j])
    ensures FindLatest(facts, syns).Some?
    ensures FindLatest(facts, syns).value.concept == syns[i]
    ensures forall j :: 0 <= j < |facts| && facts[j].concept == syns[i] ==>
      facts[j].stamp <= FindLatest(facts, syns).value.stamp
  {
    SearchKeyIsFirstMatch(facts, syns, i);
    var j :| 0 <= j < |facts| && facts[j].concept == syns[i];
    assert Some(facts[j].concept) == SearchKey(facts, syns);
  }

  // ---------------------------------------------------------------------------
  // The imperative lookups
  // ---------------------------------------------------------------------------

  /** The outer synonym loop with its inner fact loop and the truthiness break. */
  method ScanSynonyms(facts: seq<Fact>, syns: seq<string>) returns (key: Option<string>)
    ensures key == SearchKey(facts, syns)
  {
    key := None;
    var i := 0;
    while i < |syns|
      invariant 0 <= i <= |syns|
      invariant KeyFrom(facts, syns[i..], key) == SearchKey(facts, syns)
      decreases |syns| - i
    {
      var j := 0;
      while j < |facts| && facts[j].concept != syns[i]
        invariant 0 <= j <= |facts|
        invariant forall m :: 0 <= m < j ==> facts[m].concept != syns[i]
        decreases |facts| - j
      {
        j := j + 1;
      }
      assert syns[i..][0] == syns[i] && syns[i..][1..] == syns[i + 1..];
      if j < |facts| {
        key := Some(syns[i]);
      }
      if Truthy(key) {
        break;
      }
      i := i + 1;
    }
  }

  /** The second loop: keep the first matching fact, replace it only on a strictly later stamp. */
  method ScanLatest(facts: seq<Fact>, key: Option<string>) returns (latest: Option<Fact>)
    ensures latest == Latest(facts, key)
  {
    latest := None;
    var i := 0;
    while i < |facts|
      invariant 0 <= i <= |facts|
      invariant latest == Latest(facts[..i], key)
      decreases |facts| - i
    {
      assert facts[..i + 1][..i] == facts[..i];
      var f := facts[i];
      if Some(f.concept) == key {
        if latest.None? {
          latest := Some(f);
        } else if f.stamp > latest.value.stamp {
          latest := Some(f);
        }
      }
      i := i + 1;
    }
    assert facts[..|facts|] == facts;
  }

  /** The lookup of backend/headers/xbrlprocesscheck.py, which returns early when no key was found. */
  method FindLatestGuarded(facts: seq<Fact>, syns: seq<string>) returns (r: Option<Fact>)
    ensures r == FindLatest(facts, syns)
  {
    var key := ScanSynonyms(facts, syns);
    if key.None? {
      return None;
    }
    r := ScanLatest(facts, key);
  }

  /**
   * The lookup of the other two variants, which has no early return: with no key, no
   * fact's concept equals `None`, so the scan leaves the result `None` all the same.
   */
  method FindLatestUnguarded(facts: seq<Fact>, syns: seq<string>) returns (r: Option<Fact>)
    ensures r == FindLatest(facts, syns)
  {
    var key := ScanSynonyms(facts, syns);
    r := ScanLatest(facts, key);
  }
}
