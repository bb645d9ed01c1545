/**
 * The fact filter shared by the three pipeline variants: a raw instance-document fact
 * is kept only if it names a concept and a period, has a value, and has exactly five
 * dimension keys. A period written as an ISO 8601 time interval `start/end`
 * (section 4.4 of ISO 8601:2004) is reduced to its end date, and a fact whose date
 * does not parse is skipped. Date parsing (`datetime.fromisoformat`) is a parameter.
 */
module Extraction {
  import opened Wrappers
  import opened Strings
  import opened ConceptLookup

  /** A document with fewer raw facts than this contributes nothing of its own. */
  const MinFactsThreshold: nat := 1000

  /** The number of dimension keys a fact must have to be kept. */
  const RequiredDimensions: nat := 5

  /** One value of the document's "facts" dictionary: its "dimensions" and its "value". */
  datatype RawFact = RawFact(dimensions: Option<map<string, string>>, value: Option<int>)

  /** A parsed instance document; `facts` is `None` when it has no "facts" key. */
  datatype Document = Document(facts: Option<seq<RawFact>>)

  /** `len(data_dict.get("facts", {}))`. */
  function RawCount(doc: Document): nat
  {
    if doc.facts.None? then 0 else |doc.facts.value|
  }

  /** Below the threshold exactly when fewer than 1000 raw facts; exactly 1000 passes. */
  predicate BelowThreshold(doc: Document)
  {
    RawCount(doc) < MinFactsThreshold
  }

  predicate HasRequiredKeys(f: RawFact)
  {
    f.dimensions.Some? && "concept" in f.dimensions.value && "period" in f.dimensions.value &&
    f.value.Some?
  }

  /** The shape test: required keys present and exactly five dimension keys. */
  predicate Shaped(f: RawFact)
  {
    HasRequiredKeys(f) && |f.dimensions.value| == RequiredDimensions
  }

  /**
   * The period rule of backend/headers/xbrlprocesscheck.py: with a `/`, the second
   * piece of the split (the `else` arm of `parts[1] if len(parts) > 1 else period`
   * cannot be taken, see `SlashMeansTwoPieces`).
   */
  function PeriodEndLenient(p: string): string
  {
    if '/' in p then
      var parts := Split(p, '/');
      if |parts| > 1 then parts[1] else p
    else p
  }

  /**
   * The period rule of the other two variants: with a `/`, the split must give exactly
   * two pieces, or the extraction raises (`None`).
   */
  function PeriodEndStrict(p: string): Option<string>
  {
    if '/' in p then
      var parts := Split(p, '/');
      if |parts| != 2 then None else Some(parts[1])
    else Some(p)
  }

  lemma SlashMeansTwoPieces(p: string)
    requires '/' in p
    ensures |Split(p, '/')| > 1
  {
    CountZero(p, '/');
  }

  /** A `start/end` interval reduces to `end` under both rules. */
  lemma PeriodEndOfInterval(start: string, end: string)
    requires '/' !in start && '/' !in end
    ensures PeriodEndLenient(start + "/" + end) == end
    ensures PeriodEndStrict(start + "/" + end) == Some(end)
  {
    SplitInterval(start, end, '/');
  }

  /** A period with no `/` is taken as it is under both rules. */
  lemma PeriodEndOfInstant(p: string)
    requires '/' !in p
    ensures PeriodEndLenient(p) == p && PeriodEndStrict(p) == Some(p)
  {
  }

  /**
   * The strict rule raises exactly on periods with two or more `/`; the lenient rule
   * then keeps the piece between the first two. Whenever the strict rule does not
   * raise, both rules give the same date.
   */
  lemma PeriodRulesAgree(p: string)
    ensures PeriodEndStrict(p).None? <==> Count(p, '/') >= 2
    ensures PeriodEndStrict(p).Some? ==> PeriodEndStrict(p).value == PeriodEndLenient(p)
  {
    CountZero(p, '/');
  }

  /** The fact a raw entry yields under the lenient rule, if it is kept. */
  function KeepLenient(f: RawFact, parse: string -> Option<int>): Option<Fact>
  {
    if !Shaped(f) then None
    else
      match parse(PeriodEndLenient(f.dimensions.value["period"]))
      case None => None
      case Some(d) => Some(Fact(f.dimensions.value["concept"], f.value.value, d))
  }

  /** What a raw entry does under the strict rule. */
  datatype Step = Skip | Keep(fact: Fact) | Raise

  function KeepStrict(f: RawFact, parse: string -> Option<int>): Step
  {
    if !Shaped(f) then Skip
    else
      match PeriodEndStrict(f.dimensions.value["period"])
      case None => Raise
      case Some(s) =>
        match parse(s)
        case None => Skip
        case Some(d) => Keep(Fact(f.dimensions.value["concept"], f.value.value, d))
  }

  /** Where the strict rule does not raise, it keeps what the lenient rule keeps. */
  lemma KeepRulesAgree(f: RawFact, parse: string -> Option<int>)
    ensures KeepStrict(f, parse).Keep? ==> KeepLenient(f, parse) == Some(KeepStrict(f, parse).fact)
    ensures KeepStrict(f, parse).Skip? ==> KeepLenient(f, parse).None?
  {
    if Shaped(f) {
      PeriodRulesAgree(f.dimensions.value["period"]);
    }
  }

  /** The facts kept from `raw`, in order, under the lenient rule. */
  function Extracted(raw: seq<RawFact>, parse: string -> Option<int>): (r: seq<Fact>)
    ensures |r| <= |raw|
    ensures forall i :: 0 <= i < |raw| && KeepLenient(raw[i], parse).Some? ==>
      KeepLenient(raw[i], parse).value in r
    ensures forall x :: x in r ==> exists i :: 0 <= i < |raw| && KeepLenient(raw[i], parse) == Some(x)
    decreases |raw|
  {
    if |raw| == 0 then []
    else
      var n := |raw| - 1;
      var prev := Extracted(raw[..n], parse);
      assert forall i :: 0 <= i < n ==> raw[..n][i] == raw[i];
      match KeepLenient(raw[n], parse)
      case None => prev
      case Some(x) => prev + [x]
  }

  /**
   * The facts kept under the strict rule, or `None` when some shaped entry has a
   * malformed range and the extraction raises. When it does not raise, it keeps exactly
   * what the lenient rule keeps.
   */
  function ExtractedStrict(raw: seq<RawFact>, parse: string -> Option<int>): (r: Option<seq<Fact>>)
    ensures r.None? <==> exists i :: 0 <= i < |raw| && KeepStrict(raw[i], parse).Raise?
    decreases |raw|
  {
    if |raw| == 0 then Some([])
    else
      var n := |raw| - 1;
      var prev := ExtractedStrict(raw[..n], parse);
      assert forall i :: 0 <= i < n ==> raw[..n][i] == raw[i];
      if prev.None? then None
      else
        match KeepStrict(raw[n], parse)
        case Raise => None
        case Skip => prev
        case Keep(x) => Some(prev.value + [x])
  }

  /** The lenient extraction loop of one document. */
  method ExtractLenient(raw: seq<RawFact>, parse: string -> Option<int>) returns (facts: seq<Fact>)
    ensures facts == Extracted(raw, parse)
  {
    facts := [];
    var i := 0;
    while i < |raw|
      invariant 0 <= i <= |raw|
      invariant facts == Extracted(raw[..i], parse)
      decreases |raw| - i
    {
      assert raw[..i + 1][..i] == raw[..i];
      var kept := KeepLenient(raw[i], parse);
      if kept.Some? {
        facts := facts + [kept.value];
      }
      i := i + 1;
    }
    assert raw[..|raw|] == raw;
  }

  /** The strict extraction loop of one document; a malformed range aborts it. */
  method ExtractStrict(raw: seq<RawFact>, parse: string -> Option<int>) returns (facts: Option<seq<Fact>>)
    ensures facts == ExtractedStrict(raw, parse)
  {
    var acc: seq<Fact> := [];
    var i := 0;
    while i < |raw|
      invariant 0 <= i <= |raw|
      invariant ExtractedStrict(raw[..i], parse) == Some(acc)
      decreases |raw| - i
    {
      assert raw[..i + 1][..i] == raw[..i];
      match KeepStrict(raw[i], parse) {
        case Raise =>
          assert ExtractedStrict(raw[..i + 1], parse).None?;
          ExtractedStrictPrefix(raw, parse, i + 1);
          return None;
        case Skip =>
        case Keep(x) =>
          acc := acc + [x];
      }
      i := i + 1;
    }
    assert raw[..|raw|] == raw;
    facts := Some(acc);
  }

  /** When the strict extraction does not raise, it keeps exactly what the lenient one keeps. */
  lemma {:induction false} StrictMatchesLenient(raw: seq<RawFact>, parse: string -> Option<int>)
    requires ExtractedStrict(raw, parse).Some?
    ensures ExtractedStrict(raw, parse).value == Extracted(raw, parse)
    decreases |raw|
  {
    if |raw| > 0 {
      var n := |raw| - 1;
      StrictMatchesLenient(raw[..n], parse);
      KeepRulesAgree(raw[n], parse);
    }
  }

  /** Once a prefix raises, the whole extraction raises. */
  lemma ExtractedStrictPrefix(raw: seq<RawFact>, parse: string -> Option<int>, k: nat)
    requires k <= |raw| && ExtractedStrict(raw[..k], parse).None?
    ensures ExtractedStrict(raw, parse).None?
  {
    var i :| 0 <= i < k && KeepStrict(raw[..k][i], parse).Raise?;
    assert raw[i] == raw[..k][i];
  }
}
