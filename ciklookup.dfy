/**
 * `get_company_cik`: find a ticker in SEC's company_tickers.json and return the
 * company's CIK as a string zero-padded to ten digits. The same lookup appears in
 * backend/headers/xbrlprocesscheck.py, backend/validation/sec_fullsearch_API.py and
 * backend/validation/check_fillings.py.
 */
module CikLookup {
  import opened Wrappers
  import opened Strings

  /** One value of company_tickers.json: the ticker and the numeric `cik_str`. */
  datatype CompanyEntry = CompanyEntry(ticker: string, cikStr: nat)

  /** The width CIKs are padded to. */
  const CikWidth: nat := 10

  /** `str(cik_str).zfill(10)`: decimal digits, at least ten of them, same number. */
  function PaddedCik(n: nat): (r: string)
    ensures AllDigits(r)
    ensures |r| == if |NatToString(n)| >= CikWidth then |NatToString(n)| else CikWidth
    ensures LstripZeros(r) == LstripZeros(NatToString(n))
  {
    var s := NatToString(n);
    ZFillShape(s, CikWidth);
    ZFillDigits(s, CikWidth);
    LstripZFill(s, CikWidth);
    ZFill(s, CikWidth)
  }

  /** Position of the first entry whose ticker is exactly `key`. */
  function FirstMatch(entries: seq<CompanyEntry>, key: string): (r: Option<nat>)
    ensures r.None? <==> forall i :: 0 <= i < |entries| ==> entries[i].ticker != key
    ensures r.Some? ==> r.value < |entries| && entries[r.value].ticker == key &&
                        forall i :: 0 <= i < r.value ==> entries[i].ticker != key
    decreases |entries|
  {
    if |entries| == 0 then None
    else if entries[0].ticker == key then Some(0)
    else
      var r := FirstMatch(entries[1..], key);
      assert forall i :: 1 <= i < |entries| ==> entries[i] == entries[1..][i - 1];
      if r.None? then None else Some(r.value + 1)
  }

  /** The padded CIK of the first entry listing `key`, if any. */
  function CikFor(entries: seq<CompanyEntry>, key: string): Option<string>
  {
    match FirstMatch(entries, key)
    case None => None
    case Some(i) => Some(PaddedCik(entries[i].cikStr))
  }

  /**
   * The lookup loop: compare each entry with the upper-cased ticker and return on the
   * first match. `entries` is `None` when the request failed, which the handlers of
   * backend/validation/sec_fullsearch_API.py and the two header modules turn into `None`.
   */
  method GetCompanyCik(entries: Option<seq<CompanyEntry>>, ticker: string) returns (cik: Option<string>)
    ensures entries.None? ==> cik.None?
    ensures entries.Some? ==> cik == CikFor(entries.value, Upper(ticker))
  {
    if entries.None? {
      return None;
    }
    var es := entries.value;
    var key := Upper(ticker);
    var i := 0;
    while i < |es|
      invariant 0 <= i <= |es|
      invariant forall j :: 0 <= j < i ==> es[j].ticker != key
      decreases |es| - i
    {
      if es[i].ticker == key {
        return Some(PaddedCik(es[i].cikStr));
      }
      i := i + 1;
    }
    return None;
  }

  /**
   * The result is found exactly when some entry lists the upper-cased ticker, and then
   * it is the first such entry's CIK, padded to at least ten digits.
   */
  lemma CikForSpec(entries: seq<CompanyEntry>, key: string)
    ensures CikFor(entries, key).None? <==> forall i :: 0 <= i < |entries| ==> entries[i].ticker != key
    ensures CikFor(entries, key).Some? ==>
      exists i :: 0 <= i < |entries| && entries[i].ticker == key &&
                  CikFor(entries, key).value == PaddedCik(entries[i].cikStr) &&
                  (forall j :: 0 <= j < i ==> entries[j].ticker != key)
    ensures CikFor(entries, key).Some? ==> |CikFor(entries, key).value| >= CikWidth
  {
    match FirstMatch(entries, key)
    case None =>
    case Some(i) =>
      assert CikFor(entries, key).value == PaddedCik(entries[i].cikStr);
  }
}
