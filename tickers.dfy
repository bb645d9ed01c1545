/**
 * `get_sec_tickers` (backend/validation/get_ticker_list.py, repeated in
 * backend/validation/get_all_companydata.py): turn the rows of
 * company_tickers_exchange.json (`[cik, name, ticker, exchange]`) into
 * `{name, ticker}` records.
 */
module Tickers {
  import opened Wrappers
  import opened Seqs

  /** A JSON scalar as it can appear in a row. */
  datatype JsonValue = JStr(s: string) | JNum(n: int) | JNull

  /** Python truthiness of a JSON scalar. */
  predicate Truthy(v: JsonValue)
  {
    match v
    case JStr(s) => s != ""
    case JNum(n) => n != 0
    case JNull => false
  }

  datatype Company = Company(name: JsonValue, ticker: JsonValue)

  /** A row is used when it has at least three elements and a truthy name and ticker. */
  predicate Usable(row: seq<JsonValue>)
  {
    |row| >= 3 && Truthy(row[1]) && Truthy(row[2])
  }

  function CompanyOf(row: seq<JsonValue>): Company
    requires |row| >= 3
  {
    Company(row[1], row[2])
  }

  /** The records of the usable rows, in row order. */
  function Companies(rows: seq<seq<JsonValue>>): (r: seq<Company>)
    ensures |r| == |Filter(rows, Usable)|
    ensures forall k :: 0 <= k < |r| ==> r[k] == CompanyOf(Filter(rows, Usable)[k])
  {
    var kept := Filter(rows, Usable);
    seq(|kept|, k requires 0 <= k < |kept| => CompanyOf(kept[k]))
  }

  /**
   * The loop over `data['data']`. `rows` is `None` when the request, the JSON decoding
   * or anything else failed, which returns the empty list.
   */
  method GetSecTickers(rows: Option<seq<seq<JsonValue>>>) returns (companies: seq<Company>)
    ensures rows.None? ==> companies == []
    ensures rows.Some? ==> companies == Companies(rows.value)
  {
    companies := [];
    if rows.None? {
      return;
    }
    var data := rows.value;
    var i := 0;
    while i < |data|
      invariant 0 <= i <= |data|
      invariant companies == Companies(data[..i])
      decreases |data| - i
    {
      FilterStep(data, i, Usable);
      var row := data[i];
      if |row| >= 3 {
        var name := row[1];
        var ticker := row[2];
        if Truthy(name) && Truthy(ticker) {
          companies := companies + [Company(name, ticker)];
        }
      }
      i := i + 1;
    }
    assert data[..i] == data;
  }

  /**
   * Every record comes from a usable row, with name and ticker taken from positions 1
   * and 2, and every usable row yields a record; short rows yield none.
   */
  lemma CompaniesSpec(rows: seq<seq<JsonValue>>)
    ensures forall k :: 0 <= k < |Companies(rows)| ==>
              Truthy(Companies(rows)[k].name) && Truthy(Companies(rows)[k].ticker)
    ensures forall i :: 0 <= i < |rows| && Usable(rows[i]) ==> CompanyOf(rows[i]) in Companies(rows)
    ensures forall i :: 0 <= i < |rows| && |rows[i]| < 3 ==> !Usable(rows[i])
  {
    var kept := Filter(rows, Usable);
    forall i | 0 <= i < |rows| && Usable(rows[i])
      ensures CompanyOf(rows[i]) in Companies(rows)
    {
      var k :| 0 <= k < |kept| && kept[k] == rows[i];
      assert Companies(rows)[k] == CompanyOf(rows[i]);
    }
  }

  /** Records are emitted in row order: the records of `a + b` are those of `a`, then of `b`. */
  lemma CompaniesAppend(a: seq<seq<JsonValue>>, b: seq<seq<JsonValue>>)
    ensures Companies(a + b) == Companies(a) + Companies(b)
  {
    FilterAppend(a, b, Usable);
  }
}
