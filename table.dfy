/**
 * The canonical table: one row per accounting variable, one column per report date
 * in ascending order (after the "Accounting Variable" label column, which the row
 * list stands for here), every cell starting at 0. Cells are then overwritten one
 * at a time, and only for labels the table has.
 */
module CanonicalTable {
  import opened Wrappers
  import opened Accounts

  predicate Ascending(ds: seq<int>)
  {
    forall i, j :: 0 <= i < j < |ds| ==> ds[i] < ds[j]
  }

  /** Inserts `d` into an ascending sequence, keeping it ascending and free of repeats. */
  function Insert(d: int, ds: seq<int>): (r: seq<int>)
    requires Ascending(ds)
    ensures Ascending(r)
    ensures forall x :: x in r <==> x == d || x in ds
    decreases |ds|
  {
    if |ds| == 0 then [d]
    else if d < ds[0] then [d] + ds
    else if d == ds[0] then ds
    else
      var rest := Insert(d, ds[1..]);
      assert forall k :: 0 <= k < |rest| ==> ds[0] < rest[k] by {
        forall k | 0 <= k < |rest| ensures ds[0] < rest[k] {
          assert rest[k] in rest;
          if rest[k] != d {
            var j :| 0 <= j < |ds[1..]| && ds[1..][j] == rest[k];
            assert ds[j + 1] == rest[k];
          }
        }
      }
      [ds[0]] + rest
  }

  /** `sorted(facts.keys())`: the report dates in ascending order. */
  function SortedDates(keys: seq<int>): (ds: seq<int>)
    ensures Ascending(ds)
    ensures forall x :: x in ds <==> x in keys
  {
    if |keys| == 0 then [] else Insert(keys[0], SortedDates(keys[1..]))
  }

  /** An ascending sequence is determined by its elements: the column order is unique. */
  lemma {:induction false} AscendingUnique(a: seq<int>, b: seq<int>)
    requires Ascending(a) && Ascending(b)
    requires forall x :: x in a <==> x in b
    ensures a == b
    decreases |a|
  {
    if |a| > 0 && |b| > 0 {
      assert a[0] == b[0] by {
        assert a[0] in a && b[0] in b;
        assert a[0] in b && b[0] in a;
      }
      forall x ensures x in a[1..] <==> x in b[1..] {
        if x in a[1..] {
          assert x in b && x != b[0];
        }
        if x in b[1..] {
          assert x in a && x != a[0];
        }
      }
      AscendingUnique(a[1..], b[1..]);
      assert a == [a[0]] + a[1..] && b == [b[0]] + b[1..];
    } else if |a| > 0 {
      HeadIn(a);
      assert false;
    } else if |b| > 0 {
      HeadIn(b);
      assert false;
    }
  }

  lemma HeadIn(s: seq<int>)
    requires |s| > 0
    ensures s[0] in s
  {
  }

  type Cells = map<(Var, int), int>

  /** One `.at[row, date] = x` write, taken only when the table has that row and date. */
  function Write(cells: Cells, v: Var, d: int, x: int): Cells
  {
    if (v, d) in cells then cells[(v, d) := x] else cells
  }

  /** Every variable the write order names has a value in the column. */
  predicate Complete(order: seq<Var>, col: map<Var, int>)
  {
    forall i :: 0 <= i < |order| ==> order[i] in col
  }

  /**
   * The writes of one report date: for each variable in `order`, its value in `col`
   * goes into column `d`. Exactly the cells of listed variables that the table has in
   * column `d` change; a listed variable without a row changes nothing.
   */
  function WriteColumn(cells: Cells, d: int, order: seq<Var>, col: map<Var, int>): (r: Cells)
    requires Complete(order, col)
    ensures forall k :: k in r <==> k in cells
    ensures forall v, e :: (v, e) in cells ==>
      r[(v, e)] == if e == d && v in order then col[v] else cells[(v, e)]
    decreases |order|
  {
    if |order| == 0 then cells
    else
      var n := |order| - 1;
      Write(WriteColumn(cells, d, order[..n], col), order[n], d, col[order[n]])
  }

  /** The column of the last item dated `e`, as a dictionary keeps the last value stored. */
  function LastColumn(items: seq<(int, map<Var, int>)>, e: int): (r: Option<map<Var, int>>)
    ensures r.None? <==> forall i :: 0 <= i < |items| ==> items[i].0 != e
    ensures r.Some? ==> exists i :: 0 <= i < |items| && items[i] == (e, r.value)
    decreases |items|
  {
    if |items| == 0 then None
    else if items[|items| - 1].0 == e then Some(items[|items| - 1].1)
    else LastColumn(items[..|items| - 1], e)
  }

  predicate AllComplete(order: seq<Var>, items: seq<(int, map<Var, int>)>)
  {
    forall i :: 0 <= i < |items| ==> Complete(order, items[i].1)
  }

  /**
   * The population loop: every item whose date is a column writes its column. A cell
   * ends with the value of the last item of its date when its variable is listed, and
   * keeps its old value otherwise.
   */
  function Populated(cells: Cells, dates: seq<int>, order: seq<Var>, items: seq<(int, map<Var, int>)>): (r: Cells)
    requires AllComplete(order, items)
    ensures forall k :: k in r <==> k in cells
    ensures forall v, e :: (v, e) in cells ==>
      r[(v, e)] ==
        if e in dates && v in order && LastColumn(items, e).Some?
        then LastColumn(items, e).value[v]
        else cells[(v, e)]
    decreases |items|
  {
    if |items| == 0 then cells
    else
      var n := |items| - 1;
      var prev := Populated(cells, dates, order, items[..n]);
      if items[n].0 in dates then WriteColumn(prev, items[n].0, order, items[n].1) else prev
  }

  /**
   * Cells of variables that are not in the write order, and cells of dates with no
   * item, keep their initial value: nothing but the listed writes touches the table.
   */
  lemma PopulatedFrame(cells: Cells, dates: seq<int>, order: seq<Var>, items: seq<(int, map<Var, int>)>, v: Var, e: int)
    requires AllComplete(order, items)
    requires (v, e) in cells
    requires v !in order || forall i :: 0 <= i < |items| ==> items[i].0 != e
    ensures Populated(cells, dates, order, items)[(v, e)] == cells[(v, e)]
  {
  }

  /**
   * In a table of zeros over the sorted keys, a row the write order names holds, once
   * populated, the value of its date's last column.
   */
  lemma PopulatedCell(rows: seq<Var>, keys: seq<int>, order: seq<Var>, items: seq<(int, map<Var, int>)>,
                      v: Var, d: int)
    requires AllComplete(order, items)
    requires v in rows && v in order && d in keys && LastColumn(items, d).Some?
    ensures (v, d) in Populated(Zeros(rows, SortedDates(keys)), SortedDates(keys), order, items)
    ensures Populated(Zeros(rows, SortedDates(keys)), SortedDates(keys), order, items)[(v, d)] ==
      LastColumn(items, d).value[v]
  {
    assert (v, d) in Zeros(rows, SortedDates(keys));
  }

  /** In a table of zeros over the sorted keys, a row the write order does not name keeps its 0. */
  lemma UnwrittenZero(rows: seq<Var>, keys: seq<int>, order: seq<Var>, items: seq<(int, map<Var, int>)>,
                      v: Var, d: int)
    requires AllComplete(order, items)
    requires v in rows && v !in order && d in keys
    ensures (v, d) in Populated(Zeros(rows, SortedDates(keys)), SortedDates(keys), order, items)
    ensures Populated(Zeros(rows, SortedDates(keys)), SortedDates(keys), order, items)[(v, d)] == 0
  {
    assert (v, d) in Zeros(rows, SortedDates(keys));
  }

  /** The cells of a freshly built table: one 0 for every row and date. */
  function Zeros(rows: seq<Var>, dates: seq<int>): (r: Cells)
    ensures forall v, d :: (v, d) in r <==> v in rows && d in dates
    ensures forall k :: k in r ==> r[k] == 0
  {
    map v, d | v in rows && d in dates :: (v, d) := 0
  }

  /** The table the pipeline builds and fills in place. */
  class Table {
    var rows: seq<Var>
    var dates: seq<int>
    var cells: Cells

    ghost predicate Valid()
      reads this
    {
      Ascending(dates) &&
      forall v, d :: (v, d) in cells <==> v in rows && d in dates
    }

    /**
     * `create_initialized_financial_dataframe_by_date`: the given rows in order, the
     * report dates ascending, and a zero in every cell. Rows are appended one by one.
     */
    constructor (variables: seq<Var>, reportDates: seq<int>)
      ensures Valid()
      ensures rows == variables
      ensures dates == SortedDates(reportDates)
      ensures forall v, d :: v in variables && d in dates ==> cells[(v, d)] == 0
      ensures cells == Zeros(variables, dates)
    {
      var ds := SortedDates(reportDates);
      var rs: seq<Var> := [];
      var cs: Cells := map[];
      var i := 0;
      while i < |variables|
        invariant 0 <= i <= |variables|
        invariant rs == variables[..i]
        invariant forall v, d :: (v, d) in cs <==> v in rs && d in ds
        invariant forall k :: k in cs ==> cs[k] == 0
        decreases |variables| - i
      {
        var v := variables[i];
        cs := cs + map d | d in ds :: (v, d) := 0;
        rs := rs + [v];
        assert rs == variables[..i + 1];
        i := i + 1;
      }
      assert variables[..|variables|] == variables;
      assert cs == Zeros(variables, ds) by {
        var z := Zeros(variables, ds);
        assert forall k :: k in cs <==> k in z by {
          forall k ensures k in cs <==> k in z {
            var (v, d) := k;
            assert (v, d) in cs <==> v in variables && d in ds;
            assert (v, d) in z <==> v in variables && d in ds;
          }
        }
        assert forall k :: k in cs ==> cs[k] == z[k];
      }
      rows := rs;
      dates := ds;
      cells := cs;
    }

    /** The value in row `v`, column `d`. */
    function Cell(v: Var, d: int): int
      reads this
      requires (v, d) in cells
    {
      cells[(v, d)]
    }

    /**
     * `df.at[row_index[0], d] = x` behind `if not row_index.empty`: a label the table
     * has no row for leaves the table unchanged.
     */
    method SetCell(v: Var, d: int, x: int)
      requires Valid() && d in dates
      modifies this
      ensures Valid() && rows == old(rows) && dates == old(dates)
      ensures cells == Write(old(cells), v, d, x)
      ensures v !in rows ==> cells == old(cells)
    {
      if v in rows {
        cells := cells[(v, d) := x];
      }
    }

    /** The population blocks of one report date, in their source order. */
    method FillColumn(d: int, order: seq<Var>, col: map<Var, int>)
      requires Valid() && d in dates && Complete(order, col)
      modifies this
      ensures Valid() && rows == old(rows) && dates == old(dates)
      ensures cells == WriteColumn(old(cells), d, order, col)
    {
      var i := 0;
      while i < |order|
        invariant 0 <= i <= |order|
        invariant Valid() && rows == old(rows) && dates == old(dates)
        invariant cells == WriteColumn(old(cells), d, order[..i], col)
        decreases |order| - i
      {
        assert order[..i + 1][..i] == order[..i];
        SetCell(order[i], d, col[order[i]]);
        i := i + 1;
      }
      assert order[..|order|] == order;
    }

    /** The loop over the fact dictionary: each date that is a column gets its writes. */
    method Populate(order: seq<Var>, items: seq<(int, map<Var, int>)>)
      requires Valid() && AllComplete(order, items)
      modifies this
      ensures Valid() && rows == old(rows) && dates == old(dates)
      ensures cells == Populated(old(cells), dates, order, items)
    {
      var i := 0;
      while i < |items|
        invariant 0 <= i <= |items|
        invariant Valid() && rows == old(rows) && dates == old(dates)
        invariant cells == Populated(old(cells), dates, order, items[..i])
        decreases |items| - i
      {
        assert items[..i + 1][..i] == items[..i];
        var (d, col) := items[i];
        if d in dates {
          FillColumn(d, order, col);
        }
        i := i + 1;
      }
      assert items[..|items|] == items;
    }
  }
}
