/**
 * `xbrl_data_processor` of backend/headers/xbrlprocessing.py, from the trailing filings
 * table to the 18-row canonical table.
 *
 * 1. Every filing gets a link built from its accession number, report date and the
 *    lower-cased ticker; only the filings whose link answers are kept, in order.
 * 2. Save pass: every kept filing's instance document is parsed and saved as a file
 *    named after its link; the path (or `ERROR: ` and the parse error) goes into the
 *    row's path column. A later save to the same path replaces the earlier file.
 * 3. Read pass, as in `StoredFiles`: error entries are passed over, each saved file is
 *    read back and its facts extracted under the strict rule, by report date.
 * 4. The table has one column per date of the dictionary, and each label's cell gets
 *    its looked-up value (0 when no synonym matches), two of them derived.
 *
 * The link check (an HTTP HEAD request), the instance parser, the date formatting and
 * the fact-date parser are parameters; the saved files are a map from paths to documents.
 */
module Processing {
  import opened Wrappers
  import opened Strings
  import opened Seqs
  import opened Dicts
  import opened ConceptLookup
  import opened Extraction
  import opened Accounts
  import opened CanonicalTable
  import opened FactGroups
  import opened StoredFiles
  import PC = ProcessCheck
  import PR = ProcessorCheck

  // ---------------------------------------------------------------------------
  // Links
  // ---------------------------------------------------------------------------

  /** One row of the trailing filings table; the report date already parsed. */
  datatype TrailingRow = TrailingRow(accessionNumber: string, reportDate: int)

  const ArchivesRoot: string := "https://www.sec.gov/Archives/edgar/data/"

  /**
   * `create_edgar_link`: the CIK is the accession number up to its first `-`, the folder
   * is the accession number without dashes, the file is `{ticker}-{YYYYMMDD}.htm`.
   */
  function EdgarLink(accessionNumber: string, compactDate: string, ticker: string): string
  {
    ArchivesRoot + Split(accessionNumber, '-')[0] + "/" + RemoveChar(accessionNumber, '-') + "/" +
    ticker + "-" + compactDate + ".htm"
  }

  /**
   * For an accession number `cik-yy-nnnnnn`, the link is the archive folder of `cik`,
   * then the accession number's digits, then the ticker-and-date file; its base name is
   * `{ticker}-{YYYYMMDD}`.
   */
  lemma EdgarLinkParts(cik: string, year: string, serial: string, compactDate: string, ticker: string)
    requires '-' !in cik && '-' !in year && '-' !in serial
    ensures EdgarLink(cik + "-" + year + "-" + serial, compactDate, ticker) ==
      ArchivesRoot + cik + "/" + cik + year + serial + "/" + ticker + "-" + compactDate + ".htm"
  {
    AccessionCik(cik, year, serial, '-');
    AccessionDigits(cik, year, serial, '-');
  }

  /** The part before the first separator of `a-b-d` is `a`. */
  lemma AccessionCik(a: string, b: string, d: string, c: char)
    requires c !in a && c !in b && c !in d
    ensures Split(a + [c] + b + [c] + d, c)[0] == a
  {
    var parts := [a, b, d];
    assert parts[1..] == [b, d] && [b, d][1..] == [d];
    assert Join([b, d], c) == b + [c] + d;
    assert Join(parts, c) == a + [c] + (b + [c] + d);
    assert a + [c] + (b + [c] + d) == a + [c] + b + [c] + d;
    SplitJoin(parts, c);
  }

  /** Removing the separators of `a-b-d` leaves `abd`. */
  lemma AccessionDigits(a: string, b: string, d: string, c: char)
    requires c !in a && c !in b && c !in d
    ensures RemoveChar(a + [c] + b + [c] + d, c) == a + b + d
  {
    var t := b + ([c] + d);
    SeparatedTail(b, d, c);
    SeparatedTail(a, t, c);
    RemoveCharAbsent(a, c);
    Regrouped(a, b, d, c);
  }

  /** Removing the separators of `s-t`, with none in `s`, leaves `s` and what remains of `t`. */
  lemma SeparatedTail(s: string, t: string, c: char)
    requires c !in s
    ensures RemoveChar(s + ([c] + t), c) == s + RemoveChar(t, c)
  {
    RemoveCharAppend(s, [c] + t, c);
    RemoveCharAbsent(s, c);
    assert ([c] + t)[1..] == t;
  }

  lemma Regrouped(a: string, b: string, d: string, c: char)
    requires c !in b && c !in d
    ensures a + RemoveChar(b + ([c] + d), c) == a + b + d
    ensures a + [c] + b + [c] + d == a + ([c] + (b + ([c] + d)))
  {
    SeparatedTail(b, d, c);
    RemoveCharAbsent(d, c);
    assert a + (b + d) == a + b + d;
    assert a + ([c] + (b + ([c] + d))) == a + [c] + b + [c] + d;
  }

  /** The saved file of a link built from a ticker and a date without `/` is named after both. */
  lemma EdgarLinkBaseName(accessionNumber: string, compactDate: string, ticker: string)
    requires '/' !in ticker && '/' !in compactDate
    ensures BaseName(EdgarLink(accessionNumber, compactDate, ticker)) == Some(ticker + "-" + compactDate)
  {
    var dir := ArchivesRoot + Split(accessionNumber, '-')[0] + "/" + RemoveChar(accessionNumber, '-');
    var name := ticker + "-" + compactDate;
    assert '/' !in name by {
      assert forall k :: 0 <= k < |name| ==> name[k] in ticker || name[k] == '-' || name[k] in compactDate;
    }
    assert EdgarLink(accessionNumber, compactDate, ticker) == dir + "/" + name + ".htm";
    BaseNameOf(dir, name);
  }

  lemma {:induction false} RemoveCharAppend(a: string, b: string, c: char)
    ensures RemoveChar(a + b, c) == RemoveChar(a, c) + RemoveChar(b, c)
    decreases |a|
  {
    if |a| > 0 {
      assert (a + b)[1..] == a[1..] + b;
      RemoveCharAppend(a[1..], b, c);
    } else {
      assert a + b == b;
    }
  }

  lemma {:induction false} RemoveCharAbsent(s: string, c: char)
    requires c !in s
    ensures RemoveChar(s, c) == s
    decreases |s|
  {
    if |s| > 0 {
      assert c !in s[1..] by {
        assert forall x :: x in s[1..] ==> x in s;
      }
      RemoveCharAbsent(s[1..], c);
      assert s == [s[0]] + s[1..];
    }
  }

  /** A filing with its position in the trailing table (its DataFrame index) and its link. */
  datatype Filing = Filing(index: nat, row: TrailingRow, link: string)

  /** Every row with its link, the ticker lower-cased first. */
  function Linked(rows: seq<TrailingRow>, ticker: string, compact: int -> string): (r: seq<Filing>)
    ensures |r| == |rows|
    ensures forall i :: 0 <= i < |r| ==>
      r[i] == Filing(i, rows[i], EdgarLink(rows[i].accessionNumber, compact(rows[i].reportDate), Lower(ticker)))
  {
    seq(|rows|, i requires 0 <= i < |rows| =>
      Filing(i, rows[i], EdgarLink(rows[i].accessionNumber, compact(rows[i].reportDate), Lower(ticker))))
  }

  /** `trailing_data[trailing_data['link_working']]`: the filings whose link answers. */
  function Working(rows: seq<TrailingRow>, ticker: string, compact: int -> string, working: string -> bool): seq<Filing>
  {
    Filter(Linked(rows, ticker, compact), (f: Filing) => working(f.link))
  }

  /** Positions below `n` stay below `n` under the filter. */
  lemma FilteredBelow(s: seq<Filing>, p: Filing -> bool, n: nat)
    requires forall i :: 0 <= i < |s| ==> s[i].index < n
    ensures forall k :: 0 <= k < |Filter(s, p)| ==> Filter(s, p)[k].index < n
  {
    forall k | 0 <= k < |Filter(s, p)| ensures Filter(s, p)[k].index < n {
      var x := Filter(s, p)[k];
      assert x in s;
    }
  }

  /**
   * The kept filings are exactly the ones whose link answers, each once, in their order
   * in the trailing table.
   */
  lemma {:induction false} WorkingInOrder(s: seq<Filing>, p: Filing -> bool)
    requires forall i :: 0 <= i < |s| ==> s[i].index == i
    ensures forall a, b :: 0 <= a < b < |Filter(s, p)| ==> Filter(s, p)[a].index < Filter(s, p)[b].index
    decreases |s|
  {
    if |s| > 0 {
      var n := |s| - 1;
      var front := s[..n];
      WorkingInOrder(front, p);
      FilteredBelow(front, p, n);
    }
  }

  /** The link filter keeps the filings whose link answers, in their original order. */
  lemma WorkingSpec(rows: seq<TrailingRow>, ticker: string, compact: int -> string, working: string -> bool)
    ensures forall k :: 0 <= k < |Working(rows, ticker, compact, working)| ==>
      working(Working(rows, ticker, compact, working)[k].link) &&
      Working(rows, ticker, compact, working)[k] in Linked(rows, ticker, compact)
    ensures forall i :: 0 <= i < |rows| && working(Linked(rows, ticker, compact)[i].link) ==>
      Linked(rows, ticker, compact)[i] in Working(rows, ticker, compact, working)
    ensures forall a, b :: 0 <= a < b < |Working(rows, ticker, compact, working)| ==>
      Working(rows, ticker, compact, working)[a].index < Working(rows, ticker, compact, working)[b].index
  {
    WorkingInOrder(Linked(rows, ticker, compact), (f: Filing) => working(f.link));
  }

  // ---------------------------------------------------------------------------
  // The save pass
  // ---------------------------------------------------------------------------

  /** The folder every document is saved in. */
  const OutputDir: string := "./xbrl_json_data"

  /** `os.path.join(output_dir, f"{base}.json")`, with `unknown_file_{index}` as the fallback base. */
  function SavePath(f: Filing): string
  {
    var base := match BaseName(f.link)
      case Some(b) => b
      case None => "unknown_file_" + NatToString(f.index);
    OutputDir + "/" + base + ".json"
  }

  /** The path column and the saved files, as the save loop leaves them. */
  datatype Saved = Saved(paths: seq<string>, files: map<string, Document>)

  /** The path-column entry of a filing: its path, or the parse error. */
  function PathOf(f: Filing, instance: string -> PC.Instance): string
  {
    match instance(f.link)
    case Failed(msg) => ErrorPrefix + msg
    case Parsed(_) => SavePath(f)
  }

  /** The save loop over `fs`, from an empty path column and no files. */
  function Saves(fs: seq<Filing>, instance: string -> PC.Instance): Saved
    decreases |fs|
  {
    if |fs| == 0 then Saved([], map[])
    else
      var n := |fs| - 1;
      var prev := Saves(fs[..n], instance);
      Saved(prev.paths + [PathOf(fs[n], instance)], SaveFile(prev.files, fs[n], instance))
  }

  /** The files after one filing's save: its document under its path, when it parsed. */
  function SaveFile(files: map<string, Document>, f: Filing, instance: string -> PC.Instance): map<string, Document>
  {
    match instance(f.link)
    case Failed(_) => files
    case Parsed(doc) => files[SavePath(f) := doc]
  }

  /** The document the last filing parsed under path `p` saved, if any. */
  function LastSave(fs: seq<Filing>, instance: string -> PC.Instance, p: string): Option<Document>
    decreases |fs|
  {
    if |fs| == 0 then None
    else
      var n := |fs| - 1;
      match instance(fs[n].link)
      case Parsed(doc) => if SavePath(fs[n]) == p then Some(doc) else LastSave(fs[..n], instance, p)
      case Failed(_) => LastSave(fs[..n], instance, p)
  }

  /** The path column has one entry per filing: its path, or `ERROR: ` and the parse error. */
  lemma {:induction false} SavedPaths(fs: seq<Filing>, instance: string -> PC.Instance)
    ensures |Saves(fs, instance).paths| == |fs|
    ensures forall i :: 0 <= i < |fs| ==> Saves(fs, instance).paths[i] == PathOf(fs[i], instance)
    decreases |fs|
  {
    if |fs| > 0 {
      var n := |fs| - 1;
      var front := fs[..n];
      SavedPaths(front, instance);
      var prev := Saves(front, instance).paths;
      var last := PathOf(fs[n], instance);
      assert Saves(fs, instance).paths == prev + [last];
      forall i | 0 <= i < |fs| ensures (prev + [last])[i] == PathOf(fs[i], instance) {
        if i < n {
          assert front[i] == fs[i];
        }
      }
    }
  }

  /** Each saved path holds the document of the last filing saved to it. */
  lemma {:induction false} SavedFiles(fs: seq<Filing>, instance: string -> PC.Instance, p: string)
    ensures p in Saves(fs, instance).files <==> LastSave(fs, instance, p).Some?
    ensures p in Saves(fs, instance).files ==> Saves(fs, instance).files[p] == LastSave(fs, instance, p).value
    decreases |fs|
  {
    if |fs| > 0 {
      SavedFiles(fs[..|fs| - 1], instance, p);
    }
  }

  /** The save loop: parse each filing's document and save it, or record the error. */
  method SaveFilings(fs: seq<Filing>, instance: string -> PC.Instance) returns (saved: Saved)
    ensures saved == Saves(fs, instance)
  {
    var paths: seq<string> := [];
    var files: map<string, Document> := map[];
    var i := 0;
    while i < |fs|
      invariant 0 <= i <= |fs|
      invariant Saves(fs[..i], instance) == Saved(paths, files)
      decreases |fs| - i
    {
      assert fs[..i + 1][..i] == fs[..i];
      match instance(fs[i].link) {
        case Failed(msg) =>
          paths := paths + [ErrorPrefix + msg];
        case Parsed(doc) =>
          var path := SavePath(fs[i]);
          files := files[path := doc];
          paths := paths + [path];
      }
      i := i + 1;
    }
    assert fs[..|fs|] == fs;
    saved := Saved(paths, files);
  }

  /** The kept filings' report dates beside the path column. */
  function DatedPaths(fs: seq<Filing>, paths: seq<string>): (r: seq<(int, string)>)
    requires |paths| == |fs|
    ensures |r| == |fs| && forall i :: 0 <= i < |r| ==> r[i] == (fs[i].row.reportDate, paths[i])
  {
    seq(|fs|, i requires 0 <= i < |fs| => (fs[i].row.reportDate, paths[i]))
  }

  // ---------------------------------------------------------------------------
  // The population blocks
  // ---------------------------------------------------------------------------

  /** The one synonym list this variant changes: cash includes restricted cash. */
  const CashSyns: seq<string> := ["CashCashEquivalentsRestrictedCashAndRestrictedCashEquivalents"]

  /**
   * The value a label's block computes for one date's facts: that of
   * backend/headers/xbrlprocessor_check.py, but for cash.
   */
  function ProcessingValue(facts: seq<Fact>, v: Var): int
  {
    if v == Cash then ValueOrZero(facts, CashSyns) else PR.ProcessorValue(facts, v)
  }

  /** The values of one date's blocks; the blocks write the 18 rows in table order. */
  function ProcessingColumn(facts: seq<Fact>): (col: map<Var, int>)
    ensures Complete(ProcessingRows, col)
    ensures forall v :: v in col ==> col[v] == ProcessingValue(facts, v)
  {
    map v | v in ProcessingRows :: ProcessingValue(facts, v)
  }

  /** Long-term debt is debt without leases plus leases. */
  lemma LongTermDebtDerivation(facts: seq<Fact>)
    ensures ProcessingValue(facts, LongTermDebtBV) ==
      ProcessingValue(facts, LongTermDebtWithoutLeaseBV) + ProcessingValue(facts, LongTermLeaseBV)
  {
    PR.LongTermDebtDerivation(facts);
  }

  /** Total debt is long-term debt plus short-term debt. */
  lemma DebtDerivation(facts: seq<Fact>)
    ensures ProcessingValue(facts, DebtBV) == ProcessingValue(facts, LongTermDebtBV) + ProcessingValue(facts, ShortTermDebtBV)
  {
    PR.DebtDerivation(facts);
  }

  // ---------------------------------------------------------------------------
  // The whole function
  // ---------------------------------------------------------------------------

  /** The fact dictionary the read pass builds from the trailing table. */
  function FinalOf(rows: seq<TrailingRow>, ticker: string, compact: int -> string, working: string -> bool,
                   instance: string -> PC.Instance, parse: string -> Option<int>): ByDate
  {
    var fs := Working(rows, ticker, compact, working);
    var saved := Saves(fs, instance);
    SavedPaths(fs, instance);
    Reads(DatedPaths(fs, saved.paths), saved.files, parse)
  }

  /** The column values of every date, in dictionary order. */
  function Columns(final: ByDate): (r: seq<(int, map<Var, int>)>)
    ensures |r| == |final| && forall k :: 0 <= k < |r| ==> r[k] == (final[k].0, ProcessingColumn(final[k].1))
    ensures AllComplete(ProcessingRows, r)
  {
    seq(|final|, k requires 0 <= k < |final| => (final[k].0, ProcessingColumn(final[k].1)))
  }

  /** The cells of the built table. */
  function BuiltCells(final: ByDate): Cells
  {
    var ds := SortedDates(PC.Keys(final));
    Populated(Zeros(ProcessingRows, ds), ds, ProcessingRows, Columns(final))
  }

  /**
   * `xbrl_data_processor`: links, the link filter, the save pass, the read pass, then
   * the table: the 18 rows, the dates ascending, zeros, and the blocks of every date.
   */
  method XbrlDataProcessor(rows: seq<TrailingRow>, ticker: string, compact: int -> string,
                           working: string -> bool, instance: string -> PC.Instance,
                           parse: string -> Option<int>)
    returns (final: ByDate, table: Table)
    ensures final == FinalOf(rows, ticker, compact, working, instance, parse)
    ensures fresh(table) && table.Valid() && table.rows == ProcessingRows
    ensures table.dates == SortedDates(PC.Keys(final)) && table.cells == BuiltCells(final)
  {
    var fs := Working(rows, ticker, compact, working);
    var saved := SaveFilings(fs, instance);
    SavedPaths(fs, instance);
    final := ReadFilings(DatedPaths(fs, saved.paths), saved.files, parse);
    table := new Table(ProcessingRows, PC.Keys(final));
    table.Populate(ProcessingRows, Columns(final));
  }
}
