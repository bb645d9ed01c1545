/**
 * What the two variants that save instance documents before reading them share: the
 * file name a link is saved under, and the read pass that skips error entries, reads each
 * saved document back, extracts its facts under the strict rule and stores them in a
 * dictionary under the row's report date. The saved documents are a map from keys to
 * documents; reading back what was saved is assumed to give the same document.
 */
module StoredFiles {
  import opened Wrappers
  import opened Strings
  import opened Dicts
  import opened ConceptLookup
  import opened Extraction

  // ---------------------------------------------------------------------------
  // Storage keys
  // ---------------------------------------------------------------------------

  /** The text after the last `/` of `s`; all of `s` when it has none. */
  function AfterLastSlash(s: string): (r: string)
    ensures |r| <= |s| && r == s[|s| - |r|..] && '/' !in r
    ensures |r| < |s| ==> s[|s| - |r| - 1] == '/'
    decreases |s|
  {
    if |s| == 0 || s[|s| - 1] == '/' then ""
    else AfterLastSlash(s[..|s| - 1]) + [s[|s| - 1]]
  }

  /**
   * The group of `re.search(r'/([^/]+)\.htm$', link)`: the non-empty text between the
   * last `/` and a final `.htm`, or `None` when the link has no such ending.
   */
  function BaseName(link: string): (r: Option<string>)
    ensures r.Some? ==> r.value != "" && '/' !in r.value && |link| >= |r.value| + 5
    ensures r.Some? ==> link == link[..|link| - |r.value| - 5] + "/" + r.value + ".htm"
  {
    if |link| < 4 || link[|link| - 4..] != ".htm" then None
    else
      var stem := link[..|link| - 4];
      var b := AfterLastSlash(stem);
      if |b| == |stem| || b == "" then None
      else
        assert stem == stem[..|stem| - |b| - 1] + "/" + b;
        Some(b)
  }

  /** A link ending in `/name.htm` has base name `name`, whatever precedes the slash. */
  lemma BaseNameOf(dir: string, name: string)
    requires name != "" && '/' !in name
    ensures BaseName(dir + "/" + name + ".htm") == Some(name)
  {
    var link := dir + "/" + name + ".htm";
    var stem := link[..|link| - 4];
    assert stem == dir + "/" + name;
    AfterLastSlashOf(dir, name);
  }

  lemma {:induction false} AfterLastSlashOf(dir: string, name: string)
    requires '/' !in name
    ensures AfterLastSlash(dir + "/" + name) == name
    decreases |name|
  {
    var s := dir + "/" + name;
    if |name| > 0 {
      var n := |name| - 1;
      assert s[..|s| - 1] == dir + "/" + name[..n];
      assert name[n] in name;
      AfterLastSlashOf(dir, name[..n]);
      assert name == name[..n] + [name[n]];
    }
  }

  /** The prefix of the key-column entry of a row whose parse failed. */
  const ErrorPrefix: string := "ERROR: "

  // ---------------------------------------------------------------------------
  // The read pass
  // ---------------------------------------------------------------------------

  /** `not key or "ERROR" in key`: the row is passed over. */
  predicate Skipped(key: string)
  {
    key == "" || Contains(key, "ERROR")
  }

  /**
   * The facts a row's file contributes, or `None` when the row adds no entry: a skipped
   * or missing key, a document without "facts", or a malformed range in any fact. When
   * the file contributes, it contributes exactly what the lenient rule keeps.
   */
  function FileFacts(key: string, store: map<string, Document>, parse: string -> Option<int>): (r: Option<seq<Fact>>)
    ensures r.None? <==>
      Skipped(key) || key !in store || store[key].facts.None? ||
      exists i :: 0 <= i < |store[key].facts.value| && KeepStrict(store[key].facts.value[i], parse).Raise?
    ensures r.Some? ==> r.value == Extracted(store[key].facts.value, parse)
  {
    if Skipped(key) || key !in store then None
    else
      match store[key].facts
      case None => None
      case Some(raw) =>
        var r := ExtractedStrict(raw, parse);
        assert r.Some? ==> r.value == Extracted(raw, parse) by {
          if r.Some? {
            StrictMatchesLenient(raw, parse);
          }
        }
        r
  }

  /** The read loop over `files`, from an empty dictionary. */
  function Reads<D(==)>(files: seq<(D, string)>, store: map<string, Document>, parse: string -> Option<int>): seq<(D, seq<Fact>)>
    decreases |files|
  {
    if |files| == 0 then []
    else
      var n := |files| - 1;
      var prev := Reads(files[..n], store, parse);
      match FileFacts(files[n].1, store, parse)
      case None => prev
      case Some(fs) => Set(prev, files[n].0, fs)
  }

  /** The facts of the last row dated `d` whose file contributes, if any. */
  function LastRead<D(==)>(files: seq<(D, string)>, store: map<string, Document>, parse: string -> Option<int>,
                    d: D): Option<seq<Fact>>
    decreases |files|
  {
    if |files| == 0 then None
    else
      var n := |files| - 1;
      var fs := FileFacts(files[n].1, store, parse);
      if files[n].0 == d && fs.Some? then fs else LastRead(files[..n], store, parse, d)
  }

  /** The dictionary has distinct dates, and each date holds its last contributing file's facts. */
  lemma {:induction false} ReadsSpec<D>(files: seq<(D, string)>, store: map<string, Document>, parse: string -> Option<int>)
    ensures DistinctKeys(Reads(files, store, parse))
    ensures forall d :: Get(Reads(files, store, parse), d) == LastRead(files, store, parse, d)
    decreases |files|
  {
    if |files| > 0 {
      var n := |files| - 1;
      var prev := Reads(files[..n], store, parse);
      ReadsSpec(files[..n], store, parse);
      var fs := FileFacts(files[n].1, store, parse);
      if fs.Some? {
        SetProperties(prev, files[n].0, fs.value);
      }
    }
  }

  /** One row's file: skip it, or read it back and extract its facts strictly. */
  method ReadFile(key: string, store: map<string, Document>, parse: string -> Option<int>)
    returns (facts: Option<seq<Fact>>)
    ensures facts == FileFacts(key, store, parse)
  {
    if key == "" || Contains(key, "ERROR") || key !in store {
      return None;
    }
    var doc := store[key];
    if doc.facts.None? {
      return None;
    }
    facts := ExtractStrict(doc.facts.value, parse);
  }

  /** The read loop: each contributing file's facts are stored under its row's date. */
  method ReadFilings<D(==)>(files: seq<(D, string)>, store: map<string, Document>, parse: string -> Option<int>)
    returns (all: seq<(D, seq<Fact>)>)
    ensures all == Reads(files, store, parse)
  {
    all := [];
    var i := 0;
    while i < |files|
      invariant 0 <= i <= |files|
      invariant all == Reads(files[..i], store, parse)
      decreases |files| - i
    {
      assert files[..i + 1][..i] == files[..i];
      var facts := ReadFile(files[i].1, store, parse);
      if facts.Some? {
        all := Set(all, files[i].0, facts.value);
      }
      i := i + 1;
    }
    assert files[..|files|] == files;
  }

  /** A row whose parse failed carries an `ERROR` entry, so the read pass passes it over. */
  lemma ErrorKeySkipped(msg: string)
    ensures Skipped(ErrorPrefix + msg)
  {
    assert OccursAt(ErrorPrefix + msg, "ERROR", 0);
  }
}
