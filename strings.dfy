/**
 * The string operations the pipeline relies on (Python's `split`, `replace`,
 * `lstrip`, `zfill`, `upper`, `lower`, `in` and `str(int(...))`), on `seq<char>`.
 * Case mapping is ASCII only.
 */
module Strings {
  import opened Wrappers

  /** `sub` occurs in `s` starting at position `i`. */
  predicate OccursAt(s: string, sub: string, i: int)
  {
    0 <= i <= |s| - |sub| && s[i..i + |sub|] == sub
  }

  /** Python `sub in s`. */
  predicate Contains(s: string, sub: string)
  {
    exists i :: 0 <= i <= |s| && OccursAt(s, sub, i)
  }

  /** Number of occurrences of `c` in `s`. */
  function Count(s: string, c: char): nat
  {
    if |s| == 0 then 0 else (if s[0] == c then 1 else 0) + Count(s[1..], c)
  }

  lemma {:induction false} CountZero(s: string, c: char)
    ensures Count(s, c) == 0 <==> c !in s
  {
    if |s| > 0 {
      CountZero(s[1..], c);
      assert s == [s[0]] + s[1..];
    }
  }

  /** Joins non-empty `parts` with `c` between consecutive parts. */
  function Join(parts: seq<string>, c: char): string
    requires |parts| >= 1
  {
    if |parts| == 1 then parts[0] else parts[0] + [c] + Join(parts[1..], c)
  }

  /** Python `s.split(c)` for a single-character separator. */
  function Split(s: string, c: char): (parts: seq<string>)
    ensures |parts| == Count(s, c) + 1
    ensures forall k :: 0 <= k < |parts| ==> c !in parts[k]
    ensures Join(parts, c) == s
    decreases |s|
  {
    if |s| == 0 then [""]
    else
      var rest := Split(s[1..], c);
      if s[0] == c then [""] + rest
      else
        assert s == [s[0]] + s[1..];
        [[s[0]] + rest[0]] + rest[1..]
  }

  /** Splitting undoes joining, whenever no part contains the separator. */
  lemma {:induction false} SplitJoin(parts: seq<string>, c: char)
    requires |parts| >= 1
    requires forall k :: 0 <= k < |parts| ==> c !in parts[k]
    ensures Split(Join(parts, c), c) == parts
    decreases |parts|, |parts[0]|
  {
    var p := parts[0];
    if |p| == 0 {
      if |parts| > 1 {
        var tail := parts[1..];
        SplitJoin(tail, c);
        assert Join(parts, c) == [c] + Join(tail, c);
        assert ([c] + Join(tail, c))[1..] == Join(tail, c);
      }
    } else {
      var shorter := [p[1..]] + parts[1..];
      assert shorter[1..] == parts[1..];
      forall k | 0 <= k < |shorter| ensures c !in shorter[k] {
        if k == 0 {
          assert forall x :: x in p[1..] ==> x in p;
        } else {
          assert shorter[k] == parts[k];
        }
      }
      SplitJoin(shorter, c);
      assert Join(parts, c) == [p[0]] + Join(shorter, c);
      assert ([p[0]] + Join(shorter, c))[1..] == Join(shorter, c);
      assert p[0] != c;
      assert [p[0]] + p[1..] == p;
    }
  }

  /** An ISO 8601 interval `start/end` splits into exactly its two halves. */
  lemma SplitInterval(start: string, end: string, c: char)
    requires c !in start && c !in end
    ensures Split(start + [c] + end, c) == [start, end]
  {
    SplitJoin([start, end], c);
  }

  /** Python `s.split(c, 1)[-1]` when `c in s`: the text after the first `c`. */
  function AfterFirst(s: string, c: char): (r: string)
    requires c in s
    ensures Split(s, c)[0] + [c] + r == s
    decreases |s|
  {
    if s[0] == c then s[1..]
    else
      assert c in s[1..] by {
        var k :| 0 <= k < |s| && s[k] == c;
        assert s[1..][k - 1] == c;
      }
      AfterFirst(s[1..], c)
  }

  /** Python `s.replace(c, '')`. */
  function RemoveChar(s: string, c: char): (r: string)
    ensures c !in r
    ensures forall x :: x != c ==> Count(r, x) == Count(s, x)
    ensures |r| == |s| - Count(s, c)
    decreases |s|
  {
    if |s| == 0 then ""
    else if s[0] == c then RemoveChar(s[1..], c)
    else
      var rest := RemoveChar(s[1..], c);
      assert ([s[0]] + rest)[1..] == rest;
      [s[0]] + rest
  }

  /** Python `s.replace(a, b)` for single characters. */
  function ReplaceChar(s: string, a: char, b: char): (r: string)
    ensures |r| == |s|
    ensures forall i :: 0 <= i < |s| ==> r[i] == (if s[i] == a then b else s[i])
  {
    seq(|s|, i requires 0 <= i < |s| => if s[i] == a then b else s[i])
  }

  /** Python `s.lstrip('0')`. */
  function LstripZeros(s: string): (r: string)
    ensures |r| <= |s| && r == s[|s| - |r|..]
    ensures forall i :: 0 <= i < |s| - |r| ==> s[i] == '0'
    ensures r == "" || r[0] != '0'
    decreases |s|
  {
    if |s| > 0 && s[0] == '0' then LstripZeros(s[1..]) else s
  }

  /** Python `s.zfill(n)` for a string with no sign. */
  function ZFill(s: string, n: nat): (r: string)
  {
    if |s| >= n then s else seq(n - |s|, _ => '0') + s
  }

  /** Padding with zeros keeps the string as a suffix and reaches the requested width. */
  lemma ZFillShape(s: string, n: nat)
    ensures |ZFill(s, n)| == if |s| >= n then |s| else n
    ensures ZFill(s, n)[|ZFill(s, n)| - |s|..] == s
    ensures forall i :: 0 <= i < |ZFill(s, n)| - |s| ==> ZFill(s, n)[i] == '0'
  {
  }

  /** Stripping leading zeros undoes zero padding. */
  lemma {:induction false} LstripZFill(s: string, n: nat)
    ensures LstripZeros(ZFill(s, n)) == LstripZeros(s)
    decreases n
  {
    if |s| < n {
      var z := ZFill(s, n);
      var shorter := ZFill(s, n - 1);
      assert z[1..] == shorter by {
        if |s| >= n - 1 {
          assert z == ['0'] + s;
        } else {
          assert z == ['0'] + shorter;
        }
      }
      LstripZFill(s, n - 1);
    }
  }

  /** Zero padding keeps a string of decimal digits a string of decimal digits. */
  lemma ZFillDigits(s: string, n: nat)
    requires AllDigits(s)
    ensures AllDigits(ZFill(s, n))
  {
    if |s| < n {
      var z := ZFill(s, n);
      var k := n - |s|;
      forall i | 0 <= i < |z|
        ensures IsDigit(z[i])
      {
        if i >= k {
          assert z[i] == s[i - k];
        }
      }
    }
  }

  predicate IsDigit(c: char)
  {
    '0' <= c <= '9'
  }

  predicate AllDigits(s: string)
  {
    forall i :: 0 <= i < |s| ==> IsDigit(s[i])
  }

  /**
   * Python `str(int(s))` for a string of decimal digits: leading zeros go, but an
   * all-zero string keeps one zero. `None` is the raise on the empty string; every
   * string with another character is `None` too, although `int` accepts surrounding
   * whitespace, a sign and underscores between digits.
   */
  function IntRoundTrip(s: string): (r: Option<string>)
    ensures r.Some? <==> |s| > 0 && AllDigits(s)
    ensures r.Some? ==> r.value != "" && (r.value == "0" || r.value[0] != '0')
    ensures r.Some? && r.value != "0" ==> r.value == LstripZeros(s)
  {
    if |s| == 0 || !AllDigits(s) then None
    else
      var t := LstripZeros(s);
      if t == "" then Some("0") else Some(t)
  }

  /** Decimal digits of a natural number, as Python `str(n)`. */
  function NatToString(n: nat): (r: string)
    ensures |r| >= 1 && AllDigits(r)
    ensures n > 0 ==> r[0] != '0'
  {
    if n < 10 then [DigitChar(n)]
    else NatToString(n / 10) + [DigitChar(n % 10)]
  }

  function DigitChar(d: nat): (c: char)
    requires d < 10
    ensures IsDigit(c) && (d > 0 ==> c != '0')
  {
    ['0', '1', '2', '3', '4', '5', '6', '7', '8', '9'][d]
  }

  function UpperChar(c: char): char
  {
    if 'a' <= c <= 'z' then (c as int - 32) as char else c
  }

  function LowerChar(c: char): char
  {
    if 'A' <= c <= 'Z' then (c as int + 32) as char else c
  }

  /** Python `s.upper()` on ASCII text: only `a`-`z` change. */
  function Upper(s: string): (r: string)
    ensures |r| == |s|
    ensures forall i :: 0 <= i < |s| ==> r[i] == UpperChar(s[i])
  {
    seq(|s|, i requires 0 <= i < |s| => UpperChar(s[i]))
  }

  /** Python `s.lower()` on ASCII text: only `A`-`Z` change. */
  function Lower(s: string): (r: string)
    ensures |r| == |s|
    ensures forall i :: 0 <= i < |s| ==> r[i] == LowerChar(s[i])
  {
    seq(|s|, i requires 0 <= i < |s| => LowerChar(s[i]))
  }

  /** Upper-casing is idempotent, so comparing against an upper-cased ticker is stable. */
  lemma UpperIdempotent(s: string)
    ensures Upper(Upper(s)) == Upper(s)
  {
  }

  /** Upper-casing after lower-casing gives the same as upper-casing. */
  lemma UpperOfLower(s: string)
    ensures Upper(Lower(s)) == Upper(s)
  {
  }
}
