/** The slice of Python's `str` that the résumé code relies on: ASCII case
    mapping for `lower`/`upper`, `strip`, `split` on one character, `join`,
    `startswith`/`endswith`, the `in` substring test, `count` and `replace`. */
module Text {

  // Character classes (ASCII, as the case mapping of this model)

  predicate IsAsciiUpper(c: char) { 'A' <= c <= 'Z' }

  predicate IsAsciiLower(c: char) { 'a' <= c <= 'z' }

  predicate IsAsciiLetter(c: char) { IsAsciiUpper(c) || IsAsciiLower(c) }

  predicate IsAsciiDigit(c: char) { '0' <= c <= '9' }

  /** The code points Python's `str.isspace` accepts; `str.strip()` without an
      argument removes exactly these from both ends. */
  const Whitespace: set<char> :=
    {'\t', '\n', '\U{0B}', '\U{0C}', '\r', '\U{1C}', '\U{1D}', '\U{1E}', '\U{1F}', ' ',
     '\U{85}', '\U{A0}', '\U{1680}',
     '\U{2000}', '\U{2001}', '\U{2002}', '\U{2003}', '\U{2004}', '\U{2005}',
     '\U{2006}', '\U{2007}', '\U{2008}', '\U{2009}', '\U{200A}',
     '\U{2028}', '\U{2029}', '\U{202F}', '\U{205F}', '\U{3000}'}

  function LowerChar(c: char): (d: char)
    ensures !IsAsciiUpper(d)
    ensures IsAsciiLetter(d) <==> IsAsciiLetter(c)
    ensures !IsAsciiUpper(c) ==> d == c
  {
    if IsAsciiUpper(c) then (c as int + 32) as char else c
  }

  function UpperChar(c: char): (d: char)
    ensures !IsAsciiLower(d)
    ensures IsAsciiLetter(d) <==> IsAsciiLetter(c)
    ensures !IsAsciiLower(c) ==> d == c
  {
    if IsAsciiLower(c) then (c as int - 32) as char else c
  }

  /** `s.lower()`, character by character. */
  function Lower(s: string): (r: string)
    ensures |r| == |s|
    ensures forall k :: 0 <= k < |s| ==> r[k] == LowerChar(s[k])
  {
    seq(|s|, k requires 0 <= k < |s| => LowerChar(s[k]))
  }

  /** `s.upper()`, character by character. */
  function Upper(s: string): (r: string)
    ensures |r| == |s|
    ensures forall k :: 0 <= k < |s| ==> r[k] == UpperChar(s[k])
  {
    seq(|s|, k requires 0 <= k < |s| => UpperChar(s[k]))
  }

  lemma LowerIdempotent(s: string)
    ensures Lower(Lower(s)) == Lower(s)
  {
  }

  // Prefix, suffix and substring tests

  predicate StartsWith(s: string, p: string)
  {
    |p| <= |s| && s[..|p|] == p
  }

  predicate EndsWith(s: string, p: string)
  {
    |p| <= |s| && s[|s| - |p|..] == p
  }

  /** Python's `p in s`: `p` occurs in `s` at some position. */
  predicate Contains(s: string, p: string)
    decreases |s|
  {
    StartsWith(s, p) || (|s| > 0 && Contains(s[1..], p))
  }

  /** `p` occurs in `s` starting at index `i`. */
  ghost predicate OccursAt(s: string, p: string, i: int)
  {
    0 <= i && i + |p| <= |s| && s[i..i + |p|] == p
  }

  /** The scanning definition of `Contains` agrees with the positional one. */
  lemma {:induction false} ContainsIffOccurs(s: string, p: string)
    ensures Contains(s, p) <==> exists i :: OccursAt(s, p, i)
    decreases |s|
  {
    if Contains(s, p) {
      if StartsWith(s, p) {
        assert OccursAt(s, p, 0);
      } else {
        ContainsIffOccurs(s[1..], p);
        var i :| OccursAt(s[1..], p, i);
        assert s[1..][i..i + |p|] == s[i + 1..i + 1 + |p|];
        assert OccursAt(s, p, i + 1);
      }
    }
    if exists i :: OccursAt(s, p, i) {
      var i :| OccursAt(s, p, i);
      if i > 0 {
        assert s[1..][i - 1..i - 1 + |p|] == s[i..i + |p|];
        assert OccursAt(s[1..], p, i - 1);
        ContainsIffOccurs(s[1..], p);
      } else {
        assert StartsWith(s, p);
      }
    }
  }

  lemma PrefixOfAppend(a: string, b: string)
    ensures StartsWith(a + b, a)
  {
    assert (a + b)[..|a|] == a;
  }

  /** A string that is spliced into a text occurs in it. */
  lemma ContainsInfix(a: string, p: string, b: string)
    ensures Contains(a + p + b, p)
  {
    var s := a + p + b;
    assert s[|a|..|a| + |p|] == p;
    assert OccursAt(s, p, |a|);
    ContainsIffOccurs(s, p);
  }

  // Stripping

  function TrimLeft(s: string, cs: set<char>): (r: string)
    ensures |r| <= |s| && r == s[|s| - |r|..]
    ensures forall k :: 0 <= k < |s| - |r| ==> s[k] in cs
    ensures |r| > 0 ==> r[0] !in cs
    decreases |s|
  {
    if |s| > 0 && s[0] in cs then TrimLeft(s[1..], cs) else s
  }

  function TrimRight(s: string, cs: set<char>): (r: string)
    ensures |r| <= |s| && r == s[..|r|]
    ensures forall k :: |r| <= k < |s| ==> s[k] in cs
    ensures |r| > 0 ==> r[|r| - 1] !in cs
    decreases |s|
  {
    if |s| > 0 && s[|s| - 1] in cs then TrimRight(s[..|s| - 1], cs) else s
  }

  /** `r` is the slice of `s` starting at `i`, and everything of `s` outside the
      slice is drawn from `cs`. */
  ghost predicate StrippedAt(s: string, r: string, cs: set<char>, i: int)
  {
    && 0 <= i && i + |r| <= |s|
    && r == s[i..i + |r|]
    && (forall k :: 0 <= k < i ==> s[k] in cs)
    && (forall k :: i + |r| <= k < |s| ==> s[k] in cs)
  }

  /** Python's `s.strip(cs)`: the longest slice of `s` that neither starts nor
      ends with a character of `cs`, after removing such characters from both
      ends. */
  function StripChars(s: string, cs: set<char>): (r: string)
    ensures |r| > 0 ==> r[0] !in cs && r[|r| - 1] !in cs
    ensures exists i :: StrippedAt(s, r, cs, i)
  {
    var left := TrimLeft(s, cs);
    var r := TrimRight(left, cs);
    assert StrippedAt(s, r, cs, |s| - |left|);
    r
  }

  /** Python's `s.strip()`. */
  function Strip(s: string): (r: string)
    ensures |r| > 0 ==> r[0] !in Whitespace && r[|r| - 1] !in Whitespace
    ensures exists i :: StrippedAt(s, r, Whitespace, i)
  {
    StripChars(s, Whitespace)
  }

  /** The two clauses of `StripChars` pin its result down: any slice with those
      two properties is the stripped string. */
  lemma StripCharsUnique(s: string, t: string, cs: set<char>, i: int)
    requires StrippedAt(s, t, cs, i)
    requires |t| > 0 ==> t[0] !in cs && t[|t| - 1] !in cs
    ensures t == StripChars(s, cs)
  {
    var r := StripChars(s, cs);
    var j :| StrippedAt(s, r, cs, j);
    if |t| > 0 && |r| > 0 {
      assert s[i] == t[0] && s[j] == r[0];
      assert s[i + |t| - 1] == t[|t| - 1];
      assert s[j + |r| - 1] == r[|r| - 1];
    }
  }

  lemma StripCharsIdempotent(s: string, cs: set<char>)
    ensures StripChars(StripChars(s, cs), cs) == StripChars(s, cs)
  {
    var r := StripChars(s, cs);
    assert StrippedAt(r, r, cs, 0) by {
      assert r == r[0..|r|];
    }
    StripCharsUnique(r, r, cs, 0);
  }

  // Splitting and joining on one separator character

  /** Python's `s.split(sep)` for a one-character separator: the pieces between
      separators, empty pieces included, so there is always at least one. */
  function Split(s: string, sep: char): (r: seq<string>)
    ensures |r| > 0
    ensures forall k :: 0 <= k < |r| ==> sep !in r[k]
    decreases |s|
  {
    if |s| == 0 then [""]
    else
      var rest := Split(s[1..], sep);
      if s[0] == sep then [""] + rest
      else [[s[0]] + rest[0]] + rest[1..]
  }

  /** Python's `sep.join(xs)` for a one-character separator. */
  function Join(xs: seq<string>, sep: char): string
    decreases |xs|
  {
    if |xs| == 0 then ""
    else if |xs| == 1 then xs[0]
    else xs[0] + [sep] + Join(xs[1..], sep)
  }

  lemma JoinHead(a: string, x: string, ys: seq<string>, sep: char)
    ensures Join([a + x] + ys, sep) == a + Join([x] + ys, sep)
  {
    assert ([a + x] + ys)[1..] == ys;
    assert ([x] + ys)[1..] == ys;
  }

  /** Joining the pieces of a split gives back the text. */
  lemma {:induction false} JoinSplit(s: string, sep: char)
    ensures Join(Split(s, sep), sep) == s
    decreases |s|
  {
    if |s| > 0 {
      var rest := Split(s[1..], sep);
      JoinSplit(s[1..], sep);
      if s[0] == sep {
        assert ([""] + rest)[1..] == rest;
        assert [s[0]] + s[1..] == s;
      } else {
        assert [rest[0]] + rest[1..] == rest;
        JoinHead([s[0]], rest[0], rest[1..], sep);
        assert [s[0]] + s[1..] == s;
      }
    }
  }

  /** A piece followed by the separator splits off as one element. */
  lemma {:induction false} SplitPiece(x: string, t: string, sep: char)
    requires sep !in x
    ensures Split(x + [sep] + t, sep) == [x] + Split(t, sep)
    decreases |x|
  {
    var s := x + [sep] + t;
    if |x| == 0 {
      assert s[0] == sep && s[1..] == t;
    } else {
      assert s[0] == x[0] && s[1..] == x[1..] + [sep] + t;
      SplitPiece(x[1..], t, sep);
      assert [x[0]] + x[1..] == x;
    }
  }

  /** A text without the separator is a single piece. */
  lemma {:induction false} SplitNoSep(x: string, sep: char)
    requires sep !in x
    ensures Split(x, sep) == [x]
    decreases |x|
  {
    if |x| > 0 {
      SplitNoSep(x[1..], sep);
      assert [x[0]] + x[1..] == x;
    }
  }

  /** Splitting a join gives back the pieces, when no piece holds the
      separator. */
  lemma {:induction false} SplitJoin(xs: seq<string>, sep: char)
    requires |xs| > 0
    requires forall k :: 0 <= k < |xs| ==> sep !in xs[k]
    ensures Split(Join(xs, sep), sep) == xs
    decreases |xs|
  {
    if |xs| == 1 {
      SplitNoSep(xs[0], sep);
    } else {
      SplitJoin(xs[1..], sep);
      SplitPiece(xs[0], Join(xs[1..], sep), sep);
      assert [xs[0]] + xs[1..] == xs;
    }
  }

  /** Python's `"".join(xs)`. */
  function Concat(xs: seq<string>): (r: string)
    ensures |xs| > 0 ==> StartsWith(r, xs[0])
    decreases |xs|
  {
    if |xs| == 0 then "" else xs[0] + Concat(xs[1..])
  }

  lemma {:induction false} ConcatAppend(a: seq<string>, b: seq<string>)
    ensures Concat(a + b) == Concat(a) + Concat(b)
    decreases |a|
  {
    if |a| > 0 {
      assert (a + b)[1..] == a[1..] + b;
      ConcatAppend(a[1..], b);
    } else {
      assert a + b == b;
    }
  }

  /** The total length of the pieces. */
  function TotalLength(xs: seq<string>): nat
    decreases |xs|
  {
    if |xs| == 0 then 0 else |xs[0]| + TotalLength(xs[1..])
  }

  lemma {:induction false} ConcatLength(xs: seq<string>)
    ensures |Concat(xs)| == TotalLength(xs)
    decreases |xs|
  {
    if |xs| > 0 {
      ConcatLength(xs[1..]);
    }
  }

  /** The joined text is the pieces laid end to end, in order, with nothing
      between them: its length is the total of theirs, and piece `k` starts
      where pieces `0..k-1` end. */
  lemma ConcatLayout(xs: seq<string>)
    ensures |Concat(xs)| == TotalLength(xs)
    ensures forall k :: 0 <= k < |xs| ==>
              TotalLength(xs[..k]) + |xs[k]| <= |Concat(xs)|
              && Concat(xs)[TotalLength(xs[..k])..TotalLength(xs[..k]) + |xs[k]|] == xs[k]
  {
    ConcatLength(xs);
    forall k | 0 <= k < |xs|
      ensures TotalLength(xs[..k]) + |xs[k]| <= |Concat(xs)|
      ensures Concat(xs)[TotalLength(xs[..k])..TotalLength(xs[..k]) + |xs[k]|] == xs[k]
    {
      PieceAt(xs, k);
    }
  }

  lemma PieceAt(xs: seq<string>, k: nat)
    requires k < |xs|
    ensures Concat(xs) == Concat(xs[..k]) + xs[k] + Concat(xs[k + 1..])
    ensures |Concat(xs[..k])| == TotalLength(xs[..k])
  {
    assert xs == xs[..k] + ([xs[k]] + xs[k + 1..]);
    ConcatAppend(xs[..k], [xs[k]] + xs[k + 1..]);
    ConcatAppend([xs[k]], xs[k + 1..]);
    assert Concat([xs[k]]) == xs[k] + Concat([]);
    ConcatLength(xs[..k]);
  }

  // Counting and replacing

  /** Python's `s.count(c)` for one character. */
  function CountChar(s: string, c: char): (n: nat)
    ensures n <= |s|
    ensures n == 0 <==> c !in s
    decreases |s|
  {
    if |s| == 0 then 0
    else (if s[0] == c then 1 else 0) + CountChar(s[1..], c)
  }

  /** Python's `s.replace(pat, "")`: every occurrence of `pat`, found scanning
      left to right without overlaps, is deleted. */
  function RemoveAll(s: string, pat: string): (r: string)
    requires |pat| > 0
    ensures |r| <= |s|
    ensures !Contains(s, pat) ==> r == s
    decreases |s|
  {
    if |s| == 0 then ""
    else if StartsWith(s, pat) then RemoveAll(s[|pat|..], pat)
    else [s[0]] + RemoveAll(s[1..], pat)
  }
}
