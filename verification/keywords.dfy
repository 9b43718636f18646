/** Keyword extraction for job matching: the lower-cased text is cut into
    tokens (a run of word characters that consists of at least three ASCII
    letters, as `\b[a-zA-Z]{3,}\b` finds them), short tokens and stop words
    are dropped, and duplicates collapse into a set. */
module Keywords {
  import opened Seqs
  import opened Text

  /** A word character for `\b`: letter, digit or underscore (ASCII only in
      this model). */
  predicate IsWordChar(c: char)
  {
    IsAsciiLetter(c) || IsAsciiDigit(c) || c == '_'
  }

  /** What the pattern accepts between its two word boundaries. */
  predicate IsToken(w: string)
  {
    |w| >= 3 && forall k :: 0 <= k < |w| ==> IsAsciiLetter(w[k])
  }

  /** `s[i..j]` is a whole run of word characters (nothing word-like touches it
      on either side) and that run is a token: the pattern matches there. */
  ghost predicate TokenAt(s: string, i: int, j: int)
  {
    && 0 <= i < j <= |s|
    && (i == 0 || !IsWordChar(s[i - 1]))
    && (j == |s| || !IsWordChar(s[j]))
    && IsToken(s[i..j])
  }

  /** Index `i` does not fall inside a run of word characters. */
  predicate AtRunBoundary(s: string, i: nat)
    requires i <= |s|
  {
    !(0 < i < |s| && IsWordChar(s[i - 1]) && IsWordChar(s[i]))
  }

  /** The end of the run of word characters that starts at `i`. */
  function RunEnd(s: string, i: nat): (j: nat)
    requires i <= |s|
    ensures i <= j <= |s|
    ensures forall k :: i <= k < j ==> IsWordChar(s[k])
    ensures j < |s| ==> !IsWordChar(s[j])
    decreases |s| - i
  {
    if i == |s| || !IsWordChar(s[i]) then i else RunEnd(s, i + 1)
  }

  /** The tokens of `s` from index `i` on, scanning left to right. */
  function TokensFrom(s: string, i: nat): (r: seq<string>)
    requires i <= |s|
    ensures forall k :: 0 <= k < |r| ==> IsToken(r[k])
    decreases |s| - i
  {
    if i == |s| then []
    else if !IsWordChar(s[i]) then TokensFrom(s, i + 1)
    else
      var j := RunEnd(s, i);
      (if IsToken(s[i..j]) then [s[i..j]] else []) + TokensFrom(s, j)
  }

  /** `re.findall(r'\b[a-zA-Z]{3,}\b', s)`. */
  function Tokens(s: string): seq<string>
  {
    TokensFrom(s, 0)
  }

  /** Every token the scan yields is a match of the pattern. */
  lemma {:induction false} TokensFromSound(s: string, i: nat, w: string)
    requires i <= |s| && AtRunBoundary(s, i)
    requires w in TokensFrom(s, i)
    ensures exists a, b :: i <= a && TokenAt(s, a, b) && s[a..b] == w
    decreases |s| - i
  {
    if !IsWordChar(s[i]) {
      TokensFromSound(s, i + 1, w);
    } else {
      var j := RunEnd(s, i);
      if IsToken(s[i..j]) && w == s[i..j] {
        assert TokenAt(s, i, j);
      } else {
        TokensFromSound(s, j, w);
      }
    }
  }

  /** Every match of the pattern at or after a run boundary is found by the
      scan. */
  lemma {:induction false} TokensFromComplete(s: string, i: nat, a: int, b: int)
    requires i <= |s| && AtRunBoundary(s, i)
    requires TokenAt(s, a, b) && i <= a
    ensures s[a..b] in TokensFrom(s, i)
    decreases |s| - i
  {
    assert forall k :: a <= k < b ==> IsWordChar(s[k]) by {
      forall k | a <= k < b
        ensures IsWordChar(s[k])
      {
        assert s[k] == s[a..b][k - a];
      }
    }
    if !IsWordChar(s[i]) {
      TokensFromComplete(s, i + 1, a, b);
    } else {
      var j := RunEnd(s, i);
      if i == a {
        assert j == b;
        assert s[a..b] in (if IsToken(s[i..j]) then [s[i..j]] else []);
      } else {
        assert j < a by {
          assert !IsWordChar(s[a - 1]);
        }
        TokensFromComplete(s, j, a, b);
      }
    }
  }

  /** The scanning tokenizer finds exactly the matches of the pattern. */
  lemma TokensAreMatches(s: string, w: string)
    ensures w in Tokens(s) <==> exists a, b :: TokenAt(s, a, b) && s[a..b] == w
  {
    if w in Tokens(s) {
      TokensFromSound(s, 0, w);
    }
    if exists a, b :: TokenAt(s, a, b) && s[a..b] == w {
      var a, b :| TokenAt(s, a, b) && s[a..b] == w;
      TokensFromComplete(s, 0, a, b);
    }
  }

  /** The stop-word filter of the keyword extractor. */
  const StopWords: set<string> :=
    {"the", "and", "for", "are", "but", "not", "you", "all", "can", "had", "her", "was",
     "one", "our", "out", "day", "get", "has", "him", "his", "how", "man", "new", "now",
     "old", "see", "two", "way", "who", "boy", "did", "its", "let", "put", "say", "she",
     "too", "use"}

  /** The keywords of a text: its distinct tokens, once lower-cased, that are
      not stop words and are longer than three characters. */
  function KeywordSet(text: string): set<string>
  {
    set w | w in Tokens(Lower(text)) && w !in StopWords && |w| > 3
  }

  /** Every stop word has three letters, so the length filter alone already
      removes them. */
  lemma StopWordsAreShort()
    ensures forall w :: w in StopWords ==> |w| == 3
  {
  }

  lemma StopWordFilterRedundant(text: string)
    ensures KeywordSet(text) == set w | w in Tokens(Lower(text)) && |w| > 3
  {
    StopWordsAreShort();
  }

  /** A keyword is a word of at least four lower-case ASCII letters that the
      pattern matches in the lower-cased text. */
  lemma KeywordShape(text: string, w: string)
    requires w in KeywordSet(text)
    ensures |w| >= 4
    ensures forall k :: 0 <= k < |w| ==> IsAsciiLower(w[k])
    ensures exists a, b :: TokenAt(Lower(text), a, b) && Lower(text)[a..b] == w
  {
    var s := Lower(text);
    TokensAreMatches(s, w);
    var a, b :| TokenAt(s, a, b) && s[a..b] == w;
    forall k | 0 <= k < |w|
      ensures IsAsciiLower(w[k])
    {
      assert w[k] == s[a + k];
      assert IsAsciiLetter(w[k]) && !IsAsciiUpper(s[a + k]);
    }
  }

  /** Iteration order of a Python `set`: any duplicate-free enumeration. */
  ghost predicate Enumerates(order: set<string> -> seq<string>)
  {
    forall s :: IsEnumeration(order(s), s)
  }

  /** `_extract_keywords`: the keyword set, listed in the order `order` gives. */
  function ExtractKeywords(text: string, order: set<string> -> seq<string>): (r: seq<string>)
    requires Enumerates(order)
    ensures NoDups(r)
    ensures forall w :: w in r <==> w in KeywordSet(text)
  {
    order(KeywordSet(text))
  }

  /** How many job keywords are compared with the résumé. */
  const ComparedKeywords: nat := 15

  /** The elements of `xs` that are not in `present`, in order. */
  function Absent(xs: seq<string>, present: set<string>): (r: seq<string>)
    ensures |r| <= |xs|
    ensures forall w :: w in r <==> w in xs && w !in present
    ensures IsSubsequence(r, xs)
    decreases |xs|
  {
    if |xs| == 0 then []
    else
      var rest := Absent(xs[1..], present);
      var r := (if xs[0] in present then [] else [xs[0]]) + rest;
      SubsequenceCons(if xs[0] in present then [] else [xs[0]], xs[0], rest, xs[1..]);
      assert [xs[0]] + xs[1..] == xs;
      r
  }

  /** `missing_keywords`: the first fifteen job keywords, in job order, minus
      those the résumé also has. */
  function MissingKeywords(jobKeywords: seq<string>, resumeKeywords: set<string>): (r: seq<string>)
    requires NoDups(jobKeywords)
    ensures |r| <= ComparedKeywords
    ensures NoDups(r)
    ensures IsSubsequence(r, Take(jobKeywords, ComparedKeywords))
    ensures forall w :: w in r <==> w in Take(jobKeywords, ComparedKeywords) && w !in resumeKeywords
  {
    var head := Take(jobKeywords, ComparedKeywords);
    assert NoDups(head);
    var r := Absent(head, resumeKeywords);
    SubsequenceNoDups(r, head);
    r
  }
}
