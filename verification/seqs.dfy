/** Sequence vocabulary shared by the model: duplicate-freedom, order-preserving
    sub-sequences, enumerations of sets and Python's `xs[:n]`. */
module Seqs {

  function Min(a: int, b: int): int
  {
    if a <= b then a else b
  }

  /** No element occurs twice. */
  predicate NoDups<T(==)>(xs: seq<T>)
  {
    forall i, j :: 0 <= i < j < |xs| ==> xs[i] != xs[j]
  }

  /** `xs` lists exactly the elements of `s`, each once, in some order; this is
      what iterating over a Python `set` yields. */
  predicate IsEnumeration<T(==)>(xs: seq<T>, s: set<T>)
  {
    NoDups(xs) && (forall i :: 0 <= i < |xs| ==> xs[i] in s) && (forall x | x in s :: x in xs)
  }

  /** Without duplicates, the head does not recur and the tail has no
      duplicates either. */
  lemma NoDupsTail<T>(xs: seq<T>)
    requires |xs| > 0 && NoDups(xs)
    ensures NoDups(xs[1..]) && xs[0] !in xs[1..]
  {
    var rest := xs[1..];
    forall i, j | 0 <= i < j < |rest|
      ensures rest[i] != rest[j]
    {
      assert rest[i] == xs[i + 1] && rest[j] == xs[j + 1];
    }
    forall j | 0 <= j < |rest|
      ensures rest[j] != xs[0]
    {
      assert rest[j] == xs[j + 1];
    }
  }

  /** `sub` is obtained from `xs` by deleting elements, keeping the order of
      the remaining ones. */
  predicate IsSubsequence<T(==)>(sub: seq<T>, xs: seq<T>)
    decreases |xs|
  {
    || |sub| == 0
    || (&& |xs| > 0
        && ((sub[0] == xs[0] && IsSubsequence(sub[1..], xs[1..])) || IsSubsequence(sub, xs[1..])))
  }

  /** Python's `xs[:n]` for `n >= 0`: the first `n` elements, or all of them
      when there are fewer. */
  function Take<T>(xs: seq<T>, n: nat): (r: seq<T>)
    ensures |r| == Min(n, |xs|)
    ensures r == xs[..|r|]
  {
    if n <= |xs| then xs[..n] else xs
  }

  lemma {:induction false} SubsequenceLength<T>(sub: seq<T>, xs: seq<T>)
    requires IsSubsequence(sub, xs)
    ensures |sub| <= |xs|
    decreases |xs|
  {
    if |sub| > 0 {
      if sub[0] == xs[0] && IsSubsequence(sub[1..], xs[1..]) {
        SubsequenceLength(sub[1..], xs[1..]);
      } else {
        SubsequenceLength(sub, xs[1..]);
      }
    }
  }

  lemma {:induction false} SubsequenceMembers<T>(sub: seq<T>, xs: seq<T>)
    requires IsSubsequence(sub, xs)
    ensures forall x :: x in sub ==> x in xs
    decreases |xs|
  {
    if |sub| > 0 {
      if sub[0] == xs[0] && IsSubsequence(sub[1..], xs[1..]) {
        SubsequenceMembers(sub[1..], xs[1..]);
        assert sub == [sub[0]] + sub[1..];
      } else {
        SubsequenceMembers(sub, xs[1..]);
      }
    }
  }

  /** Deleting elements from a duplicate-free sequence keeps it duplicate-free. */
  lemma {:induction false} SubsequenceNoDups<T>(sub: seq<T>, xs: seq<T>)
    requires IsSubsequence(sub, xs)
    requires NoDups(xs)
    ensures NoDups(sub)
    decreases |xs|
  {
    if |sub| > 0 {
      assert NoDups(xs[1..]) by {
        forall i, j | 0 <= i < j < |xs[1..]|
          ensures xs[1..][i] != xs[1..][j]
        {
          assert xs[1..][i] == xs[i + 1] && xs[1..][j] == xs[j + 1];
        }
      }
      if sub[0] == xs[0] && IsSubsequence(sub[1..], xs[1..]) {
        SubsequenceNoDups(sub[1..], xs[1..]);
        SubsequenceMembers(sub[1..], xs[1..]);
        forall j | 0 < j < |sub|
          ensures sub[0] != sub[j]
        {
          assert sub[j] == sub[1..][j - 1];
          assert sub[j] in xs[1..];
        }
        forall i, j | 0 < i < j < |sub|
          ensures sub[i] != sub[j]
        {
          assert sub[i] == sub[1..][i - 1] && sub[j] == sub[1..][j - 1];
        }
      } else {
        SubsequenceNoDups(sub, xs[1..]);
      }
    }
  }

  /** Keeping or dropping a new head element in front of a sub-sequence. */
  lemma SubsequenceCons<T>(opt: seq<T>, x: T, sub: seq<T>, xs: seq<T>)
    requires opt == [] || opt == [x]
    requires IsSubsequence(sub, xs)
    ensures IsSubsequence(opt + sub, [x] + xs)
  {
    assert ([x] + xs)[1..] == xs;
    if opt == [x] {
      assert (opt + sub)[1..] == sub;
    } else {
      assert opt + sub == sub;
    }
  }

  /** The elements of `xs` whose flag is set, in their original order. */
  function Select<T>(flags: seq<bool>, xs: seq<T>): (r: seq<T>)
    requires |flags| == |xs|
    ensures |r| <= |xs|
    decreases |xs|
  {
    if |xs| == 0 then []
    else (if flags[0] then [xs[0]] else []) + Select(flags[1..], xs[1..])
  }

  lemma {:induction false} SelectIsSubsequence<T>(flags: seq<bool>, xs: seq<T>)
    requires |flags| == |xs|
    ensures IsSubsequence(Select(flags, xs), xs)
    decreases |xs|
  {
    if |xs| > 0 {
      SelectIsSubsequence(flags[1..], xs[1..]);
      var opt := if flags[0] then [xs[0]] else [];
      SubsequenceCons(opt, xs[0], Select(flags[1..], xs[1..]), xs[1..]);
      assert [xs[0]] + xs[1..] == xs;
    }
  }

  /** Over distinct elements, an element is selected exactly when its flag is
      set. */
  lemma {:induction false} SelectMembers<T>(flags: seq<bool>, xs: seq<T>)
    requires |flags| == |xs|
    requires NoDups(xs)
    ensures forall i :: 0 <= i < |xs| ==> (xs[i] in Select(flags, xs) <==> flags[i])
    ensures forall x :: x in Select(flags, xs) ==> x in xs
    decreases |xs|
  {
    if |xs| > 0 {
      var rest := xs[1..];
      assert NoDups(rest) by {
        forall i, j | 0 <= i < j < |rest|
          ensures rest[i] != rest[j]
        {
          assert rest[i] == xs[i + 1] && rest[j] == xs[j + 1];
        }
      }
      SelectMembers(flags[1..], rest);
      forall i | 0 <= i < |xs|
        ensures xs[i] in Select(flags, xs) <==> flags[i]
      {
        if i > 0 {
          assert xs[i] == rest[i - 1] && flags[i] == flags[1..][i - 1];
          assert xs[i] != xs[0];
        } else {
          assert forall j :: 0 <= j < |rest| ==> rest[j] != xs[0] by {
            forall j | 0 <= j < |rest|
              ensures rest[j] != xs[0]
            {
              assert rest[j] == xs[j + 1];
            }
          }
        }
      }
    }
  }

  /** How many flags are set. */
  function CountTrue(flags: seq<bool>): nat
    decreases |flags|
  {
    if |flags| == 0 then 0 else (if flags[0] then 1 else 0) + CountTrue(flags[1..])
  }

  /** One element is selected per set flag. */
  lemma {:induction false} SelectLength<T>(flags: seq<bool>, xs: seq<T>)
    requires |flags| == |xs|
    ensures |Select(flags, xs)| == CountTrue(flags)
    decreases |xs|
  {
    if |xs| > 0 {
      SelectLength(flags[1..], xs[1..]);
    }
  }

  /** Nothing is selected exactly when no flag is set. */
  lemma {:induction false} SelectEmpty<T>(flags: seq<bool>, xs: seq<T>)
    requires |flags| == |xs|
    ensures Select(flags, xs) == [] <==> forall i :: 0 <= i < |flags| ==> !flags[i]
    decreases |xs|
  {
    if |xs| > 0 {
      SelectEmpty(flags[1..], xs[1..]);
      if !flags[0] {
        forall i | 0 < i < |flags|
          ensures flags[i] == flags[1..][i - 1]
        {
        }
      }
    }
  }
}
