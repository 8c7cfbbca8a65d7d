/**
 * Order-preserving filtering of a table's rows, the shape of every
 * `df[df[col] == v]` and `df[df[col] >= x]` selection the analyzer and the
 * fetchers make, with a counting function and the subsequence relation that
 * pin down exactly what such a selection returns.
 */
module Seqs {

  /** The elements of `s` that satisfy `p`, in their original order. */
  function Keep<T>(s: seq<T>, p: T -> bool): seq<T>
  {
    if s == [] then [] else (if p(s[0]) then [s[0]] else []) + Keep(s[1..], p)
  }

  /** What a filter keeps: only elements of the input that satisfy `p`, and every such element. */
  lemma {:induction false} KeepMembers<T>(s: seq<T>, p: T -> bool)
    ensures |Keep(s, p)| <= |s|
    ensures forall i :: 0 <= i < |Keep(s, p)| ==> p(Keep(s, p)[i]) && Keep(s, p)[i] in s
    ensures forall i :: 0 <= i < |s| && p(s[i]) ==> s[i] in Keep(s, p)
  {
    if s != [] {
      KeepMembers(s[1..], p);
      var r, t := Keep(s, p), Keep(s[1..], p);
      if p(s[0]) {
        assert r == [s[0]] + t;
        forall i | 0 <= i < |r| ensures p(r[i]) && r[i] in s {
          if i > 0 { assert r[i] == t[i - 1]; }
        }
      } else {
        assert r == t;
      }
      forall i | 0 <= i < |s| && p(s[i]) ensures s[i] in r {
        if i > 0 { assert s[i] == s[1..][i - 1]; }
      }
    }
  }

  /** How many elements of `s` satisfy `p`. */
  function CountWhere<T>(s: seq<T>, p: T -> bool): nat
  {
    if s == [] then 0 else (if p(s[0]) then 1 else 0) + CountWhere(s[1..], p)
  }

  /** `r` can be obtained from `s` by deleting elements. */
  predicate IsSubsequence<T(==)>(r: seq<T>, s: seq<T>)
    decreases |s|
  {
    if r == [] then true
    else if s == [] then false
    else if r[0] == s[0] then IsSubsequence(r[1..], s[1..])
    else IsSubsequence(r, s[1..])
  }

  /** Filtering keeps exactly as many elements as satisfy the predicate. */
  lemma {:induction false} KeepLength<T>(s: seq<T>, p: T -> bool)
    ensures |Keep(s, p)| == CountWhere(s, p)
  {
    if s != [] {
      KeepLength(s[1..], p);
    }
  }

  /** Filtering a concatenation filters each part. */
  lemma {:induction false} KeepAppend<T>(s: seq<T>, t: seq<T>, p: T -> bool)
    ensures Keep(s + t, p) == Keep(s, p) + Keep(t, p)
  {
    if s == [] {
      assert s + t == t;
    } else {
      var head := if p(s[0]) then [s[0]] else [];
      assert (s + t)[0] == s[0];
      assert (s + t)[1..] == s[1..] + t;
      KeepAppend(s[1..], t, p);
      assert Keep(s + t, p) == head + Keep(s[1..] + t, p);
      assert Keep(s, p) == head + Keep(s[1..], p);
    }
  }

  /** Filtering a non-empty sequence keeps its head or not, then filters the rest. */
  lemma MultisetKeepCons<T>(s: seq<T>, p: T -> bool)
    requires s != []
    ensures multiset(Keep(s, p)) == (if p(s[0]) then multiset{s[0]} else multiset{}) + multiset(Keep(s[1..], p))
  {
    assert Keep(s, p) == (if p(s[0]) then [s[0]] else []) + Keep(s[1..], p);
  }

  /** Counting over a concatenation adds the counts of the parts. */
  lemma {:induction false} CountAppend<T>(s: seq<T>, t: seq<T>, p: T -> bool)
    ensures CountWhere(s + t, p) == CountWhere(s, p) + CountWhere(t, p)
  {
    if s == [] {
      assert s + t == t;
    } else {
      assert (s + t)[1..] == s[1..] + t;
      CountAppend(s[1..], t, p);
    }
  }

  /** A filter's result is a subsequence of its input. */
  lemma {:induction false} KeepIsSubsequence<T>(s: seq<T>, p: T -> bool)
    ensures IsSubsequence(Keep(s, p), s)
  {
    if s != [] {
      KeepIsSubsequence(s[1..], p);
      var r := Keep(s, p);
      if p(s[0]) {
        assert r[1..] == Keep(s[1..], p);
      } else {
        assert r == Keep(s[1..], p);
        if r != [] {
          KeepMembers(s[1..], p);
          assert !p(s[0]) && p(r[0]);
        }
      }
    }
  }

  /** The first element of a non-empty subsequence occurs in the larger sequence. */
  lemma {:induction false} SubsequenceHead<T>(r: seq<T>, s: seq<T>)
    requires r != [] && IsSubsequence(r, s)
    ensures r[0] in s
    decreases |s|
  {
    if r[0] != s[0] {
      SubsequenceHead(r, s[1..]);
    }
  }

  /** A prefix is a subsequence. */
  lemma {:induction false} PrefixIsSubsequence<T>(s: seq<T>, n: nat)
    requires n <= |s|
    ensures IsSubsequence(s[..n], s)
  {
    if n > 0 {
      assert s[..n][1..] == s[1..][..n - 1];
      PrefixIsSubsequence(s[1..], n - 1);
    }
  }

  /** Every sequence is a subsequence of itself. */
  lemma SubsequenceRefl<T>(s: seq<T>)
    ensures IsSubsequence(s, s)
  {
    PrefixIsSubsequence(s, |s|);
    assert s[..|s|] == s;
  }

  /** A subsequence whose elements all satisfy `p` has at most as many elements as satisfy `p`. */
  lemma {:induction false} SubsequenceCountBound<T>(r: seq<T>, s: seq<T>, p: T -> bool)
    requires IsSubsequence(r, s)
    requires forall i :: 0 <= i < |r| ==> p(r[i])
    ensures |r| <= CountWhere(s, p)
    decreases |s|
  {
    if r != [] {
      if r[0] == s[0] {
        SubsequenceCountBound(r[1..], s[1..], p);
      } else {
        SubsequenceCountBound(r, s[1..], p);
      }
    }
  }

  /**
   * The filter is the only subsequence of `s` whose elements all satisfy `p`
   * and that has as many elements as satisfy `p`: this pins down a selection
   * as "exactly the matching rows, in order".
   */
  lemma {:induction false} KeepUnique<T>(r: seq<T>, s: seq<T>, p: T -> bool)
    requires IsSubsequence(r, s)
    requires forall i :: 0 <= i < |r| ==> p(r[i])
    requires |r| == CountWhere(s, p)
    ensures r == Keep(s, p)
    decreases |s|
  {
    if s == [] {
    } else if r == [] {
      KeepLength(s, p);
    } else if r[0] == s[0] {
      KeepUnique(r[1..], s[1..], p);
    } else if p(s[0]) {
      SubsequenceCountBound(r, s[1..], p);
      assert false;
    } else {
      KeepUnique(r, s[1..], p);
    }
  }

  /** Two predicates that never hold together count at most the whole sequence. */
  lemma {:induction false} CountDisjoint<T>(s: seq<T>, p: T -> bool, q: T -> bool)
    requires forall i :: 0 <= i < |s| ==> !(p(s[i]) && q(s[i]))
    ensures CountWhere(s, p) + CountWhere(s, q) <= |s|
  {
    if s != [] {
      CountDisjoint(s[1..], p, q);
    }
  }

  /** The count of a filter's input bounds its size. */
  lemma {:induction false} CountBound<T>(s: seq<T>, p: T -> bool)
    ensures CountWhere(s, p) <= |s|
  {
    if s != [] {
      CountBound(s[1..], p);
    }
  }

  /** How many of `d` rows `head(n)` keeps: the first `n`, or all but the last `-n` when `n` is negative. */
  function TakeCount(n: int, d: nat): (k: nat)
    ensures k <= d
  {
    if n >= 0 then (if n <= d then n else d)
    else if d + n >= 0 then d + n else 0
  }
}
