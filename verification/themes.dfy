/**
 * The counting step of `extract_top_themes`: keep the multi-word noun chunks,
 * lower-cased, count each distinct phrase and take the `n` most frequent
 * (`value_counts().head(n)`). The order among phrases with equal counts is
 * left open, as `value_counts` does not fix it.
 */
module Themes {
  import opened Text
  import opened Seqs

  /**
   * The characters below 128 that `str.split()` separates on: space, tab,
   * line feed, vertical tab, form feed, carriage return and the four
   * information separators 0x1C to 0x1F.
   */
  predicate IsSpace(c: char)
  {
    c == ' ' || '\t' <= c <= '\r' || '\U{001C}' <= c <= '\U{001F}'
  }

  /** `len(s.split())`: the number of maximal runs of non-space characters. */
  function WordCount(s: string): nat
  {
    if s == [] then 0
    else
      var last := |s| - 1;
      WordCount(s[..last]) + (if !IsSpace(s[last]) && (last == 0 || IsSpace(s[last - 1])) then 1 else 0)
  }

  /** `len(chunk.text.split()) > 1`. */
  predicate MultiWord(s: string)
  {
    WordCount(s) > 1
  }

  /** A chunk without any space is one word at most, so it is never a theme. */
  lemma {:induction false} NoSpaceAtMostOneWord(s: string)
    requires forall i :: 0 <= i < |s| ==> !IsSpace(s[i])
    ensures WordCount(s) <= 1 && !MultiWord(s)
  {
    if |s| > 1 {
      NoSpaceAtMostOneWord(s[..|s| - 1]);
      assert !IsSpace(s[|s| - 2]);
    }
  }

  /** The lower-cased multi-word chunks, in document order. */
  function ThemeList(chunks: seq<string>): seq<string>
  {
    if chunks == [] then []
    else
      var last := chunks[|chunks| - 1];
      ThemeList(chunks[..|chunks| - 1]) + (if MultiWord(last) then [Lower(last)] else [])
  }

  /** The themes are exactly the lower-cased multi-word chunks. */
  lemma {:induction false} ThemesAreMultiWordChunks(chunks: seq<string>)
    ensures |ThemeList(chunks)| <= |chunks|
    ensures forall t :: t in ThemeList(chunks) ==> exists c :: c in chunks && MultiWord(c) && t == Lower(c)
    ensures forall c :: c in chunks && MultiWord(c) ==> Lower(c) in ThemeList(chunks)
  {
    if chunks != [] {
      var init, last := chunks[..|chunks| - 1], chunks[|chunks| - 1];
      ThemesAreMultiWordChunks(init);
      assert chunks == init + [last];
      forall t | t in ThemeList(chunks)
        ensures exists c :: c in chunks && MultiWord(c) && t == Lower(c)
      {
        if t !in ThemeList(init) {
          assert MultiWord(last) && t == Lower(last);
        }
      }
    }
  }

  /** The distinct phrases of a list. */
  function Distinct(themes: seq<string>): set<string>
  {
    set p | p in themes
  }

  /** Some phrase of a non-empty set has the largest count. */
  lemma {:induction false} MaxExists(s: set<string>, counts: map<string, nat>)
    requires s != {} && s <= counts.Keys
    ensures exists b :: b in s && forall q :: q in s ==> counts[q] <= counts[b]
    decreases |s|
  {
    var x :| x in s;
    if s != {x} {
      MaxExists(s - {x}, counts);
      var b :| b in s - {x} && forall q :: q in s - {x} ==> counts[q] <= counts[b];
      if counts[x] > counts[b] {
        assert forall q :: q in s ==> counts[q] <= counts[x];
      } else {
        assert forall q :: q in s ==> counts[q] <= counts[b];
      }
    } else {
      assert forall q :: q in s ==> q == x;
    }
  }

  /** The counting half of `value_counts`: each distinct phrase with its number of occurrences. */
  method CountPhrases(themes: seq<string>) returns (counts: map<string, nat>)
    ensures counts.Keys == Distinct(themes)
    ensures forall p :: p in counts ==> counts[p] == multiset(themes)[p]
  {
    counts := map[];
    var i := 0;
    while i < |themes|
      invariant 0 <= i <= |themes|
      invariant forall p :: p in counts <==> p in themes[..i]
      invariant forall p :: p in counts ==> counts[p] == multiset(themes[..i])[p]
    {
      var t := themes[i];
      assert themes[..i + 1] == themes[..i] + [t];
      counts := counts[t := if t in counts then counts[t] + 1 else 1];
      i := i + 1;
    }
    assert themes[..i] == themes;
  }

  /** Phrase `p` is among the selected pairs. */
  predicate Listed(top: seq<(string, nat)>, p: string)
  {
    exists j :: 0 <= j < |top| && top[j].0 == p
  }

  /** Appending a pair lists its phrase and keeps every phrase listed before. */
  lemma ListedSnoc(top: seq<(string, nat)>, x: (string, nat), p: string)
    ensures Listed(top + [x], p) <==> Listed(top, p) || x.0 == p
  {
    if Listed(top, p) {
      var j :| 0 <= j < |top| && top[j].0 == p;
      assert (top + [x])[j].0 == p;
    }
    assert (top + [x])[|top|] == x;
  }

  /**
   * A selection in progress: pairs of a phrase and its count, distinct and
   * by non-increasing count; the phrases not yet taken are exactly
   * `remaining`, and none of them is more frequent than a phrase taken.
   */
  predicate Selected(counts: map<string, nat>, top: seq<(string, nat)>, remaining: set<string>)
  {
    remaining <= counts.Keys &&
    (forall j :: 0 <= j < |top| ==> top[j].0 in counts && top[j].1 == counts[top[j].0]) &&
    (forall j, j' :: 0 <= j < j' < |top| ==> top[j].0 != top[j'].0 && top[j].1 >= top[j'].1) &&
    (forall p :: p in counts ==> (p in remaining <==> !Listed(top, p))) &&
    (forall p, j :: p in remaining && 0 <= j < |top| ==> counts[p] <= top[j].1)
  }

  /** Taking a most frequent remaining phrase extends a selection. */
  lemma SelectStep(counts: map<string, nat>, top: seq<(string, nat)>, remaining: set<string>, best: string)
    requires Selected(counts, top, remaining)
    requires best in remaining && forall q :: q in remaining ==> counts[q] <= counts[best]
    ensures Selected(counts, top + [(best, counts[best])], remaining - {best})
  {
    var top', rest := top + [(best, counts[best])], remaining - {best};
    forall j | 0 <= j < |top'|
      ensures top'[j].0 in counts && top'[j].1 == counts[top'[j].0]
    {
      if j < |top| {
        assert top'[j] == top[j];
      }
    }
    forall j, j' | 0 <= j < j' < |top'|
      ensures top'[j].0 != top'[j'].0 && top'[j].1 >= top'[j'].1
    {
      assert top'[j] == top[j];
      if j' < |top| {
        assert top'[j'] == top[j'];
      } else {
        assert Listed(top, top[j].0);
      }
    }
    forall p | p in counts
      ensures p in rest <==> !Listed(top', p)
    {
      ListedSnoc(top, (best, counts[best]), p);
    }
    forall p, j | p in rest && 0 <= j < |top'|
      ensures counts[p] <= top'[j].1
    {
      if j < |top| {
        assert top'[j] == top[j];
      }
    }
  }

  /** The `head(k)` of `value_counts`: `k` distinct phrases, by non-increasing count, none skipped that beats one taken. */
  method SelectTop(counts: map<string, nat>, k: nat) returns (top: seq<(string, nat)>)
    requires k <= |counts|
    ensures |top| == k
    ensures forall j :: 0 <= j < |top| ==> top[j].0 in counts && top[j].1 == counts[top[j].0]
    ensures forall j, j' :: 0 <= j < j' < |top| ==> top[j].0 != top[j'].0 && top[j].1 >= top[j'].1
    ensures forall p, j :: p in counts && !Listed(top, p) && 0 <= j < |top| ==> counts[p] <= top[j].1
  {
    var remaining := counts.Keys;
    top := [];
    while |top| < k
      invariant |top| <= k
      invariant |top| + |remaining| == |counts|
      invariant Selected(counts, top, remaining)
    {
      MaxExists(remaining, counts);
      var best :| best in remaining && forall q :: q in remaining ==> counts[q] <= counts[best];
      SelectStep(counts, top, remaining, best);
      top := top + [(best, counts[best])];
      remaining := remaining - {best};
    }
  }

  /**
   * `pd.Series(themes).value_counts().head(n)`: distinct phrases with their
   * counts, most frequent first, as many as `head(n)` keeps, and no phrase
   * left out is more frequent than one taken.
   */
  method TopThemes(themes: seq<string>, n: int) returns (top: seq<(string, nat)>)
    ensures |top| == TakeCount(n, |Distinct(themes)|)
    ensures forall j :: 0 <= j < |top| ==> top[j].0 in themes && top[j].1 == multiset(themes)[top[j].0]
    ensures forall j, j' :: 0 <= j < j' < |top| ==> top[j].0 != top[j'].0 && top[j].1 >= top[j'].1
    ensures forall p, j :: p in themes && !Listed(top, p) && 0 <= j < |top| ==> multiset(themes)[p] <= top[j].1
  {
    var counts := CountPhrases(themes);
    assert |counts| == |Distinct(themes)|;
    top := SelectTop(counts, TakeCount(n, |counts|));
  }
}
