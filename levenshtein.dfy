/**
 * `levenshteinSimilarity`: the share of the longer text that survives the
 * edit distance, as a percentage, `((L - d) / L) * 100` with `L` the larger
 * length. The distance itself is the classic edit distance (insertions,
 * deletions and substitutions of one character, each costing one), given by
 * its recursive definition.
 */
module Levenshtein {
  import opened JsNumber

  function Min(x: nat, y: nat): nat {
    if x <= y then x else y
  }

  function Max(x: nat, y: nat): nat {
    if x >= y then x else y
  }

  /** The edit distance between `a` and `b`. */
  function Distance(a: string, b: string): nat
    decreases |a| + |b|
  {
    if |a| == 0 then |b|
    else if |b| == 0 then |a|
    else
      Min(Min(Distance(a[1..], b) + 1, Distance(a, b[1..]) + 1),
          Distance(a[1..], b[1..]) + (if a[0] == b[0] then 0 else 1))
  }

  /** Replacing every character of the shorter text and inserting the rest always suffices. */
  lemma {:induction false} DistanceAtMostLonger(a: string, b: string)
    ensures Distance(a, b) <= Max(|a|, |b|)
    decreases |a| + |b|
  {
    if |a| > 0 && |b| > 0 {
      DistanceAtMostLonger(a[1..], b[1..]);
    }
  }

  /** At least the difference in length must be inserted or deleted. */
  lemma {:induction false} DistanceAtLeastLengthGap(a: string, b: string)
    ensures Distance(a, b) >= |a| - |b| && Distance(a, b) >= |b| - |a|
    decreases |a| + |b|
  {
    if |a| > 0 && |b| > 0 {
      DistanceAtLeastLengthGap(a[1..], b);
      DistanceAtLeastLengthGap(a, b[1..]);
      DistanceAtLeastLengthGap(a[1..], b[1..]);
    }
  }

  /** The distance does not depend on the order of its arguments. */
  lemma {:induction false} DistanceSymmetric(a: string, b: string)
    ensures Distance(a, b) == Distance(b, a)
    decreases |a| + |b|
  {
    if |a| > 0 && |b| > 0 {
      DistanceSymmetric(a[1..], b);
      DistanceSymmetric(a, b[1..]);
      DistanceSymmetric(a[1..], b[1..]);
    }
  }

  /** Only equal texts are at distance zero. */
  lemma {:induction false} DistanceZeroIff(a: string, b: string)
    ensures Distance(a, b) == 0 <==> a == b
    decreases |a| + |b|
  {
    if |a| > 0 && |b| > 0 {
      DistanceZeroIff(a[1..], b[1..]);
      if a == b {
        assert a[1..] == b[1..];
      }
      if Distance(a, b) == 0 {
        assert a == [a[0]] + a[1..] && b == [b[0]] + b[1..];
      }
    }
  }

  /**
   * `levenshteinSimilarity(text1, text2)`: NaN when both texts are empty
   * (0 / 0), otherwise a percentage that is 100 exactly for equal texts.
   */
  function Similarity(text1: string, text2: string): (r: Num)
    ensures r.NaN? <==> |text1| == 0 && |text2| == 0
    ensures r.Finite? ==> InPercentRange(r)
    ensures r.Finite? ==> (r.value == 100.0 <==> text1 == text2)
  {
    var d := Distance(text1, text2);
    var len := Max(|text1|, |text2|);
    DistanceAtMostLonger(text1, text2);
    DistanceZeroIff(text1, text2);
    Percent(len - d, len)
  }

  /** Comparing `b` with `a` gives the same score as comparing `a` with `b`. */
  lemma SimilaritySymmetric(a: string, b: string)
    ensures Similarity(a, b) == Similarity(b, a)
  {
    DistanceSymmetric(a, b);
  }
}
