/**
 * `jaccardSimilarity`: the sets of tokens of the two texts, and the size of
 * their intersection over the size of their union, as a percentage.
 */
module Jaccard {
  import opened JsNumber
  import opened Ascii
  import opened Tokenizer

  /** `new Set(tokens)`: the distinct tokens of a text. */
  function TokenSet(text: string): (r: set<string>)
    ensures forall t :: t in r <==> t in Tokens(text)
  {
    set t | t in Tokens(text)
  }

  /**
   * The set holds non-empty lower-case words, and it is empty exactly when
   * the text holds no word character.
   */
  lemma TokenSetShape(text: string)
    ensures forall t :: t in TokenSet(text) ==> |t| > 0 && IsWord(t) && forall j :: 0 <= j < |t| ==> !IsUpper(t[j])
    ensures TokenSet(text) == {} <==> forall i :: 0 <= i < |text| ==> !IsWordChar(text[i])
  {
    HasTokenIff(text);
    if |Tokens(text)| > 0 {
      assert Tokens(text)[0] in TokenSet(text);
    }
  }

  /** A subset is never larger, and is the same set only when it is as large. */
  lemma SubsetSize<T>(a: set<T>, b: set<T>)
    requires a <= b
    ensures |a| <= |b|
    ensures |a| == |b| ==> a == b
  {
    assert a * b == a;
    assert b == a + (b - a);
    if |a| == |b| {
      assert |b - a| == 0;
    }
  }

  /**
   * `jaccardSimilarity(text1, text2)`: NaN when neither text has a token
   * (0 / 0), otherwise a percentage that is 100 exactly when the two token
   * sets coincide and 0 exactly when they are disjoint.
   */
  function Similarity(text1: string, text2: string): (r: Num)
    ensures r.NaN? <==> TokenSet(text1) + TokenSet(text2) == {}
    ensures r.Finite? ==> InPercentRange(r)
    ensures r.Finite? ==> (r.value == 100.0 <==> TokenSet(text1) == TokenSet(text2))
    ensures r.Finite? ==> (r.value == 0.0 <==> TokenSet(text1) * TokenSet(text2) == {})
  {
    var t1, t2 := TokenSet(text1), TokenSet(text2);
    var intersection, union := t1 * t2, t1 + t2;
    SubsetSize(intersection, union);
    assert intersection == union ==> t1 == t2;
    Percent(|intersection|, |union|)
  }

  /** Comparing `b` with `a` gives the same score as comparing `a` with `b`. */
  lemma SimilaritySymmetric(a: string, b: string)
    ensures Similarity(a, b) == Similarity(b, a)
  {
    assert TokenSet(a) * TokenSet(b) == TokenSet(b) * TokenSet(a);
    assert TokenSet(a) + TokenSet(b) == TokenSet(b) + TokenSet(a);
  }

  /** The score does not depend on the case of either text. */
  lemma SimilarityIgnoresCase(a: string, b: string)
    ensures Similarity(ToLower(a), ToLower(b)) == Similarity(a, b)
  {
    TokensIgnoreCase(a);
    TokensIgnoreCase(b);
  }

  /** Whole words are compared, not letters: `ab` and `ba` share no token. */
  lemma SwappedLettersScoreZero()
    ensures Similarity("ab", "ba") == Finite(0.0)
  {
    TokensOfWord("ab");
    TokensOfWord("ba");
    assert ToLower("ab") == "ab" && ToLower("ba") == "ba";
    assert TokenSet("ab") == {"ab"} && TokenSet("ba") == {"ba"};
  }

  /** A text with at least one token is 100% similar to itself. */
  lemma SimilarityToItself(text: string)
    requires |Tokens(text)| > 0
    ensures Similarity(text, text) == Finite(100.0)
  {
    assert Tokens(text)[0] in TokenSet(text);
  }
}
