/**
 * `cosineSimilarity`: the tokens of both lower-cased texts, a vocabulary of
 * their distinct tokens in first-seen order, one term-frequency vector per
 * text over that vocabulary, and the cosine of the angle between the two
 * vectors as a percentage, 0 when either vector is zero.
 *
 * `Math.sqrt` is a parameter: any function that is positive on positive
 * numbers keeps the division defined, and the bounds are proved for a
 * function that returns true square roots at the two norms.
 */
module Cosine {
  import opened Tokenizer

  /** The square-root parameter: positive on positive inputs. */
  type Sqrt = f: real -> real | forall x: real :: x > 0.0 ==> f(x) > 0.0
    witness (x: real) => if x > 0.0 then x else 0.0

  /**
   * `Array.from(new Set(xs))`: the first occurrence of each element, in order.
   * The contract states the elements and their distinctness but not that
   * order; nothing below depends on it, since the cosine of two vectors does
   * not change when their entries are permuted together.
   */
  function Dedup(xs: seq<string>): (r: seq<string>)
    ensures forall t :: t in r <==> t in xs
    ensures forall i, j :: 0 <= i < j < |r| ==> r[i] != r[j]
    decreases |xs|
  {
    if |xs| == 0 then []
    else
      var init := Dedup(xs[..|xs| - 1]);
      var last := xs[|xs| - 1];
      assert forall t :: t in xs <==> t in xs[..|xs| - 1] || t == last;
      if last in init then init else init + [last]
  }

  /** `vocabulary.indexOf(t)`: the first index holding `t`, or -1. */
  function IndexOf(v: seq<string>, t: string): (r: int)
    ensures -1 <= r < |v|
    ensures r == -1 <==> t !in v
    ensures r >= 0 ==> v[r] == t && forall j :: 0 <= j < r ==> v[j] != t
    decreases |v|
  {
    if |v| == 0 then -1
    else if v[0] == t then 0
    else
      var k := IndexOf(v[1..], t);
      if k == -1 then -1 else k + 1
  }

  /** How many of `tokens` have `indexOf` equal to `i`: the `i`-th entry of the vector. */
  function CountAt(tokens: seq<string>, v: seq<string>, i: int): nat
    decreases |tokens|
  {
    if |tokens| == 0 then 0
    else CountAt(tokens[..|tokens| - 1], v, i) + (if IndexOf(v, tokens[|tokens| - 1]) == i then 1 else 0)
  }

  /** The term-frequency vector of `tokens` over `v`. */
  function Tf(tokens: seq<string>, v: seq<string>): (r: seq<nat>)
    ensures |r| == |v|
  {
    seq(|v|, i requires 0 <= i < |v| => CountAt(tokens, v, i))
  }

  /** How often `t` occurs in `tokens`. */
  function Occurrences(tokens: seq<string>, t: string): nat
    decreases |tokens|
  {
    if |tokens| == 0 then 0
    else Occurrences(tokens[..|tokens| - 1], t) + (if tokens[|tokens| - 1] == t then 1 else 0)
  }

  /** Over a duplicate-free vocabulary, entry `i` counts the occurrences of word `i`. */
  lemma {:induction false} CountAtIsOccurrences(tokens: seq<string>, v: seq<string>, i: nat)
    requires i < |v| && forall j, k :: 0 <= j < k < |v| ==> v[j] != v[k]
    ensures CountAt(tokens, v, i) == Occurrences(tokens, v[i])
    decreases |tokens|
  {
    if |tokens| > 0 {
      CountAtIsOccurrences(tokens[..|tokens| - 1], v, i);
      var t := tokens[|tokens| - 1];
      if t == v[i] {
        assert IndexOf(v, t) == i;
      }
    }
  }

  /** `termFrequency(tokens, vocabulary)`: counts each token at its vocabulary index. */
  method TermFrequency(tokens: seq<string>, vocabulary: seq<string>) returns (tf: seq<nat>)
    ensures tf == Tf(tokens, vocabulary)
  {
    var a := new nat[|vocabulary|](_ => 0);
    var k := 0;
    while k < |tokens|
      invariant 0 <= k <= |tokens|
      invariant forall i :: 0 <= i < a.Length ==> a[i] == CountAt(tokens[..k], vocabulary, i)
    {
      assert tokens[..k + 1][..k] == tokens[..k];
      var index := IndexOf(vocabulary, tokens[k]);
      if index != -1 {
        a[index] := a[index] + 1;
      }
      k := k + 1;
    }
    assert tokens[..k] == tokens;
    tf := a[..];
  }

  /** The sum of the entries of a vector. */
  function Sum(xs: seq<nat>): nat {
    if |xs| == 0 then 0 else Sum(xs[..|xs| - 1]) + xs[|xs| - 1]
  }

  /** Entries per index of a sum-of-counts, peeled one token at a time. */
  lemma {:induction false} TfSnoc(tokens: seq<string>, t: string, v: seq<string>)
    ensures forall i :: 0 <= i < |v| ==>
      Tf(tokens + [t], v)[i] == Tf(tokens, v)[i] + (if IndexOf(v, t) == i then 1 else 0)
  {
    assert (tokens + [t])[..|tokens|] == tokens;
  }

  /** Adding one to entry `j` of a vector adds one to its sum. */
  lemma {:induction false} SumBump(xs: seq<nat>, ys: seq<nat>, j: nat)
    requires |xs| == |ys| && j < |xs|
    requires ys[j] == xs[j] + 1 && forall i :: 0 <= i < |xs| && i != j ==> ys[i] == xs[i]
    ensures Sum(ys) == Sum(xs) + 1
    decreases |xs|
  {
    var n := |xs| - 1;
    if j < n {
      SumBump(xs[..n], ys[..n], j);
    } else {
      assert xs[..n] == ys[..n];
    }
  }

  /** A vector over a vocabulary that holds every token sums to the number of tokens. */
  lemma {:induction false} SumTf(tokens: seq<string>, v: seq<string>)
    requires forall k :: 0 <= k < |tokens| ==> tokens[k] in v
    ensures Sum(Tf(tokens, v)) == |tokens|
    decreases |tokens|
  {
    if |tokens| == 0 {
      ZeroSum(Tf(tokens, v));
    } else {
      var init, t := tokens[..|tokens| - 1], tokens[|tokens| - 1];
      assert tokens == init + [t];
      SumTf(init, v);
      TfSnoc(init, t, v);
      SumBump(Tf(init, v), Tf(tokens, v), IndexOf(v, t));
    }
  }

  lemma {:induction false} ZeroSum(xs: seq<nat>)
    requires forall i :: 0 <= i < |xs| ==> xs[i] == 0
    ensures Sum(xs) == 0
  {
    if |xs| > 0 {
      ZeroSum(xs[..|xs| - 1]);
    }
  }

  /** `t` occurs in `tokens` exactly when it is counted at least once. */
  lemma {:induction false} OccurrencesPositive(tokens: seq<string>, t: string)
    ensures Occurrences(tokens, t) > 0 <==> t in tokens
    decreases |tokens|
  {
    if |tokens| > 0 {
      var init := tokens[..|tokens| - 1];
      assert tokens == init + [tokens[|tokens| - 1]];
      OccurrencesPositive(init, t);
    }
  }

  /** `sum_{i < n} a[i] * b[i]`, accumulated in index order as the loop does. */
  function Dot(a: seq<nat>, b: seq<nat>, n: nat): nat
    requires n <= |a| && n <= |b|
  {
    if n == 0 then 0 else Dot(a, b, n - 1) + a[n - 1] * b[n - 1]
  }

  /** The sum of squares of a vector. */
  function Norm(a: seq<nat>): nat {
    Dot(a, a, |a|)
  }

  /**
   * The cosine of the angle between two vectors of equal length, 0 when
   * either is the zero vector.
   */
  function Cosine(a: seq<nat>, b: seq<nat>, sqrt: Sqrt): (r: real)
    requires |a| == |b|
    ensures r >= 0.0
  {
    if Norm(a) == 0 || Norm(b) == 0 then 0.0 else Ratio(Dot(a, b, |a|), Norm(a), Norm(b), sqrt)
  }

  /** `dot / (sqrt(na) * sqrt(nb))` for positive norms. */
  function Ratio(dot: nat, na: nat, nb: nat, sqrt: Sqrt): (r: real)
    requires na > 0 && nb > 0
    ensures r >= 0.0
  {
    PositiveProduct(sqrt(na as real), sqrt(nb as real));
    dot as real / (sqrt(na as real) * sqrt(nb as real))
  }

  /** The loop of `cosineSimilarity2`: the dot product and both squared norms, accumulated together. */
  method Products(vecA: seq<nat>, vecB: seq<nat>) returns (dotProduct: nat, normA: nat, normB: nat)
    requires |vecA| == |vecB|
    ensures dotProduct == Dot(vecA, vecB, |vecA|) && normA == Norm(vecA) && normB == Norm(vecB)
  {
    dotProduct, normA, normB := 0, 0, 0;
    for i := 0 to |vecA|
      invariant dotProduct == Dot(vecA, vecB, i)
      invariant normA == Dot(vecA, vecA, i)
      invariant normB == Dot(vecB, vecB, i)
    {
      dotProduct := dotProduct + vecA[i] * vecB[i];
      normA := normA + vecA[i] * vecA[i];
      normB := normB + vecB[i] * vecB[i];
    }
  }

  /** `cosineSimilarity2(vecA, vecB)`: 0 when a norm is zero, otherwise the dot product over the product of the roots. */
  method CosineOfVectors(vecA: seq<nat>, vecB: seq<nat>, sqrt: Sqrt) returns (r: real)
    requires |vecA| == |vecB|
    ensures r == Cosine(vecA, vecB, sqrt)
  {
    var dotProduct, normA, normB := Products(vecA, vecB);
    if normA == 0 || normB == 0 {
      return 0.0;
    }
    r := Ratio(dotProduct, normA, normB, sqrt);
  }

  /** `sum_{i < n} (x * b[i] - y * a[i])^2`, never negative. */
  function CrossSquares(a: seq<nat>, b: seq<nat>, x: int, y: int, n: nat): (r: int)
    requires n <= |a| && n <= |b|
    ensures r >= 0
  {
    if n == 0 then 0
    else
      var e := x * b[n - 1] - y * a[n - 1];
      CrossSquares(a, b, x, y, n - 1) + e * e
  }

  /** One step of the expansion, on plain numbers. */
  lemma ExpandStep(p: int, a: int, b: int, c: int, x: int, y: int, u: int, v: int)
    requires p == x * x * b - 2 * x * y * c + y * y * a
    ensures p + (x * v - y * u) * (x * v - y * u) ==
            x * x * (b + v * v) - 2 * x * y * (c + u * v) + y * y * (a + u * u)
  {
  }

  /** The cross squares expand into the three sums of products. */
  lemma {:induction false} CrossSquaresExpand(a: seq<nat>, b: seq<nat>, x: int, y: int, n: nat)
    requires n <= |a| && n <= |b|
    ensures CrossSquares(a, b, x, y, n) ==
            x * x * Dot(b, b, n) - 2 * x * y * Dot(a, b, n) + y * y * Dot(a, a, n)
  {
    if n > 0 {
      CrossSquaresExpand(a, b, x, y, n - 1);
      ExpandStep(CrossSquares(a, b, x, y, n - 1), Dot(a, a, n - 1), Dot(b, b, n - 1), Dot(a, b, n - 1),
                 x, y, a[n - 1], b[n - 1]);
    }
  }

  /** One step of Cauchy-Schwarz, on plain numbers. */
  lemma SchwarzStep(a: int, b: int, c: int, u: int, v: int, cross: int)
    requires c * c <= a * b
    requires cross == u * u * b - 2 * u * v * c + v * v * a && cross >= 0
    ensures (c + u * v) * (c + u * v) <= (a + u * u) * (b + v * v)
  {
  }

  /** Cauchy-Schwarz: the squared dot product is at most the product of the norms. */
  lemma {:induction false} CauchySchwarz(a: seq<nat>, b: seq<nat>, n: nat)
    requires n <= |a| && n <= |b|
    ensures Dot(a, b, n) * Dot(a, b, n) <= Dot(a, a, n) * Dot(b, b, n)
  {
    if n > 0 {
      CauchySchwarz(a, b, n - 1);
      var u, v := a[n - 1], b[n - 1];
      CrossSquaresExpand(a, b, u, v, n - 1);
      SchwarzStep(Dot(a, a, n - 1), Dot(b, b, n - 1), Dot(a, b, n - 1), u, v, CrossSquares(a, b, u, v, n - 1));
    }
  }

  /** `sqrt` returns true square roots at `x`. */
  predicate RootAt(sqrt: Sqrt, x: real) {
    sqrt(x) * sqrt(x) == x
  }

  /** A product of two positive numbers is positive. */
  lemma PositiveProduct(x: real, y: real)
    requires x > 0.0 && y > 0.0
    ensures x * y > 0.0
  {
  }

  /** Squaring is strictly monotone on positive numbers. */
  lemma SquareMonotone(d: real, c: real)
    requires 0.0 < d < c
    ensures d * d < c * c
  {
    var e := c - d;
    assert c * c == d * d + 2.0 * d * e + e * e;
    assert d * e > 0.0;
    assert e * e > 0.0;
  }
  /** Taking an integer product as a real is the product of the reals. */
  lemma CastMul(x: int, y: int)
    ensures (x * y) as real == x as real * y as real
  {
  }
  /** A quotient whose numerator is at most its positive denominator is at most one. */
  lemma QuotientAtMostOne(c: real, d: real)
    requires 0.0 <= c <= d && d > 0.0
    ensures c / d <= 1.0
  {
    assert c / d * d == c;
  }
  /** A non-negative number whose square is at most `d * d`, for positive `d`, is at most `d`. */
  lemma AtMostRoot(x: real, d: real, y: real)
    requires x >= 0.0 && d > 0.0 && x * x <= y && d * d == y
    ensures x <= d
  {
    if x > d {
      SquareMonotone(d, x);
    }
  }

  /** The product of two roots is a root of the product. */
  lemma RootProduct(sa: real, sb: real, a: real, b: real)
    requires sa * sa == a && sb * sb == b
    ensures (sa * sb) * (sa * sb) == a * b
  {
    assert (sa * sb) * (sa * sb) == (sa * sa) * (sb * sb);
  }

  /** An integer bound on products carries over to the reals. */
  lemma CastBound(c: nat, na: nat, nb: nat)
    requires c * c <= na * nb
    ensures c as real * c as real <= na as real * nb as real
  {
    CastMul(c, c);
    CastMul(na, nb);
  }

  /** A non-negative `x` over the positive root `sa * sb` of a bound on `x * x` is at most one. */
  lemma QuotientBound(x: real, sa: real, sb: real, y: real)
    requires x >= 0.0 && sa > 0.0 && sb > 0.0
    requires x * x <= y && (sa * sb) * (sa * sb) == y
    ensures x / (sa * sb) <= 1.0
  {
    PositiveProduct(sa, sb);
    AtMostRoot(x, sa * sb, y);
    QuotientAtMostOne(x, sa * sb);
  }

  /** From `c * c <= na * nb` and the roots of `na` and `nb`, `c / (sqrt na * sqrt nb) <= 1`. */
  lemma RatioBound(c: nat, na: nat, nb: nat, sqrt: Sqrt)
    requires c * c <= na * nb && na > 0 && nb > 0
    requires RootAt(sqrt, na as real) && RootAt(sqrt, nb as real)
    ensures Ratio(c, na, nb, sqrt) <= 1.0
  {
    var sa, sb := sqrt(na as real), sqrt(nb as real);
    assert Ratio(c, na, nb, sqrt) == c as real / (sa * sb);
    RootProduct(sa, sb, na as real, nb as real);
    CastBound(c, na, nb);
    QuotientBound(c as real, sa, sb, na as real * nb as real);
  }

  /** With true square roots, the cosine of two non-negative vectors lies in [0, 1]. */
  lemma CosineAtMostOne(a: seq<nat>, b: seq<nat>, sqrt: Sqrt)
    requires |a| == |b|
    requires RootAt(sqrt, Norm(a) as real) && RootAt(sqrt, Norm(b) as real)
    ensures 0.0 <= Cosine(a, b, sqrt) <= 1.0
  {
    if Norm(a) != 0 && Norm(b) != 0 {
      CauchySchwarz(a, b, |a|);
      RatioBound(Dot(a, b, |a|), Norm(a), Norm(b), sqrt);
    }
  }

  /** A sum of products of naturals is zero exactly when every product is. */
  lemma {:induction false} DotZeroIff(a: seq<nat>, b: seq<nat>, n: nat)
    requires n <= |a| && n <= |b|
    ensures Dot(a, b, n) == 0 <==> forall i :: 0 <= i < n ==> a[i] == 0 || b[i] == 0
  {
    if n > 0 {
      DotZeroIff(a, b, n - 1);
    }
  }

  /** The cosine is zero exactly when the dot product is. */
  lemma CosineZeroIff(a: seq<nat>, b: seq<nat>, sqrt: Sqrt)
    requires |a| == |b|
    ensures Cosine(a, b, sqrt) == 0.0 <==> Dot(a, b, |a|) == 0
  {
    DotZeroIff(a, b, |a|);
    DotZeroIff(a, a, |a|);
    DotZeroIff(b, b, |b|);
    if Norm(a) != 0 && Norm(b) != 0 {
      RatioZeroIff(Dot(a, b, |a|), Norm(a), Norm(b), sqrt);
    }
  }

  lemma RatioZeroIff(dot: nat, na: nat, nb: nat, sqrt: Sqrt)
    requires na > 0 && nb > 0
    ensures Ratio(dot, na, nb, sqrt) == 0.0 <==> dot == 0
  {
    var d := sqrt(na as real) * sqrt(nb as real);
    PositiveProduct(sqrt(na as real), sqrt(nb as real));
    assert Ratio(dot, na, nb, sqrt) * d == dot as real;
  }

  /** With a true square root, a non-zero vector has cosine 1 with itself. */
  lemma RatioSelf(n: nat, sqrt: Sqrt)
    requires n > 0 && RootAt(sqrt, n as real)
    ensures Ratio(n, n, n, sqrt) == 1.0
  {
    var r := sqrt(n as real);
    assert r * r == n as real;
    assert Ratio(n, n, n, sqrt) == n as real / (r * r);
    assert n as real / (n as real) == 1.0;
  }

  /** Entry `i` of a vector over a duplicate-free vocabulary is positive exactly when word `i` is a token. */
  lemma TfPositiveIff(tokens: seq<string>, v: seq<string>, i: nat)
    requires i < |v| && forall j, k :: 0 <= j < k < |v| ==> v[j] != v[k]
    ensures Tf(tokens, v)[i] > 0 <==> v[i] in tokens
  {
    CountAtIsOccurrences(tokens, v, i);
    OccurrencesPositive(tokens, v[i]);
  }

  /** The vocabulary of both texts: their tokens, each once, in first-seen order. */
  function Vocabulary(tokens1: seq<string>, tokens2: seq<string>): (v: seq<string>)
    ensures forall t :: t in v <==> t in tokens1 || t in tokens2
    ensures forall j, k :: 0 <= j < k < |v| ==> v[j] != v[k]
  {
    Dedup(tokens1 + tokens2)
  }

  /** `sqrt` returns true square roots of non-negative numbers. */
  ghost predicate IsSquareRoot(sqrt: Sqrt) {
    forall x: real :: x >= 0.0 ==> sqrt(x) * sqrt(x) == x
  }

  /** The value `cosineSimilarity(text1, text2)` returns. */
  function Score(text1: string, text2: string, sqrt: Sqrt): real {
    var tokens1, tokens2 := Tokens(text1), Tokens(text2);
    var v := Vocabulary(tokens1, tokens2);
    Cosine(Tf(tokens1, v), Tf(tokens2, v), sqrt) * 100.0
  }

  /** `cosineSimilarity(text1, text2)`. */
  method CosineSimilarity(text1: string, text2: string, sqrt: Sqrt) returns (r: real)
    ensures r == Score(text1, text2, sqrt)
  {
    var tokens1 := Tokens(text1);
    var tokens2 := Tokens(text2);
    var vocabulary := Vocabulary(tokens1, tokens2);
    var vectorA := TermFrequency(tokens1, vocabulary);
    var vectorB := TermFrequency(tokens2, vocabulary);
    var similarity := CosineOfVectors(vectorA, vectorB, sqrt);
    r := similarity * 100.0;
  }

  /** With true square roots the score is a percentage. */
  lemma ScoreInRange(text1: string, text2: string, sqrt: Sqrt)
    requires IsSquareRoot(sqrt)
    ensures 0.0 <= Score(text1, text2, sqrt) <= 100.0
  {
    var tokens1, tokens2 := Tokens(text1), Tokens(text2);
    var v := Vocabulary(tokens1, tokens2);
    var a, b := Tf(tokens1, v), Tf(tokens2, v);
    assert RootAt(sqrt, Norm(a) as real) && RootAt(sqrt, Norm(b) as real);
    CosineAtMostOne(a, b, sqrt);
  }

  /** Over the vocabulary of two token lists, the cosine is zero exactly when they share no token. */
  lemma CosineZeroIffDisjoint(tokens1: seq<string>, tokens2: seq<string>, sqrt: Sqrt)
    ensures var v := Vocabulary(tokens1, tokens2);
            Cosine(Tf(tokens1, v), Tf(tokens2, v), sqrt) == 0.0 <==> forall t :: t in tokens1 ==> t !in tokens2
  {
    var v := Vocabulary(tokens1, tokens2);
    var a, b := Tf(tokens1, v), Tf(tokens2, v);
    CosineZeroIff(a, b, sqrt);
    DotZeroIff(a, b, |a|);
    forall i | 0 <= i < |v| ensures (a[i] == 0 || b[i] == 0) <==> !(v[i] in tokens1 && v[i] in tokens2) {
      TfPositiveIff(tokens1, v, i);
      TfPositiveIff(tokens2, v, i);
    }
    if t :| t in tokens1 && t in tokens2 {
      assert t in v;
      var i :| 0 <= i < |v| && v[i] == t;
      assert !(a[i] == 0 || b[i] == 0);
    }
  }

  /** The score is zero exactly when the texts share no token. */
  lemma ScoreZeroIff(text1: string, text2: string, sqrt: Sqrt)
    ensures Score(text1, text2, sqrt) == 0.0 <==> forall t :: t in Tokens(text1) ==> t !in Tokens(text2)
  {
    CosineZeroIffDisjoint(Tokens(text1), Tokens(text2), sqrt);
  }

  /** With true square roots, a text scores 100 against itself when it has a token, and 0 otherwise. */
  lemma ScoreToItself(text: string, sqrt: Sqrt)
    requires IsSquareRoot(sqrt)
    ensures Score(text, text, sqrt) == if |Tokens(text)| > 0 then 100.0 else 0.0
  {
    var tokens := Tokens(text);
    var v := Vocabulary(tokens, tokens);
    var a := Tf(tokens, v);
    DotZeroIff(a, a, |a|);
    if |tokens| > 0 {
      assert tokens[0] in v;
      var i :| 0 <= i < |v| && v[i] == tokens[0];
      TfPositiveIff(tokens, v, i);
      assert RootAt(sqrt, Norm(a) as real);
      RatioSelf(Norm(a), sqrt);
    }
  }
}
