/**
 * `similarity(text1, text2)`: one record holding every score of a pair of
 * texts, under twelve property names. Three scores are computed by the
 * engine itself; the other nine come from the string-comparison library,
 * scaled to percentages.
 */
module Comparison {
  import opened JsNumber
  import Levenshtein
  import Jaccard
  import Cosine
  import Tokenizer

  /** The library's `similarity(text1, text2)` for each algorithm name. */
  type Library = (string, string, string) -> Num

  /** What the record depends on besides the two texts. */
  datatype Env = Env(library: Library, sqrt: Cosine.Sqrt)

  /** The twelve properties of the record, one per score. */
  datatype Algorithm =
    | LevenshteinScore | JaccardScore | CosineScore
    | NpmCosine | NpmDiceCoefficient | NpmJaccardIndex | NpmLevenshtein
    | NpmLcs | NpmLongestCommonSubsequence | NpmMlcs | NpmMetricLcs | NpmJaroWinkler

  /** The property name, as it appears in the header row of the report. */
  function Name(a: Algorithm): string {
    match a
    case LevenshteinScore => "levenshtein"
    case JaccardScore => "jaccard"
    case CosineScore => "cosine"
    case NpmCosine => "npm_cosine"
    case NpmDiceCoefficient => "npm_diceCoefficient"
    case NpmJaccardIndex => "npm_jaccardIndex"
    case NpmLevenshtein => "npm_levenshtein"
    case NpmLcs => "npm_lcs"
    case NpmLongestCommonSubsequence => "npm_longestCommonSubsequence"
    case NpmMlcs => "npm_mlcs"
    case NpmMetricLcs => "npm_metricLcs"
    case NpmJaroWinkler => "npm_jaroWinkler"
  }

  /** A record of scores by property. */
  type Scores = map<Algorithm, Num>

  /** The properties in the order the record literal writes them, which is the order of `Object.keys`. */
  const Algorithms: seq<Algorithm> := [
    LevenshteinScore, JaccardScore, CosineScore,
    NpmCosine, NpmDiceCoefficient, NpmJaccardIndex, NpmLevenshtein,
    NpmLcs, NpmLongestCommonSubsequence, NpmMlcs, NpmMetricLcs, NpmJaroWinkler]

  /** A library score as a percentage. */
  function Npm(env: Env, name: string, text1: string, text2: string): Num {
    Scale(env.library(name, text1, text2), 100.0)
  }

  /** A record holds a score under every property. */
  predicate HasAlgorithms(scores: Scores) {
    forall a :: a in Algorithms ==> a in scores
  }

  /** The score stored under property `a`. */
  function Value(a: Algorithm, text1: string, text2: string, env: Env): Num {
    match a
    case LevenshteinScore => Levenshtein.Similarity(text1, text2)
    case JaccardScore => Jaccard.Similarity(text1, text2)
    case CosineScore => Finite(Cosine.Score(text1, text2, env.sqrt))
    case NpmCosine => Npm(env, "cosine", text1, text2)
    case NpmDiceCoefficient => Npm(env, "diceCoefficient", text1, text2)
    case NpmJaccardIndex => Npm(env, "jaccardIndex", text1, text2)
    case NpmLevenshtein => Npm(env, "levenshtein", text1, text2)
    case NpmLcs => Npm(env, "lcs", text1, text2)
    case NpmLongestCommonSubsequence => Npm(env, "longestCommonSubsequence", text1, text2)
    case NpmMlcs => Npm(env, "mlcs", text1, text2)
    case NpmMetricLcs => Npm(env, "metricLcs", text1, text2)
    case NpmJaroWinkler => Npm(env, "jaroWinkler", text1, text2)
  }

  /** The record `similarity(text1, text2)` returns. */
  function Record(text1: string, text2: string, env: Env): (r: Scores)
    ensures HasAlgorithms(r)
  {
    map a | a in Algorithms :: Value(a, text1, text2, env)
  }

  /** `similarity(text1, text2)`; the cosine score takes loops, so this is a method. */
  method Similarity(text1: string, text2: string, env: Env) returns (r: Scores)
    ensures r == Record(text1, text2, env)
  {
    var cosine := Cosine.CosineSimilarity(text1, text2, env.sqrt);
    var record := Record(text1, text2, env);
    assert record[CosineScore] == Finite(cosine);
    r := record[CosineScore := Finite(cosine)];
  }

  /** The engine's three entries of the record. */
  lemma OwnEntries(text1: string, text2: string, env: Env)
    ensures Record(text1, text2, env)[LevenshteinScore] == Levenshtein.Similarity(text1, text2)
    ensures Record(text1, text2, env)[JaccardScore] == Jaccard.Similarity(text1, text2)
    ensures Record(text1, text2, env)[CosineScore] == Finite(Cosine.Score(text1, text2, env.sqrt))
  {
  }

  /**
   * The record has exactly the twelve properties, `Algorithms` lists each
   * once, so it is the order of `Object.keys`, and distinct properties have
   * distinct names.
   */
  lemma RecordKeys(text1: string, text2: string, env: Env)
    ensures |Algorithms| == 12
    ensures forall i, j :: 0 <= i < j < |Algorithms| ==> Algorithms[i] != Algorithms[j]
    ensures forall k :: k in Record(text1, text2, env) <==> k in Algorithms
    ensures HasAlgorithms(Record(text1, text2, env))
    ensures forall a, b :: Name(a) == Name(b) ==> a == b
  {
  }

  /**
   * The engine's own scores are percentages: Levenshtein and Jaccard
   * whenever they are not NaN, and cosine when `sqrt` is a true root.
   */
  lemma OwnScoresInRange(text1: string, text2: string, env: Env)
    requires Cosine.IsSquareRoot(env.sqrt)
    ensures var r := Record(text1, text2, env);
            && (r[LevenshteinScore].Finite? ==> InPercentRange(r[LevenshteinScore]))
            && (r[JaccardScore].Finite? ==> InPercentRange(r[JaccardScore]))
            && InPercentRange(r[CosineScore])
  {
    OwnEntries(text1, text2, env);
    Cosine.ScoreInRange(text1, text2, env.sqrt);
  }

  /**
   * A text compared with itself: Levenshtein gives 100 unless it is empty,
   * Jaccard and cosine give 100 when it has a token.
   */
  lemma OwnScoresToItself(text: string, env: Env)
    requires Cosine.IsSquareRoot(env.sqrt)
    ensures var r := Record(text, text, env);
            && (|text| > 0 ==> r[LevenshteinScore] == Finite(100.0))
            && (|Tokenizer.Tokens(text)| > 0 ==> r[JaccardScore] == Finite(100.0) && r[CosineScore] == Finite(100.0))
  {
    OwnEntries(text, text, env);
    if |Tokenizer.Tokens(text)| > 0 {
      Jaccard.SimilarityToItself(text);
    }
    Cosine.ScoreToItself(text, env.sqrt);
  }
}
