/**
 * The comparison of one directory, `processDir` after the two files have
 * been chosen: both texts are unified and scored as a whole, questions 1 to
 * 50 are scored pair by pair, each algorithm's scores are averaged, and the
 * rows of the CSV report are assembled.
 */
module Report {
  import opened Wrappers
  import opened JsNumber
  import opened Ascii
  import opened EndOfLine
  import opened Segmenter
  import opened Comparison

  /** Questions `1` to `QuestionCount` are compared. */
  const QuestionCount: nat := 50

  /** A question number one of the two texts lacks: `similarity` then reads `undefined` and throws. */
  datatype Error = MissingQuestion(index: nat)

  /** `toFixed(2)`. */
  type Format = Num -> string

  /** Both texts hold question `i`, under the key `String(i)`. */
  predicate HasQuestion(sq: QuestionMap, tq: QuestionMap, i: nat) {
    Decimal(i) in sq && Decimal(i) in tq
  }

  /** Both texts hold every question from 1 to 50. */
  predicate HasAllQuestions(sq: QuestionMap, tq: QuestionMap) {
    forall i :: 1 <= i <= QuestionCount ==> Decimal(i) in sq && Decimal(i) in tq
  }

  /** `stats.questions` once every pair has been scored. */
  function QuestionScores(sq: QuestionMap, tq: QuestionMap, env: Env): (r: map<nat, Scores>)
    requires HasAllQuestions(sq, tq)
    ensures forall i :: i in r <==> 1 <= i <= QuestionCount
    ensures forall i :: 1 <= i <= QuestionCount ==> HasAlgorithms(r[i])
  {
    map i | 1 <= i <= QuestionCount :: Record(sq[Decimal(i)], tq[Decimal(i)], env)
  }

  /**
   * The loop over questions 1 to 50: it stops at the first number missing
   * from either text, and otherwise scores every pair.
   */
  method ScoreQuestions(sq: QuestionMap, tq: QuestionMap, env: Env) returns (r: Result<map<nat, Scores>, Error>)
    ensures r.Success? <==> HasAllQuestions(sq, tq)
    ensures r.Success? ==> r.value == QuestionScores(sq, tq, env)
    ensures r.Failure? ==>
      && 1 <= r.error.index <= QuestionCount
      && !HasQuestion(sq, tq, r.error.index)
      && forall j :: 1 <= j < r.error.index ==> HasQuestion(sq, tq, j)
  {
    var questions: map<nat, Scores> := map[];
    var i := 1;
    while i < QuestionCount + 1
      invariant 1 <= i <= QuestionCount + 1
      invariant forall j :: 1 <= j < i ==> Decimal(j) in sq && Decimal(j) in tq
      invariant questions == map j | 1 <= j < i :: Record(sq[Decimal(j)], tq[Decimal(j)], env)
    {
      if !HasQuestion(sq, tq, i) {
        return Failure(MissingQuestion(i));
      }
      var scores := Similarity(sq[Decimal(i)], tq[Decimal(i)], env);
      questions := questions[i := scores];
      i := i + 1;
    }
    r := Success(questions);
  }

  /** Every question 1 to 50 has a score under `algo`. */
  predicate Scored(questions: map<nat, Scores>, algo: Algorithm) {
    forall i :: 1 <= i <= QuestionCount ==> i in questions && algo in questions[i]
  }

  /** `0 + questions[1][algo] + ... + questions[n][algo]`, in key order. */
  function SumScores(questions: map<nat, Scores>, algo: Algorithm, n: nat): Num
    requires n <= QuestionCount && Scored(questions, algo)
  {
    if n == 0 then Finite(0.0) else Add(SumScores(questions, algo, n - 1), questions[n][algo])
  }

  /** `stats.average[algo]`: the sum divided by the number of questions. */
  function Average(questions: map<nat, Scores>, algo: Algorithm): Num
    requires Scored(questions, algo)
  {
    DivBy(SumScores(questions, algo, QuestionCount), QuestionCount)
  }

  /** `stats.average` over the given algorithms. */
  function AverageMap(questions: map<nat, Scores>, algorithms: seq<Algorithm>): (r: Scores)
    requires forall a :: a in algorithms ==> Scored(questions, a)
    ensures forall a :: a in r <==> a in algorithms
  {
    map a | a in algorithms :: Average(questions, a)
  }

  /** The nested averaging loops. */
  method Averages(questions: map<nat, Scores>, algorithms: seq<Algorithm>) returns (average: Scores)
    requires forall a :: a in algorithms ==> Scored(questions, a)
    ensures average == AverageMap(questions, algorithms)
  {
    average := map[];
    for k := 0 to |algorithms|
      invariant average == AverageMap(questions, algorithms[..k])
    {
      var algo := algorithms[k];
      assert Scored(questions, algo);
      var total := Finite(0.0);
      for key := 1 to QuestionCount + 1
        invariant total == SumScores(questions, algo, key - 1)
      {
        total := Add(total, questions[key][algo]);
      }
      average := average[algo := DivBy(total, QuestionCount)];
      assert algorithms[..k + 1] == algorithms[..k] + [algo];
    }
    assert algorithms[..|algorithms|] == algorithms;
  }

  /** A sum is NaN exactly when one of its terms is. */
  lemma {:induction false} SumNaNIff(questions: map<nat, Scores>, algo: Algorithm, n: nat)
    requires n <= QuestionCount && Scored(questions, algo)
    ensures SumScores(questions, algo, n).NaN? <==> exists i :: 1 <= i <= n && questions[i][algo].NaN?
  {
    if n > 0 {
      SumNaNIff(questions, algo, n - 1);
    }
  }

  /** A sum of percentages lies between 0 and 100 per term. */
  lemma {:induction false} SumInRange(questions: map<nat, Scores>, algo: Algorithm, n: nat)
    requires n <= QuestionCount && Scored(questions, algo)
    requires forall i :: 1 <= i <= n ==> InPercentRange(questions[i][algo])
    ensures SumScores(questions, algo, n).Finite?
    ensures 0.0 <= SumScores(questions, algo, n).value <= 100.0 * n as real
  {
    if n > 0 {
      SumInRange(questions, algo, n - 1);
    }
  }

  /** One NaN score, such as two empty questions under Levenshtein, makes the average NaN. */
  lemma AverageNaNIff(questions: map<nat, Scores>, algo: Algorithm)
    requires Scored(questions, algo)
    ensures Average(questions, algo).NaN? <==> exists i :: 1 <= i <= QuestionCount && questions[i][algo].NaN?
  {
    SumNaNIff(questions, algo, QuestionCount);
  }

  /** The average of percentages is a percentage. */
  lemma AverageInRange(questions: map<nat, Scores>, algo: Algorithm)
    requires Scored(questions, algo)
    requires forall i :: 1 <= i <= QuestionCount ==> InPercentRange(questions[i][algo])
    ensures InPercentRange(Average(questions, algo))
  {
    SumInRange(questions, algo, QuestionCount);
  }

  /** The property names in `Algorithms` order. */
  function Header(): (r: seq<string>)
    ensures |r| == |Algorithms|
  {
    seq(|Algorithms|, j requires 0 <= j < |Algorithms| => Name(Algorithms[j]))
  }

  /** A record's scores, formatted in `Algorithms` order. */
  function Formatted(scores: Scores, fmt: Format): (r: seq<string>)
    requires HasAlgorithms(scores)
    ensures |r| == |Algorithms|
  {
    seq(|Algorithms|, j requires 0 <= j < |Algorithms| => fmt(scores[Algorithms[j]]))
  }

  /** One row per question, labelled `1` to `50`, each with its formatted scores. */
  function QuestionRows(questions: map<nat, Scores>, fmt: Format): (r: seq<seq<string>>)
    requires forall i :: 1 <= i <= QuestionCount ==> i in questions && HasAlgorithms(questions[i])
    ensures |r| == QuestionCount
  {
    seq(QuestionCount, k requires 0 <= k < QuestionCount => [Decimal(k + 1)] + Formatted(questions[k + 1], fmt))
  }

  /**
   * The rows handed to `stringify`. The source-file row holds only the file
   * name: `('Source file', source)` is a comma expression.
   */
  function Table(source: string, target: string, files: Scores, average: Scores,
                 questions: map<nat, Scores>, fmt: Format): seq<seq<string>>
    requires HasAlgorithms(files) && HasAlgorithms(average)
    requires forall i :: 1 <= i <= QuestionCount ==> i in questions && HasAlgorithms(questions[i])
  {
    [["sep=,"], [source], ["Target file", target], [], [""] + Header(),
     ["Files"] + Formatted(files, fmt), ["Averages"] + Formatted(average, fmt)]
    + QuestionRows(questions, fmt)
  }

  /** A question row: its label, then the question's score under each algorithm, formatted. */
  lemma QuestionRowsShape(questions: map<nat, Scores>, fmt: Format)
    requires forall i :: 1 <= i <= QuestionCount ==> i in questions && HasAlgorithms(questions[i])
    ensures var rows := QuestionRows(questions, fmt);
      && (forall k :: 0 <= k < |rows| ==> |rows[k]| == 1 + |Algorithms| && rows[k][0] == Decimal(k + 1))
      && (forall k, j :: 0 <= k < |rows| && 1 <= j <= |Algorithms| ==> rows[k][j] == fmt(questions[k + 1][Algorithms[j - 1]]))
  {
  }

  /** The header rows: the source row, the property names and the two records' scores. */
  lemma HeaderRowsShape(source: string, target: string, files: Scores, average: Scores,
                        questions: map<nat, Scores>, fmt: Format)
    requires HasAlgorithms(files) && HasAlgorithms(average)
    requires forall i :: 1 <= i <= QuestionCount ==> i in questions && HasAlgorithms(questions[i])
    ensures var t := Table(source, target, files, average, questions, fmt);
      && |t| == 7 + QuestionCount
      && t[1] == [source]
      && t[4] == [""] + Header()
      && (forall r :: 4 <= r < 7 ==> |t[r]| == 1 + |Algorithms|)
      && (forall j :: 1 <= j <= |Algorithms| ==> t[4][j] == Name(Algorithms[j - 1]))
      && (forall j :: 1 <= j <= |Algorithms| ==>
            t[5][j] == fmt(files[Algorithms[j - 1]]) && t[6][j] == fmt(average[Algorithms[j - 1]]))
      && (forall r :: 7 <= r < |t| ==> t[r] == QuestionRows(questions, fmt)[r - 7])
  {
    var t := Table(source, target, files, average, questions, fmt);
    var head := [["sep=,"], [source], ["Target file", target], [], [""] + Header(),
                 ["Files"] + Formatted(files, fmt), ["Averages"] + Formatted(average, fmt)];
    var rows := QuestionRows(questions, fmt);
    assert t == head + rows;
    assert t[1] == head[1] && t[4] == head[4] && t[5] == head[5] && t[6] == head[6];
  }

  /**
   * The table has a header of seven rows and one row per question, labelled
   * `1` to `50` in ascending order; from the header row on every row has a
   * label and twelve cells, and each cell formats the score of the algorithm
   * named above it.
   */
  lemma TableShape(source: string, target: string, files: Scores, average: Scores,
                   questions: map<nat, Scores>, fmt: Format)
    requires HasAlgorithms(files) && HasAlgorithms(average)
    requires forall i :: 1 <= i <= QuestionCount ==> i in questions && HasAlgorithms(questions[i])
    ensures var t := Table(source, target, files, average, questions, fmt);
      && |t| == 7 + QuestionCount
      && t[1] == [source]
      && t[4] == [""] + Header()
      && (forall r :: 4 <= r < |t| ==> |t[r]| == 1 + |Algorithms|)
      && (forall j :: 1 <= j <= |Algorithms| ==> t[4][j] == Name(Algorithms[j - 1]))
      && (forall j :: 1 <= j <= |Algorithms| ==>
            t[5][j] == fmt(files[Algorithms[j - 1]]) && t[6][j] == fmt(average[Algorithms[j - 1]]))
      && (forall r :: 7 <= r < |t| ==> t[r][0] == Decimal(r - 6))
      && (forall r, j :: 7 <= r < |t| && 1 <= j <= |Algorithms| ==> t[r][j] == fmt(questions[r - 6][Algorithms[j - 1]]))
  {
    HeaderRowsShape(source, target, files, average, questions, fmt);
    QuestionRowsShape(questions, fmt);
  }

  /**
   * `processDir` from reading the two chosen files to the rows of the
   * report: the contents are parameters, and writing the file is left out.
   */
  method ProcessDir(source: string, target: string, sourceRaw: string, targetRaw: string,
                    env: Env, fmt: Format) returns (r: Result<seq<seq<string>>, Error>)
    ensures var sq, tq := GetQuestions(Unify(sourceRaw)), GetQuestions(Unify(targetRaw));
      && (r.Success? <==> HasAllQuestions(sq, tq))
      && (r.Success? ==>
            var questions := QuestionScores(sq, tq, env);
            r.value == Table(source, target, Record(Unify(sourceRaw), Unify(targetRaw), env),
                             AverageMap(questions, Algorithms), questions, fmt))
      && (r.Failure? ==>
            && 1 <= r.error.index <= QuestionCount
            && !HasQuestion(sq, tq, r.error.index)
            && forall j :: 1 <= j < r.error.index ==> HasQuestion(sq, tq, j))
  {
    var sourceText := Unify(sourceRaw);
    var targetText := Unify(targetRaw);
    var files := Similarity(sourceText, targetText, env);
    var sourceQuestions := GetQuestions(sourceText);
    var targetQuestions := GetQuestions(targetText);
    var scored := ScoreQuestions(sourceQuestions, targetQuestions, env);
    if scored.Failure? {
      return Failure(scored.error);
    }
    var questions := scored.value;
    var average := Averages(questions, Algorithms);
    r := Success(Table(source, target, files, average, questions, fmt));
  }
}
