# Text-comparison engine and answer-file producer, in Dafny

This project models the computational core of a small research tool. The
tool compares a source transcript with a target transcript, and it produces
those transcripts by asking AI engines to read photographed handwriting.

- **Comparison** (`src/similarity.js`):
  - both texts get their line endings unified (`eol`);
  - they are cut into numbered questions (`getQuestions`);
  - the whole texts are scored, and so is each pair of questions 1 to 50
    (`similarity`). A score record has twelve properties: the engine's
    own Levenshtein, Jaccard and cosine percentages, and nine scores of a
    string-comparison library;
  - each property is averaged over the 50 questions, and the rows of a CSV
    report are assembled.
- **Question reader** (`src/utils.js`): `unifyEol` and `getQuestions` on
  the text of a file.
- **Answer producer** (`src/ai.js`):
  - `processImage` reads an image's id from its file name, keeps every
    engine's reply as `eol(message).trim()`, and adds the reply's token
    usage to the engine's running totals;
  - `processDir` collects the responses, sorts them by id in place, and
    writes one answer file per engine: `id. answer` blocks joined by blank
    lines. This is the layout the question segmenter reads back.

Modules follow the source:

- `EndOfLine` covers `eol`/`unifyEol`.
- `Segmenter` (with `Layout` for the read-back lemmas) covers
  `getQuestions`; `Utils` covers the `src/utils.js` entry point.
- `Tokenizer`, `Levenshtein`, `Jaccard`, `Cosine` and `Comparison` cover
  the metrics and the record.
- `Report` covers the scoring, averages and table of `processDir`.
- `AnswerText` covers the `src/ai.js` variant of `eol` and the kept
  answer.
- `ImageNames` covers the id pattern.
- `TokenUsage` covers engines and their totals.
- `Engines` covers `processImage`.
- `ResponseOrder` covers the in-place sort.
- `Answers` covers `processDir` of `src/ai.js`.
- `Wrappers`, `JsNumber` and `Ascii` hold shared definitions.

Scores are `JsNumber.Num`, a real number or `NaN`. `NaN` models the `0 / 0`
of the Levenshtein and Jaccard metrics and the way it spreads through sums
and averages.

Three behaviours of the code are easy to miss:

- **Missing question.** A question number missing from either text makes
  `similarity(undefined, …)` throw in the code. The model returns
  `MissingQuestion(i)` for the first such number. It is not treated as an
  empty text.
- **Empty texts.** Two empty texts give `NaN` for Levenshtein, not 100.
  The same holds for Jaccard when neither text has a token.
- **Blank lines in answers.** The `src/ai.js` `eol` halves runs of line
  feeds rather than removing blank lines. A reply holding three line feeds
  in a row therefore keeps a blank line (`AnswerText.TripleKeepsBlankLine`).
  The read-back lemmas assume no reply does (`Answers.PlainReplies`).

## Model

| member | source | states |
|---|---|---|
| EndOfLine.Unify | src/similarity.js:21 | the unified text holds no `\r` and is never longer than the input |
| EndOfLine.UnifyIsOnePass | src/utils.js:193-194 | the two chained replacements equal one left-to-right pass that turns each `\r\n` and each lone `\r` into a single `\n` and keeps every other character |
| EndOfLine.UnifyIdempotent | src/similarity.js:21 | unifying twice gives the same text as unifying once |
| EndOfLine.UnifyWithoutCr | src/utils.js:193-194 | text without `\r` is returned unchanged |
| EndOfLine.ReplaceCrLf | src/utils.js:194 | the first replacement never lengthens the text and changes nothing without `\r` |
| EndOfLine.ReplaceCrConcat | src/utils.js:194 | replacing lone `\r` distributes over concatenation |
| Ascii.Trim | src/similarity.js:174 | `trim` leaves no leading or trailing whitespace |
| Ascii.TrimIsSlice | src/similarity.js:174 | what `trim` keeps is a contiguous slice of its input |
| Ascii.TrimOfTrimmed | src/similarity.js:174 | `trim` leaves already-trimmed text alone |
| Ascii.TrimKeepsNoBlankLine | src/similarity.js:174 | trimming text without a blank line cannot create one |
| Ascii.TrimKeepsAbsentChar | src/similarity.js:174 | trimming never introduces a character absent from the input |
| Ascii.ToLowerIdempotent | src/similarity.js:253 | lower-casing twice is lower-casing once, and text without upper-case letters is left unchanged |
| Ascii.LowerChar | src/similarity.js:253 | a lowered character is not upper-case and is a word character exactly when the original is |
| Ascii.Decimal | src/ai.js:209 | the decimal rendering of an id is a non-empty digit string |
| Ascii.DecimalRoundTrip | src/ai.js:241 | reading back the decimal rendering of a number gives the number |
| Ascii.DecimalInjective | src/ai.js:209 | different ids are written as different digit strings |
| Ascii.JoinLength | src/ai.js:208-210 | joining n blocks adds exactly n - 1 separators and nothing else |
| Ascii.JoinThenSeparator | src/ai.js:210 | a join followed by one more separator terminates every element |
| Segmenter.DigitRunSpec | src/similarity.js:168 | the `(\d+)` group is the maximal run of digits at the match start |
| Segmenter.DigitRun | src/similarity.js:168 | the length of the `(\d+)` group starting at a position; never runs past the text. Maximality is Segmenter.DigitRunSpec |
| Segmenter.FindBlankSpec | src/similarity.js:168 | the lazy body stops at the first blank line after the item start, and there is no match when no blank line follows |
| Segmenter.FindBlank | src/similarity.js:168 | where the lazy `([\s\S]*?)` stops: a blank line at or after the body start that fits in the text. That it is the first is Segmenter.FindBlankSpec |
| Segmenter.MatchAtSpec | src/similarity.js:168 | a match starts at p exactly when a maximal digit run followed by `. ` starts there and a blank line follows. Its key is the whole digit run. Its body runs up to the first blank line, which is consumed |
| Segmenter.MatchAt | src/similarity.js:168 | the one-position match of `(\d+)\. ([\s\S]*?)(\n\n)`: key, lazy body and resume point, pinned down by Segmenter.MatchAtSpec |
| Segmenter.MatchBodyHasNoBlankLine | src/similarity.js:168 | a lazily taken body holds no `\n\n`, even with a line feed appended |
| Segmenter.ScanShape | src/similarity.js:167-169 | every match found has a non-empty digit key and a body without a blank line |
| Segmenter.ScanAvoids | src/similarity.js:167-169 | a character absent from the text is absent from every body found |
| Segmenter.ScanEmptyIff | src/similarity.js:167-169 | the scan finds nothing exactly when the pattern matches at no position |
| Segmenter.Scan | src/similarity.js:167-169 | the list `matchAll` returns, from left to right without overlap; stated by Segmenter.ScanShape, Segmenter.ScanEmptyIff and Layout.ScanLaid |
| Segmenter.LatestHasKey | src/similarity.js:171-176 | the key of every match is in the object |
| Segmenter.LatestKeysFrom | src/similarity.js:171-176 | every key of the object comes from some match |
| Segmenter.FoldKeys | src/similarity.js:171-176 | the object has exactly the keys of the matches, in both directions |
| Segmenter.LatestLaterWins | src/similarity.js:171-176 | a match no later match repeats has its body kept under its key |
| Segmenter.FoldLaterWins | src/similarity.js:171-176 | a later duplicate key replaces an earlier one: the value of a key is the trimmed body of its last match |
| Segmenter.LatestWithKey | src/similarity.js:171-176 | every kept body is the body of a match carrying that key |
| Segmenter.LastWithKey | src/similarity.js:171-176 | every value is the trimmed body of some match carrying that key |
| Segmenter.FoldValues | src/similarity.js:171-176 | with digit keys and bodies free of blank lines, every key is a digit string and every value is trimmed and free of blank lines |
| Segmenter.Latest | src/similarity.js:171-176 | the spread-per-match object before trimming; stated by Segmenter.LatestHasKey, Segmenter.LatestKeysFrom, Segmenter.LatestLaterWins and Segmenter.LatestWithKey |
| Segmenter.Fold | src/similarity.js:171-176 | the `reduce` result, later keys winning and values trimmed; stated by Segmenter.FoldKeys, Segmenter.FoldLaterWins, Segmenter.LastWithKey and Segmenter.FoldValues |
| Segmenter.Padded | src/similarity.js:168 | the text with a blank line on each side; Layout.ScanJoined shows this captures a last block with no blank line after it |
| Segmenter.GetQuestions | src/similarity.js:166-177 | every key is a non-empty digit string, so `07` and `7` stay distinct, and every value is trimmed and holds no blank line |
| Segmenter.GetQuestionsEmptyIff | src/similarity.js:166-177 | the object is empty exactly when the pattern matches nowhere in the padded text |
| Segmenter.NoDigitNoQuestions | src/similarity.js:166-177 | text without a digit has no question |
| Layout.DigitRunExact | src/similarity.js:168 | a run of n digits followed by a non-digit is the maximal digit run |
| Layout.BlankAfterBody | src/similarity.js:168 | a body without a blank line, followed by one, ends where the lazy group stops |
| Layout.MatchAtBlock | src/similarity.js:168 | a well-formed `key. body` followed by a blank line is matched at its start, with that key and body |
| Layout.MatchAtBlockText | src/similarity.js:168 | the same, stated on the text of the block |
| Layout.ScanStep | src/similarity.js:167-169 | a match at the scan position is the first match found, and the scan resumes after its terminator |
| Layout.ScanBlock | src/similarity.js:167-169 | the scan over a well-formed block finds that block first and resumes after it |
| Layout.TerminatedBlocksCons | src/ai.js:208-210 | blocks each followed by a blank line are those blocks in order |
| Layout.TerminatedLays | src/ai.js:208-210 | blocks each followed by a blank line lay out those blocks one after another |
| Layout.ScanLaid | src/similarity.js:167-169 | scanning text that lays out well-formed blocks finds exactly those blocks, then whatever follows |
| Layout.ScanJoined | src/similarity.js:168 | the padding means that scanning well-formed blocks joined by blank lines finds exactly those blocks, the last one included even without a trailing blank line |
| Layout.GetQuestionsOfJoined | src/similarity.js:166-177 | round trip: well-formed blocks with distinct keys, joined by blank lines, read back as exactly their keys, each holding its body |
| Utils.ReadQuestions | src/utils.js:196-208 | the `src/utils.js` reader is the segmenter on the unified text. Every key is a digit string, and every value is trimmed and holds no `\r` |
| Utils.GetQuestionsAvoid | src/utils.js:199-208 | a character other than `\n` that is absent from the text is absent from every value |
| Utils.ReadQuestionsIgnoresCr | src/utils.js:196-208 | reading already-unified text gives the same questions |
| Tokenizer.NonWordRun | src/similarity.js:253 | a separator is a maximal run of non-word characters |
| Tokenizer.Split | src/similarity.js:253 | `split(/\W+/)` gives at least one piece, and every piece is made of word characters |
| Tokenizer.NonEmptyShape | src/similarity.js:253 | `filter(Boolean)` keeps only non-empty pieces of the split |
| Tokenizer.Tokens | src/similarity.js:253 | every token is non-empty, all word characters and has no upper-case letter |
| Tokenizer.SplitPiecesOf | src/similarity.js:253 | every character of a piece comes from the text |
| Tokenizer.SplitSpellsWordChars | src/similarity.js:253 | the pieces, concatenated, are the text's word characters in order |
| Tokenizer.FlattenNonEmpty | src/similarity.js:253 | dropping empty pieces loses no character |
| Tokenizer.TokensSpellWordChars | src/similarity.js:253 | the tokens, concatenated, are exactly the word characters of the lower-cased text, in order |
| Tokenizer.NoWordCharNoTokens | src/similarity.js:253 | text without a word character has no token |
| Tokenizer.TokensIgnoreCase | src/similarity.js:253 | lower-cased text has the same tokens as the original |
| Tokenizer.HasTokenIff | src/similarity.js:253 | a text has a token exactly when it holds a word character |
| Tokenizer.SplitWordThen | src/similarity.js:253 | a word followed by a separator or by nothing is one whole piece of `split(/\W+/)` |
| Tokenizer.SkipSeparator | src/similarity.js:253 | a leading separator changes no kept piece |
| Tokenizer.WordThenRest | src/similarity.js:253 | a leading word is the first kept piece, followed by the pieces of the rest |
| Tokenizer.SplitAtSeparator | src/similarity.js:253 | splitting at a non-word character keeps the pieces of both sides, in order |
| Tokenizer.TokensOfWord | src/similarity.js:253 | a text that is one word is exactly one token, the word lower-cased |
| Tokenizer.TokensAtSeparator | src/similarity.js:253 | tokens break exactly at separators: a non-word character splits the tokens into those before it and those after it. With TokensOfWord, the tokens are the maximal word runs |
| Levenshtein.DistanceAtMostLonger | src/similarity.js:275-276 | the edit distance is at most the larger length |
| Levenshtein.DistanceAtLeastLengthGap | src/similarity.js:275 | the edit distance is at least the difference in length |
| Levenshtein.DistanceSymmetric | src/similarity.js:275 | the edit distance does not depend on argument order |
| Levenshtein.DistanceZeroIff | src/similarity.js:275 | the edit distance is zero exactly for equal texts |
| Levenshtein.Distance | src/similarity.js:275 | the classic insert/delete/substitute edit distance that `levenshtein.get` computes; bounded, symmetric and zero exactly for equal texts by the four Distance lemmas |
| Levenshtein.Similarity | src/similarity.js:274-283 | `NaN` exactly when both texts are empty. Otherwise a percentage in [0, 100] that is 100 exactly for equal texts |
| Levenshtein.SimilaritySymmetric | src/similarity.js:274-283 | the score is symmetric |
| Jaccard.TokenSetShape | src/similarity.js:252-254 | every member of the token set is a non-empty lower-case run of word characters, and the set is empty exactly when the text holds no word character |
| Jaccard.Similarity | src/similarity.js:250-272 | `NaN` exactly when the union of token sets is empty. Otherwise a percentage in [0, 100], 100 exactly when the sets coincide and 0 exactly when they are disjoint |
| Jaccard.SimilaritySymmetric | src/similarity.js:250-272 | the score is symmetric |
| Jaccard.SimilarityToItself | src/similarity.js:250-272 | a text with a token scores 100 against itself |
| Jaccard.SimilarityIgnoresCase | src/similarity.js:250-272 | the score does not change when either text is lower-cased |
| Jaccard.SwappedLettersScoreZero | src/similarity.js:250-272 | whole words are compared: `ab` against `ba` scores 0 |
| JsNumber.Percent | src/similarity.js:267-270 | `part / whole * 100` is `NaN` exactly when `whole` is 0. Otherwise it times `whole` is `part * 100`, it lies in [0, 100], and it is 100 or 0 exactly when `part` is `whole` or 0 |
| JsNumber.AddCommutes | src/similarity.js:138 | adding scores is commutative, 0 is its identity and `NaN` absorbs it |
| JsNumber.DivBy | src/similarity.js:141 | dividing by a positive count keeps `NaN`, and a finite quotient times the count is the dividend |
| JsNumber.ScalePercent | src/similarity.js:184 | times 100 turns a ratio in [0, 1] into a percentage that is 100 exactly for ratio 1, and keeps `NaN` |
| JsNumber.UnitQuotient | src/similarity.js:267 | a ratio of `part <= whole` lies in [0, 1] and is 1 or 0 exactly when `part` is `whole` or 0 |
| Cosine.Dedup | src/similarity.js:210 | `Array.from(new Set(xs))` holds the same elements without duplicates |
| Cosine.Vocabulary | src/similarity.js:210 | the vocabulary holds exactly the tokens of both texts, without duplicates |
| Cosine.IndexOf | src/similarity.js:216 | `indexOf` is -1 exactly for an absent token, and otherwise the first position holding it |
| Cosine.Tf | src/similarity.js:213-222 | each vector has one entry per vocabulary word |
| Cosine.TermFrequency | src/similarity.js:213-222 | the `forEach` loop that bumps `tf[index]` computes the term-frequency vector |
| Cosine.CountAtIsOccurrences | src/similarity.js:213-222 | over a duplicate-free vocabulary, entry i counts the occurrences of word i |
| Cosine.TfSnoc | src/similarity.js:215-220 | one more token bumps exactly the entry at its index |
| Cosine.SumTf | src/similarity.js:213-222 | since every token is in the vocabulary (`indexOf` is never -1), the entries sum to the number of tokens |
| Cosine.OccurrencesPositive | src/similarity.js:213-222 | a word occurs in the tokens exactly when its count is positive |
| Cosine.TfPositiveIff | src/similarity.js:213-222 | an entry is positive exactly when its word is among the text's tokens |
| Cosine.Products | src/similarity.js:229-237 | the loop computes the dot product and both squared norms |
| Cosine.CosineOfVectors | src/similarity.js:228-242 | the loop and the zero-norm guard compute the cosine, 0 when either norm is 0 |
| Cosine.Cosine | src/similarity.js:228-242 | the cosine is never negative |
| Cosine.CrossSquaresExpand | src/similarity.js:233-237 | the sum of squared cross terms expands into the norms and the dot product |
| Cosine.CauchySchwarz | src/similarity.js:233-237 | the squared dot product is at most the product of the squared norms |
| Cosine.RatioBound | src/similarity.js:241 | with true roots, `dot / (sqrt(normA) * sqrt(normB))` is at most 1 |
| Cosine.CosineAtMostOne | src/similarity.js:239-241 | with true roots of the norms, the cosine lies in [0, 1] |
| Cosine.DotZeroIff | src/similarity.js:234 | the dot product is 0 exactly when no index has both entries positive |
| Cosine.CosineZeroIff | src/similarity.js:239-241 | the cosine is 0 exactly when the dot product is 0 |
| Cosine.RatioZeroIff | src/similarity.js:241 | with positive norms, the quotient is 0 exactly when the dot product is |
| Cosine.RatioSelf | src/similarity.js:241 | a vector against itself gives 1 when the root is true |
| Cosine.CosineSimilarity | src/similarity.js:202-248 | `cosineSimilarity` returns the cosine percentage of the two texts' term-frequency vectors |
| Cosine.ScoreInRange | src/similarity.js:202-248 | with a true square root, the cosine percentage lies in [0, 100] |
| Cosine.CosineZeroIffDisjoint | src/similarity.js:224-245 | the cosine is 0 exactly when the two token lists share no token, which includes either list being empty |
| Cosine.ScoreZeroIff | src/similarity.js:202-248 | the cosine percentage is 0 exactly when the texts share no token |
| Cosine.ScoreToItself | src/similarity.js:202-248 | a text against itself scores 100 when it has a token and 0 otherwise |
| Comparison.Record | src/similarity.js:179-200 | the record holds a score under every one of its twelve properties |
| Comparison.Similarity | src/similarity.js:179-200 | `similarity` returns that record, the cosine entry computed by the loops |
| Comparison.RecordKeys | src/similarity.js:179-200 | the record has exactly twelve distinct properties, in literal order, with distinct names |
| Comparison.OwnEntries | src/similarity.js:181-183 | the first three entries are the engine's Levenshtein, Jaccard and cosine scores |
| Comparison.OwnScoresInRange | src/similarity.js:181-183 | the engine's own finite scores are percentages in [0, 100] |
| Comparison.OwnScoresToItself | src/similarity.js:181-183 | a text against itself scores 100 on Levenshtein when non-empty, and on Jaccard and cosine when it has a token |
| Report.QuestionScores | src/similarity.js:126-128 | `stats.questions` has exactly the keys 1 to 50, each holding a full record |
| Report.ScoreQuestions | src/similarity.js:126-128 | the loop succeeds exactly when both texts hold every question 1 to 50, and then gives those records. Otherwise it fails at the first missing number |
| Report.AverageMap | src/similarity.js:134-142 | the averages have exactly the record's properties |
| Report.Averages | src/similarity.js:134-142 | the `+=` and `/=` loops compute the average of every property |
| Report.SumNaNIff | src/similarity.js:137-139 | a running sum is `NaN` exactly when one of its scores is |
| Report.SumInRange | src/similarity.js:137-139 | a sum of n percentages lies in [0, 100 n] |
| Report.SumScores | src/similarity.js:136-139 | the running sum of one property over questions 1 to n; stated by Report.SumNaNIff and Report.SumInRange |
| Report.Average | src/similarity.js:141 | that sum over all 50 questions divided by 50; stated by Report.AverageNaNIff and Report.AverageInRange |
| Report.AverageNaNIff | src/similarity.js:134-142 | the average of a property is `NaN` exactly when one question's score is |
| Report.AverageInRange | src/similarity.js:134-142 | the average of 50 percentages is a percentage |
| Report.Header | src/similarity.js:151 | the header names one column per property |
| Report.Formatted | src/similarity.js:152-153 | a record is formatted into one cell per property |
| Report.QuestionRows | src/similarity.js:154-157 | there is one row per question |
| Report.QuestionRowsShape | src/similarity.js:154-157 | question row k starts with the number k + 1 and holds its formatted scores in property order |
| Report.HeaderRowsShape | src/similarity.js:146-153 | the leading rows: `[source]` alone (the comma operator), then the header, `Files` and `Averages` rows in property order |
| Report.TableShape | src/similarity.js:146-158 | 57 rows. The second is `[source]`. Header, file, average and question rows each have 1 + 12 cells, with the property names, the file scores, the averages and each question's scores in property order, and questions numbered 1 to 50 |
| Report.Table | src/similarity.js:146-158 | the rows handed to `stringify`; their shape and contents are Report.TableShape |
| Report.ProcessDir | src/similarity.js:118-158 | the run on two raw texts: it succeeds exactly when both unified texts hold questions 1 to 50, and then gives the table of whole-text scores, averages and question scores. Otherwise it reports the first missing question |
| AnswerText.CollapseShape | src/ai.js:15 | collapsing `\n\n` pairs never lengthens and never adds `\r` |
| AnswerText.CollapsePairs | src/ai.js:15 | `.replace(/\n\n/g, '\n')`, non-overlapping pairs from the left; stated by AnswerText.CollapseShape, AnswerText.CollapseRun and AnswerText.CollapseLeavesNoBlankLine |
| AnswerText.AiEol | src/ai.js:14-15 | the `src/ai.js` `eol` leaves no `\r` and is never longer than its input |
| AnswerText.CollapseRun | src/ai.js:15 | a run of k line feeds becomes ceil(k / 2) line feeds |
| AnswerText.CollapseConcat | src/ai.js:15 | collapsing distributes over a split after a character that is not a line feed |
| AnswerText.CollapseRunInside | src/ai.js:15 | a run of k line feeds between other text becomes ceil(k / 2) line feeds |
| AnswerText.CollapseLeavesNoBlankLine | src/ai.js:15 | without three line feeds in a row, no blank line is left |
| AnswerText.TripleKeepsBlankLine | src/ai.js:14-15 | `"a\n\n\nb"` becomes `"a\n\nb"`, which still holds a blank line |
| AnswerText.Answer | src/ai.js:231 | the kept answer is trimmed and holds no `\r` |
| AnswerText.AnswerHasNoBlankLine | src/ai.js:231 | without three line feeds in a row after unification, the kept answer holds no blank line |
| ImageNames.IdFromSpec | src/ai.js:220 | `exec` finds the leftmost `_digits.`, and there is none exactly when no position matches |
| ImageNames.IdValue | src/ai.js:241 | `Number` of the captured digits of a match, 0 for none; ImageNames.IdFromSpec gives the match it reads and Ascii.DecimalRoundTrip that printed digits read back as their number |
| ImageNames.IdFrom | src/ai.js:220 | `exec` from a position: the leftmost `_digits.` match or none; stated by ImageNames.IdFromSpec and ImageNames.IdFromOf |
| ImageNames.ImageId | src/ai.js:220 | the id of a file name, none where `exec` returns null and the destructuring throws; stated for every path by ImageNames.IdFromSpec, with Ascii.DecimalRoundTrip for the value |
| ImageNames.IdFromOf | src/ai.js:220 | the first matching position gives the id |
| ImageNames.ImageIdOfName | src/ai.js:220 | a path `prefix_N.ext` whose prefix holds no `_digits.` match of its own (directories with `_` included) gives the id N |
| ImageNames.ImageIdEmptyDigits | src/ai.js:220 | `prefix_.ext`, with no match inside the prefix, gives `Number("")`, which is 0 |
| ImageNames.NoIdBeforeUnderscore | src/ai.js:220 | a match that starts before an appended `_` is a match of the text before it, since the `_` ends every digit run and is no period |
| ImageNames.ImageIdOfPath | src/ai.js:174-176 | the glob path `./Tyrimo_failai/d/img_12.png` gives the id 12, although its directory holds `_` |
| TokenUsage.AddEntry | src/ai.js:236 | one `+=` adds its name to the totals' keys |
| TokenUsage.Accumulate | src/ai.js:236 | the `forEach` of `+=` over one reply's usage; stated by TokenUsage.AccumulateKey, TokenUsage.AccumulateUnmentioned, TokenUsage.AccumulateNewKey and TokenUsage.AccumulateKeys |
| TokenUsage.AccumulateKey | src/ai.js:236 | a name the totals hold ends as its old total plus everything the usage counts under it |
| TokenUsage.CountOfUnmentioned | src/ai.js:236 | nothing is counted under a name the usage never mentions |
| TokenUsage.AccumulateUnmentioned | src/ai.js:236 | a name the usage does not mention keeps its total |
| TokenUsage.AccumulateNewKey | src/ai.js:236 | a name the totals lack becomes `NaN` (`undefined + count`) once the usage mentions it |
| TokenUsage.AccumulateKeys | src/ai.js:236 | the totals hold exactly the old names and the names the usage mentions |
| TokenUsage.AddAssociative | src/ai.js:236 | adding counts, `NaN` included, is associative |
| TokenUsage.Engine.constructor | src/ai.js:40 | an engine starts with zero prompt, completion and total tokens |
| TokenUsage.Engine.Record | src/ai.js:236 | the `forEach` over a reply's usage grows the totals by that usage, `+=` by `+=` |
| Engines.AnswerTexts | src/ai.js:231 | one kept answer per reply |
| Engines.StoredKeys | src/ai.js:225-234 | the messages object holds exactly the engines' keys |
| Engines.MessagesKeys | src/ai.js:225-234 | the messages are stored under the engines' keys and no others |
| Engines.StoredAt | src/ai.js:234 | with distinct keys, each text is stored under its own key |
| Engines.MessagesAt | src/ai.js:231-234 | with distinct keys, each engine's kept answer is stored under its key |
| Engines.StoredSnoc | src/ai.js:234 | one more engine adds its key to the messages |
| Engines.Stored | src/ai.js:234 | `messages[engineKey] = message` in turn; stated by Engines.StoredKeys, Engines.StoredAt and Engines.StoredSnoc |
| Engines.Messages | src/ai.js:225-234 | the messages object of one image; stated by Engines.MessagesKeys and Engines.MessagesAt |
| Engines.AskEngines | src/ai.js:225-239 | the engine loop stores every engine's answer under its key and grows every engine's totals by its reply's usage |
| Engines.ResponseFor | src/ai.js:219-241 | there is a response exactly when the file name holds an id |
| Engines.ProcessImage | src/ai.js:219-242 | no response and no engine touched when the file name holds no id. Otherwise the id with every answer by key, and every engine's totals grown by its reply's usage |
| ResponseOrder.NeighboursSorted | src/ai.js:203 | neighbours in order put the whole sequence in order by id |
| ResponseOrder.Swap | src/ai.js:203 | exchanging two neighbours permutes the responses |
| ResponseOrder.Exchange | src/ai.js:203 | exchanging two neighbours of the array in place leaves the swapped sequence, a permutation by ResponseOrder.Swap |
| ResponseOrder.InsertingStep | src/ai.js:203 | moving the inserted response one place left keeps the insertion invariant |
| ResponseOrder.InsertingDone | src/ai.js:203 | once the inserted response is in place, the prefix is in order |
| ResponseOrder.Insert | src/ai.js:203 | one insertion step extends the sorted prefix by one and permutes the array |
| ResponseOrder.SortById | src/ai.js:203 | the in-place sort leaves the array non-decreasing by id and a permutation of its old contents |
| Answers.AccumulateConcat | src/ai.js:236 | accumulating two usages in turn is accumulating them joined |
| Answers.TotalsConcat | src/ai.js:236 | accumulating image after image is accumulating all of an engine's usage at once |
| Answers.TotalsFromStart | src/ai.js:236 | from the initial totals, each counter ends as the sum of everything the engine reported under its name over all images |
| Answers.TotalsSnoc | src/ai.js:197-200 | one more image grows an engine's totals by its usage on that image |
| Answers.Totals | src/ai.js:197-200 | an engine's totals after each image in turn; stated by Answers.TotalsConcat, Answers.TotalsFromStart and Answers.TotalsSnoc |
| Answers.ProcessNext | src/ai.js:197-199 | one turn of the image loop gives the image's response and carries every engine's totals one image further |
| Answers.AllSome | src/ai.js:197-200 | the responses are all collected exactly when every image gives one |
| Answers.AllAt | src/ai.js:197-200 | the k-th collected response is the k-th image's |
| Answers.Outcomes | src/ai.js:197-200 | one outcome per image |
| Answers.CollectedSome | src/ai.js:197-200 | the collection succeeds exactly when every file name holds an id |
| Answers.CollectedLength | src/ai.js:197-200 | a successful collection has one response per image |
| Answers.CollectedAt | src/ai.js:197-200 | response k is the response of image k, in `glob` order |
| Answers.Collected | src/ai.js:197-200 | the responses the `push` loop collects; stated by Answers.CollectedSome, Answers.CollectedLength and Answers.CollectedAt |
| Answers.CollectResponses | src/ai.js:195-200 | the `push` loop collects every image's response in order exactly when every name holds an id. It then grows each engine's totals by all its usage |
| Answers.AnswerContentReadBack | src/ai.js:208-210 | an answer file reads back through the segmenter as one question per response, keyed by its id and holding the engine's answer, when the ids differ and no answer holds a blank line |
| Answers.AnswerContent | src/ai.js:208-210 | one engine's file: `id. answer` per response joined by blank lines; Ascii.JoinLength gives the n - 1 separators and Answers.AnswerContentReadBack the read-back |
| Answers.AtMostOnce | src/ai.js:203 | responses with distinct ids occur at most once each |
| Answers.Twice | src/ai.js:203 | a response at two positions occurs twice |
| Answers.DistinctIdsPermutation | src/ai.js:203 | sorting keeps the ids distinct |
| Answers.CollectedResponse | src/ai.js:220-241 | the collected response of image k carries its id, and engine j's message is that engine's kept answer |
| Answers.CollectedDistinctIds | src/ai.js:197-200 | images with distinct ids give responses with distinct ids |
| Answers.FromImage | src/ai.js:203 | every sorted response is some image's response |
| Answers.ToPosition | src/ai.js:203 | every image's response is somewhere in the sorted responses |
| Answers.SortResponses | src/ai.js:203 | the sorted responses are non-decreasing by id and a permutation of the collected ones |
| Answers.AnswerContents | src/ai.js:205-210 | one file content per chosen engine: its items in sorted order joined by blank lines |
| Answers.AnswerFileReadBack | src/ai.js:193-215 | end to end: with distinct image ids, distinct engine keys and replies without a triple line feed, engine j's answer file reads back as exactly one question per image id, holding the engine's kept answer to that image |
| Answers.AnswerFiles | src/ai.js:193-215 | the directory run succeeds exactly when every file name holds an id. The responses are then sorted by id and a permutation of those collected, there is one file per engine with its content, and the totals have grown by all usage |

## Left out

- Interactive prompts, directory listing, `glob`, file reads and writes, dates, file names and console output are left out. File contents and the image list are parameters.
- The calls to the AI services, including prompts, delays and the Gemini error path, are left out: each engine's reply (message and usage) is a parameter.
- The string-comparison library's nine scores are a parameter (`Comparison.Library`). The model only fixes the record's property set and the scaling by 100, since the library is not visible.
- `fast-levenshtein` is replaced by the recursive definition of the edit distance, which the library computes.
- `natural.WordTokenizer` is modelled by the same ASCII word-run tokenizer as `split(/\W+/).filter(Boolean)`. Letters outside ASCII, which that tokenizer handles differently, are not modelled.
- Non-ASCII behaviour of `toLowerCase`, `\s`, `\W` and `trim` is not modelled; text is ASCII.
- Floating point is modelled as exact real arithmetic, with `NaN` for `0 / 0` and for `undefined` in a sum. Rounding is ignored.
- `Math.sqrt` is a parameter (`Cosine.Sqrt`), positive on positive numbers. Cosine.CosineAtMostOne, Cosine.ScoreInRange and Cosine.ScoreToItself assume it returns true square roots at the norms.
- `toFixed(2)` is a format parameter (`Report.Format`), and the CSV byte format of `csv-stringify` is not modelled: the table is the list of rows.
- Report.ProcessDir: a missing question stops the run with an error, where the code throws; the thrown exception itself is not modelled.
- Usage entries are numbers or `undefined`. A usage property holding an object (string concatenation under `+=`) is not modelled.
- Answers.CollectResponses: states nothing about the engines' totals when an image has no id and the run stops, although the earlier images' usage has been added by then.
- Answers.AnswerFiles: states nothing about the totals when the run stops at an image without an id.
- ImageNames.IdValue: reads the digits as an exact whole number. `Number` rounds digit strings above 2^53, so in the code two such file names (`x_9007199254740992.png`, `x_9007199254740993.png`) get the same id.
- Ascii.Decimal: writes every id as plain digits. `${id}` writes ids of 10^21 and more in exponent form (`1e+21`), which the question pattern cannot read back.
- Answers.AnswerFileReadBack: holds for the code only while ids stay below 2^53, since above that the distinct-id premise and the printed digits no longer match the numbers the code uses.
- Answers.AnswerContentReadBack: the same limit applies, for the same reason: ids of 2^53 and more are not modelled as the doubles the code holds.
- ResponseOrder.SortById: proves order and permutation but not stability. `Array.prototype.sort` is stable, which only matters for equal ids.
- The single-image branch of `processDir` in `src/ai.js` (lines 178-191) and the final printing of totals are interactive and left out.
- `generateImages.js`, `playground.js` and the rest of `src/utils.js` are input/output glue and are not part of this model.
