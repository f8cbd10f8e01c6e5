/**
 * The shared utilities: `unifyEol` and the file-reading `getQuestions`.
 * `unifyEol` is the same expression as the similarity script's `eol` and is
 * `EndOfLine.Unify`; reading the file is left to the caller, which passes the
 * text it read.
 */
module Utils {
  import opened Ascii
  import opened EndOfLine
  import opened Segmenter

  /**
   * `getQuestions(path)` on the text read from `path`: line endings unified,
   * then segmented exactly as the similarity script segments its normalised
   * text. Keys are digit strings; values are trimmed and, since the text no
   * longer holds a CR, hold none either.
   */
  function ReadQuestions(raw: string): (q: QuestionMap)
    ensures q == GetQuestions(Unify(raw))
    ensures forall k :: k in q ==> IsDigits(k) && IsTrimmed(q[k]) && '\r' !in q[k]
  {
    var content := Unify(raw);
    GetQuestionsAvoid(content, '\r');
    GetQuestions(content)
  }

  /** A character absent from the content is absent from every question. */
  lemma GetQuestionsAvoid(content: string, c: char)
    requires c !in content && c != '\n'
    ensures forall k :: k in GetQuestions(content) ==> c !in GetQuestions(content)[k]
  {
    var s := Padded(content);
    var ms := Scan(s, 0);
    assert forall j :: 0 <= j < |s| ==> s[j] == '\n' || s[j] in content;
    ScanAvoids(s, 0, c);
    forall k | k in GetQuestions(content) ensures c !in GetQuestions(content)[k] {
      LastWithKey(ms, k);
      var i :| 0 <= i < |ms| && ms[i].key == k && Fold(ms)[k] == Trim(ms[i].body);
      TrimKeepsAbsentChar(ms[i].body, c);
    }
  }

  /** Text read with CR LF line endings segments as the same text with LF endings. */
  lemma ReadQuestionsIgnoresCr(raw: string)
    ensures ReadQuestions(raw) == ReadQuestions(Unify(raw))
  {
    UnifyIdempotent(raw);
  }
}
