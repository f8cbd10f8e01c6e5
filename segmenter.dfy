/**
 * The question segmenter `getQuestions`: the text is padded with a blank
 * line on both sides and scanned, left to right, for the pattern
 * `/(\d+)\. ([\s\S]*?)(\n\n)/g`; the matches are folded into an object whose
 * key is the digit string and whose value is the trimmed body, a later key
 * replacing an earlier one.
 *
 * The scan is written out directly. A match starts at the leftmost position
 * holding a digit whose maximal digit run is followed by ". "; its body runs
 * lazily up to the first blank line after that, and the blank line is
 * consumed before scanning resumes. Backtracking into a shorter digit run
 * can never help, because the character after a shorter run is a digit,
 * not '.'.
 */
module Segmenter {
  import opened Wrappers
  import opened Ascii

  /** The two captured groups of one match. */
  datatype Match = Match(key: string, body: string)

  /** A match found at some position, with the index just past its terminator. */
  datatype Hit = Hit(found: Match, end: nat)

  /** Questions by digit string, as the object built by the fold. */
  type QuestionMap = map<string, string>

  /** Length of the maximal run of digits starting at `p`. */
  function DigitRun(s: string, p: nat): (n: nat)
    requires p <= |s|
    ensures p + n <= |s|
    decreases |s| - p
  {
    if p < |s| && IsDigit(s[p]) then 1 + DigitRun(s, p + 1) else 0
  }

  /** The run is all digits and cannot be extended. */
  lemma {:induction false} DigitRunSpec(s: string, p: nat)
    requires p <= |s|
    ensures forall i :: p <= i < p + DigitRun(s, p) ==> IsDigit(s[i])
    ensures p + DigitRun(s, p) == |s| || !IsDigit(s[p + DigitRun(s, p)])
    decreases |s| - p
  {
    if p < |s| && IsDigit(s[p]) {
      DigitRunSpec(s, p + 1);
    }
  }

  /** The first blank line at or after `q`, if any. */
  function FindBlank(s: string, q: nat): (r: Option<nat>)
    requires q <= |s|
    ensures r.Some? ==> q <= r.value && r.value + 1 < |s|
    decreases |s| - q
  {
    if q + 1 >= |s| then None
    else if BlankAt(s, q) then Some(q)
    else FindBlank(s, q + 1)
  }

  /** The blank line found is one, none comes before it, and `None` means there is none. */
  lemma {:induction false} FindBlankSpec(s: string, q: nat)
    requires q <= |s|
    ensures FindBlank(s, q).Some? ==> BlankAt(s, FindBlank(s, q).value)
    ensures FindBlank(s, q).Some? ==> forall t :: q <= t < FindBlank(s, q).value ==> !BlankAt(s, t)
    ensures FindBlank(s, q).None? <==> forall t :: q <= t < |s| ==> !BlankAt(s, t)
    decreases |s| - q
  {
    if q + 1 < |s| && !BlankAt(s, q) {
      FindBlankSpec(s, q + 1);
    }
  }

  /** `digits. ` starts at `p`: a maximal digit run followed by a period and a space. */
  predicate ItemStartAt(s: string, p: nat)
    requires p <= |s|
  {
    var n := DigitRun(s, p);
    n > 0 && p + n + 2 <= |s| && s[p + n] == '.' && s[p + n + 1] == ' '
  }

  /** The pattern matched at exactly position `p`, or `None`. */
  function MatchAt(s: string, p: nat): Option<Hit>
    requires p <= |s|
  {
    var n := DigitRun(s, p);
    if ItemStartAt(s, p) then
      match FindBlank(s, p + n + 2)
      case Some(t) => Some(Hit(Match(s[p..p + n], s[p + n + 2..t]), t + 2))
      case None => None
    else None
  }

  /**
   * What a match at `p` is: there is one exactly when `digits. ` starts there
   * and a blank line follows; its key is the whole digit run, its body runs
   * up to the first blank line after `digits. `, and that blank line is
   * consumed.
   */
  lemma MatchAtSpec(s: string, p: nat)
    requires p <= |s|
    ensures MatchAt(s, p).Some? <==>
      ItemStartAt(s, p) && exists t :: p + DigitRun(s, p) + 2 <= t < |s| && BlankAt(s, t)
    ensures MatchAt(s, p).Some? ==>
      var n, h := DigitRun(s, p), MatchAt(s, p).value;
      && h.found.key == s[p..p + n] && IsDigits(h.found.key)
      && p + n + 2 + |h.found.body| + 2 == h.end <= |s|
      && h.found.body == s[p + n + 2..h.end - 2]
      && BlankAt(s, h.end - 2)
      && (forall t :: p + n + 2 <= t < h.end - 2 ==> !BlankAt(s, t))
  {
    DigitRunSpec(s, p);
    if ItemStartAt(s, p) {
      FindBlankSpec(s, p + DigitRun(s, p) + 2);
    }
  }

  /** A lazily taken body holds no blank line, and does not end in a line feed. */
  lemma MatchBodyHasNoBlankLine(s: string, p: nat)
    requires p <= |s| && MatchAt(s, p).Some?
    ensures !HasBlankLine(MatchAt(s, p).value.found.body)
    ensures !HasBlankLine(MatchAt(s, p).value.found.body + "\n")
  {
    MatchAtSpec(s, p);
    var n, h := DigitRun(s, p), MatchAt(s, p).value;
    var b, q := h.found.body, p + n + 2;
    forall i | 0 <= i < |b + "\n"| - 1
      ensures !((b + "\n")[i] == '\n' && (b + "\n")[i + 1] == '\n')
    {
      assert (b + "\n")[i] == s[q + i] && (b + "\n")[i + 1] == s[q + i + 1];
      assert !BlankAt(s, q + i);
    }
    assert forall i :: 0 <= i < |b| ==> b[i] == (b + "\n")[i];
  }

  /** `matchAll` from `lastIndex == p`: every match, left to right. */
  function Scan(s: string, p: nat): seq<Match>
    requires p <= |s|
    decreases |s| - p
  {
    if p == |s| then []
    else
      match MatchAt(s, p)
      case Some(h) => [h.found] + Scan(s, h.end)
      case None => Scan(s, p + 1)
  }

  /** Every match found has a digit key and a body without a blank line. */
  lemma {:induction false} ScanShape(s: string, p: nat)
    requires p <= |s|
    ensures forall i :: 0 <= i < |Scan(s, p)| ==>
              IsDigits(Scan(s, p)[i].key) && !HasBlankLine(Scan(s, p)[i].body)
    decreases |s| - p
  {
    if p < |s| {
      match MatchAt(s, p)
      case Some(h) =>
        MatchAtSpec(s, p);
        MatchBodyHasNoBlankLine(s, p);
        ScanShape(s, h.end);
      case None =>
        ScanShape(s, p + 1);
    }
  }

  /** A character absent from the text is absent from every body found in it. */
  lemma {:induction false} ScanAvoids(s: string, p: nat, c: char)
    requires p <= |s| && c !in s
    ensures forall i :: 0 <= i < |Scan(s, p)| ==> c !in Scan(s, p)[i].body
    decreases |s| - p
  {
    if p < |s| {
      match MatchAt(s, p)
      case Some(h) =>
        MatchAtSpec(s, p);
        var b := h.found.body;
        var q := p + DigitRun(s, p) + 2;
        assert forall j :: 0 <= j < |b| ==> b[j] == s[q + j];
        ScanAvoids(s, h.end, c);
      case None =>
        ScanAvoids(s, p + 1, c);
    }
  }

  /** The scan finds nothing exactly when the pattern matches at no position. */
  lemma {:induction false} ScanEmptyIff(s: string, p: nat)
    requires p <= |s|
    ensures Scan(s, p) == [] <==> forall q :: p <= q < |s| ==> MatchAt(s, q).None?
    decreases |s| - p
  {
    if p < |s| && MatchAt(s, p).None? {
      ScanEmptyIff(s, p + 1);
    }
  }

  /** The body each key ends up with: a later match replaces an earlier one. */
  function Latest(ms: seq<Match>): map<string, string>
  {
    if |ms| == 0 then map[]
    else
      var init, last := ms[..|ms| - 1], ms[|ms| - 1];
      Latest(init)[last.key := last.body]
  }

  /**
   * The `reduce` with object spread, `{...obj, [key]: body.trim()}` per
   * match. Trimming every body on the way and trimming only the body that
   * is kept give the same object, so the fold trims the latest bodies.
   */
  function Fold(ms: seq<Match>): QuestionMap
  {
    map k | k in Latest(ms) :: Trim(Latest(ms)[k])
  }

  /** The key of match `i` is in the fold. */
  lemma {:induction false} LatestHasKey(ms: seq<Match>, i: nat)
    requires i < |ms|
    ensures ms[i].key in Latest(ms)
  {
    var n := |ms| - 1;
    if i < n {
      var init := ms[..n];
      LatestHasKey(init, i);
      assert init[i] == ms[i];
    }
  }

  /** Every key kept is some match's key. */
  lemma {:induction false} LatestKeysFrom(ms: seq<Match>)
    ensures forall k :: k in Latest(ms) ==> exists i :: 0 <= i < |ms| && ms[i].key == k
  {
    if |ms| > 0 {
      var n := |ms| - 1;
      var init := ms[..n];
      LatestKeysFrom(init);
      forall k | k in Latest(ms) ensures exists i :: 0 <= i < |ms| && ms[i].key == k {
        if k != ms[n].key {
          assert k in Latest(init);
          var i :| 0 <= i < n && init[i].key == k;
          assert ms[i] == init[i];
        }
      }
    }
  }

  /** The fold has exactly the keys of the matches. */
  lemma FoldKeys(ms: seq<Match>)
    ensures forall k :: k in Fold(ms) <==> exists i :: 0 <= i < |ms| && ms[i].key == k
  {
    forall i | 0 <= i < |ms| ensures ms[i].key in Fold(ms) {
      LatestHasKey(ms, i);
    }
    LatestKeysFrom(ms);
  }

  /** A match whose key no later match repeats has its body kept. */
  lemma {:induction false} LatestLaterWins(ms: seq<Match>, i: nat)
    requires i < |ms|
    requires forall j :: i < j < |ms| ==> ms[j].key != ms[i].key
    ensures ms[i].key in Latest(ms) && Latest(ms)[ms[i].key] == ms[i].body
  {
    var init := ms[..|ms| - 1];
    if i < |ms| - 1 {
      assert init[i] == ms[i];
      forall j | i < j < |init| ensures init[j].key != init[i].key {
        assert init[j] == ms[j];
      }
      LatestLaterWins(init, i);
    }
  }

  /** A match whose key no later match repeats gives the value of its key. */
  lemma FoldLaterWins(ms: seq<Match>, i: nat)
    requires i < |ms|
    requires forall j :: i < j < |ms| ==> ms[j].key != ms[i].key
    ensures ms[i].key in Fold(ms) && Fold(ms)[ms[i].key] == Trim(ms[i].body)
  {
    LatestLaterWins(ms, i);
  }

  /** The text as the pattern sees it: a blank line added at both ends. */
  function Padded(content: string): string {
    "\n\n" + content + "\n\n"
  }

  /** `getQuestions(content)`. */
  function GetQuestions(content: string): (q: QuestionMap)
    ensures forall k :: k in q ==> IsDigits(k) && IsTrimmed(q[k]) && !HasBlankLine(q[k])
  {
    var ms := Scan(Padded(content), 0);
    ScanShape(Padded(content), 0);
    FoldValues(ms);
    Fold(ms)
  }

  /** Every value of the fold is the trimmed body of a match with that key. */
  lemma FoldValues(ms: seq<Match>)
    requires forall i :: 0 <= i < |ms| ==> IsDigits(ms[i].key) && !HasBlankLine(ms[i].body)
    ensures forall k :: k in Fold(ms) ==> IsDigits(k) && IsTrimmed(Fold(ms)[k]) && !HasBlankLine(Fold(ms)[k])
  {
    forall k | k in Fold(ms)
      ensures IsDigits(k) && IsTrimmed(Fold(ms)[k]) && !HasBlankLine(Fold(ms)[k])
    {
      LastWithKey(ms, k);
      var i :| 0 <= i < |ms| && ms[i].key == k && Fold(ms)[k] == Trim(ms[i].body);
      TrimKeepsNoBlankLine(ms[i].body);
    }
  }

  /** The last match carrying a key is the one whose body is kept. */
  lemma {:induction false} LatestWithKey(ms: seq<Match>, k: string)
    requires k in Latest(ms)
    ensures exists i :: 0 <= i < |ms| && ms[i].key == k && Latest(ms)[k] == ms[i].body
  {
    var init := ms[..|ms| - 1];
    if ms[|ms| - 1].key != k {
      assert Latest(ms)[k] == Latest(init)[k];
      LatestWithKey(init, k);
      var i :| 0 <= i < |init| && init[i].key == k && Latest(init)[k] == init[i].body;
      assert ms[i] == init[i];
    }
  }

  /** Every value of the fold is the trimmed body of some match carrying its key. */
  lemma LastWithKey(ms: seq<Match>, k: string)
    requires k in Fold(ms)
    ensures exists i :: 0 <= i < |ms| && ms[i].key == k && Fold(ms)[k] == Trim(ms[i].body)
  {
    LatestWithKey(ms, k);
  }

  /** Nothing is found when the pattern matches nowhere in the padded text. */
  lemma GetQuestionsEmptyIff(content: string)
    ensures GetQuestions(content) == map[] <==>
            forall q :: 0 <= q < |Padded(content)| ==> MatchAt(Padded(content), q).None?
  {
    var ms := Scan(Padded(content), 0);
    ScanEmptyIff(Padded(content), 0);
    if ms != [] {
      LatestHasKey(ms, 0);
      assert ms[0].key in GetQuestions(content);
    }
  }

  /** Text without a single digit holds no question. */
  lemma NoDigitNoQuestions(content: string)
    requires forall i :: 0 <= i < |content| ==> !IsDigit(content[i])
    ensures GetQuestions(content) == map[]
  {
    var s := Padded(content);
    forall q | 0 <= q < |s| ensures MatchAt(s, q).None? {
      assert !IsDigit(s[q]);
    }
    GetQuestionsEmptyIff(content);
  }
}
