/**
 * Question text as the tool writes it back, `key. body` blocks separated by
 * blank lines, and the proof that segmenting such text returns the blocks.
 */
module Layout {
  import opened Wrappers
  import opened Ascii
  import opened Segmenter

  /** The text of one question block, `key. body`. */
  function Block(m: Match): string {
    m.key + ". " + m.body
  }

  function Blocks(ms: seq<Match>): (r: seq<string>)
    ensures |r| == |ms| && forall i :: 0 <= i < |ms| ==> r[i] == Block(ms[i])
  {
    seq(|ms|, i requires 0 <= i < |ms| => Block(ms[i]))
  }

  /** A block that reads back as itself: a digit key and a trimmed body without blank lines. */
  predicate WellFormed(m: Match) {
    IsDigits(m.key) && IsTrimmed(m.body) && !HasBlankLine(m.body)
  }

  lemma {:induction false} DigitRunExact(s: string, p: nat, n: nat)
    requires p + n < |s|
    requires forall i :: p <= i < p + n ==> IsDigit(s[i])
    requires !IsDigit(s[p + n])
    ensures DigitRun(s, p) == n
    decreases n
  {
    if n > 0 {
      DigitRunExact(s, p + 1, n - 1);
    }
  }

  /** The first blank line after a trimmed body without blank lines ends it. */
  lemma BlankAfterBody(s: string, q: nat, b: string)
    requires IsTrimmed(b) && !HasBlankLine(b)
    requires q + |b| + 2 <= |s|
    requires forall i :: 0 <= i < |b| ==> s[q + i] == b[i]
    requires s[q + |b|] == '\n' && s[q + |b| + 1] == '\n'
    ensures FindBlank(s, q) == Some(q + |b|)
  {
    assert BlankAt(s, q + |b|);
    forall t | q <= t < q + |b| ensures !BlankAt(s, t) {
      if t + 1 < q + |b| {
        assert !BlankAt(b, t - q);
      } else {
        assert s[t] == b[|b| - 1];
      }
    }
    FindBlankSpec(s, q);
  }

  /** A well-formed block followed by a blank line is one match. */
  lemma MatchAtBlock(s: string, p: nat, m: Match)
    requires WellFormed(m)
    requires p + |m.key| + 2 + |m.body| + 2 <= |s|
    requires forall i :: 0 <= i < |m.key| ==> s[p + i] == m.key[i]
    requires s[p + |m.key|] == '.' && s[p + |m.key| + 1] == ' '
    requires forall i :: 0 <= i < |m.body| ==> s[p + |m.key| + 2 + i] == m.body[i]
    requires s[p + |m.key| + 2 + |m.body|] == '\n' && s[p + |m.key| + 2 + |m.body| + 1] == '\n'
    ensures MatchAt(s, p) == Some(Hit(m, p + |m.key| + 2 + |m.body| + 2))
  {
    var k, b := m.key, m.body;
    var q := p + |k| + 2;
    forall i | p <= i < p + |k| ensures IsDigit(s[i]) {
      assert s[p + (i - p)] == k[i - p];
    }
    DigitRunExact(s, p, |k|);
    BlankAfterBody(s, q, b);
    assert s[p..p + |k|] == k;
    assert forall i :: 0 <= i < |b| ==> s[q..q + |b|][i] == b[i];
    assert s[q..q + |b|] == b;
  }

  /** `t` occurs in `s` at position `p`. */
  predicate OccursAt(s: string, p: nat, t: string)
    decreases |t|
  {
    p + |t| <= |s| && (|t| == 0 || (s[p] == t[0] && OccursAt(s, p + 1, t[1..])))
  }

  lemma {:induction false} OccursAtPointwise(s: string, p: nat, t: string)
    requires OccursAt(s, p, t)
    ensures p + |t| <= |s| && forall i :: 0 <= i < |t| ==> s[p + i] == t[i]
    decreases |t|
  {
    if |t| > 0 {
      OccursAtPointwise(s, p + 1, t[1..]);
      forall i | 0 <= i < |t| ensures s[p + i] == t[i] {
        if i > 0 {
          assert s[p + 1 + (i - 1)] == t[1..][i - 1];
        }
      }
    }
  }

  lemma {:induction false} OccursAtOfPointwise(s: string, p: nat, t: string)
    requires p + |t| <= |s| && forall i :: 0 <= i < |t| ==> s[p + i] == t[i]
    ensures OccursAt(s, p, t)
    decreases |t|
  {
    if |t| > 0 {
      assert forall i :: 0 <= i < |t| - 1 ==> t[1..][i] == t[i + 1];
      OccursAtOfPointwise(s, p + 1, t[1..]);
    }
  }

  lemma {:induction false} OccursSplit(s: string, p: nat, u: string, v: string)
    requires OccursAt(s, p, u + v)
    ensures OccursAt(s, p, u) && OccursAt(s, p + |u|, v)
    decreases |u|
  {
    if |u| > 0 {
      assert (u + v)[1..] == u[1..] + v;
      OccursSplit(s, p + 1, u[1..], v);
    } else {
      assert u + v == v;
    }
  }

  /** The same, for a block given as the text it is written as. */
  lemma MatchAtBlockText(s: string, p: nat, m: Match)
    requires WellFormed(m)
    requires OccursAt(s, p, Block(m) + "\n\n")
    ensures MatchAt(s, p) == Some(Hit(m, p + |Block(m) + "\n\n"|))
  {
    var k, b := m.key, m.body;
    var w := Block(m) + "\n\n";
    OccursAtPointwise(s, p, w);
    assert w == k + (". " + (b + "\n\n"));
    forall i | 0 <= i < |k| ensures s[p + i] == k[i] {
      assert w[i] == k[i];
    }
    assert w[|k|] == '.' && w[|k| + 1] == ' ';
    forall i | 0 <= i < |b| ensures s[p + |k| + 2 + i] == b[i] {
      assert w[|k| + 2 + i] == b[i];
    }
    assert w[|k| + 2 + |b|] == '\n' && w[|k| + 2 + |b| + 1] == '\n';
    MatchAtBlock(s, p, m);
  }

  lemma TerminatedBlocksCons(ms: seq<Match>)
    requires |ms| > 0
    ensures Terminated(Blocks(ms), "\n\n") == Block(ms[0]) + "\n\n" + Terminated(Blocks(ms[1..]), "\n\n")
  {
    assert Blocks(ms)[1..] == Blocks(ms[1..]);
  }

  lemma ScanStep(s: string, p: nat)
    requires p < |s| && MatchAt(s, p).Some?
    ensures MatchAt(s, p).value.end <= |s|
    ensures Scan(s, p) == [MatchAt(s, p).value.found] + Scan(s, MatchAt(s, p).value.end)
  {
  }

  lemma ConsChain<T>(x: seq<T>, y: seq<T>, z: seq<T>, a: seq<T>)
    requires |a| > 0 && x == [a[0]] + y && y == a[1..] + z
    ensures x == a + z
  {
    assert a == [a[0]] + a[1..];
  }

  /** Every match of `ms` is well formed, stated one match at a time. */
  predicate AllWellFormed(ms: seq<Match>)
    decreases |ms|
  {
    |ms| == 0 || (WellFormed(ms[0]) && AllWellFormed(ms[1..]))
  }

  lemma {:induction false} AllWellFormedOf(ms: seq<Match>)
    requires forall i :: 0 <= i < |ms| ==> WellFormed(ms[i])
    ensures AllWellFormed(ms)
    decreases |ms|
  {
    if |ms| > 0 {
      assert WellFormed(ms[0]);
      forall i | 0 <= i < |ms| - 1 ensures WellFormed(ms[1..][i]) {
        assert ms[1..][i] == ms[i + 1];
      }
      AllWellFormedOf(ms[1..]);
    }
  }

  /** One block followed by a blank line is read as one match. */
  lemma ScanBlock(s: string, p: nat, m: Match)
    requires WellFormed(m)
    requires OccursAt(s, p, Block(m) + "\n\n")
    ensures p + |Block(m) + "\n\n"| <= |s|
    ensures Scan(s, p) == [m] + Scan(s, p + |Block(m) + "\n\n"|)
  {
    MatchAtBlockText(s, p, m);
    ScanStep(s, p);
  }

  /** The blocks of `ms`, each followed by a blank line, occupy `s` from `p` to `q`. */
  predicate Lays(s: string, p: nat, ms: seq<Match>, q: nat)
    decreases |ms|
  {
    if |ms| == 0 then p == q <= |s|
    else OccursAt(s, p, Block(ms[0]) + "\n\n") && Lays(s, p + |Block(ms[0]) + "\n\n"|, ms[1..], q)
  }

  /** Text made of terminated blocks lays those blocks out one after another. */
  lemma {:induction false} TerminatedLays(s: string, p: nat, ms: seq<Match>)
    requires OccursAt(s, p, Terminated(Blocks(ms), "\n\n"))
    ensures Lays(s, p, ms, p + |Terminated(Blocks(ms), "\n\n")|)
    decreases |ms|
  {
    if |ms| > 0 {
      var w, rest := Block(ms[0]) + "\n\n", Terminated(Blocks(ms[1..]), "\n\n");
      TerminatedBlocksCons(ms);
      OccursSplit(s, p, w, rest);
      TerminatedLays(s, p + |w|, ms[1..]);
    }
  }

  /** Blocks laid out one after another are read back, in order. */
  lemma {:induction false} ScanLaid(s: string, p: nat, ms: seq<Match>, q: nat)
    requires AllWellFormed(ms)
    requires Lays(s, p, ms, q)
    requires p <= |s| && q <= |s|
    ensures Scan(s, p) == ms + Scan(s, q)
    decreases |ms|
  {
    if |ms| > 0 {
      var p2 := p + |Block(ms[0]) + "\n\n"|;
      ScanBlock(s, p, ms[0]);
      ScanLaid(s, p2, ms[1..], q);
      ConsChain(Scan(s, p), Scan(s, p2), Scan(s, q), ms);
    }
  }

  /**
   * Blocks joined by blank lines, the last one with no blank line after it,
   * are all read back: the trailing padding terminates the final block.
   */
  lemma ScanJoined(ms: seq<Match>)
    requires forall i :: 0 <= i < |ms| ==> WellFormed(ms[i])
    ensures Scan(Padded(Join(Blocks(ms), "\n\n")), 0) == ms
  {
    var s := Padded(Join(Blocks(ms), "\n\n"));
    if |ms| == 0 {
      assert s == "\n\n\n\n";
      NoDigitNoQuestions("");
      ScanEmptyIff(s, 0);
    } else {
      var t := Terminated(Blocks(ms), "\n\n");
      JoinThenSeparator(Blocks(ms), "\n\n");
      assert s == "\n\n" + t;
      OccursAtOfPointwise(s, 2, t);
      AllWellFormedOf(ms);
      TerminatedLays(s, 2, ms);
      ScanLaid(s, 2, ms, 2 + |t|);
      assert Scan(s, 2 + |t|) == [];
      assert Scan(s, 0) == Scan(s, 1) == Scan(s, 2);
    }
  }

  /**
   * Round trip: blocks with distinct keys, joined by blank lines, segment
   * into exactly those keys, each with its own body.
   */
  lemma {:induction false} GetQuestionsOfJoined(ms: seq<Match>)
    requires forall i :: 0 <= i < |ms| ==> WellFormed(ms[i])
    requires forall i, j :: 0 <= i < j < |ms| ==> ms[i].key != ms[j].key
    ensures var q := GetQuestions(Join(Blocks(ms), "\n\n"));
            && (forall k :: k in q <==> exists i :: 0 <= i < |ms| && ms[i].key == k)
            && (forall i :: 0 <= i < |ms| ==> q[ms[i].key] == ms[i].body)
  {
    ScanJoined(ms);
    FoldKeys(ms);
    forall i | 0 <= i < |ms| ensures GetQuestions(Join(Blocks(ms), "\n\n"))[ms[i].key] == ms[i].body {
      FoldLaterWins(ms, i);
      TrimOfTrimmed(ms[i].body);
    }
  }
}
