/**
 * How the answer script normalises a reply: its own `eol`, which unifies
 * line endings and then collapses pairs of line feeds, followed by `trim`.
 */
module AnswerText {
  import opened Ascii
  import opened EndOfLine


  /** `replace(/\n\n/g, '\n')`: non-overlapping pairs of line feeds, left to right, become one. */
  function CollapsePairs(s: string): string
    decreases |s|
  {
    if |s| == 0 then ""
    else if |s| >= 2 && s[0] == '\n' && s[1] == '\n' then "\n" + CollapsePairs(s[2..])
    else [s[0]] + CollapsePairs(s[1..])
  }

  /** Collapsing never lengthens the text and brings in no carriage return. */
  lemma {:induction false} CollapseShape(s: string)
    ensures |CollapsePairs(s)| <= |s|
    ensures '\r' !in s ==> '\r' !in CollapsePairs(s)
    decreases |s|
  {
    if |s| >= 2 && s[0] == '\n' && s[1] == '\n' {
      CollapseShape(s[2..]);
      assert '\r' !in s ==> '\r' !in s[2..];
    } else if |s| > 0 {
      CollapseShape(s[1..]);
      assert '\r' !in s ==> '\r' !in s[1..];
    }
  }

  /** `eol` of the answer script: line endings unified, then pairs of line feeds collapsed. */
  function AiEol(s: string): (r: string)
    ensures '\r' !in r
    ensures |r| <= |s|
  {
    CollapseShape(Unify(s));
    CollapsePairs(Unify(s))
  }

  /** `k` line feeds. */
  function Newlines(k: nat): string {
    if k == 0 then "" else "\n" + Newlines(k - 1)
  }

  /** A pair of line feeds at the front becomes one. */
  lemma CollapseFrontPair(rest: string)
    ensures CollapsePairs("\n\n" + rest) == "\n" + CollapsePairs(rest)
  {
    assert ("\n\n" + rest)[2..] == rest;
  }

  /** A lone line feed at the front stays. */
  lemma CollapseFrontSingle(w: string)
    requires |w| == 0 || w[0] != '\n'
    ensures CollapsePairs("\n" + w) == "\n" + CollapsePairs(w)
  {
    assert ("\n" + w)[1..] == w;
  }

  /** Two more line feeds in the run give one more after collapsing. */
  lemma CollapseRunStep(k: nat, w: string)
    requires k >= 2
    requires CollapsePairs(Newlines(k - 2) + w) == Newlines((k - 1) / 2) + CollapsePairs(w)
    ensures CollapsePairs(Newlines(k) + w) == Newlines((k + 1) / 2) + CollapsePairs(w)
  {
    var rest := Newlines(k - 2) + w;
    var h := (k - 1) / 2;
    assert (k + 1) / 2 == h + 1;
    calc {
      CollapsePairs(Newlines(k) + w);
      { assert Newlines(k) + w == "\n\n" + rest; }
      CollapsePairs("\n\n" + rest);
      { CollapseFrontPair(rest); }
      "\n" + CollapsePairs(rest);
      "\n" + (Newlines(h) + CollapsePairs(w));
      { assert "\n" + (Newlines(h) + CollapsePairs(w)) == ("\n" + Newlines(h)) + CollapsePairs(w); }
      Newlines(h + 1) + CollapsePairs(w);
    }
  }

  /**
   * A maximal run of `k` line feeds becomes `ceil(k / 2)` of them: a run
   * followed by a character other than a line feed, or by nothing.
   */
  lemma {:induction false} CollapseRun(k: nat, w: string)
    requires |w| == 0 || w[0] != '\n'
    ensures CollapsePairs(Newlines(k) + w) == Newlines((k + 1) / 2) + CollapsePairs(w)
    decreases k
  {
    if k >= 2 {
      CollapseRun(k - 2, w);
      CollapseRunStep(k, w);
    } else if k == 1 {
      assert Newlines(1) + w == "\n" + w;
      CollapseFrontSingle(w);
    } else {
      assert Newlines(0) + w == w;
    }
  }

  /** A character that does not start a pair of line feeds stays. */
  lemma CollapseFrontChar(c: char, rest: string)
    requires c != '\n' || |rest| == 0 || rest[0] != '\n'
    ensures CollapsePairs([c] + rest) == [c] + CollapsePairs(rest)
  {
    assert ([c] + rest)[1..] == rest;
  }

  /** One step of `CollapseConcat` past a leading pair of line feeds. */
  lemma ConcatPairStep(rest: string, w: string)
    requires CollapsePairs(rest + w) == CollapsePairs(rest) + CollapsePairs(w)
    ensures CollapsePairs("\n\n" + (rest + w)) == CollapsePairs("\n\n" + rest) + CollapsePairs(w)
  {
    CollapseFrontPair(rest + w);
    CollapseFrontPair(rest);
    assert "\n" + (CollapsePairs(rest) + CollapsePairs(w)) == ("\n" + CollapsePairs(rest)) + CollapsePairs(w);
  }

  /** One step of `CollapseConcat` past a leading character that stays. */
  lemma ConcatCharStep(c: char, rest: string, w: string)
    requires |rest| > 0 && !(c == '\n' && rest[0] == '\n')
    requires CollapsePairs(rest + w) == CollapsePairs(rest) + CollapsePairs(w)
    ensures CollapsePairs([c] + (rest + w)) == CollapsePairs([c] + rest) + CollapsePairs(w)
  {
    CollapseFrontChar(c, rest + w);
    CollapseFrontChar(c, rest);
    assert [c] + (CollapsePairs(rest) + CollapsePairs(w)) == ([c] + CollapsePairs(rest)) + CollapsePairs(w);
  }

  /** Text that ends in a character other than a line feed is collapsed on its own. */
  lemma {:induction false} CollapseConcat(u: string, w: string)
    requires |u| > 0 && u[|u| - 1] != '\n'
    ensures CollapsePairs(u + w) == CollapsePairs(u) + CollapsePairs(w)
    decreases |u|
  {
    if |u| >= 2 && u[0] == '\n' && u[1] == '\n' {
      var rest := u[2..];
      assert u == "\n\n" + rest && u + w == "\n\n" + (rest + w);
      CollapseConcat(rest, w);
      ConcatPairStep(rest, w);
    } else if |u| == 1 {
      assert u == [u[0]] + "" && u + w == [u[0]] + w;
      CollapseFrontChar(u[0], w);
      CollapseFrontChar(u[0], "");
    } else {
      var rest := u[1..];
      assert u == [u[0]] + rest && u + w == [u[0]] + (rest + w);
      CollapseConcat(rest, w);
      ConcatCharStep(u[0], rest, w);
    }
  }

  /** Collapsing a maximal run inside text: `u`, then `ceil(k / 2)` line feeds, then `w`. */
  lemma CollapseRunInside(u: string, k: nat, w: string)
    requires |u| > 0 && u[|u| - 1] != '\n'
    requires |w| == 0 || w[0] != '\n'
    ensures CollapsePairs(u + Newlines(k) + w) == CollapsePairs(u) + Newlines((k + 1) / 2) + CollapsePairs(w)
  {
    assert u + Newlines(k) + w == u + (Newlines(k) + w);
    CollapseConcat(u, Newlines(k) + w);
    CollapseRun(k, w);
  }

  /** Three line feeds in a row start at index `t`. */
  predicate TripleAt(s: string, t: nat) {
    t + 2 < |s| && s[t] == '\n' && s[t + 1] == '\n' && s[t + 2] == '\n'
  }

  predicate HasTriple(s: string) {
    exists t: nat | t < |s| :: TripleAt(s, t)
  }

  /** A collapsed text starts with the first character of its input when that is not a line feed. */
  lemma CollapseHead(s: string)
    requires |s| > 0 && s[0] != '\n'
    ensures |CollapsePairs(s)| > 0 && CollapsePairs(s)[0] == s[0]
  {
  }

  /** Prefixing a character keeps a text free of blank lines unless it is a line feed before one. */
  lemma NoBlankCons(c: char, r: string)
    requires !HasBlankLine(r)
    requires c != '\n' || |r| == 0 || r[0] != '\n'
    ensures !HasBlankLine([c] + r)
  {
    var s := [c] + r;
    forall t: nat | t < |s| ensures !BlankAt(s, t) {
      if t > 0 {
        assert !BlankAt(r, t - 1);
      }
    }
  }

  /** Collapsing leaves a blank line only where the input had three line feeds in a row. */
  lemma {:induction false} CollapseLeavesNoBlankLine(s: string)
    requires !HasTriple(s)
    ensures !HasBlankLine(CollapsePairs(s))
    decreases |s|
  {
    if |s| == 0 {
    } else if |s| >= 2 && s[0] == '\n' && s[1] == '\n' {
      var rest := s[2..];
      assert !HasTriple(rest) by {
        forall t: nat | t < |rest| ensures !TripleAt(rest, t) {
          assert !TripleAt(s, t + 2);
        }
      }
      CollapseLeavesNoBlankLine(rest);
      if |rest| > 0 {
        assert !TripleAt(s, 0);
        CollapseHead(rest);
      }
      NoBlankCons('\n', CollapsePairs(rest));
    } else {
      var rest := s[1..];
      assert !HasTriple(rest) by {
        forall t: nat | t < |rest| ensures !TripleAt(rest, t) {
          assert !TripleAt(s, t + 1);
        }
      }
      CollapseLeavesNoBlankLine(rest);
      if s[0] == '\n' && |rest| > 0 {
        CollapseHead(rest);
      }
      NoBlankCons(s[0], CollapsePairs(rest));
    }
  }

  /** Three line feeds still leave a blank line: `"a\n\n\nb"` becomes `"a\n\nb"`. */
  lemma TripleKeepsBlankLine()
    ensures AiEol("a\n\n\nb") == "a\n\nb"
    ensures HasBlankLine(AiEol("a\n\n\nb"))
  {
    var s := "a\n\n\nb";
    assert s == "a" + Newlines(3) + "b" by {
      assert Newlines(3) == "\n\n\n";
    }
    assert "a" + Newlines(2) + "b" == "a\n\nb" by {
      assert Newlines(2) == "\n\n";
    }
    assert AiEol(s) == CollapsePairs(s) by {
      UnifyWithoutCr(s);
    }
    assert CollapsePairs(s) == "a\n\nb" by {
      CollapseRunInside("a", 3, "b");
      assert CollapsePairs("a") == "a" && CollapsePairs("b") == "b";
    }
    assert BlankAt("a\n\nb", 1);
  }

  /** The answer kept for one reply: `eol(message).trim()`. */
  function Answer(message: string): (r: string)
    ensures IsTrimmed(r) && '\r' !in r
  {
    var e := AiEol(message);
    TrimKeepsAbsentChar(e, '\r');
    Trim(e)
  }

  /**
   * Without three line feeds in a row, after line endings are unified, an
   * answer holds no blank line.
   */
  lemma AnswerHasNoBlankLine(message: string)
    requires !HasTriple(Unify(message))
    ensures !HasBlankLine(Answer(message))
  {
    CollapseLeavesNoBlankLine(Unify(message));
    TrimKeepsNoBlankLine(AiEol(message));
  }
}
