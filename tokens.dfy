/**
 * The word tokenizer of the metrics: `text.toLowerCase().split(/\W+/)`
 * followed by `filter(Boolean)`, on ASCII text. The same maximal runs of
 * `[A-Za-z0-9_]` are what the cosine metric's word tokenizer returns on
 * ASCII text, so both metrics use `Tokens`.
 */
module Tokenizer {
  import opened Ascii

  /** Every character of `t` is a word character. */
  predicate IsWord(t: string) {
    forall j :: 0 <= j < |t| ==> IsWordChar(t[j])
  }

  /** Length of the maximal run of non-word characters starting at `p`. */
  function NonWordRun(s: string, p: nat): (n: nat)
    requires p <= |s|
    ensures p + n <= |s|
    ensures forall i :: p <= i < p + n ==> !IsWordChar(s[i])
    ensures p + n == |s| || IsWordChar(s[p + n])
    decreases |s| - p
  {
    if p < |s| && !IsWordChar(s[p]) then 1 + NonWordRun(s, p + 1) else 0
  }

  /**
   * `s.split(/\W+/)`: the pieces between maximal runs of non-word
   * characters, with an empty first (last) piece when `s` starts (ends) with
   * a separator, and `[""]` for the empty string.
   */
  function Split(s: string): (r: seq<string>)
    ensures |r| > 0
    ensures forall i :: 0 <= i < |r| ==> IsWord(r[i])
    decreases |s|
  {
    if |s| == 0 then [""]
    else if IsWordChar(s[0]) then
      var r := Split(s[1..]);
      [[s[0]] + r[0]] + r[1..]
    else
      var n := NonWordRun(s, 0);
      [""] + Split(s[n..])
  }

  /** `filter(Boolean)` on strings: the non-empty ones, in order. */
  function NonEmpty(xs: seq<string>): seq<string>
  {
    if |xs| == 0 then []
    else if |xs[0]| == 0 then NonEmpty(xs[1..])
    else [xs[0]] + NonEmpty(xs[1..])
  }

  /** What is kept is non-empty and comes from `xs`. */
  lemma {:induction false} NonEmptyShape(xs: seq<string>)
    ensures forall i :: 0 <= i < |NonEmpty(xs)| ==> |NonEmpty(xs)[i]| > 0 && NonEmpty(xs)[i] in xs
  {
    if |xs| > 0 {
      NonEmptyShape(xs[1..]);
      assert forall t :: t in xs[1..] ==> t in xs;
    }
  }

  /** The tokens of a text: non-empty, made of word characters, lower-case. */
  function Tokens(text: string): (r: seq<string>)
    ensures forall i :: 0 <= i < |r| ==> |r[i]| > 0 && IsWord(r[i])
    ensures forall i, j :: 0 <= i < |r| && 0 <= j < |r[i]| ==> !IsUpper(r[i][j])
  {
    var lower := ToLower(text);
    var r := NonEmpty(Split(lower));
    NonEmptyShape(Split(lower));
    forall i, j | 0 <= i < |r| && 0 <= j < |r[i]| ensures !IsUpper(r[i][j]) {
      SplitPiecesOf(lower, r[i], j);
    }
    r
  }

  /** A character of a piece of `s` is a character of `s`. */
  lemma {:induction false} SplitPiecesOf(s: string, t: string, j: nat)
    requires t in Split(s) && j < |t|
    ensures t[j] in s
    decreases |s|
  {
    if IsWordChar(s[0]) {
      var r := Split(s[1..]);
      if t == [s[0]] + r[0] {
        if j > 0 {
          SplitPiecesOf(s[1..], r[0], j - 1);
        }
      } else {
        assert t in r;
        SplitPiecesOf(s[1..], t, j);
      }
    } else {
      var n := NonWordRun(s, 0);
      assert t in Split(s[n..]);
      SplitPiecesOf(s[n..], t, j);
    }
  }

  /** The word characters of `s`, in order. */
  function WordChars(s: string): string {
    if |s| == 0 then "" else (if IsWordChar(s[0]) then [s[0]] else "") + WordChars(s[1..])
  }

  /** All the strings of `xs`, concatenated. */
  function Flatten(xs: seq<string>): string {
    if |xs| == 0 then "" else xs[0] + Flatten(xs[1..])
  }

  lemma {:induction false} WordCharsSkip(s: string, n: nat)
    requires n <= |s| && forall i :: 0 <= i < n ==> !IsWordChar(s[i])
    ensures WordChars(s) == WordChars(s[n..])
    decreases n
  {
    if n > 0 {
      assert s[1..][n - 1..] == s[n..];
      WordCharsSkip(s[1..], n - 1);
    }
  }

  /** Splitting loses exactly the separators: the pieces spell the word characters. */
  lemma {:induction false} SplitSpellsWordChars(s: string)
    ensures Flatten(Split(s)) == WordChars(s)
    decreases |s|
  {
    if |s| > 0 {
      if IsWordChar(s[0]) {
        var r := Split(s[1..]);
        SplitSpellsWordChars(s[1..]);
        assert r == [r[0]] + r[1..];
        assert Flatten(r) == r[0] + Flatten(r[1..]);
        assert ([[s[0]] + r[0]] + r[1..])[1..] == r[1..];
      } else {
        var n := NonWordRun(s, 0);
        SplitSpellsWordChars(s[n..]);
        WordCharsSkip(s, n);
        assert ([""] + Split(s[n..]))[1..] == Split(s[n..]);
      }
    }
  }

  /** Dropping empty strings does not change the concatenation. */
  lemma {:induction false} FlattenNonEmpty(xs: seq<string>)
    ensures Flatten(NonEmpty(xs)) == Flatten(xs)
  {
    if |xs| > 0 {
      FlattenNonEmpty(xs[1..]);
      if |xs[0]| > 0 {
        assert ([xs[0]] + NonEmpty(xs[1..]))[1..] == NonEmpty(xs[1..]);
      }
    }
  }

  /** The tokens, concatenated, are the word characters of the lower-cased text. */
  lemma TokensSpellWordChars(text: string)
    ensures Flatten(Tokens(text)) == WordChars(ToLower(text))
  {
    FlattenNonEmpty(Split(ToLower(text)));
    SplitSpellsWordChars(ToLower(text));
  }

  /** Length of the maximal run of word characters starting at `p`. */
  function WordRun(s: string, p: nat): (n: nat)
    requires p <= |s|
    ensures p + n <= |s|
    ensures forall i :: p <= i < p + n ==> IsWordChar(s[i])
    ensures p + n == |s| || !IsWordChar(s[p + n])
    decreases |s| - p
  {
    if p < |s| && IsWordChar(s[p]) then 1 + WordRun(s, p + 1) else 0
  }

  /** `s` is empty or starts with a separator character. */
  predicate StartsApart(s: string) {
    |s| == 0 || !IsWordChar(s[0])
  }

  /** A text that is empty or starts with a separator splits with an empty first piece. */
  lemma SplitApartHead(s: string)
    requires StartsApart(s)
    ensures Split(s)[0] == ""
  {
  }

  /** A word followed by a separator (or nothing) is one whole piece of the split. */
  lemma {:induction false} SplitWordThen(w: string, s: string)
    requires IsWord(w) && StartsApart(s)
    ensures Split(w + s) == [w] + Split(s)[1..]
    decreases |w|
  {
    if |w| == 0 {
      SplitApartHead(s);
      assert w + s == s;
    } else {
      assert (w + s)[1..] == w[1..] + s;
      SplitWordThen(w[1..], s);
      assert [w[0]] + w[1..] == w;
    }
  }

  /** A separator in front changes nothing once empty pieces are dropped. */
  lemma SkipSeparator(s: string)
    requires |s| > 0 && !IsWordChar(s[0])
    ensures NonEmpty(Split(s)) == NonEmpty(Split(s[1..]))
  {
    var n := NonWordRun(s, 0);
    assert n == 1 + NonWordRun(s, 1);
    if n > 1 {
      assert NonWordRun(s[1..], 0) == n - 1 by {
        NonWordRunShift(s, 1, 0);
      }
      assert s[1..][n - 1..] == s[n..];
    }
  }

  /** The separator run measured inside a suffix is the one measured in the whole. */
  lemma {:induction false} NonWordRunShift(s: string, k: nat, p: nat)
    requires k + p <= |s|
    ensures NonWordRun(s[k..], p) == NonWordRun(s, k + p)
    decreases |s| - k - p
  {
    if k + p < |s| {
      assert s[k..][p] == s[k + p];
      if !IsWordChar(s[k + p]) {
        NonWordRunShift(s, k, p + 1);
      }
    }
  }

  /** A leading word is the first kept piece, and the rest comes from what follows it. */
  lemma WordThenRest(w: string, rest: string)
    requires |w| > 0 && IsWord(w) && StartsApart(rest)
    ensures NonEmpty(Split(w + rest)) == [w] + NonEmpty(Split(rest))
  {
    SplitWordThen(w, rest);
    SplitApartHead(rest);
    var r := Split(rest);
    assert r == [r[0]] + r[1..];
    assert ([w] + r[1..])[1..] == r[1..];
  }

  /** Splitting at a separator character: the kept pieces of both sides, in order. */
  lemma {:induction false} SplitAtSeparator(a: string, c: char, b: string)
    requires !IsWordChar(c)
    ensures NonEmpty(Split(a + [c] + b)) == NonEmpty(Split(a)) + NonEmpty(Split(b))
    decreases |a|
  {
    var s := a + [c] + b;
    if |a| == 0 {
      assert s == [c] + b && s[1..] == b;
      SkipSeparator(s);
    } else if !IsWordChar(a[0]) {
      assert s[1..] == a[1..] + [c] + b;
      SkipSeparator(s);
      SkipSeparator(a);
      SplitAtSeparator(a[1..], c, b);
    } else {
      var n := WordRun(a, 0);
      var w, a' := a[..n], a[n..];
      assert IsWord(w);
      assert s == w + (a' + [c] + b) && a == w + a';
      WordThenRest(w, a' + [c] + b);
      WordThenRest(w, a');
      SplitAtSeparator(a', c, b);
    }
  }

  /** A text that is one word is one token: the word, lower-cased. */
  lemma TokensOfWord(w: string)
    requires |w| > 0 && IsWord(w)
    ensures Tokens(w) == [ToLower(w)]
  {
    var lw := ToLower(w);
    assert IsWord(lw);
    SplitWordThen(lw, "");
    assert lw + "" == lw;
    assert NonEmpty([lw]) == [lw] + NonEmpty([]);
  }

  /**
   * Tokens break exactly at separators: a non-word character splits a text
   * into the tokens of the part before it and those of the part after it.
   * With TokensOfWord this fixes the tokens as the maximal word runs.
   */
  lemma TokensAtSeparator(a: string, c: char, b: string)
    requires !IsWordChar(c)
    ensures Tokens(a + [c] + b) == Tokens(a) + Tokens(b)
  {
    assert ToLower(a + [c] + b) == ToLower(a) + [LowerChar(c)] + ToLower(b);
    SplitAtSeparator(ToLower(a), LowerChar(c), ToLower(b));
  }

  /** Tokenizing does not see case: lower-cased text has the same tokens. */
  lemma TokensIgnoreCase(text: string)
    ensures Tokens(ToLower(text)) == Tokens(text)
  {
    ToLowerIdempotent(text);
  }

  /** A word character at `i` leaves something in the word characters. */
  lemma {:induction false} WordCharsNonEmpty(s: string, i: nat)
    requires i < |s| && IsWordChar(s[i])
    ensures |WordChars(s)| > 0
    decreases i
  {
    if !IsWordChar(s[0]) {
      WordCharsNonEmpty(s[1..], i - 1);
    }
  }

  /** A text has a token exactly when it holds a word character. */
  lemma HasTokenIff(text: string)
    ensures |Tokens(text)| > 0 <==> exists i :: 0 <= i < |text| && IsWordChar(text[i])
  {
    if i :| 0 <= i < |text| && IsWordChar(text[i]) {
      TokensSpellWordChars(text);
      WordCharsNonEmpty(ToLower(text), i);
    } else {
      NoWordCharNoTokens(text);
    }
  }

  /** A text without word characters has no tokens. */
  lemma {:induction false} NoWordCharNoTokens(text: string)
    requires forall i :: 0 <= i < |text| ==> !IsWordChar(text[i])
    ensures Tokens(text) == []
  {
    var lower := ToLower(text);
    assert forall i :: 0 <= i < |lower| ==> !IsWordChar(lower[i]);
    var n := NonWordRun(lower, 0);
    if |lower| > 0 {
      assert lower[n..] == [];
      assert Split(lower) == ["", ""];
      assert ["", ""][1..] == [""];
      assert NonEmpty([""]) == [];
    }
  }
}
