/**
 * Line-ending unification: `content.replace(/\r\n/gm, '\n').replace(/\r/gm, '\n')`,
 * written once in the similarity script (`eol`) and once in the utilities
 * (`unifyEol`); the two are the same expression and are modelled by one
 * function.
 */
module EndOfLine {

  /** `replace(/\r\n/gm, '\n')`: non-overlapping CR LF pairs, left to right. */
  function ReplaceCrLf(s: string): (r: string)
    ensures |r| <= |s|
    ensures '\r' !in s ==> r == s
    decreases |s|
  {
    if |s| == 0 then ""
    else if |s| >= 2 && s[0] == '\r' && s[1] == '\n' then "\n" + ReplaceCrLf(s[2..])
    else [s[0]] + ReplaceCrLf(s[1..])
  }

  /** `replace(/\r/gm, '\n')`: every remaining CR. */
  function ReplaceCr(s: string): (r: string)
    ensures |r| == |s|
    ensures forall i :: 0 <= i < |s| ==> r[i] == (if s[i] == '\r' then '\n' else s[i])
  {
    seq(|s|, i requires 0 <= i < |s| => if s[i] == '\r' then '\n' else s[i])
  }

  /** The two chained replacements. */
  function Unify(s: string): (r: string)
    ensures '\r' !in r
    ensures |r| <= |s|
  {
    ReplaceCr(ReplaceCrLf(s))
  }

  /**
   * Reference reading of the contract, in one left-to-right pass: a CR LF
   * pair becomes one LF, a CR not followed by LF becomes one LF, and every
   * other character is kept.
   */
  function OnePass(s: string): string
    decreases |s|
  {
    if |s| == 0 then ""
    else if |s| >= 2 && s[0] == '\r' && s[1] == '\n' then "\n" + OnePass(s[2..])
    else if s[0] == '\r' then "\n" + OnePass(s[1..])
    else [s[0]] + OnePass(s[1..])
  }

  lemma ReplaceCrConcat(a: string, b: string)
    ensures ReplaceCr(a + b) == ReplaceCr(a) + ReplaceCr(b)
  {
  }

  /** The two chained replacements agree with the one-pass reading. */
  lemma {:induction false} UnifyIsOnePass(s: string)
    ensures Unify(s) == OnePass(s)
  {
    if |s| == 0 {
    } else if |s| >= 2 && s[0] == '\r' && s[1] == '\n' {
      UnifyIsOnePass(s[2..]);
      ReplaceCrConcat("\n", ReplaceCrLf(s[2..]));
    } else {
      UnifyIsOnePass(s[1..]);
      ReplaceCrConcat([s[0]], ReplaceCrLf(s[1..]));
    }
  }

  /** Text without CR is left unchanged. */
  lemma UnifyWithoutCr(s: string)
    requires '\r' !in s
    ensures Unify(s) == s
  {
  }

  /** Unifying twice is unifying once. */
  lemma UnifyIdempotent(s: string)
    ensures Unify(Unify(s)) == Unify(s)
  {
    UnifyWithoutCr(Unify(s));
  }
}
