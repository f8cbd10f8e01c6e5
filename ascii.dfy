/**
 * Character classes and string helpers of JavaScript regular expressions
 * and `String.prototype` methods, restricted to ASCII: `\d`, `\w`, `\s`,
 * `trim`, `toLowerCase`, `String(n)` and `Number(digits)`.
 */
module Ascii {

  /** `\d` */
  predicate IsDigit(c: char) {
    '0' <= c <= '9'
  }

  /** `\w`: letters, digits and underscore. */
  predicate IsWordChar(c: char) {
    ('a' <= c <= 'z') || ('A' <= c <= 'Z') || IsDigit(c) || c == '_'
  }

  /** `\s` and the characters `trim` removes: space, tab, LF, VT, FF, CR. */
  predicate IsSpace(c: char) {
    c == ' ' || c == '\t' || c == '\n' || c == '\U{000B}' || c == '\U{000C}' || c == '\r'
  }

  predicate IsUpper(c: char) {
    'A' <= c <= 'Z'
  }

  /** A non-empty run of decimal digits. */
  predicate IsDigits(s: string) {
    |s| > 0 && forall i :: 0 <= i < |s| ==> IsDigit(s[i])
  }

  /** A blank line, "\n\n", starts at index `t` of `s`. */
  predicate BlankAt(s: string, t: nat) {
    t + 1 < |s| && s[t] == '\n' && s[t + 1] == '\n'
  }

  /** `s` holds a blank line, that is two consecutive line feeds. */
  predicate HasBlankLine(s: string) {
    exists t: nat | t < |s| :: BlankAt(s, t)
  }

  /** `s` has no leading and no trailing whitespace. */
  predicate IsTrimmed(s: string) {
    |s| > 0 ==> !IsSpace(s[0]) && !IsSpace(s[|s| - 1])
  }

  function LowerChar(c: char): (r: char)
    ensures !IsUpper(r)
    ensures IsWordChar(r) <==> IsWordChar(c)
  {
    if IsUpper(c) then (c as int + 32) as char else c
  }

  /** `toLowerCase` on ASCII text. */
  function ToLower(s: string): (r: string)
    ensures |r| == |s|
    ensures forall i :: 0 <= i < |s| ==> r[i] == LowerChar(s[i])
  {
    seq(|s|, i requires 0 <= i < |s| => LowerChar(s[i]))
  }

  /** Lower-casing twice is lower-casing once, and lower-case text is left alone. */
  lemma ToLowerIdempotent(s: string)
    ensures ToLower(ToLower(s)) == ToLower(s)
    ensures (forall i :: 0 <= i < |s| ==> !IsUpper(s[i])) ==> ToLower(s) == s
  {
  }

  function TrimStart(s: string): (r: string)
    ensures |r| <= |s| && r == s[|s| - |r|..]
    ensures |r| > 0 ==> !IsSpace(r[0])
    ensures forall i :: 0 <= i < |s| - |r| ==> IsSpace(s[i])
    decreases |s|
  {
    if |s| > 0 && IsSpace(s[0]) then TrimStart(s[1..]) else s
  }

  function TrimEnd(s: string): (r: string)
    ensures |r| <= |s| && r == s[..|r|]
    ensures |r| > 0 ==> !IsSpace(r[|r| - 1])
    ensures forall i :: |r| <= i < |s| ==> IsSpace(s[i])
    decreases |s|
  {
    if |s| > 0 && IsSpace(s[|s| - 1]) then TrimEnd(s[..|s| - 1]) else s
  }

  /** `trim`: drops leading and trailing whitespace, keeps the middle slice. */
  function Trim(s: string): (r: string)
    ensures IsTrimmed(r)
  {
    TrimEnd(TrimStart(s))
  }

  /** What `trim` keeps is a slice of its input. */
  lemma TrimIsSlice(s: string)
    ensures exists i, j :: 0 <= i <= j <= |s| && Trim(s) == s[i..j]
  {
    var t := TrimStart(s);
    assert Trim(s) == s[|s| - |t|..|s| - |t| + |Trim(s)|];
  }

  /** A slice of a string without blank lines has none either. */
  lemma SliceKeepsNoBlankLine(s: string, i: nat, j: nat)
    requires i <= j <= |s| && !HasBlankLine(s)
    ensures !HasBlankLine(s[i..j])
  {
    forall t: nat ensures !BlankAt(s[i..j], t) {
      assert !BlankAt(s, i + t);
    }
  }

  /** Trimming never introduces characters, so a blank line cannot appear. */
  lemma TrimKeepsNoBlankLine(s: string)
    requires !HasBlankLine(s)
    ensures !HasBlankLine(Trim(s))
  {
    TrimIsSlice(s);
    var i, j :| 0 <= i <= j <= |s| && Trim(s) == s[i..j];
    SliceKeepsNoBlankLine(s, i, j);
  }

  /** A slice holds only characters of the whole. */
  lemma SliceKeepsAbsentChar(s: string, i: nat, j: nat, c: char)
    requires i <= j <= |s| && c !in s
    ensures c !in s[i..j]
  {
    var t := s[i..j];
    forall k | 0 <= k < |t| ensures t[k] != c {
      assert t[k] == s[i + k];
    }
  }

  /** Trimming never introduces a character that was not in the input. */
  lemma TrimKeepsAbsentChar(s: string, c: char)
    requires c !in s
    ensures c !in Trim(s)
  {
    TrimIsSlice(s);
    var i, j :| 0 <= i <= j <= |s| && Trim(s) == s[i..j];
    SliceKeepsAbsentChar(s, i, j, c);
  }

  /** `trim` leaves trimmed text alone, so it is idempotent. */
  lemma {:induction false} TrimOfTrimmed(s: string)
    requires IsTrimmed(s)
    ensures Trim(s) == s
  {
  }

  function DigitChar(d: nat): (c: char)
    requires d < 10
    ensures IsDigit(c)
  {
    ('0' as int + d) as char
  }

  function DigitValue(c: char): (d: nat)
    requires IsDigit(c)
    ensures d < 10 && DigitChar(d) == c
  {
    c as int - '0' as int
  }

  /** `String(n)` for a non-negative integer: its decimal digits. */
  function Decimal(n: nat): (r: string)
    ensures IsDigits(r)
    decreases n
  {
    if n < 10 then [DigitChar(n)] else Decimal(n / 10) + [DigitChar(n % 10)]
  }

  /** `Number(s)` for a string of decimal digits (`Number("") == 0`). */
  function DigitsValue(s: string): nat
    requires forall i :: 0 <= i < |s| ==> IsDigit(s[i])
    decreases |s|
  {
    if |s| == 0 then 0 else DigitsValue(s[..|s| - 1]) * 10 + DigitValue(s[|s| - 1])
  }

  /** Parsing the decimal string of `n` gives `n` back. */
  lemma {:induction false} DecimalRoundTrip(n: nat)
    ensures DigitsValue(Decimal(n)) == n
  {
    var d := Decimal(n);
    if n < 10 {
      assert d[..|d| - 1] == [];
    } else {
      assert d[..|d| - 1] == Decimal(n / 10);
      DecimalRoundTrip(n / 10);
    }
  }

  /** Distinct numbers have distinct decimal strings. */
  lemma DecimalInjective(m: nat, n: nat)
    requires Decimal(m) == Decimal(n)
    ensures m == n
  {
    DecimalRoundTrip(m);
    DecimalRoundTrip(n);
  }

  /** `arr.join(sep)`. */
  function Join(xs: seq<string>, sep: string): string
  {
    if |xs| == 0 then "" else if |xs| == 1 then xs[0] else xs[0] + sep + Join(xs[1..], sep)
  }

  /** Every element followed by `sep`, concatenated. */
  function Terminated(xs: seq<string>, sep: string): string
  {
    if |xs| == 0 then "" else xs[0] + sep + Terminated(xs[1..], sep)
  }

  /** The lengths of all the strings of `xs`, added up. */
  function TotalLength(xs: seq<string>): nat
  {
    if |xs| == 0 then 0 else |xs[0]| + TotalLength(xs[1..])
  }

  /** Joining `n` strings puts `n - 1` separators between them and adds nothing else. */
  lemma {:induction false} JoinLength(xs: seq<string>, sep: string)
    requires |xs| > 0
    ensures |Join(xs, sep)| == TotalLength(xs) + (|xs| - 1) * |sep|
  {
    if |xs| > 1 {
      JoinLength(xs[1..], sep);
      assert (|xs| - 1) * |sep| == (|xs| - 2) * |sep| + |sep|;
    }
  }

  /** A join followed by one more separator terminates every element. */
  lemma {:induction false} JoinThenSeparator(xs: seq<string>, sep: string)
    requires |xs| > 0
    ensures Join(xs, sep) + sep == Terminated(xs, sep)
  {
    if |xs| > 1 {
      JoinThenSeparator(xs[1..], sep);
    }
  }
}
