/** The id an image's file name carries: the digits of the first `_digits.` in it. */
module ImageNames {
  import opened Wrappers
  import opened Ascii
  import opened Segmenter
  import opened Layout

  /** `/_(\d*)\./` matches at `p`: an underscore, a digit run, a period. */
  predicate IdAt(s: string, p: nat)
    requires p <= |s|
  {
    p < |s| && s[p] == '_' && p + 1 + DigitRun(s, p + 1) < |s| && s[p + 1 + DigitRun(s, p + 1)] == '.'
  }

  /** `Number` of the captured digits of a match at `p` (`Number("")` is 0). */
  function IdValue(s: string, p: nat): nat
    requires p <= |s| && IdAt(s, p)
  {
    DigitRunSpec(s, p + 1);
    DigitsValue(s[p + 1..p + 1 + DigitRun(s, p + 1)])
  }

  /**
   * `Number(/_(\d*)\./gm.exec(image)[1])` from position `p`: the leftmost
   * match, or `None` where `exec` returns null and the destructuring throws.
   * The greedy digit run never needs to backtrack, since a shorter run is
   * followed by a digit, not a period.
   */
  function IdFrom(s: string, p: nat): Option<nat>
    requires p <= |s|
    decreases |s| - p
  {
    if p == |s| then None
    else if IdAt(s, p) then Some(IdValue(s, p))
    else IdFrom(s, p + 1)
  }

  function ImageId(image: string): Option<nat> {
    IdFrom(image, 0)
  }

  /** The id is that of the leftmost match, and there is none exactly when nothing matches. */
  lemma {:induction false} IdFromSpec(s: string, p: nat)
    requires p <= |s|
    ensures IdFrom(s, p).None? <==> forall q :: p <= q <= |s| ==> !IdAt(s, q)
    ensures IdFrom(s, p).Some? ==>
      exists q :: p <= q <= |s| && IdAt(s, q) && IdFrom(s, p).value == IdValue(s, q) &&
        forall q' :: p <= q' < q ==> !IdAt(s, q')
    decreases |s| - p
  {
    if p < |s| && !IdAt(s, p) {
      IdFromSpec(s, p + 1);
      assert IdFrom(s, p) == IdFrom(s, p + 1);
      if IdFrom(s, p + 1).Some? {
        var q :| p + 1 <= q <= |s| && IdAt(s, q) && IdFrom(s, p + 1).value == IdValue(s, q) &&
          forall q' :: p + 1 <= q' < q ==> !IdAt(s, q');
        assert forall q' :: p <= q' < q ==> !IdAt(s, q');
      }
    } else if p < |s| {
      assert IdFrom(s, p).value == IdValue(s, p);
    }
  }

  /**
   * Appending text that starts with something other than a digit leaves a
   * digit run that starts inside `t` unchanged.
   */
  lemma {:induction false} DigitRunOfPrefix(s: string, t: string, p: nat)
    requires p <= |t| < |s| && s[..|t|] == t && !IsDigit(s[|t|])
    ensures DigitRun(s, p) == DigitRun(t, p)
    decreases |t| - p
  {
    if p < |t| {
      assert s[p] == t[p];
      if IsDigit(t[p]) {
        DigitRunOfPrefix(s, t, p + 1);
      }
    }
  }

  /**
   * A match in `t + "_" + rest` that starts before the appended underscore is
   * a match of `t` alone: the underscore ends every digit run and is no period.
   */
  lemma NoIdBeforeUnderscore(t: string, rest: string, q: nat)
    requires q < |t|
    ensures IdAt(t + "_" + rest, q) ==> IdAt(t, q)
  {
    var s := t + "_" + rest;
    assert s[..|t|] == t && s[|t|] == '_';
    DigitRunOfPrefix(s, t, q + 1);
    var n := DigitRun(t, q + 1);
    assert s[q] == t[q];
    if q + 1 + n < |t| {
      assert s[q + 1 + n] == t[q + 1 + n];
    }
  }

  /**
   * A file name whose directory and stem hold no match of their own,
   * followed by `_N.ext`, gives the id N.
   */
  lemma ImageIdOfName(prefix: string, n: nat, ext: string)
    requires ImageId(prefix).None?
    ensures ImageId(prefix + "_" + Decimal(n) + "." + ext) == Some(n)
  {
    var d := Decimal(n);
    var s := prefix + "_" + d + "." + ext;
    var p := |prefix|;
    IdFromSpec(prefix, 0);
    assert s == prefix + "_" + (d + "." + ext);
    forall q | 0 <= q < p ensures !IdAt(s, q) {
      NoIdBeforeUnderscore(prefix, d + "." + ext, q);
    }
    assert s[p] == '_';
    forall i | p + 1 <= i < p + 1 + |d| ensures IsDigit(s[i]) {
      assert s[i] == d[i - p - 1];
    }
    DigitRunExact(s, p + 1, |d|);
    assert s[p + 1..p + 1 + |d|] == d;
    DecimalRoundTrip(n);
    IdFromOf(s, 0, p);
  }

  /** An underscore directly before the period gives id 0 (`Number("")`). */
  lemma ImageIdEmptyDigits(prefix: string, ext: string)
    requires ImageId(prefix).None?
    ensures ImageId(prefix + "_." + ext) == Some(0)
  {
    var s := prefix + "_." + ext;
    var p := |prefix|;
    IdFromSpec(prefix, 0);
    assert s == prefix + "_" + ("." + ext);
    forall q | 0 <= q < p ensures !IdAt(s, q) {
      NoIdBeforeUnderscore(prefix, "." + ext, q);
    }
    assert s[p] == '_' && s[p + 1] == '.';
    assert DigitRun(s, p + 1) == 0;
    assert s[p + 1..p + 1] == "";
    IdFromOf(s, 0, p);
  }

  /** A path as `glob` returns it under the answers directory. */
  lemma ImageIdOfPath()
    ensures ImageId("./Tyrimo_failai/d/img_12.png") == Some(12)
  {
    var prefix := "./Tyrimo_failai/d/img";
    IdFromSpec(prefix, 0);
    forall q | 0 <= q <= |prefix| ensures !IdAt(prefix, q) {
      if q == 8 {
        assert DigitRun(prefix, 9) == 0;
      }
    }
    assert Decimal(12) == "12";
    assert prefix + "_" + Decimal(12) + "." + "png" == "./Tyrimo_failai/d/img_12.png";
    ImageIdOfName(prefix, 12, "png");
  }

  /** The scan from `p` reaches a match at `q` when nothing matches in between. */
  lemma {:induction false} IdFromOf(s: string, p: nat, q: nat)
    requires p <= q < |s| && IdAt(s, q)
    requires forall r :: p <= r < q ==> !IdAt(s, r)
    ensures IdFrom(s, p) == Some(IdValue(s, q))
    decreases q - p
  {
    if p < q {
      IdFromOf(s, p + 1, q);
    }
  }
}
