/** Failure-compatible wrappers used across the model. */
module Wrappers {

  datatype Option<+T> = None | Some(value: T)

  datatype Result<+R, +E> = Success(value: R) | Failure(error: E)
}

/**
 * The part of JavaScript number semantics the engine depends on, over
 * exact reals: a number is either finite or NaN, and NaN absorbs every
 * arithmetic operation it takes part in.
 */
module JsNumber {

  datatype Num = Finite(value: real) | NaN

  /** `x + y`; NaN if either side is NaN. */
  function Add(x: Num, y: Num): (r: Num)
    ensures r.Finite? <==> x.Finite? && y.Finite?
    ensures r.Finite? ==> r.value == x.value + y.value
  {
    if x.Finite? && y.Finite? then Finite(x.value + y.value) else NaN
  }

  /** `x * k` for a finite factor `k`. */
  function Scale(x: Num, k: real): (r: Num)
    ensures r.Finite? <==> x.Finite?
    ensures r.Finite? ==> r.value == x.value * k
  {
    if x.Finite? then Finite(x.value * k) else NaN
  }

  /**
   * Addition is commutative, 0 is its identity and NaN absorbs it, so the
   * order in which the averaging loop adds scores does not matter.
   */
  lemma AddCommutes(x: Num, y: Num)
    ensures Add(x, y) == Add(y, x)
    ensures Add(x, Finite(0.0)) == x
    ensures Add(NaN, y) == NaN
  {
  }

  /** Scaling a ratio in [0, 1] by 100 gives a percentage, and NaN stays NaN. */
  lemma ScalePercent(x: Num)
    ensures x.NaN? ==> Scale(x, 100.0).NaN?
    ensures x.Finite? && 0.0 <= x.value <= 1.0 ==> InPercentRange(Scale(x, 100.0))
    ensures x.Finite? ==> (Scale(x, 100.0).value == 100.0 <==> x.value == 1.0)
  {
  }

  /** `x / n` for a positive integer divisor `n`. */
  function DivBy(x: Num, n: nat): (r: Num)
    requires n > 0
    ensures r.Finite? <==> x.Finite?
    ensures r.Finite? ==> r.value * (n as real) == x.value
  {
    if x.Finite? then Finite(x.value / (n as real)) else NaN
  }

  /** A finite number in the closed percentage range [0, 100]. */
  predicate InPercentRange(x: Num) {
    x.Finite? && 0.0 <= x.value <= 100.0
  }

  /** Multiplying by a positive number keeps a strict order. */
  lemma MulStrict(a: real, b: real, w: real)
    requires a > b && w > 0.0
    ensures a * w > b * w
  {
    assert (a - b) * w > 0.0;
  }

  /** A positive factor cancels from both sides of `<=`. */
  lemma CancelLe(a: real, b: real, w: real)
    requires w > 0.0 && a * w <= b * w
    ensures a <= b
  {
    if a > b {
      MulStrict(a, b, w);
    }
  }

  /** Facts about `p / w` for `0 <= p <= w` and positive `w`. */
  lemma UnitQuotient(p: real, w: real)
    requires 0.0 <= p <= w && w > 0.0
    ensures (p / w) * w == p
    ensures 0.0 <= p / w <= 1.0
    ensures p / w == 1.0 <==> p == w
    ensures p / w == 0.0 <==> p == 0.0
  {
    var x := p / w;
    assert x * w == p;
    CancelLe(0.0, x, w);
    CancelLe(x, 1.0, w);
    if p == w {
      CancelLe(1.0, x, w);
    }
    if p == 0.0 {
      CancelLe(x, 0.0, w);
    }
  }

  /**
   * `part / whole * 100` for counts with `part <= whole`: NaN for 0 / 0,
   * otherwise a percentage that is 100 exactly when `part == whole` and 0
   * exactly when `part == 0`.
   */
  function Percent(part: nat, whole: nat): (r: Num)
    requires part <= whole
    ensures r.NaN? <==> whole == 0
    ensures r.Finite? ==> r.value * (whole as real) == (part as real) * 100.0
    ensures r.Finite? ==> InPercentRange(r)
    ensures r.Finite? ==> (r.value == 100.0 <==> part == whole)
    ensures r.Finite? ==> (r.value == 0.0 <==> part == 0)
  {
    if whole == 0 then NaN
    else
      UnitQuotient(part as real, whole as real);
      Finite(part as real / whole as real * 100.0)
  }
}
