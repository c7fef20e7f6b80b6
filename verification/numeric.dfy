/** `Math.min`, `Math.max` and `Math.abs` over real numbers, and the
    `Math.max(lo, Math.min(hi, v))` clamp the components use. */
module Numeric {

  function Min(a: real, b: real): (m: real)
    ensures m <= a && m <= b
    ensures m == a || m == b
  {
    if a <= b then a else b
  }

  function Max(a: real, b: real): (m: real)
    ensures m >= a && m >= b
    ensures m == a || m == b
  {
    if a >= b then a else b
  }

  function Abs(x: real): (r: real)
    ensures r >= 0.0
    ensures r == x || r == -x
  {
    if x >= 0.0 then x else -x
  }

  /** `Math.max(lo, Math.min(hi, v))`. */
  function Clamp(v: real, lo: real, hi: real): (r: real)
    requires lo <= hi
    ensures lo <= r <= hi
    ensures lo <= v <= hi ==> r == v
    ensures v < lo ==> r == lo
    ensures v > hi ==> r == hi
  {
    Max(lo, Min(hi, v))
  }

  /** `Math.min(...s)` for a non-empty list. */
  function SeqMin(s: seq<real>): (m: real)
    requires |s| > 0
    ensures m in s
    ensures forall i :: 0 <= i < |s| ==> m <= s[i]
  {
    if |s| == 1 then s[0] else Min(s[0], SeqMin(s[1..]))
  }

  /** `Math.max(...s)` for a non-empty list. */
  function SeqMax(s: seq<real>): (m: real)
    requires |s| > 0
    ensures m in s
    ensures forall i :: 0 <= i < |s| ==> s[i] <= m
  {
    if |s| == 1 then s[0] else Max(s[0], SeqMax(s[1..]))
  }

  /** Dividing by a positive number keeps the order. */
  lemma DivMonotone(a: real, b: real, s: real)
    requires a <= b && s > 0.0
    ensures a / s <= b / s
  {
    assert b / s - a / s == (b - a) / s;
  }

  /** Zero over a non-zero divisor is 0, and the divisor over itself is 1. */
  lemma SelfAndZeroRatios(d: real)
    requires d != 0.0
    ensures 0.0 / d == 0.0 && d / d == 1.0
  {
  }

  /** A part of a positive whole is a fraction between 0 and 1; it is 0 only
      for an empty part and 1 for the whole. */
  lemma RatioInUnit(a: real, b: real)
    requires 0.0 <= a <= b && b > 0.0
    ensures 0.0 <= a / b <= 1.0
    ensures a / b == 0.0 <==> a == 0.0
    ensures a == b ==> a / b == 1.0
  {
    assert a / b * b == a;
  }

  /** A positive quantity against a positive multiple of itself is the
      reciprocal of the factor. */
  lemma CancelFactor(v: real, c: real)
    requires v > 0.0 && c > 0.0
    ensures v / (v * c) == 1.0 / c
  {
    var d := v * c;
    assert d > 0.0;
    var q := v / d;
    assert q * d == v;
    assert (q * c - 1.0) * v == 0.0;
    assert q * c == 1.0;
    assert 1.0 / c * c == 1.0;
  }

  /** `v / d * 100` for a positive `d`: non-negative with `v`, and at least
      100 exactly from `v = d` on. */
  lemma Percentage(v: real, d: real)
    requires d > 0.0
    ensures v >= 0.0 ==> v / d * 100.0 >= 0.0
    ensures v >= d ==> v / d * 100.0 >= 100.0
    ensures v <= d ==> v / d * 100.0 <= 100.0
  {
    assert d / d == 1.0;
    if v >= 0.0 {
      DivMonotone(0.0, v, d);
    }
    if v >= d {
      DivMonotone(d, v, d);
    } else {
      DivMonotone(v, d, d);
    }
  }
}
