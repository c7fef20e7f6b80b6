/** One horizontal bar of a metric segment row: its width in percent and
    its value label. */
module StackedSegmentBar {
  import opened Wrappers
  import opened Numeric
  import opened Levels
  import opened Metrics
  import opened Format

  /** The scale of a non-percentage bar without a usable maximum: 1.2 times
      the value, but never below 100. */
  function FallbackMax(v: real): (r: real)
    ensures r >= 100.0
  {
    Max(v * 1.2, 100.0)
  }

  /** The bar width: percentages are clamped to [0, 100]; other units are
      scaled to `maxValue` when it is present and positive, else to `FallbackMax`. */
  function WidthPct(v: real, u: Unit, maxValue: Option<real>): (w: real)
    ensures w <= 100.0
    ensures v >= 0.0 ==> w >= 0.0
    ensures ClassOf(u) == PercentUnit ==> 0.0 <= w && (0.0 <= v <= 100.0 ==> w == v)
    ensures ClassOf(u) == PercentUnit && v < 0.0 ==> w == 0.0
    ensures ClassOf(u) == PercentUnit && v > 100.0 ==> w == 100.0
    ensures ClassOf(u) != PercentUnit && maxValue.Some? && maxValue.value > 0.0 ==>
      (v <= maxValue.value ==> w == v / maxValue.value * 100.0)
    ensures ClassOf(u) != PercentUnit && maxValue.Some? && maxValue.value > 0.0 ==>
      (v >= maxValue.value ==> w == 100.0)
  {
    if u == Some("%") then Clamp(v, 0.0, 100.0)
    else if maxValue.Some? && maxValue.value != 0.0 && maxValue.value > 0.0 then
      Percentage(v, maxValue.value);
      Min(100.0, (v / maxValue.value) * 100.0)
    else
      Percentage(v, FallbackMax(v));
      Min(100.0, (v / FallbackMax(v)) * 100.0)
  }

  /** Without a usable maximum (absent, zero or negative), a value up to
      100 / 1.2, negative ones included, is drawn at its own width, and any
      larger value at the same width 250 / 3. */
  lemma FallbackWidths(v: real, u: Unit, maxValue: Option<real>)
    requires ClassOf(u) != PercentUnit
    requires maxValue.None? || maxValue.value <= 0.0
    ensures v * 1.2 <= 100.0 ==> WidthPct(v, u, maxValue) == v
    ensures v * 1.2 >= 100.0 ==> WidthPct(v, u, maxValue) == 250.0 / 3.0
  {
    if v * 1.2 >= 100.0 {
      assert FallbackMax(v) == v * 1.2;
      CancelFactor(v, 1.2);
    } else {
      assert FallbackMax(v) == 100.0;
    }
  }

  /** A value up to a positive maximum is drawn in proportion to it. */
  lemma ScaledWidth(v: real, u: Unit, mx: real)
    requires ClassOf(u) != PercentUnit && 0.0 < mx && v <= mx
    ensures WidthPct(v, u, Some(mx)) == v / mx * 100.0
  {
  }

  datatype Bar = Bar(level: LevelType, title: string, value: real, width: real, text: Text)

  lemma ScaledBar(b: Bar, u: Unit, mx: real)
    requires ClassOf(u) != PercentUnit && 0.0 < mx && b.value <= mx
    requires b.width == WidthPct(b.value, u, Some(mx))
    ensures b.width == b.value / mx * 100.0
  {
    ScaledWidth(b.value, u, mx);
  }

  /** The rendered bar. */
  function BarFor(t: LevelType, title: string, v: real, u: Unit, maxValue: Option<real>): (b: Bar)
    ensures b.level == t && b.value == v
    ensures b.width == WidthPct(v, u, maxValue)
    ensures b.text == FormatLongValue(v, u)
  {
    Bar(t, title, v, WidthPct(v, u, maxValue), FormatLongValue(v, u))
  }
}
