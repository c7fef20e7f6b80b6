/** A metric segment row: the three tier bars, always all three and in tier
    order, scaled by one shared maximum. */
module MetricSegmentRow {
  import opened Wrappers
  import opened Numeric
  import opened Levels
  import opened Metrics
  import opened Format
  import StackedSegmentBar

  /** `Math.max(brandValue, franchiseeValue, storeValue)`. */
  function MaxValue(m: LevelCompareMetric): (r: real)
    ensures m.brandValue <= r && m.franchiseeValue <= r && m.storeValue <= r
    ensures r == m.brandValue || r == m.franchiseeValue || r == m.storeValue
  {
    Max(Max(m.brandValue, m.franchiseeValue), m.storeValue)
  }

  function BarTitle(t: LevelType): string {
    match t
    case BrandLevel => "Brand"
    case FranchiseeLevel => "Franchisee"
    case StoreLevel => "Store"
  }

  /** The rendered bars. */
  function Bars(m: LevelCompareMetric): (bs: seq<StackedSegmentBar.Bar>)
    ensures |bs| == 3
    ensures forall i :: 0 <= i < 3 ==> bs[i].level == AllLevels[i]
    ensures forall i :: 0 <= i < 3 ==>
      bs[i] == StackedSegmentBar.BarFor(AllLevels[i], BarTitle(AllLevels[i]),
        TierValue(m, AllLevels[i]), m.unit, Some(MaxValue(m)))
  {
    var mx := Some(MaxValue(m));
    [ StackedSegmentBar.BarFor(BrandLevel, "Brand", m.brandValue, m.unit, mx),
      StackedSegmentBar.BarFor(FranchiseeLevel, "Franchisee", m.franchiseeValue, m.unit, mx),
      StackedSegmentBar.BarFor(StoreLevel, "Store", m.storeValue, m.unit, mx) ]
  }

  /** With a positive maximum and a non-percentage unit, the largest tier
      fills its bar and the others are drawn in proportion to it. */
  lemma LargestTierFillsBar(m: LevelCompareMetric)
    requires ClassOf(m.unit) != PercentUnit && MaxValue(m) > 0.0
    ensures exists i :: 0 <= i < 3 && Bars(m)[i].width == 100.0
    ensures forall i :: 0 <= i < 3 ==> Bars(m)[i].width == Bars(m)[i].value / MaxValue(m) * 100.0
  {
    var bs := Bars(m);
    forall i | 0 <= i < 3
      ensures bs[i].width == bs[i].value / MaxValue(m) * 100.0
    {
      ProportionalBar(m, i);
    }
    var i := if MaxValue(m) == m.brandValue then 0 else if MaxValue(m) == m.franchiseeValue then 1 else 2;
    FullBar(m, i);
  }

  lemma ProportionalBar(m: LevelCompareMetric, i: nat)
    requires ClassOf(m.unit) != PercentUnit && MaxValue(m) > 0.0 && i < 3
    ensures Bars(m)[i].width == Bars(m)[i].value / MaxValue(m) * 100.0
  {
    var b := Bars(m)[i];
    var mx := MaxValue(m);
    assert b.value <= mx by {
      assert b.value == TierValue(m, AllLevels[i]);
    }
    assert b.width == StackedSegmentBar.WidthPct(b.value, m.unit, Some(mx));
    StackedSegmentBar.ScaledBar(b, m.unit, mx);
  }

  lemma FullBar(m: LevelCompareMetric, i: nat)
    requires ClassOf(m.unit) != PercentUnit && i < 3 && TierValue(m, AllLevels[i]) == MaxValue(m) > 0.0
    ensures Bars(m)[i].width == 100.0
  {
    var b := Bars(m)[i];
    assert b.width == StackedSegmentBar.WidthPct(MaxValue(m), m.unit, Some(MaxValue(m)));
  }

  /** With no positive tier, every tier value is at most 0, so each bar falls
      back to its own value as its width. */
  lemma NonPositiveMaxBars(m: LevelCompareMetric)
    requires ClassOf(m.unit) != PercentUnit && MaxValue(m) <= 0.0
    ensures forall i :: 0 <= i < 3 ==> Bars(m)[i].width == Bars(m)[i].value
  {
    var bs := Bars(m);
    forall i | 0 <= i < 3
      ensures bs[i].width == bs[i].value
    {
      assert bs[i].value == TierValue(m, AllLevels[i]) <= MaxValue(m);
      StackedSegmentBar.FallbackWidths(bs[i].value, m.unit, Some(MaxValue(m)));
    }
  }
}
