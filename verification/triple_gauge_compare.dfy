/** Three ring gauges, one per active tier: the brand gauge is the baseline,
    the others carry their delta to brand with an up or down arrow. */
module TripleGaugeCompare {
  import opened Wrappers
  import opened Filters
  import opened Numeric
  import opened Levels
  import opened Metrics
  import opened Format

  /** The full-scale value of a non-percentage unit. */
  function FullScale(u: Unit): (r: real)
    ensures r > 0.0
  {
    if u == Some("$") then 50.0 else if u == Some("mins") then 10.0 else 100.0
  }

  /** The fill of a gauge, out of 100: percentages are clamped to [0, 100];
      other units are scaled to their full-scale value and capped at 100 only
      from above. */
  function Normalize(v: real, u: Unit): (r: real)
    ensures r <= 100.0
    ensures ClassOf(u) == PercentUnit ==> 0.0 <= r && (0.0 <= v <= 100.0 ==> r == v)
    ensures ClassOf(u) == PercentUnit && v < 0.0 ==> r == 0.0
    ensures ClassOf(u) == PercentUnit && v > 100.0 ==> r == 100.0
    ensures ClassOf(u) != PercentUnit && v <= FullScale(u) ==> r == v / FullScale(u) * 100.0
    ensures ClassOf(u) != PercentUnit && v >= FullScale(u) ==> r == 100.0
  {
    if u == Some("%") then Clamp(v, 0.0, 100.0)
    else Min(100.0, (v / FullScale(u)) * 100.0)
  }

  /** A larger value never fills less. */
  lemma NormalizeMonotone(v1: real, v2: real, u: Unit)
    requires v1 <= v2
    ensures Normalize(v1, u) <= Normalize(v2, u)
  {
    if ClassOf(u) != PercentUnit {
      DivMonotone(v1, v2, FullScale(u));
    }
  }

  /** The lower bound is missing for non-percentage units: a negative dollar
      value gives a negative fill. */
  lemma NormalizeNotClampedBelow(v: real)
    requires v == -25.0
    ensures Normalize(v, Some("$")) == -50.0
  {
  }

  datatype Badge = Baseline | Delta(d: SignedDelta)

  datatype Gauge = Gauge(
    level: LevelType,
    title: string,
    value: real,
    fill: real,
    text: Text,
    badge: Badge,
    compact: bool)

  function GaugeTitle(t: LevelType): string {
    match t
    case BrandLevel => "Brand"
    case FranchiseeLevel => "Franchisee"
    case StoreLevel => "Store"
  }

  /** The gauge of one tier; brand is the baseline, every other tier shows its delta to brand. */
  function GaugeFor(m: LevelCompareMetric, t: LevelType, compact: bool): (g: Gauge)
    ensures g.level == t && g.title == GaugeTitle(t) && g.value == TierValue(m, t) && g.compact == compact
    ensures g.fill == Normalize(g.value, m.unit) && g.text == FormatValue(g.value, m.unit)
    ensures g.badge == Baseline <==> t == BrandLevel
    ensures g.badge.Delta? ==> g.badge.d == SignDelta(g.value - m.brandValue, m.unit)
  {
    var v := TierValue(m, t);
    Gauge(t, GaugeTitle(t), v, Normalize(v, m.unit), FormatValue(v, m.unit),
      if t == BrandLevel then Baseline else Delta(SignDelta(v - m.brandValue, m.unit)),
      compact)
  }

  /** The gauges rendered for a metric and a list of active tiers. */
  function Compare(m: LevelCompareMetric, levels: seq<LevelType>): (gs: seq<Gauge>)
    ensures |gs| == |ActiveTiers(levels)|
    ensures forall i :: 0 <= i < |gs| ==> gs[i].level == ActiveTiers(levels)[i]
    ensures forall i :: 0 <= i < |gs| ==> gs[i].value == TierValue(m, gs[i].level)
    ensures forall i :: 0 <= i < |gs| ==> gs[i].fill == Normalize(gs[i].value, m.unit)
    ensures forall i :: 0 <= i < |gs| ==>
      gs[i].title == GaugeTitle(gs[i].level) && gs[i].text == FormatValue(gs[i].value, m.unit)
    ensures forall i :: 0 <= i < |gs| ==> (gs[i].compact <==> |levels| == 3)
    ensures forall i :: 0 <= i < |gs| ==> (gs[i].badge == Baseline <==> gs[i].level == BrandLevel)
    ensures forall i :: 0 <= i < |gs| && gs[i].badge.Delta? ==>
      ReadBack(gs[i].badge.d) == gs[i].value - m.brandValue
    ensures forall i :: 0 <= i < |gs| && gs[i].badge.Delta? ==>
      gs[i].badge.d.magnitude == FormatDelta(Abs(gs[i].value - m.brandValue), m.unit)
  {
    var isCompact := |levels| == 3;
    var tiers := ActiveTiers(levels);
    var gs := seq(|tiers|, i requires 0 <= i < |tiers| => GaugeFor(m, tiers[i], isCompact));
    forall i | 0 <= i < |gs| && gs[i].badge.Delta?
      ensures ReadBack(gs[i].badge.d) == gs[i].value - m.brandValue
    {
      SignDeltaRoundTrip(gs[i].value - m.brandValue, m.unit);
    }
    gs
  }

  /** For the tiers a global filter activates, brand always comes first as the
      baseline, and compact mode is on exactly when a concrete store is selected. */
  lemma BrandGaugeFirstAndCompactWithStore(m: LevelCompareMetric, f: GlobalFilters)
    ensures |Compare(m, GetActiveLevels(f))| == |GetActiveLevels(f)|
    ensures Compare(m, GetActiveLevels(f))[0].badge == Baseline
    ensures Compare(m, GetActiveLevels(f))[0].compact <==> Concrete(f.storeId)
  {
    var levels := GetActiveLevels(f);
    ActiveTiersOfPrefix(levels);
    ActiveLevelsCases(f);
  }

  /** The arrow of a delta gauge is up exactly when the tier is at least the brand value. */
  lemma ArrowUpIffAtLeastBrand(m: LevelCompareMetric, levels: seq<LevelType>, i: nat)
    requires i < |Compare(m, levels)| && Compare(m, levels)[i].badge.Delta?
    ensures Arrow(Compare(m, levels)[i].badge.d) == "\U{25B2}" <==> Compare(m, levels)[i].value >= m.brandValue
  {
    var g := Compare(m, levels)[i];
    assert g == GaugeFor(m, g.level, |levels| == 3);
  }
}
