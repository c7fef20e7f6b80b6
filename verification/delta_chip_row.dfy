/** One row of delta chips: the primary tier's value, the secondary values,
    and a signed chip per baseline the primary tier is compared with. */
module DeltaChipRow {
  import opened Wrappers
  import opened Numeric
  import opened Filters
  import opened Levels
  import opened Metrics
  import opened Format

  /** A chip: its caption and the signed delta it shows. */
  datatype Chip = Chip(caption: string, delta: SignedDelta)

  /** `DeltaChip`: positive when `delta >= 0`, a sign, and the magnitude formatted. */
  function DeltaChip(caption: string, delta: real, u: Unit): (c: Chip)
    ensures c.caption == caption
    ensures c.delta.nonNegative <==> delta >= 0.0
    ensures Sign(c.delta) == (if delta >= 0.0 then "+" else "\U{2212}")
    ensures c.delta.magnitude.number.value >= 0.0
    ensures c.delta.magnitude == FormatDelta(Abs(delta), u)
    ensures ReadBack(c.delta) == delta
  {
    SignDeltaRoundTrip(delta, u);
    Chip(caption, SignDelta(delta, u))
  }

  /** The tier whose value a scope puts first. */
  function PrimaryTier(s: Scope): LevelType {
    match s
    case BrandScope => BrandLevel
    case FranchiseScope => FranchiseeLevel
    case StoreScope => StoreLevel
  }

  function TierLabel(t: LevelType): string {
    match t
    case BrandLevel => "Brand"
    case FranchiseeLevel => "Franchise"
    case StoreLevel => "Store"
  }

  datatype RowView = RowView(
    name: string,
    primaryLabel: string,
    primaryValue: real,
    primary: Text,
    brandSecondary: Option<Text>,
    franchiseSecondary: Option<Text>,
    vsBrand: Option<Chip>,
    vsFranchise: Option<Chip>)

  /** The rendered content of `DeltaChipRow`. */
  function Row(m: LevelCompareMetric, levels: seq<LevelType>): (r: RowView)
    ensures r.primaryValue == TierValue(m, PrimaryTier(ScopeOf(levels)))
    ensures r.primaryLabel == TierLabel(PrimaryTier(ScopeOf(levels)))
    ensures r.primary == FormatValue(r.primaryValue, m.unit)
    ensures r.brandSecondary.Some? <==> FranchiseeLevel in levels
    ensures r.brandSecondary.Some? ==> r.brandSecondary.value == FormatValue(m.brandValue, m.unit)
    ensures r.franchiseSecondary.Some? <==> StoreLevel in levels
    ensures r.franchiseSecondary.Some? ==> r.franchiseSecondary.value == FormatValue(m.franchiseeValue, m.unit)
    ensures r.vsBrand.Some? <==> ScopeOf(levels) != BrandScope
    ensures r.vsFranchise.Some? <==> ScopeOf(levels) == StoreScope
    ensures r.vsBrand.Some? ==> r.vsBrand.value.caption == r.primaryLabel + " vs Brand"
    ensures r.vsBrand.Some? ==> m.brandValue + ReadBack(r.vsBrand.value.delta) == r.primaryValue
    ensures r.vsFranchise.Some? ==> r.vsFranchise.value.caption == r.primaryLabel + " vs Franchise"
    ensures r.vsFranchise.Some? ==> m.franchiseeValue + ReadBack(r.vsFranchise.value.delta) == r.primaryValue
  {
    var hasStore := StoreLevel in levels;
    var hasFranchise := FranchiseeLevel in levels;
    var primaryValue := if !hasStore && !hasFranchise then m.brandValue
      else if !hasStore && hasFranchise then m.franchiseeValue
      else m.storeValue;
    var primaryLabel := if !hasStore && !hasFranchise then "Brand"
      else if !hasStore && hasFranchise then "Franchise"
      else "Store";
    var vsBrand := if !hasStore && !hasFranchise then None else Some(primaryValue - m.brandValue);
    var vsFranchise := if hasStore then Some(primaryValue - m.franchiseeValue) else None;
    RowView(
      m.name, primaryLabel, primaryValue, FormatValue(primaryValue, m.unit),
      if hasFranchise then Some(FormatValue(m.brandValue, m.unit)) else None,
      if hasStore then Some(FormatValue(m.franchiseeValue, m.unit)) else None,
      if vsBrand.Some? then Some(DeltaChip(primaryLabel + " vs Brand", vsBrand.value, m.unit)) else None,
      if vsFranchise.Some? then Some(DeltaChip(primaryLabel + " vs Franchise", vsFranchise.value, m.unit)) else None)
  }

  /** The number of chips a row shows. */
  function ChipCount(r: RowView): nat {
    (if r.vsBrand.Some? then 1 else 0) + (if r.vsFranchise.Some? then 1 else 0)
  }

  /** For the tiers a global filter activates, a row compares its primary tier
      with every broader active tier: one chip fewer than there are tiers, and
      every secondary value shown belongs to an active tier. */
  lemma ChipsCompareWithEveryBroaderTier(m: LevelCompareMetric, f: GlobalFilters)
    ensures ChipCount(Row(m, GetActiveLevels(f))) == |GetActiveLevels(f)| - 1
    ensures Row(m, GetActiveLevels(f)).primaryValue == TierValue(m, GetActiveLevels(f)[|GetActiveLevels(f)| - 1])
  {
    ActiveLevelsCases(f);
  }
}
