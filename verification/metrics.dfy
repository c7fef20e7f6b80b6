/** The per-metric record the comparison components receive, and the
    collection of the values of the active tiers in tier order. */
module Metrics {
  import opened Wrappers
  import opened Levels

  /** A metric unit: `"%"`, `"$"`, `"mins"`, `""`, or absent. */
  type Unit = Option<string>

  datatype LevelCompareMetric = LevelCompareMetric(
    id: string,
    name: string,
    unit: Unit,
    brandValue: real,
    franchiseeValue: real,
    storeValue: real)

  /** The value a metric reports for one tier. */
  function TierValue(m: LevelCompareMetric, t: LevelType): real {
    match t
    case BrandLevel => m.brandValue
    case FranchiseeLevel => m.franchiseeValue
    case StoreLevel => m.storeValue
  }

  /** The position of a tier in brand, franchisee, store order. */
  function TierRank(t: LevelType): nat {
    match t
    case BrandLevel => 0
    case FranchiseeLevel => 1
    case StoreLevel => 2
  }

  /** The tiers a component renders: those the active list mentions, in
      brand, franchisee, store order and each once, whatever the order or
      repetitions of the list. */
  function ActiveTiers(levels: seq<LevelType>): (r: seq<LevelType>)
    ensures BrandLevel in r <==> BrandLevel in levels
    ensures FranchiseeLevel in r <==> FranchiseeLevel in levels
    ensures StoreLevel in r <==> StoreLevel in levels
    ensures forall i, j :: 0 <= i < j < |r| ==> TierRank(r[i]) < TierRank(r[j])
  {
    (if BrandLevel in levels then [BrandLevel] else [])
    + (if FranchiseeLevel in levels then [FranchiseeLevel] else [])
    + (if StoreLevel in levels then [StoreLevel] else [])
  }

  /** The `values` array built by pushing each active tier's value in tier order. */
  function ActiveValues(m: LevelCompareMetric, levels: seq<LevelType>): (r: seq<real>)
    ensures |r| == |ActiveTiers(levels)|
    ensures forall i :: 0 <= i < |r| ==> r[i] == TierValue(m, ActiveTiers(levels)[i])
  {
    var b := if BrandLevel in levels then [m.brandValue] else [];
    var f := if FranchiseeLevel in levels then [m.franchiseeValue] else [];
    var s := if StoreLevel in levels then [m.storeValue] else [];
    b + f + s
  }

  /** For the lists `GetActiveLevels` produces, the rendered tiers are the list itself. */
  lemma ActiveTiersOfPrefix(levels: seq<LevelType>)
    requires 1 <= |levels| <= 3 && levels == AllLevels[..|levels|]
    ensures ActiveTiers(levels) == levels
  {
    if |levels| == 1 {
      assert levels == [BrandLevel];
    } else if |levels| == 2 {
      assert levels == [BrandLevel, FranchiseeLevel];
    } else {
      assert levels == AllLevels;
    }
  }
}
