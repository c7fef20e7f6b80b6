/** Tier-scope resolution: which of the brand, franchisee and store tiers a
    global filter activates, and the scope sentence shown for a set of
    active tiers. */
module Levels {
  import opened Filters

  datatype LevelType = BrandLevel | FranchiseeLevel | StoreLevel

  /** All tiers, broadest first. */
  const AllLevels: seq<LevelType> := [BrandLevel, FranchiseeLevel, StoreLevel]

  /** The narrowest tier a list of active tiers mentions. Every component reads
      the list through the same two tests: store present, else franchisee present. */
  datatype Scope = BrandScope | FranchiseScope | StoreScope

  function ScopeOf(levels: seq<LevelType>): (s: Scope)
    ensures s == StoreScope <==> StoreLevel in levels
    ensures s == FranchiseScope <==> StoreLevel !in levels && FranchiseeLevel in levels
    ensures s == BrandScope <==> StoreLevel !in levels && FranchiseeLevel !in levels
  {
    if StoreLevel in levels then StoreScope
    else if FranchiseeLevel in levels then FranchiseScope
    else BrandScope
  }

  /** The tiers a filter activates: a concrete store shows all three, a
      concrete franchise (without store) shows brand and franchisee, anything
      else shows brand alone. */
  function GetActiveLevels(f: GlobalFilters): (r: seq<LevelType>)
    ensures 1 <= |r| <= 3 && r == AllLevels[..|r|]
    ensures StoreLevel in r <==> Concrete(f.storeId)
    ensures FranchiseeLevel in r <==> Concrete(f.storeId) || Concrete(f.franchiseId)
  {
    var hasStore := Concrete(f.storeId);
    var hasFranchise := !hasStore && Concrete(f.franchiseId);
    if hasStore then [BrandLevel, FranchiseeLevel, StoreLevel]
    else if hasFranchise then [BrandLevel, FranchiseeLevel]
    else [BrandLevel]
  }

  /** The three source cases, read off the contract of `GetActiveLevels` alone. */
  lemma ActiveLevelsCases(f: GlobalFilters)
    ensures Concrete(f.storeId) ==> GetActiveLevels(f) == [BrandLevel, FranchiseeLevel, StoreLevel]
    ensures !Concrete(f.storeId) && Concrete(f.franchiseId) ==> GetActiveLevels(f) == [BrandLevel, FranchiseeLevel]
    ensures !Concrete(f.storeId) && !Concrete(f.franchiseId) ==> GetActiveLevels(f) == [BrandLevel]
  {
    var r := GetActiveLevels(f);
    assert r == AllLevels[..|r|];
    if |r| == 3 {
      assert StoreLevel == r[2];
    } else if |r| == 2 {
      assert StoreLevel !in r;
      assert FranchiseeLevel == r[1];
    } else {
      assert r == [BrandLevel];
    }
  }

  /** Only whether the store and the franchise are concrete matters. */
  lemma ActiveLevelsDependOnlyOnStoreAndFranchise(f: GlobalFilters, g: GlobalFilters)
    requires Concrete(f.storeId) == Concrete(g.storeId)
    requires Concrete(f.franchiseId) == Concrete(g.franchiseId)
    ensures GetActiveLevels(f) == GetActiveLevels(g)
  {
    ActiveLevelsCases(f);
    ActiveLevelsCases(g);
  }

  /** The active-tier list is exactly the prefix of `AllLevels` whose narrowest tier is its scope. */
  lemma ActiveLevelsPrefixOfScope(f: GlobalFilters)
    ensures GetActiveLevels(f) == AllLevels[..ScopeRank(ScopeOf(GetActiveLevels(f)))]
  {
    ActiveLevelsCases(f);
  }

  /** How many tiers a scope spans. */
  function ScopeRank(s: Scope): nat {
    match s
    case BrandScope => 1
    case FranchiseScope => 2
    case StoreScope => 3
  }

  const StoreScopeLabel := "Store vs Franchise vs Brand comparisons for the selected store."
  const FranchiseScopeLabel := "Franchise vs Brand view. Select a store to see store-level comparisons."
  const BrandScopeLabel := "Brand-level view. Narrow down by franchise or store to see deeper comparisons."

  /** The scope sentence for a list of active tiers. */
  function GetScopeLabel(levels: seq<LevelType>): (r: string)
    ensures r == StoreScopeLabel <==> StoreLevel in levels
    ensures r == FranchiseScopeLabel <==> StoreLevel !in levels && FranchiseeLevel in levels
    ensures r == BrandScopeLabel <==> StoreLevel !in levels && FranchiseeLevel !in levels
  {
    if StoreLevel in levels then StoreScopeLabel
    else if FranchiseeLevel in levels then FranchiseScopeLabel
    else BrandScopeLabel
  }

  /** The scope sentence names the scope: two tier lists get the same sentence
      exactly when they have the same scope. */
  lemma ScopeLabelDeterminesScope(a: seq<LevelType>, b: seq<LevelType>)
    ensures GetScopeLabel(a) == GetScopeLabel(b) <==> ScopeOf(a) == ScopeOf(b)
  {
  }

  /** Composed with `GetActiveLevels`, the three scopes give three different
      sentences: equal sentences mean equal active tiers. */
  lemma ScopeLabelsOfFiltersDistinct(f: GlobalFilters, g: GlobalFilters)
    ensures GetScopeLabel(GetActiveLevels(f)) == GetScopeLabel(GetActiveLevels(g))
        <==> GetActiveLevels(f) == GetActiveLevels(g)
  {
    ActiveLevelsCases(f);
    ActiveLevelsCases(g);
    ScopeLabelDeterminesScope(GetActiveLevels(f), GetActiveLevels(g));
  }
}
