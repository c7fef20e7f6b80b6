/** The hint shown above the comparison views: a nudge to narrow the scope,
    or nothing once a store is selected. */
module LevelScopeHint {
  import opened Wrappers
  import opened Filters
  import opened Levels

  const BrandOnlyHint := "Showing brand-level metrics only. Select a franchise or store to see comparisons."
  const FranchiseHint := "Comparing franchise vs brand. Select a store to add store-level comparison."

  /** The hint message; `None` is the component rendering `null`. */
  function Hint(levels: seq<LevelType>): (r: Option<string>)
    ensures r.None? <==> StoreLevel in levels
    ensures r == Some(BrandOnlyHint) <==> StoreLevel !in levels && FranchiseeLevel !in levels
    ensures r == Some(FranchiseHint) <==> StoreLevel !in levels && FranchiseeLevel in levels
  {
    var hasStore := StoreLevel in levels;
    var hasFranchise := FranchiseeLevel in levels;
    if !hasStore && !hasFranchise then Some(BrandOnlyHint)
    else if !hasStore && hasFranchise then Some(FranchiseHint)
    else None
  }

  /** From a global filter: the hint disappears exactly when a concrete store is selected. */
  lemma HintAbsentIffStoreSelected(f: GlobalFilters)
    ensures Hint(GetActiveLevels(f)).None? <==> Concrete(f.storeId)
  {
  }

  /** The hint and the scope sentence are chosen by the same scope: the hint
      is absent exactly when the sentence is the store one, and otherwise
      each hint goes with one sentence. */
  lemma HintFollowsScope(a: seq<LevelType>, b: seq<LevelType>)
    ensures Hint(a).None? <==> GetScopeLabel(a) == StoreScopeLabel
    ensures Hint(a) == Hint(b) <==> ScopeOf(a) == ScopeOf(b)
  {
  }
}
