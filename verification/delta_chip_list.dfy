/** The delta-chip section: the scope hint, a title and the scope sentence,
    then one chip row per metric. */
module DeltaChipList {
  import opened Wrappers
  import opened Levels
  import opened Metrics
  import LevelScopeHint
  import DeltaChipRow

  const StoreTitle := "Store vs Brand & Franchise"
  const FranchiseTitle := "Franchise vs Brand"
  const BrandTitle := "Brand View"

  /** The section title for a list of active tiers. */
  function Title(levels: seq<LevelType>): (t: string)
    ensures t == StoreTitle <==> ScopeOf(levels) == StoreScope
    ensures t == FranchiseTitle <==> ScopeOf(levels) == FranchiseScope
    ensures t == BrandTitle <==> ScopeOf(levels) == BrandScope
  {
    var hasStore := StoreLevel in levels;
    var hasFranchise := FranchiseeLevel in levels;
    if hasStore then StoreTitle else if hasFranchise then FranchiseTitle else BrandTitle
  }

  datatype ListView = ListView(
    hint: Option<string>,
    title: string,
    subtitle: string,
    rows: seq<DeltaChipRow.RowView>)

  /** The rendered section; `None` is the component rendering `null` for a
      missing or empty metric list. */
  function ChipList(metrics: Option<seq<LevelCompareMetric>>, levels: seq<LevelType>): (r: Option<ListView>)
    ensures r.None? <==> metrics.None? || |metrics.value| == 0
    ensures r.Some? ==> r.value.hint == LevelScopeHint.Hint(levels)
    ensures r.Some? ==> r.value.title == Title(levels)
    ensures r.Some? ==> r.value.subtitle == GetScopeLabel(levels)
    ensures r.Some? ==> |r.value.rows| == |metrics.value|
    ensures r.Some? ==> forall i :: 0 <= i < |r.value.rows| ==> r.value.rows[i] == DeltaChipRow.Row(metrics.value[i], levels)
  {
    if metrics.None? || |metrics.value| == 0 then None
    else
      var ms := metrics.value;
      Some(ListView(
        LevelScopeHint.Hint(levels),
        Title(levels),
        GetScopeLabel(levels),
        seq(|ms|, i requires 0 <= i < |ms| => DeltaChipRow.Row(ms[i], levels))))
  }

  /** Title and subtitle never disagree: each determines the other. */
  lemma TitleMatchesSubtitle(a: seq<LevelType>, b: seq<LevelType>)
    ensures Title(a) == Title(b) <==> GetScopeLabel(a) == GetScopeLabel(b)
  {
    ScopeLabelDeterminesScope(a, b);
  }
}
