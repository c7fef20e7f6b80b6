/** The global filter state: its initial value and the single-field update. */
module FiltersContext {
  import opened Wrappers
  import opened Filters
  import opened Levels

  /** The state the dashboard starts in: every dimension "any" except the
      store, which starts on ST001, and the call date set to the previous day. */
  const InitialFilters: GlobalFilters := GlobalFilters(
    Some("any"), Some("any"), Some("any"), Some("ST001"), Some("any"), Some("any"),
    CallDateFilter(IsPrevious, None, None, Some(1.0), Some(Days)))

  /** `updateFilter(key, value)` for one of the six dimensions. */
  function UpdateFilter(f: GlobalFilters, d: Dimension, v: string): (r: GlobalFilters)
    ensures r.Field(d) == Some(v)
    ensures forall e :: e != d ==> r.Field(e) == f.Field(e)
    ensures r.callDate == f.callDate
  {
    match d
    case Brand => f.(brand := Some(v))
    case Owner => f.(owner := Some(v))
    case FranchiseId => f.(franchiseId := Some(v))
    case StoreId => f.(storeId := Some(v))
    case Channel => f.(channel := Some(v))
    case EngagementMode => f.(engagementMode := Some(v))
  }

  /** Two filters with the same dimension fields and call date are the same filter. */
  lemma FieldsDetermineFilter(f: GlobalFilters, g: GlobalFilters)
    requires forall d :: f.Field(d) == g.Field(d)
    requires f.callDate == g.callDate
    ensures f == g
  {
    assert f.brand == g.Field(Brand) && f.owner == g.Field(Owner) && f.franchiseId == g.Field(FranchiseId);
    assert f.storeId == g.Field(StoreId) && f.channel == g.Field(Channel) && f.engagementMode == g.Field(EngagementMode);
  }

  /** The last update of a field wins, and updates of different fields commute. */
  lemma UpdatesCompose(f: GlobalFilters, d: Dimension, e: Dimension, v: string, w: string)
    ensures UpdateFilter(UpdateFilter(f, d, v), d, w) == UpdateFilter(f, d, w)
    ensures d != e ==> UpdateFilter(UpdateFilter(f, d, v), e, w) == UpdateFilter(UpdateFilter(f, e, w), d, v)
  {
    FieldsDetermineFilter(UpdateFilter(UpdateFilter(f, d, v), d, w), UpdateFilter(f, d, w));
    if d != e {
      FieldsDetermineFilter(UpdateFilter(UpdateFilter(f, d, v), e, w), UpdateFilter(UpdateFilter(f, e, w), d, v));
    }
  }

  /** Setting a field back to the value it had changes nothing. */
  lemma UpdateWithSameValue(f: GlobalFilters, d: Dimension)
    requires f.Field(d).Some?
    ensures UpdateFilter(f, d, f.Field(d).value) == f
  {
    FieldsDetermineFilter(UpdateFilter(f, d, f.Field(d).value), f);
  }

  /** Every dimension but the store starts unconstrained, and the call date
      starts as "previous 1 day" with no dates. */
  lemma InitialState()
    ensures forall d :: d != StoreId ==> InitialFilters.Field(d) == Some("any") && !Concrete(InitialFilters.Field(d))
    ensures Concrete(InitialFilters.storeId)
    ensures InitialFilters.callDate.from.None? && InitialFilters.callDate.to.None?
  {
  }

  /** The dashboard starts with all three tiers active. */
  lemma InitialLevelsAreAllThree()
    ensures GetActiveLevels(InitialFilters) == AllLevels
  {
    ActiveLevelsCases(InitialFilters);
  }
}
