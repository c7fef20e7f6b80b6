/** The bubble triad: one bubble per active tier, sized between 48 and 80
    pixels by where its value lies between the smallest and the largest
    active value, placed by how many tiers are active, and joined by a
    signed delta for every pair of active tiers. */
module BubbleTriadCard {
  import opened Wrappers
  import opened Filters
  import opened Numeric
  import opened Levels
  import opened Metrics
  import opened Format

  /** `Math.min(...values)`, or 0 for no values. */
  function Lowest(values: seq<real>): (r: real)
    ensures |values| > 0 ==> r in values && forall i :: 0 <= i < |values| ==> r <= values[i]
    ensures |values| == 0 ==> r == 0.0
  {
    if |values| > 0 then SeqMin(values) else 0.0
  }

  /** `Math.max(...values)`, or 1 for no values. */
  function Highest(values: seq<real>): (r: real)
    ensures |values| > 0 ==> r in values && forall i :: 0 <= i < |values| ==> values[i] <= r
    ensures |values| == 0 ==> r == 1.0
  {
    if |values| > 0 then SeqMax(values) else 1.0
  }

  /** `max - min || 1`: the spread, or 1 when it is zero. */
  function Spread(lo: real, hi: real): (r: real)
    ensures r != 0.0
    ensures lo <= hi ==> r > 0.0
    ensures lo != hi ==> r == hi - lo
  {
    if hi - lo == 0.0 then 1.0 else hi - lo
  }

  /** The diameter of a bubble holding `v`. */
  function Size(v: real, lo: real, hi: real): (r: real)
    ensures v == lo ==> r == 48.0
    ensures lo == hi ==> r == 48.0 + (v - lo) * 32.0
    ensures lo != hi ==> r == 48.0 + (v - lo) / (hi - lo) * 32.0
  {
    48.0 + ((v - lo) / Spread(lo, hi)) * 32.0
  }

  /** A value between the extremes gets a diameter between 48 and 80; the
      smallest value, and only it, gets 48; the largest gets 80 when the
      extremes differ. */
  lemma SizeBounds(v: real, lo: real, hi: real)
    requires lo <= v <= hi
    ensures 48.0 <= Size(v, lo, hi) <= 80.0
    ensures Size(v, lo, hi) == 48.0 <==> v == lo
    ensures lo < hi && v == hi ==> Size(v, lo, hi) == 80.0
  {
    if lo < hi {
      RatioInUnit(v - lo, hi - lo);
    }
  }

  /** Bubbles keep the order of their values. */
  lemma {:induction false} SizeMonotone(v1: real, v2: real, lo: real, hi: real)
    requires v1 <= v2 && lo <= hi
    ensures Size(v1, lo, hi) <= Size(v2, lo, hi)
  {
    DivMonotone(v1 - lo, v2 - lo, Spread(lo, hi));
  }

  datatype Pos = Pos(x: int, y: int)

  datatype Layout = Layout(brand: Pos, franchisee: Pos, store: Pos)

  /** Where each bubble sits, in percent of the card. */
  function Positions(levels: seq<LevelType>): (l: Layout)
    ensures forall t: LevelType :: 0 <= PosOf(l, t).x <= 100 && 0 <= PosOf(l, t).y <= 100
    ensures BrandLevel !in levels ==> l.brand == Pos(50, 25)
  {
    var showBrand := BrandLevel in levels;
    var showFranchise := FranchiseeLevel in levels;
    var showStore := StoreLevel in levels;
    var activeCount := |levels|;
    var defaults := Layout(Pos(50, 25), Pos(25, 70), Pos(75, 70));
    if activeCount == 1 && showBrand then defaults.(brand := Pos(50, 50))
    else if activeCount == 2 then
      if showBrand && showFranchise then defaults.(brand := Pos(30, 50), franchisee := Pos(70, 50))
      else if showBrand && showStore then defaults.(brand := Pos(30, 50), store := Pos(70, 50))
      else if showFranchise && showStore then defaults.(franchisee := Pos(30, 50), store := Pos(70, 50))
      else defaults
    else if activeCount == 3 then Layout(Pos(50, 25), Pos(20, 75), Pos(80, 75))
    else defaults
  }

  function PosOf(l: Layout, t: LevelType): Pos {
    match t
    case BrandLevel => l.brand
    case FranchiseeLevel => l.franchisee
    case StoreLevel => l.store
  }

  /** No two bubbles ever share a centre, whatever the tier list. */
  lemma PositionsDistinct(levels: seq<LevelType>, t: LevelType, u: LevelType)
    requires t != u
    ensures PosOf(Positions(levels), t) != PosOf(Positions(levels), u)
  {
  }

  /** The placements for the tier lists a global filter produces: brand alone
      in the centre, two tiers side by side, three in a triangle. */
  lemma PositionsOfActiveLevels(f: GlobalFilters)
    ensures |GetActiveLevels(f)| == 1 ==> Positions(GetActiveLevels(f)).brand == Pos(50, 50)
    ensures |GetActiveLevels(f)| == 2 ==> Positions(GetActiveLevels(f)).brand == Pos(30, 50)
    ensures |GetActiveLevels(f)| == 2 ==> Positions(GetActiveLevels(f)).franchisee == Pos(70, 50)
    ensures |GetActiveLevels(f)| == 3 ==> Positions(GetActiveLevels(f)) == Layout(Pos(50, 25), Pos(20, 75), Pos(80, 75))
  {
    ActiveLevelsCases(f);
  }

  datatype Card = Card(
    brandSize: real,
    franchiseeSize: real,
    storeSize: real,
    deltaFranchisee: Option<SignedDelta>,
    deltaStore: Option<SignedDelta>,
    deltaFranchiseStore: Option<SignedDelta>,
    layout: Layout)

  function SizeOf(c: Card, t: LevelType): real {
    match t
    case BrandLevel => c.brandSize
    case FranchiseeLevel => c.franchiseeSize
    case StoreLevel => c.storeSize
  }

  /** The delta drawn between two tiers `t` then `u`, meaning `u − t`. */
  function PairDelta(c: Card, t: LevelType, u: LevelType): Option<SignedDelta> {
    match (t, u)
    case (BrandLevel, FranchiseeLevel) => c.deltaFranchisee
    case (BrandLevel, StoreLevel) => c.deltaStore
    case (FranchiseeLevel, StoreLevel) => c.deltaFranchiseStore
    case _ => None
  }

  /** The rendered card for a metric and a list of active tiers. */
  function CardFor(m: LevelCompareMetric, levels: seq<LevelType>): (c: Card)
    ensures c.layout == Positions(levels)
    ensures BrandLevel !in levels ==> c.brandSize == 0.0
    ensures FranchiseeLevel !in levels ==> c.franchiseeSize == 0.0
    ensures StoreLevel !in levels ==> c.storeSize == 0.0
    ensures c.deltaFranchisee.Some? <==> BrandLevel in levels && FranchiseeLevel in levels
    ensures c.deltaStore.Some? <==> BrandLevel in levels && StoreLevel in levels
    ensures c.deltaFranchiseStore.Some? <==> FranchiseeLevel in levels && StoreLevel in levels
    ensures c.deltaFranchisee.Some? ==> c.deltaFranchisee.value == SignDelta(m.franchiseeValue - m.brandValue, m.unit)
    ensures c.deltaStore.Some? ==> c.deltaStore.value == SignDelta(m.storeValue - m.brandValue, m.unit)
    ensures c.deltaFranchiseStore.Some? ==> c.deltaFranchiseStore.value == SignDelta(m.storeValue - m.franchiseeValue, m.unit)
  {
    var values := ActiveValues(m, levels);
    var lo := Lowest(values);
    var hi := Highest(values);
    var showBrand := BrandLevel in levels;
    var showFranchise := FranchiseeLevel in levels;
    var showStore := StoreLevel in levels;
    Card(
      if showBrand then Size(m.brandValue, lo, hi) else 0.0,
      if showFranchise then Size(m.franchiseeValue, lo, hi) else 0.0,
      if showStore then Size(m.storeValue, lo, hi) else 0.0,
      if showBrand && showFranchise then Some(SignDelta(m.franchiseeValue - m.brandValue, m.unit)) else None,
      if showBrand && showStore then Some(SignDelta(m.storeValue - m.brandValue, m.unit)) else None,
      if showFranchise && showStore then Some(SignDelta(m.storeValue - m.franchiseeValue, m.unit)) else None,
      Positions(levels))
  }

  /** An active tier's value lies between the smallest and the largest active value. */
  lemma ActiveValueBetweenExtremes(m: LevelCompareMetric, levels: seq<LevelType>, t: LevelType)
    requires t in levels
    ensures |ActiveValues(m, levels)| > 0
    ensures Lowest(ActiveValues(m, levels)) <= TierValue(m, t) <= Highest(ActiveValues(m, levels))
  {
    var tiers := ActiveTiers(levels);
    var values := ActiveValues(m, levels);
    assert t in tiers by {
      match t
      case BrandLevel =>
      case FranchiseeLevel =>
      case StoreLevel =>
    }
    var i :| 0 <= i < |tiers| && tiers[i] == t;
    assert values[i] == TierValue(m, t);
  }

  /** Sizes: an inactive tier gets 0; an active one gets 48 to 80, exactly 48
      when it holds the smallest active value, and 80 when it holds the
      largest and the values are not all equal. */
  lemma Sizes(m: LevelCompareMetric, levels: seq<LevelType>, t: LevelType)
    ensures t !in levels ==> SizeOf(CardFor(m, levels), t) == 0.0
    ensures t in levels ==> 48.0 <= SizeOf(CardFor(m, levels), t) <= 80.0
    ensures t in levels ==>
      (SizeOf(CardFor(m, levels), t) == 48.0 <==> TierValue(m, t) == Lowest(ActiveValues(m, levels)))
    ensures t in levels && Lowest(ActiveValues(m, levels)) < TierValue(m, t) == Highest(ActiveValues(m, levels))
      ==> SizeOf(CardFor(m, levels), t) == 80.0
  {
    var values := ActiveValues(m, levels);
    if t in levels {
      ActiveValueBetweenExtremes(m, levels, t);
      SizeBounds(TierValue(m, t), Lowest(values), Highest(values));
      assert SizeOf(CardFor(m, levels), t) == Size(TierValue(m, t), Lowest(values), Highest(values)) by {
        match t
        case BrandLevel =>
        case FranchiseeLevel =>
        case StoreLevel =>
      }
    }
  }

  /** When every active tier holds the same value, every active bubble is 48 pixels. */
  lemma EqualValuesGiveSmallestBubbles(m: LevelCompareMetric, levels: seq<LevelType>, t: LevelType)
    requires forall u :: u in levels ==> TierValue(m, u) == TierValue(m, t)
    requires t in levels
    ensures SizeOf(CardFor(m, levels), t) == 48.0
  {
    var values := ActiveValues(m, levels);
    var tiers := ActiveTiers(levels);
    assert forall i :: 0 <= i < |values| ==> values[i] == TierValue(m, t) by {
      forall i | 0 <= i < |values| ensures values[i] == TierValue(m, t) {
        assert tiers[i] in tiers;
        assert tiers[i] in levels by {
          match tiers[i]
          case BrandLevel =>
          case FranchiseeLevel =>
          case StoreLevel =>
        }
      }
    }
    ActiveValueBetweenExtremes(m, levels, t);
    assert Lowest(values) in values;
    Sizes(m, levels, t);
  }

  /** A larger active value never gets a smaller bubble. */
  lemma SizesFollowValues(m: LevelCompareMetric, levels: seq<LevelType>, t: LevelType, u: LevelType)
    requires t in levels && u in levels && TierValue(m, t) <= TierValue(m, u)
    ensures SizeOf(CardFor(m, levels), t) <= SizeOf(CardFor(m, levels), u)
  {
    var values := ActiveValues(m, levels);
    ActiveValueBetweenExtremes(m, levels, t);
    SizeMonotone(TierValue(m, t), TierValue(m, u), Lowest(values), Highest(values));
    assert SizeOf(CardFor(m, levels), t) == Size(TierValue(m, t), Lowest(values), Highest(values)) by {
      match t
      case BrandLevel =>
      case FranchiseeLevel =>
      case StoreLevel =>
    }
    assert SizeOf(CardFor(m, levels), u) == Size(TierValue(m, u), Lowest(values), Highest(values)) by {
      match u
      case BrandLevel =>
      case FranchiseeLevel =>
      case StoreLevel =>
    }
  }

  /** A pair of tiers is joined by a delta exactly when both are active, and
      its sign and magnitude read back as the later tier minus the earlier one. */
  lemma PairDeltas(m: LevelCompareMetric, levels: seq<LevelType>, t: LevelType, u: LevelType)
    requires TierRank(t) < TierRank(u)
    ensures PairDelta(CardFor(m, levels), t, u).Some? <==> t in levels && u in levels
    ensures PairDelta(CardFor(m, levels), t, u).Some? ==>
      ReadBack(PairDelta(CardFor(m, levels), t, u).value) == TierValue(m, u) - TierValue(m, t)
    ensures PairDelta(CardFor(m, levels), t, u).Some? ==>
      PairDelta(CardFor(m, levels), t, u).value.magnitude == FormatDelta(Abs(TierValue(m, u) - TierValue(m, t)), m.unit)
  {
    SignDeltaRoundTrip(TierValue(m, u) - TierValue(m, t), m.unit);
  }
}
