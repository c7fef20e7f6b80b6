/** `/api/filters`: for each dimension, "any" followed by the distinct
    truthy values of one column, in first-occurrence order. */
module FilterOptions {
  import opened Wrappers
  import opened Rows
  import opened Sequences
  import opened Filters

  /** The column an options list is read from; franchise ids come from `franchise_id` only. */
  function OptionColumn(d: Dimension): string {
    match d
    case Brand => "brand"
    case Owner => "owner"
    case FranchiseId => "franchise_id"
    case StoreId => "store_id"
    case Channel => "channel"
    case EngagementMode => "engagement_mode"
  }

  /** `data.map(r => r[column]).filter(Boolean)`: the truthy cells of a column, in row order. */
  function TruthyValues(rows: seq<Row>, column: string): (vs: seq<Cell>)
    ensures forall i :: 0 <= i < |vs| ==> Truthy(vs[i])
    ensures forall v :: v in vs <==> Truthy(v) && exists i :: 0 <= i < |rows| && Get(rows[i], column) == Some(v)
    decreases |rows|
  {
    if |rows| == 0 then []
    else
      var rest := TruthyValues(rows[1..], column);
      assert forall i :: 1 <= i < |rows| ==> rows[i] == rows[1..][i - 1];
      assert forall v :: (exists i :: 1 <= i < |rows| && Get(rows[i], column) == Some(v)) ==>
        (exists i :: 0 <= i < |rows[1..]| && Get(rows[1..][i], column) == Some(v));
      match Get(rows[0], column)
      case Some(c) => if Truthy(c) then [c] + rest else rest
      case None => rest
  }

  /** `['any', ...new Set(values)]`. */
  function OptionList(rows: seq<Row>, column: string): (r: seq<Cell>)
    ensures |r| >= 1 && r[0] == Str("any")
    ensures NoDuplicates(r[1..])
    ensures forall v :: v in r[1..] <==> Truthy(v) && exists i :: 0 <= i < |rows| && Get(rows[i], column) == Some(v)
    ensures IsSubsequence(r[1..], TruthyValues(rows, column))
    ensures InFirstOccurrenceOrder(r[1..], TruthyValues(rows, column))
  {
    var vs := TruthyValues(rows, column);
    var r := [Str("any")] + Distinct(vs);
    assert r[1..] == Distinct(vs);
    r
  }

  const CallDateOptions: seq<string> := ["any", "previous_day", "last_7_days", "last_30_days", "custom"]

  datatype FilterOptionLists = FilterOptionLists(
    brands: seq<Cell>,
    owners: seq<Cell>,
    franchiseIds: seq<Cell>,
    storeIds: seq<Cell>,
    channels: seq<Cell>,
    engagementModes: seq<Cell>,
    callDates: seq<string>)
  {
    /** The options list of one dimension. */
    function List(d: Dimension): seq<Cell> {
      match d
      case Brand => brands
      case Owner => owners
      case FranchiseId => franchiseIds
      case StoreId => storeIds
      case Channel => channels
      case EngagementMode => engagementModes
    }
  }

  /** The `/api/filters` response body. */
  function BuildFilterOptions(rows: seq<Row>): FilterOptionLists {
    FilterOptionLists(
      OptionList(rows, OptionColumn(Brand)),
      OptionList(rows, OptionColumn(Owner)),
      OptionList(rows, OptionColumn(FranchiseId)),
      OptionList(rows, OptionColumn(StoreId)),
      OptionList(rows, OptionColumn(Channel)),
      OptionList(rows, OptionColumn(EngagementMode)),
      CallDateOptions)
  }

  /** Every list offers "any" first, and each value of a row's column at most once after it. */
  lemma OptionsOfferEveryValueOnce(rows: seq<Row>, d: Dimension, i: nat)
    requires i < |rows| && OptionColumn(d) in rows[i] && Truthy(rows[i][OptionColumn(d)])
    ensures var list := BuildFilterOptions(rows).List(d);
      list == OptionList(rows, OptionColumn(d))
      && list[0] == Str("any")
      && rows[i][OptionColumn(d)] in list[1..]
      && forall j, k :: 1 <= j < k < |list| ==> list[j] != list[k]
  {
    var list := BuildFilterOptions(rows).List(d);
    assert Get(rows[i], OptionColumn(d)) == Some(rows[i][OptionColumn(d)]);
    forall j, k | 1 <= j < k < |list| ensures list[j] != list[k] {
      assert list[j] == list[1..][j - 1] && list[k] == list[1..][k - 1];
    }
  }
}
