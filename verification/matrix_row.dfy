/** One row of the level-comparison matrix: the row's extremes over the
    active tiers, and a cell for each active tier sharing those extremes. */
module MatrixRow {
  import opened Numeric
  import opened Levels
  import opened Metrics
  import opened Format
  import MatrixCell

  /** `Math.min(...values)`, or 0 for no values. */
  function RowMin(values: seq<real>): (r: real)
    ensures |values| > 0 ==> r in values && forall i :: 0 <= i < |values| ==> r <= values[i]
    ensures |values| == 0 ==> r == 0.0
  {
    if |values| > 0 then SeqMin(values) else 0.0
  }

  /** `Math.max(...values)`, or 0 for no values. */
  function RowMax(values: seq<real>): (r: real)
    ensures |values| > 0 ==> r in values && forall i :: 0 <= i < |values| ==> values[i] <= r
    ensures |values| == 0 ==> r == 0.0
  {
    if |values| > 0 then SeqMax(values) else 0.0
  }

  lemma RowMinAtMostRowMax(values: seq<real>)
    ensures RowMin(values) <= RowMax(values)
  {
    if |values| > 0 {
      assert RowMin(values) <= values[0] <= RowMax(values);
    }
  }

  function CellTitle(t: LevelType): string {
    match t
    case BrandLevel => "Brand"
    case FranchiseeLevel => "Franchisee"
    case StoreLevel => "Store"
  }

  datatype RowView = RowView(name: string, columns: nat, cells: seq<MatrixCell.CellView>)

  /** The rendered row for a metric and a list of active tiers. */
  function Row(m: LevelCompareMetric, levels: seq<LevelType>): (r: RowView)
    ensures r.columns == |levels|
    ensures |r.cells| == |ActiveTiers(levels)|
    ensures forall i :: 0 <= i < |r.cells| ==>
      r.cells[i] == MatrixCell.Cell(ActiveTiers(levels)[i], CellTitle(ActiveTiers(levels)[i]),
        TierValue(m, ActiveTiers(levels)[i]), m.unit,
        RowMin(ActiveValues(m, levels)), RowMax(ActiveValues(m, levels)))
  {
    var values := ActiveValues(m, levels);
    var lo := RowMin(values);
    var hi := RowMax(values);
    var tiers := ActiveTiers(levels);
    RowView(m.name, |levels|,
      seq(|tiers|, i requires 0 <= i < |tiers| =>
        MatrixCell.Cell(tiers[i], CellTitle(tiers[i]), TierValue(m, tiers[i]), m.unit, lo, hi)))
  }

  /** Some rendered cell always wears the crown. */
  lemma SomeCellIsMax(m: LevelCompareMetric, levels: seq<LevelType>)
    requires |Row(m, levels).cells| > 0
    ensures exists i :: 0 <= i < |Row(m, levels).cells| && Row(m, levels).cells[i].isMax
  {
    var values := ActiveValues(m, levels);
    var cells := Row(m, levels).cells;
    var i :| 0 <= i < |values| && values[i] == RowMax(values);
    assert cells[i].isMax;
  }

  /** For non-percentage units every bar of the row is between 20% and 100%
      wide (50% when the active values are all equal). */
  lemma BarsWithinRange(m: LevelCompareMetric, levels: seq<LevelType>, i: nat)
    requires i < |Row(m, levels).cells|
    requires ClassOf(m.unit) != PercentUnit
    ensures 20.0 <= Row(m, levels).cells[i].barWidth <= 100.0
  {
    var values := ActiveValues(m, levels);
    assert Row(m, levels).cells[i].value == values[i];
    RowMinAtMostRowMax(values);
    if RowMin(values) < RowMax(values) {
      MatrixCell.BarWidthWithinBounds(values[i], m.unit, RowMin(values), RowMax(values));
    }
  }
}
