/** One cell of the level-comparison matrix: a bar whose width comes from
    the value (percentages) or from its place between the row's extremes
    (other units), and a crown on the row's largest value. */
module MatrixCell {
  import opened Wrappers
  import opened Numeric
  import opened Levels
  import opened Metrics
  import opened Format

  /** The bar width in percent. */
  function BarWidth(v: real, u: Unit, rowMin: real, rowMax: real): (w: real)
    ensures ClassOf(u) == PercentUnit ==> 0.0 <= w <= 100.0 && (0.0 <= v <= 100.0 ==> w == v)
    ensures ClassOf(u) == PercentUnit && v < 0.0 ==> w == 0.0
    ensures ClassOf(u) == PercentUnit && v > 100.0 ==> w == 100.0
    ensures ClassOf(u) != PercentUnit && rowMax == rowMin ==> w == 50.0
    ensures ClassOf(u) != PercentUnit && rowMax != rowMin ==> w == 20.0 + (v - rowMin) / (rowMax - rowMin) * 80.0
    ensures ClassOf(u) != PercentUnit && rowMin < rowMax && v == rowMin ==> w == 20.0
    ensures ClassOf(u) != PercentUnit && rowMin < rowMax && v == rowMax ==> w == 100.0
  {
    if u == Some("%") then Clamp(v, 0.0, 100.0)
    else if rowMax == rowMin then 50.0
    else
      var normalized := (v - rowMin) / (rowMax - rowMin);
      SelfAndZeroRatios(rowMax - rowMin);
      20.0 + normalized * 80.0
  }

  /** A non-percentage value between the row's extremes gets a bar between 20% and 100%. */
  lemma BarWidthWithinBounds(v: real, u: Unit, rowMin: real, rowMax: real)
    requires ClassOf(u) != PercentUnit && rowMin < rowMax && rowMin <= v <= rowMax
    ensures 20.0 <= BarWidth(v, u, rowMin, rowMax) <= 100.0
  {
    RatioInUnit(v - rowMin, rowMax - rowMin);
  }

  /** Within one row (extremes in order), a larger value never gets a narrower bar. */
  lemma BarWidthMonotone(v1: real, v2: real, u: Unit, rowMin: real, rowMax: real)
    requires v1 <= v2 && rowMin <= rowMax
    ensures BarWidth(v1, u, rowMin, rowMax) <= BarWidth(v2, u, rowMin, rowMax)
  {
    if ClassOf(u) != PercentUnit && rowMin < rowMax {
      DivMonotone(v1 - rowMin, v2 - rowMin, rowMax - rowMin);
    }
  }

  datatype CellView = CellView(level: LevelType, title: string, value: real, barWidth: real, isMax: bool, text: Text)

  /** The rendered cell; the crown marks a value equal to the row maximum. */
  function Cell(t: LevelType, title: string, v: real, u: Unit, rowMin: real, rowMax: real): (c: CellView)
    ensures c.level == t && c.value == v
    ensures c.barWidth == BarWidth(v, u, rowMin, rowMax)
    ensures c.isMax <==> v == rowMax
    ensures c.text == FormatValue(v, u)
  {
    CellView(t, title, v, BarWidth(v, u, rowMin, rowMax), v == rowMax, FormatValue(v, u))
  }
}
