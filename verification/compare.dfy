/** `/api/compare`: three segment filters A, B and C, each a JSON-encoded
    filter object in the query, select rows independently; each selection is
    aggregated by hour on the requested metric. */
module Compare {
  import opened Wrappers
  import opened Rows
  import opened ApplyFilters
  import opened HourlyAggregate

  /** What `JSON.parse` returns for a segment: an object, or `null`. Any other
      top-level JSON value (a number, a string, an array, a boolean) has none of
      the six filter properties and is given to the model as an empty object. */
  datatype Parsed = Object(fields: FilterObject) | Null

  /** `JSON.parse`, given as a partial function: `None` when it throws. */
  type JsonParser = string -> Option<Parsed>

  /** Why the handler answers 500. */
  datatype CompareError =
    | FilterOfNull            // `applyFilters` read `filters.brand` of `null`
    | Aggregate(e: AggregateError)

  /** `parseSegment`: missing, empty and "{}" input and unparseable JSON all give `{}`;
      anything else is what `JSON.parse` returned, `null` included. */
  function ParseSegment(input: Option<string>, parse: JsonParser): (p: Parsed)
    ensures input.None? || input.value == "" || input.value == "{}" ==> p == Object(map[])
    ensures input.Some? && parse(input.value).None? ==> p == Object(map[])
    ensures p != Object(map[]) ==> input.Some? && parse(input.value) == Some(p)
    ensures input.Some? && input.value != "" && input.value != "{}" && parse(input.value).Some?
      ==> p == parse(input.value).value
  {
    match input
    case None => Object(map[])
    case Some(s) =>
      if s == "" || s == "{}" then Object(map[])
      else match parse(s)
        case None => Object(map[])
        case Some(v) => v
  }

  /** `applyFilters(allData, filters)` for a parsed segment. With `null` the
      callback throws on the first row, so only an empty table survives it. */
  function SegmentRows(rows: seq<Row>, p: Parsed): (r: Result<seq<Row>, CompareError>)
    ensures r.Err? <==> p.Null? && |rows| > 0
    ensures r.Err? ==> r.error == FilterOfNull
    ensures p.Object? ==> r == Ok(Apply(rows, p.fields))
    ensures p.Null? && |rows| == 0 ==> r == Ok([])
  {
    match p
    case Object(f) => Ok(Apply(rows, f))
    case Null => if |rows| == 0 then Ok([]) else Err(FilterOfNull)
  }

  /** A segment that is missing, "{}" or not valid JSON keeps every row in order. */
  lemma UnusableSegmentKeepsAll(rows: seq<Row>, input: Option<string>, parse: JsonParser)
    requires input.None? || input.value == "" || input.value == "{}" || parse(input.value).None?
    ensures SegmentRows(rows, ParseSegment(input, parse)) == Ok(rows)
  {
    EmptyFilterKeepsAll(rows);
  }

  datatype Series = Series(segmentLabel: string, data: seq<Point>)

  /** `row[metric]` with `metric` absent from the query reads the property "undefined". */
  function MetricKey(metric: Option<string>): (k: string)
    ensures metric.Some? ==> k == metric.value
    ensures metric.None? ==> k == "undefined"
  {
    metric.GetOr("undefined")
  }

  /** `aggregateByHour(data, metric)` with its exception carried as a 500 reason. */
  function HourlySeries(data: seq<Row>, metric: Option<string>, parseNum: Cell -> Option<real>): (r: Result<seq<Point>, CompareError>)
    ensures r.Ok? <==> AggregateByHour(data, MetricKey(metric), parseNum).Ok?
    ensures r.Ok? ==> r.value == AggregateByHour(data, MetricKey(metric), parseNum).value
    ensures r.Err? ==> r.error == Aggregate(AggregateByHour(data, MetricKey(metric), parseNum).error)
  {
    match AggregateByHour(data, MetricKey(metric), parseNum)
    case Ok(points) => Ok(points)
    case Err(e) => Err(Aggregate(e))
  }

  /** The hourly series of one segment: its rows, then their aggregate. */
  function SegmentSeries(rows: seq<Row>, metric: Option<string>, segment: Option<string>,
                         parse: JsonParser, parseNum: Cell -> Option<real>): (r: Result<seq<Point>, CompareError>)
    ensures r.Ok? <==>
      && SegmentRows(rows, ParseSegment(segment, parse)).Ok?
      && AggregateByHour(SegmentRows(rows, ParseSegment(segment, parse)).value, MetricKey(metric), parseNum).Ok?
    ensures r.Ok? ==>
      r.value == AggregateByHour(SegmentRows(rows, ParseSegment(segment, parse)).value, MetricKey(metric), parseNum).value
  {
    match SegmentRows(rows, ParseSegment(segment, parse))
    case Err(e) => Err(e)
    case Ok(data) => HourlySeries(data, metric, parseNum)
  }

  /** No segment is `null` over a non-empty table, so filtering all three succeeds. */
  predicate NoFilterFails(rows: seq<Row>, segmentA: Option<string>, segmentB: Option<string>, segmentC: Option<string>,
                          parse: JsonParser) {
    |rows| == 0 ||
      !(ParseSegment(segmentA, parse).Null? || ParseSegment(segmentB, parse).Null? || ParseSegment(segmentC, parse).Null?)
  }

  /** `r` fails with the error of the first failing series, in the order A, B, C. */
  predicate FirstError<T>(a: Result<seq<Point>, CompareError>, b: Result<seq<Point>, CompareError>,
                             c: Result<seq<Point>, CompareError>, r: Result<T, CompareError>) {
    && (a.Err? ==> r == Err(a.error))
    && (a.Ok? && b.Err? ==> r == Err(b.error))
    && (a.Ok? && b.Ok? && c.Err? ==> r == Err(c.error))
  }

  /** The response: three series labelled A, B, C, or the error that the handler
      turns into a 500. All three segments are filtered before any is aggregated,
      so a `null` segment over a non-empty table is the error reported. */
  function CompareSegments(rows: seq<Row>, metric: Option<string>,
                           segmentA: Option<string>, segmentB: Option<string>, segmentC: Option<string>,
                           parse: JsonParser, parseNum: Cell -> Option<real>): (r: Result<seq<Series>, CompareError>)
    ensures r.Ok? <==>
      && SegmentSeries(rows, metric, segmentA, parse, parseNum).Ok?
      && SegmentSeries(rows, metric, segmentB, parse, parseNum).Ok?
      && SegmentSeries(rows, metric, segmentC, parse, parseNum).Ok?
    ensures |rows| > 0 ==>
      && (ParseSegment(segmentA, parse).Null? ==> r == Err(FilterOfNull))
      && (ParseSegment(segmentB, parse).Null? ==> r == Err(FilterOfNull))
      && (ParseSegment(segmentC, parse).Null? ==> r == Err(FilterOfNull))
    ensures NoFilterFails(rows, segmentA, segmentB, segmentC, parse) ==>
      FirstError(SegmentSeries(rows, metric, segmentA, parse, parseNum),
                 SegmentSeries(rows, metric, segmentB, parse, parseNum),
                 SegmentSeries(rows, metric, segmentC, parse, parseNum), r)
    ensures r.Ok? ==>
      && |r.value| == 3
      && r.value[0].segmentLabel == "Segment A"
      && r.value[1].segmentLabel == "Segment B"
      && r.value[2].segmentLabel == "Segment C"
    ensures r.Ok? ==>
      && r.value[0].data == SegmentSeries(rows, metric, segmentA, parse, parseNum).value
      && r.value[1].data == SegmentSeries(rows, metric, segmentB, parse, parseNum).value
      && r.value[2].data == SegmentSeries(rows, metric, segmentC, parse, parseNum).value
  {
    var a := ParseSegment(segmentA, parse);
    var b := ParseSegment(segmentB, parse);
    var c := ParseSegment(segmentC, parse);
    if |rows| > 0 && (a.Null? || b.Null? || c.Null?) then Err(FilterOfNull)
    else
      var seriesA := SegmentSeries(rows, metric, segmentA, parse, parseNum);
      var seriesB := SegmentSeries(rows, metric, segmentB, parse, parseNum);
      var seriesC := SegmentSeries(rows, metric, segmentC, parse, parseNum);
      if seriesA.Err? then Err(seriesA.error)
      else if seriesB.Err? then Err(seriesB.error)
      else if seriesC.Err? then Err(seriesC.error)
      else Ok([Series("Segment A", seriesA.value), Series("Segment B", seriesB.value), Series("Segment C", seriesC.value)])
  }

  /** A segment of `null` answers 500 as soon as there is a row, and an empty
      series when there is none. */
  lemma NullSegmentFails(rows: seq<Row>, metric: Option<string>, b: Option<string>, c: Option<string>,
                         parse: JsonParser, parseNum: Cell -> Option<real>)
    requires parse("null") == Some(Null)
    ensures |rows| > 0 ==> CompareSegments(rows, metric, Some("null"), b, c, parse, parseNum) == Err(FilterOfNull)
    ensures SegmentSeries([], metric, Some("null"), parse, parseNum) == Ok([])
  {
    assert ParseSegment(Some("null"), parse) == Null;
  }

  /** A segment's series depends on its own filter only: changing the other two segments
      leaves it unchanged. */
  lemma SegmentsIndependent(rows: seq<Row>, metric: Option<string>,
                            a: Option<string>, b: Option<string>, c: Option<string>,
                            b': Option<string>, c': Option<string>,
                            parse: JsonParser, parseNum: Cell -> Option<real>)
    requires CompareSegments(rows, metric, a, b, c, parse, parseNum).Ok?
    requires CompareSegments(rows, metric, a, b', c', parse, parseNum).Ok?
    ensures CompareSegments(rows, metric, a, b, c, parse, parseNum).value[0]
         == CompareSegments(rows, metric, a, b', c', parse, parseNum).value[0]
  {
  }

  /** When no segment narrows, the three series coincide with the aggregate of all rows. */
  lemma UnusableSegmentsGiveSameSeries(rows: seq<Row>, metric: Option<string>,
                                      a: Option<string>, b: Option<string>, c: Option<string>,
                                      parse: JsonParser, parseNum: Cell -> Option<real>)
    requires forall s :: s in [a, b, c] ==> s.None? || s.value == "" || s.value == "{}" || parse(s.value).None?
    requires AggregateByHour(rows, MetricKey(metric), parseNum).Ok?
    ensures var r := CompareSegments(rows, metric, a, b, c, parse, parseNum);
      r.Ok? && r.value[0].data == r.value[1].data == r.value[2].data
        == AggregateByHour(rows, MetricKey(metric), parseNum).value
  {
    assert a in [a, b, c] && b in [a, b, c] && c in [a, b, c];
    UnusableSegmentKeepsAll(rows, a, parse);
    UnusableSegmentKeepsAll(rows, b, parse);
    UnusableSegmentKeepsAll(rows, c, parse);
  }
}
