/** Worked instances of `aggregateByHour`: the documented three-row example,
    and the label clash a short datetime produces. */
module AggregateExamples {
  import opened Wrappers
  import opened Rows
  import opened Sequences
  import opened Ordering
  import opened HourlyAggregate

  /** `parseFloat` restricted to numeric cells, enough for these instances. */
  function NumericOnly(c: Cell): Option<real> {
    if c.Num? then Some(c.n) else None
  }

  function CallRow(datetime: string, sessions: real): Row {
    map["call_datetime" := Str(datetime), "total_sessions" := Num(sessions)]
  }

  lemma CallRowEntry(datetime: string, sessions: real)
    requires |datetime| >= 13
    ensures HourKey(Get(CallRow(datetime, sessions), "call_datetime")) == Ok(datetime[11..13])
    ensures MetricValue(CallRow(datetime, sessions), "total_sessions", NumericOnly) == sessions
  {
    assert Get(CallRow(datetime, sessions), "call_datetime") == Some(Str(datetime));
    assert Get(CallRow(datetime, sessions), "total_sessions") == Some(Num(sessions));
  }

  const ExampleRows: seq<Row> :=
    [CallRow("2024-01-01T08:15:00", 10.0), CallRow("2024-01-01T08:45:00", 20.0), CallRow("2024-01-01T09:05:00", 5.0)]

  const ExampleEntries: seq<Entry> := [Entry("08", 10.0), Entry("08", 20.0), Entry("09", 5.0)]

  lemma ExampleRowsGiveEntries()
    ensures Entries(ExampleRows, "total_sessions", NumericOnly) == Ok(ExampleEntries)
  {
    CallRowEntry("2024-01-01T08:15:00", 10.0);
    CallRowEntry("2024-01-01T08:45:00", 20.0);
    CallRowEntry("2024-01-01T09:05:00", 5.0);
    assert "2024-01-01T08:15:00"[11..13] == "08";
    assert "2024-01-01T08:45:00"[11..13] == "08";
    assert "2024-01-01T09:05:00"[11..13] == "09";
    var r := Entries(ExampleRows, "total_sessions", NumericOnly);
    assert r.Ok?;
    assert r.value == ExampleEntries;
  }

  /** Entries whose keys are exactly two ordered strings sort to those two. */
  lemma TwoSortedKeys(es: seq<Entry>, a: string, b: string)
    requires LexLess(a, b)
    requires a in KeysOf(es) && b in KeysOf(es)
    requires forall k :: k in KeysOf(es) ==> k == a || k == b
    ensures SortedKeys(es) == [a, b]
  {
    var ks := SortedKeys(es);
    assert a in ks && b in ks;
    SortedPair(ks, a, b);
  }

  lemma ExampleSortedKeys()
    ensures SortedKeys(ExampleEntries) == ["08", "09"]
  {
    var es := ExampleEntries;
    assert KeysOf(es) == ["08", "08", "09"];
    assert LexLess("08", "09") by {
      assert "08"[0] == "09"[0] && "08"[1..] == "8" && "09"[1..] == "9";
    }
    TwoSortedKeys(es, "08", "09");
  }

  lemma ExampleBuckets()
    ensures SumFor(ExampleEntries, "08") == 30.0 && CountFor(ExampleEntries, "08") == 2
    ensures SumFor(ExampleEntries, "09") == 5.0 && CountFor(ExampleEntries, "09") == 1
  {
    var es := ExampleEntries;
    assert es[1..] == [Entry("08", 20.0), Entry("09", 5.0)];
    assert es[1..][1..] == [Entry("09", 5.0)];
    assert es[1..][1..][1..] == [];
  }

  lemma ExampleLabels()
    ensures Label("08") == "08:00" && Label("09") == "09:00"
  {
    assert "08" + ":00" == "08:00";
    assert "09" + ":00" == "09:00";
  }

  /** The points of entries with exactly two bucket keys. */
  lemma TwoBucketPoints(es: seq<Entry>, k1: string, k2: string, y1: real, y2: real)
    requires SortedKeys(es) == [k1, k2]
    requires CountFor(es, k1) > 0 && y1 == SumFor(es, k1) / (CountFor(es, k1) as real)
    requires CountFor(es, k2) > 0 && y2 == SumFor(es, k2) / (CountFor(es, k2) as real)
    ensures PointsOf(es) == [Point(Label(k1), y1), Point(Label(k2), y2)]
  {
    var ps := PointsOf(es);
    assert PointMeans(es, k1, ps[0]) && PointMeans(es, k2, ps[1]);
  }

  lemma ExamplePoints(es: seq<Entry>)
    requires es == ExampleEntries
    ensures PointsOf(es) == [Point("08:00", 15.0), Point("09:00", 5.0)]
  {
    ExampleSortedKeys();
    ExampleBuckets();
    ExampleLabels();
    TwoBucketPoints(es, "08", "09", 15.0, 5.0);
  }

  /** Two calls in the 08 hour and one in the 09 hour: two points, with means 15 and 5. */
  lemma ThreeCallExample(rows: seq<Row>)
    requires rows == ExampleRows
    ensures AggregateByHour(rows, "total_sessions", NumericOnly)
      == Ok([Point("08:00", 15.0), Point("09:00", 5.0)])
  {
    ExampleRowsGiveEntries();
    ExamplePoints(ExampleEntries);
  }

  const ClashRows: seq<Row> := [CallRow("2024-01-01T8", 1.0), CallRow("2024-01-01T08:30:00", 2.0)]

  const ClashEntries: seq<Entry> := [Entry("8", 1.0), Entry("08", 2.0)]

  lemma ClashRowsGiveEntries()
    ensures Entries(ClashRows, "total_sessions", NumericOnly) == Ok(ClashEntries)
  {
    var short := CallRow("2024-01-01T8", 1.0);
    assert Get(short, "call_datetime") == Some(Str("2024-01-01T8"));
    assert Get(short, "total_sessions") == Some(Num(1.0));
    assert Substring("2024-01-01T8", 11, 13) == "8";
    CallRowEntry("2024-01-01T08:30:00", 2.0);
    assert "2024-01-01T08:30:00"[11..13] == "08";
    var r := Entries(ClashRows, "total_sessions", NumericOnly);
    assert r.Ok?;
    assert r.value == ClashEntries;
  }

  lemma ClashSortedKeys()
    ensures SortedKeys(ClashEntries) == ["08", "8"]
  {
    var es := ClashEntries;
    assert KeysOf(es) == ["8", "08"];
    assert LexLess("08", "8") by {
      assert "08"[0] < "8"[0];
    }
    TwoSortedKeys(es, "08", "8");
  }

  /** A datetime too short to hold the hour yields a one-character key; it pads to the
      same label as the proper key, so one response holds two points labelled "08:00". */
  lemma ShortDatetimeLabelClash(rows: seq<Row>)
    requires rows == ClashRows
    ensures var r := AggregateByHour(rows, "total_sessions", NumericOnly);
      r.Ok? && |r.value| == 2 && r.value[0].x == r.value[1].x == "08:00"
  {
    ClashRowsGiveEntries();
    ClashPoints(ClashEntries);
  }

  lemma ClashLabels()
    ensures Label("08") == "08:00" && Label("8") == "08:00"
  {
    assert PadStart("8", 2, '0') == "08";
    assert "08" + ":00" == "08:00";
  }

  lemma ClashPoints(es: seq<Entry>)
    requires es == ClashEntries
    ensures |PointsOf(es)| == 2 && PointsOf(es)[0].x == PointsOf(es)[1].x == "08:00"
  {
    ClashSortedKeys();
    ClashLabels();
    var ps := PointsOf(es);
    assert PointMeans(es, SortedKeys(es)[0], ps[0]) && PointMeans(es, SortedKeys(es)[1], ps[1]);
  }
}
