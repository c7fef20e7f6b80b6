/** `aggregateByHour`: buckets rows by the two characters of `call_datetime`
    that hold the hour, averages one metric per bucket (a missing or
    unparseable value counts as 0 but still counts), and emits one point per
    bucket in ascending key order, labelled "HH:00". */
module HourlyAggregate {
  import opened Wrappers
  import opened Rows
  import opened Sequences
  import opened Ordering

  /** Calling `.substring` on a truthy number throws a TypeError. */
  datatype AggregateError = DatetimeNotAString(n: real)

  datatype Point = Point(x: string, y: real)

  /** One row's contribution: its hour key and its metric value. */
  datatype Entry = Entry(key: string, value: real)

  datatype Bucket = Bucket(sum: real, count: nat)

  function Min(a: int, b: int): int { if a < b then a else b }

  /** JavaScript `s.substring(a, b)`: both ends are clamped to the length, then ordered. */
  function Substring(s: string, a: nat, b: nat): (r: string)
    ensures a <= b ==> r == s[Min(a, |s|)..Min(b, |s|)]
    ensures b < a ==> r == s[Min(b, |s|)..Min(a, |s|)]
    ensures |r| <= |s|
  {
    var lo := Min(Min(a, b), |s|);
    var hi := Min(if a < b then b else a, |s|);
    s[lo..hi]
  }

  /** The bucket key of a `call_datetime` cell; "00" when the cell is missing or falsy. */
  function HourKey(dt: Option<Cell>): (r: Result<string, AggregateError>)
    ensures r.Err? <==> dt.Some? && dt.value.Num? && dt.value.n != 0.0
    ensures r.Err? ==> r.error == DatetimeNotAString(dt.value.n)
    ensures dt.None? || !Truthy(dt.value) ==> r == Ok("00")
    ensures dt.Some? && dt.value.Str? && Truthy(dt.value) ==>
      var s := dt.value.s; r == Ok(s[Min(11, |s|)..Min(13, |s|)])
    ensures r.Ok? && dt.Some? && dt.value.Str? && |dt.value.s| >= 13 ==> r.value == dt.value.s[11..13]
    ensures r.Ok? ==> |r.value| <= 2
  {
    match dt
    case None => Ok("00")
    case Some(c) =>
      if !Truthy(c) then Ok("00")
      else match c
        case Str(s) => Ok(Substring(s, 11, 13))
        case Num(n) => Err(DatetimeNotAString(n))
  }

  /** `parseFloat(row[metricKey]) || 0`, with `parseFloat` given as a partial parse. */
  function MetricValue(row: Row, metricKey: string, parseNum: Cell -> Option<real>): (r: real)
    ensures Get(row, metricKey).None? ==> r == 0.0
    ensures Get(row, metricKey).Some? && parseNum(Get(row, metricKey).value).None? ==> r == 0.0
    ensures Get(row, metricKey).Some? && parseNum(Get(row, metricKey).value).Some?
      ==> r == parseNum(Get(row, metricKey).value).value
  {
    match Get(row, metricKey)
    case None => 0.0
    case Some(c) => parseNum(c).GetOr(0.0)
  }

  /** The entries of all rows, or the error of the first row whose key cannot be taken. */
  function Entries(rows: seq<Row>, metricKey: string, parseNum: Cell -> Option<real>): (r: Result<seq<Entry>, AggregateError>)
    ensures r.Ok? <==> forall i :: 0 <= i < |rows| ==> HourKey(Get(rows[i], "call_datetime")).Ok?
    ensures r.Ok? ==> |r.value| == |rows| && forall i :: 0 <= i < |rows| ==>
      r.value[i] == Entry(HourKey(Get(rows[i], "call_datetime")).value, MetricValue(rows[i], metricKey, parseNum))
    ensures r.Err? ==> exists i ::
      && 0 <= i < |rows|
      && HourKey(Get(rows[i], "call_datetime")) == Err(r.error)
      && forall j :: 0 <= j < i ==> HourKey(Get(rows[j], "call_datetime")).Ok?
    decreases |rows|
  {
    if |rows| == 0 then Ok([])
    else
      match HourKey(Get(rows[0], "call_datetime"))
      case Err(e) => Err(e)
      case Ok(k) =>
        match Entries(rows[1..], metricKey, parseNum)
        case Err(e) =>
          assert forall i :: 1 <= i < |rows| ==> rows[i] == rows[1..][i - 1];
          Err(e)
        case Ok(rest) =>
          assert forall i :: 1 <= i < |rows| ==> rows[i] == rows[1..][i - 1];
          Ok([Entry(k, MetricValue(rows[0], metricKey, parseNum))] + rest)
  }

  function KeysOf(es: seq<Entry>): (ks: seq<string>)
    ensures |ks| == |es| && forall i :: 0 <= i < |es| ==> ks[i] == es[i].key
  {
    seq(|es|, i requires 0 <= i < |es| => es[i].key)
  }

  /** Reference definitions: the sum and number of the entries with key `k`. */
  function SumFor(es: seq<Entry>, k: string): real
    decreases |es|
  {
    if |es| == 0 then 0.0
    else (if es[0].key == k then es[0].value else 0.0) + SumFor(es[1..], k)
  }

  function CountFor(es: seq<Entry>, k: string): nat
    decreases |es|
  {
    if |es| == 0 then 0
    else (if es[0].key == k then 1 else 0) + CountFor(es[1..], k)
  }

  /** A key that occurs has a non-empty bucket. */
  lemma {:induction false} CountForPositive(es: seq<Entry>, k: string)
    requires k in KeysOf(es)
    ensures CountFor(es, k) > 0
    decreases |es|
  {
    if es[0].key != k {
      assert KeysOf(es[1..]) == KeysOf(es)[1..];
      CountForPositive(es[1..], k);
    }
  }

  /** One step of the `forEach`: create the bucket if needed, add the value and one to the count. */
  function AddEntry(acc: map<string, Bucket>, e: Entry): (r: map<string, Bucket>)
    ensures forall k :: k in r <==> k in acc || k == e.key
    ensures r[e.key] == Bucket(BucketOr0(acc, e.key).sum + e.value, BucketOr0(acc, e.key).count + 1)
    ensures forall k :: k in acc && k != e.key ==> r[k] == acc[k]
  {
    var b := if e.key in acc then acc[e.key] else Bucket(0.0, 0);
    acc[e.key := Bucket(b.sum + e.value, b.count + 1)]
  }

  /** The `hourly` object after the `forEach` over `es`, starting from `acc`. */
  function Tally(es: seq<Entry>, acc: map<string, Bucket>): map<string, Bucket>
    decreases |es|
  {
    if |es| == 0 then acc else Tally(es[1..], AddEntry(acc, es[0]))
  }

  function BucketOr0(acc: map<string, Bucket>, k: string): Bucket {
    if k in acc then acc[k] else Bucket(0.0, 0)
  }

  /** Each bucket of the tally holds the reference sum and count of its key. */
  lemma {:induction false} TallyBuckets(es: seq<Entry>, acc: map<string, Bucket>, k: string)
    ensures k in Tally(es, acc) <==> k in acc || k in KeysOf(es)
    ensures k in Tally(es, acc) ==>
      Tally(es, acc)[k] == Bucket(BucketOr0(acc, k).sum + SumFor(es, k), BucketOr0(acc, k).count + CountFor(es, k))
    decreases |es|
  {
    if |es| > 0 {
      var acc' := AddEntry(acc, es[0]);
      assert KeysOf(es) == [es[0].key] + KeysOf(es[1..]);
      TallyBuckets(es[1..], acc', k);
      AddEntryBucket(acc, es[0], k);
    }
  }

  /** One entry creates or extends its own bucket and leaves the others alone. */
  lemma AddEntryBucket(acc: map<string, Bucket>, e: Entry, k: string)
    ensures k in AddEntry(acc, e) <==> k in acc || k == e.key
    ensures BucketOr0(AddEntry(acc, e), k)
      == Bucket(BucketOr0(acc, k).sum + (if e.key == k then e.value else 0.0),
                BucketOr0(acc, k).count + (if e.key == k then 1 else 0))
  {
  }

  /** JavaScript `s.padStart(width, c)`. */
  function PadStart(s: string, width: nat, c: char): (r: string)
    ensures |r| == if |s| < width then width else |s|
    ensures r[|r| - |s|..] == s
    ensures forall i :: 0 <= i < |r| - |s| ==> r[i] == c
  {
    if |s| < width then seq(width - |s|, _ => c) + s else s
  }

  /** The label of a bucket key. */
  function Label(key: string): (x: string)
    ensures |key| >= 2 ==> x == key + ":00"
    ensures |key| == 1 ==> x == ['0'] + key + ":00"
    ensures key == "" ==> x == "00:00"
  {
    PadStart(key, 2, '0') + ":00"
  }

  /** `Object.keys(hourly).sort()`: the bucket keys, in ascending order. */
  function SortedKeys(es: seq<Entry>): (ks: seq<string>)
    ensures StrictlySorted(ks)
    ensures forall k :: k in ks <==> k in KeysOf(es)
  {
    var ds := Distinct(KeysOf(es));
    var ks := SortDistinct(ds);
    assert forall k :: k in ks ==> k in ds;
    assert forall k :: k in ds ==> k in ks;
    ks
  }

  /** The map callback: label the key and divide the sum by the count. */
  function BucketPoint(k: string, b: Bucket): Point {
    Point(Label(k), if b.count > 0 then b.sum / (b.count as real) else 0.0)
  }

  /** The points of one series, from the entries of its rows. */
  function PointsOf(es: seq<Entry>): (r: seq<Point>)
    ensures |r| == |SortedKeys(es)|
    ensures forall i :: 0 <= i < |r| ==> PointMeans(es, SortedKeys(es)[i], r[i])
  {
    var hourly := Tally(es, map[]);
    var keys := SortedKeys(es);
    forall k | k in keys
      ensures k in hourly && PointMeans(es, k, BucketPoint(k, hourly[k]))
    {
      BucketOfKey(es, k);
    }
    seq(|keys|, i requires 0 <= i < |keys| => BucketPoint(keys[i], hourly[keys[i]]))
  }

  lemma BucketOfKey(es: seq<Entry>, k: string)
    requires k in KeysOf(es)
    ensures k in Tally(es, map[]) && PointMeans(es, k, BucketPoint(k, Tally(es, map[])[k]))
  {
    TallyBuckets(es, map[], k);
    CountForPositive(es, k);
  }

  /** Point `p` is the labelled mean of the entries with key `k`. */
  predicate PointMeans(es: seq<Entry>, k: string, p: Point) {
    CountFor(es, k) > 0 && p == Point(Label(k), SumFor(es, k) / (CountFor(es, k) as real))
  }

  /** `aggregateByHour(rows, metricKey)`; an error stands for the TypeError thrown on a non-string datetime. */
  function AggregateByHour(rows: seq<Row>, metricKey: string, parseNum: Cell -> Option<real>): (r: Result<seq<Point>, AggregateError>)
    ensures r.Err? <==> exists i :: 0 <= i < |rows| && HourKey(Get(rows[i], "call_datetime")).Err?
    ensures r.Ok? ==> |r.value| <= |rows|
    ensures r.Ok? ==>
      && Entries(rows, metricKey, parseNum).Ok?
      && r.value == PointsOf(Entries(rows, metricKey, parseNum).value)
    ensures r.Err? ==> Entries(rows, metricKey, parseNum) == Err(r.error)
    ensures r.Err? ==> exists i :: 0 <= i < |rows| && HourKey(Get(rows[i], "call_datetime")) == Err(r.error)
  {
    match Entries(rows, metricKey, parseNum)
    case Err(e) => Err(e)
    case Ok(es) =>
      var ks := SortedKeys(es);
      assert |Distinct(KeysOf(es))| <= |KeysOf(es)| by {
        DistinctNoLonger(KeysOf(es));
      }
      Ok(PointsOf(es))
  }

  /** When every bucket key has two characters (every datetime is long enough, or falsy),
      the labels themselves are strictly ascending, so no label repeats. */
  lemma LabelsAscendWhenKeysHaveTwoChars(es: seq<Entry>)
    requires forall i :: 0 <= i < |es| ==> |es[i].key| == 2
    ensures var ps := PointsOf(es);
      forall i, j :: 0 <= i < j < |ps| ==> LexLess(ps[i].x, ps[j].x)
  {
    var ps := PointsOf(es);
    var ks := SortedKeys(es);
    forall i, j | 0 <= i < j < |ps| ensures LexLess(ps[i].x, ps[j].x) {
      assert PointMeans(es, ks[i], ps[i]) && PointMeans(es, ks[j], ps[j]);
      KeyLength(es, ks[i]);
      KeyLength(es, ks[j]);
      LabelOrder(ks[i], ks[j]);
    }
  }

  /** Every bucket key is some entry's key. */
  lemma KeyLength(es: seq<Entry>, k: string)
    requires forall i :: 0 <= i < |es| ==> |es[i].key| == 2
    requires k in KeysOf(es)
    ensures |k| == 2
  {
    var i :| 0 <= i < |es| && KeysOf(es)[i] == k;
  }

  /** Labels of two-character keys sort as the keys do. */
  lemma LabelOrder(a: string, b: string)
    requires |a| == 2 && |b| == 2 && LexLess(a, b)
    ensures LexLess(Label(a), Label(b))
  {
    LexLessAppend(a, b, ":00");
  }

  /** Every row adds one to its bucket's count even when its metric is missing,
      so a zero-valued entry pulls a positive mean down. */
  lemma {:induction false} ZeroEntryLowersMean(es: seq<Entry>, k: string)
    requires CountFor(es, k) > 0 && SumFor(es, k) > 0.0
    ensures CountFor(es + [Entry(k, 0.0)], k) == CountFor(es, k) + 1
    ensures SumFor(es + [Entry(k, 0.0)], k) == SumFor(es, k)
    ensures SumFor(es + [Entry(k, 0.0)], k) / (CountFor(es + [Entry(k, 0.0)], k) as real)
      < SumFor(es, k) / (CountFor(es, k) as real)
  {
    AppendEntry(es, Entry(k, 0.0), k);
    var s := SumFor(es, k);
    var c := CountFor(es, k) as real;
    var a := s / (c + 1.0);
    var b := s / c;
    assert a * (c + 1.0) == s && b * c == s;
    assert a > 0.0;
    assert (b - a) * c == a;
    assert b > a;
  }

  lemma {:induction false} AppendEntry(es: seq<Entry>, e: Entry, k: string)
    ensures CountFor(es + [e], k) == CountFor(es, k) + (if e.key == k then 1 else 0)
    ensures SumFor(es + [e], k) == SumFor(es, k) + (if e.key == k then e.value else 0.0)
    decreases |es|
  {
    if |es| > 0 {
      assert (es + [e])[1..] == es[1..] + [e];
      AppendEntry(es[1..], e, k);
    } else {
      assert es + [e] == [e];
    }
  }
}
