/** `/api/explore`: one page of the call rows, cut with `Array.prototype.slice`
    from `(page - 1) * pageSize` to `page * pageSize`. Query values go through
    `parseInt`; a result of `NaN` is `None`. */
module Explore {
  import opened Wrappers
  import opened Rows

  /** `parseInt`, given as a partial function: `None` stands for `NaN`. */
  type IntParser = string -> Option<int>

  /** How `slice` reads one bound: `NaN` is 0, a negative bound counts from the end,
      and every bound is clamped into `[0, len]`. */
  function SliceIndex(x: Option<int>, len: nat): (k: nat)
    ensures k <= len
    ensures x.Some? && 0 <= x.value <= len ==> k == x.value
    ensures x.Some? && -(len as int) <= x.value < 0 ==> k == len + x.value
    ensures x.Some? && x.value > len ==> k == len
    ensures x.Some? && x.value < -(len as int) ==> k == 0
    ensures x.None? ==> k == 0
  {
    match x
    case None => 0
    case Some(v) =>
      if v < 0 then (if len + v < 0 then 0 else len + v)
      else if v > len then len
      else v
  }

  /** `rows.slice(start, end)`. */
  function Slice(rows: seq<Row>, start: Option<int>, end: Option<int>): (r: seq<Row>)
    ensures exists lo, hi :: 0 <= lo <= hi <= |rows| && r == rows[lo..hi]
    ensures SliceIndex(end, |rows|) <= SliceIndex(start, |rows|) ==> r == []
    ensures SliceIndex(start, |rows|) < SliceIndex(end, |rows|) ==>
      |r| == SliceIndex(end, |rows|) - SliceIndex(start, |rows|)
    ensures forall i :: 0 <= i < |r| ==> SliceIndex(start, |rows|) + i < |rows| && r[i] == rows[SliceIndex(start, |rows|) + i]
  {
    var lo := SliceIndex(start, |rows|);
    var hi := SliceIndex(end, |rows|);
    if lo < hi then rows[lo..hi] else
      assert rows[lo..lo] == [];
      []
  }

  /** The rows of page `page` of size `size`. */
  function PageSlice(rows: seq<Row>, page: Option<int>, size: Option<int>): (r: seq<Row>)
    ensures size.Some? && size.value >= 0 ==> |r| <= size.value
  {
    var start := if page.Some? && size.Some? then Some((page.value - 1) * size.value) else None;
    var end := if start.Some? then Some(start.value + size.value) else None;
    if start.Some? && size.value >= 0 then
      SliceIndexSpan(start.value, size.value, |rows|);
      Slice(rows, start, end)
    else
      Slice(rows, start, end)
  }

  /** Two bounds `size` apart select at most `size` rows. */
  lemma SliceIndexSpan(start: int, size: int, len: nat)
    requires size >= 0
    ensures SliceIndex(Some(start + size), len) - SliceIndex(Some(start), len) <= size
  {
  }

  /** Between two indices of the same sign, a larger one never clamps to an
      earlier position (across signs it can: -1 is past 0). */
  lemma SliceIndexMonotone(a: int, b: int, len: nat)
    requires a <= b && (a < 0 <==> b < 0)
    ensures SliceIndex(Some(a), len) <= SliceIndex(Some(b), len)
  {
  }

  /** Bounds of the same sign in reverse order select nothing. */
  lemma ReversedBoundsEmpty(rows: seq<Row>, a: int, b: int)
    requires b <= a && (a < 0 <==> b < 0)
    ensures Slice(rows, Some(a), Some(b)) == []
  {
    SliceIndexMonotone(b, a, |rows|);
  }

  /** A negative page size `s` gives an empty page except on page 1, whose
      bounds 0 and `s` select all rows but the last `-s`. */
  lemma NegativePageSize(rows: seq<Row>, p: int, s: int)
    requires s < 0
    ensures p != 1 ==> PageSlice(rows, Some(p), Some(s)) == []
    ensures p == 1 ==> PageSlice(rows, Some(p), Some(s)) == rows[..if |rows| + s < 0 then 0 else |rows| + s]
  {
    var start := (p - 1) * s;
    NegativeFactor(p - 1, s);
    if p != 1 {
      ReversedBoundsEmpty(rows, start, start + s);
    } else {
      FirstPageNegativeSize(rows, s);
    }
  }

  /** The signs of `a * s` for a negative `s`. */
  lemma NegativeFactor(a: int, s: int)
    requires s < 0
    ensures a > 0 ==> a * s < 0
    ensures a == 0 ==> a * s == 0
    ensures a < 0 ==> a * s >= -s
  {
    if a < 0 {
      NonNegativeProduct(-a - 1, -s);
      assert a * s == (-a - 1) * (-s) + (-s);
    } else if a > 0 {
      NonNegativeProduct(a - 1, -s);
      assert a * s == -((a - 1) * (-s)) + s;
    }
  }

  lemma FirstPageNegativeSize(rows: seq<Row>, s: int)
    requires s < 0
    ensures PageSlice(rows, Some(1), Some(s)) == rows[..if |rows| + s < 0 then 0 else |rows| + s]
  {
    assert (1 - 1) * s == 0;
    var r := PageSlice(rows, Some(1), Some(s));
    assert r == Slice(rows, Some(0), Some(s));
    var hi := if |rows| + s < 0 then 0 else |rows| + s;
    assert SliceIndex(Some(s), |rows|) == hi;
    if hi == 0 {
      assert r == [];
    }
  }

  /** For bounds in order and not negative, `slice` is a clamped sub-sequence. */
  lemma SliceOfNonNegative(all: seq<Row>, a: int, b: int)
    requires 0 <= a <= b
    ensures Slice(all, Some(a), Some(b)) == all[MinNat(a, |all|)..MinNat(b, |all|)]
  {
    var n := |all|;
    if MinNat(a, n) == MinNat(b, n) {
      assert all[MinNat(a, n)..MinNat(b, n)] == [];
    }
  }

  /** Page `p` (from 1) of size `s` covers rows `(p - 1) * s` to `p * s`, clamped. */
  lemma PageBounds(all: seq<Row>, p: int, s: int)
    requires p >= 1 && s >= 0
    ensures PageSlice(all, Some(p), Some(s)) == all[MinNat((p - 1) * s, |all|)..MinNat(p * s, |all|)]
  {
    var m := (p - 1) * s;
    NonNegativeProduct(p - 1, s);
    assert p * s == m + s;
    SliceOfNonNegative(all, m, m + s);
  }

  lemma NonNegativeProduct(a: int, b: int)
    requires a >= 0 && b >= 0
    ensures a * b >= 0
  {
  }

  datatype ExploreResponse = ExploreResponse(rows: seq<Row>, total: nat, page: Option<int>, pageSize: Option<int>)

  /** The numeric default of a missing query value passes through `parseInt` unchanged. */
  function QueryInt(param: Option<string>, default: int, parseInt: IntParser): (r: Option<int>)
    ensures param.None? ==> r == Some(default)
    ensures param.Some? ==> r == parseInt(param.value)
  {
    match param
    case None => Some(default)
    case Some(s) => parseInt(s)
  }

  /** The handler's response for query values `page` and `pageSize` (defaults 1 and 50). */
  function ExplorePage(all: seq<Row>, page: Option<string>, pageSize: Option<string>, parseInt: IntParser): (r: ExploreResponse)
    ensures r.total == |all|
    ensures r.pageSize.Some? && r.pageSize.value >= 0 ==> |r.rows| <= r.pageSize.value
    ensures page.None? && pageSize.None? ==> r.rows == all[..if |all| < 50 then |all| else 50]
  {
    var p := QueryInt(page, 1, parseInt);
    var s := QueryInt(pageSize, 50, parseInt);
    ExploreResponse(PageSlice(all, p, s), |all|, p, s)
  }

  function MinNat(a: nat, b: nat): nat { if a < b then a else b }

  /** Consecutive pages of a positive size tile the rows: page `p` ends where page `p + 1` begins. */
  lemma ConsecutivePagesTile(all: seq<Row>, p: int, s: int)
    requires p >= 1 && s > 0
    ensures PageSlice(all, Some(p), Some(s)) + PageSlice(all, Some(p + 1), Some(s))
      == all[MinNat((p - 1) * s, |all|)..MinNat((p + 1) * s, |all|)]
  {
    var n := |all|;
    var m := (p - 1) * s;
    assert 0 <= m && p * s == m + s && (p + 1) * s == p * s + s by {
      NonNegativeProduct(p - 1, s);
    }
    assert PageSlice(all, Some(p), Some(s)) == all[MinNat(m, n)..MinNat(p * s, n)] by {
      PageBounds(all, p, s);
    }
    assert PageSlice(all, Some(p + 1), Some(s)) == all[MinNat(p * s, n)..MinNat((p + 1) * s, n)] by {
      PageBounds(all, p + 1, s);
      assert (p + 1 - 1) * s == p * s;
    }
    AdjacentSlices(all, m, p * s, (p + 1) * s);
  }

  /** Two clamped slices that meet join into one. */
  lemma AdjacentSlices(all: seq<Row>, a: nat, b: nat, c: nat)
    requires a <= b <= c
    ensures all[MinNat(a, |all|)..MinNat(b, |all|)] + all[MinNat(b, |all|)..MinNat(c, |all|)]
      == all[MinNat(a, |all|)..MinNat(c, |all|)]
  {
  }

  /** Pages 1 to `k` together are exactly the first `k * s` rows (or all of them). */
  lemma {:induction false} FirstPagesArePrefix(all: seq<Row>, k: nat, s: int)
    requires s > 0
    ensures Pages(all, k, s) == all[..MinNat(k * s, |all|)]
  {
    if k > 0 {
      var n := |all|;
      var m := (k - 1) * s;
      assert 0 <= m && k * s == m + s by {
        NonNegativeProduct(k - 1, s);
      }
      assert Pages(all, k - 1, s) == all[MinNat(0, n)..MinNat(m, n)] by {
        FirstPagesArePrefix(all, k - 1, s);
      }
      assert PageSlice(all, Some(k), Some(s)) == all[MinNat(m, n)..MinNat(k * s, n)] by {
        PageBounds(all, k, s);
      }
      AdjacentSlices(all, 0, m, k * s);
    } else {
      assert MinNat(0, |all|) == 0;
    }
  }

  /** The concatenation of pages 1 to `k`. */
  function Pages(all: seq<Row>, k: nat, s: int): seq<Row> {
    if k == 0 then [] else Pages(all, k - 1, s) + PageSlice(all, Some(k), Some(s))
  }

  /** A page number below 1 is not rejected: page -1 with size 50 over 100 rows
      slices from -100 to -50, which `slice` reads as the first 50 rows. */
  lemma NegativePageCountsFromEnd(all: seq<Row>)
    requires |all| == 100
    ensures PageSlice(all, Some(-1), Some(50)) == all[..50]
  {
  }
}
