/** `applyFilters`: keeps the rows that agree with every concrete field of a
    filter object. A field narrows only when it is present, truthy and not
    the sentinel "any"; `franchiseId` may match either of two columns. */
module ApplyFilters {
  import opened Wrappers
  import opened Rows
  import opened Filters
  import opened Sequences

  /** The filter field `key` narrows the result. */
  predicate Constrains(f: FilterObject, key: string) {
    key in f && Rows.Truthy(f[key]) && f[key] != Str("any")
  }

  /** One filter line: a narrowing field must equal the given column. */
  predicate ColumnAdmits(f: FilterObject, key: string, row: Row, column: string) {
    !Constrains(f, key) || Get(row, column) == Some(f[key])
  }

  /** The row survives all six filter lines, checked in source order. */
  predicate Keeps(f: FilterObject, row: Row) {
    && ColumnAdmits(f, "brand", row, "brand")
    && ColumnAdmits(f, "owner", row, "owner")
    && (!Constrains(f, "franchiseId")
        || Get(row, "franchise_id") == Some(f["franchiseId"])
        || Get(row, "franchisee_id") == Some(f["franchiseId"]))
    && ColumnAdmits(f, "storeId", row, "store_id")
    && ColumnAdmits(f, "channel", row, "channel")
    && ColumnAdmits(f, "engagementMode", row, "engagement_mode")
  }

  /** `data.filter(row => Keeps(filters, row))`. */
  function Apply(rows: seq<Row>, f: FilterObject): (r: seq<Row>)
    ensures IsSubsequence(r, rows)
    ensures forall i :: 0 <= i < |r| ==> Keeps(f, r[i])
    ensures |r| <= |rows|
    ensures forall x :: multiset(r)[x] == if Keeps(f, x) then multiset(rows)[x] else 0
    decreases |rows|
  {
    if |rows| == 0 then []
    else
      ConsMultiset(rows);
      if Keeps(f, rows[0]) then
        var rest := Apply(rows[1..], f);
        var r := [rows[0]] + rest;
        assert r[0] == rows[0] && r[1..] == rest;
        ConsMultiset(r);
        r
      else
        Apply(rows[1..], f)
  }

  lemma ConsMultiset(s: seq<Row>)
    requires |s| > 0
    ensures multiset(s) == multiset{s[0]} + multiset(s[1..])
  {
    assert s == [s[0]] + s[1..];
  }

  /** The record columns a dimension is compared with. */
  function Columns(d: Dimension): seq<string> {
    match d
    case Brand => ["brand"]
    case Owner => ["owner"]
    case FranchiseId => ["franchise_id", "franchisee_id"]
    case StoreId => ["store_id"]
    case Channel => ["channel"]
    case EngagementMode => ["engagement_mode"]
  }

  /** Reference reading of the filter: every narrowing dimension equals one of its columns. */
  predicate AdmitsDimension(f: FilterObject, row: Row, d: Dimension) {
    !Constrains(f, Key(d)) || exists c :: c in Columns(d) && Get(row, c) == Some(f[Key(d)])
  }

  /** The six filter lines say exactly that every dimension admits the row. */
  lemma KeepsIffAllDimensionsAdmit(f: FilterObject, row: Row)
    ensures Keeps(f, row) <==> forall d: Dimension :: AdmitsDimension(f, row, d)
  {
    if Keeps(f, row) {
      forall d: Dimension ensures AdmitsDimension(f, row, d) {
        if Constrains(f, Key(d)) {
          match d
          case FranchiseId =>
            if Get(row, "franchise_id") == Some(f["franchiseId"]) {
              assert "franchise_id" in Columns(d);
            } else {
              assert "franchisee_id" in Columns(d);
            }
          case _ =>
            assert Columns(d)[0] in Columns(d);
        }
      }
    } else {
      assert !AdmitsDimension(f, row, Brand) || !AdmitsDimension(f, row, Owner)
        || !AdmitsDimension(f, row, FranchiseId) || !AdmitsDimension(f, row, StoreId)
        || !AdmitsDimension(f, row, Channel) || !AdmitsDimension(f, row, EngagementMode);
    }
  }

  /** A concrete `franchiseId` keeps a row exactly when either franchise column equals it
      and the other fields admit the row. */
  lemma FranchiseEitherColumn(f: FilterObject, row: Row)
    requires Constrains(f, "franchiseId")
    ensures Keeps(f, row) ==>
      Get(row, "franchise_id") == Some(f["franchiseId"]) || Get(row, "franchisee_id") == Some(f["franchiseId"])
    ensures Get(row, "franchisee_id") == Some(f["franchiseId"]) && ColumnAdmits(f, "brand", row, "brand")
      && ColumnAdmits(f, "owner", row, "owner") && ColumnAdmits(f, "storeId", row, "store_id")
      && ColumnAdmits(f, "channel", row, "channel") && ColumnAdmits(f, "engagementMode", row, "engagement_mode")
      ==> Keeps(f, row)
  {
  }

  /** The two filter objects agree on all six dimension keys. */
  predicate AgreeOnDimensions(f: FilterObject, g: FilterObject) {
    forall d: Dimension :: (Key(d) in f <==> Key(d) in g) && (Key(d) in f ==> f[Key(d)] == g[Key(d)])
  }

  /** Filter objects that agree on the dimension keys keep the same rows. */
  lemma KeepsAgree(f: FilterObject, g: FilterObject, row: Row)
    requires AgreeOnDimensions(f, g)
    ensures Keeps(f, row) == Keeps(g, row)
  {
    assert Key(Brand) == "brand" && Key(Owner) == "owner" && Key(FranchiseId) == "franchiseId";
    assert Key(StoreId) == "storeId" && Key(Channel) == "channel" && Key(EngagementMode) == "engagementMode";
  }

  /** Only the six dimension keys are consulted. */
  lemma {:induction false} OnlyDimensionKeysMatter(rows: seq<Row>, f: FilterObject, g: FilterObject)
    requires AgreeOnDimensions(f, g)
    ensures Apply(rows, f) == Apply(rows, g)
    decreases |rows|
  {
    if |rows| > 0 {
      KeepsAgree(f, g, rows[0]);
      OnlyDimensionKeysMatter(rows[1..], f, g);
    }
  }

  /** The compare page names its engagement field `engagement`, which is not a dimension key:
      whatever value it holds, the result is the same as without it. */
  lemma SegmentEngagementNeverNarrows(rows: seq<Row>, f: FilterObject, v: Cell)
    ensures Apply(rows, f["engagement" := v]) == Apply(rows, f - {"engagement"})
  {
    OnlyDimensionKeysMatter(rows, f["engagement" := v], f - {"engagement"});
  }

  /** A filter with no narrowing dimension returns every row in the original order. */
  lemma {:induction false} UnconstrainedKeepsAll(rows: seq<Row>, f: FilterObject)
    requires forall d: Dimension :: !Constrains(f, Key(d))
    ensures Apply(rows, f) == rows
    decreases |rows|
  {
    if |rows| > 0 {
      UnconstrainedKeeps(f, rows[0]);
      UnconstrainedKeepsAll(rows[1..], f);
      assert Apply(rows, f) == [rows[0]] + Apply(rows[1..], f);
      assert rows == [rows[0]] + rows[1..];
    }
  }

  lemma UnconstrainedKeeps(f: FilterObject, row: Row)
    requires forall d: Dimension :: !Constrains(f, Key(d))
    ensures Keeps(f, row)
  {
    assert !Constrains(f, Key(Brand)) && !Constrains(f, Key(Owner)) && !Constrains(f, Key(FranchiseId));
    assert !Constrains(f, Key(StoreId)) && !Constrains(f, Key(Channel)) && !Constrains(f, Key(EngagementMode));
  }

  /** In particular `{}` returns every row in the original order. */
  lemma EmptyFilterKeepsAll(rows: seq<Row>)
    ensures Apply(rows, map[]) == rows
  {
    UnconstrainedKeepsAll(rows, map[]);
  }
}
