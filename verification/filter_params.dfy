/** `buildQueryFromFilters`: the global filter written as URL query
    parameters. The parameter list is modelled as an ordered list of
    key/value pairs with the `URLSearchParams` operations it uses. */
module FilterParams {
  import opened Wrappers
  import opened Filters
  import opened Sequences
  import Rows
  import ApplyFilters

  /** An ordered list of query parameters. */
  type Params = seq<(string, string)>

  /** The keys of a list of pairs, in order. */
  function KeysOf<V>(ps: seq<(string, V)>): (ks: seq<string>)
    ensures |ks| == |ps|
    ensures forall i :: 0 <= i < |ps| ==> ks[i] == ps[i].0
  {
    if |ps| == 0 then [] else [ps[0].0] + KeysOf(ps[1..])
  }

  /** `params.get(k)`: the first value stored under `k`. */
  function Get(ps: Params, k: string): (r: Option<string>)
    ensures r.None? <==> k !in KeysOf(ps)
  {
    if |ps| == 0 then None
    else if ps[0].0 == k then Some(ps[0].1)
    else Get(ps[1..], k)
  }

  /** Every pair stored under `k` removed. */
  function Without(ps: Params, k: string): (r: Params)
    ensures k !in KeysOf(r)
    ensures forall j :: j != k ==> Get(r, j) == Get(ps, j)
    ensures IsSubsequence(r, ps)
  {
    if |ps| == 0 then []
    else if ps[0].0 == k then
      var r := Without(ps[1..], k);
      SubsequenceDropHead(r, ps);
      r
    else
      var rest := Without(ps[1..], k);
      var r := [ps[0]] + rest;
      assert r[1..] == rest;
      r
  }

  /** `params.set(k, v)`: the first pair under `k` takes the value `v` and
      the others are removed; without such a pair, `(k, v)` is appended. */
  function Set(ps: Params, k: string, v: string): (r: Params)
    ensures k !in KeysOf(ps) ==> r == ps + [(k, v)]
  {
    if |ps| == 0 then [(k, v)]
    else if ps[0].0 == k then [(k, v)] + Without(ps[1..], k)
    else
      var rest := Set(ps[1..], k, v);
      var r := [ps[0]] + rest;
      assert r[1..] == rest;
      assert k !in KeysOf(ps) ==> k !in KeysOf(ps[1..]) by {
        assert KeysOf(ps)[1..] == KeysOf(ps[1..]);
      }
      r
  }

  /** After `set`, the key reads back as the value set and every other key
      reads as before. */
  lemma {:induction false} SetThenGet(ps: Params, k: string, v: string, j: string)
    ensures Get(Set(ps, k, v), k) == Some(v)
    ensures j != k ==> Get(Set(ps, k, v), j) == Get(ps, j)
    decreases |ps|
  {
    if |ps| > 0 && ps[0].0 != k {
      SetThenGet(ps[1..], k, v, j);
      var r := Set(ps, k, v);
      assert r[1..] == Set(ps[1..], k, v);
    }
  }

  /** One builder line: `set` the key when the value is there. */
  function Emit(ps: Params, k: string, v: Option<string>): Params {
    if v.Some? then Set(ps, k, v.value) else ps
  }

  /** The value a dimension contributes: the filter value when it narrows. */
  function Selected(v: Option<string>): (r: Option<string>)
    ensures r.Some? <==> Concrete(v)
    ensures r.Some? ==> r == v && r.value != "any" && r.value != ""
  {
    if Concrete(v) then v else None
  }

  /** A call-date string field is written when it is truthy. */
  function WhenNonEmpty(v: Option<string>): (r: Option<string>)
    ensures r.Some? <==> NonEmpty(v)
    ensures r.Some? ==> r == v
  {
    if NonEmpty(v) then v else None
  }

  /** The eleven parameter keys in the order the builder writes them. */
  const QueryKeys: seq<string> := [
    "brand", "owner", "franchiseId", "storeId", "channel", "engagementMode",
    "callDateOperator", "callDateFrom", "callDateTo", "callDateQuantity", "callDateUnit"]

  /** What the builder writes under each key, in order (`None`: the key is skipped).
      `show` is `String(number)`. */
  function Candidates(f: GlobalFilters, show: real -> string): (cs: seq<(string, Option<string>)>)
    ensures |cs| == |QueryKeys|
    ensures forall i :: 0 <= i < |cs| ==> cs[i].0 == QueryKeys[i]
  {
    var cd := f.callDate;
    [ ("brand", Selected(f.brand)),
      ("owner", Selected(f.owner)),
      ("franchiseId", Selected(f.franchiseId)),
      ("storeId", Selected(f.storeId)),
      ("channel", Selected(f.channel)),
      ("engagementMode", Selected(f.engagementMode)),
      ("callDateOperator", Some(OperatorName(cd.operator))),
      ("callDateFrom", WhenNonEmpty(cd.from)),
      ("callDateTo", WhenNonEmpty(cd.to)),
      ("callDateQuantity", if cd.quantity.Some? then Some(show(cd.quantity.value)) else None),
      ("callDateUnit", if cd.unit.Some? then Some(UnitName(cd.unit.value)) else None) ]
  }

  /** The candidates written one after the other onto `ps`. */
  function EmitAll(ps: Params, cs: seq<(string, Option<string>)>): Params
    decreases |cs|
  {
    if |cs| == 0 then ps else EmitAll(Emit(ps, cs[0].0, cs[0].1), cs[1..])
  }

  /** The written pairs of a candidate list: those with a value. */
  function Present(cs: seq<(string, Option<string>)>): (r: Params)
    ensures |r| <= |cs|
  {
    if |cs| == 0 then []
    else if cs[0].1.Some? then [(cs[0].0, cs[0].1.value)] + Present(cs[1..])
    else Present(cs[1..])
  }

  /** The value listed for `k` (the first listing). */
  function Listed(cs: seq<(string, Option<string>)>, k: string): Option<string> {
    if |cs| == 0 then None
    else if cs[0].0 == k then cs[0].1
    else Listed(cs[1..], k)
  }

  /** With distinct keys, the value listed for the key at position `i` is the one at `i`. */
  lemma {:induction false} ListedAt(cs: seq<(string, Option<string>)>, i: nat)
    requires NoDuplicates(KeysOf(cs)) && i < |cs|
    ensures Listed(cs, cs[i].0) == cs[i].1
    decreases |cs|
  {
    if i > 0 {
      assert KeysOf(cs)[0] != KeysOf(cs)[i];
      assert KeysOf(cs[1..]) == KeysOf(cs)[1..];
      ListedAt(cs[1..], i - 1);
    }
  }

  /** The value the query holds under the key at position `i` of the candidates. */
  lemma ReadCandidate(f: GlobalFilters, show: real -> string, i: nat)
    requires i < |QueryKeys|
    ensures Get(BuildQueryFromFilters(f, show), QueryKeys[i]) == Candidates(f, show)[i].1
  {
    var cs := Candidates(f, show);
    assert KeysOf(cs) == QueryKeys;
    QueryKeysDistinct();
    GetPresent(cs, QueryKeys[i]);
    ListedAt(cs, i);
  }

  /** Writing a key the parameters do not hold appends it, when there is a value. */
  lemma EmitFresh(ps: Params, k: string, v: Option<string>)
    requires k !in KeysOf(ps)
    ensures v.Some? ==> Emit(ps, k, v) == ps + [(k, v.value)]
    ensures KeysOf(Emit(ps, k, v)) == KeysOf(ps) + (if v.Some? then [k] else [])
  {
  }

  /** After writing the first candidate, the remaining candidates still have
      distinct keys, none of them written yet. */
  lemma FreshAfterEmit(ps: Params, cs: seq<(string, Option<string>)>)
    requires |cs| > 0 && NoDuplicates(KeysOf(cs))
    requires forall i :: 0 <= i < |cs| ==> cs[i].0 !in KeysOf(ps)
    ensures NoDuplicates(KeysOf(cs[1..]))
    ensures forall i :: 0 <= i < |cs| - 1 ==> cs[1..][i].0 !in KeysOf(Emit(ps, cs[0].0, cs[0].1))
  {
    var ks := KeysOf(cs);
    assert KeysOf(cs[1..]) == ks[1..];
    EmitFresh(ps, cs[0].0, cs[0].1);
    forall i | 0 <= i < |cs| - 1
      ensures cs[1..][i].0 !in KeysOf(Emit(ps, cs[0].0, cs[0].1))
    {
      assert cs[1..][i].0 == ks[i + 1] && cs[0].0 == ks[0];
      assert ks[i + 1] != ks[0];
      assert cs[i + 1].0 !in KeysOf(ps);
    }
  }

  /** Onto parameters that hold none of the candidate keys, writing distinct
      keys only appends the present ones. */
  lemma {:induction false} EmitAllAppends(ps: Params, cs: seq<(string, Option<string>)>)
    requires NoDuplicates(KeysOf(cs))
    requires forall i :: 0 <= i < |cs| ==> cs[i].0 !in KeysOf(ps)
    ensures EmitAll(ps, cs) == ps + Present(cs)
    decreases |cs|
  {
    if |cs| > 0 {
      var next := Emit(ps, cs[0].0, cs[0].1);
      var head: Params := if cs[0].1.Some? then [(cs[0].0, cs[0].1.value)] else [];
      var rest := Present(cs[1..]);
      assert EmitAll(next, cs[1..]) == next + rest by {
        FreshAfterEmit(ps, cs);
        EmitAllAppends(next, cs[1..]);
      }
      assert next == ps + head by {
        EmitFresh(ps, cs[0].0, cs[0].1);
      }
      assert Present(cs) == head + rest;
      assert EmitAll(ps, cs) == EmitAll(next, cs[1..]);
      AppendAssociates(ps, head, rest);
    }
  }

  lemma AppendAssociates(a: Params, b: Params, c: Params)
    ensures (a + b) + c == a + (b + c)
  {
  }

  /** Reading a key back from the written pairs gives the listed value. */
  lemma {:induction false} GetPresent(cs: seq<(string, Option<string>)>, k: string)
    requires NoDuplicates(KeysOf(cs))
    ensures Get(Present(cs), k) == Listed(cs, k)
    decreases |cs|
  {
    if |cs| > 0 {
      assert KeysOf(cs[1..]) == KeysOf(cs)[1..];
      GetPresent(cs[1..], k);
      if cs[0].0 == k && cs[0].1.None? {
        ListedAbsent(cs[1..], k);
        assert Listed(cs[1..], k).None?;
      }
    }
  }

  lemma {:induction false} ListedAbsent(cs: seq<(string, Option<string>)>, k: string)
    requires k !in KeysOf(cs)
    ensures Listed(cs, k).None?
    ensures Get(Present(cs), k).None?
    decreases |cs|
  {
    if |cs| > 0 {
      assert KeysOf(cs[1..]) == KeysOf(cs)[1..];
      ListedAbsent(cs[1..], k);
    }
  }

  /** The keys of the written pairs keep the candidate order. */
  lemma {:induction false} PresentKeysSubsequence(cs: seq<(string, Option<string>)>)
    ensures IsSubsequence(KeysOf(Present(cs)), KeysOf(cs))
    decreases |cs|
  {
    if |cs| > 0 {
      PresentKeysSubsequence(cs[1..]);
      assert KeysOf(cs[1..]) == KeysOf(cs)[1..];
      if cs[0].1.Some? {
        var ks := KeysOf(Present(cs));
        assert ks[0] == KeysOf(cs)[0] && ks[1..] == KeysOf(Present(cs[1..]));
      } else {
        SubsequenceDropHead(KeysOf(Present(cs)), KeysOf(cs));
      }
    }
  }

  lemma QueryKeysDistinct()
    ensures NoDuplicates(QueryKeys)
  {
  }

  /** The query the builder produces. */
  function BuildQueryFromFilters(f: GlobalFilters, show: real -> string): (r: Params)
    ensures r == Present(Candidates(f, show))
    ensures IsSubsequence(KeysOf(r), QueryKeys)
  {
    var cs := Candidates(f, show);
    assert KeysOf(cs) == QueryKeys;
    QueryKeysDistinct();
    EmitAllAppends([], cs);
    PresentKeysSubsequence(cs);
    EmitAll([], cs)
  }

  /** Each dimension is written exactly when its value narrows, and then with
      the filter's own value; so no dimension is ever sent as "any". */
  lemma DimensionParams(f: GlobalFilters, show: real -> string, d: Dimension)
    ensures Get(BuildQueryFromFilters(f, show), Key(d)) == Selected(f.Field(d))
    ensures Get(BuildQueryFromFilters(f, show), Key(d)).Some? <==> Concrete(f.Field(d))
    ensures Get(BuildQueryFromFilters(f, show), Key(d)) != Some("any")
  {
    var i := DimensionIndex(d);
    ReadCandidate(f, show, i);
    DimensionCandidate(f, show, d);
  }

  /** The position of a dimension's key in the query. */
  function DimensionIndex(d: Dimension): (i: nat)
    ensures i < 6 && QueryKeys[i] == Key(d)
  {
    match d
    case Brand => 0
    case Owner => 1
    case FranchiseId => 2
    case StoreId => 3
    case Channel => 4
    case EngagementMode => 5
  }

  lemma DimensionCandidate(f: GlobalFilters, show: real -> string, d: Dimension)
    ensures Candidates(f, show)[DimensionIndex(d)].1 == Selected(f.Field(d))
  {
  }

  /** The call-date parameters: the operator always; from and to when
      non-empty; the quantity whenever present (0 included), as `String(q)`;
      the unit whenever present. */
  lemma CallDateParams(f: GlobalFilters, show: real -> string)
    ensures Get(BuildQueryFromFilters(f, show), "callDateOperator") == Some(OperatorName(f.callDate.operator))
    ensures Get(BuildQueryFromFilters(f, show), "callDateFrom") == WhenNonEmpty(f.callDate.from)
    ensures Get(BuildQueryFromFilters(f, show), "callDateTo") == WhenNonEmpty(f.callDate.to)
    ensures Get(BuildQueryFromFilters(f, show), "callDateQuantity")
      == if f.callDate.quantity.Some? then Some(show(f.callDate.quantity.value)) else None
    ensures Get(BuildQueryFromFilters(f, show), "callDateUnit")
      == if f.callDate.unit.Some? then Some(UnitName(f.callDate.unit.value)) else None
  {
    ReadCandidate(f, show, 6);
    ReadCandidate(f, show, 7);
    ReadCandidate(f, show, 8);
    ReadCandidate(f, show, 9);
    ReadCandidate(f, show, 10);
  }

  /** No key is written twice, and no key outside the eleven is written. */
  lemma QueryKeysOnceEach(f: GlobalFilters, show: real -> string)
    ensures NoDuplicates(KeysOf(BuildQueryFromFilters(f, show)))
    ensures forall i :: 0 <= i < |BuildQueryFromFilters(f, show)| ==> BuildQueryFromFilters(f, show)[i].0 in QueryKeys
  {
    var r := BuildQueryFromFilters(f, show);
    QueryKeysDistinct();
    SubsequenceNoDuplicates(KeysOf(r), QueryKeys);
    forall i | 0 <= i < |r| ensures r[i].0 in QueryKeys {
      SubsequenceMembers(KeysOf(r), QueryKeys, i);
    }
  }

  /** The query as the server sees it: every parameter a string field. */
  function QueryObject(ps: Params): (q: Rows.FilterObject)
    ensures forall k :: k in q <==> k in KeysOf(ps)
  {
    map k | k in KeysOf(ps) :: Rows.Str(Get(ps, k).value)
  }

  /** End to end: the server's row filter is narrowed by exactly the
      dimensions the global filter has concrete, each to the selected value. */
  lemma ServerNarrowsByConcreteDimensions(f: GlobalFilters, show: real -> string, d: Dimension)
    ensures ApplyFilters.Constrains(QueryObject(BuildQueryFromFilters(f, show)), Key(d)) <==> Concrete(f.Field(d))
    ensures Concrete(f.Field(d)) ==> QueryObject(BuildQueryFromFilters(f, show))[Key(d)] == Rows.Str(f.Field(d).value)
  {
    DimensionParams(f, show, d);
  }
}
