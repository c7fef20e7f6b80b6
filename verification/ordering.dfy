/** The order JavaScript's default `Array.prototype.sort` puts strings in:
    lexicographic by character code, a proper prefix first. The model
    compares characters by their code point. */
module Ordering {

  /** `a` sorts strictly before `b`. */
  predicate LexLess(a: string, b: string)
    decreases |a|
  {
    if |a| == 0 then |b| > 0
    else if |b| == 0 then false
    else a[0] < b[0] || (a[0] == b[0] && LexLess(a[1..], b[1..]))
  }

  lemma {:induction false} LexIrreflexive(a: string)
    ensures !LexLess(a, a)
    decreases |a|
  {
    if |a| > 0 {
      LexIrreflexive(a[1..]);
    }
  }

  lemma {:induction false} LexTransitive(a: string, b: string, c: string)
    requires LexLess(a, b) && LexLess(b, c)
    ensures LexLess(a, c)
    decreases |a|
  {
    if |a| > 0 && a[0] == b[0] && b[0] == c[0] {
      LexTransitive(a[1..], b[1..], c[1..]);
    }
  }

  /** Two different strings are always ordered one way or the other. */
  lemma {:induction false} LexTotal(a: string, b: string)
    requires a != b
    ensures LexLess(a, b) || LexLess(b, a)
    decreases |a|
  {
    if |a| > 0 && |b| > 0 && a[0] == b[0] {
      assert a == [a[0]] + a[1..] && b == [b[0]] + b[1..];
      LexTotal(a[1..], b[1..]);
    }
  }

  /** Strictly ascending, hence free of duplicates. */
  predicate StrictlySorted(s: seq<string>) {
    forall i, j :: 0 <= i < j < |s| ==> LexLess(s[i], s[j])
  }

  /** Inserts a new key into a strictly ascending sequence at its place. */
  function Insert(x: string, s: seq<string>): (r: seq<string>)
    requires StrictlySorted(s) && x !in s
    ensures StrictlySorted(r)
    ensures |r| == |s| + 1
    ensures forall i :: 0 <= i < |r| ==> r[i] == x || r[i] in s
    ensures x in r && forall i :: 0 <= i < |s| ==> s[i] in r
    decreases |s|
  {
    if |s| == 0 then [x]
    else if LexLess(x, s[0]) then
      assert forall j :: 0 < j < |s| ==> LexLess(x, s[j]) by {
        forall j | 0 < j < |s| ensures LexLess(x, s[j]) {
          LexTransitive(x, s[0], s[j]);
        }
      }
      [x] + s
    else
      LexTotal(x, s[0]);
      var rest := Insert(x, s[1..]);
      var r := [s[0]] + rest;
      assert forall j :: 0 < j < |r| ==> LexLess(s[0], r[j]);
      r
  }

  /** Sorts a duplicate-free sequence of keys into strictly ascending order. */
  function SortDistinct(s: seq<string>): (r: seq<string>)
    requires forall i, j :: 0 <= i < j < |s| ==> s[i] != s[j]
    ensures StrictlySorted(r)
    ensures |r| == |s|
    ensures forall i :: 0 <= i < |r| ==> r[i] in s
    ensures forall i :: 0 <= i < |s| ==> s[i] in r
    decreases |s|
  {
    if |s| == 0 then []
    else
      var rest := SortDistinct(s[1..]);
      assert s[0] !in s[1..];
      Insert(s[0], rest)
  }

  /** A strictly ascending sequence of exactly two ordered strings is that pair. */
  lemma SortedPair(ks: seq<string>, a: string, b: string)
    requires StrictlySorted(ks) && LexLess(a, b)
    requires a in ks && b in ks
    requires forall i :: 0 <= i < |ks| ==> ks[i] == a || ks[i] == b
    ensures ks == [a, b]
  {
    var ab := [a, b];
    assert StrictlySorted(ab);
    StrictlySortedUnique(ks, ab);
  }

  /** Two strictly ascending sequences with the same elements are equal:
      sorting fixes the order completely. */
  lemma {:induction false} StrictlySortedUnique(a: seq<string>, b: seq<string>)
    requires StrictlySorted(a) && StrictlySorted(b)
    requires forall i :: 0 <= i < |a| ==> a[i] in b
    requires forall i :: 0 <= i < |b| ==> b[i] in a
    ensures a == b
    decreases |a|
  {
    if |a| > 0 {
      assert a[0] in b;
    }
    if |b| > 0 {
      assert b[0] in a;
    }
    if |a| > 0 && |b| > 0 {
      HeadsAgree(a, b);
      TailMembers(a, b);
      TailMembers(b, a);
      StrictlySortedUnique(a[1..], b[1..]);
      assert a == [a[0]] + a[1..] && b == [b[0]] + b[1..];
    }
  }

  /** Both heads are the least element, so they agree. */
  lemma HeadsAgree(a: seq<string>, b: seq<string>)
    requires StrictlySorted(a) && StrictlySorted(b) && |a| > 0 && |b| > 0
    requires a[0] in b && b[0] in a
    ensures a[0] == b[0]
  {
    if a[0] != b[0] {
      var i :| 0 <= i < |b| && b[i] == a[0];
      var j :| 0 <= j < |a| && a[j] == b[0];
      assert LexLess(b[0], b[i]) && LexLess(a[0], a[j]);
      LexTransitive(a[0], b[0], a[0]);
      LexIrreflexive(a[0]);
    }
  }

  /** With equal heads, the tail of one lies in the tail of the other. */
  lemma TailMembers(a: seq<string>, b: seq<string>)
    requires StrictlySorted(a) && |a| > 0 && |b| > 0 && a[0] == b[0]
    requires forall i :: 0 <= i < |a| ==> a[i] in b
    ensures forall i :: 0 <= i < |a| - 1 ==> a[1..][i] in b[1..]
  {
    forall i | 0 <= i < |a| - 1
      ensures a[1..][i] in b[1..]
    {
      var x := a[i + 1];
      assert LexLess(a[0], x);
      LexIrreflexive(a[0]);
      assert x in b;
      var k :| 0 <= k < |b| && b[k] == x;
      assert b[1..][k - 1] == x;
    }
  }

  /** Appending the same suffix keeps the order of two keys of equal length. */
  lemma {:induction false} LexLessAppend(a: string, b: string, t: string)
    requires |a| == |b| && LexLess(a, b)
    ensures LexLess(a + t, b + t)
    decreases |a|
  {
    assert (a + t)[0] == a[0] && (b + t)[0] == b[0];
    if a[0] == b[0] {
      assert (a + t)[1..] == a[1..] + t && (b + t)[1..] == b[1..] + t;
      LexLessAppend(a[1..], b[1..], t);
    }
  }
}
