/** Sequence vocabulary shared by the model: order-preserving subsequences,
    duplicate-freedom, first occurrences, and the first-occurrence
    de-duplication that `[...new Set(xs)]` performs in JavaScript. */
module Sequences {

  /** `a` is obtained from `b` by deleting elements and keeping the order of the rest. */
  predicate IsSubsequence<T(==)>(a: seq<T>, b: seq<T>)
    decreases |b|
  {
    if |a| == 0 then true
    else if |b| == 0 then false
    else (a[0] == b[0] && IsSubsequence(a[1..], b[1..])) || IsSubsequence(a, b[1..])
  }

  /** No element occurs twice. */
  predicate NoDuplicates<T(==)>(s: seq<T>) {
    forall i, j :: 0 <= i < j < |s| ==> s[i] != s[j]
  }

  /** The position of the first occurrence of `x` in `s`. */
  function IndexOf<T(==)>(s: seq<T>, x: T): (i: nat)
    requires x in s
    ensures i < |s| && s[i] == x
    ensures forall k :: 0 <= k < i ==> s[k] != x
  {
    if s[0] == x then 0 else 1 + IndexOf(s[1..], x)
  }

  /** Every sequence is a subsequence of itself. */
  lemma {:induction false} SubsequenceReflexive<T>(s: seq<T>)
    ensures IsSubsequence(s, s)
    decreases |s|
  {
    if |s| > 0 {
      SubsequenceReflexive(s[1..]);
    }
  }

  /** The elements of `s` that are not in `seen`, each taken at its first
      occurrence, in the order of those occurrences. */
  function DistinctFrom<T(==)>(s: seq<T>, seen: set<T>): (r: seq<T>)
    ensures NoDuplicates(r)
    ensures forall i :: 0 <= i < |r| ==> r[i] in s && r[i] !in seen
    ensures forall i :: 0 <= i < |s| && s[i] !in seen ==> s[i] in r
    decreases |s|
  {
    if |s| == 0 then []
    else if s[0] in seen then DistinctFrom(s[1..], seen)
    else [s[0]] + DistinctFrom(s[1..], seen + {s[0]})
  }

  /** De-duplication only deletes elements. */
  lemma {:induction false} DistinctFromIsSubsequence<T>(s: seq<T>, seen: set<T>)
    ensures IsSubsequence(DistinctFrom(s, seen), s)
    decreases |s|
  {
    if |s| > 0 {
      if s[0] in seen {
        DistinctFromIsSubsequence(s[1..], seen);
        SubsequenceDropHead(DistinctFrom(s[1..], seen), s);
      } else {
        DistinctFromIsSubsequence(s[1..], seen + {s[0]});
        var r := DistinctFrom(s, seen);
        assert r[0] == s[0] && r[1..] == DistinctFrom(s[1..], seen + {s[0]});
      }
    }
  }

  /** A subsequence of the tail is a subsequence of the whole. */
  lemma {:induction false} SubsequenceDropHead<T>(a: seq<T>, b: seq<T>)
    requires |b| > 0
    requires IsSubsequence(a, b[1..])
    ensures IsSubsequence(a, b)
  {
  }

  /** The elements of `r` occur in `s`, and in the order of their first occurrences there. */
  ghost predicate InFirstOccurrenceOrder<T>(r: seq<T>, s: seq<T>) {
    forall i, j {:trigger IndexOf(s, r[i]), IndexOf(s, r[j])} ::
      0 <= i < j < |r| && r[i] in s && r[j] in s ==> IndexOf(s, r[i]) < IndexOf(s, r[j])
  }

  /** The first occurrence of an element other than the head is one past its first occurrence in the tail. */
  lemma IndexOfTail<T>(s: seq<T>, x: T)
    requires x in s && x != s[0]
    ensures x in s[1..] && IndexOf(s, x) == 1 + IndexOf(s[1..], x)
  {
  }

  /** The head occurs before every other element. */
  lemma HeadFirst<T>(s: seq<T>, y: T)
    requires y in s && y != s[0]
    ensures IndexOf(s, s[0]) < IndexOf(s, y)
  {
  }

  /** Elements other than the head keep their relative order from the tail. */
  lemma TailOrder<T>(s: seq<T>, x: T, y: T)
    requires x in s && y in s && x != s[0] && y != s[0]
    ensures x in s[1..] && y in s[1..]
    ensures IndexOf(s[1..], x) < IndexOf(s[1..], y) ==> IndexOf(s, x) < IndexOf(s, y)
  {
    IndexOfTail(s, x);
    IndexOfTail(s, y);
  }

  /** The kept elements appear in the order of their first occurrences. */
  lemma {:induction false} DistinctFromFirstOccurrenceOrder<T>(s: seq<T>, seen: set<T>)
    ensures InFirstOccurrenceOrder(DistinctFrom(s, seen), s)
    decreases |s|
  {
    if |s| > 0 {
      var seen' := if s[0] in seen then seen else seen + {s[0]};
      var rest := DistinctFrom(s[1..], seen');
      var r := DistinctFrom(s, seen);
      var off := if s[0] in seen then 0 else 1;
      DistinctFromFirstOccurrenceOrder(s[1..], seen');
      DistinctFromStep(s, seen, seen', rest, r, off);
      KeptInOrder(s, r, rest, off);
    }
  }

  /** One step of the de-duplication: the result is the tail's result, with
      the head in front when it is new; the tail's result avoids the head. */
  lemma DistinctFromStep<T>(s: seq<T>, seen: set<T>, seen': set<T>, rest: seq<T>, r: seq<T>, off: nat)
    requires |s| > 0
    requires seen' == if s[0] in seen then seen else seen + {s[0]}
    requires rest == DistinctFrom(s[1..], seen') && r == DistinctFrom(s, seen)
    requires off == if s[0] in seen then 0 else 1
    ensures |r| == |rest| + off
    ensures off == 1 ==> r[0] == s[0]
    ensures forall k :: 0 <= k < |rest| ==> r[k + off] == rest[k]
    ensures forall k :: 0 <= k < |rest| ==> rest[k] != s[0] && rest[k] in s[1..]
  {
    if s[0] in seen {
      assert r == rest;
    } else {
      assert r == [s[0]] + rest;
    }
  }

  /** The whole result is in order once the tail's result is. */
  lemma KeptInOrder<T>(s: seq<T>, r: seq<T>, rest: seq<T>, off: nat)
    requires |s| > 0 && off <= 1 && |r| == |rest| + off
    requires off == 1 ==> r[0] == s[0]
    requires forall k :: 0 <= k < |rest| ==> r[k + off] == rest[k]
    requires forall k :: 0 <= k < |rest| ==> rest[k] != s[0] && rest[k] in s[1..]
    requires InFirstOccurrenceOrder(rest, s[1..])
    ensures InFirstOccurrenceOrder(r, s)
  {
    forall i, j | 0 <= i < j < |r| && r[i] in s && r[j] in s
      ensures IndexOf(s, r[i]) < IndexOf(s, r[j])
    {
      KeptPairOrder(s, r, rest, off, i, j);
    }
  }

  /** One pair of kept elements: either the head comes first, or both come
      from the tail, whose order is known. */
  lemma KeptPairOrder<T>(s: seq<T>, r: seq<T>, rest: seq<T>, off: nat, i: nat, j: nat)
    requires |s| > 0 && off <= 1 && |r| == |rest| + off
    requires off == 1 ==> r[0] == s[0]
    requires forall k :: 0 <= k < |rest| ==> r[k + off] == rest[k]
    requires forall k :: 0 <= k < |rest| ==> rest[k] != s[0] && rest[k] in s[1..]
    requires InFirstOccurrenceOrder(rest, s[1..])
    requires i < j < |r| && r[i] in s && r[j] in s
    ensures IndexOf(s, r[i]) < IndexOf(s, r[j])
  {
    if i < off {
      assert r[j] == rest[j - off];
      HeadFirst(s, r[j]);
    } else {
      assert r[i] == rest[i - off] && r[j] == rest[j - off];
      TailPairOrder(s, rest, i - off, j - off);
    }
  }

  /** Two kept elements of the tail keep their tail order in the whole sequence. */
  lemma TailPairOrder<T>(s: seq<T>, rest: seq<T>, a: nat, b: nat)
    requires |s| > 0 && a < b < |rest|
    requires rest[a] != s[0] && rest[b] != s[0] && rest[a] in s[1..] && rest[b] in s[1..]
    requires InFirstOccurrenceOrder(rest, s[1..])
    ensures rest[a] in s && rest[b] in s
    ensures IndexOf(s, rest[a]) < IndexOf(s, rest[b])
  {
    assert IndexOf(s[1..], rest[a]) < IndexOf(s[1..], rest[b]);
    TailOrder(s, rest[a], rest[b]);
  }

  /** First-occurrence de-duplication, as `[...new Set(s)]` computes it. */
  function Distinct<T(==)>(s: seq<T>): (r: seq<T>)
    ensures NoDuplicates(r)
    ensures forall i :: 0 <= i < |r| ==> r[i] in s
    ensures forall i :: 0 <= i < |s| ==> s[i] in r
    ensures IsSubsequence(r, s)
    ensures InFirstOccurrenceOrder(r, s)
  {
    DistinctFromIsSubsequence(s, {});
    DistinctFromFirstOccurrenceOrder(s, {});
    DistinctFrom(s, {})
  }

  /** De-duplicating a duplicate-free sequence changes nothing. */
  lemma {:induction false} DistinctFromNoDuplicates<T>(s: seq<T>, seen: set<T>)
    requires NoDuplicates(s)
    requires forall i :: 0 <= i < |s| ==> s[i] !in seen
    ensures DistinctFrom(s, seen) == s
    decreases |s|
  {
    if |s| > 0 {
      assert s[0] !in s[1..];
      DistinctFromNoDuplicates(s[1..], seen + {s[0]});
    }
  }

  /** De-duplication never lengthens a sequence. */
  lemma {:induction false} DistinctFromNoLonger<T>(s: seq<T>, seen: set<T>)
    ensures |DistinctFrom(s, seen)| <= |s|
    decreases |s|
  {
    if |s| > 0 {
      DistinctFromNoLonger(s[1..], if s[0] in seen then seen else seen + {s[0]});
    }
  }

  lemma DistinctNoLonger<T>(s: seq<T>)
    ensures |Distinct(s)| <= |s|
  {
    DistinctFromNoLonger(s, {});
  }

  /** A subsequence of a duplicate-free sequence is duplicate-free. */
  lemma {:induction false} SubsequenceNoDuplicates<T>(a: seq<T>, b: seq<T>)
    requires IsSubsequence(a, b) && NoDuplicates(b)
    ensures NoDuplicates(a)
    decreases |b|
  {
    if |a| > 0 && |b| > 0 {
      assert NoDuplicates(b[1..]);
      if a[0] == b[0] && IsSubsequence(a[1..], b[1..]) {
        SubsequenceNoDuplicates(a[1..], b[1..]);
        forall j | 0 < j < |a| ensures a[0] != a[j] {
          SubsequenceMembers(a[1..], b[1..], j - 1);
          assert a[j] in b[1..];
        }
        assert forall i, j :: 0 < i < j < |a| ==> a[i] == a[1..][i - 1] && a[j] == a[1..][j - 1];
      } else {
        SubsequenceNoDuplicates(a, b[1..]);
      }
    }
  }

  /** Every element of a subsequence occurs in the sequence. */
  lemma {:induction false} SubsequenceMembers<T>(a: seq<T>, b: seq<T>, i: nat)
    requires IsSubsequence(a, b) && i < |a|
    ensures a[i] in b
    decreases |b|
  {
    if a[0] == b[0] && IsSubsequence(a[1..], b[1..]) {
      if i > 0 {
        SubsequenceMembers(a[1..], b[1..], i - 1);
      }
    } else {
      SubsequenceMembers(a, b[1..], i);
    }
  }
}
