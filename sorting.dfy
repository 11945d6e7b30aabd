/**
 * The `sort({ field: 1 })` and `sort({ field: -1 })` stages of the list
 * queries: documents ordered by one date field, ascending or descending.
 */
module Sorting {
  import opened Calendar

  /** `a` may come before `b` in the requested direction. */
  predicate InOrder(a: DateTime, b: DateTime, descending: bool) {
    if descending then AtOrBefore(b, a) else AtOrBefore(a, b)
  }

  predicate SortedBy<T>(s: seq<T>, key: T -> DateTime, descending: bool) {
    forall i, j :: 0 <= i < j < |s| ==> InOrder(key(s[i]), key(s[j]), descending)
  }

  /** Inserts `x` into a sorted sequence before the first element it may precede. */
  function Insert<T>(x: T, s: seq<T>, key: T -> DateTime, descending: bool): (r: seq<T>)
    requires SortedBy(s, key, descending)
    ensures SortedBy(r, key, descending)
    ensures multiset(r) == multiset(s) + multiset{x}
    ensures |r| == |s| + 1
    decreases |s|
  {
    if s == [] then [x]
    else if InOrder(key(x), key(s[0]), descending) then
      InsertInFront(x, s, key, descending);
      [x] + s
    else
      var rest := Insert(x, s[1..], key, descending);
      InsertBehind(x, s, rest, key, descending);
      assert s == [s[0]] + s[1..];
      [s[0]] + rest
  }

  lemma InsertInFront<T>(x: T, s: seq<T>, key: T -> DateTime, descending: bool)
    requires SortedBy(s, key, descending) && s != []
    requires InOrder(key(x), key(s[0]), descending)
    ensures SortedBy([x] + s, key, descending)
  {
    forall j | 0 < j < |s| ensures InOrder(key(x), key(s[j]), descending) {
      assert InOrder(key(s[0]), key(s[j]), descending);
    }
  }

  /** `s[0]` may precede `x` and every other element of `s`, so it heads the insertion into the rest. */
  lemma InsertBehind<T>(x: T, s: seq<T>, rest: seq<T>, key: T -> DateTime, descending: bool)
    requires SortedBy(s, key, descending) && s != []
    requires !InOrder(key(x), key(s[0]), descending)
    requires SortedBy(rest, key, descending) && multiset(rest) == multiset(s[1..]) + multiset{x}
    ensures SortedBy([s[0]] + rest, key, descending)
  {
    AtOrBeforeTotalOrder(key(x), key(s[0]), key(x));
    forall j | 0 <= j < |rest| ensures InOrder(key(s[0]), key(rest[j]), descending) {
      assert rest[j] in multiset(rest);
      if rest[j] != x {
        assert rest[j] in multiset(s[1..]);
        var k :| 0 <= k < |s[1..]| && s[1..][k] == rest[j];
        assert s[k + 1] == rest[j];
      }
    }
  }

  /** Insertion sort: a sorted permutation of `s`. */
  function SortBy<T>(s: seq<T>, key: T -> DateTime, descending: bool): (r: seq<T>)
    ensures SortedBy(r, key, descending)
    ensures multiset(r) == multiset(s)
    ensures |r| == |s|
    decreases |s|
  {
    if s == [] then []
    else
      assert s == s[..|s| - 1] + [s[|s| - 1]];
      Insert(s[|s| - 1], SortBy(s[..|s| - 1], key, descending), key, descending)
  }

  /** A sort keeps exactly the elements it was given. */
  lemma SortByKeepsElements<T>(s: seq<T>, key: T -> DateTime, descending: bool, x: T)
    ensures x in SortBy(s, key, descending) <==> x in s
  {
    var r := SortBy(s, key, descending);
    assert x in r <==> x in multiset(r);
    assert x in s <==> x in multiset(s);
  }

  /** No two entries of a listing share their first component, the id. */
  ghost predicate FirstsDistinct<K, T>(s: seq<(K, T)>) {
    forall i, j :: 0 <= i < j < |s| ==> s[i].0 != s[j].0
  }

  /** A permutation of a listing without repeated ids has no repeated ids. */
  lemma PermutationKeepsFirstsDistinct<K, T>(s: seq<(K, T)>, r: seq<(K, T)>)
    requires FirstsDistinct(s) && multiset(r) == multiset(s)
    ensures FirstsDistinct(r)
  {
    forall i, j | 0 <= i < j < |r| ensures r[i].0 != r[j].0 {
      if r[i].0 == r[j].0 {
        assert r[i] in multiset(s) && r[j] in multiset(s);
        var a :| 0 <= a < |s| && s[a] == r[i];
        var b :| 0 <= b < |s| && s[b] == r[j];
        if a == b {
          MultisetTwice(r, i, j);
          DistinctOnce(s, s[a]);
        }
      }
    }
  }

  lemma MultisetTwice<T>(s: seq<T>, i: nat, j: nat)
    requires i < j < |s| && s[i] == s[j]
    ensures multiset(s)[s[i]] >= 2
  {
    assert s == s[..j] + s[j..];
    assert s[i] in s[..j];
    assert s[j..][0] == s[j];
    assert multiset(s) == multiset(s[..j]) + multiset(s[j..]);
  }

  /** An element of a sequence without repetitions occurs once. */
  lemma {:induction false} DistinctOnce<T>(s: seq<T>, x: T)
    requires forall i, j :: 0 <= i < j < |s| ==> s[i] != s[j]
    ensures multiset(s)[x] <= 1
  {
    if s != [] {
      assert s == [s[0]] + s[1..];
      DistinctOnce(s[1..], x);
      if x == s[0] {
        assert x !in s[1..];
      }
    }
  }
}
