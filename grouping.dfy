/**
 * The `$group ... { $sum: ... }` stage of an aggregation: documents grouped
 * by a key, one group per distinct key in order of first occurrence, each
 * with the sum of an amount over its documents.
 */
module Grouping {

  /** The sum of `amount` over `xs`. */
  function SumAll<T>(xs: seq<T>, amount: T -> real): real
    decreases |xs|
  {
    if xs == [] then 0.0 else SumAll(xs[..|xs| - 1], amount) + amount(xs[|xs| - 1])
  }

  /** The sum of `amount` over the elements of `xs` whose key is `k`. */
  function SumBy<T, K(==)>(xs: seq<T>, key: T -> K, amount: T -> real, k: K): real
    decreases |xs|
  {
    if xs == [] then 0.0
    else SumBy(xs[..|xs| - 1], key, amount, k) + (if key(xs[|xs| - 1]) == k then amount(xs[|xs| - 1]) else 0.0)
  }

  predicate Distinct<K(==)>(ks: seq<K>) {
    forall i, j :: 0 <= i < j < |ks| ==> ks[i] != ks[j]
  }

  /** The distinct keys of `xs`, in order of first occurrence. */
  function KeysOf<T, K(==)>(xs: seq<T>, key: T -> K): (ks: seq<K>)
    ensures Distinct(ks)
    ensures forall i :: 0 <= i < |xs| ==> key(xs[i]) in ks
    ensures forall j :: 0 <= j < |ks| ==> exists i :: 0 <= i < |xs| && key(xs[i]) == ks[j]
    decreases |xs|
  {
    if xs == [] then []
    else
      var prefix := xs[..|xs| - 1];
      var ks := KeysOf(prefix, key);
      assert forall i :: 0 <= i < |prefix| ==> prefix[i] == xs[i];
      if key(xs[|xs| - 1]) in ks then ks else ks + [key(xs[|xs| - 1])]
  }

  /** The groups for the keys `ks`: each key with the sum of its documents' amounts. */
  function Groups<T, K(==)>(ks: seq<K>, xs: seq<T>, key: T -> K, amount: T -> real): (g: seq<(K, real)>)
    ensures |g| == |ks|
    ensures forall i :: 0 <= i < |ks| ==> g[i] == (ks[i], SumBy(xs, key, amount, ks[i]))
    decreases |ks|
  {
    if ks == [] then [] else Groups(ks[..|ks| - 1], xs, key, amount) + [(ks[|ks| - 1], SumBy(xs, key, amount, ks[|ks| - 1]))]
  }

  /** The sum of the groups' totals. */
  function SumValues<K>(g: seq<(K, real)>): real
    decreases |g|
  {
    if g == [] then 0.0 else SumValues(g[..|g| - 1]) + g[|g| - 1].1
  }

  /** The `$group` stage itself. */
  function GroupBy<T, K(==)>(xs: seq<T>, key: T -> K, amount: T -> real): seq<(K, real)> {
    Groups(KeysOf(xs, key), xs, key, amount)
  }

  /** Every document's key has a group. */
  lemma GroupByCovers<T, K>(xs: seq<T>, key: T -> K, amount: T -> real, i: nat)
    requires i < |xs|
    ensures var g := GroupBy(xs, key, amount); exists j :: 0 <= j < |g| && g[j].0 == key(xs[i])
  {
    var ks := KeysOf(xs, key);
    var j :| 0 <= j < |ks| && ks[j] == key(xs[i]);
    assert GroupBy(xs, key, amount)[j].0 == ks[j];
  }

  /** No document has a key that does not occur. */
  lemma {:induction false} SumByAbsent<T, K>(xs: seq<T>, key: T -> K, amount: T -> real, k: K)
    requires forall i :: 0 <= i < |xs| ==> key(xs[i]) != k
    ensures SumBy(xs, key, amount, k) == 0.0
    decreases |xs|
  {
    if xs != [] {
      SumByAbsent(xs[..|xs| - 1], key, amount, k);
    }
  }

  lemma {:induction false} GroupsOfNothing<T, K>(ks: seq<K>, key: T -> K, amount: T -> real)
    ensures SumValues(Groups(ks, [], key, amount)) == 0.0
    decreases |ks|
  {
    if ks != [] {
      GroupsOfNothing(ks[..|ks| - 1], key, amount);
    }
  }

  /** One more document adds its amount to the one group that has its key, if any. */
  lemma {:induction false} GroupsAppend<T, K>(ks: seq<K>, xs: seq<T>, x: T, key: T -> K, amount: T -> real)
    requires Distinct(ks)
    ensures SumValues(Groups(ks, xs + [x], key, amount))
         == SumValues(Groups(ks, xs, key, amount)) + (if key(x) in ks then amount(x) else 0.0)
    decreases |ks|
  {
    if ks != [] {
      var init := ks[..|ks| - 1];
      var k := ks[|ks| - 1];
      assert ks == init + [k];
      assert Distinct(init);
      GroupsAppend(init, xs, x, key, amount);
      GroupsLast(ks, xs, key, amount);
      GroupsLast(ks, xs + [x], key, amount);
      SumByAppend(xs, x, key, amount, k);
      assert key(x) in ks <==> key(x) in init || key(x) == k;
      assert key(x) in init ==> key(x) != k;
    }
  }

  /** The last group's total comes last. */
  lemma GroupsLast<T, K>(ks: seq<K>, xs: seq<T>, key: T -> K, amount: T -> real)
    requires ks != []
    ensures SumValues(Groups(ks, xs, key, amount))
         == SumValues(Groups(ks[..|ks| - 1], xs, key, amount)) + SumBy(xs, key, amount, ks[|ks| - 1])
  {
    var g := Groups(ks, xs, key, amount);
    assert g[..|g| - 1] == Groups(ks[..|ks| - 1], xs, key, amount);
  }

  /** One more document adds its amount to its key's sum. */
  lemma SumByAppend<T, K>(xs: seq<T>, x: T, key: T -> K, amount: T -> real, k: K)
    ensures SumBy(xs + [x], key, amount, k) == SumBy(xs, key, amount, k) + (if key(x) == k then amount(x) else 0.0)
  {
    assert (xs + [x])[..|xs + [x]| - 1] == xs;
  }

  /**
   * Regrouping keeps the grand total: over distinct keys covering every
   * document, the group totals add up to the sum over all documents.
   */
  lemma {:induction false} Regroup<T, K>(ks: seq<K>, xs: seq<T>, key: T -> K, amount: T -> real)
    requires Distinct(ks)
    requires forall i :: 0 <= i < |xs| ==> key(xs[i]) in ks
    ensures SumValues(Groups(ks, xs, key, amount)) == SumAll(xs, amount)
    decreases |xs|
  {
    if xs == [] {
      GroupsOfNothing(ks, key, amount);
    } else {
      var init := xs[..|xs| - 1];
      var x := xs[|xs| - 1];
      assert xs == init + [x];
      assert forall i :: 0 <= i < |init| ==> init[i] == xs[i];
      Regroup(ks, init, key, amount);
      GroupsAppend(ks, init, x, key, amount);
    }
  }

  /** The groups of `$group` add up to the sum over all documents. */
  lemma GroupByKeepsTotal<T, K>(xs: seq<T>, key: T -> K, amount: T -> real)
    ensures SumValues(GroupBy(xs, key, amount)) == SumAll(xs, amount)
  {
    var ks := KeysOf(xs, key);
    Regroup(ks, xs, key, amount);
  }

  /** The elements of `xs` whose key is `k`, in order (`$match`). */
  function Matching<T, K(==)>(xs: seq<T>, key: T -> K, k: K): (r: seq<T>)
    ensures forall i :: 0 <= i < |r| ==> key(r[i]) == k && r[i] in xs
    ensures forall i :: 0 <= i < |xs| && key(xs[i]) == k ==> xs[i] in r
    decreases |xs|
  {
    if xs == [] then []
    else Matching(xs[..|xs| - 1], key, k) + (if key(xs[|xs| - 1]) == k then [xs[|xs| - 1]] else [])
  }

  /** Summing the matching documents is summing by their key. */
  lemma {:induction false} SumAllMatching<T, K>(xs: seq<T>, key: T -> K, amount: T -> real, k: K)
    ensures SumAll(Matching(xs, key, k), amount) == SumBy(xs, key, amount, k)
    decreases |xs|
  {
    if xs != [] {
      var init := xs[..|xs| - 1];
      var x := xs[|xs| - 1];
      SumAllMatching(init, key, amount, k);
      var f := Matching(init, key, k);
      if key(x) == k {
        assert (f + [x])[..|f + [x]| - 1] == f;
      } else {
        assert f + [] == f;
      }
    }
  }

  /** The total of the last group with key `k`, or 0 when there is none. */
  function LastValue<K(==)>(g: seq<(K, real)>, k: K): real
    decreases |g|
  {
    if g == [] then 0.0 else if g[|g| - 1].0 == k then g[|g| - 1].1 else LastValue(g[..|g| - 1], k)
  }

  /** Among distinct keys, the group with key `k` holds the sum for `k`. */
  lemma {:induction false} LastValueOfGroups<T, K>(ks: seq<K>, xs: seq<T>, key: T -> K, amount: T -> real, k: K)
    requires Distinct(ks)
    ensures LastValue(Groups(ks, xs, key, amount), k) == if k in ks then SumBy(xs, key, amount, k) else 0.0
    decreases |ks|
  {
    if ks != [] {
      var init := ks[..|ks| - 1];
      assert ks == init + [ks[|ks| - 1]];
      assert Groups(ks, xs, key, amount)[..|ks| - 1] == Groups(init, xs, key, amount);
      LastValueOfGroups(init, xs, key, amount, k);
    }
  }
}
