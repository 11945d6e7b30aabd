/**
 * The "first free name" loop shared by the sign-up paths: names `name(0)`,
 * `name(1)`, ... are tried in turn until one is not held.
 */
module NameSearch {

  /**
   * The index of the first name not in `names`.  Because different indexes
   * give different names, every refused name uses up a member of the finite
   * set `names`, so the loop ends.
   */
  method FirstFreeIndex(names: set<string>, name: nat -> string) returns (k: nat)
    requires forall i, j :: 0 <= i < j ==> name(i) != name(j)
    ensures name(k) !in names
    ensures forall j :: 0 <= j < k ==> name(j) in names
  {
    k := 0;
    ghost var remaining := names;
    while name(k) in names
      invariant forall j :: 0 <= j < k ==> name(j) in names
      invariant forall x :: x in remaining <==> x in names && forall j :: 0 <= j < k ==> x != name(j)
      decreases |remaining|
    {
      assert name(k) in remaining;
      remaining := remaining - {name(k)};
      k := k + 1;
    }
  }

  /** The conditions the loop stops on pin its index down. */
  lemma FirstFreeIndexUnique(names: set<string>, name: nat -> string, k1: nat, k2: nat)
    requires name(k1) !in names && forall j :: 0 <= j < k1 ==> name(j) in names
    requires name(k2) !in names && forall j :: 0 <= j < k2 ==> name(j) in names
    ensures k1 == k2
  {
  }
}
