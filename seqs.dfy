/** A keyed index over a sequence, as JavaScript code builds one with `forEach` into an object. */
module Seqs {

  /** The map from key to value that assigning `m[key(x)] = val(x)` for each `x` of `xs` in order leaves behind. */
  function IndexBy<T, K(==), V>(xs: seq<T>, key: T -> K, val: T -> V): map<K, V>
  {
    if xs == [] then map[]
    else IndexBy(xs[..|xs| - 1], key, val)[key(xs[|xs| - 1]) := val(xs[|xs| - 1])]
  }

  /** `j` is the last position of `xs` whose key is `k`. */
  ghost predicate IsLastWithKey<T, K>(xs: seq<T>, key: T -> K, k: K, j: int)
  {
    0 <= j < |xs| && key(xs[j]) == k && forall i :: j < i < |xs| ==> key(xs[i]) != k
  }

  /** A key is in the index exactly when some element has it, and then it maps to the last such element's value. */
  lemma {:induction false} IndexByLastWins<T, K, V>(xs: seq<T>, key: T -> K, val: T -> V, k: K)
    ensures k in IndexBy(xs, key, val) <==> exists i :: 0 <= i < |xs| && key(xs[i]) == k
    ensures k in IndexBy(xs, key, val) ==>
      exists j :: IsLastWithKey(xs, key, k, j) && IndexBy(xs, key, val)[k] == val(xs[j])
  {
    if xs != [] {
      var n := |xs| - 1;
      var front := xs[..n];
      IndexByLastWins(front, key, val, k);
      assert forall i :: 0 <= i < n ==> front[i] == xs[i];
      if key(xs[n]) == k {
        assert IsLastWithKey(xs, key, k, n);
      } else if k in IndexBy(front, key, val) {
        var j :| IsLastWithKey(front, key, k, j) && IndexBy(front, key, val)[k] == val(front[j]);
        assert IsLastWithKey(xs, key, k, j);
      }
    }
  }
}
