/**
 * Python dictionaries built from a sequence of key/value pairs, as `dict(pairs)` and
 * `{a: b for a, b in pairs}` build them: when a key repeats, the later pair overwrites.
 */
module Dicts {

  function FromPairs<K, V>(pairs: seq<(K, V)>): (m: map<K, V>)
    ensures m.Keys == set p | p in pairs :: p.0
    ensures forall k :: k in m ==> (k, m[k]) in pairs
    decreases |pairs|
  {
    if |pairs| == 0 then map[]
    else
      var last := pairs[|pairs| - 1];
      FromPairs(pairs[..|pairs| - 1])[last.0 := last.1]
  }

  /** The pairs with their two columns exchanged: `zip(b, a)` for `zip(a, b)`. */
  function Swapped<A, B>(pairs: seq<(A, B)>): seq<(B, A)>
  {
    seq(|pairs|, k requires 0 <= k < |pairs| => (pairs[k].1, pairs[k].0))
  }

  /** No key occurs in two pairs. */
  ghost predicate DistinctKeys<K, V>(pairs: seq<(K, V)>)
  {
    forall i, j :: 0 <= i < j < |pairs| ==> pairs[i].0 != pairs[j].0
  }

  /** A key maps to the value of the last pair that carries it. */
  lemma {:induction false} FromPairsLastWins<K, V>(pairs: seq<(K, V)>, j: nat)
    requires j < |pairs|
    requires forall i :: j < i < |pairs| ==> pairs[i].0 != pairs[j].0
    ensures pairs[j].0 in FromPairs(pairs) && FromPairs(pairs)[pairs[j].0] == pairs[j].1
    decreases |pairs|
  {
    if j < |pairs| - 1 {
      var front := pairs[..|pairs| - 1];
      assert front[j] == pairs[j];
      FromPairsLastWins(front, j);
    }
  }
}
