/** Folding commuting steps over a set: the result does not depend on the order they are taken in. */
module AnyOrder {

  /** Any two distinct keys may be taken in either order, from every state. */
  ghost predicate Commutes<S(!new), K(!new)>(step: (S, K) -> S, keys: set<K>) {
    forall s, x, y :: x in keys && y in keys && x != y ==> step(step(s, x), y) == step(step(s, y), x)
  }

  ghost function FoldSet<S, K>(step: (S, K) -> S, s: S, keys: set<K>): S
    decreases |keys|
  {
    if keys == {} then s
    else
      var last :| last in keys;
      step(FoldSet(step, s, keys - {last}), last)
  }

  lemma FoldNothing<S, K>(step: (S, K) -> S, s: S)
    ensures FoldSet(step, s, {}) == s
  {
  }

  function FoldSeq<S, K>(step: (S, K) -> S, s: S, order: seq<K>): S {
    if order == [] then s else step(FoldSeq(step, s, order[..|order| - 1]), order[|order| - 1])
  }

  /** Whichever key is taken last, the outcome is the same. */
  lemma {:induction false} AnyKeyMayBeLast<S(!new), K(!new)>(step: (S, K) -> S, s: S, keys: set<K>, last: K)
    requires Commutes(step, keys) && last in keys
    ensures FoldSet(step, s, keys) == step(FoldSet(step, s, keys - {last}), last)
    decreases |keys|
  {
    var other :| other in keys && FoldSet(step, s, keys) == step(FoldSet(step, s, keys - {other}), other);
    if other != last {
      var rest := keys - {other} - {last};
      AnyKeyMayBeLast(step, s, keys - {other}, last);
      assert keys - {last} - {other} == rest;
      AnyKeyMayBeLast(step, s, keys - {last}, other);
    }
  }

  /** Every order of the keys gives the same outcome. */
  lemma {:induction false} EveryOrderIsTheSame<S(!new), K(!new)>(step: (S, K) -> S, s: S, order: seq<K>, keys: set<K>)
    requires Commutes(step, keys) && forall k :: k in keys <==> k in order
    requires forall i, j :: 0 <= i < j < |order| ==> order[i] != order[j]
    ensures FoldSeq(step, s, order) == FoldSet(step, s, keys)
    decreases |order|
  {
    if order == [] {
      assert keys == {};
    } else {
      var front, last := order[..|order| - 1], order[|order| - 1];
      assert order == front + [last];
      assert last !in front;
      EveryOrderIsTheSame(step, s, front, keys - {last});
      AnyKeyMayBeLast(step, s, keys, last);
    }
  }
}
