/** Facts about sequences. */
module Sequences {
  lemma {:induction false} Associative<T>(a: seq<T>, b: seq<T>, c: seq<T>)
    ensures a + (b + c) == a + b + c
  {
  }

  /** `ix` are the places of `true` among the first `n`, in order. */
  ghost predicate Places(flags: seq<bool>, n: nat, ix: seq<nat>)
    requires n <= |flags|
  {
    && (forall i, j :: 0 <= i < j < |ix| ==> ix[i] < ix[j])
    && forall k: nat :: k in ix <==> k < n && flags[k]
  }

  lemma {:induction false} PlacesNext(flags: seq<bool>, n: nat, ix: seq<nat>)
    requires n < |flags| && Places(flags, n, ix)
    ensures Places(flags, n + 1, if flags[n] then ix + [n] else ix)
  {
    forall i | 0 <= i < |ix|
      ensures ix[i] < n
    {
      assert ix[i] in ix;
    }
  }
}
