/** Which elements of a sequence a filter keeps. */
module Selections {

  /** Indices below `n`, each once and in order. */
  predicate Picks(at: seq<nat>, n: nat)
  {
    && (forall j | 0 <= j < |at| :: at[j] < n)
    && (forall i, j | 0 <= i < j < |at| :: at[i] < at[j])
  }

  /** The picks with index `n` as well, if it is kept. */
  function PickLast(at: seq<nat>, n: nat, keep: bool): seq<nat>
  {
    if keep then at + [n] else at
  }

  lemma LastPicked(at: seq<nat>, n: nat, keep: bool)
    requires Picks(at, n)
    ensures Picks(PickLast(at, n, keep), n + 1)
    ensures forall i: nat | i <= n :: i in PickLast(at, n, keep) <==> if i == n then keep else i in at
  {
  }
}
