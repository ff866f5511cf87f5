/** What several components share. */
module Basics {
  datatype Option<+T> = None | Some(value: T)

  /** Moments and durations, in seconds. */
  type Time = real

  /** `duration_since`, which saturates at zero. */
  function Elapsed(now: Time, last: Time): (d: real)
    ensures d >= 0.0
  {
    if now >= last then now - last else 0.0
  }

  /** Positions in ascending order, each once. */
  predicate Increasing(idx: seq<nat>) {
    forall i, j :: 0 <= i < j < |idx| ==> idx[i] < idx[j]
  }

  lemma IncreasingOn(idx: seq<nat>, n: nat)
    requires Increasing(idx) && forall i :: i in idx ==> i < n
    ensures Increasing(idx + [n]) && forall i :: i in idx + [n] <==> i in idx || i == n
  {
    assert forall i :: 0 <= i < |idx| ==> idx[i] in idx;
  }
}
