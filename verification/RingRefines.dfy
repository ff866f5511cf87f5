/**
 The atomic steps against the queue they stand for: what each operation does when nobody interrupts
 it is what the methods of `RingBuffer` do, and what it decides when others do is decided by the
 samples waiting at the moment it looks.
 */
module RingRefines {
  import opened Arith
  import opened RingSteps
  import RingBuffer

  /** The samples pushed and not yet popped or dropped, oldest first. */
  function Waiting(s: State): (q: seq<Sample>)
    requires |s.fates| <= |s.pushed|
  {
    s.pushed[|s.fates|..]
  }

  /** A state between operations of the producer, with consumers where they were. */
  ghost predicate Rests(s: State, s': State) {
    Inv(s') && s'.producer.Ready? && s'.consumers == s.consumers && s'.capacity == s.capacity
  }

  lemma TwoSteps(s: State, a: Action, b: Action)
    requires Shaped(s) && Enabled(s, a) && Enabled(Step(s, a), b)
    ensures Legal(s, [a, b]) && Final(s, [a, b]) == Step(Step(s, a), b)
  {
    hide Enabled, Step;
    One(s, a);
    One(Step(s, a), b);
    LegalConcat(s, [a], [b]);
    assert [a] + [b] == [a, b];
  }

  // ---------------------------------------------------------------- uninterrupted operations

  /** A whole `push`: appends to the waiting samples, or leaves them alone, the latter exactly when the
      ring is full. */
  lemma PushAlone(s: State, x: Sample) returns (acts: seq<Action>)
    requires Inv(s) && s.producer.Ready?
    ensures acts != [] && acts[0] == PushStart(x) && Legal(s, acts) && Rests(s, Final(s, acts))
    ensures Final(s, acts).fates == s.fates
    ensures Waiting(Final(s, acts)) == if |Waiting(s)| < s.capacity then Waiting(s) + [x] else Waiting(s)
  {
    hide Wrap, WrapSub, Slot;
    var s1 := Step(s, PushStart(x));
    LengthOfCounters(s);
    PushPreserves(s, PushStart(x));
    PushPreserves(s1, PushLoadTail);
    var s2 := Step(s1, PushLoadTail);
    if |Waiting(s)| < s.capacity {
      PushPreserves(s2, PushStoreSlot);
      var s3 := Step(s2, PushStoreSlot);
      PushPreserves(s3, PushStoreHead);
      acts := [PushStart(x), PushLoadTail, PushStoreSlot, PushStoreHead];
      hide Inv;
      Four(s, acts);
    } else {
      acts := [PushStart(x), PushLoadTail];
      hide Inv;
      TwoSteps(s, PushStart(x), PushLoadTail);
    }
  }

  /** A whole `pop`: takes the oldest waiting sample, or nothing exactly when there is none. */
  lemma PopAlone(s: State, c: nat) returns (acts: seq<Action>)
    requires Inv(s) && c in s.consumers && s.consumers[c].Idle?
    ensures acts != [] && acts[0] == PopLoadTail(c) && Legal(s, acts)
    ensures var s' := Final(s, acts);
      && Inv(s') && s'.consumers == s.consumers && s'.producer == s.producer && s'.pushed == s.pushed
      && s'.fates == s.fates + (if Waiting(s) == [] then [] else [Delivered(c, Waiting(s)[0])])
      && Waiting(s') == (if Waiting(s) == [] then [] else Waiting(s)[1..])
  {
    hide Wrap, WrapSub, Slot;
    var s1 := Step(s, PopLoadTail(c));
    PopPreserves(s, PopLoadTail(c));
    PopPreserves(s1, PopLoadHead(c));
    var s2 := Step(s1, PopLoadHead(c));
    EmptyExactly(s);
    if Waiting(s) == [] {
      acts := [PopLoadTail(c), PopLoadHead(c)];
      assert s2.consumers == s.consumers;
      hide Inv;
      TwoSteps(s, PopLoadTail(c), PopLoadHead(c));
    } else {
      PopPreserves(s2, PopReadSlot(c));
      var s3 := Step(s2, PopReadSlot(c));
      PopPreserves(s3, PopCas(c));
      var s4 := Step(s3, PopCas(c));
      assert GoodConsumer(s3, s3.consumers[c]);
      assert s4.consumers == s.consumers;
      acts := [PopLoadTail(c), PopLoadHead(c), PopReadSlot(c), PopCas(c)];
      hide Inv;
      Four(s, acts);
    }
  }

  lemma EmptyExactly(s: State)
    requires Counters(s)
    ensures s.tail == s.head <==> |s.fates| == |s.pushed|
  {
    if s.tail == s.head {
      WrapEqual(|s.fates|, |s.pushed|);
    }
  }

  /** A whole `cap_latency`: nothing, exactly when at most `max` samples wait; otherwise the newest
      `target` of them remain. */
  lemma CapAlone(s: State, max: nat, target: nat) returns (acts: seq<Action>)
    requires Inv(s) && s.producer.Ready?
    ensures acts != [] && acts[0] == CapStart(max, target) && Legal(s, acts) && Rests(s, Final(s, acts))
    ensures Final(s, acts).pushed == s.pushed
    ensures Waiting(Final(s, acts)) == RingBuffer.Capped(Waiting(s), max, target)
  {
    hide Wrap, WrapSub, Slot;
    var s1 := Step(s, CapStart(max, target));
    LengthOfCounters(s);
    CapPreserves(s, CapStart(max, target));
    CapPreserves(s1, CapLoadLen);
    var s2 := Step(s1, CapLoadLen);
    if |Waiting(s)| <= max {
      acts := [CapStart(max, target), CapLoadLen];
      hide Inv;
      TwoSteps(s, CapStart(max, target), CapLoadLen);
    } else {
      CapPreserves(s2, CapLoadTail);
      var s3 := Step(s2, CapLoadTail);
      CapPreserves(s3, CapCas);
      acts := [CapStart(max, target), CapLoadLen, CapLoadTail, CapCas];
      hide Inv;
      Four(s, acts);
    }
  }

  // ---------------------------------------------------------------- decisions under interleaving

  /** Under every interleaving, a push is refused exactly when the ring is full at its load of the
      tail, and a refusal changes nothing. */
  lemma PushRefusedExactly(run: seq<State>, acts: seq<Action>, n: nat)
    requires IsRun(run, acts) && Disciplined(run, acts) && n < |acts| && acts[n].PushLoadTail?
    ensures |run[n].fates| <= |run[n].pushed|
    ensures run[n + 1].producer.Ready? <==> |Waiting(run[n])| == run[n].capacity
    ensures run[n + 1] == run[n].(producer := run[n + 1].producer)
  {
    RunInvariant(run, acts, n);
    LengthOfCounters(run[n]);
    assert run[n + 1] == Step(run[n], acts[n]);
    hide Wrap, WrapSub, Slot;
  }

  /** Under every interleaving, `cap_latency` goes on to drop anything exactly when more than `max`
      samples wait at its measurement, and then so many that `target` would remain. */
  lemma CapStrikesExactly(run: seq<State>, acts: seq<Action>, n: nat)
    requires IsRun(run, acts) && Disciplined(run, acts) && n < |acts| && acts[n].CapLoadLen?
    ensures |run[n].fates| <= |run[n].pushed| && run[n].producer.CapHaveHead?
    ensures run[n + 1] == run[n].(producer := run[n + 1].producer)
    ensures var len, p, p' := |Waiting(run[n])|, run[n].producer, run[n + 1].producer;
      if len <= p.max then p'.Ready?
      else p'.CapHaveDrop? && p'.target == p.target && p'.drop == if len > p.target then len - p.target else 0
  {
    RunInvariant(run, acts, n);
    LengthOfCounters(run[n]);
    assert run[n + 1] == Step(run[n], acts[n]);
    hide Wrap, WrapSub, Slot;
  }

  /** Under every interleaving, what `cap_latency` finally drops is the oldest `drop` waiting samples. */
  lemma CapDropsOldest(run: seq<State>, acts: seq<Action>, n: nat)
    requires IsRun(run, acts) && Disciplined(run, acts) && n < |acts| && acts[n].CapCas?
    ensures |run[n].fates| <= |run[n].pushed| && run[n].producer.CapHaveTail?
    ensures var drop := run[n].producer.drop;
      && drop <= |Waiting(run[n])| && |run[n + 1].fates| <= |run[n + 1].pushed|
      && Waiting(run[n + 1]) == Waiting(run[n])[drop..] && run[n + 1].pushed == run[n].pushed
  {
    RunInvariant(run, acts, n);
    RunInvariant(run, acts, n + 1);
    assert run[n + 1] == Step(run[n], acts[n]);
    hide Wrap, WrapSub, Slot;
  }
}
