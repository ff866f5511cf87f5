/**
 `AudioRingBuffer` as the object one thread at a time sees: its methods against the queue of
 samples it holds. The interleaved behaviour is in RingSteps.
 */
module RingBuffer {
  import opened Arith
  import opened RingSteps

  const TOP := 0x8000_0000_0000_0000

  lemma TopIsPow2()
    ensures Pow2(63) == TOP
  {
    WordIsPow2();
    assert Pow2(64) == 2 * Pow2(63);
  }

  /** `requested.next_power_of_two().max(1024)`. Above 2^63 the rounding wraps to zero, as unchecked
      arithmetic does, and the minimum remains. */
  method Capacity(requested: nat) returns (capacity: nat)
    requires requested < WORD
    ensures exists k: nat :: k < 64 && capacity == Pow2(k)
    ensures capacity >= 1024 && (capacity == 1024 || capacity < 2 * requested)
    ensures capacity >= requested <==> requested <= TOP
  {
    TopIsPow2();
    assert Pow2(10) == 1024;
    capacity := 1024;
    if requested > TOP {
      return;
    }
    ghost var k: nat := 10;
    while capacity < requested
      invariant k < 64 && capacity == Pow2(k) && capacity >= 1024
      invariant capacity == 1024 || capacity < 2 * requested
      decreases requested - capacity
    {
      if k == 63 { assert false; }
      capacity, k := 2 * capacity, k + 1;
    }
  }

  function Accepted(queue: seq<Sample>, samples: seq<Sample>, capacity: nat): (r: seq<Sample>)
    requires |queue| <= capacity
    ensures |r| <= capacity && queue <= r
  {
    var room := capacity - |queue|;
    queue + if |samples| <= room then samples else samples[..room]
  }

  lemma AcceptedNothing(queue: seq<Sample>, capacity: nat)
    requires |queue| <= capacity
    ensures Accepted(queue, [], capacity) == queue
  {
  }

  lemma AcceptedOneMore(queue: seq<Sample>, samples: seq<Sample>, x: Sample, capacity: nat)
    requires |queue| <= capacity
    ensures var q := Accepted(queue, samples, capacity);
      Accepted(queue, samples + [x], capacity) == if |q| < capacity then q + [x] else q
  {
    if |samples| < capacity - |queue| {
      assert queue + (samples + [x]) == (queue + samples) + [x];
    } else {
      assert (samples + [x])[..capacity - |queue|] == samples[..capacity - |queue|];
    }
  }

  /** The queue after the latency cap: the newest `target` samples once there are more than `max`. */
  function Capped(queue: seq<Sample>, max: nat, target: nat): (r: seq<Sample>)
    ensures |queue| <= max || |queue| < target ==> r == queue
    ensures |queue| > max && |queue| >= target ==> |r| == target && r == queue[|queue| - target..]
  {
    if |queue| > max then queue[SaturatingSub(|queue|, target)..] else queue
  }

  class AudioRingBuffer {
    const capacity: nat
    const buffer: array<Sample>
    var head: nat
    var tail: nat
    ghost var history: seq<Sample>
    ghost var at: nat

    ghost predicate Valid()
      reads this, buffer
    {
      && 0 < capacity == buffer.Length && capacity < WORD && PowerOfTwo(capacity)
      && at <= |history| <= at + capacity
      && tail == Wrap(at) && head == Wrap(|history|)
      && forall i :: at <= i < |history| ==> buffer[Slot(i, capacity)] == history[i]
    }

    /** The samples waiting to be popped, oldest first. */
    ghost function Queue(): (q: seq<Sample>)
      requires Valid()
      reads this, buffer
      ensures |q| <= capacity
    {
      history[at..]
    }

    constructor (requested: nat)
      requires requested < WORD
      ensures Valid() && fresh(buffer) && Queue() == []
      ensures capacity >= 1024 && (capacity == 1024 || capacity < 2 * requested)
      ensures capacity >= requested <==> requested <= TOP
    {
      var c := Capacity(requested);
      ghost var k: nat :| k < 64 && c == Pow2(k);
      BelowWord(k);
      capacity := c;
      buffer := new Sample[c](i => 0.0);
      head, tail, history, at := 0, 0, [], 0;
    }

    method Len() returns (n: nat)
      requires Valid()
      ensures n == |Queue()|
    {
      n := WrapSub(head, tail);
      WrappedDistance(at, |history|, WORD);
    }

    method Push(sample: Sample) returns (ok: bool)
      requires Valid()
      modifies this, buffer
      ensures Valid() && ok == (|old(Queue())| < capacity)
      ensures Queue() == if ok then old(Queue()) + [sample] else old(Queue())
    {
      hide Wrap, WrapSub, Slot;
      var len := Len();
      if len >= capacity {
        return false;
      }
      SlotOfWrapped(|history|, capacity);
      forall i | at <= i < |history| ensures Slot(i, capacity) != Slot(head, capacity) {
        SlotsDiffer(i, |history|, capacity);
      }
      buffer[Slot(head, capacity)] := sample;
      WrapSucc(|history|, 1);
      head := Wrap(head + 1);
      history := history + [sample];
      ok := true;
    }

    method Pop() returns (r: Popped)
      requires Valid()
      modifies this
      ensures Valid()
      ensures r == if old(Queue()) == [] then Empty else Got(old(Queue())[0])
      ensures Queue() == if old(Queue()) == [] then [] else old(Queue())[1..]
    {
      hide Wrap, WrapSub, Slot;
      if tail == head {
        WrapEqual(at, |history|);
        return Empty;
      }
      SlotOfWrapped(at, capacity);
      var bits := buffer[Slot(tail, capacity)];
      WrapSucc(at, 1);
      tail := Wrap(tail + 1);
      at := at + 1;
      r := Got(bits);
    }

    method Clear()
      requires Valid()
      modifies this
      ensures Valid() && Queue() == []
    {
      tail := head;
      at := |history|;
    }

    method CapLatency(max: nat, target: nat)
      requires Valid()
      modifies this
      ensures Valid() && Queue() == Capped(old(Queue()), max, target)
    {
      hide Wrap, WrapSub, Slot;
      var len := Len();
      if len > max {
        var drop := SaturatingSub(len, target);
        WrapSucc(at, drop);
        tail := Wrap(tail + drop);
        at := at + drop;
      }
    }

    method PushSlice(samples: seq<Sample>)
      requires Valid()
      modifies this, buffer
      ensures Valid()
      ensures Queue() == Capped(Accepted(old(Queue()), samples, capacity), 4800, 1920)
    {
      hide *;
      ghost var q := Queue();
      AcceptedNothing(q, capacity);
      for i := 0 to |samples|
        invariant Valid() && Queue() == Accepted(q, samples[..i], capacity)
      {
        AcceptedOneMore(q, samples[..i], samples[i], capacity);
        var ok := Push(samples[i]);
        assert samples[..i + 1] == samples[..i] + [samples[i]];
      }
      assert samples[..|samples|] == samples;
      CapLatency(4800, 1920);
    }
  }

  datatype Popped = Empty | Got(sample: Sample)
}
