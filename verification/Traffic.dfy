/**
 The ring buffer between the network and the sound device as a ledger: what arrives, what the
 output callback takes, and what is dropped because the ring was full or its latency capped.
 Arrivals may fall between any two pops of the callback.
 */
module Traffic {
  import opened RingSteps
  import opened RingBuffer

  const MAX_LATENCY: nat := 4800
  const TARGET_LATENCY: nat := 1920

  /** One call of the network side on the ring. */
  datatype Arrival = Push(sample: Sample) | Cap

  /** Samples handed to the callback so far, samples waiting, samples lost. */
  datatype Ledger = Ledger(taken: seq<Sample>, queue: seq<Sample>, dropped: seq<Sample>)

  function Arrive(l: Ledger, a: Arrival, capacity: nat): (l': Ledger) {
    match a
    case Push(x) =>
      if |l.queue| < capacity then l.(queue := l.queue + [x]) else l.(dropped := l.dropped + [x])
    case Cap =>
      var kept := Capped(l.queue, MAX_LATENCY, TARGET_LATENCY);
      l.(queue := kept, dropped := l.dropped + l.queue[..|l.queue| - |kept|])
  }

  function ArriveAll(l: Ledger, arrivals: seq<Arrival>, capacity: nat): (l': Ledger) {
    if arrivals == [] then l
    else Arrive(ArriveAll(l, arrivals[..|arrivals| - 1], capacity), arrivals[|arrivals| - 1], capacity)
  }

  function TakeOne(l: Ledger): (l': Ledger) {
    if l.queue == [] then l else l.(taken := l.taken + [l.queue[0]], queue := l.queue[1..])
  }

  /** What arrives just before the `i`-th pop. */
  function Before(during: seq<seq<Arrival>>, i: nat): (arrivals: seq<Arrival>) {
    if i < |during| then during[i] else []
  }

  /** `n` pops, with traffic before each of them. */
  function Drained(l: Ledger, n: nat, during: seq<seq<Arrival>>, capacity: nat): (l': Ledger) {
    if n == 0 then l
    else TakeOne(ArriveAll(Drained(l, n - 1, during, capacity), Before(during, n - 1), capacity))
  }

  // ---------------------------------------------------------------- conservation

  function Samples(arrivals: seq<Arrival>): (xs: seq<Sample>) {
    if arrivals == [] then []
    else
      var last := arrivals[|arrivals| - 1];
      Samples(arrivals[..|arrivals| - 1]) + if last.Push? then [last.sample] else []
  }

  lemma {:induction false} SamplesConcat(a: seq<Arrival>, b: seq<Arrival>)
    ensures Samples(a + b) == Samples(a) + Samples(b)
  {
    if b == [] {
      assert a + b == a;
    } else {
      var init := b[..|b| - 1];
      assert (a + b)[..|a + b| - 1] == a + init;
      SamplesConcat(a, init);
    }
  }

  /** From `l` to `l'`, with `xs` arriving: no sample appears or vanishes unaccounted for, what was
      taken or dropped stays so, and while nothing is dropped everything keeps its order. */
  predicate Conserves(l: Ledger, l': Ledger, xs: seq<Sample>) {
    && l.taken <= l'.taken && l.dropped <= l'.dropped
    && multiset(l'.taken) + multiset(l'.queue) + multiset(l'.dropped)
       == multiset(l.taken) + multiset(l.queue) + multiset(l.dropped) + multiset(xs)
    && (l'.dropped == l.dropped ==> l'.taken + l'.queue == l.taken + l.queue + xs)
  }

  lemma ConservesNothing(l: Ledger)
    ensures Conserves(l, l, [])
  {
    assert l.taken + l.queue + [] == l.taken + l.queue;
  }

  lemma ConservesChain(l: Ledger, l1: Ledger, l2: Ledger, xs: seq<Sample>, ys: seq<Sample>)
    requires Conserves(l, l1, xs) && Conserves(l1, l2, ys)
    ensures Conserves(l, l2, xs + ys)
  {
    if l2.dropped == l.dropped {
      assert l.taken + l.queue + xs + ys == l.taken + l.queue + (xs + ys);
    }
  }

  lemma ArriveConserves(l: Ledger, a: Arrival, capacity: nat)
    ensures Conserves(l, Arrive(l, a, capacity), if a.Push? then [a.sample] else [])
  {
    var l' := Arrive(l, a, capacity);
    match a
    case Push(x) =>
      if |l.queue| < capacity {
        assert l.taken + (l.queue + [x]) == l.taken + l.queue + [x];
      }
    case Cap =>
      var k := |l.queue| - |l'.queue|;
      assert l.queue == l.queue[..k] + l.queue[k..] && l'.queue == l.queue[k..];
      if l'.dropped == l.dropped {
        assert k == 0;
        assert l.taken + l.queue + [] == l.taken + l'.queue;
      }
  }

  lemma {:induction false} ArriveAllConserves(l: Ledger, arrivals: seq<Arrival>, capacity: nat)
    ensures Conserves(l, ArriveAll(l, arrivals, capacity), Samples(arrivals))
    ensures ArriveAll(l, arrivals, capacity).taken == l.taken
  {
    hide Conserves;
    if arrivals == [] {
      ConservesNothing(l);
    } else {
      var init, last := arrivals[..|arrivals| - 1], arrivals[|arrivals| - 1];
      ArriveAllConserves(l, init, capacity);
      var l1 := ArriveAll(l, init, capacity);
      ArriveConserves(l1, last, capacity);
      ConservesChain(l, l1, Arrive(l1, last, capacity), Samples(init), if last.Push? then [last.sample] else []);
    }
  }

  lemma TakeConserves(l: Ledger)
    ensures Conserves(l, TakeOne(l), [])
  {
    if l.queue == [] {
      ConservesNothing(l);
    } else {
      assert l.queue == [l.queue[0]] + l.queue[1..];
      assert l.taken + [l.queue[0]] + l.queue[1..] == l.taken + l.queue + [];
    }
  }

  /** All that arrives up to the `n`-th pop. */
  function UpTo(during: seq<seq<Arrival>>, n: nat): (arrivals: seq<Arrival>) {
    if n == 0 then [] else UpTo(during, n - 1) + Before(during, n - 1)
  }

  lemma PopConserves(l: Ledger, l1: Ledger, before: seq<Arrival>, now: seq<Arrival>, capacity: nat)
    requires Conserves(l, l1, Samples(before))
    ensures Conserves(l, TakeOne(ArriveAll(l1, now, capacity)), Samples(before + now))
  {
    var l2 := ArriveAll(l1, now, capacity);
    ArriveAllConserves(l1, now, capacity);
    TakeConserves(l2);
    hide *;
    SamplesConcat(before, now);
    var xs := Samples(before) + Samples(now);
    ConservesChain(l, l1, l2, Samples(before), Samples(now));
    ConservesChain(l, l2, TakeOne(l2), xs, []);
    assert xs + [] == xs;
  }

  lemma {:induction false} DrainedConserves(l: Ledger, n: nat, during: seq<seq<Arrival>>, capacity: nat)
    ensures Conserves(l, Drained(l, n, during, capacity), Samples(UpTo(during, n)))
  {
    hide Conserves, ArriveAll, TakeOne, Before;
    if n == 0 {
      ConservesNothing(l);
    } else {
      hide Samples;
      var l1, before, now := Drained(l, n - 1, during, capacity), UpTo(during, n - 1), Before(during, n - 1);
      assert Drained(l, n, during, capacity) == TakeOne(ArriveAll(l1, now, capacity)) && UpTo(during, n) == before + now;
      hide *;
      DrainedConserves(l, n - 1, during, capacity);
      PopConserves(l, l1, before, now, capacity);
    }
  }

  lemma {:induction false} DrainedAtMost(l: Ledger, n: nat, during: seq<seq<Arrival>>, capacity: nat)
    ensures l.taken <= Drained(l, n, during, capacity).taken
    ensures |Drained(l, n, during, capacity).taken| <= |l.taken| + n
  {
    if n > 0 {
      hide ArriveAll;
      DrainedAtMost(l, n - 1, during, capacity);
      ArriveAllConserves(Drained(l, n - 1, during, capacity), Before(during, n - 1), capacity);
    }
  }

  // ---------------------------------------------------------------- when every pop succeeds

  predicate NoCaps(during: seq<seq<Arrival>>) {
    forall i, j :: 0 <= i < |during| && 0 <= j < |during[i]| ==> during[i][j].Push?
  }

  lemma {:induction false} ArrivalsLeaveEnough(l: Ledger, arrivals: seq<Arrival>, capacity: nat, n: nat)
    requires n <= |l.queue|
    requires n <= TARGET_LATENCY || forall j :: 0 <= j < |arrivals| ==> arrivals[j].Push?
    ensures n <= |ArriveAll(l, arrivals, capacity).queue|
  {
    if arrivals != [] {
      ArrivalsLeaveEnough(l, arrivals[..|arrivals| - 1], capacity, n);
    }
  }

  /** If the ring holds the samples wanted, no pop fails, whatever arrives meanwhile: a latency cap
      leaves 1920 samples, and a larger request only needs that none happens. */
  lemma {:induction false} EveryPopSucceeds(l: Ledger, n: nat, k: nat, during: seq<seq<Arrival>>, capacity: nat)
    requires k <= n <= |l.queue| && (n <= TARGET_LATENCY || NoCaps(during))
    ensures |Drained(l, k, during, capacity).taken| == |l.taken| + k
    ensures n - k <= |Drained(l, k, during, capacity).queue|
    decreases k
  {
    if k > 0 {
      EveryPopSucceeds(l, n, k - 1, during, capacity);
      var l1, now := Drained(l, k - 1, during, capacity), Before(during, k - 1);
      ArrivalsLeaveEnough(l1, now, capacity, n - (k - 1));
      ArriveAllConserves(l1, now, capacity);
    }
  }

  /** How many of the pops find something. */
  function Succeeding(l: Ledger, n: nat, during: seq<seq<Arrival>>, capacity: nat): (k: nat) {
    if n == 0 then 0 else
      var l1 := ArriveAll(Drained(l, n - 1, during, capacity), Before(during, n - 1), capacity);
      Succeeding(l, n - 1, during, capacity) + if l1.queue == [] then 0 else 1
  }

  lemma {:induction false} TakenBySucceeding(l: Ledger, n: nat, during: seq<seq<Arrival>>, capacity: nat)
    ensures |Drained(l, n, during, capacity).taken| == |l.taken| + Succeeding(l, n, during, capacity)
  {
    if n > 0 {
      hide ArriveAll;
      TakenBySucceeding(l, n - 1, during, capacity);
      ArriveAllConserves(Drained(l, n - 1, during, capacity), Before(during, n - 1), capacity);
    }
  }

  /** One sample too many and a cap, just before the first pop. */
  function CapFirst(x: Sample): (during: seq<seq<Arrival>>) {
    [[Push(x), Cap]]
  }

  lemma CappedAtOnce(l: Ledger, x: Sample, capacity: nat)
    requires |l.queue| == MAX_LATENCY < capacity
    ensures |ArriveAll(l, [Push(x), Cap], capacity).queue| == TARGET_LATENCY
  {
    var both: seq<Arrival> := [Push(x), Cap];
    assert both[..1] == [Push(x)] && [Push(x)][..0] == [];
    assert ArriveAll(l, [Push(x)], capacity) == Arrive(l, Push(x), capacity);
    assert ArriveAll(l, both, capacity) == Arrive(Arrive(l, Push(x), capacity), Cap, capacity);
  }

  /** Then only 1920 pops find anything, however many the ring could have served. */
  lemma {:induction false} CapStarves(l: Ledger, x: Sample, n: nat, capacity: nat)
    requires |l.queue| == MAX_LATENCY < capacity && n > 0
    ensures var l' := Drained(l, n, CapFirst(x), capacity); var k := if n < TARGET_LATENCY then n else TARGET_LATENCY;
      |l'.taken| == |l.taken| + k && |l'.queue| == TARGET_LATENCY - k
  {
    hide ArriveAll;
    if n == 1 {
      CappedAtOnce(l, x, capacity);
      ArriveAllConserves(l, [Push(x), Cap], capacity);
      assert Drained(l, 0, CapFirst(x), capacity) == l && Before(CapFirst(x), 0) == [Push(x), Cap];
    } else {
      CapStarves(l, x, n - 1, capacity);
      ArriveNone(Drained(l, n - 1, CapFirst(x), capacity), capacity);
    }
  }

  // ---------------------------------------------------------------- the ring keeps the ledger

  /** The calls of one `push_slice`. */
  function Slice(samples: seq<Sample>): (arrivals: seq<Arrival>) {
    Pushes(samples) + [Cap]
  }

  function Pushes(samples: seq<Sample>): (arrivals: seq<Arrival>)
    ensures |arrivals| == |samples|
  {
    if samples == [] then [] else Pushes(samples[..|samples| - 1]) + [Push(samples[|samples| - 1])]
  }

  lemma {:induction false} PushesAreAccepted(l: Ledger, samples: seq<Sample>, capacity: nat)
    requires |l.queue| <= capacity
    ensures ArriveAll(l, Pushes(samples), capacity).queue == Accepted(l.queue, samples, capacity)
  {
    if samples == [] {
      AcceptedNothing(l.queue, capacity);
    } else {
      var init, last := samples[..|samples| - 1], samples[|samples| - 1];
      PushesAreAccepted(l, init, capacity);
      AcceptedOneMore(l.queue, init, last, capacity);
      assert samples == init + [last];
      assert Pushes(samples)[..|samples| - 1] == Pushes(init);
    }
  }

  /** One `push_slice` is its pushes followed by the latency cap. */
  lemma SliceIsPushSlice(l: Ledger, samples: seq<Sample>, capacity: nat)
    requires |l.queue| <= capacity
    ensures ArriveAll(l, Slice(samples), capacity).queue
         == Capped(Accepted(l.queue, samples, capacity), 4800, 1920)
  {
    PushesAreAccepted(l, samples, capacity);
    assert Slice(samples)[..|samples|] == Pushes(samples);
  }

  /** The network side at work on the ring. */
  method Deliver(ring: AudioRingBuffer, arrivals: seq<Arrival>, ghost l: Ledger)
    requires ring.Valid() && l.queue == ring.Queue()
    modifies ring, ring.buffer
    ensures ring.Valid() && ring.Queue() == ArriveAll(l, arrivals, ring.capacity).queue
  {
    hide *;
    ArriveNone(l, ring.capacity);
    for i := 0 to |arrivals|
      invariant ring.Valid() && ring.Queue() == ArriveAll(l, arrivals[..i], ring.capacity).queue
    {
      ArriveNext(l, arrivals, i, ring.capacity);
      match arrivals[i]
      case Push(x) => var ok := ring.Push(x);
      case Cap => ring.CapLatency(MAX_LATENCY, TARGET_LATENCY);
    }
    assert arrivals[..|arrivals|] == arrivals;
  }

  lemma ArriveNone(l: Ledger, capacity: nat)
    ensures forall arrivals :: arrivals == [] ==> ArriveAll(l, arrivals, capacity) == l
  {
  }

  lemma ArriveNext(l: Ledger, arrivals: seq<Arrival>, i: nat, capacity: nat)
    requires i < |arrivals|
    ensures var q := ArriveAll(l, arrivals[..i], capacity).queue;
      ArriveAll(l, arrivals[..i + 1], capacity).queue ==
        match arrivals[i]
        case Push(x) => if |q| < capacity then q + [x] else q
        case Cap => Capped(q, MAX_LATENCY, TARGET_LATENCY)
  {
    assert arrivals[..i + 1][..i] == arrivals[..i];
  }
}
