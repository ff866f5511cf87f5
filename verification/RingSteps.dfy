/**
 The lock-free audio ring buffer as an interleaving of single atomic loads, stores and
 compare-exchanges: one producer running `push` and `cap_latency`, any number of consumers
 running `pop`. Counters wrap at 2^64 as they do in the code; `pushed` and `fates` are the
 history of the run and are never read by a step.
 */
module RingSteps {
  import opened Arith

  const WORD: nat := 0x1_0000_0000_0000_0000

  type Sample = real

  function Wrap(n: nat): (r: nat)
    ensures r < WORD
  {
    n % WORD
  }

  function WrapSub(a: nat, b: nat): (r: nat) {
    (a - b) % WORD
  }

  /** `counter & mask`, with `mask` one less than the capacity. */
  function Slot(counter: nat, capacity: nat): (r: nat)
    requires capacity > 0
    ensures r < capacity
  {
    BitAnd(counter, capacity - 1)
  }

  lemma SlotIsMod(counter: nat, capacity: nat)
    requires PowerOfTwo(capacity)
    ensures capacity > 0 && Slot(counter, capacity) == counter % capacity
  {
    var k: nat :| k <= 64 && capacity == Pow2(k);
    MaskIsMod(counter, k);
  }

  /** What became of a sample that has left the buffer. */
  datatype Fate = Delivered(consumer: nat, sample: Sample) | Dropped

  /** A consumer inside `pop`; `at` is the history position of its copy of `tail`. */
  datatype Consumer =
    | Idle
    | HaveTail(tail: nat, at: nat)
    | HaveHead(tail: nat, at: nat)
    | HaveBits(tail: nat, at: nat, bits: Sample)

  /** The producer inside `push` or `cap_latency`; `since` is the history position at which
      `cap_latency` measured the length. */
  datatype Producer =
    | Ready
    | PushHaveHead(sample: Sample, head: nat)
    | PushHaveRoom(sample: Sample, head: nat)
    | PushStored(sample: Sample, head: nat)
    | CapHaveHead(max: nat, target: nat, head: nat)
    | CapHaveDrop(target: nat, drop: nat, since: nat)
    | CapHaveTail(target: nat, drop: nat, since: nat, tail: nat)

  datatype State = State(
    capacity: nat, slots: seq<Sample>, head: nat, tail: nat,
    producer: Producer, consumers: map<nat, Consumer>,
    pushed: seq<Sample>, fates: seq<Fate>)

  datatype Action =
    | PopLoadTail(c: nat) | PopLoadHead(c: nat) | PopReadSlot(c: nat) | PopCas(c: nat) | PopCasFail(c: nat)
    | PushStart(sample: Sample) | PushLoadTail | PushStoreSlot | PushStoreHead
    | CapStart(max: nat, target: nat) | CapLoadLen | CapLoadTail | CapCas | CapCasFail

  // ---------------------------------------------------------------- the steps

  predicate Enabled(s: State, a: Action) {
    match a
    case PopLoadTail(c) => c in s.consumers && s.consumers[c].Idle?
    case PopLoadHead(c) => c in s.consumers && s.consumers[c].HaveTail?
    case PopReadSlot(c) => c in s.consumers && s.consumers[c].HaveHead?
    case PopCas(c) => c in s.consumers && s.consumers[c].HaveBits? && s.consumers[c].tail == s.tail
    case PopCasFail(c) => c in s.consumers && s.consumers[c].HaveBits?
    case PushStart(_) => s.producer.Ready?
    case PushLoadTail => s.producer.PushHaveHead?
    case PushStoreSlot => s.producer.PushHaveRoom?
    case PushStoreHead => s.producer.PushStored?
    case CapStart(_, _) => s.producer.Ready?
    case CapLoadLen => s.producer.CapHaveHead?
    case CapLoadTail => s.producer.CapHaveDrop?
    case CapCas => s.producer.CapHaveTail? && s.producer.tail == s.tail
    case CapCasFail => s.producer.CapHaveTail?
  }

  predicate Shaped(s: State) {
    0 < s.capacity == |s.slots|
  }

  function AllDropped(n: nat): (fs: seq<Fate>)
    ensures |fs| == n && forall i :: 0 <= i < n ==> fs[i] == Dropped
  {
    if n == 0 then [] else [Dropped] + AllDropped(n - 1)
  }

  function SaturatingSub(a: nat, b: nat): (r: nat) {
    if a >= b then a - b else 0
  }

  /** `PopCasFail` and `CapCasFail` cover both a lost race and a spurious failure of the weak exchange. */
  function Step(s: State, a: Action): (s': State)
    requires Shaped(s) && Enabled(s, a)
    ensures Shaped(s') && s'.capacity == s.capacity
  {
    match a
    case PopLoadTail(c) => s.(consumers := s.consumers[c := HaveTail(s.tail, |s.fates|)])
    case PopLoadHead(c) =>
      var k := s.consumers[c];
      s.(consumers := s.consumers[c := if k.tail == s.head then Idle else HaveHead(k.tail, k.at)])
    case PopReadSlot(c) =>
      var k := s.consumers[c];
      s.(consumers := s.consumers[c := HaveBits(k.tail, k.at, s.slots[Slot(k.tail, s.capacity)])])
    case PopCas(c) =>
      var k := s.consumers[c];
      s.(tail := Wrap(k.tail + 1), fates := s.fates + [Delivered(c, k.bits)], consumers := s.consumers[c := Idle])
    case PopCasFail(c) => s.(consumers := s.consumers[c := HaveTail(s.tail, |s.fates|)])
    case PushStart(x) => s.(producer := PushHaveHead(x, s.head))
    case PushLoadTail =>
      var p := s.producer;
      s.(producer := if WrapSub(p.head, s.tail) >= s.capacity then Ready else PushHaveRoom(p.sample, p.head))
    case PushStoreSlot =>
      var p := s.producer;
      s.(slots := s.slots[Slot(p.head, s.capacity) := p.sample], producer := PushStored(p.sample, p.head))
    case PushStoreHead =>
      var p := s.producer;
      s.(head := Wrap(p.head + 1), pushed := s.pushed + [p.sample], producer := Ready)
    case CapStart(max, target) => s.(producer := CapHaveHead(max, target, s.head))
    case CapLoadLen =>
      var p := s.producer;
      var len := WrapSub(p.head, s.tail);
      s.(producer := if len > p.max then CapHaveDrop(p.target, SaturatingSub(len, p.target), |s.fates|) else Ready)
    case CapLoadTail =>
      var p := s.producer;
      s.(producer := CapHaveTail(p.target, p.drop, p.since, s.tail))
    case CapCas =>
      var p := s.producer;
      s.(tail := Wrap(p.tail + p.drop), fates := s.fates + AllDropped(p.drop), producer := Ready)
    case CapCasFail =>
      var p := s.producer;
      s.(producer := CapHaveTail(p.target, p.drop, p.since, s.tail))
  }

  /** At most `target` pops between the moment `cap_latency` measures the length and its exchange. */
  predicate Paced(s: State, a: Action) {
    a.CapCas? && s.producer.CapHaveTail? ==> |s.fates| - s.producer.since <= s.producer.target
  }

  /** No pop attempt stays open while the tail advances by 2^64. */
  predicate Timely(s: State, a: Action) {
    a.PopCas? && a.c in s.consumers && s.consumers[a.c].HaveBits? ==> |s.fates| - s.consumers[a.c].at < WORD
  }

  // ---------------------------------------------------------------- the invariant

  predicate GoodConsumer(s: State, k: Consumer) {
    match k
    case Idle => true
    case HaveTail(t, at) => at <= |s.fates| && t == Wrap(at)
    case HaveHead(t, at) => at <= |s.fates| && t == Wrap(at) && (at == |s.fates| ==> at < |s.pushed|)
    case HaveBits(t, at, b) =>
      at <= |s.fates| && t == Wrap(at) && (at == |s.fates| ==> at < |s.pushed| && b == s.pushed[at])
  }

  predicate GoodProducer(s: State) {
    match s.producer
    case Ready => true
    case PushHaveHead(_, h) => h == s.head
    case PushHaveRoom(_, h) => h == s.head && |s.pushed| < |s.fates| + s.capacity
    case PushStored(x, h) =>
      h == s.head && |s.pushed| < |s.fates| + s.capacity
      && Shaped(s) && s.slots[Slot(|s.pushed|, s.capacity)] == x
    case CapHaveHead(_, _, h) => h == s.head
    case CapHaveDrop(target, drop, since) => GoodDrop(s, target, drop, since)
    case CapHaveTail(target, drop, since, _) => GoodDrop(s, target, drop, since)
  }

  predicate GoodDrop(s: State, target: nat, drop: nat, since: nat) {
    since <= |s.fates| && since <= |s.pushed| && drop == SaturatingSub(|s.pushed| - since, target)
  }

  predicate GoodSlots(s: State)
    requires Shaped(s)
  {
    forall i :: |s.fates| <= i < |s.pushed| ==> s.slots[Slot(i, s.capacity)] == s.pushed[i]
  }

  predicate GoodFates(s: State) {
    |s.fates| <= |s.pushed| &&
    forall i :: 0 <= i < |s.fates| && s.fates[i].Delivered? ==> s.fates[i].sample == s.pushed[i]
  }

  ghost predicate Counters(s: State) {
    && Shaped(s) && s.capacity < WORD && PowerOfTwo(s.capacity)
    && s.head == Wrap(|s.pushed|) && s.tail == Wrap(|s.fates|)
    && |s.fates| <= |s.pushed| <= |s.fates| + s.capacity
  }

  ghost predicate Inv(s: State) {
    && Counters(s) && GoodSlots(s) && GoodFates(s) && GoodProducer(s)
    && forall c :: c in s.consumers ==> GoodConsumer(s, s.consumers[c])
  }

  /** A fresh buffer: 2^k slots, no history, nobody inside an operation. */
  ghost predicate Init(s: State) {
    && (exists k: nat :: k < 64 && s.capacity == Pow2(k))
    && |s.slots| == s.capacity && s.head == 0 && s.tail == 0
    && s.producer.Ready? && (forall c :: c in s.consumers ==> s.consumers[c].Idle?)
    && s.pushed == [] && s.fates == []
  }

  lemma WordIsPow2()
    ensures Pow2(64) == WORD
  {
    assert Pow2(4) == 16;
    hide Pow2;
    Pow2Sum(4, 4);
    assert Pow2(8) == 0x100;
    Pow2Sum(8, 8);
    assert Pow2(16) == 0x1_0000;
    Pow2Sum(16, 16);
    assert Pow2(32) == 0x1_0000_0000;
    Pow2Sum(32, 32);
  }

  lemma BelowWord(k: nat)
    requires k < 64
    ensures Pow2(k) < WORD && PowerOfTwo(Pow2(k))
  {
    WordIsPow2();
    Pow2Monotone(k, 63);
    assert Pow2(64) == 2 * Pow2(63);
  }

  lemma InitInv(s: State)
    requires Init(s)
    ensures Inv(s)
  {
    var k: nat :| k < 64 && s.capacity == Pow2(k);
    BelowWord(k);
  }

  // ---------------------------------------------------------------- preservation

  lemma SlotOfWrapped(i: nat, capacity: nat)
    requires PowerOfTwo(capacity)
    ensures capacity > 0 && Slot(Wrap(i), capacity) == Slot(i, capacity)
  {
    var k: nat :| k <= 64 && capacity == Pow2(k);
    WordIsPow2();
    Pow2Divides(k, 64);
    ModOfMod(i, WORD, capacity);
    SlotIsMod(i, capacity);
    SlotIsMod(Wrap(i), capacity);
  }

  lemma LengthOfCounters(s: State)
    requires Counters(s)
    ensures WrapSub(s.head, s.tail) == |s.pushed| - |s.fates|
  {
    WrappedDistance(|s.fates|, |s.pushed|, WORD);
  }

  predicate PopAction(a: Action) {
    a.PopLoadTail? || a.PopLoadHead? || a.PopReadSlot? || a.PopCas? || a.PopCasFail?
  }

  lemma PopPreserves(s: State, a: Action)
    requires Inv(s) && Enabled(s, a) && PopAction(a) && Timely(s, a)
    ensures Inv(Step(s, a))
  {
    hide Wrap, WrapSub, Slot;
    var s' := Step(s, a);
    var k := s.consumers[a.c];
    assert GoodConsumer(s, k);
    match a
    case PopLoadTail(c) =>
    case PopLoadHead(c) =>
    case PopReadSlot(c) =>
      SlotOfWrapped(k.at, s.capacity);
    case PopCas(c) =>
      WrapEqual(k.at, |s.fates|);
      WrapSucc(k.at, 1);
      assert k.at < |s.pushed| && k.bits == s.pushed[k.at];
    case PopCasFail(c) =>
  }

  lemma WrapEqual(a: nat, b: nat)
    requires a <= b < a + WORD && Wrap(a) == Wrap(b)
    ensures a == b
  {
    ModInjective(a, b, WORD);
  }

  lemma WrapSucc(a: nat, d: nat)
    ensures Wrap(Wrap(a) + d) == Wrap(a + d)
  {
    WrappedAdd(a, d, WORD);
  }

  lemma SlotsDiffer(i: nat, j: nat, capacity: nat)
    requires PowerOfTwo(capacity) && i < j < i + capacity
    ensures Slot(i, capacity) != Slot(j, capacity)
  {
    ModDistinct(i, j, capacity);
    SlotIsMod(i, capacity);
    SlotIsMod(j, capacity);
  }

  lemma PushPreserves(s: State, a: Action)
    requires Inv(s) && Enabled(s, a)
    requires a.PushStart? || a.PushLoadTail? || a.PushStoreSlot? || a.PushStoreHead?
    ensures Inv(Step(s, a))
  {
    hide Wrap, WrapSub, Slot;
    var s' := Step(s, a);
    match a
    case PushStart(_) =>
    case PushLoadTail =>
      LengthOfCounters(s);
    case PushStoreSlot =>
      SlotOfWrapped(|s.pushed|, s.capacity);
      forall i | |s.fates| <= i < |s.pushed| ensures s'.slots[Slot(i, s.capacity)] == s.pushed[i] {
        SlotsDiffer(i, |s.pushed|, s.capacity);
      }
    case PushStoreHead =>
      WrapSucc(|s.pushed|, 1);
  }

  lemma CapPreserves(s: State, a: Action)
    requires Inv(s) && Enabled(s, a) && Paced(s, a)
    requires a.CapStart? || a.CapLoadLen? || a.CapLoadTail? || a.CapCas? || a.CapCasFail?
    ensures Inv(Step(s, a))
  {
    hide Wrap, WrapSub, Slot;
    match a
    case CapStart(_, _) =>
    case CapLoadLen =>
      LengthOfCounters(s);
    case CapLoadTail =>
    case CapCas =>
      WrapSucc(|s.fates|, s.producer.drop);
    case CapCasFail =>
  }

  lemma StepPreserves(s: State, a: Action)
    requires Inv(s) && Enabled(s, a) && Paced(s, a) && Timely(s, a)
    ensures Inv(Step(s, a))
  {
    if PopAction(a) {
      PopPreserves(s, a);
    } else if a.PushStart? || a.PushLoadTail? || a.PushStoreSlot? || a.PushStoreHead? {
      PushPreserves(s, a);
    } else {
      CapPreserves(s, a);
    }
  }

  // ---------------------------------------------------------------- whole runs

  /** `run` is a sequence of states joined by the given actions, from a fresh buffer. */
  ghost predicate IsRun(run: seq<State>, acts: seq<Action>) {
    && |run| == |acts| + 1 && Init(run[0])
    && forall i :: 0 <= i < |acts| ==>
      Shaped(run[i]) && Enabled(run[i], acts[i]) && run[i + 1] == Step(run[i], acts[i])
  }

  ghost predicate Disciplined(run: seq<State>, acts: seq<Action>)
    requires IsRun(run, acts)
  {
    forall i :: 0 <= i < |acts| ==> Paced(run[i], acts[i]) && Timely(run[i], acts[i])
  }

  lemma {:induction false} RunInvariant(run: seq<State>, acts: seq<Action>, n: nat)
    requires IsRun(run, acts) && Disciplined(run, acts) && n < |run|
    ensures Inv(run[n])
  {
    if n == 0 {
      InitInv(run[0]);
    } else {
      RunInvariant(run, acts, n - 1);
      StepPreserves(run[n - 1], acts[n - 1]);
    }
  }

  /** Safety of every interleaving: the counters stay within one capacity of each other and every
      sample that left the buffer through a pop is the one pushed at its position. */
  lemma RingSafety(run: seq<State>, acts: seq<Action>, n: nat)
    requires IsRun(run, acts) && Disciplined(run, acts) && n < |run|
    ensures |run[n].fates| <= |run[n].pushed| <= |run[n].fates| + run[n].capacity
    ensures run[n].head == Wrap(|run[n].pushed|) && run[n].tail == Wrap(|run[n].fates|)
    ensures forall i :: 0 <= i < |run[n].fates| && run[n].fates[i].Delivered? ==>
      run[n].fates[i].sample == run[n].pushed[i]
  {
    RunInvariant(run, acts, n);
  }

  lemma {:induction false} HistoryGrows(run: seq<State>, acts: seq<Action>, m: nat, n: nat)
    requires IsRun(run, acts) && m <= n < |run|
    ensures run[m].pushed <= run[n].pushed && run[m].fates <= run[n].fates
  {
    if m < n {
      HistoryGrows(run, acts, m, n - 1);
      var s := run[n - 1];
      assert run[n] == Step(s, acts[n - 1]);
      assert s.pushed <= run[n].pushed && s.fates <= run[n].fates;
    }
  }

  /** A pop that succeeds at step `n` hands over the next sample in push order, and no other pop,
      earlier or later, is ever given that position. */
  lemma PopIsLinear(run: seq<State>, acts: seq<Action>, n: nat)
    requires IsRun(run, acts) && Disciplined(run, acts) && n < |acts| && acts[n].PopCas?
    ensures var at := |run[n].fates|;
      && at < |run[n].pushed|
      && run[n].consumers[acts[n].c].bits == run[n].pushed[at]
      && (forall m :: n < m < |run| ==>
            at < |run[m].fates| && run[m].fates[at] == Delivered(acts[n].c, run[n].pushed[at]))
      && (forall m :: n < m < |acts| && acts[m].PopCas? ==> at < |run[m].fates|)
  {
    RunInvariant(run, acts, n);
    RunInvariant(run, acts, n + 1);
    var at := |run[n].fates|;
    assert run[n + 1] == Step(run[n], acts[n]);
    assert run[n + 1].fates[at] == Delivered(acts[n].c, run[n].consumers[acts[n].c].bits);
    forall m | n < m < |run| ensures at < |run[m].fates| && run[m].fates[at] == run[n + 1].fates[at] {
      HistoryGrows(run, acts, n + 1, m);
    }
    assert run[n + 1].pushed == run[n].pushed;
  }

  function Samples(fs: seq<Fate>): (xs: seq<Sample>)
    ensures |xs| == |fs|
  {
    if fs == [] then [] else
    Samples(fs[..|fs| - 1]) + [if fs[|fs| - 1].Delivered? then fs[|fs| - 1].sample else 0.0]
  }

  lemma {:induction false} SamplesAt(fs: seq<Fate>, i: nat)
    requires i < |fs| && fs[i].Delivered?
    ensures Samples(fs)[i] == fs[i].sample
  {
    if i < |fs| - 1 {
      SamplesAt(fs[..|fs| - 1], i);
    }
  }

  /** When nothing was dropped, the consumers between them received exactly a prefix of what was
      pushed, in order. */
  lemma FifoWithoutDrops(run: seq<State>, acts: seq<Action>, n: nat)
    requires IsRun(run, acts) && Disciplined(run, acts) && n < |run|
    requires forall i :: 0 <= i < |run[n].fates| ==> run[n].fates[i].Delivered?
    ensures Samples(run[n].fates) <= run[n].pushed
  {
    RunInvariant(run, acts, n);
    forall i | 0 <= i < |run[n].fates| ensures Samples(run[n].fates)[i] == run[n].pushed[i] {
      SamplesAt(run[n].fates, i);
    }
  }

  /** An empty answer is honest: when a timely `pop` finds its tail equal to the head, the buffer
      is empty at that moment. */
  lemma NoneIsHonest(s: State, c: nat)
    requires Inv(s) && c in s.consumers && s.consumers[c].HaveTail?
    requires |s.pushed| - s.consumers[c].at < WORD
    requires Step(s, PopLoadHead(c)).consumers[c].Idle?
    ensures |s.fates| == |s.pushed|
  {
    assert GoodConsumer(s, s.consumers[c]);
    WrapEqual(s.consumers[c].at, |s.pushed|);
  }

  // ---------------------------------------------------------------- the pacing condition is exact

  /** The exchange of `cap_latency` keeps the tail behind the head exactly when at most
      `target` pops landed since the length was measured. */
  lemma PacingIsExact(s: State)
    requires Inv(s) && Enabled(s, CapCas)
    ensures |Step(s, CapCas).fates| <= |Step(s, CapCas).pushed| <==> Paced(s, CapCas)
  {
  }

  // Runs given by their actions alone.

  predicate Legal(s: State, acts: seq<Action>)
    requires Shaped(s)
    decreases |acts|
  {
    acts == [] || (Enabled(s, acts[0]) && Legal(Step(s, acts[0]), acts[1..]))
  }

  /** The states that legal actions lead through. */
  function States(s: State, acts: seq<Action>): (run: seq<State>)
    requires Shaped(s) && Legal(s, acts)
    ensures |run| == |acts| + 1 && run[0] == s
    ensures forall i :: 0 <= i < |run| ==> Shaped(run[i])
    decreases |acts|
  {
    if acts == [] then [s] else [s] + States(Step(s, acts[0]), acts[1..])
  }

  function Final(s: State, acts: seq<Action>): (s': State)
    requires Shaped(s) && Legal(s, acts)
    ensures Shaped(s')
  {
    States(s, acts)[|acts|]
  }

  lemma {:induction false} StatesStep(s: State, acts: seq<Action>, i: nat)
    requires Shaped(s) && Legal(s, acts) && i < |acts|
    ensures var run := States(s, acts); Enabled(run[i], acts[i]) && run[i + 1] == Step(run[i], acts[i])
    decreases |acts|
  {
    if i > 0 {
      StatesStep(Step(s, acts[0]), acts[1..], i - 1);
    }
  }

  lemma LegalIsRun(s: State, acts: seq<Action>)
    requires Init(s) && Shaped(s) && Legal(s, acts)
    ensures IsRun(States(s, acts), acts)
  {
    hide Legal, States, Enabled, Step;
    var run := States(s, acts);
    forall i | 0 <= i < |acts| ensures Shaped(run[i]) && Enabled(run[i], acts[i]) && run[i + 1] == Step(run[i], acts[i]) {
      StatesStep(s, acts, i);
    }
  }

  lemma {:induction false} LegalConcat(s: State, a: seq<Action>, b: seq<Action>)
    requires Shaped(s) && Legal(s, a) && Legal(Final(s, a), b)
    ensures Legal(s, a + b) && Final(s, a + b) == Final(Final(s, a), b)
    decreases |a|
  {
    hide Enabled, Step;
    if a == [] {
      assert a + b == b;
    } else {
      assert (a + b)[1..] == a[1..] + b && (a + b)[0] == a[0];
      LegalConcat(Step(s, a[0]), a[1..], b);
    }
  }

  /** One popping consumer at rest, `n` samples pushed, `m` gone. */
  predicate At(s: State, capacity: nat, n: nat, m: nat, producer: Producer) {
    && Shaped(s) && s.capacity == capacity && s.producer == producer && s.consumers == map[7 := Idle]
    && s.head == n == |s.pushed| && s.tail == m == |s.fates|
  }

  const PUSH_ONE: seq<Action> := [PushStart(1.0), PushLoadTail, PushStoreSlot, PushStoreHead]
  const POP_ONE: seq<Action> := [PopLoadTail(7), PopLoadHead(7), PopReadSlot(7), PopCas(7)]

  lemma Four(s: State, acts: seq<Action>)
    requires Shaped(s) && |acts| == 4 && Enabled(s, acts[0])
    requires var s1 := Step(s, acts[0]); Enabled(s1, acts[1])
    requires var s2 := Step(Step(s, acts[0]), acts[1]); Enabled(s2, acts[2])
    requires var s3 := Step(Step(Step(s, acts[0]), acts[1]), acts[2]); Enabled(s3, acts[3])
    ensures Legal(s, acts)
    ensures States(s, acts) == var s1 := Step(s, acts[0]); var s2 := Step(s1, acts[1]); var s3 := Step(s2, acts[2]);
      [s, s1, s2, s3, Step(s3, acts[3])]
  {
    hide Enabled, Step;
    var s1 := Step(s, acts[0]);
    var s2 := Step(s1, acts[1]);
    var s3 := Step(s2, acts[2]);
    var s4 := Step(s3, acts[3]);
    assert acts[1..][0] == acts[1] && acts[2..][0] == acts[2] && acts[3..][0] == acts[3];
    assert acts[1..][1..] == acts[2..] && acts[2..][1..] == acts[3..] && acts[3..][1..] == [];
    assert Legal(s4, []) && States(s4, []) == [s4];
    assert Legal(s3, acts[3..]) && States(s3, acts[3..]) == [s3] + [s4];
    assert Legal(s2, acts[2..]) && States(s2, acts[2..]) == [s2] + ([s3] + [s4]);
    assert Legal(s1, acts[1..]) && States(s1, acts[1..]) == [s1] + ([s2] + ([s3] + [s4]));
  }

  predicate NoCapCas(acts: seq<Action>) {
    forall i :: 0 <= i < |acts| ==> !acts[i].CapCas?
  }

  lemma PushOne(s: State, capacity: nat, n: nat)
    requires At(s, capacity, n, 0, Ready) && n < capacity < WORD
    ensures Legal(s, PUSH_ONE) && At(Final(s, PUSH_ONE), capacity, n + 1, 0, Ready)
  {
    hide Slot, BitAnd;
    var s1 := Step(s, PUSH_ONE[0]);
    var s2 := Step(s1, PUSH_ONE[1]);
    assert WrapSub(n, 0) == n;
    assert s2.producer == PushHaveRoom(1.0, n);
    var s3 := Step(s2, PUSH_ONE[2]);
    assert Wrap(n + 1) == n + 1;
    Four(s, PUSH_ONE);
  }

  lemma PopOne(s: State, capacity: nat, n: nat, m: nat, producer: Producer)
    requires At(s, capacity, n, m, producer) && m < n < WORD
    ensures Legal(s, POP_ONE) && At(Final(s, POP_ONE), capacity, n, m + 1, producer)
  {
    hide Slot, BitAnd;
    assert Wrap(m + 1) == m + 1;
    Four(s, POP_ONE);
  }

  /** A legal sequence of actions from `s` in which `cap_latency` exchanges nothing. */
  predicate Plain(s: State, acts: seq<Action>)
    requires Shaped(s)
  {
    Legal(s, acts) && NoCapCas(acts)
  }

  lemma PlainConcat(s: State, a: seq<Action>, b: seq<Action>)
    requires Shaped(s) && Plain(s, a) && Plain(Final(s, a), b)
    ensures Plain(s, a + b) && Final(s, a + b) == Final(Final(s, a), b)
  {
    LegalConcat(s, a, b);
  }

  lemma {:induction false} PushMany(s: State, capacity: nat, n: nat) returns (acts: seq<Action>)
    requires At(s, capacity, 0, 0, Ready) && n <= capacity < WORD
    ensures Plain(s, acts) && At(Final(s, acts), capacity, n, 0, Ready)
    decreases n
  {
    if n == 0 {
      acts := [];
    } else {
      var before := PushMany(s, capacity, n - 1);
      PushOne(Final(s, before), capacity, n - 1);
      hide Legal, States, At;
      PlainConcat(s, before, PUSH_ONE);
      acts := before + PUSH_ONE;
    }
  }

  lemma {:induction false} PopMany(s: State, capacity: nat, n: nat, m: nat, producer: Producer) returns (acts: seq<Action>)
    requires At(s, capacity, n, 0, producer) && m <= n < WORD
    ensures Plain(s, acts) && At(Final(s, acts), capacity, n, m, producer)
    decreases m
  {
    if m == 0 {
      acts := [];
    } else {
      var before := PopMany(s, capacity, n, m - 1, producer);
      PopOne(Final(s, before), capacity, n, m - 1, producer);
      hide Legal, States, At;
      PlainConcat(s, before, POP_ONE);
      acts := before + POP_ONE;
    }
  }

  lemma One(s: State, a: Action)
    requires Shaped(s) && Enabled(s, a)
    ensures Legal(s, [a]) && Final(s, [a]) == Step(s, a)
  {
    hide Enabled, Step;
    assert [a][1..] == [];
    assert States(Step(s, a), []) == [Step(s, a)];
    assert States(s, [a]) == [s] + [Step(s, a)];
  }

  /** Up to the moment `cap_latency(max, target)` has measured a length of `n`. */
  lemma Measured(s: State, capacity: nat, n: nat, max: nat, target: nat) returns (acts: seq<Action>)
    requires At(s, capacity, 0, 0, Ready) && n <= capacity < WORD && max < n && target < n
    ensures Plain(s, acts) && At(Final(s, acts), capacity, n, 0, CapHaveDrop(target, n - target, 0))
    ensures CapStart(max, target) in acts
  {
    var pushes := PushMany(s, capacity, n);
    var s1 := Final(s, pushes);
    assert WrapSub(n, 0) == n;
    One(s1, CapStart(max, target));
    var s2 := Step(s1, CapStart(max, target));
    One(s2, CapLoadLen);
    var s3 := Step(s2, CapLoadLen);
    assert At(s3, capacity, n, 0, CapHaveDrop(target, n - target, 0));
    hide Legal, States, At, Step, Enabled;
    PlainConcat(s, pushes, [CapStart(max, target)]);
    PlainConcat(s, pushes + [CapStart(max, target)], [CapLoadLen]);
    acts := pushes + [CapStart(max, target)] + [CapLoadLen];
  }

  lemma PlainIsPaced(s: State, acts: seq<Action>)
    requires Init(s) && Shaped(s) && Plain(s, acts)
    ensures var run := States(s, acts);
      IsRun(run, acts) && forall i :: 0 <= i < |acts| ==> Paced(run[i], acts[i])
  {
    LegalIsRun(s, acts);
  }

  /** The exchange of `cap_latency` is next, `target + 1` pops after its measurement. */
  predicate Overrunning(s: State, target: nat) {
    && Shaped(s) && Enabled(s, CapCas) && s.producer.target == target
    && |s.fates| - s.producer.since == target + 1
    && |Step(s, CapCas).fates| > |Step(s, CapCas).pushed|
  }

  lemma Window(s: State, capacity: nat, n: nat, target: nat) returns (pops: seq<Action>)
    requires target < n < WORD && At(s, capacity, n, 0, CapHaveDrop(target, n - target, 0))
    ensures Plain(s, pops) && Legal(Final(s, pops), [CapLoadTail])
    ensures var s' := Final(Final(s, pops), [CapLoadTail]); Overrunning(s', target) && |s'.fates| < WORD
  {
    pops := PopMany(s, capacity, n, target + 1, CapHaveDrop(target, n - target, 0));
    var s2 := Final(s, pops);
    hide Legal, States;
    One(s2, CapLoadTail);
    var s3 := Step(s2, CapLoadTail);
    assert s3.producer == CapHaveTail(target, n - target, 0, target + 1);
  }

  lemma ShortRunIsDisciplined(run: seq<State>, acts: seq<Action>)
    requires IsRun(run, acts) && |run[|acts|].fates| < WORD
    requires forall i :: 0 <= i < |acts| ==> Paced(run[i], acts[i])
    ensures Disciplined(run, acts)
  {
    assert |run| == |acts| + 1;
    hide IsRun, Paced;
    forall i | 0 <= i < |acts| ensures Timely(run[i], acts[i]) {
      HistoryGrows(run, acts, i, |acts|);
    }
  }

  /** Whatever the limits, as long as they lie below the capacity: a disciplined run in which
      `target + 1` pops slip into the window of `cap_latency(max, target)`, whose exchange then
      moves the tail past the head. */
  lemma UnpacedRunOverruns(k: nat, max: nat, target: nat) returns (run: seq<State>, acts: seq<Action>)
    requires k < 64 && max < Pow2(k) && target < Pow2(k)
    ensures IsRun(run, acts) && Disciplined(run, acts) && run[0].capacity == Pow2(k)
    ensures CapStart(max, target) in acts && Overrunning(run[|acts|], target)
  {
    var capacity := Pow2(k);
    BelowWord(k);
    var n := 1 + if max < target then target else max;
    var s0 := State(capacity, seq(capacity, j => 0.0), 0, 0, Ready, map[7 := Idle], [], []);
    assert Init(s0) && At(s0, capacity, 0, 0, Ready);
    hide Legal, States, At, Pow2, Init, Plain, Overrunning, IsRun, Disciplined, Paced;
    var measured := Measured(s0, capacity, n, max, target);
    var pops := Window(Final(s0, measured), capacity, n, target);
    acts := Joined(s0, measured, pops, CapLoadTail);
    run := States(s0, acts);
    ShortRunIsDisciplined(run, acts);
  }

  lemma Joined(s: State, a: seq<Action>, b: seq<Action>, c: Action) returns (acts: seq<Action>)
    requires Init(s) && Shaped(s) && Plain(s, a) && Plain(Final(s, a), b) && !c.CapCas?
    requires Legal(Final(Final(s, a), b), [c])
    ensures Legal(s, acts) && Final(s, acts) == Final(Final(Final(s, a), b), [c])
    ensures forall x :: x in a ==> x in acts
    ensures var run := States(s, acts); IsRun(run, acts) && forall i :: 0 <= i < |acts| ==> Paced(run[i], acts[i])
  {
    hide Legal, States;
    PlainConcat(s, a, b);
    PlainConcat(s, a + b, [c]);
    acts := a + b + [c];
    PlainIsPaced(s, acts);
  }
}
