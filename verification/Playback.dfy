/**
 The audio output callback: it pops samples from the ring buffer, resamples them to the device
 rate, keeps what the device did not ask for in `leftover`, and fills an interleaved buffer.
 */
module Playback {
  import opened Arith
  import opened Resample
  import RingBuffer
  import opened Traffic

  /** `ceil(needed * net / rate) + 4`: how many network samples to fetch for `needed` frames. */
  function NetNeeded(needed: nat, net: nat, rate: nat): (n: nat)
    requires rate > 0
  {
    CeilDiv(Times(needed, net), rate) + 4
  }

  lemma CeilDivTight(a: nat, b: nat)
    requires b > 0
    ensures a <= Times(CeilDiv(a, b), b) < a + b
  {
    var q := CeilDiv(a, b);
    CeilDivBounds(a, b, q);
    if q > 0 {
      CeilDivBounds(a, b, q - 1);
      TimesSucc(q - 1, b);
    }
  }

  /** Four more than the fewest samples that last for `needed` frames at the network's rate. */
  lemma FetchIsFourMore(needed: nat, net: nat, rate: nat)
    requires rate > 0
    ensures var n := NetNeeded(needed, net, rate);
      n >= 4 && needed * net <= (n - 4) * rate && forall k: nat :: needed * net <= k * rate ==> n - 4 <= k
  {
    var n := NetNeeded(needed, net, rate);
    CeilDivTight(Times(needed, net), rate);
    assert Times(needed, net) == needed * net && Times(n - 4, rate) == (n - 4) * rate;
    forall k: nat | needed * net <= k * rate ensures n - 4 <= k {
      TimesSucc(k, rate);
      assert Times(k, rate) == k * rate;
      TimesOrder(n - 4, k + 1, rate);
    }
  }

  /** Fetching `NetNeeded(m)` samples yields at least `m` frames, whatever came before. */
  lemma FetchSuffices(net: nat, rate: nat, before: nat, m: nat)
    requires net > 0 && rate > 0
    ensures Outs(net, rate, before) + m <= Outs(net, rate, before + NetNeeded(m, net, rate))
  {
    hide Times, CeilDiv;
    var n := NetNeeded(m, net, rate);
    var k, k' := Outs(net, rate, before), Outs(net, rate, before + n);
    CeilDivTight(Times(before, rate), net);
    CeilDivTight(Times(before + n, rate), net);
    CeilDivTight(Times(m, net), rate);
    TimesSum(before, n, rate);
    TimesSum(CeilDiv(Times(m, net), rate), 4, rate);
    TimesSum(k, m, net);
    TimesSucc(k', net);
    TimesOrder(k + m, k' + 1, net);
  }

  lemma TimesOrder(a: nat, b: nat, c: nat)
    ensures Times(a, c) < Times(b, c) ==> a < b
  {
    if b <= a {
      TimesMonotone(b, a, c);
    }
  }

  /** Fetching at most that many leaves less than `5 * rate / net + 1` frames over. */
  lemma FetchIsModest(net: nat, rate: nat, before: nat, m: nat, n: nat, over: nat)
    requires net > 0 && rate > 0 && n <= NetNeeded(m, net, rate)
    requires Outs(net, rate, before + n) == Outs(net, rate, before) + m + over
    ensures Times(over, net) < 5 * rate + net
  {
    hide Times, CeilDiv;
    var k, c := Outs(net, rate, before), CeilDiv(Times(m, net), rate);
    CeilDivTight(Times(before, rate), net);
    CeilDivTight(Times(before + n, rate), net);
    CeilDivTight(Times(m, net), rate);
    TimesSum(before, n, rate);
    TimesMonotone(n, c + 4, rate);
    TimesSum(c, 4, rate);
    TimesSum(k, m, net);
    TimesSum(k + m, over, net);
    FourTimes(rate);
  }

  lemma FourTimes(r: nat)
    ensures Times(4, r) == 4 * r
  {
  }

  lemma SmallerIsModest(a: nat, b: nat, net: nat, bound: nat)
    requires a <= b && Times(b, net) < bound
    ensures Times(a, net) < bound
  {
    TimesMonotone(a, b, net);
  }

  /** What one callback takes from the ring: nothing if `leftover` covers the request. */
  function Taken(leftover: nat, frames: nat, queued: nat, net: nat, rate: nat): (n: nat)
    requires rate > 0
    ensures n <= queued
  {
    if leftover >= frames then 0
    else if NetNeeded(frames - leftover, net, rate) <= queued then NetNeeded(frames - leftover, net, rate)
    else queued
  }

  function At(stream: seq<Sample>, i: nat): (x: Sample) {
    if i < |stream| then stream[i] else 0.0
  }

  class Player {
    const ring: RingBuffer.AudioRingBuffer
    const resampler: Resampler
    var leftover: seq<Sample>
    ghost var played: nat

    ghost predicate Valid()
      reads this, ring, ring.buffer, resampler
    {
      && ring.Valid() && resampler.Valid()
      && var stream := Stream(resampler.src, resampler.dst, resampler.history);
      && played <= |stream| && leftover == stream[played..]
      && Times(|leftover|, resampler.src) < 5 * resampler.dst + resampler.src
    }

    constructor (ring: RingBuffer.AudioRingBuffer, netRate: nat, rate: nat)
      requires ring.Valid() && netRate > 0 && rate > 0
      ensures Valid() && this.ring == ring && fresh(resampler) && played == 0
      ensures resampler.src == netRate && resampler.dst == rate && resampler.history == []
    {
      this.ring := ring;
      resampler := new Resampler(netRate, rate);
      leftover, played := [], 0;
      new;
      EmptyStream(netRate, rate);
    }

    /** Pop up to `count` samples from the ring, while the network side goes on using it. */
    method Drain(count: nat, during: seq<seq<Arrival>>, ghost l: Ledger) returns (samples: seq<Sample>)
      requires ring.Valid() && l.queue == ring.Queue()
      modifies ring, ring.buffer
      ensures ring.Valid()
      ensures var l' := Drained(l, count, during, ring.capacity);
        l.taken + samples == l'.taken && ring.Queue() == l'.queue
    {
      hide *;
      samples := [];
      DrainNone(l, during, ring.capacity);
      for i := 0 to count
        invariant ring.Valid()
        invariant l.taken + samples == Drained(l, i, during, ring.capacity).taken
        invariant ring.Queue() == Drained(l, i, during, ring.capacity).queue
      {
        Deliver(ring, if i < |during| then during[i] else [], Drained(l, i, during, ring.capacity));
        DrainNext(l, i, during, ring.capacity);
        var r := ring.Pop();
        if r.Got? {
          samples := samples + [r.sample];
        }
      }
    }

    /** Top `leftover` up to `frames` frames, as far as the ring allows. */
    method Refill(frames: nat, during: seq<seq<Arrival>>, ghost l: Ledger)
      requires Valid() && |leftover| < frames && l.taken == resampler.history && l.queue == ring.Queue()
      modifies this`leftover, ring, ring.buffer, resampler
      ensures ring.Valid() && resampler.Valid()
      ensures var n := Taken(|old(leftover)|, frames, |l.queue|, resampler.src, resampler.dst);
        var l' := Drained(l, n, during, ring.capacity);
        resampler.history == l'.taken && ring.Queue() == l'.queue
      ensures var stream := Stream(resampler.src, resampler.dst, resampler.history);
        && played <= |stream| && leftover == stream[played..]
      ensures |leftover| > frames ==>
        Times(|leftover| - frames, resampler.src) < 5 * resampler.dst + resampler.src
    {
      hide Times, Stream, Outs, Drained;
      ghost var src, dst, h0 := resampler.src, resampler.dst, resampler.history;
      var needed := frames - |leftover|;
      var netNeeded := NetNeeded(needed, resampler.src, resampler.dst);
      var len := ring.Len();
      var drainCount := if netNeeded <= len then netNeeded else len;
      var netSamples := Drain(drainCount, during, l);
      DrainedAtMost(l, drainCount, during, ring.capacity);
      var resampled := resampler.Process(netSamples);
      leftover := leftover + resampled;
      StreamLength(src, dst, h0);
      StreamLength(src, dst, resampler.history);
      if |leftover| > frames {
        FetchIsModest(src, dst, |h0|, needed, |netSamples|, |leftover| - frames);
      }
    }

    /** The output callback: every frame is the next sample of the resampled stream, or silence
        once that stream has run dry; samples are played once each, in order. */
    method Callback(data: array<Sample>, channels: nat, during: seq<seq<Arrival>>, ghost l: Ledger)
      requires Valid() && channels > 0 && data != ring.buffer
      requires l.taken == resampler.history && l.queue == ring.Queue()
      modifies this, ring, ring.buffer, resampler, data
      ensures Valid()
      ensures Plays(Stream(resampler.src, resampler.dst, resampler.history), old(played), played, data[..], channels)
      ensures var n := Taken(|old(leftover)|, FrameCount(data.Length, channels), |l.queue|, resampler.src, resampler.dst);
        var l' := Drained(l, n, during, ring.capacity);
        resampler.history == l'.taken && ring.Queue() == l'.queue
    {
      hide Times, Stream, NetNeeded, FrameCount, Spread, Plays, Drained;
      DrainNone(l, during, ring.capacity);
      var frames := FrameCount(data.Length, channels);
      if frames == 0 {
        PlaysNothing(Stream(resampler.src, resampler.dst, resampler.history), played, data[..], channels);
        return;
      }
      if |leftover| < frames {
        Refill(frames, during, l);
        TimesZero(resampler.src);
      } else {
        SmallerIsModest(|leftover| - frames, |leftover|, resampler.src, 5 * resampler.dst + resampler.src);
      }
      PlayOut(data, channels, frames);
    }

    /** Fill the buffer from `leftover` and drop what was played. */
    method PlayOut(data: array<Sample>, channels: nat, frames: nat)
      requires resampler.src > 0 && resampler.dst > 0 && channels > 0 && frames == FrameCount(data.Length, channels)
      requires var stream := Stream(resampler.src, resampler.dst, resampler.history);
        played <= |stream| && leftover == stream[played..]
      modifies this`leftover, this`played, data
      ensures var stream := Stream(resampler.src, resampler.dst, resampler.history);
        && Plays(stream, old(played), played, data[..], channels)
        && played <= |stream| && leftover == stream[played..]
      ensures |leftover| == (if frames <= |old(leftover)| then |old(leftover)| - frames else 0)
      ensures played == old(played) + |old(leftover)| - |leftover|
    {
      hide Times, Stream, FrameCount, Spread;
      Fill(data, channels, frames, leftover);
      var drainLen := if frames <= |leftover| then frames else |leftover|;
      leftover := leftover[drainLen..];
      played := played + drainLen;
    }
  }

  // ---------------------------------------------------------------- interleaving

  /** The buffer holds the next frames of the stream from position `p0` on, then silence; the play
      position moves on by as many as there were. */
  predicate Plays(stream: seq<Sample>, p0: nat, p1: nat, cells: seq<Sample>, channels: nat)
    requires channels > 0
  {
    var frames := FrameCount(|cells|, channels);
    && p0 <= |stream| && Spread(cells, Times(frames, channels), channels, stream[p0..])
    && p1 == (if p0 + frames <= |stream| then p0 + frames else |stream|)
  }

  /** Cell by cell: the stream from the play position on, every sample in each channel of its frame,
      then zeros. */
  lemma PlaysCells(stream: seq<Sample>, p0: nat, p1: nat, cells: seq<Sample>, channels: nat, j: nat)
    requires channels > 0 && Plays(stream, p0, p1, cells, channels) && j < |cells| / channels * channels
    ensures j < |cells| && p0 <= p1 <= |stream|
    ensures p0 + j / channels < |stream| ==> cells[j] == stream[p0 + j / channels]
    ensures p0 + j / channels >= |stream| ==> cells[j] == 0.0
  {
    assert Times(FrameCount(|cells|, channels), channels) == |cells| / channels * channels;
    hide Times;
  }

  lemma PlaysNothing(stream: seq<Sample>, p: nat, cells: seq<Sample>, channels: nat)
    requires channels > 0 && FrameCount(|cells|, channels) == 0 && p <= |stream|
    ensures Plays(stream, p, p, cells, channels)
  {
    TimesZero(channels);
  }

  function FrameCount(cells: nat, channels: nat): (n: nat)
    requires channels > 0
  {
    cells / channels
  }

  /** The first `n` cells hold frame after frame, each sample repeated once per channel, with
      silence where the source has no sample. */
  predicate Spread(cells: seq<Sample>, n: nat, channels: nat, source: seq<Sample>)
    requires channels > 0
  {
    n <= |cells| && forall j :: 0 <= j < n ==> cells[j] == At(source, j / channels)
  }

  lemma TimesZero(c: nat)
    ensures Times(0, c) == 0
  {
  }

  /** Cell `f * channels + c` belongs to frame `f` and lies inside the buffer. */
  lemma CellOfFrame(f: nat, c: nat, frames: nat, channels: nat, length: nat)
    requires f < frames && c < channels && frames == FrameCount(length, channels)
    ensures (Times(f, channels) + c) / channels == f
    ensures Times(f, channels) + c < length
  {
    DivModUnique(Times(f, channels) + c, channels, f, c);
    hide Times;
    DivisionOf(length, channels);
    TimesMonotone(f + 1, frames, channels);
    TimesSucc(f, channels);
  }

  /** The nested loops that spread each frame's sample over all channels. */
  method Fill(data: array<Sample>, channels: nat, frames: nat, source: seq<Sample>)
    requires channels > 0 && frames == FrameCount(data.Length, channels)
    modifies data
    ensures Spread(data[..], Times(frames, channels), channels, source)
    ensures forall j :: Times(frames, channels) <= j < data.Length ==> data[j] == old(data[j])
  {
    hide Times;
    TimesZero(channels);
    for f := 0 to frames
      invariant Spread(data[..], Times(f, channels), channels, source)
      invariant forall j :: Times(f, channels) <= j < data.Length ==> data[j] == old(data[j])
    {
      var sample := At(source, f);
      for c := 0 to channels
        invariant Spread(data[..], Times(f, channels) + c, channels, source)
        invariant forall j :: Times(f, channels) + c <= j < data.Length ==> data[j] == old(data[j])
      {
        CellOfFrame(f, c, frames, channels, data.Length);
        data[Times(f, channels) + c] := sample;
      }
      TimesSucc(f, channels);
    }
  }

  lemma DrainNone(l: Ledger, during: seq<seq<Arrival>>, capacity: nat)
    ensures Drained(l, 0, during, capacity) == l
  {
  }

  lemma DrainNext(l: Ledger, i: nat, during: seq<seq<Arrival>>, capacity: nat)
    ensures var l1 := Drained(l, i, during, capacity);
      var l2 := ArriveAll(l1, if i < |during| then during[i] else [], capacity);
      var l' := Drained(l, i + 1, during, capacity);
      && (l2.queue == [] ==> l'.taken == l1.taken && l'.queue == [])
      && (l2.queue != [] ==> l'.taken == l1.taken + [l2.queue[0]] && l'.queue == l2.queue[1..])
  {
    ArriveAllConserves(Drained(l, i, during, capacity), Before(during, i), capacity);
    hide ArriveAll;
  }
}
