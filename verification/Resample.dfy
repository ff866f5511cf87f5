/**
 The streaming linear resampler in exact arithmetic. Positions are integers in units of
 1/dst input samples: one output advances by `src`, one input sample is worth `dst`.
 */
module Resample {
  import opened Arith

  type Sample = real

  datatype Last = NoSample | LastSample(value: Sample)

  // ---------------------------------------------------------------- arithmetic

  /** A product under a name, so that proofs can treat it as one term. */
  function Times(a: nat, b: nat): (r: nat) {
    a * b
  }

  lemma TimesSum(a: nat, b: nat, c: nat)
    ensures Times(a + b, c) == Times(a, c) + Times(b, c)
  {
  }

  lemma TimesSucc(a: nat, c: nat)
    ensures Times(a + 1, c) == Times(a, c) + c
  {
  }

  lemma TimesMonotone(a: nat, b: nat, c: nat)
    requires a <= b
    ensures Times(a, c) <= Times(b, c)
  {
    TimesSum(a, b - a, c);
  }

  lemma DivisionOf(x: nat, c: nat)
    requires c > 0
    ensures x == Times(x / c, c) + x % c
  {
  }

  function CeilDiv(a: nat, b: nat): (r: nat)
    requires b > 0
  {
    (a + b - 1) / b
  }

  lemma CeilDivBounds(a: nat, b: nat, k: nat)
    requires b > 0
    ensures k < CeilDiv(a, b) <==> Times(k, b) < a
  {
    var q := CeilDiv(a, b);
    DivisionOf(a + b - 1, b);
    if k < q {
      TimesMonotone(k + 1, q, b);
      TimesSucc(k, b);
    } else {
      TimesMonotone(q, k, b);
    }
  }

  // ---------------------------------------------------------------- the ideal signal

  /** How many outputs `n` inputs yield in all: one for every multiple of `src` below `n * dst`. */
  function Outs(src: nat, dst: nat, n: nat): (r: nat)
    requires src > 0
  {
    CeilDiv(Times(n, dst), src)
  }

  lemma OutsBounds(src: nat, dst: nat, n: nat, k: nat)
    requires src > 0
    ensures k < Outs(src, dst, n) <==> Times(k, src) < Times(n, dst)
  {
    CeilDivBounds(Times(n, dst), src, k);
  }

  /** An output position below the end of the input falls on one of its samples. */
  lemma IndexInRange(src: nat, dst: nat, n: nat, k: nat)
    requires src > 0 && dst > 0 && Times(k, src) < Times(n, dst)
    ensures Times(k, src) / dst < n
  {
    hide Times;
    var i := Times(k, src) / dst;
    DivisionOf(Times(k, src), dst);
    if i >= n {
      TimesMonotone(n, i, dst);
    }
  }

  function Blend(s0: Sample, s1: Sample, part: nat, whole: nat): (x: Sample)
    requires whole > 0
  {
    var frac := part as real / whole as real;
    s0 * (1.0 - frac) + s1 * frac
  }

  /** Output `k` of an unbroken signal: linear interpolation at input position `k * src / dst`,
      between that input and the one before it. */
  function Ideal(src: nat, dst: nat, xs: seq<Sample>, k: nat): (x: Sample)
    requires src > 0 && dst > 0 && Times(k, src) < Times(|xs|, dst)
  {
    IndexInRange(src, dst, |xs|, k);
    var i := Times(k, src) / dst;
    Blend(if i == 0 then xs[0] else xs[i - 1], xs[i], Times(k, src) % dst, dst)
  }

  /** The first `m` ideal outputs. */
  function Signal(src: nat, dst: nat, xs: seq<Sample>, m: nat): (out: seq<Sample>)
    requires src > 0 && dst > 0 && m <= Outs(src, dst, |xs|)
    ensures |out| == m
  {
    if m == 0 then [] else
      OutsBounds(src, dst, |xs|, m - 1);
      Signal(src, dst, xs, m - 1) + [Ideal(src, dst, xs, m - 1)]
  }

  /** All that a resampler emits for the input `xs`; equal rates pass samples through. */
  function Stream(src: nat, dst: nat, xs: seq<Sample>): (out: seq<Sample>)
    requires src > 0 && dst > 0
  {
    if src == dst then xs else Signal(src, dst, xs, Outs(src, dst, |xs|))
  }

  /** No drift: N inputs give ceil(N * dst / src) outputs, at any rates, and equal rates change nothing. */
  lemma StreamLength(src: nat, dst: nat, xs: seq<Sample>)
    requires src > 0 && dst > 0
    ensures |Stream(src, dst, xs)| == Outs(src, dst, |xs|)
    ensures src == dst ==> Stream(src, dst, xs) == xs
  {
    if src == dst {
      OutsBounds(src, src, |xs|, |xs|);
      if |xs| > 0 {
        OutsBounds(src, src, |xs|, |xs| - 1);
        TimesSucc(|xs| - 1, src);
      }
    }
  }

  lemma EmptyStream(src: nat, dst: nat)
    requires src > 0 && dst > 0
    ensures Stream(src, dst, []) == []
  {
    OutsBounds(src, dst, 0, 0);
  }

  lemma {:induction false} SignalExtends(src: nat, dst: nat, xs: seq<Sample>, ys: seq<Sample>, m: nat)
    requires src > 0 && dst > 0 && m <= Outs(src, dst, |xs|) && m <= Outs(src, dst, |xs + ys|)
    ensures Signal(src, dst, xs + ys, m) == Signal(src, dst, xs, m)
    decreases m
  {
    if m > 0 {
      SignalExtends(src, dst, xs, ys, m - 1);
      OutsBounds(src, dst, |xs|, m - 1);
      IndexInRange(src, dst, |xs|, m - 1);
    }
  }

  lemma OutsMonotone(src: nat, dst: nat, m: nat, n: nat)
    requires src > 0 && m <= n
    ensures Outs(src, dst, m) <= Outs(src, dst, n)
  {
    hide Times, Outs;
    var k := Outs(src, dst, n);
    OutsBounds(src, dst, n, k);
    OutsBounds(src, dst, m, k);
    TimesMonotone(m, n, dst);
  }

  lemma {:induction false} SignalPrefix(src: nat, dst: nat, xs: seq<Sample>, m: nat, n: nat)
    requires src > 0 && dst > 0 && m <= n <= Outs(src, dst, |xs|)
    ensures Signal(src, dst, xs, m) <= Signal(src, dst, xs, n)
    decreases n
  {
    if m < n {
      SignalPrefix(src, dst, xs, m, n - 1);
    }
  }

  /** More input never changes what was already emitted. */
  lemma StreamExtends(src: nat, dst: nat, xs: seq<Sample>, ys: seq<Sample>)
    requires src > 0 && dst > 0
    ensures Stream(src, dst, xs) <= Stream(src, dst, xs + ys)
  {
    if src != dst {
      var m, n := Outs(src, dst, |xs|), Outs(src, dst, |xs + ys|);
      OutsMonotone(src, dst, |xs|, |xs + ys|);
      SignalExtends(src, dst, xs, ys, m);
      SignalPrefix(src, dst, xs + ys, m, n);
    }
  }

  // ---------------------------------------------------------------- which value an output has

  lemma {:induction false} SignalAt(src: nat, dst: nat, xs: seq<Sample>, m: nat, k: nat)
    requires src > 0 && dst > 0 && k < m <= Outs(src, dst, |xs|)
    ensures Times(k, src) < Times(|xs|, dst) && Signal(src, dst, xs, m)[k] == Ideal(src, dst, xs, k)
    decreases m
  {
    OutsBounds(src, dst, |xs|, k);
    if k < m - 1 {
      SignalAt(src, dst, xs, m - 1, k);
    }
  }

  /** The position of output `k`, in input samples. */
  function Position(src: nat, dst: nat, k: nat): (p: real)
    requires dst > 0
  {
    Times(k, src) as real / dst as real
  }

  lemma OutputAt(src: nat, dst: nat, xs: seq<Sample>, k: nat)
    requires src > 0 && dst > 0 && src != dst && k < |Stream(src, dst, xs)|
    ensures Times(k, src) < Times(|xs|, dst) && Stream(src, dst, xs)[k] == Ideal(src, dst, xs, k)
    ensures Times(k, src) / dst < |xs|
  {
    SignalAt(src, dst, xs, Outs(src, dst, |xs|), k);
    IndexInRange(src, dst, |xs|, k);
  }

  lemma TimesAsReal(a: nat, b: nat)
    requires b > 0
    ensures Times(a, b) as real == a as real * b as real && (a as real * b as real) / b as real == a as real
  {
  }

  /** The input sample an output's position falls on, and how far beyond it. */
  function Whole(src: nat, dst: nat, k: nat): (i: nat)
    requires dst > 0
  {
    Times(k, src) / dst
  }

  function Beyond(src: nat, dst: nat, k: nat): (frac: real)
    requires dst > 0
  {
    (Times(k, src) % dst) as real / dst as real
  }

  function Prior(i: nat): (j: nat) {
    if i == 0 then 0 else i - 1
  }

  function Mix(s0: real, s1: real, frac: real): (x: real) {
    s0 * (1.0 - frac) + s1 * frac
  }

  lemma PositionSplits(src: nat, dst: nat, k: nat)
    requires dst > 0
    ensures Position(src, dst, k) == Whole(src, dst, k) as real + Beyond(src, dst, k)
    ensures 0.0 <= Beyond(src, dst, k) < 1.0
  {
    var n := Times(k, src);
    var i, part := n / dst, n % dst;
    DivisionOf(n, dst);
    assert n as real == (Times(i, dst) + part) as real == Times(i, dst) as real + part as real;
    TimesAsReal(i, dst);
  }

  lemma IdealIsMix(src: nat, dst: nat, xs: seq<Sample>, k: nat)
    requires src > 0 && dst > 0 && Times(k, src) < Times(|xs|, dst)
    ensures Whole(src, dst, k) < |xs|
    ensures Ideal(src, dst, xs, k) == Mix(xs[Prior(Whole(src, dst, k))], xs[Whole(src, dst, k)], Beyond(src, dst, k))
  {
    hide Times;
    IndexInRange(src, dst, |xs|, k);
  }

  lemma OutputIsMix(src: nat, dst: nat, xs: seq<Sample>, k: nat)
    requires src > 0 && dst > 0 && src != dst && k < |Stream(src, dst, xs)|
    ensures var i, frac := Whole(src, dst, k), Beyond(src, dst, k);
      && i < |xs| && 0.0 <= frac < 1.0 && Position(src, dst, k) == i as real + frac
      && Stream(src, dst, xs)[k] == Mix(xs[Prior(i)], xs[i], frac)
  {
    hide Stream, Whole, Beyond, Position, Mix, Times, Ideal;
    OutputAt(src, dst, xs, k);
    PositionSplits(src, dst, k);
    IdealIsMix(src, dst, xs, k);
  }

  /** Linear interpolation reproduces a straight line, one sample late: at position p >= 1 the output
      is the line's value at p - 1, and before that it is the first sample. */
  lemma LineIsReproduced(src: nat, dst: nat, xs: seq<Sample>, a: real, b: real, k: nat)
    requires src > 0 && dst > 0 && src != dst && k < |Stream(src, dst, xs)|
    requires forall i :: 0 <= i < |xs| ==> xs[i] == Line(a, b, i as real)
    ensures Stream(src, dst, xs)[k] == if Position(src, dst, k) >= 1.0 then Line(a, b, Position(src, dst, k) - 1.0) else a
  {
    OutputIsMix(src, dst, xs, k);
    hide Stream, Whole, Beyond, Position, Mix, Line;
    var i, frac := Whole(src, dst, k), Beyond(src, dst, k);
    if i > 0 {
      LineMix(a, b, i, frac);
    } else {
      SameMix(a, b, frac);
    }
  }

  /** A straight line. */
  function Line(a: real, b: real, p: real): (y: real) {
    a + b * p
  }

  lemma LineMix(a: real, b: real, i: nat, frac: real)
    requires i > 0
    ensures Mix(Line(a, b, (i - 1) as real), Line(a, b, i as real), frac) == Line(a, b, i as real + frac - 1.0)
  {
  }

  lemma SameMix(a: real, b: real, frac: real)
    ensures Mix(Line(a, b, 0 as real), Line(a, b, 0 as real), frac) == a
  {
  }

  /** Where an output falls on a whole input position, it is the sample before that position. */
  lemma WholePositionIsSample(src: nat, dst: nat, xs: seq<Sample>, k: nat, i: nat)
    requires src > 0 && dst > 0 && src != dst && k < |Stream(src, dst, xs)| && Times(k, src) == Times(i, dst) && i > 0
    ensures i < |xs| && Stream(src, dst, xs)[k] == xs[i - 1]
  {
    OutputAt(src, dst, xs, k);
    DivModUnique(Times(k, src), dst, i, 0);
  }

  /** Every output lies between the sample at its position and the one before it. */
  lemma OutputIsBetween(src: nat, dst: nat, xs: seq<Sample>, k: nat)
    requires src > 0 && dst > 0 && src != dst && k < |Stream(src, dst, xs)|
    ensures Whole(src, dst, k) < |xs|
    ensures var i, x := Whole(src, dst, k), Stream(src, dst, xs)[k];
      xs[Prior(i)] <= x <= xs[i] || xs[i] <= x <= xs[Prior(i)]
  {
    OutputIsMix(src, dst, xs, k);
    hide Stream, Whole, Beyond, Position, Mix;
    var i, frac := Whole(src, dst, k), Beyond(src, dst, k);
    MixIsBetween(xs[Prior(i)], xs[i], frac);
  }

  lemma MixIsBetween(s0: real, s1: real, frac: real)
    requires 0.0 <= frac <= 1.0
    ensures s0 <= Mix(s0, s1, frac) <= s1 || s1 <= Mix(s0, s1, frac) <= s0
  {
    var x := Mix(s0, s1, frac);
    assert x - s0 == (s1 - s0) * frac && s1 - x == (s1 - s0) * (1.0 - frac);
    if s1 >= s0 {
      Scaled(s1 - s0, frac);
      Scaled(s1 - s0, 1.0 - frac);
    } else {
      Scaled(s0 - s1, frac);
      Scaled(s0 - s1, 1.0 - frac);
      assert (s0 - s1) * frac == -((s1 - s0) * frac) && (s0 - s1) * (1.0 - frac) == -((s1 - s0) * (1.0 - frac));
    }
  }

  lemma Scaled(d: real, frac: real)
    requires d >= 0.0 && frac >= 0.0
    ensures d * frac >= 0.0
  {
  }

  // ---------------------------------------------------------------- one chunk of the signal

  /** Local position `cur` of an output, seen from a chunk that starts `n0` samples in. */
  lemma LocalPosition(pos: nat, dst: nat, n0: nat, cur: nat)
    requires dst > 0 && cur == pos - Times(n0, dst)
    ensures cur / dst == pos / dst - n0 && cur % dst == pos % dst
  {
    var i, r := pos / dst, pos % dst;
    assert dst * (i - n0) == dst * i - dst * n0;
    DivModUnique(cur, dst, i - n0, r);
  }

  /** What the loop computes from one chunk and the sample before it is the ideal output. */
  lemma LocalIsIdeal(src: nat, dst: nat, before: seq<Sample>, input: seq<Sample>, k: nat, cur: nat)
    requires src > 0 && dst > 0 && input != [] && cur == Times(k, src) - Times(|before|, dst)
    requires Times(k, src) < Times(|before + input|, dst)
    ensures cur / dst < |input|
    ensures var prev := if before == [] then input[0] else before[|before| - 1];
      var i := cur / dst;
      Blend(if i == 0 then prev else input[i - 1], input[i], cur % dst, dst) == Ideal(src, dst, before + input, k)
  {
    hide Times, Blend;
    IndexInRange(src, dst, |before + input|, k);
    LocalPosition(Times(k, src), dst, |before|, cur);
  }

  lemma SignalNext(src: nat, dst: nat, xs: seq<Sample>, k: nat)
    requires src > 0 && dst > 0 && k < Outs(src, dst, |xs|) && Times(k, src) < Times(|xs|, dst)
    ensures Signal(src, dst, xs, k + 1) == Signal(src, dst, xs, k) + [Ideal(src, dst, xs, k)]
  {
  }

  // ---------------------------------------------------------------- the object

  class Resampler {
    const src: nat
    const dst: nat
    var phase: int
    var lastSample: Last
    ghost var history: seq<Sample>

    ghost predicate Valid()
      reads this
    {
      && src > 0 && dst > 0
      && phase == (if src == dst then 0 else Times(Outs(src, dst, |history|), src) - Times(|history|, dst))
      && lastSample == (if history == [] then NoSample else LastSample(history[|history| - 1]))
    }

    constructor (srcRate: nat, dstRate: nat)
      requires srcRate > 0 && dstRate > 0
      ensures Valid() && history == [] && src == srcRate && dst == dstRate
    {
      src, dst, phase, lastSample, history := srcRate, dstRate, 0, NoSample, [];
      OutsBounds(srcRate, dstRate, 0, 0);
    }

    /** The stored phase always lies in [0, step). */
    lemma PhaseInRange()
      requires Valid()
      ensures 0 <= phase < src
    {
      hide Times, Outs;
      if src != dst {
        var k := Outs(src, dst, |history|);
        OutsBounds(src, dst, |history|, k);
        if k > 0 {
          OutsBounds(src, dst, |history|, k - 1);
          TimesSucc(k - 1, src);
        } else {
          TimesSucc(0, src);
          TimesSum(0, 0, src);
        }
      }
    }

    /** `process`: emits exactly the part of the ideal stream that the new input completes. */
    method Process(input: seq<Sample>) returns (output: seq<Sample>)
      requires Valid()
      modifies this
      ensures Valid() && history == old(history) + input
      ensures Stream(src, dst, old(history)) + output == Stream(src, dst, history)
    {
      if input == [] {
        assert history + input == history;
        return [];
      }
      if src == dst {
        lastSample := LastSample(input[|input| - 1]);
        history := history + input;
        return input;
      }
      output := Interpolate(input);
    }

    method Interpolate(input: seq<Sample>) returns (output: seq<Sample>)
      requires Valid() && input != [] && src != dst
      modifies this
      ensures Valid() && history == old(history) + input
      ensures Stream(src, dst, old(history)) + output == Stream(src, dst, history)
    {
      hide Times, Outs, Signal;
      var prev := if lastSample.LastSample? then lastSample.value else input[0];
      PhaseInRange();
      var rest;
      output, rest := InterpolateChunk(src, dst, phase, prev, input, history);
      phase := if rest < 0 then 0 else rest;
      lastSample := LastSample(input[|input| - 1]);
      history := history + input;
    }
  }

  /** The loop of `process`. Returns how far the next position lies beyond this chunk. */
  method InterpolateChunk(src: nat, dst: nat, phase: int, prev: Sample, input: seq<Sample>, ghost before: seq<Sample>)
    returns (output: seq<Sample>, rest: int)
    requires src > 0 && dst > 0 && input != [] && 0 <= phase
    requires phase == Times(Outs(src, dst, |before|), src) - Times(|before|, dst)
    requires prev == if before == [] then input[0] else before[|before| - 1]
    ensures rest >= 0 && rest == Times(Outs(src, dst, |before + input|), src) - Times(|before + input|, dst)
    ensures Signal(src, dst, before, Outs(src, dst, |before|)) + output
         == Signal(src, dst, before + input, Outs(src, dst, |before + input|))
  {
    hide Times, Outs, Signal, Ideal, Blend;
    var limit := Times(|input|, dst);
    ghost var xs, n0 := before + input, |before|;
    ghost var k0, n := Outs(src, dst, n0), Outs(src, dst, |xs|);
    TimesSum(n0, |input|, dst);
    TimesSum(0, 0, src);
    OutsMonotone(src, dst, n0, |xs|);
    SignalExtends(src, dst, before, input, k0);
    output := [];
    var outIdx := 0;
    var current := phase + Times(outIdx, src);
    while current < limit
      invariant outIdx == |output| && current == phase + Times(outIdx, src)
      invariant current == Times(k0 + outIdx, src) - Times(n0, dst) && current >= 0
      invariant k0 + outIdx <= n
      invariant Signal(src, dst, before, k0) + output == Signal(src, dst, xs, k0 + outIdx)
      decreases limit - current
    {
      ghost var k := k0 + outIdx;
      OutsBounds(src, dst, |xs|, k);
      LocalIsIdeal(src, dst, before, input, k, current);
      var idx := current / dst;
      var s0 := if idx == 0 then prev else input[idx - 1];
      var s1 := input[idx];
      SignalNext(src, dst, xs, k);
      output := output + [Blend(s0, s1, current % dst, dst)];
      TimesSucc(outIdx, src);
      TimesSucc(k, src);
      outIdx := outIdx + 1;
      current := phase + Times(outIdx, src);
    }
    OutsBounds(src, dst, |xs|, k0 + outIdx);
    rest := current - limit;
  }

  // ---------------------------------------------------------------- streaming equals batch

  function Concat(chunks: seq<seq<Sample>>): (xs: seq<Sample>) {
    if chunks == [] then [] else Concat(chunks[..|chunks| - 1]) + chunks[|chunks| - 1]
  }

  /** However the input is cut into chunks, the concatenated outputs of the calls are what the whole
      input adds to the ideal stream. */
  method ResampleChunks(r: Resampler, chunks: seq<seq<Sample>>) returns (out: seq<Sample>)
    requires r.Valid()
    modifies r
    ensures r.Valid() && r.history == old(r.history) + Concat(chunks)
    ensures Stream(r.src, r.dst, old(r.history)) + out == Stream(r.src, r.dst, r.history)
  {
    hide Stream;
    out := [];
    for i := 0 to |chunks|
      invariant r.Valid() && r.history == old(r.history) + Concat(chunks[..i])
      invariant Stream(r.src, r.dst, old(r.history)) + out == Stream(r.src, r.dst, r.history)
    {
      assert chunks[..i + 1][..i] == chunks[..i];
      var o := r.Process(chunks[i]);
      out := out + o;
    }
    assert chunks[..|chunks|] == chunks;
  }

  /** Two resamplers in the same state, one fed chunk by chunk and the other in one call, emit the
      same samples and end in the same state. */
  method StreamingEqualsBatch(r1: Resampler, r2: Resampler, chunks: seq<seq<Sample>>)
    returns (streamed: seq<Sample>, batch: seq<Sample>)
    requires r1 != r2 && r1.Valid() && r2.Valid()
    requires r1.src == r2.src && r1.dst == r2.dst && r1.history == r2.history
    modifies r1, r2
    ensures r1.Valid() && r2.Valid() && streamed == batch
    ensures r1.history == r2.history == old(r1.history) + Concat(chunks)
    ensures r1.phase == r2.phase && r1.lastSample == r2.lastSample
    ensures Stream(r1.src, r1.dst, old(r1.history)) + streamed == Stream(r1.src, r1.dst, r1.history)
  {
    ghost var before := Stream(r1.src, r1.dst, r1.history);
    streamed := ResampleChunks(r1, chunks);
    batch := r2.Process(Concat(chunks));
    hide Stream, Concat;
    assert (before + streamed)[|before|..] == streamed && (before + batch)[|before|..] == batch;
  }
}
