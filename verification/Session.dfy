/**
 Whole playback sessions: any sequence of arrivals and output callbacks, with buffers of any sizes
 and traffic between the pops of a callback.
 */
module Session {
  import opened Resample
  import opened Traffic
  import opened Playback

  /** One turn: what arrives before the callback, what arrives before each of its pops, and how many
      cells the device asks for. */
  datatype Turn = Turn(before: seq<Arrival>, during: seq<seq<Arrival>>, cells: nat)

  datatype Setup = Setup(capacity: nat, src: nat, dst: nat, channels: nat)

  /** The ledger of the ring, whose `taken` is all the resampler was ever fed, and the position in
      the resampled stream up to which frames were played. */
  datatype Model = Model(ledger: Ledger, played: nat)

  predicate Sane(s: Setup) {
    s.src > 0 && s.dst > 0 && s.channels > 0
  }

  function StreamOf(s: Setup, m: Model): (stream: seq<Sample>)
    requires Sane(s)
  {
    Stream(s.src, s.dst, m.ledger.taken)
  }

  predicate Sound(s: Setup, m: Model) {
    Sane(s) && m.played <= |StreamOf(s, m)|
  }

  /** What is there when the callback starts. */
  function Ready(s: Setup, m: Model, turn: Turn): (l: Ledger) {
    ArriveAll(m.ledger, turn.before, s.capacity)
  }

  /** How many pops the callback makes. */
  function Pops(s: Setup, m: Model, turn: Turn): (n: nat)
    requires Sound(s, m)
  {
    Taken(|StreamOf(s, m)| - m.played, FrameCount(turn.cells, s.channels), |Ready(s, m, turn).queue|, s.src, s.dst)
  }

  function AfterTurn(s: Setup, m: Model, turn: Turn): (m': Model)
    requires Sound(s, m)
  {
    var l := Drained(Ready(s, m, turn), Pops(s, m, turn), turn.during, s.capacity);
    var frames, len := FrameCount(turn.cells, s.channels), |Stream(s.src, s.dst, l.taken)|;
    Model(l, if m.played + frames <= len then m.played + frames else len)
  }

  lemma TurnSound(s: Setup, m: Model, turn: Turn)
    requires Sound(s, m)
    ensures Sound(s, AfterTurn(s, m, turn))
  {
  }

  /** The session after its first `n` turns. */
  function ModelAt(s: Setup, m: Model, turns: seq<Turn>, n: nat): (m': Model)
    requires Sound(s, m) && n <= |turns|
    ensures Sound(s, m')
  {
    if n == 0 then m else
      var m1 := ModelAt(s, m, turns, n - 1);
      TurnSound(s, m1, turns[n - 1]);
      AfterTurn(s, m1, turns[n - 1])
  }

  /** All that arrived in the first `n` turns. */
  function ArrivedBy(s: Setup, m: Model, turns: seq<Turn>, n: nat): (arrivals: seq<Arrival>)
    requires Sound(s, m) && n <= |turns|
  {
    if n == 0 then [] else
      var m1, turn := ModelAt(s, m, turns, n - 1), turns[n - 1];
      ArrivedBy(s, m, turns, n - 1) + (turn.before + UpTo(turn.during, Pops(s, m1, turn)))
  }

  // ---------------------------------------------------------------- conservation

  lemma TurnConserves(s: Setup, m: Model, turn: Turn)
    requires Sound(s, m)
    ensures Conserves(m.ledger, AfterTurn(s, m, turn).ledger, Samples(turn.before + UpTo(turn.during, Pops(s, m, turn))))
  {
    var l1, n := Ready(s, m, turn), Pops(s, m, turn);
    var l2 := Drained(l1, n, turn.during, s.capacity);
    ArriveAllConserves(m.ledger, turn.before, s.capacity);
    hide Conserves, Samples, Stream;
    DrainedConserves(l1, n, turn.during, s.capacity);
    SamplesConcat(turn.before, UpTo(turn.during, n));
    ConservesChain(m.ledger, l1, l2, Samples(turn.before), Samples(UpTo(turn.during, n)));
  }

  /** Nothing that arrives appears twice or vanishes: at any time it has been taken, is waiting, or
      was dropped; and if nothing was dropped, what was taken and what waits are, in order, what
      there was at first and what arrived. */
  lemma {:induction false} SessionConserves(s: Setup, m: Model, turns: seq<Turn>, n: nat)
    requires Sound(s, m) && n <= |turns|
    ensures Conserves(m.ledger, ModelAt(s, m, turns, n).ledger, Samples(ArrivedBy(s, m, turns, n)))
  {
    hide Conserves, AfterTurn, Sound, Pops, UpTo;
    if n == 0 {
      ConservesNothing(m.ledger);
    } else {
      hide Samples;
      var m1, turn, before := ModelAt(s, m, turns, n - 1), turns[n - 1], ArrivedBy(s, m, turns, n - 1);
      var m2, new' := AfterTurn(s, m1, turn), turn.before + UpTo(turn.during, Pops(s, m1, turn));
      assert ModelAt(s, m, turns, n) == m2 && ArrivedBy(s, m, turns, n) == before + new';
      hide *;
      SessionConserves(s, m, turns, n - 1);
      TurnConserves(s, m1, turn);
      SamplesConcat(before, new');
      ConservesChain(m.ledger, m1.ledger, m2.ledger, Samples(before), Samples(new'));
    }
  }

  // ---------------------------------------------------------------- no padding

  /** The leftover covers the request, or the ring holds `net_needed` samples and no latency cap can
      take them away during the callback. */
  predicate Supplied(s: Setup, m: Model, turn: Turn)
    requires Sound(s, m)
  {
    var left, frames := |StreamOf(s, m)| - m.played, FrameCount(turn.cells, s.channels);
    || left >= frames
    || (var need := NetNeeded(frames - left, s.src, s.dst);
        need <= |Ready(s, m, turn).queue| && (need <= TARGET_LATENCY || NoCaps(turn.during)))
  }

  /** Then every frame of the buffer is a sample of the stream: no silence is inserted. */
  lemma NoPadding(s: Setup, m: Model, turn: Turn)
    requires Sound(s, m) && Supplied(s, m, turn)
    ensures AfterTurn(s, m, turn).played == m.played + FrameCount(turn.cells, s.channels)
  {
    hide Times, Outs, NetNeeded, FrameCount, ArriveAll, Stream;
    var left, frames, l := |StreamOf(s, m)| - m.played, FrameCount(turn.cells, s.channels), Ready(s, m, turn);
    var n := Pops(s, m, turn);
    var l' := Drained(l, n, turn.during, s.capacity);
    ArriveAllConserves(m.ledger, turn.before, s.capacity);
    StreamLength(s.src, s.dst, l.taken);
    StreamLength(s.src, s.dst, l'.taken);
    if left < frames {
      EveryPopSucceeds(l, n, n, turn.during, s.capacity);
      FetchSuffices(s.src, s.dst, |l.taken|, frames - left);
    }
  }

  /** Exactly when a turn plays no silence: the samples already taken and those that its pops find
      resample to enough frames. */
  lemma NoPaddingExactly(s: Setup, m: Model, turn: Turn)
    requires Sound(s, m)
    ensures AfterTurn(s, m, turn).played == m.played + FrameCount(turn.cells, s.channels) <==>
      m.played + FrameCount(turn.cells, s.channels)
        <= Outs(s.src, s.dst, |m.ledger.taken| + Succeeding(Ready(s, m, turn), Pops(s, m, turn), turn.during, s.capacity))
  {
    hide Outs, FrameCount, ArriveAll, Stream, Taken;
    var l, n := Ready(s, m, turn), Pops(s, m, turn);
    ArriveAllConserves(m.ledger, turn.before, s.capacity);
    TakenBySucceeding(l, n, turn.during, s.capacity);
    StreamLength(s.src, s.dst, Drained(l, n, turn.during, s.capacity).taken);
  }

  /** A ring at its latency limit, and a turn in which one more sample arrives and the cap strikes. */
  function CappedModel(queue: seq<Sample>): (m: Model) {
    Model(Ledger([], queue, []), 0)
  }

  /** Holding `net_needed` samples is not enough for larger requests: at equal rates, with 4800 samples
      in the ring and any request between 1921 and 4796 frames, a cap during the callback leaves only
      1920 of them, and the rest of the buffer is silence. */
  lemma CapCausesPadding(s: Setup, queue: seq<Sample>, x: Sample, cells: nat)
    requires s.src == s.dst == 1 && s.channels == 1 && |queue| == MAX_LATENCY < s.capacity
    requires TARGET_LATENCY < cells <= MAX_LATENCY - 4
    ensures var m, turn := CappedModel(queue), Turn([], CapFirst(x), cells);
      && Sound(s, m) && FrameCount(cells, s.channels) == cells && NetNeeded(cells, s.src, s.dst) <= |Ready(s, m, turn).queue|
      && AfterTurn(s, m, turn).played == TARGET_LATENCY < cells
  {
    var m, turn := CappedModel(queue), Turn([], CapFirst(x), cells);
    ArriveNone(m.ledger, s.capacity);
    assert FrameCount(cells, 1) == cells && Times(cells, 1) == cells && NetNeeded(cells, 1, 1) == cells + 4;
    hide Times, FrameCount, NetNeeded, ArriveAll, Drained;
    assert Ready(s, m, turn) == m.ledger && Pops(s, m, turn) == cells + 4;
    CapStarves(m.ledger, x, cells + 4, s.capacity);
  }

  // ---------------------------------------------------------------- what is heard

  /** The first `k` frames of a filled buffer, one sample each. */
  ghost function Frames(cells: seq<Sample>, channels: nat, k: nat): (fs: seq<Sample>)
    requires channels > 0 && k <= FrameCount(|cells|, channels)
    ensures |fs| == k
  {
    seq(k, f requires 0 <= f < k => FrameAt(cells, channels, f))
  }

  ghost function FrameAt(cells: seq<Sample>, channels: nat, f: nat): (x: Sample)
    requires channels > 0 && f < FrameCount(|cells|, channels)
  {
    CellOfFrame(f, 0, FrameCount(|cells|, channels), channels, |cells|);
    cells[Times(f, channels)]
  }

  lemma FramesOfSpread(cells: seq<Sample>, channels: nat, source: seq<Sample>, k: nat)
    requires channels > 0 && k <= FrameCount(|cells|, channels) && k <= |source|
    requires Spread(cells, Times(FrameCount(|cells|, channels), channels), channels, source)
    ensures Frames(cells, channels, k) == source[..k]
  {
    hide Times;
    forall f | 0 <= f < k ensures FrameAt(cells, channels, f) == source[f] {
      CellOfFrame(f, 0, FrameCount(|cells|, channels), channels, |cells|);
      TimesMonotone(f + 1, FrameCount(|cells|, channels), channels);
      TimesSucc(f, channels);
    }
  }

  /** Each turn's buffer has the size asked for and holds, on every channel, the frames between the
      play positions before and after the turn, and silence after those. */
  predicate Filled(s: Setup, m: Model, turns: seq<Turn>, buffers: seq<seq<Sample>>, n: nat)
    requires Sound(s, m) && n <= |turns|
  {
    && |buffers| == n
    && forall i :: 0 <= i < n ==> TurnFilled(s, m, turns, buffers[i], i)
  }

  predicate TurnFilled(s: Setup, m: Model, turns: seq<Turn>, buffer: seq<Sample>, i: nat)
    requires Sound(s, m) && i < |turns|
  {
    && |buffer| == turns[i].cells
    && Plays(StreamOf(s, ModelAt(s, m, turns, i + 1)), ModelAt(s, m, turns, i).played,
             ModelAt(s, m, turns, i + 1).played, buffer, s.channels)
  }

  lemma PlayedMoves(s: Setup, m: Model, turns: seq<Turn>, i: nat)
    requires Sound(s, m) && i < |turns|
    ensures var m1, m2 := ModelAt(s, m, turns, i), ModelAt(s, m, turns, i + 1);
      && m1.played <= m2.played <= m1.played + FrameCount(turns[i].cells, s.channels)
      && m1.ledger.taken <= m2.ledger.taken && m1.played <= |StreamOf(s, m2)|
  {
    hide Stream, Drained, ArriveAll, FrameCount, Taken;
    var m1, turn := ModelAt(s, m, turns, i), turns[i];
    ArriveAllConserves(m1.ledger, turn.before, s.capacity);
    DrainedAtMost(Ready(s, m1, turn), Pops(s, m1, turn), turn.during, s.capacity);
    var m2 := ModelAt(s, m, turns, i + 1);
    var taken, more := m1.ledger.taken, m2.ledger.taken[|m1.ledger.taken|..];
    assert taken + more == m2.ledger.taken;
    StreamExtends(s.src, s.dst, taken, more);
  }

  function Clip(k: int, top: nat): (n: nat) {
    if k < 0 then 0 else if k <= top then k else top
  }

  /** The frames that are not silence, of the first `n` buffers, one after the other. */
  ghost function Heard(s: Setup, m: Model, turns: seq<Turn>, buffers: seq<seq<Sample>>, n: nat): (fs: seq<Sample>)
    requires Sound(s, m) && n <= |turns| && n <= |buffers|
  {
    if n == 0 then [] else
      var moved := ModelAt(s, m, turns, n).played - ModelAt(s, m, turns, n - 1).played;
      Heard(s, m, turns, buffers, n - 1)
        + Frames(buffers[n - 1], s.channels, Clip(moved, FrameCount(|buffers[n - 1]|, s.channels)))
  }

  lemma HeardStep(s: Setup, m: Model, turns: seq<Turn>, buffer: seq<Sample>, i: nat, before: seq<Sample>)
    requires Sound(s, m) && i < |turns| && TurnFilled(s, m, turns, buffer, i) && m.played <= ModelAt(s, m, turns, i).played
    requires before == StreamOf(s, ModelAt(s, m, turns, i))[m.played..ModelAt(s, m, turns, i).played]
    ensures var m1, m2 := ModelAt(s, m, turns, i), ModelAt(s, m, turns, i + 1);
      && 0 <= m2.played - m1.played <= FrameCount(|buffer|, s.channels)
      && before + Frames(buffer, s.channels, m2.played - m1.played) == StreamOf(s, m2)[m.played..m2.played]
  {
    hide Stream, Times, Spread, Frames, ModelAt, FrameCount;
    PlayedMoves(s, m, turns, i);
    var m1, m2 := ModelAt(s, m, turns, i), ModelAt(s, m, turns, i + 1);
    var k, stream := m2.played - m1.played, StreamOf(s, m2);
    FramesOfSpread(buffer, s.channels, stream[m1.played..], k);
    var more := m2.ledger.taken[|m1.ledger.taken|..];
    assert m1.ledger.taken + more == m2.ledger.taken;
    StreamExtends(s.src, s.dst, m1.ledger.taken, more);
    assert before == stream[m.played..m1.played];
    assert stream[m1.played..][..k] == stream[m1.played..m2.played];
  }

  /** Over any session, what is heard is the resampled stream from where it stood at first to the
      last play position: each sample once and in order. */
  lemma {:induction false} HeardIsStream(s: Setup, m: Model, turns: seq<Turn>, buffers: seq<seq<Sample>>, n: nat)
    requires Sound(s, m) && n <= |turns| && Filled(s, m, turns, buffers, |turns|)
    ensures m.played <= ModelAt(s, m, turns, n).played
    ensures Heard(s, m, turns, buffers, n) == StreamOf(s, ModelAt(s, m, turns, n))[m.played..ModelAt(s, m, turns, n).played]
  {
    if n > 0 {
      hide ModelAt, StreamOf, Frames, Sound, TurnFilled;
      var i := n - 1;
      HeardIsStream(s, m, turns, buffers, i);
      PlayedMoves(s, m, turns, i);
      assert TurnFilled(s, m, turns, buffers[i], i);
      HeardStep(s, m, turns, buffers[i], i, Heard(s, m, turns, buffers, i));
    } else {
      assert Heard(s, m, turns, buffers, 0) == [];
    }
  }

  // ---------------------------------------------------------------- the player keeps to it

  ghost function SetupOf(player: Player, channels: nat): (s: Setup)
    reads player, player.resampler, player.ring
  {
    Setup(player.ring.capacity, player.resampler.src, player.resampler.dst, channels)
  }

  /** The player is where the model says. */
  ghost predicate Follows(player: Player, m: Model)
    requires player.ring.Valid()
    reads player, player.resampler, player.ring, player.ring.buffer
  {
    player.resampler.history == m.ledger.taken && player.ring.Queue() == m.ledger.queue && player.played == m.played
  }

  method OneTurn(player: Player, turn: Turn, channels: nat, ghost m: Model) returns (buffer: seq<Sample>)
    requires player.Valid() && channels > 0 && Follows(player, m)
    modifies player, player.ring, player.ring.buffer, player.resampler
    ensures player.Valid() && Sound(SetupOf(player, channels), m)
    ensures var m' := AfterTurn(SetupOf(player, channels), m, turn);
      && Follows(player, m') && |buffer| == turn.cells
      && Plays(StreamOf(SetupOf(player, channels), m'), m.played, m'.played, buffer, channels)
  {
    hide Stream, Drained, ArriveAll, Times, FrameCount, Taken, Spread;
    ghost var s := SetupOf(player, channels);
    ArriveAllConserves(m.ledger, turn.before, s.capacity);
    ghost var l := Ready(s, m, turn);
    Arriving(player, turn.before, m.ledger);
    var data := new Sample[turn.cells];
    player.Callback(data, channels, turn.during, l);
    buffer := data[..];
  }

  /** Samples arrive between two callbacks. */
  method Arriving(player: Player, arrivals: seq<Arrival>, ghost l: Ledger)
    requires player.Valid() && l.queue == player.ring.Queue()
    modifies player.ring, player.ring.buffer
    ensures player.Valid() && player.ring.Queue() == ArriveAll(l, arrivals, player.ring.capacity).queue
  {
    hide Times, Stream, ArriveAll;
    Deliver(player.ring, arrivals, l);
  }

  lemma TurnByTurn(s: Setup, m: Model, turns: seq<Turn>, i: nat, buffer: seq<Sample>)
    requires Sound(s, m) && i < |turns| && |buffer| == turns[i].cells
    requires var m1 := ModelAt(s, m, turns, i); var m2 := AfterTurn(s, m1, turns[i]);
      Sane(s) && Plays(StreamOf(s, m2), m1.played, m2.played, buffer, s.channels)
    ensures ModelAt(s, m, turns, i + 1) == AfterTurn(s, ModelAt(s, m, turns, i), turns[i])
    ensures TurnFilled(s, m, turns, buffer, i)
  {
    hide AfterTurn, Sound, Plays, StreamOf;
  }

  lemma FilledNext(s: Setup, m: Model, turns: seq<Turn>, buffers: seq<seq<Sample>>, i: nat, buffer: seq<Sample>)
    requires Sound(s, m) && i < |turns| && Filled(s, m, turns, buffers, i) && TurnFilled(s, m, turns, buffer, i)
    ensures Filled(s, m, turns, buffers + [buffer], i + 1)
  {
    hide TurnFilled, Sound;
  }

  method FillAll(player: Player, turns: seq<Turn>, channels: nat, ghost m: Model) returns (buffers: seq<seq<Sample>>)
    requires player.Valid() && channels > 0 && Follows(player, m)
    modifies player, player.ring, player.ring.buffer, player.resampler
    ensures player.Valid() && Sound(SetupOf(player, channels), m)
    ensures Filled(SetupOf(player, channels), m, turns, buffers, |turns|)
    ensures Follows(player, ModelAt(SetupOf(player, channels), m, turns, |turns|))
  {
    ghost var s := SetupOf(player, channels);
    assert Sound(s, m) && ModelAt(s, m, turns, 0) == m;
    hide Sound, Stream, StreamOf, AfterTurn, Plays, TurnFilled;
    buffers := [];
    for i := 0 to |turns|
      invariant player.Valid() && Follows(player, ModelAt(s, m, turns, i)) && Filled(s, m, turns, buffers, i)
    {
      hide *;
      ghost var m1 := ModelAt(s, m, turns, i);
      var buffer := OneTurn(player, turns[i], channels, m1);
      TurnByTurn(s, m, turns, i, buffer);
      FilledNext(s, m, turns, buffers, i, buffer);
      buffers := buffers + [buffer];
    }
  }

  /** What a session gives: the buffers handed to the device, turn by turn, are those of the model;
      what is heard is the resampled stream, each sample once and in order; what was fed to it, what
      waits and what was dropped account for all that arrived; and no turn that is supplied
      contains silence. */
  ghost predicate PlayedWell(s: Setup, m: Model, turns: seq<Turn>, buffers: seq<seq<Sample>>)
    requires Sound(s, m)
  {
    var m' := ModelAt(s, m, turns, |turns|);
    && Filled(s, m, turns, buffers, |turns|)
    && m.played <= m'.played
    && Heard(s, m, turns, buffers, |turns|) == StreamOf(s, m')[m.played..m'.played]
    && Conserves(m.ledger, m'.ledger, Samples(ArrivedBy(s, m, turns, |turns|)))
    && forall i :: 0 <= i < |turns| ==> NoSilence(s, m, turns, i)
  }

  predicate NoSilence(s: Setup, m: Model, turns: seq<Turn>, i: nat)
    requires Sound(s, m) && i < |turns|
  {
    Supplied(s, ModelAt(s, m, turns, i), turns[i]) ==>
      ModelAt(s, m, turns, i + 1).played == ModelAt(s, m, turns, i).played + FrameCount(turns[i].cells, s.channels)
  }

  /** A whole session, whatever arrives when and whatever the device asks for. */
  method PlaySession(player: Player, turns: seq<Turn>, channels: nat, ghost m: Model) returns (buffers: seq<seq<Sample>>)
    requires player.Valid() && channels > 0 && Follows(player, m)
    modifies player, player.ring, player.ring.buffer, player.resampler
    ensures player.Valid() && Sound(SetupOf(player, channels), m)
    ensures Follows(player, ModelAt(SetupOf(player, channels), m, turns, |turns|))
    ensures PlayedWell(SetupOf(player, channels), m, turns, buffers)
  {
    ghost var s := SetupOf(player, channels);
    buffers := FillAll(player, turns, channels, m);
    SessionIsPlayedWell(s, m, turns, buffers);
  }

  lemma SessionIsPlayedWell(s: Setup, m: Model, turns: seq<Turn>, buffers: seq<seq<Sample>>)
    requires Sound(s, m) && Filled(s, m, turns, buffers, |turns|)
    ensures PlayedWell(s, m, turns, buffers)
  {
    hide ModelAt, Heard, StreamOf, Conserves, Samples, ArrivedBy, NoSilence, Filled, Sound;
    HeardIsStream(s, m, turns, buffers, |turns|);
    SessionConserves(s, m, turns, |turns|);
    forall i | 0 <= i < |turns| ensures NoSilence(s, m, turns, i) {
      SuppliedTurn(s, m, turns, i);
    }
  }

  lemma SuppliedTurn(s: Setup, m: Model, turns: seq<Turn>, i: nat)
    requires Sound(s, m) && i < |turns|
    ensures NoSilence(s, m, turns, i)
  {
    if Supplied(s, ModelAt(s, m, turns, i), turns[i]) {
      NoPadding(s, ModelAt(s, m, turns, i), turns[i]);
      hide AfterTurn, Supplied, Sound;
    }
  }
}
