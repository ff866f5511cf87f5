/**
 Flooding of one audio frame over the inter-daemon mesh (WPIP-05, sections 3.1 and 3.2): every
 node relays what it receives to all its links, guarded by an origin check and a TTL. Frames
 travel as encoded packets. `hops` counts links crossed and is never read by the protocol.
 */
module Mesh {
  import opened Basics
  import opened Bytes
  import opened Addresses
  import opened Codec
  import CodecRoundTrip

  type Node = u64

  const INITIAL_TTL: u8 := 8

  datatype AudioMessage = AudioMessage(
    senderId: u64, senderAddress: UserAddress, targetAddress: UserAddress,
    codecId: u8, originNode: Node, ttl: u8, data: seq<byte>)

  // ---------------------------------------------------------------- the two relay rules

  function PeerPacket(m: AudioMessage): (p: Packet) {
    PeerTargetedAudio(m.senderId, m.originNode, m.targetAddress, m.senderAddress, CODEC_OPUS, m.ttl, m.data)
  }

  /** One turn of the send loop towards a peer: expired foreign frames are skipped. */
  function Outgoing(m: AudioMessage, me: Node): (r: Option<seq<byte>>) {
    if m.originNode != me && m.ttl == 0 then None else Some(Encode(PeerPacket(m)))
  }

  /** What an incoming packet makes a node broadcast locally, if anything. */
  function Incoming(bytes: seq<byte>, me: Node, spare: UserAddress): (r: Option<AudioMessage>) {
    match Decode(bytes, spare)
    case Ok(PeerTargetedAudio(id, origin, target, sender, codec, ttl, data)) =>
      if origin != me && ttl > 0
      then Some(AudioMessage(id, sender, target, codec, origin, ttl - 1, data))
      else None
    case _ => None
  }

  /** A broadcast that goes out to a peer: the node's own, or a foreign one with hops left. */
  predicate Alive(m: AudioMessage, me: Node) {
    m.originNode == me || m.ttl > 0
  }

  /** `sent` holds the encodings of exactly the broadcasts at these positions, in their order, and
      these are the positions of all that go out. */
  ghost predicate SentAre(queue: seq<AudioMessage>, me: Node, sent: seq<seq<byte>>, idx: seq<nat>) {
    && Increasing(idx) && (forall i: nat :: i in idx <==> i < |queue| && Alive(queue[i], me))
    && |sent| == |idx|
    && forall k :: 0 <= k < |idx| ==> idx[k] < |queue| && sent[k] == Encode(PeerPacket(queue[idx[k]]))
  }

  lemma OutgoingExactly(m: AudioMessage, me: Node)
    ensures Outgoing(m, me) == if Alive(m, me) then Some(Encode(PeerPacket(m))) else None
  {
  }

  /** `process_peer_audio_send_loop`, on a channel that stays open. */
  method SendLoop(queue: seq<AudioMessage>, me: Node) returns (sent: seq<seq<byte>>, ghost idx: seq<nat>)
    ensures SentAre(queue, me, sent, idx)
  {
    hide Encode, PeerPacket;
    sent, idx := [], [];
    for i := 0 to |queue|
      invariant SentAre(queue[..i], me, sent, idx)
    {
      var m := queue[i];
      OutgoingExactly(m, me);
      if m.originNode != me && m.ttl == 0 {
        SkipOne(queue, me, sent, idx, i);
        continue;
      }
      var bytes := EncodePacket(PeerPacket(m));
      SendOne(queue, me, sent, idx, i);
      sent, idx := sent + [bytes], idx + [i];
    }
    assert queue[..|queue|] == queue;
  }

  lemma SkipOne(queue: seq<AudioMessage>, me: Node, sent: seq<seq<byte>>, idx: seq<nat>, i: nat)
    requires i < |queue| && SentAre(queue[..i], me, sent, idx) && !Alive(queue[i], me)
    ensures SentAre(queue[..i + 1], me, sent, idx)
  {
    hide Encode, PeerPacket;
  }

  lemma SendOne(queue: seq<AudioMessage>, me: Node, sent: seq<seq<byte>>, idx: seq<nat>, i: nat)
    requires i < |queue| && SentAre(queue[..i], me, sent, idx) && Alive(queue[i], me)
    ensures SentAre(queue[..i + 1], me, sent + [Encode(PeerPacket(queue[i]))], idx + [i])
  {
    hide Encode, PeerPacket;
    IncreasingOn(idx, i);
  }

  // ---------------------------------------------------------------- the network

  datatype Copy = Copy(dest: Node, bytes: seq<byte>, hops: nat)
  datatype Job = Job(from: Node, dest: Node, msg: AudioMessage, hops: nat)
  datatype Heard = Heard(node: Node, msg: AudioMessage, hops: nat)

  /** Packets on the wire, messages waiting in send loops, local broadcasts so far, packets sent. */
  datatype State = State(wire: seq<Copy>, pending: seq<Job>, heard: set<Heard>, sent: nat)

  type Graph = map<Node, seq<Node>>

  function Links(g: Graph, n: Node): (ns: seq<Node>) {
    if n in g then g[n] else []
  }

  predicate DegreeAtMost(g: Graph, d: nat) {
    forall n :: n in g ==> |g[n]| <= d
  }

  function Jobs(from: Node, dests: seq<Node>, m: AudioMessage, hops: nat): (js: seq<Job>)
    ensures |js| == |dests| && forall i :: 0 <= i < |dests| ==> js[i] == Job(from, dests[i], m, hops)
  {
    seq(|dests|, i requires 0 <= i < |dests| => Job(from, dests[i], m, hops))
  }

  function Without<T>(s: seq<T>, i: nat): (r: seq<T>)
    requires i < |s|
  {
    s[..i] + s[i + 1..]
  }

  /** A client of `origin` has just put `frame` on the local broadcast. */
  function Start(g: Graph, frame: AudioMessage): (s: State) {
    State([], Jobs(frame.originNode, Links(g, frame.originNode), frame, 0), {Heard(frame.originNode, frame, 0)}, 0)
  }

  datatype Action = Receive(i: nat) | Send(i: nat) | LoseCopy(i: nat) | LoseJob(i: nat)

  predicate Enabled(s: State, a: Action) {
    if a.Receive? || a.LoseCopy? then a.i < |s.wire| else a.i < |s.pending|
  }

  function Step(g: Graph, spare: UserAddress, s: State, a: Action): (s': State)
    requires Enabled(s, a)
  {
    match a
    case Receive(i) =>
      var c := s.wire[i];
      var s1 := s.(wire := Without(s.wire, i));
      (match Incoming(c.bytes, c.dest, spare)
       case None => s1
       case Some(m) =>
         s1.(heard := s1.heard + {Heard(c.dest, m, c.hops)},
             pending := s1.pending + Jobs(c.dest, Links(g, c.dest), m, c.hops)))
    case Send(i) =>
      var j := s.pending[i];
      var s1 := s.(pending := Without(s.pending, i));
      (match Outgoing(j.msg, j.from)
       case None => s1
       case Some(bytes) => s1.(wire := s1.wire + [Copy(j.dest, bytes, j.hops + 1)], sent := s1.sent + 1))
    case LoseCopy(i) => s.(wire := Without(s.wire, i))
    case LoseJob(i) => s.(pending := Without(s.pending, i))
  }

  // ---------------------------------------------------------------- integrity of every copy

  /** A frame as a client's own daemon puts it on the broadcast. */
  predicate Launchable(frame: AudioMessage) {
    frame.ttl == INITIAL_TTL
  }

  /** What the wire makes of the addresses of a frame. */
  function Normalized(m: AudioMessage): (r: AudioMessage) {
    m.(senderAddress := Padded(m.senderAddress), targetAddress := Padded(m.targetAddress))
  }

  /** The frame as it must look `hops` links from its origin: all fields kept, TTL reduced by the
      links crossed, and once relayed the codec forced to Opus and the addresses in wire form. */
  function Relayed(frame: AudioMessage, hops: nat): (m: AudioMessage)
    requires hops <= 8
  {
    if hops == 0 then frame.(ttl := INITIAL_TTL)
    else Normalized(frame).(ttl := INITIAL_TTL - hops, codecId := CODEC_OPUS)
  }

  predicate GoodJob(frame: AudioMessage, j: Job) {
    j.hops <= 8 && j.msg == Relayed(frame, j.hops) && (j.from == frame.originNode <==> j.hops == 0)
  }

  predicate GoodCopy(frame: AudioMessage, c: Copy) {
    1 <= c.hops <= 8 && c.bytes == Encode(PeerPacket(Relayed(frame, c.hops - 1)))
  }

  predicate GoodHeard(frame: AudioMessage, h: Heard) {
    && h.hops <= 8 && h.msg == Relayed(frame, h.hops) && (h.node == frame.originNode <==> h.hops == 0)
    && (h.hops == 0 || AudioFits(frame.data))
  }

  predicate Inv(frame: AudioMessage, s: State) {
    && (forall i :: 0 <= i < |s.wire| ==> GoodCopy(frame, s.wire[i]))
    && (forall i :: 0 <= i < |s.pending| ==> GoodJob(frame, s.pending[i]))
    && (forall h :: h in s.heard ==> GoodHeard(frame, h))
  }

  lemma GoodCopyArrives(frame: AudioMessage, c: Copy, spare: UserAddress)
    requires Launchable(frame) && GoodCopy(frame, c)
    ensures Incoming(c.bytes, c.dest, spare) ==
      if c.dest == frame.originNode || !AudioFits(frame.data) then None else Some(Relayed(frame, c.hops))
  {
    hide Encode, Decode, Canonical, Padded;
    var m := Relayed(frame, c.hops - 1);
    SameOnTheWire(m);
    PaddedTwice(frame.senderAddress);
    PaddedTwice(frame.targetAddress);
    if AudioFits(frame.data) {
      CodecRoundTrip.RoundTrip(PeerPacket(Normalized(m)), spare);
    } else {
      OversizeRefused(PeerPacket(m), spare);
    }
  }

  lemma SameOnTheWire(m: AudioMessage)
    ensures Encode(PeerPacket(Normalized(m))) == Encode(PeerPacket(m))
  {
    hide FromBytes, ToBytes, PutLe;
    ToFromBytes(ToBytes(m.senderAddress));
    ToFromBytes(ToBytes(m.targetAddress));
  }

  /** Once in wire form, an address stays as it is. */
  lemma PaddedTwice(a: UserAddress)
    ensures Canonical(Padded(a)) && Padded(Padded(a)) == Padded(a)
  {
    hide FromBytes, ToBytes, Canonical;
    ToFromBytes(ToBytes(a));
  }

  lemma OversizeRefused(p: Packet, spare: UserAddress)
    requires p.PeerTargetedAudio? && !AudioFits(p.audioData)
    ensures Decode(Encode(p), spare).Err?
  {
    var e := Encode(p);
    assert e[0] == 0x04 && |e| == 83 + |p.audioData|;
    hide Encode, Decode;
    CodecRoundTrip.AcceptedExactly(e, spare);
  }

  lemma GoodJobLeaves(frame: AudioMessage, j: Job)
    requires GoodJob(frame, j)
    ensures Outgoing(j.msg, j.from) ==
      if j.hops == 8 then None else Some(Encode(PeerPacket(Relayed(frame, j.hops))))
  {
  }

  /** The state change of a step, spelled out for good states. */
  function GoodStep(g: Graph, frame: AudioMessage, s: State, a: Action): (s': State)
    requires Enabled(s, a) && Inv(frame, s)
  {
    match a
    case Receive(i) =>
      var c := s.wire[i];
      assert GoodCopy(frame, c);
      var s1 := s.(wire := Without(s.wire, i));
      if c.dest == frame.originNode || !AudioFits(frame.data) then s1
      else s1.(heard := s1.heard + {Heard(c.dest, Relayed(frame, c.hops), c.hops)},
               pending := s1.pending + Jobs(c.dest, Links(g, c.dest), Relayed(frame, c.hops), c.hops))
    case Send(i) =>
      var j := s.pending[i];
      assert GoodJob(frame, j);
      var s1 := s.(pending := Without(s.pending, i));
      if j.hops == 8 then s1
      else s1.(wire := s1.wire + [Copy(j.dest, Encode(PeerPacket(Relayed(frame, j.hops))), j.hops + 1)],
               sent := s1.sent + 1)
    case LoseCopy(i) => s.(wire := Without(s.wire, i))
    case LoseJob(i) => s.(pending := Without(s.pending, i))
  }

  lemma StepIsGoodStep(g: Graph, spare: UserAddress, frame: AudioMessage, s: State, a: Action)
    requires Launchable(frame) && Enabled(s, a) && Inv(frame, s)
    ensures Step(g, spare, s, a) == GoodStep(g, frame, s, a)
  {
    hide Incoming, Outgoing, PeerPacket, Relayed, Launchable;
    match a
    case Receive(i) => GoodCopyArrives(frame, s.wire[i], spare);
    case Send(i) => GoodJobLeaves(frame, s.pending[i]);
    case _ =>
  }

  lemma GoodStepInv(g: Graph, frame: AudioMessage, s: State, a: Action)
    requires Enabled(s, a) && Inv(frame, s)
    ensures Inv(frame, GoodStep(g, frame, s, a))
  {
    hide Encode, PeerPacket, Relayed;
    match a
    case Receive(i) => assert GoodCopy(frame, s.wire[i]);
    case Send(i) => assert GoodJob(frame, s.pending[i]);
    case _ =>
  }

  // ---------------------------------------------------------------- runs

  predicate IsRun(g: Graph, spare: UserAddress, frame: AudioMessage, run: seq<State>, acts: seq<Action>) {
    && |run| == |acts| + 1 && run[0] == Start(g, frame)
    && forall i :: 0 <= i < |acts| ==> Enabled(run[i], acts[i]) && run[i + 1] == Step(g, spare, run[i], acts[i])
  }

  lemma {:induction false} RunInv(
    g: Graph, spare: UserAddress, frame: AudioMessage, run: seq<State>, acts: seq<Action>, n: nat)
    requires Launchable(frame) && IsRun(g, spare, frame, run, acts) && n < |run|
    ensures Inv(frame, run[n])
    ensures n > 0 ==> Inv(frame, run[n - 1]) && run[n] == GoodStep(g, frame, run[n - 1], acts[n - 1])
  {
    if n > 0 {
      RunInv(g, spare, frame, run, acts, n - 1);
      StepIsGoodStep(g, spare, frame, run[n - 1], acts[n - 1]);
      GoodStepInv(g, frame, run[n - 1], acts[n - 1]);
    }
  }

  /** A copy `hops` links from its origin: original sender, origin and payload, exactly 8 - hops TTL,
      and beyond the origin the original addresses exactly when those are canonical. */
  predicate Faithful(frame: AudioMessage, m: AudioMessage, hops: nat) {
    && hops <= 8 && m.ttl == 8 - hops
    && m.senderId == frame.senderId && m.originNode == frame.originNode && m.data == frame.data
    && (m.targetAddress == frame.targetAddress <==> hops == 0 || Canonical(frame.targetAddress))
    && (m.senderAddress == frame.senderAddress <==> hops == 0 || Canonical(frame.senderAddress))
  }

  lemma RelayedIsFaithful(frame: AudioMessage, hops: nat)
    requires hops <= 8
    ensures Faithful(frame, Relayed(frame, hops), hops)
  {
    hide Canonical, FromBytes, ToBytes;
    FromToBytes(frame.targetAddress);
    FromToBytes(frame.senderAddress);
  }

  /** A packet on its `hops`-th link: what any receiver decodes is a faithful copy, one hop short,
      with the codec forced to Opus; or the decoder refuses the payload as too large. */
  ghost predicate FaithfulBytes(frame: AudioMessage, bytes: seq<byte>, hops: nat) {
    && 1 <= hops <= 8
    && forall spare ::
      if AudioFits(frame.data) then
        && Decode(bytes, spare) == Ok(PeerPacket(Normalized(Relayed(frame, hops - 1))))
        && Faithful(frame, Relayed(frame, hops - 1), hops - 1)
      else Decode(bytes, spare).Err?
  }

  lemma GoodCopyIsFaithful(frame: AudioMessage, c: Copy)
    requires GoodCopy(frame, c)
    ensures FaithfulBytes(frame, c.bytes, c.hops)
  {
    hide Encode, Decode, Canonical, Padded, Faithful;
    var m := Relayed(frame, c.hops - 1);
    SameOnTheWire(m);
    PaddedTwice(frame.senderAddress);
    PaddedTwice(frame.targetAddress);
    RelayedIsFaithful(frame, c.hops - 1);
    forall spare
      ensures if AudioFits(frame.data) then Decode(c.bytes, spare) == Ok(PeerPacket(Normalized(m))) else Decode(c.bytes, spare).Err?
    {
      if AudioFits(frame.data) {
        CodecRoundTrip.RoundTrip(PeerPacket(Normalized(m)), spare);
      } else {
        OversizeRefused(PeerPacket(m), spare);
      }
    }
  }

  /** At every moment, each copy of the frame, whether broadcast locally, waiting in a send loop or
      on the wire, is faithful; and only the first broadcast is at the origin. */
  lemma EveryCopyIsFaithful(
    g: Graph, spare: UserAddress, frame: AudioMessage, run: seq<State>, acts: seq<Action>, n: nat)
    requires Launchable(frame) && IsRun(g, spare, frame, run, acts) && n < |run|
    ensures forall h :: h in run[n].heard ==>
      Faithful(frame, h.msg, h.hops) && (h.node == frame.originNode <==> h.hops == 0)
    ensures forall j :: j in run[n].pending ==>
      Faithful(frame, j.msg, j.hops) && (j.from == frame.originNode <==> j.hops == 0)
    ensures forall c :: c in run[n].wire ==> FaithfulBytes(frame, c.bytes, c.hops)
  {
    RunInv(g, spare, frame, run, acts, n);
    hide IsRun, Faithful, FaithfulBytes, Relayed, Encode, PeerPacket;
    forall h | h in run[n].heard ensures Faithful(frame, h.msg, h.hops) && (h.node == frame.originNode <==> h.hops == 0) {
      assert GoodHeard(frame, h);
      RelayedIsFaithful(frame, h.hops);
    }
    forall j | j in run[n].pending
      ensures Faithful(frame, j.msg, j.hops) && (j.from == frame.originNode <==> j.hops == 0)
    {
      assert GoodJob(frame, j);
      RelayedIsFaithful(frame, j.hops);
    }
    forall c | c in run[n].wire ensures FaithfulBytes(frame, c.bytes, c.hops) {
      assert GoodCopy(frame, c);
      GoodCopyIsFaithful(frame, c);
    }
  }

  // ---------------------------------------------------------------- termination and cost

  /** d + d^2 + ... + d^k, in Horner form. */
  function Geo(d: nat, k: nat): (r: nat) {
    if k == 0 then 0 else d * (1 + Geo(d, k - 1))
  }

  function Pow(d: nat, k: nat): (r: nat) {
    if k == 0 then 1 else d * Pow(d, k - 1)
  }

  function PowSum(d: nat, k: nat): (r: nat) {
    if k == 0 then 0 else PowSum(d, k - 1) + Pow(d, k)
  }

  lemma {:induction false} PowSumShift(d: nat, k: nat)
    ensures PowSum(d, k + 1) == d * (1 + PowSum(d, k))
  {
    if k > 0 {
      PowSumShift(d, k - 1);
      assert PowSum(d, k + 1) == d * (1 + PowSum(d, k - 1)) + d * Pow(d, k);
      assert d * (1 + PowSum(d, k - 1)) + d * Pow(d, k) == d * (1 + PowSum(d, k - 1) + Pow(d, k));
    } else {
      assert Pow(d, 1) == d * Pow(d, 0) && PowSum(d, 1) == PowSum(d, 0) + Pow(d, 1);
    }
  }

  lemma {:induction false} GeoIsPowSum(d: nat, k: nat)
    ensures Geo(d, k) == PowSum(d, k)
  {
    if k > 0 {
      GeoIsPowSum(d, k - 1);
      PowSumShift(d, k - 1);
    }
  }

  /** Steps a received packet can still cause with `r` hops left, and likewise a waiting job. */
  function CopySteps(d: nat, r: nat): (n: nat)
    decreases r, 1
  {
    1 + d * JobSteps(d, r)
  }

  function JobSteps(d: nat, r: nat): (n: nat)
    decreases r, 0
  {
    1 + if r == 0 then 0 else CopySteps(d, r - 1)
  }

  /** Packets they can still cause. */
  function CopyCost(d: nat, r: nat): (n: nat) {
    Geo(d, r)
  }

  function JobCost(d: nat, r: nat): (n: nat) {
    if r == 0 then 0 else 1 + Geo(d, r - 1)
  }

  function Left(hops: nat): (r: nat) {
    if hops <= 8 then 8 - hops else 0
  }

  function SumCopies(f: nat -> nat, cs: seq<Copy>): (n: nat) {
    if cs == [] then 0 else f(Left(cs[0].hops)) + SumCopies(f, cs[1..])
  }

  function SumJobs(f: nat -> nat, js: seq<Job>): (n: nat) {
    if js == [] then 0 else f(Left(js[0].hops)) + SumJobs(f, js[1..])
  }

  lemma {:induction false} SumCopiesConcat(f: nat -> nat, a: seq<Copy>, b: seq<Copy>)
    ensures SumCopies(f, a + b) == SumCopies(f, a) + SumCopies(f, b)
  {
    if a == [] {
      assert a + b == b;
    } else {
      assert (a + b)[1..] == a[1..] + b;
      SumCopiesConcat(f, a[1..], b);
    }
  }

  lemma {:induction false} SumJobsConcat(f: nat -> nat, a: seq<Job>, b: seq<Job>)
    ensures SumJobs(f, a + b) == SumJobs(f, a) + SumJobs(f, b)
  {
    if a == [] {
      assert a + b == b;
    } else {
      assert (a + b)[1..] == a[1..] + b;
      SumJobsConcat(f, a[1..], b);
    }
  }

  lemma SumCopiesWithout(f: nat -> nat, cs: seq<Copy>, i: nat)
    requires i < |cs|
    ensures SumCopies(f, cs) == SumCopies(f, Without(cs, i)) + f(Left(cs[i].hops))
  {
    hide SumCopies;
    var a, b := cs[..i], cs[i + 1..];
    assert cs == a + ([cs[i]] + b);
    SumCopiesConcat(f, a, [cs[i]] + b);
    SumCopiesConcat(f, [cs[i]], b);
    SingleCopy(f, cs[i]);
    SumCopiesConcat(f, a, b);
  }

  lemma SumJobsWithout(f: nat -> nat, js: seq<Job>, i: nat)
    requires i < |js|
    ensures SumJobs(f, js) == SumJobs(f, Without(js, i)) + f(Left(js[i].hops))
  {
    hide SumJobs;
    var a, b := js[..i], js[i + 1..];
    assert js == a + ([js[i]] + b);
    SumJobsConcat(f, a, [js[i]] + b);
    SumJobsConcat(f, [js[i]], b);
    SingleJob(f, js[i]);
    SumJobsConcat(f, a, b);
  }

  lemma {:induction false} SumOfEqualJobs(f: nat -> nat, js: seq<Job>, hops: nat)
    requires forall i :: 0 <= i < |js| ==> js[i].hops == hops
    ensures SumJobs(f, js) == |js| * f(Left(hops))
  {
    if js != [] {
      SumOfEqualJobs(f, js[1..], hops);
      assert |js| * f(Left(hops)) == f(Left(hops)) + (|js| - 1) * f(Left(hops));
    }
  }

  lemma MulAtMost(a: nat, d: nat, b: nat)
    requires a <= d
    ensures a * b <= d * b
  {
  }

  lemma LinksBounded(g: Graph, d: nat, n: Node, m: AudioMessage, hops: nat, f: nat -> nat)
    requires DegreeAtMost(g, d)
    ensures SumJobs(f, Jobs(n, Links(g, n), m, hops)) <= d * f(Left(hops))
  {
    var js := Jobs(n, Links(g, n), m, hops);
    SumOfEqualJobs(f, js, hops);
    MulAtMost(|js|, d, f(Left(hops)));
  }

  /** A potential: what the copies and jobs of a state can still do, by the two weights given. */
  function Potential(fc: nat -> nat, fj: nat -> nat, s: State): (n: nat) {
    SumCopies(fc, s.wire) + SumJobs(fj, s.pending)
  }

  function Measure(d: nat, s: State): (n: nat) {
    Potential(r => CopySteps(d, r), r => JobSteps(d, r), s)
  }

  function Cost(d: nat, s: State): (n: nat) {
    s.sent + Potential(r => CopyCost(d, r), r => JobCost(d, r), s)
  }

  lemma ReceivePotential(
    g: Graph, d: nat, frame: AudioMessage, s: State, i: nat, fc: nat -> nat, fj: nat -> nat)
    requires DegreeAtMost(g, d) && i < |s.wire| && Inv(frame, s)
    ensures var s' := GoodStep(g, frame, s, Receive(i));
      && Potential(fc, fj, s') + fc(Left(s.wire[i].hops)) <= Potential(fc, fj, s) + d * fj(Left(s.wire[i].hops))
      && s'.sent == s.sent
  {
    hide Encode, PeerPacket, Relayed, Left, Without, DegreeAtMost;
    var c := s.wire[i];
    assert GoodCopy(frame, c);
    SumCopiesWithout(fc, s.wire, i);
    var js := Jobs(c.dest, Links(g, c.dest), Relayed(frame, c.hops), c.hops);
    SumJobsConcat(fj, s.pending, js);
    LinksBounded(g, d, c.dest, Relayed(frame, c.hops), c.hops, fj);
    hide Inv, SumCopies, SumJobs, Jobs, Links;
  }

  lemma SendPotential(frame: AudioMessage, g: Graph, s: State, i: nat, fc: nat -> nat, fj: nat -> nat)
    requires i < |s.pending| && Inv(frame, s)
    ensures var s' := GoodStep(g, frame, s, Send(i));
      var h := s.pending[i].hops;
      && h <= 8
      && Potential(fc, fj, s') + fj(Left(h)) == Potential(fc, fj, s) + (if h == 8 then 0 else fc(Left(h + 1)))
      && s'.sent == s.sent + (if h == 8 then 0 else 1)
  {
    hide Encode, PeerPacket, Relayed, Left, Without;
    var j := s.pending[i];
    assert GoodJob(frame, j);
    SumJobsWithout(fj, s.pending, i);
    if j.hops != 8 {
      var c := Copy(j.dest, Encode(PeerPacket(Relayed(frame, j.hops))), j.hops + 1);
      SumCopiesConcat(fc, s.wire, [c]);
      SingleCopy(fc, c);
    }
  }

  /** How a step moves any potential: it releases one item and adds what that item spawns. */
  lemma StepPotential(
    g: Graph, d: nat, frame: AudioMessage, s: State, a: Action, fc: nat -> nat, fj: nat -> nat)
    requires DegreeAtMost(g, d) && Enabled(s, a) && Inv(frame, s)
    ensures var s' := GoodStep(g, frame, s, a);
      match a
      case Receive(i) =>
        Potential(fc, fj, s') + fc(Left(s.wire[i].hops)) <= Potential(fc, fj, s) + d * fj(Left(s.wire[i].hops))
        && s'.sent == s.sent
      case Send(i) =>
        var h := s.pending[i].hops;
        && h <= 8
        && Potential(fc, fj, s') + fj(Left(h)) == Potential(fc, fj, s) + (if h == 8 then 0 else fc(Left(h + 1)))
        && s'.sent == s.sent + (if h == 8 then 0 else 1)
      case LoseCopy(i) => Potential(fc, fj, s') + fc(Left(s.wire[i].hops)) == Potential(fc, fj, s) && s'.sent == s.sent
      case LoseJob(i) => Potential(fc, fj, s') + fj(Left(s.pending[i].hops)) == Potential(fc, fj, s) && s'.sent == s.sent
  {
    hide Encode, PeerPacket, Relayed, Left, Without, Inv, DegreeAtMost;
    match a
    case Receive(i) =>
      hide Potential, GoodStep;
      ReceivePotential(g, d, frame, s, i, fc, fj);
    case Send(i) =>
      hide Potential, GoodStep;
      SendPotential(frame, g, s, i, fc, fj);
    case LoseCopy(i) => SumCopiesWithout(fc, s.wire, i);
    case LoseJob(i) => SumJobsWithout(fj, s.pending, i);
  }

  lemma SingleJob(f: nat -> nat, j: Job)
    ensures SumJobs(f, [j]) == f(Left(j.hops))
  {
    assert [j][1..] == [];
  }

  lemma SingleCopy(f: nat -> nat, c: Copy)
    ensures SumCopies(f, [c]) == f(Left(c.hops))
  {
    assert [c][1..] == [];
  }

  lemma StepsAndCosts(d: nat, r: nat)
    ensures CopySteps(d, r) == 1 + d * JobSteps(d, r) && JobSteps(d, r) >= 1
    ensures r > 0 ==> JobSteps(d, r) == 1 + CopySteps(d, r - 1)
    ensures CopyCost(d, r) == d * JobCost(d, r)
    ensures r > 0 ==> JobCost(d, r) == 1 + CopyCost(d, r - 1)
  {
  }

  function HopsOf(s: State, a: Action): (h: nat)
    requires Enabled(s, a)
  {
    if a.Receive? || a.LoseCopy? then s.wire[a.i].hops else s.pending[a.i].hops
  }

  /** Every step, whatever the graph and whatever is lost, strictly lowers the measure. */
  lemma StepLowersMeasure(g: Graph, d: nat, frame: AudioMessage, s: State, a: Action)
    requires DegreeAtMost(g, d) && Enabled(s, a) && Inv(frame, s)
    ensures Measure(d, GoodStep(g, frame, s, a)) < Measure(d, s)
  {
    hide GoodStep, Potential, Inv, CopySteps, JobSteps, DegreeAtMost;
    StepPotential(g, d, frame, s, a, r => CopySteps(d, r), r => JobSteps(d, r));
    StepsAndCosts(d, Left(HopsOf(s, a)));
  }

  /** And it never raises the packets sent plus those still to come. */
  lemma StepKeepsCost(g: Graph, d: nat, frame: AudioMessage, s: State, a: Action)
    requires DegreeAtMost(g, d) && Enabled(s, a) && Inv(frame, s)
    ensures Cost(d, GoodStep(g, frame, s, a)) <= Cost(d, s)
  {
    hide GoodStep, Potential, Inv, CopyCost, JobCost, DegreeAtMost;
    StepPotential(g, d, frame, s, a, r => CopyCost(d, r), r => JobCost(d, r));
    StepsAndCosts(d, Left(HopsOf(s, a)));
  }

  lemma StartCost(g: Graph, d: nat, frame: AudioMessage)
    requires DegreeAtMost(g, d)
    ensures Measure(d, Start(g, frame)) <= d * JobSteps(d, 8)
    ensures Cost(d, Start(g, frame)) <= Geo(d, 8)
  {
    LinksBounded(g, d, frame.originNode, frame, 0, r => JobSteps(d, r));
    LinksBounded(g, d, frame.originNode, frame, 0, r => JobCost(d, r));
    assert d * JobCost(d, 8) == Geo(d, 8);
  }

  lemma {:induction false} RunCost(
    g: Graph, d: nat, spare: UserAddress, frame: AudioMessage, run: seq<State>, acts: seq<Action>, n: nat)
    requires Launchable(frame) && DegreeAtMost(g, d) && IsRun(g, spare, frame, run, acts) && n < |run|
    ensures Measure(d, run[n]) + n <= d * JobSteps(d, 8)
    ensures Cost(d, run[n]) <= Geo(d, 8)
  {
    hide Measure, Cost, JobSteps, Geo;
    if n == 0 {
      StartCost(g, d, frame);
    } else {
      RunCost(g, d, spare, frame, run, acts, n - 1);
      RunInv(g, spare, frame, run, acts, n);
      StepLowersMeasure(g, d, frame, run[n - 1], acts[n - 1]);
      StepKeepsCost(g, d, frame, run[n - 1], acts[n - 1]);
    }
  }

  /** Flooding terminates on every finite graph, cycles included, within a bound that depends only
      on the degree, and one frame costs at most d + d^2 + ... + d^8 packets. */
  lemma FloodingIsBounded(
    g: Graph, d: nat, spare: UserAddress, frame: AudioMessage, run: seq<State>, acts: seq<Action>)
    requires Launchable(frame) && DegreeAtMost(g, d) && IsRun(g, spare, frame, run, acts)
    ensures |acts| <= d * JobSteps(d, 8)
    ensures run[|acts|].sent <= PowSum(d, 8)
  {
    hide Measure, JobSteps, Geo, PowSum;
    RunCost(g, d, spare, frame, run, acts, |acts|);
    GeoIsPowSum(d, 8);
  }

  // ---------------------------------------------------------------- coverage

  predicate Lossless(acts: seq<Action>) {
    forall i :: 0 <= i < |acts| ==> acts[i].Receive? || acts[i].Send?
  }

  /** The frame heard at `n` after `h` hops has reached `m`, or is on its way there. */
  predicate Passed(frame: AudioMessage, s: State, n: Node, m: Node, h: nat)
    requires h < 8
  {
    || m == frame.originNode
    || Heard(m, Relayed(frame, h + 1), h + 1) in s.heard
    || Job(n, m, Relayed(frame, h), h) in s.pending
    || Copy(m, Encode(PeerPacket(Relayed(frame, h))), h + 1) in s.wire
  }

  predicate Progressing(g: Graph, frame: AudioMessage, s: State) {
    forall n: Node, m: Node, h: nat :: h < 8 && m in Links(g, n) && Heard(n, Relayed(frame, h), h) in s.heard ==>
      Passed(frame, s, n, m, h)
  }

  lemma WithoutKeeps<T>(s: seq<T>, i: nat, x: T)
    requires i < |s| && x in s && x != s[i]
    ensures x in Without(s, i)
  {
    var k :| 0 <= k < |s| && s[k] == x;
    if k < i {
      assert Without(s, i)[k] == x;
    } else {
      assert Without(s, i)[k - 1] == x;
    }
  }

  lemma PassedStep(g: Graph, frame: AudioMessage, s: State, a: Action, n: Node, m: Node, h: nat)
    requires AudioFits(frame.data) && Enabled(s, a) && Inv(frame, s) && (a.Receive? || a.Send?)
    requires h < 8 && Passed(frame, s, n, m, h)
    ensures Passed(frame, GoodStep(g, frame, s, a), n, m, h)
  {
    hide Encode, PeerPacket, Relayed, Without;
    var job := Job(n, m, Relayed(frame, h), h);
    var copy := Copy(m, Encode(PeerPacket(Relayed(frame, h))), h + 1);
    match a
    case Receive(i) =>
      assert GoodCopy(frame, s.wire[i]);
      if copy in s.wire && s.wire[i] != copy {
        WithoutKeeps(s.wire, i, copy);
      }
    case Send(i) =>
      assert GoodJob(frame, s.pending[i]);
      if job in s.pending && s.pending[i] != job {
        WithoutKeeps(s.pending, i, job);
      }
    case _ =>
  }

  lemma NewlyHeardPassed(g: Graph, frame: AudioMessage, s: State, i: nat, m: Node)
    requires AudioFits(frame.data) && Enabled(s, Receive(i)) && Inv(frame, s) && s.wire[i].dest != frame.originNode
    requires GoodCopy(frame, s.wire[i]) && s.wire[i].hops < 8 && m in Links(g, s.wire[i].dest)
    ensures Passed(frame, GoodStep(g, frame, s, Receive(i)), s.wire[i].dest, m, s.wire[i].hops)
  {
    var c := s.wire[i];
    var links := Links(g, c.dest);
    var k :| 0 <= k < |links| && links[k] == m;
    var js := Jobs(c.dest, links, Relayed(frame, c.hops), c.hops);
    assert js[k] == Job(c.dest, m, Relayed(frame, c.hops), c.hops);
    assert js[k] in GoodStep(g, frame, s, Receive(i)).pending;
  }

  lemma ProgressStep(g: Graph, frame: AudioMessage, s: State, a: Action)
    requires AudioFits(frame.data) && Enabled(s, a) && Inv(frame, s) && (a.Receive? || a.Send?) && Progressing(g, frame, s)
    ensures Progressing(g, frame, GoodStep(g, frame, s, a))
  {
    hide Encode, PeerPacket, Relayed, Without, Passed;
    var s' := GoodStep(g, frame, s, a);
    forall n: Node, m: Node, h: nat
      | h < 8 && m in Links(g, n) && Heard(n, Relayed(frame, h), h) in s'.heard
      ensures Passed(frame, s', n, m, h)
    {
      if Heard(n, Relayed(frame, h), h) in s.heard {
        PassedStep(g, frame, s, a, n, m, h);
      } else {
        assert GoodCopy(frame, s.wire[a.i]);
        NewlyHeardPassed(g, frame, s, a.i, m);
      }
    }
  }

  lemma StartProgressing(g: Graph, frame: AudioMessage)
    requires Launchable(frame)
    ensures Progressing(g, frame, Start(g, frame))
  {
    var s := Start(g, frame);
    forall n: Node, m: Node, h: nat
      | h < 8 && m in Links(g, n) && Heard(n, Relayed(frame, h), h) in s.heard
      ensures Passed(frame, s, n, m, h)
    {
      var links := Links(g, n);
      var k :| 0 <= k < |links| && links[k] == m;
      assert s.pending[k] == Job(n, m, Relayed(frame, 0), 0);
    }
  }

  lemma {:induction false} RunProgressing(
    g: Graph, spare: UserAddress, frame: AudioMessage, run: seq<State>, acts: seq<Action>, n: nat)
    requires Launchable(frame) && AudioFits(frame.data) && IsRun(g, spare, frame, run, acts) && Lossless(acts) && n < |run|
    ensures Progressing(g, frame, run[n])
    ensures Heard(frame.originNode, frame, 0) in run[n].heard
  {
    if n == 0 {
      StartProgressing(g, frame);
    } else {
      hide Progressing, Step, Encode, PeerPacket, Relayed;
      RunProgressing(g, spare, frame, run, acts, n - 1);
      RunInv(g, spare, frame, run, acts, n);
      ProgressStep(g, frame, run[n - 1], acts[n - 1]);
    }
  }

  /** A walk along links that leaves the origin and does not come back to it. */
  predicate Walk(g: Graph, origin: Node, walk: seq<Node>) {
    && walk != [] && walk[0] == origin
    && forall i :: 0 < i < |walk| ==> walk[i] in Links(g, walk[i - 1]) && walk[i] != origin
  }

  lemma {:induction false} WalkHeard(g: Graph, frame: AudioMessage, s: State, walk: seq<Node>, k: nat)
    requires Launchable(frame) && Progressing(g, frame, s) && s.wire == [] && s.pending == []
    requires Heard(frame.originNode, frame, 0) in s.heard
    requires Walk(g, frame.originNode, walk) && k < |walk| && k <= 8
    ensures Heard(walk[k], Relayed(frame, k), k) in s.heard
  {
    if k > 0 {
      WalkHeard(g, frame, s, walk, k - 1);
      assert Passed(frame, s, walk[k - 1], walk[k], k - 1);
    }
  }

  /** If nothing is lost, then once the flood has died down every node that some walk of at most
      eight links reaches has broadcast the frame locally. An oversized payload never leaves the
      origin, since the first receiver's decoder refuses it. */
  lemma FloodReachesEveryone(
    g: Graph, spare: UserAddress, frame: AudioMessage, run: seq<State>, acts: seq<Action>, walk: seq<Node>)
    requires Launchable(frame) && AudioFits(frame.data) && IsRun(g, spare, frame, run, acts) && Lossless(acts)
    requires run[|acts|].wire == [] && run[|acts|].pending == []
    requires Walk(g, frame.originNode, walk) && |walk| <= 9
    ensures Heard(walk[|walk| - 1], Relayed(frame, |walk| - 1), |walk| - 1) in run[|acts|].heard
  {
    RunProgressing(g, spare, frame, run, acts, |acts|);
    WalkHeard(g, frame, run[|acts|], walk, |walk| - 1);
  }

  // ---------------------------------------------------------------- and nobody else

  /** Some walk of `h` links leads from the origin to `n`. */
  ghost predicate Joined(g: Graph, origin: Node, n: Node, h: nat) {
    exists walk :: Walk(g, origin, walk) && |walk| == h + 1 && walk[h] == n
  }

  /** A link leads to `dest` from a node that some walk of one link fewer reaches. */
  ghost predicate Inbound(g: Graph, origin: Node, dest: Node, hops: nat) {
    hops > 0 && exists from :: dest in Links(g, from) && Joined(g, origin, from, hops - 1)
  }

  ghost predicate Traced(g: Graph, frame: AudioMessage, s: State) {
    && (forall h :: h in s.heard ==> Joined(g, frame.originNode, h.node, h.hops))
    && (forall j :: j in s.pending ==> j.dest in Links(g, j.from) && Joined(g, frame.originNode, j.from, j.hops))
    && (forall c :: c in s.wire ==> Inbound(g, frame.originNode, c.dest, c.hops))
  }

  lemma WalkOn(g: Graph, origin: Node, dest: Node, hops: nat)
    requires Inbound(g, origin, dest, hops) && dest != origin
    ensures Joined(g, origin, dest, hops)
  {
    var from :| dest in Links(g, from) && Joined(g, origin, from, hops - 1);
    var walk :| Walk(g, origin, walk) && |walk| == hops && walk[hops - 1] == from;
    var on := walk + [dest];
    assert Walk(g, origin, on) && on[hops] == dest;
  }

  lemma WithoutFrom<T>(s: seq<T>, i: nat)
    requires i < |s|
    ensures forall x :: x in Without(s, i) ==> x in s
  {
  }

  lemma TracedReceive(g: Graph, frame: AudioMessage, s: State, i: nat)
    requires i < |s.wire| && Inv(frame, s) && Traced(g, frame, s)
    ensures Traced(g, frame, GoodStep(g, frame, s, Receive(i)))
  {
    hide Encode, PeerPacket, Relayed, Joined, Inbound, Without;
    var c := s.wire[i];
    assert c in s.wire && GoodCopy(frame, c);
    WithoutFrom(s.wire, i);
    if c.dest != frame.originNode {
      WalkOn(g, frame.originNode, c.dest, c.hops);
    }
  }

  lemma TracedSend(g: Graph, frame: AudioMessage, s: State, i: nat)
    requires i < |s.pending| && Inv(frame, s) && Traced(g, frame, s)
    ensures Traced(g, frame, GoodStep(g, frame, s, Send(i)))
  {
    hide Encode, PeerPacket, Relayed, Joined, Inbound, Without;
    var j := s.pending[i];
    assert j in s.pending && GoodJob(frame, j);
    WithoutFrom(s.pending, i);
    LinkOn(g, frame.originNode, j.from, j.dest, j.hops);
  }

  lemma TracedStep(g: Graph, frame: AudioMessage, s: State, a: Action)
    requires Enabled(s, a) && Inv(frame, s) && Traced(g, frame, s)
    ensures Traced(g, frame, GoodStep(g, frame, s, a))
  {
    match a
    case Receive(i) => TracedReceive(g, frame, s, i);
    case Send(i) => TracedSend(g, frame, s, i);
    case LoseCopy(i) =>
      hide Joined, Inbound, Inv, Without;
      WithoutFrom(s.wire, i);
    case LoseJob(i) =>
      hide Joined, Inbound, Inv, Without;
      WithoutFrom(s.pending, i);
  }

  lemma LinkOn(g: Graph, origin: Node, from: Node, dest: Node, hops: nat)
    requires dest in Links(g, from) && Joined(g, origin, from, hops)
    ensures Inbound(g, origin, dest, hops + 1)
  {
  }

  lemma {:induction false} RunTraced(
    g: Graph, spare: UserAddress, frame: AudioMessage, run: seq<State>, acts: seq<Action>, n: nat)
    requires Launchable(frame) && IsRun(g, spare, frame, run, acts) && n < |run|
    ensures Traced(g, frame, run[n])
  {
    if n == 0 {
      assert Walk(g, frame.originNode, [frame.originNode]);
      assert Joined(g, frame.originNode, frame.originNode, 0);
    } else {
      hide Traced, Step, Encode, PeerPacket, Relayed;
      RunTraced(g, spare, frame, run, acts, n - 1);
      RunInv(g, spare, frame, run, acts, n);
      TracedStep(g, frame, run[n - 1], acts[n - 1]);
    }
  }

  /** A node that heard the frame after `h` hops, whatever was lost, is joined to the origin by a walk
      of `h` links. A finished flood that lost nothing was heard at exactly the nodes that some walk
      of at most eight links reaches. */
  lemma FloodReachesExactly(
    g: Graph, spare: UserAddress, frame: AudioMessage, run: seq<State>, acts: seq<Action>, n: Node)
    requires Launchable(frame) && AudioFits(frame.data) && IsRun(g, spare, frame, run, acts)
    ensures forall h :: h in run[|acts|].heard ==> h.hops <= 8 && Joined(g, frame.originNode, h.node, h.hops)
    ensures Lossless(acts) && run[|acts|].wire == [] && run[|acts|].pending == [] ==>
      ((exists h :: h in run[|acts|].heard && h.node == n) <==> exists d: nat :: d <= 8 && Joined(g, frame.originNode, n, d))
  {
    var s := run[|acts|];
    RunTraced(g, spare, frame, run, acts, |acts|);
    RunInv(g, spare, frame, run, acts, |acts|);
    hide Step, Encode, PeerPacket, Relayed;
    assert forall h :: h in s.heard ==> GoodHeard(frame, h);
    if Lossless(acts) && s.wire == [] && s.pending == [] {
      forall d: nat | d <= 8 && Joined(g, frame.originNode, n, d) ensures exists h :: h in s.heard && h.node == n {
        var walk :| Walk(g, frame.originNode, walk) && |walk| == d + 1 && walk[d] == n;
        FloodReachesEveryone(g, spare, frame, run, acts, walk);
        assert Heard(n, Relayed(frame, d), d) in s.heard;
      }
    }
  }
}
