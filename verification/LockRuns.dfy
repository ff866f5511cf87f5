/**
 Interleavings built move by move: handlers that finish what they began before a hangup, and a run
 in which a call goes on in both directions after it.
 */
module LockRuns {
  import opened Basics
  import opened Bytes
  import opened Addresses
  import opened Codec
  import opened Rooms
  import opened Registry
  import opened Handlers
  import opened LockSteps
  import opened LockRevocation
  import CallControl

  datatype Trail = Trail(states: seq<System>, moves: seq<Move>)

  ghost predicate IsTrail(h: Trail) {
    IsInterleaving(h.states, h.moves)
  }

  function Last(h: Trail): (s: System)
    requires h.states != []
  {
    h.states[|h.states| - 1]
  }

  /** `h'` goes on from where `h` ends. */
  ghost predicate Continues(h: Trail, h': Trail) {
    IsTrail(h) && IsTrail(h') && h.states <= h'.states && h.moves <= h'.moves
  }

  lemma Extend(h: Trail, m: Move, s': System) returns (h': Trail)
    requires IsTrail(h) && Moves(Last(h), m, s')
    ensures IsTrail(h') && Continues(h, h') && Last(h') == s' && h'.moves == h.moves + [m] && h'.states == h.states + [s']
  {
    hide Moves;
    h' := Trail(h.states + [s'], h.moves + [m]);
    forall n | 0 <= n < |h'.moves| ensures Moves(h'.states[n], h'.moves[n], h'.states[n + 1]) {
      if n < |h.moves| {
        assert Moves(h.states[n], h.moves[n], h.states[n + 1]);
      }
    }
  }

  lemma ContinuesOn(h: Trail, h1: Trail, h2: Trail)
    requires Continues(h, h1) && Continues(h1, h2)
    ensures Continues(h, h2)
  {
  }

  // ---------------------------------------------------------------- single acquisitions

  predicate AtPc(s: System, k: Chan, c: Cid, pc: Pc) {
    k in s.tasks && s.tasks[k] == Task(c, pc) && c in s.identity
  }

  /** The system after channel `k` has made the effect `e`. */
  function After(s: System, k: Chan, e: Effect): (s': System)
    requires k in s.tasks
  {
    System(e.r, s.identity, s.tasks[k := Task(s.tasks[k].c, e.pc)], s.log + e.events)
  }

  /** Any handler can take the lock whenever nobody else does. */
  lemma Step(h: Trail, k: Chan, c: Cid, pc: Pc, now: Time, e: Effect) returns (h': Trail)
    requires IsTrail(h) && AtPc(Last(h), k, c, pc) && !pc.Idle? && !pc.RoomAudio? && !pc.RoomLeave?
    requires e == Micro(Last(h).reg, c, Last(h).identity[c], pc, now, Last(h).reg.rooms)
    ensures IsTrail(h') && Continues(h, h') && Last(h') == After(Last(h), k, e)
    ensures h'.moves == h.moves + [Acquire(k, now, Last(h).reg.rooms)] && h'.states == h.states + [Last(h')]
  {
    var s, s' := Last(h), After(Last(h), k, e);
    assert RoomOutcome(s.reg, c, pc, s.reg.rooms);
    hide Micro, RoomOutcome, IsTrail;
    assert Moves(s, Acquire(k, now, s.reg.rooms), s');
    h' := Extend(h, Acquire(k, now, s.reg.rooms), s');
  }

  /** An acquisition that only decides where to go. */
  lemma Look(h: Trail, k: Chan, c: Cid, pc: Pc, now: Time, pc': Pc) returns (h': Trail)
    requires IsTrail(h) && AtPc(Last(h), k, c, pc) && !pc.Idle? && !pc.RoomAudio? && !pc.RoomLeave?
    requires Micro(Last(h).reg, c, Last(h).identity[c], pc, now, Last(h).reg.rooms) == Effect(Last(h).reg, pc', [])
    ensures IsTrail(h') && Continues(h, h') && Last(h') == Last(h).(tasks := Last(h).tasks[k := Task(c, pc')])
    ensures h'.moves == h.moves + [Acquire(k, now, Last(h).reg.rooms)] && h'.states == h.states + [Last(h')]
  {
    hide Micro;
    h' := Step(h, k, c, pc, now, Effect(Last(h).reg, pc', []));
    assert Last(h).log + [] == Last(h).log;
  }

  // ---------------------------------------------------------------- handlers that are past their checks

  /** A handler that has passed its checks sends its frame, whatever happened to the tables since. It
      also makes the other end its target. */
  lemma FrameFollows(h: Trail, k: Chan, c: Cid, f: Frame, t: Cid) returns (h': Trail)
    requires IsTrail(h) && f.payload != []
    requires AtPc(Last(h), k, c, SetTarget(f, t)) || AtPc(Last(h), k, c, Emit(f, t))
    ensures IsTrail(h') && Continues(h, h') && |h'.moves| <= |h.moves| + 2
    ensures Last(h').log == Last(h).log + [Broadcast(c, Last(h).identity[c], f.key, t)]
    ensures Last(h').identity == Last(h).identity && Last(h').tasks == Last(h).tasks[k := Task(c, Idle)]
    ensures AtPc(Last(h), k, c, SetTarget(f, t)) ==>
      Last(h').reg == Last(h).reg.(targets := Last(h).reg.targets[c := f.key])
  {
    var h1, s := h, Last(h);
    assert h.states != [];
    hide IsTrail;
    if AtPc(s, k, c, SetTarget(f, t)) {
      var r' := s.reg.(targets := s.reg.targets[c := f.key]);
      h1 := Step(h, k, c, SetTarget(f, t), 0.0, Effect(r', Emit(f, t), []));
      assert s.log + [] == s.log;
    }
    var s1 := Last(h1);
    h' := Step(h1, k, c, Emit(f, t), 0.0, Effect(s1.reg, Idle, [Broadcast(c, s1.identity[c], f.key, t)]));
    if AtPc(s, k, c, SetTarget(f, t)) {
      ContinuesOn(h, h1, h');
    }
  }

  /** So a hangup is defeated by every handler with a payload that is past its checks: the run can go
      on to a frame between the two ends with no acceptance on the way. */
  lemma LateHandlerDefeatsHangup(h: Trail, k: Chan, f: Frame, t: Cid, a: UserAddress, b: UserAddress) returns (h': Trail)
    requires IsTrail(h) && OwnedBy(Last(h), k, a) && Denotes(Last(h).identity, t, b) && f.payload != []
    requires Last(h).tasks[k].pc == SetTarget(f, t) || Last(h).tasks[k].pc == Emit(f, t)
    ensures IsTrail(h') && Continues(h, h') && Last(h).log <= Last(h').log
    ensures NoneJoins(Last(h').identity, Logged(Last(h), Last(h')), a, b)
    ensures !NoneFrames(Last(h').identity, Logged(Last(h), Last(h')), a, b)
    ensures Last(h).tasks[k].pc.SetTarget? && f.key == b ==> Mutual(Last(h').reg, Last(h).tasks[k].c, b)
  {
    var c := Last(h).tasks[k].c;
    h' := FrameFollows(h, k, c, f, t);
    hide IsTrail;
    var e := Broadcast(c, a, f.key, t);
    assert Logged(Last(h), Last(h')) == [e];
    assert FrameBetween(Last(h').identity, e, a, b);
    assert e in Logged(Last(h), Last(h'));
  }

  /** A handler between accepting and choosing its target opens the way for the other end. */
  lemma LateAcceptReopens(h: Trail, k: Chan, b: UserAddress) returns (h': Trail)
    requires IsTrail(h) && k in Last(h).tasks && Last(h).tasks[k].c in Last(h).identity
    requires Last(h).tasks[k].pc == AcceptTarget(b) && Last(h).tasks[k].c !in Last(h).reg.targets
    ensures IsTrail(h') && Continues(h, h') && Last(h').log == Last(h).log && Mutual(Last(h').reg, Last(h).tasks[k].c, b)
  {
    var s := Last(h);
    var c := s.tasks[k].c;
    hide IsTrail;
    var r' := s.reg.(targets := s.reg.targets[c := b]);
    h' := Step(h, k, c, AcceptTarget(b), 0.0, Effect(r', NotifyFind(b, AcceptedNotice), []));
    assert s.log + [] == s.log;
  }

  // ---------------------------------------------------------------- two clients

  /** Two distinct full addresses. */
  predicate Two(a: UserAddress, b: UserAddress) {
    Exact(a) && Exact(b) && a != b
  }

  /** Clients 1 and 2 are connected as `a` and `b`, each with a channel, and nobody has been rejected. */
  predicate Pair(r: Tables, a: UserAddress, b: UserAddress) {
    && r.addresses == map[1 := a, 2 := b] && r.channels == {1, 2} && r.rejected == map[]
    && r.lastPong == map[1 := 0.0, 2 := 0.0]
  }

  function Other(c: Cid): (d: Cid)
    requires c == 1 || c == 2
  {
    3 - c
  }

  function AddressOf(a: UserAddress, b: UserAddress, c: Cid): (x: UserAddress) {
    if c == 1 then a else b
  }

  lemma PairFinds(r: Tables, a: UserAddress, b: UserAddress, c: Cid)
    requires Two(a, b) && Pair(r, a, b) && (c == 1 || c == 2)
    ensures Find(r.addresses, AddressOf(a, b, c)) == Found(c)
  {
    CallControl.ExactHolder(r, AddressOf(a, b, c), c);
  }

  /** Channels 1 and 2 belong to the two clients. */
  predicate Ready(s: System, a: UserAddress, b: UserAddress) {
    && Pair(s.reg, a, b) && s.identity == map[1 := a, 2 := b]
    && 1 in s.tasks && 2 in s.tasks && s.tasks[1].c == 1 && s.tasks[2].c == 2
  }

  const START_TRAIL := Trail([START], [])

  lemma Connected(h: Trail, c: Cid, x: UserAddress) returns (h': Trail)
    requires IsTrail(h) && c !in Last(h).identity && forall d :: d in Last(h).reg.addresses ==> Last(h).reg.addresses[d] != x
    ensures IsTrail(h') && Continues(h, h')
    ensures Last(h') == Last(h).(reg := Seat(Last(h).reg, c, x, 0.0), identity := Last(h).identity[c := x])
  {
    var s := Last(h);
    var s' := s.(reg := Seat(s.reg, c, x, 0.0), identity := s.identity[c := x]);
    assert Moves(s, Connect(c, x, 0.0), s');
    h' := Extend(h, Connect(c, x, 0.0), s');
  }

  lemma Opened(h: Trail, c: Cid, k: Chan) returns (h': Trail)
    requires IsTrail(h) && c in Last(h).identity && k !in Last(h).tasks
    ensures IsTrail(h') && Continues(h, h')
    ensures var s := Last(h);
      Last(h') == s.(reg := s.reg.(channels := s.reg.channels + {c}), tasks := s.tasks[k := Task(c, Idle)])
    ensures h'.moves == h.moves + [OpenChannel(c, k)] && h'.states == h.states + [Last(h')]
  {
    var s := Last(h);
    var s' := s.(reg := s.reg.(channels := s.reg.channels + {c}), tasks := s.tasks[k := Task(c, Idle)]);
    assert Moves(s, OpenChannel(c, k), s');
    h' := Extend(h, OpenChannel(c, k), s');
  }

  /** Two clients connect and open a channel each. */
  lemma Opening(a: UserAddress, b: UserAddress) returns (h: Trail)
    requires Two(a, b)
    ensures IsTrail(h) && Ready(Last(h), a, b) && Last(h).tasks == map[1 := Task(1, Idle), 2 := Task(2, Idle)]
    ensures Last(h).log == [] && Last(h).reg.targets == map[] && Last(h).reg.approved == map[] && Last(h).reg.notified == map[]
  {
    var h0 := START_TRAIL;
    assert IsTrail(h0);
    var h1 := Connected(h0, 1, a);
    var h2 := Connected(h1, 2, b);
    var h3 := Opened(h2, 1, 1);
    h := Opened(h3, 2, 2);
    hide IsTrail;
    assert Last(h).reg.addresses == map[1 := a, 2 := b];
  }

  /** A packet without a claimed sender arrives on an idle channel. */
  lemma Arrives(h: Trail, k: Chan, c: Cid, p: Packet) returns (h': Trail)
    requires IsTrail(h) && AtPc(Last(h), k, c, Idle)
    requires p.ClientTargetedAudio? || p.CallAcceptResponse? || p.CallHangup?
    ensures IsTrail(h') && Continues(h, h') && h'.moves == h.moves + [Arrive(k, p)] && h'.states == h.states + [Last(h')]
    ensures var s := Last(h);
      Last(h') == s.(tasks := s.tasks[k := Task(c, Begin(p))], log := s.log + Arrival(c, p))
  {
    var s := Last(h);
    var s' := s.(tasks := s.tasks[k := Task(c, Begin(p))], log := s.log + Arrival(c, p));
    assert Moves(s, Arrive(k, p), s');
    h' := Extend(h, Arrive(k, p), s');
  }

  lemma NotAlready(r: Tables, a: UserAddress, b: UserAddress, c: Cid)
    requires Two(a, b) && Pair(r, a, b) && (c == 1 || c == 2) && c !in r.targets
    ensures !IsClientInRoom(r, c, AddressOf(a, b, Other(c)))
  {
    ExactMatchesOnlyItself(AddressOf(a, b, c), AddressOf(a, b, Other(c)));
  }

  lemma PointingIsMutual(r: Tables, t: Cid, me: UserAddress)
    requires t in r.targets && r.targets[t] == me
    ensures Mutual(r, t, me)
  {
  }

  /** The checks of a caller whom the other end has made its target: they all pass. */
  lemma CallWalk(h: Trail, k: Chan, c: Cid, f: Frame, a: UserAddress, b: UserAddress) returns (h': Trail)
    requires Two(a, b) && IsTrail(h) && Ready(Last(h), a, b) && (c == 1 || c == 2)
    requires AtPc(Last(h), k, c, CheckRoom(f)) && f.key == AddressOf(a, b, Other(c)) && c !in Last(h).reg.targets
    requires Other(c) in Last(h).reg.targets && Last(h).reg.targets[Other(c)] == AddressOf(a, b, c)
    ensures IsTrail(h') && Continues(h, h') && Last(h') == Last(h).(tasks := Last(h).tasks[k := Task(c, SetTarget(f, Other(c)))])
  {
    var s, t := Last(h), Other(c);
    NotAlready(s.reg, a, b, c);
    PairFinds(s.reg, a, b, t);
    PointingIsMutual(s.reg, t, s.identity[c]);
    var same := IsClientInSameCall(s.reg, c, f.key);
    hide IsTrail, Continues, Find, IsClientInRoom, IsClientInSameCall, Mutual, Two;
    var h1 := Look(h, k, c, CheckRoom(f), 0.0, FindTarget(f));
    var h2 := Look(h1, k, c, FindTarget(f), 0.0, CheckStale(f, t));
    var h3 := Look(h2, k, c, CheckStale(f, t), 0.0, CheckRejected(f, t));
    ContinuesOn(h, h1, h2);
    ContinuesOn(h, h2, h3);
    h' := CallWalkOn(h3, k, c, f, t);
    ContinuesOn(h, h3, h');
  }

  lemma CallWalkOn(h: Trail, k: Chan, c: Cid, f: Frame, t: Cid) returns (h': Trail)
    requires IsTrail(h) && AtPc(Last(h), k, c, CheckRejected(f, t))
    requires !IsCallRejected(Last(h).reg, t, Last(h).identity[c]) && Mutual(Last(h).reg, t, Last(h).identity[c])
    ensures IsTrail(h') && Continues(h, h') && Last(h') == Last(h).(tasks := Last(h).tasks[k := Task(c, SetTarget(f, t))])
  {
    var same := IsClientInSameCall(Last(h).reg, c, f.key);
    hide IsTrail, Continues, IsClientInSameCall, Mutual, IsCallRejected;
    var h1 := Look(h, k, c, CheckRejected(f, t), 0.0, CheckSameCall(f, t));
    var h2 := Look(h1, k, c, CheckSameCall(f, t), 0.0, CheckMutual(f, t, same));
    h' := Look(h2, k, c, CheckMutual(f, t, same), 0.0, SetTarget(f, t));
    ContinuesOn(h, h1, h2);
    ContinuesOn(h, h2, h');
  }

  lemma NotifyMicros(r: Tables, c: Cid, me: UserAddress, key: UserAddress, n: Notice, d: Cid)
    requires Find(r.addresses, key) == Found(d) && d in r.channels
    ensures Micro(r, c, me, NotifyFind(key, n), 0.0, r.rooms) == Effect(r, NotifySend(d, n), [])
    ensures Micro(r, c, me, NotifySend(d, n), 0.0, r.rooms) == Effect(r, NotifyAddress(d, n), [])
    ensures Micro(r, c, me, NotifyAddress(d, n), 0.0, r.rooms) == Effect(r, Idle, [NoticeTo(d, c, n, Get(r.addresses, c))])
  {
    hide Find;
  }

  /** The notification that ends an accept or a hangup. */
  lemma Notified(h: Trail, k: Chan, c: Cid, key: UserAddress, n: Notice, d: Cid) returns (h': Trail)
    requires IsTrail(h) && AtPc(Last(h), k, c, NotifyFind(key, n))
    requires Find(Last(h).reg.addresses, key) == Found(d) && d in Last(h).reg.channels
    ensures IsTrail(h') && Continues(h, h')
    ensures var s := Last(h);
      Last(h') == s.(tasks := s.tasks[k := Task(c, Idle)], log := s.log + [NoticeTo(d, c, n, Get(s.reg.addresses, c))])
  {
    var s := Last(h);
    NotifyMicros(s.reg, c, s.identity[c], key, n, d);
    hide IsTrail, Find, Continues, Micro;
    var h1 := Look(h, k, c, NotifyFind(key, n), 0.0, NotifySend(d, n));
    var h2 := Look(h1, k, c, NotifySend(d, n), 0.0, NotifyAddress(d, n));
    h' := Step(h2, k, c, NotifyAddress(d, n), 0.0, Effect(s.reg, Idle, [NoticeTo(d, c, n, Get(s.reg.addresses, c))]));
    ContinuesOn(h, h1, h2);
    ContinuesOn(h, h2, h');
  }

  /** Client 2 accepts `a` and, having no target yet, makes it its target. */
  lemma Accepting(h: Trail, a: UserAddress, b: UserAddress) returns (h': Trail)
    requires Two(a, b) && IsTrail(h) && Ready(Last(h), a, b) && AtPc(Last(h), 2, 2, Idle)
    requires Last(h).reg.approved == map[] && Last(h).reg.targets == map[]
    ensures IsTrail(h') && Continues(h, h') && Ready(Last(h'), a, b)
    ensures Last(h').tasks == Last(h).tasks[2 := Task(2, Idle)]
    ensures Last(h').reg.targets == map[2 := a]
  {
    var p := CallAcceptResponse(a);
    var h1 := Arrives(h, 2, 2, p);
    var s1 := Last(h1);
    PairFinds(s1.reg, a, b, 1);
    hide IsTrail, Continues, Find, Two;
    var r2 := s1.reg.(approved := Mark(s1.reg.approved, 2, a));
    var h2 := Step(h1, 2, 2, AcceptMark(a), 0.0, Effect(r2, AcceptTarget(a), [Accepted(2, a)]));
    var r3 := r2.(targets := r2.targets[2 := a]);
    var h3 := Step(h2, 2, 2, AcceptTarget(a), 0.0, Effect(r3, NotifyFind(a, AcceptedNotice), []));
    h' := Notified(h3, 2, 2, a, AcceptedNotice, 1);
    ContinuesOn(h, h1, h2);
    ContinuesOn(h, h2, h3);
    ContinuesOn(h, h3, h');
  }

  lemma ClearKeepsPair(r: Tables, a: UserAddress, b: UserAddress)
    requires Pair(r, a, b)
    ensures Pair(ClearCallSession(r, 2, a), a, b)
    ensures Two(a, b) && r.targets.Keys <= {2} ==> ClearCallSession(r, 2, a).targets == map[]
    ensures Two(a, b) ==> !Has(ClearCallSession(r, 2, a).notified, 2, 1)
  {
    ClearFrame(r, 2, a);
    ClearExactly(r, 2, a);
    var r' := ClearCallSession(r, 2, a);
    assert r'.rejected == map[];
    if Two(a, b) {
      PairFinds(r, a, b, 1);
    }
    hide ClearCallSession, Find, Has, MatchesPrefix;
  }

  /** Client 2 hangs up on `a`; `at` is the move that clears the tables. */
  lemma HangingUp(h: Trail, a: UserAddress, b: UserAddress) returns (h': Trail, at: nat)
    requires Two(a, b) && IsTrail(h) && Ready(Last(h), a, b) && AtPc(Last(h), 2, 2, Idle) && Last(h).reg.targets.Keys <= {2}
    ensures IsTrail(h') && Continues(h, h') && Ready(Last(h'), a, b)
    ensures Last(h').tasks == Last(h).tasks[2 := Task(2, Idle)]
    ensures Last(h').reg == ClearCallSession(Last(h).reg, 2, a) && Last(h').reg.targets == map[]
    ensures |h.moves| <= at < |h'.moves| && h'.moves[at].Acquire? && at + 1 < |h'.states|
    ensures h'.moves[at].k == 2 && HangsUp(h'.states[at], 2, b, a)
    ensures Last(h').log == h'.states[at + 1].log + [NoticeTo(1, 2, EndedNotice, Some(b))]
  {
    var h1 := Arrives(h, 2, 2, CallHangup(a));
    var s1 := Last(h1);
    ClearKeepsPair(s1.reg, a, b);
    var r2 := ClearCallSession(s1.reg, 2, a);
    PairFinds(r2, a, b, 1);
    at := |h1.moves|;
    assert |h1.states| == at + 1;
    hide IsTrail, Find, ClearCallSession, Two;
    var h2 := Step(h1, 2, 2, HangupClear(a), 0.0, Effect(r2, NotifyFind(a, EndedNotice), []));
    h' := Notified(h2, 2, 2, a, EndedNotice, 1);
    ContinuesOn(h, h1, h2);
    ContinuesOn(h, h2, h');
    assert h'.moves[at] == h2.moves[at] && h'.states[at] == h2.states[at] && h'.states[at + 1] == h2.states[at + 1];
  }

  // ---------------------------------------------------------------- a hangup outrun

  const CALL_PAYLOAD: seq<byte> := [0]

  /** Up to the moment client 1 has passed its checks towards client 2. */
  lemma PastItsChecks(a: UserAddress, b: UserAddress) returns (h: Trail)
    requires Two(a, b)
    ensures IsTrail(h) && Ready(Last(h), a, b) && AtPc(Last(h), 2, 2, Idle)
    ensures AtPc(Last(h), 1, 1, SetTarget(Frame(b, 1, CALL_PAYLOAD), 2)) && Last(h).reg.targets.Keys <= {2}
  {
    var f := Frame(b, 1, CALL_PAYLOAD);
    var h0 := Opening(a, b);
    var h1 := Accepting(h0, a, b);
    var h2 := Arrives(h1, 1, 1, ClientTargetedAudio(b, 1, CALL_PAYLOAD));
    assert Last(h2).tasks[1].pc == CheckRoom(f);
    hide IsTrail, Two;
    h := CallWalk(h2, 1, 1, f, a, b);
  }

  /** Client 2 answers the frame that outran its hangup, and gets through as well. */
  lemma Answering(h: Trail, a: UserAddress, b: UserAddress) returns (h': Trail)
    requires Two(a, b) && IsTrail(h) && Ready(Last(h), a, b) && AtPc(Last(h), 2, 2, Idle)
    requires Last(h).reg.targets == map[1 := b]
    ensures IsTrail(h') && Continues(h, h') && Last(h').identity == Last(h).identity
    ensures Last(h').log == Last(h).log + [AudioFrom(2, a), Broadcast(2, b, a, 1)]
  {
    var f := Frame(a, 1, CALL_PAYLOAD);
    var h1 := Arrives(h, 2, 2, ClientTargetedAudio(a, 1, CALL_PAYLOAD));
    assert Last(h1).tasks[2].pc == CheckRoom(f);
    hide IsTrail, Two;
    var h2 := CallWalk(h1, 2, 2, f, a, b);
    h' := FrameFollows(h2, 2, 2, f, 1);
    ContinuesOn(h, h1, h2);
    ContinuesOn(h, h2, h');
  }

  /** For any two full addresses, a run in which a hangup leaves them apart in the tables, and yet
      frames pass in both directions after it with no acceptance since: the first by a handler that
      was past its checks, the second because that handler opened the way back. */
  lemma HangupOutrun(a: UserAddress, b: UserAddress) returns (h: Trail, at: nat)
    requires Two(a, b)
    ensures IsTrail(h) && at + 1 < |h.states| && h.moves[at].Acquire? && HangsUp(h.states[at], h.moves[at].k, b, a)
    ensures CallControl.Apart(h.states[at + 1].reg, a, b)
    ensures var es := Logged(h.states[at + 1], Last(h));
      && NoneJoins(Last(h).identity, es, a, b)
      && Broadcast(1, a, b, 2) in es && Broadcast(2, b, a, 1) in es
  {
    var h1 := PastItsChecks(a, b);
    var h2;
    h2, at := HangingUp(h1, a, b);
    OutrunApart(h2, at, a, b);
    hide IsTrail, Two, CallControl.Apart, HangsUp;
    h := BothWays(h2, a, b);
    var cut := h2.states[at + 1];
    assert h.states[at] == h2.states[at] && h.states[at + 1] == cut && h.moves[at] == h2.moves[at];
    SinceHangup(cut, Last(h), a, b);
  }

  lemma SinceHangup(cut: System, s: System, a: UserAddress, b: UserAddress)
    requires s.log == cut.log + [NoticeTo(1, 2, EndedNotice, Some(b))]
      + [Broadcast(1, a, b, 2)] + [AudioFrom(2, a), Broadcast(2, b, a, 1)]
    ensures var es := Logged(cut, s);
      && NoneJoins(s.identity, es, a, b)
      && Broadcast(1, a, b, 2) in es && Broadcast(2, b, a, 1) in es
  {
    var es := [NoticeTo(1, 2, EndedNotice, Some(b)), Broadcast(1, a, b, 2), AudioFrom(2, a), Broadcast(2, b, a, 1)];
    assert Logged(cut, s) == es;
    assert es[1] in es && es[3] in es;
  }

  lemma BothWays(h: Trail, a: UserAddress, b: UserAddress) returns (h': Trail)
    requires Two(a, b) && IsTrail(h) && Ready(Last(h), a, b) && AtPc(Last(h), 2, 2, Idle) && Last(h).reg.targets == map[]
    requires AtPc(Last(h), 1, 1, SetTarget(Frame(b, 1, CALL_PAYLOAD), 2))
    ensures IsTrail(h') && Continues(h, h')
    ensures Last(h').log == Last(h).log + [Broadcast(1, a, b, 2)] + [AudioFrom(2, a), Broadcast(2, b, a, 1)]
  {
    hide IsTrail, Two, Continues;
    var h1 := FrameFollows(h, 1, 1, Frame(b, 1, CALL_PAYLOAD), 2);
    h' := Answering(h1, a, b);
    ContinuesOn(h, h1, h');
  }

  lemma OutrunApart(h: Trail, at: nat, a: UserAddress, b: UserAddress)
    requires IsTrail(h) && Two(a, b) && at + 1 < |h.states| && h.moves[at].Acquire? && h.moves[at].k == 2
    requires HangsUp(h.states[at], 2, b, a)
    ensures CallControl.Apart(h.states[at + 1].reg, a, b)
  {
    EveryInterleavingKeeps(h.states, h.moves, at);
    var s, m, s' := h.states[at], h.moves[at], h.states[at + 1];
    assert Moves(s, m, s');
    HangupTables(s, 2, m.now, m.rooms', s', b, a);
    hide IsTrail, Moves, Exact, ClearCallSession;
    CallControl.ClearSeparates(s.reg, s.tasks[2].c, b, a);
    CallControl.ApartSym(s'.reg, b, a);
  }
}
