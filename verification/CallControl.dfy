/**
 Whole runs of the daemon with handlers taken as atomic: what every reachable registry satisfies,
 and who may broadcast 1-to-1 audio to whom, up to and after a hangup.
 */
module CallControl {
  import opened Basics
  import opened Bytes
  import opened Addresses
  import opened Codec
  import opened Rooms
  import opened Registry
  import opened Handlers

  /** The registry and the authenticated address of every connection there has ever been. */
  datatype Daemon = Daemon(reg: Tables, identity: map<Cid, UserAddress>)

  datatype Op =
    | Connect(c: Cid, address: UserAddress, now: Time)
    | OpenChannel(c: Cid)
    | Disconnect(c: Cid)
    | Receive(c: Cid, packet: Packet, now: Time, rooms': RoomTables)

  /** Every room outcome a handler meets on its way is a legal one. */
  ghost predicate LegalRooms(r: Tables, c: Cid, me: UserAddress, pc: Pc, now: Time, rooms': RoomTables)
    decreases Rank(pc)
  {
    pc.Idle? || (
      MicroTerminates(r, c, me, pc, now, rooms');
      var e := Micro(r, c, me, pc, now, rooms');
      RoomOutcome(r, c, pc, rooms') && LegalRooms(e.r, c, me, e.pc, now, rooms'))
  }

  /** One operation of the daemon, with the events it causes. Connection ids are never reused. */
  ghost predicate Next(d: Daemon, op: Op, d': Daemon, out: seq<Event>) {
    match op
    case Connect(c, address, now) =>
      && c !in d.identity && d'.identity == d.identity[c := address] && out == []
      && Registers(d.reg, c, address, now, d'.reg)
    case OpenChannel(c) =>
      c in d.identity && d' == d.(reg := d.reg.(channels := d.reg.channels + {c})) && out == []
    case Disconnect(c) => d' == d.(reg := Unregister(d.reg, c)) && out == []
    case Receive(c, p, now, rooms') =>
      && c in d.identity
      && (if ValidSender(p, c, d.identity[c])
          then LegalRooms(d.reg, c, d.identity[c], Begin(p), now, rooms')
            && var e := Handle(d.reg, c, d.identity[c], Begin(p), now, rooms');
               d' == d.(reg := e.r) && out == e.events
          else d' == d && out == [])
  }

  // ---------------------------------------------------------------- reachable daemons

  /** Only ids of connections occur as keys, and registered clients carry their own address. */
  predicate IdsKnown(r: Tables, identity: map<Cid, UserAddress>) {
    && (forall c :: c in r.addresses ==> c in identity && r.addresses[c] == identity[c])
    && r.targets.Keys <= identity.Keys && r.approved.Keys <= identity.Keys && r.notified.Keys <= identity.Keys
  }

  /** What holds of every reachable daemon. */
  predicate Tracked(d: Daemon) {
    Consistent(d.reg) && IdsKnown(d.reg, d.identity)
  }

  /** What an uninterrupted handler knows between two of its acquisitions. */
  predicate Knows(r: Tables, c: Cid, me: UserAddress, pc: Pc) {
    match pc
    case CheckStale(f, t) => Find(r.addresses, f.key) == Found(t)
    case DropStale(f, t) => Find(r.addresses, f.key) == Found(t)
    case CheckRejected(f, t) => Find(r.addresses, f.key) == Found(t) && t != c
    case CheckSameCall(f, t) => Find(r.addresses, f.key) == Found(t) && t != c
    case CheckMutual(f, t, _) => Find(r.addresses, f.key) == Found(t) && t != c
    case CheckFull(f, t) => Find(r.addresses, f.key) == Found(t) && t != c
    case CheckApproved(f, t) => Find(r.addresses, f.key) == Found(t) && t != c
    case CheckNotified(f, t) => Find(r.addresses, f.key) == Found(t) && t != c
    case MarkNotified(f, t) => Find(r.addresses, f.key) == Found(t) && t != c && !HasBeenNotified(r, t, c)
    case SendPrompt(f, t) => HasBeenNotified(r, t, c)
    case SetTarget(f, t) => Find(r.addresses, f.key) == Found(t) && t != c && Permitted(r, t, me)
    case Emit(f, t) => Find(r.addresses, f.key) == Found(t) && t != c && Permitted(r, t, me)
    case _ => true
  }

  /** `t` has let `me` through: by approval, or by having chosen `me` as its own target. */
  predicate Permitted(r: Tables, t: Cid, me: UserAddress) {
    IsCallApproved(r, t, me) || Mutual(r, t, me)
  }

  lemma MicroKnows(r: Tables, c: Cid, me: UserAddress, pc: Pc, now: Time, rooms': RoomTables)
    requires !pc.Idle? && Knows(r, c, me, pc)
    ensures var e := Micro(r, c, me, pc, now, rooms'); Knows(e.r, c, me, e.pc)
  {
    hide MatchesPrefix, Find, ClearCallSession, Unregister, IsClientInRoom, IsClientInSameCall, IsRoomOrTargetFull;
    hide IsStale, IsCallRejected, Join;
  }

  lemma LoudIdsKnown(d: Daemon, c: Cid, pc: Pc, now: Time, rooms': RoomTables)
    requires IdsKnown(d.reg, d.identity) && c in d.identity && !pc.Idle? && !Quiet(pc)
    requires Knows(d.reg, c, d.identity[c], pc)
    ensures IdsKnown(Micro(d.reg, c, d.identity[c], pc, now, rooms').r, d.identity)
  {
    hide MatchesPrefix, Find, ClearCallSession, Unregister, Has;
    if pc.DropStale? {
      UnregisterFrame(d.reg, pc.t);
    } else if pc.HangupClear? {
      ClearFrame(d.reg, c, pc.key);
    } else if pc.MarkNotified? {
      FoundIsRegistered(d.reg, pc.f.key, pc.t);
    }
  }

  lemma MicroTracked(d: Daemon, c: Cid, pc: Pc, now: Time, rooms': RoomTables)
    requires Tracked(d) && c in d.identity && !pc.Idle? && RoomOutcome(d.reg, c, pc, rooms')
    requires Knows(d.reg, c, d.identity[c], pc)
    ensures Tracked(d.(reg := Micro(d.reg, c, d.identity[c], pc, now, rooms').r))
  {
    MicroConsistent(d.reg, c, d.identity[c], pc, now, rooms');
    if Quiet(pc) {
      MicroQuiet(d.reg, c, d.identity[c], pc, now, rooms');
    } else {
      LoudIdsKnown(d, c, pc, now, rooms');
    }
    hide Micro, Consistent, RoomOutcome, Knows, Quiet;
  }

  lemma {:induction false} HandleTracked(d: Daemon, c: Cid, pc: Pc, now: Time, rooms': RoomTables)
    requires Tracked(d) && c in d.identity && Knows(d.reg, c, d.identity[c], pc)
    requires LegalRooms(d.reg, c, d.identity[c], pc, now, rooms')
    ensures Tracked(d.(reg := Handle(d.reg, c, d.identity[c], pc, now, rooms').r))
    decreases Rank(pc)
  {
    if !pc.Idle? {
      hide Tracked, Knows, Micro, Rank, RoomOutcome;
      var me := d.identity[c];
      MicroTerminates(d.reg, c, me, pc, now, rooms');
      var e := Micro(d.reg, c, me, pc, now, rooms');
      MicroTracked(d, c, pc, now, rooms');
      MicroKnows(d.reg, c, me, pc, now, rooms');
      HandleTracked(d.(reg := e.r), c, e.pc, now, rooms');
    } else {
      assert d.(reg := d.reg) == d;
    }
  }

  lemma BeginKnows(r: Tables, c: Cid, me: UserAddress, p: Packet)
    ensures Knows(r, c, me, Begin(p))
  {
  }

  lemma ConnectTracked(d: Daemon, c: Cid, address: UserAddress, now: Time, r': Tables)
    requires Tracked(d) && c !in d.identity && Registers(d.reg, c, address, now, r')
    ensures Tracked(Daemon(r', d.identity[c := address]))
  {
    hide Registers, Consistent, Has;
    RegisterConsistent(d.reg, c, address, now, r');
    RegisterFrame(d.reg, c, address, now, r');
  }

  lemma DisconnectTracked(d: Daemon, c: Cid)
    requires Tracked(d)
    ensures Tracked(d.(reg := Unregister(d.reg, c)))
  {
    UnregisterConsistent(d.reg, c);
    UnregisterFrame(d.reg, c);
    hide Unregister, Consistent;
  }

  lemma NextTracked(d: Daemon, op: Op, d': Daemon, out: seq<Event>)
    requires Tracked(d) && Next(d, op, d', out)
    ensures Tracked(d')
  {
    hide Registers, Unregister, Knows, Handle, LegalRooms;
    match op
    case Connect(c, address, now) => ConnectTracked(d, c, address, now, d'.reg);
    case OpenChannel(c) =>
    case Disconnect(c) => DisconnectTracked(d, c);
    case Receive(c, p, now, rooms') =>
      if ValidSender(p, c, d.identity[c]) {
        BeginKnows(d.reg, c, d.identity[c], p);
        HandleTracked(d, c, Begin(p), now, rooms');
      }
  }

  datatype Run = Run(daemons: seq<Daemon>, ops: seq<Op>, outs: seq<seq<Event>>)

  ghost predicate IsRun(run: Run) {
    && |run.daemons| == |run.ops| + 1 && |run.outs| == |run.ops|
    && run.daemons[0] == Daemon(EMPTY, map[])
    && forall n :: 0 <= n < |run.ops| ==> Next(run.daemons[n], run.ops[n], run.daemons[n + 1], run.outs[n])
  }

  /** In every reachable state no two registered clients share an address, and the tables keyed by
      client agree on who is connected. */
  lemma {:induction false} RegistryInvariant(run: Run, n: nat)
    requires IsRun(run) && n < |run.daemons|
    ensures Tracked(run.daemons[n])
  {
    if n > 0 {
      RegistryInvariant(run, n - 1);
      NextTracked(run.daemons[n - 1], run.ops[n - 1], run.daemons[n], run.outs[n - 1]);
    }
  }

  // ---------------------------------------------------------------- the two ends of a pair

  /** Neither end of the pair of addresses has let the other through. */
  predicate Apart(r: Tables, a: UserAddress, b: UserAddress) {
    && (forall y :: y in r.addresses && r.addresses[y] == b ==> !Closed(r, y, a))
    && (forall x :: x in r.addresses && r.addresses[x] == a ==> !Closed(r, x, b))
  }

  /** `y` has approved `a` or chosen it as its target. */
  predicate Closed(r: Tables, y: Cid, a: UserAddress) {
    Has(r.approved, y, a) || (y in r.targets && r.targets[y] == a)
  }

  predicate AcceptBetween(d: Daemon, op: Op, a: UserAddress, b: UserAddress) {
    && op.Receive? && op.packet.CallAcceptResponse? && op.c in d.identity
    && ((d.identity[op.c] == a && op.packet.callerAddress == b) || (d.identity[op.c] == b && op.packet.callerAddress == a))
  }

  /** A hangup by a registered client at one end, naming the full address of the other. */
  predicate HangupBetween(d: Daemon, op: Op, a: UserAddress, b: UserAddress) {
    && op.Receive? && op.packet.CallHangup? && op.c in d.reg.addresses
    && ((d.reg.addresses[op.c] == a && op.packet.targetAddress == b)
        || (d.reg.addresses[op.c] == b && op.packet.targetAddress == a))
  }

  /** A 1-to-1 frame from one end of the pair to the other. */
  predicate FrameBetween(d: Daemon, e: Event, a: UserAddress, b: UserAddress) {
    && e.Broadcast? && e.t in d.identity
    && ((e.sender == a && d.identity[e.t] == b) || (e.sender == b && d.identity[e.t] == a))
  }

  lemma FewerStayApart(r: Tables, r': Tables, a: UserAddress, b: UserAddress)
    requires Apart(r, a, b)
    requires forall k :: k in r'.addresses ==> k in r.addresses && r'.addresses[k] == r.addresses[k]
    requires forall k :: k in r'.targets ==> k in r.targets && r'.targets[k] == r.targets[k]
    requires forall k: Cid, x: UserAddress :: Has(r'.approved, k, x) ==> Has(r.approved, k, x)
    ensures Apart(r', a, b)
  {
  }

  /** The handler's own checks stop it from choosing a target that would join the pair. */
  lemma PermittedNotApart(d: Daemon, c: Cid, key: UserAddress, t: Cid, a: UserAddress, b: UserAddress)
    requires Tracked(d) && Exact(a) && Exact(b) && Apart(d.reg, a, b) && c in d.identity && d.identity[c] == a
    requires Find(d.reg.addresses, key) == Found(t) && d.reg.addresses[t] == b
    ensures !Permitted(d.reg, t, a)
  {
    assert !Closed(d.reg, t, a);
    if t in d.reg.targets {
      ExactMatchesOnlyItself(d.reg.targets[t], a);
    }
  }

  lemma ExactFinds(r: Tables, b: UserAddress, t: Cid)
    requires Exact(b) && Find(r.addresses, b) == Found(t)
    ensures t in r.addresses && r.addresses[t] == b
  {
    FoundIsRegistered(r, b, t);
    ExactMatchesOnlyItself(r.addresses[t], b);
  }

  /** Setting the target keeps a pair apart, since the checks before it would have failed. */
  lemma SetTargetApart(d: Daemon, c: Cid, key: UserAddress, t: Cid, a: UserAddress, b: UserAddress)
    requires Tracked(d) && Exact(a) && Exact(b) && Apart(d.reg, a, b) && c in d.identity
    requires Find(d.reg.addresses, key) == Found(t) && Permitted(d.reg, t, d.identity[c])
    ensures Apart(d.reg.(targets := d.reg.targets[c := key]), a, b)
  {
    hide MatchesPrefix, Find, Exact, Permitted;
    if c in d.reg.addresses && d.identity[c] == a && key == b {
      ExactFinds(d.reg, b, t);
      PermittedNotApart(d, c, key, t, a, b);
    }
    if c in d.reg.addresses && d.identity[c] == b && key == a {
      ExactFinds(d.reg, a, t);
      PermittedNotApart(d, c, key, t, b, a);
    }
  }

  /** Starting points of a handler that is not an acceptance between the pair. */
  predicate Neutral(d: Daemon, c: Cid, pc: Pc, a: UserAddress, b: UserAddress)
    requires c in d.identity
  {
    pc.AcceptMark? || pc.AcceptTarget? ==>
      !((d.identity[c] == a && pc.key == b) || (d.identity[c] == b && pc.key == a))
  }

  /** The frame a handler emits is never one between the ends of a pair that is apart. */
  lemma EmitApart(d: Daemon, c: Cid, key: UserAddress, t: Cid, a: UserAddress, b: UserAddress)
    requires Tracked(d) && Exact(a) && Exact(b) && Apart(d.reg, a, b) && c in d.identity
    requires Find(d.reg.addresses, key) == Found(t) && Permitted(d.reg, t, d.identity[c])
    ensures !FrameBetween(d, Broadcast(c, d.identity[c], key, t), a, b)
  {
    hide MatchesPrefix, Find, Exact;
    FoundIsRegistered(d.reg, key, t);
    if d.identity[c] == a && d.identity[t] == b {
      PermittedNotApart(d, c, key, t, a, b);
    }
    if d.identity[c] == b && d.identity[t] == a {
      PermittedNotApart(d, c, key, t, b, a);
    }
  }

  lemma ApprovalApart(d: Daemon, c: Cid, key: UserAddress, a: UserAddress, b: UserAddress)
    requires Tracked(d) && Apart(d.reg, a, b) && c in d.identity && Neutral(d, c, AcceptMark(key), a, b)
    ensures Apart(d.reg.(approved := Mark(d.reg.approved, c, key)), a, b)
  {
    hide Has, Consistent;
  }

  lemma TargetApart(d: Daemon, c: Cid, key: UserAddress, a: UserAddress, b: UserAddress)
    requires Tracked(d) && Apart(d.reg, a, b) && c in d.identity && Neutral(d, c, AcceptTarget(key), a, b)
    ensures Apart(d.reg.(targets := d.reg.targets[c := key]), a, b)
  {
    hide Has, Consistent;
  }

  /** An effect after which the pair is still apart and no frame has passed between its ends. */
  predicate StaysApart(d: Daemon, c: Cid, e: Effect, a: UserAddress, b: UserAddress)
    requires c in d.identity
  {
    && Apart(e.r, a, b) && Neutral(d, c, e.pc, a, b)
    && forall i :: 0 <= i < |e.events| ==> !FrameBetween(d, e.events[i], a, b)
  }

  lemma DropStaleApart(d: Daemon, c: Cid, f: Frame, t: Cid, now: Time, rooms': RoomTables, a: UserAddress, b: UserAddress)
    requires Apart(d.reg, a, b) && c in d.identity
    ensures StaysApart(d, c, Micro(d.reg, c, d.identity[c], DropStale(f, t), now, rooms'), a, b)
  {
    hide Unregister;
    UnregisterFrame(d.reg, t);
    FewerStayApart(d.reg, Unregister(d.reg, t), a, b);
  }

  lemma HangupApart(d: Daemon, c: Cid, key: UserAddress, now: Time, rooms': RoomTables, a: UserAddress, b: UserAddress)
    requires Apart(d.reg, a, b) && c in d.identity
    ensures StaysApart(d, c, Micro(d.reg, c, d.identity[c], HangupClear(key), now, rooms'), a, b)
  {
    hide ClearCallSession;
    ClearFrame(d.reg, c, key);
    FewerStayApart(d.reg, ClearCallSession(d.reg, c, key), a, b);
  }

  lemma FramingApart(d: Daemon, c: Cid, pc: Pc, now: Time, rooms': RoomTables, a: UserAddress, b: UserAddress)
    requires Tracked(d) && Exact(a) && Exact(b) && Apart(d.reg, a, b) && c in d.identity
    requires Knows(d.reg, c, d.identity[c], pc) && (pc.SetTarget? || pc.Emit?)
    ensures StaysApart(d, c, Micro(d.reg, c, d.identity[c], pc, now, rooms'), a, b)
  {
    if pc.SetTarget? {
      SetTargetApart(d, c, pc.f.key, pc.t, a, b);
    } else {
      EmitApart(d, c, pc.f.key, pc.t, a, b);
    }
  }

  lemma AcceptingApart(d: Daemon, c: Cid, pc: Pc, now: Time, rooms': RoomTables, a: UserAddress, b: UserAddress)
    requires Tracked(d) && Apart(d.reg, a, b) && c in d.identity
    requires Neutral(d, c, pc, a, b) && (pc.AcceptMark? || pc.AcceptTarget?)
    ensures StaysApart(d, c, Micro(d.reg, c, d.identity[c], pc, now, rooms'), a, b)
  {
    if pc.AcceptMark? {
      ApprovalApart(d, c, pc.key, a, b);
    } else {
      TargetApart(d, c, pc.key, a, b);
    }
    hide Apart, Tracked;
  }

  lemma PromptingApart(d: Daemon, c: Cid, pc: Pc, now: Time, rooms': RoomTables, a: UserAddress, b: UserAddress)
    requires Apart(d.reg, a, b) && c in d.identity && (pc.MarkNotified? || pc.SendPrompt?)
    ensures StaysApart(d, c, Micro(d.reg, c, d.identity[c], pc, now, rooms'), a, b)
  {
    FewerStayApart(d.reg, Micro(d.reg, c, d.identity[c], pc, now, rooms').r, a, b);
  }

  lemma MicroApart(d: Daemon, c: Cid, pc: Pc, now: Time, rooms': RoomTables, a: UserAddress, b: UserAddress)
    requires Tracked(d) && Exact(a) && Exact(b) && Apart(d.reg, a, b) && c in d.identity && !pc.Idle?
    requires Knows(d.reg, c, d.identity[c], pc) && Neutral(d, c, pc, a, b)
    ensures StaysApart(d, c, Micro(d.reg, c, d.identity[c], pc, now, rooms'), a, b)
  {
    if Quiet(pc) {
      MicroQuiet(d.reg, c, d.identity[c], pc, now, rooms');
      hide Micro, Exact, Tracked, Knows, Has;
      FewerStayApart(d.reg, Micro(d.reg, c, d.identity[c], pc, now, rooms').r, a, b);
    } else {
      hide Micro, Exact, Tracked, Knows, StaysApart, Neutral, Apart;
      if pc.DropStale? {
        DropStaleApart(d, c, pc.f, pc.t, now, rooms', a, b);
      } else if pc.HangupClear? {
        HangupApart(d, c, pc.key, now, rooms', a, b);
      } else if pc.SetTarget? || pc.Emit? {
        FramingApart(d, c, pc, now, rooms', a, b);
      } else if pc.AcceptMark? || pc.AcceptTarget? {
        AcceptingApart(d, c, pc, now, rooms', a, b);
      } else {
        PromptingApart(d, c, pc, now, rooms', a, b);
      }
    }
  }

  lemma {:induction false} HandleApart(
    d: Daemon, c: Cid, pc: Pc, now: Time, rooms': RoomTables, a: UserAddress, b: UserAddress)
    requires Tracked(d) && Exact(a) && Exact(b) && Apart(d.reg, a, b) && c in d.identity
    requires Knows(d.reg, c, d.identity[c], pc) && Neutral(d, c, pc, a, b)
    requires LegalRooms(d.reg, c, d.identity[c], pc, now, rooms')
    ensures var e := Handle(d.reg, c, d.identity[c], pc, now, rooms');
      Apart(e.r, a, b) && forall i :: 0 <= i < |e.events| ==> !FrameBetween(d, e.events[i], a, b)
    decreases Rank(pc)
  {
    if !pc.Idle? {
      hide Tracked, Knows, Micro, Rank, RoomOutcome, Apart, Neutral, Exact;
      var me := d.identity[c];
      MicroTerminates(d.reg, c, me, pc, now, rooms');
      var e := Micro(d.reg, c, me, pc, now, rooms');
      MicroTracked(d, c, pc, now, rooms');
      MicroKnows(d.reg, c, me, pc, now, rooms');
      MicroApart(d, c, pc, now, rooms', a, b);
      assert Apart(e.r, a, b) && Neutral(d, c, e.pc, a, b);
      NeutralElsewhere(d, d.(reg := e.r), c, e.pc, a, b);
      HandleApart(d.(reg := e.r), c, e.pc, now, rooms', a, b);
    }
  }

  lemma NeutralElsewhere(d: Daemon, d': Daemon, c: Cid, pc: Pc, a: UserAddress, b: UserAddress)
    requires d.identity == d'.identity && c in d.identity && Neutral(d, c, pc, a, b)
    ensures Neutral(d', c, pc, a, b)
  {
  }

  lemma ConnectApart(d: Daemon, c: Cid, address: UserAddress, now: Time, r': Tables, a: UserAddress, b: UserAddress)
    requires Tracked(d) && c !in d.identity && Registers(d.reg, c, address, now, r') && Apart(d.reg, a, b)
    ensures Apart(r', a, b)
  {
    RegisterFrame(d.reg, c, address, now, r');
    hide Registers, Consistent;
    forall y | y in r'.addresses ensures Closed(r', y, a) ==> y != c && Closed(d.reg, y, a) {}
    forall y | y in r'.addresses ensures Closed(r', y, b) ==> y != c && Closed(d.reg, y, b) {}
  }

  /** Without an acceptance between them, a pair that is apart stays apart and exchanges no frame. */
  lemma NextApart(d: Daemon, op: Op, d': Daemon, out: seq<Event>, a: UserAddress, b: UserAddress)
    requires Tracked(d) && Next(d, op, d', out) && Exact(a) && Exact(b) && Apart(d.reg, a, b)
    requires !AcceptBetween(d, op, a, b)
    ensures Apart(d'.reg, a, b) && forall i :: 0 <= i < |out| ==> !FrameBetween(d, out[i], a, b)
  {
    hide Exact, Registers, Unregister, Handle, LegalRooms, Knows, Tracked, Closed, Has;
    match op
    case Connect(c, address, now) => ConnectApart(d, c, address, now, d'.reg, a, b);
    case OpenChannel(c) => FewerStayApart(d.reg, d'.reg, a, b);
    case Disconnect(c) =>
      UnregisterFrame(d.reg, c);
      FewerStayApart(d.reg, d'.reg, a, b);
    case Receive(c, p, now, rooms') =>
      if ValidSender(p, c, d.identity[c]) {
        BeginKnows(d.reg, c, d.identity[c], p);
        HandleApart(d, c, Begin(p), now, rooms', a, b);
      }
  }

  lemma AcceptEmitsNoFrame(r: Tables, c: Cid, me: UserAddress, key: UserAddress, now: Time, rooms': RoomTables)
    ensures forall i :: 0 <= i < |Handle(r, c, me, AcceptMark(key), now, rooms').events| ==>
      !Handle(r, c, me, AcceptMark(key), now, rooms').events[i].Broadcast?
  {
    hide Find, Mark;
    var e1 := Micro(r, c, me, AcceptMark(key), now, rooms');
    var e2 := Micro(e1.r, c, me, e1.pc, now, rooms');
    NotifyEffect(e2.r, c, me, key, AcceptedNotice, now, rooms');
    assert Handle(r, c, me, AcceptMark(key), now, rooms').events ==
      e1.events + (e2.events + Handle(e2.r, c, me, NotifyFind(key, AcceptedNotice), now, rooms').events);
  }

  /** Notifying reads the registry only, and emits at most a notice. */
  lemma NotifyEffect(
    r: Tables, c: Cid, me: UserAddress, key: UserAddress, n: Notice, now: Time, rooms': RoomTables)
    ensures var e := Handle(r, c, me, NotifyFind(key, n), now, rooms');
      e.r == r && forall i :: 0 <= i < |e.events| ==> e.events[i].NoticeTo?
  {
    hide Find;
    match Find(r.addresses, key)
    case Found(d) =>
      var last := Micro(r, c, me, NotifyAddress(d, n), now, rooms').events;
      assert Handle(r, c, me, NotifyAddress(d, n), now, rooms') == Effect(r, Idle, last + []);
      NotifySendEffect(r, c, me, d, n, now, rooms');
      assert Micro(r, c, me, NotifyFind(key, n), now, rooms') == Effect(r, NotifySend(d, n), []);
    case _ =>
      assert Handle(r, c, me, NotifyFind(key, n), now, rooms').events == [] + [];
  }

  lemma NotifySendEffect(r: Tables, c: Cid, me: UserAddress, d: Cid, n: Notice, now: Time, rooms': RoomTables)
    ensures var e := Handle(r, c, me, NotifySend(d, n), now, rooms');
      e.r == r && forall i :: 0 <= i < |e.events| ==> e.events[i].NoticeTo?
  {
    var last := Micro(r, c, me, NotifyAddress(d, n), now, rooms').events;
    assert Handle(r, c, me, NotifyAddress(d, n), now, rooms') == Effect(r, Idle, last + []);
    assert Handle(r, c, me, NotifySend(d, n), now, rooms').events ==
      if d in r.channels then [] + (last + []) else [] + [];
  }

  // ---------------------------------------------------------------- a hangup ends it

  lemma ClearSeparates(r: Tables, x: Cid, a: UserAddress, b: UserAddress)
    requires UniqueAddresses(r) && Exact(b) && x in r.addresses && r.addresses[x] == a
    ensures Apart(ClearCallSession(r, x, b), a, b)
  {
    var r' := ClearCallSession(r, x, b);
    ClearFrame(r, x, b);
    forall y | y in r.addresses && r.addresses[y] == b ensures Find(r.addresses, b) == Found(y) {
      ExactHolder(r, b, y);
    }
    hide MatchesPrefix, Find, Exact;
  }

  lemma ExactHolder(r: Tables, b: UserAddress, y: Cid)
    requires UniqueAddresses(r) && Exact(b) && y in r.addresses && r.addresses[y] == b
    ensures Find(r.addresses, b) == Found(y)
  {
    forall c | c in r.addresses ensures MatchesPrefix(r.addresses[c], b) <==> c == y {
      ExactMatchesOnlyItself(r.addresses[c], b);
    }
    assert Holders(r.addresses, b) == {y};
  }

  lemma ApartSym(r: Tables, a: UserAddress, b: UserAddress)
    requires Apart(r, a, b)
    ensures Apart(r, b, a)
  {
  }

  lemma HangupNext(d: Daemon, op: Op, d': Daemon, out: seq<Event>)
    requires Next(d, op, d', out) && op.Receive? && op.packet.CallHangup?
    ensures d'.reg == ClearCallSession(d.reg, op.c, op.packet.targetAddress)
  {
    hide ClearCallSession, Handle, LegalRooms, Registers, Unregister;
    HangupEffect(d.reg, op.c, d.identity[op.c], op.packet.targetAddress, op.now, op.rooms');
  }

  lemma HangupSeparates(d: Daemon, op: Op, d': Daemon, out: seq<Event>, a: UserAddress, b: UserAddress)
    requires Tracked(d) && Next(d, op, d', out) && Exact(a) && Exact(b) && HangupBetween(d, op, a, b)
    ensures Apart(d'.reg, a, b)
  {
    HangupNext(d, op, d', out);
    hide Next, ClearCallSession, Apart, Exact, Has;
    var c, key := op.c, op.packet.targetAddress;
    if d.reg.addresses[c] == a && key == b {
      ClearSeparates(d.reg, c, a, b);
    } else {
      ClearSeparates(d.reg, c, b, a);
      ApartSym(ClearCallSession(d.reg, c, key), b, a);
    }
  }

  lemma HangupEffect(r: Tables, c: Cid, me: UserAddress, key: UserAddress, now: Time, rooms': RoomTables)
    ensures Handle(r, c, me, HangupClear(key), now, rooms').r == ClearCallSession(r, c, key)
  {
    hide ClearCallSession, Find;
    var r' := ClearCallSession(r, c, key);
    assert Handle(r, c, me, HangupClear(key), now, rooms').r == Handle(r', c, me, NotifyFind(key, EndedNotice), now, rooms').r;
    NotifyEffect(r', c, me, key, EndedNotice, now, rooms');
  }

  /** Some acceptance between the pair precedes step `n`, with no hangup between them since. */
  ghost predicate Linked(run: Run, n: nat, a: UserAddress, b: UserAddress)
    requires IsRun(run) && n <= |run.ops|
  {
    exists m :: 0 <= m < n && AcceptBetween(run.daemons[m], run.ops[m], a, b)
      && forall k :: m < k < n ==> !HangupBetween(run.daemons[k], run.ops[k], a, b)
  }

  lemma AcceptLinks(run: Run, n: nat, a: UserAddress, b: UserAddress)
    requires IsRun(run) && n < |run.ops| && AcceptBetween(run.daemons[n], run.ops[n], a, b)
    ensures Linked(run, n + 1, a, b)
  {
  }

  lemma LinkLasts(run: Run, n: nat, a: UserAddress, b: UserAddress)
    requires IsRun(run) && n < |run.ops| && Linked(run, n, a, b)
    requires !HangupBetween(run.daemons[n], run.ops[n], a, b)
    ensures Linked(run, n + 1, a, b)
  {
    hide IsRun, AcceptBetween, HangupBetween;
  }

  lemma {:induction false} UnlinkedIsApart(run: Run, n: nat, a: UserAddress, b: UserAddress)
    requires IsRun(run) && n <= |run.ops| && Exact(a) && Exact(b) && !Linked(run, n, a, b)
    ensures Apart(run.daemons[n].reg, a, b)
  {
    if n > 0 {
      var k: nat := n - 1;
      var d, op, d', out := run.daemons[k], run.ops[k], run.daemons[n], run.outs[k];
      RegistryInvariant(run, k);
      assert Next(d, op, d', out);
      hide Exact, Tracked, Next, Apart, Linked, HangupBetween, AcceptBetween;
      if HangupBetween(d, op, a, b) {
        HangupSeparates(d, op, d', out, a, b);
      } else {
        if Linked(run, k, a, b) {
          LinkLasts(run, k, a, b);
        } else if AcceptBetween(d, op, a, b) {
          AcceptLinks(run, k, a, b);
        } else {
          UnlinkedIsApart(run, k, a, b);
          NextApart(d, op, d', out, a, b);
        }
      }
    }
  }

  /** Revocation over whole runs: a 1-to-1 frame between two addresses, in either direction, is
      broadcast only after one end accepted the other, with no hangup between them since. */
  lemma NoFrameWithoutStandingConsent(run: Run, n: nat, i: nat, a: UserAddress, b: UserAddress)
    requires IsRun(run) && n < |run.ops| && i < |run.outs[n]| && Exact(a) && Exact(b)
    requires FrameBetween(run.daemons[n], run.outs[n][i], a, b)
    ensures Linked(run, n, a, b)
  {
    var d, op, d', out := run.daemons[n], run.ops[n], run.daemons[n + 1], run.outs[n];
    assert Next(d, op, d', out);
    if !Linked(run, n, a, b) {
      UnlinkedIsApart(run, n, a, b);
      RegistryInvariant(run, n);
      hide Exact, Tracked, Apart, Linked, Handle, LegalRooms, IsRun;
      if AcceptBetween(d, op, a, b) {
        AcceptEmitsNoFrame(d.reg, op.c, d.identity[op.c], op.packet.callerAddress, op.now, op.rooms');
      } else {
        NextApart(d, op, d', out, a, b);
      }
    }
  }
}
