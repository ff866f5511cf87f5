/**
 Handlers that interleave: between two acquisitions of the registry lock by the task of one data
 channel, any other channel, of the same client or another, may make steps of its own, and clients
 may connect and disconnect. Consent survives this.
 */
module LockSteps {
  import opened Basics
  import opened Bytes
  import opened Addresses
  import opened Codec
  import opened Rooms
  import opened Registry
  import opened Handlers

  type Identities = map<Cid, UserAddress>

  /** The task of a data channel: the client it belongs to and where its handler stands. */
  datatype Task = Task(c: Cid, pc: Pc)

  type Chan = nat

  /** The registry, who every client authenticated as, the task of each data channel ever opened,
      and everything that has happened. */
  datatype System = System(reg: Tables, identity: Identities, tasks: map<Chan, Task>, log: seq<Event>)

  const START := System(EMPTY, map[], map[], [])

  datatype Move =
    | Connect(c: Cid, address: UserAddress, now: Time)
    | OpenChannel(c: Cid, k: Chan)
    | Disconnect(c: Cid)
    | Arrive(k: Chan, packet: Packet)
    | Acquire(k: Chan, now: Time, rooms': RoomTables)

  function Arrival(c: Cid, p: Packet): (es: seq<Event>) {
    match p case ClientTargetedAudio(key, _, _) => [AudioFrom(c, key)] case _ => []
  }

  /** What one acquisition by the task of channel `k` does. */
  function Acquired(s: System, k: Chan, now: Time, rooms': RoomTables): (e: Effect)
    requires k in s.tasks && s.tasks[k].c in s.identity && !s.tasks[k].pc.Idle?
  {
    Micro(s.reg, s.tasks[k].c, s.identity[s.tasks[k].c], s.tasks[k].pc, now, rooms')
  }

  ghost predicate Moves(s: System, m: Move, s': System) {
    match m
    case Connect(c, address, now) =>
      && c !in s.identity && Registers(s.reg, c, address, now, s'.reg)
      && s' == System(s'.reg, s.identity[c := address], s.tasks, s.log)
    case OpenChannel(c, k) =>
      && c in s.identity && k !in s.tasks
      && s' == s.(reg := s.reg.(channels := s.reg.channels + {c}), tasks := s.tasks[k := Task(c, Idle)])
    case Disconnect(c) => s' == s.(reg := Unregister(s.reg, c))
    case Arrive(k, p) =>
      && k in s.tasks && s.tasks[k].pc.Idle? && s.tasks[k].c in s.identity
      && ValidSender(p, s.tasks[k].c, s.identity[s.tasks[k].c])
      && s' == s.(tasks := s.tasks[k := Task(s.tasks[k].c, Begin(p))], log := s.log + Arrival(s.tasks[k].c, p))
    case Acquire(k, now, rooms') =>
      && k in s.tasks && !s.tasks[k].pc.Idle? && s.tasks[k].c in s.identity
      && RoomOutcome(s.reg, s.tasks[k].c, s.tasks[k].pc, rooms')
      && var e := Acquired(s, k, now, rooms');
         s' == System(e.r, s.identity, s.tasks[k := Task(s.tasks[k].c, e.pc)], s.log + e.events)
  }

  // ---------------------------------------------------------------- what the log shows

  /** `t` accepted, or itself sent audio to, an address that `me` answers to. */
  predicate Consents(e: Event, t: Cid, me: UserAddress) {
    (e.Accepted? || e.AudioFrom?) && e.c == t && MatchesPrefix(e.key, me)
  }

  predicate Consented(log: seq<Event>, t: Cid, me: UserAddress) {
    exists e :: e in log && Consents(e, t, me)
  }

  /** One of the two addresses accepted the other. */
  predicate Joins(identity: Identities, e: Event, a: UserAddress, b: UserAddress) {
    && e.Accepted? && e.c in identity
    && ((identity[e.c] == a && e.key == b) || (identity[e.c] == b && e.key == a))
  }

  predicate Met(identity: Identities, log: seq<Event>, a: UserAddress, b: UserAddress) {
    Exact(a) && Exact(b) ==> exists e :: e in log && Joins(identity, e, a, b)
  }

  predicate Spoke(log: seq<Event>, t: Cid, a: UserAddress) {
    Accepted(t, a) in log || AudioFrom(t, a) in log
  }

  /** Both facts about a pair that a frame from `c` to `t` needs. */
  predicate Cleared(identity: Identities, log: seq<Event>, c: Cid, t: Cid)
    requires c in identity && t in identity
  {
    Consented(log, t, identity[c]) && Met(identity, log, identity[c], identity[t])
  }

  /** Logs only grow, and so do identities. */
  predicate Extends(identity: Identities, log: seq<Event>, identity': Identities, log': seq<Event>) {
    && (forall c :: c in identity ==> c in identity' && identity'[c] == identity[c])
    && (forall e :: e in log ==> e in log')
  }

  lemma MetLasts(identity: Identities, log: seq<Event>, identity': Identities, log': seq<Event>, a: UserAddress, b: UserAddress)
    requires Extends(identity, log, identity', log') && Met(identity, log, a, b)
    ensures Met(identity', log', a, b)
  {
    hide Exact;
    if Exact(a) && Exact(b) {
      var e :| e in log && Joins(identity, e, a, b);
      assert Joins(identity', e, a, b);
    }
  }

  lemma ConsentedLasts(log: seq<Event>, log': seq<Event>, t: Cid, me: UserAddress)
    requires Consented(log, t, me) && forall e :: e in log ==> e in log'
    ensures Consented(log', t, me)
  {
    hide Consents;
  }

  // ---------------------------------------------------------------- what the tables owe the log

  predicate TargetBacked(identity: Identities, log: seq<Event>, t: Cid, a: UserAddress) {
    t in identity && Spoke(log, t, a) && Met(identity, log, identity[t], a)
  }

  /** Every approval and every target in the registry goes back to something its owner did. */
  ghost predicate Backed(r: Tables, identity: Identities, log: seq<Event>) {
    && (forall c :: c in r.addresses ==> c in identity && r.addresses[c] == identity[c])
    && (forall t: Cid, a: UserAddress :: Has(r.approved, t, a) ==> t in identity && Accepted(t, a) in log)
    && (forall t :: t in r.targets ==> TargetBacked(identity, log, t, r.targets[t]))
  }

  /** The points of `handle_client_targeted_audio`, and those that know their target. */
  predicate InAudio(pc: Pc) {
    pc.CheckRoom? || pc.FindTarget? || InCall(pc)
  }

  predicate InCall(pc: Pc) {
    || pc.CheckStale? || pc.DropStale? || pc.CheckRejected? || pc.CheckSameCall? || pc.CheckMutual?
    || pc.CheckFull? || pc.CheckApproved? || pc.CheckNotified? || pc.MarkNotified? || pc.SendPrompt?
    || pc.SetTarget? || pc.Emit?
  }

  /** What a task may rely on however long it waits for the lock. */
  predicate TaskOk(identity: Identities, log: seq<Event>, c: Cid, pc: Pc) {
    && c in identity
    && (InAudio(pc) ==> AudioFrom(c, pc.f.key) in log)
    && (InCall(pc) ==> pc.t in identity && MatchesPrefix(identity[pc.t], pc.f.key))
    && (pc.SetTarget? || pc.Emit? ==> Cleared(identity, log, c, pc.t))
    && (pc.AcceptTarget? ==> Accepted(c, pc.key) in log)
  }

  lemma BackedLasts(r: Tables, identity: Identities, log: seq<Event>, identity': Identities, log': seq<Event>)
    requires Backed(r, identity, log) && Extends(identity, log, identity', log')
    ensures Backed(r, identity', log')
  {
    hide Exact, Has, Met;
    forall t | t in r.targets ensures TargetBacked(identity', log', t, r.targets[t]) {
      MetLasts(identity, log, identity', log', identity[t], r.targets[t]);
    }
  }

  lemma TaskOkLasts(identity: Identities, log: seq<Event>, identity': Identities, log': seq<Event>, c: Cid, pc: Pc)
    requires TaskOk(identity, log, c, pc) && Extends(identity, log, identity', log')
    ensures TaskOk(identity', log', c, pc)
  {
    hide MatchesPrefix, Met, Consented;
    if pc.SetTarget? || pc.Emit? {
      ConsentedLasts(log, log', pc.t, identity[c]);
      MetLasts(identity, log, identity', log', identity[c], identity[pc.t]);
    }
  }

  /** Fewer rows owe nothing more. */
  lemma FewerBacked(r: Tables, r': Tables, identity: Identities, log: seq<Event>)
    requires Backed(r, identity, log)
    requires forall k :: k in r'.addresses ==> k in r.addresses && r'.addresses[k] == r.addresses[k]
    requires forall k :: k in r'.targets ==> k in r.targets && r'.targets[k] == r.targets[k]
    requires forall k: Cid, x: UserAddress :: Has(r'.approved, k, x) ==> Has(r.approved, k, x)
    ensures Backed(r', identity, log)
  {
    hide Has, TargetBacked;
  }

  // ---------------------------------------------------------------- one acquisition

  lemma ApprovalClears(r: Tables, identity: Identities, log: seq<Event>, c: Cid, t: Cid)
    requires Backed(r, identity, log) && c in identity && t in identity && IsCallApproved(r, t, identity[c])
    ensures Cleared(identity, log, c, t)
  {
    var e := Accepted(t, identity[c]);
    assert e in log;
    assert Consents(e, t, identity[c]) && Joins(identity, e, identity[c], identity[t]);
  }

  lemma MutualClears(r: Tables, identity: Identities, log: seq<Event>, c: Cid, t: Cid)
    requires Backed(r, identity, log) && c in identity && t in identity && Mutual(r, t, identity[c])
    ensures Cleared(identity, log, c, t)
  {
    var a, me := r.targets[t], identity[c];
    assert TargetBacked(identity, log, t, a);
    assert Consents(Accepted(t, a), t, me) && Consents(AudioFrom(t, a), t, me);
    hide MatchesPrefix;
    if Exact(me) && Exact(identity[t]) {
      ExactMatchesOnlyItself(a, me);
      var e :| e in log && Joins(identity, e, identity[t], me);
      assert Joins(identity, e, me, identity[t]);
    }
  }

  lemma TargetOfFrameBacked(identity: Identities, log: seq<Event>, c: Cid, f: Frame, t: Cid)
    requires TaskOk(identity, log, c, SetTarget(f, t))
    ensures TargetBacked(identity, log, c, f.key)
  {
    hide MatchesPrefix, Consented;
    if Exact(f.key) {
      ExactMatchesOnlyItself(identity[t], f.key);
    }
  }

  lemma TargetOfAcceptBacked(identity: Identities, log: seq<Event>, c: Cid, key: UserAddress)
    requires TaskOk(identity, log, c, AcceptTarget(key))
    ensures TargetBacked(identity, log, c, key)
  {
    assert Joins(identity, Accepted(c, key), identity[c], key);
  }

  lemma QuietTask(r: Tables, identity: Identities, log: seq<Event>, c: Cid, pc: Pc, now: Time, rooms': RoomTables)
    requires Backed(r, identity, log) && TaskOk(identity, log, c, pc) && Quiet(pc)
    ensures TaskOk(identity, log, c, Micro(r, c, identity[c], pc, now, rooms').pc)
  {
    hide MatchesPrefix, Find, ClearCallSession, Unregister, IsClientInRoom, IsClientInSameCall, IsRoomOrTargetFull;
    hide IsStale, Mutual, Has, Cleared, TargetBacked, IsCallApproved, IsCallRejected, HasBeenNotified;
    if pc.FindTarget? {
      if t :| Find(r.addresses, pc.f.key) == Found(t) {
        FoundIsRegistered(r, pc.f.key, t);
      }
    } else if pc.CheckMutual? && Mutual(r, pc.t, identity[c]) {
      MutualClears(r, identity, log, c, pc.t);
    } else if pc.CheckApproved? && IsCallApproved(r, pc.t, identity[c]) {
      ApprovalClears(r, identity, log, c, pc.t);
    }
  }

  lemma LoudTask(r: Tables, identity: Identities, log: seq<Event>, c: Cid, pc: Pc, now: Time, rooms': RoomTables)
    requires TaskOk(identity, log, c, pc) && !pc.Idle? && !Quiet(pc)
    ensures var e := Micro(r, c, identity[c], pc, now, rooms'); TaskOk(identity, log + e.events, c, e.pc)
  {
    hide MatchesPrefix, Find, ClearCallSession, Unregister, Has, Cleared;
    var e := Micro(r, c, identity[c], pc, now, rooms');
    if pc.SetTarget? {
      assert log + e.events == log;
    } else if pc.MarkNotified? {
      assert log + e.events == log;
    }
  }

  lemma NewTargetBacked(r: Tables, identity: Identities, log: seq<Event>, c: Cid, a: UserAddress)
    requires Backed(r, identity, log) && TargetBacked(identity, log, c, a)
    ensures Backed(r.(targets := r.targets[c := a]), identity, log)
  {
    hide TargetBacked, Has;
  }

  lemma NewApprovalBacked(r: Tables, identity: Identities, log: seq<Event>, c: Cid, a: UserAddress)
    requires Backed(r, identity, log) && c in identity
    ensures Backed(r.(approved := Mark(r.approved, c, a)), identity, log + [Accepted(c, a)])
  {
    BackedLasts(r, identity, log, identity, log + [Accepted(c, a)]);
    hide TargetBacked, Has;
  }

  lemma LoudBacked(r: Tables, identity: Identities, log: seq<Event>, c: Cid, pc: Pc, now: Time, rooms': RoomTables)
    requires Backed(r, identity, log) && TaskOk(identity, log, c, pc) && !pc.Idle? && !Quiet(pc)
    ensures var e := Micro(r, c, identity[c], pc, now, rooms'); Backed(e.r, identity, log + e.events)
  {
    var e := Micro(r, c, identity[c], pc, now, rooms');
    BackedLasts(r, identity, log, identity, log + e.events);
    hide MatchesPrefix, Find, ClearCallSession, Unregister, Has, Backed, Mark;
    if pc.DropStale? {
      UnregisterFrame(r, pc.t);
      FewerBacked(r, e.r, identity, log + e.events);
    } else if pc.HangupClear? {
      ClearFrame(r, c, pc.key);
      FewerBacked(r, e.r, identity, log + e.events);
    } else if pc.SetTarget? {
      TargetOfFrameBacked(identity, log, c, pc.f, pc.t);
      NewTargetBacked(r, identity, log, c, pc.f.key);
      assert log + e.events == log;
    } else if pc.AcceptTarget? {
      TargetOfAcceptBacked(identity, log, c, pc.key);
      NewTargetBacked(r, identity, log, c, pc.key);
      assert log + e.events == log;
    } else if pc.AcceptMark? {
      NewApprovalBacked(r, identity, log, c, pc.key);
    } else {
      FewerBacked(r, e.r, identity, log + e.events);
    }
  }

  lemma AcquireKeeps(r: Tables, identity: Identities, log: seq<Event>, c: Cid, pc: Pc, now: Time, rooms': RoomTables)
    requires Backed(r, identity, log) && TaskOk(identity, log, c, pc) && !pc.Idle?
    ensures var e := Micro(r, c, identity[c], pc, now, rooms');
      Backed(e.r, identity, log + e.events) && TaskOk(identity, log + e.events, c, e.pc)
  {
    if Quiet(pc) {
      MicroQuiet(r, c, identity[c], pc, now, rooms');
      QuietTask(r, identity, log, c, pc, now, rooms');
      hide Micro, Backed, TaskOk, Has;
      var e := Micro(r, c, identity[c], pc, now, rooms');
      FewerBacked(r, e.r, identity, log);
      BackedLasts(e.r, identity, log, identity, log + e.events);
      TaskOkLasts(identity, log, identity, log + e.events, c, e.pc);
    } else {
      LoudTask(r, identity, log, c, pc, now, rooms');
      LoudBacked(r, identity, log, c, pc, now, rooms');
      hide Micro, Backed, TaskOk;
    }
  }

  // ---------------------------------------------------------------- every interleaving

  /** The frame at position `i` of the log was consented to before it was sent. */
  predicate FrameOk(identity: Identities, log: seq<Event>, i: nat)
    requires i < |log|
  {
    log[i].Broadcast? ==>
      && log[i].c in identity && log[i].t in identity && log[i].sender == identity[log[i].c]
      && MatchesPrefix(identity[log[i].t], log[i].key)
      && Cleared(identity, log[..i], log[i].c, log[i].t)
  }

  ghost predicate Inv(s: System) {
    && Consistent(s.reg) && Backed(s.reg, s.identity, s.log)
    && (forall k :: k in s.tasks ==> TaskOk(s.identity, s.log, s.tasks[k].c, s.tasks[k].pc))
    && (forall i :: 0 <= i < |s.log| ==> FrameOk(s.identity, s.log, i))
  }

  lemma FrameOkLasts(identity: Identities, log: seq<Event>, identity': Identities, log': seq<Event>, i: nat)
    requires i < |log| && FrameOk(identity, log, i) && log <= log'
    requires forall c :: c in identity ==> c in identity' && identity'[c] == identity[c]
    ensures FrameOk(identity', log', i)
  {
    hide MatchesPrefix, Met, Consented;
    assert log'[..i] == log[..i];
    if log[i].Broadcast? {
      MetLasts(identity, log[..i], identity', log[..i], identity[log[i].c], identity[log[i].t]);
    }
  }

  /** A step that only extends log and identities leaves the other tasks and the past alone. */
  lemma OthersKeep(s: System, s': System, but: set<Chan>)
    requires Inv(s) && s.log <= s'.log && s'.tasks.Keys <= s.tasks.Keys + but
    requires forall d :: d in s.identity ==> d in s'.identity && s'.identity[d] == s.identity[d]
    requires forall j :: j in s'.tasks && j !in but ==> s'.tasks[j] == s.tasks[j]
    ensures forall j :: j in s'.tasks && j !in but ==> TaskOk(s'.identity, s'.log, s'.tasks[j].c, s'.tasks[j].pc)
    ensures forall i :: 0 <= i < |s.log| ==> FrameOk(s'.identity, s'.log, i)
  {
    hide TaskOk, FrameOk, Backed, Consistent;
    forall j | j in s'.tasks && j !in but ensures TaskOk(s'.identity, s'.log, s'.tasks[j].c, s'.tasks[j].pc) {
      TaskOkLasts(s.identity, s.log, s'.identity, s'.log, s.tasks[j].c, s.tasks[j].pc);
    }
    forall i | 0 <= i < |s.log| ensures FrameOk(s'.identity, s'.log, i) {
      FrameOkLasts(s.identity, s.log, s'.identity, s'.log, i);
    }
  }

  /** The only frame an acquisition emits is the one its task was cleared for. */
  lemma EventsOk(r: Tables, identity: Identities, log: seq<Event>, c: Cid, pc: Pc, now: Time, rooms': RoomTables, i: nat)
    requires TaskOk(identity, log, c, pc) && !pc.Idle?
    requires i < |Micro(r, c, identity[c], pc, now, rooms').events|
    ensures FrameOk(identity, log + Micro(r, c, identity[c], pc, now, rooms').events, |log| + i)
  {
    var es := Micro(r, c, identity[c], pc, now, rooms').events;
    assert (log + es)[|log| + i] == es[i];
    if Quiet(pc) {
      MicroQuiet(r, c, identity[c], pc, now, rooms');
      hide Micro;
    } else {
      hide MatchesPrefix, Find, ClearCallSession, Unregister, Has, Cleared;
      if pc.Emit? {
        assert (log + es)[..|log|] == log;
      }
    }
  }

  lemma MicroMoves(s: System, k: Chan, now: Time, rooms': RoomTables, s': System)
    requires Inv(s) && Moves(s, Acquire(k, now, rooms'), s')
    ensures Inv(s')
  {
    hide Consistent, Backed, TaskOk, FrameOk, Micro, RoomOutcome;
    var c, pc := s.tasks[k].c, s.tasks[k].pc;
    MicroConsistent(s.reg, c, s.identity[c], pc, now, rooms');
    AcquireKeeps(s.reg, s.identity, s.log, c, pc, now, rooms');
    OthersKeep(s, s', {k});
    forall i | 0 <= i < |s'.log| ensures FrameOk(s'.identity, s'.log, i) {
      if i >= |s.log| {
        EventsOk(s.reg, s.identity, s.log, c, pc, now, rooms', i - |s.log|);
      }
    }
  }

  lemma ConnectMoves(s: System, c: Cid, address: UserAddress, now: Time, s': System)
    requires Inv(s) && Moves(s, Connect(c, address, now), s')
    ensures Inv(s')
  {
    hide Consistent, TaskOk, FrameOk, Registers, Has;
    RegisterConsistent(s.reg, c, address, now, s'.reg);
    RegisterFrame(s.reg, c, address, now, s'.reg);
    BackedLasts(s.reg, s.identity, s.log, s'.identity, s'.log);
    OthersKeep(s, s', {});
    hide TargetBacked;
  }

  lemma IdleOk(identity: Identities, log: seq<Event>, c: Cid)
    requires c in identity
    ensures TaskOk(identity, log, c, Idle)
  {
  }

  lemma OpenMoves(s: System, c: Cid, k: Chan, s': System)
    requires Inv(s) && Moves(s, OpenChannel(c, k), s')
    ensures Inv(s')
  {
    hide TaskOk, FrameOk, TargetBacked, Has;
    OthersKeep(s, s', {k});
    IdleOk(s'.identity, s'.log, c);
  }

  lemma ArriveMoves(s: System, k: Chan, p: Packet, s': System)
    requires Inv(s) && Moves(s, Arrive(k, p), s')
    ensures Inv(s')
  {
    var c := s.tasks[k].c;
    BackedLasts(s.reg, s.identity, s.log, s'.identity, s'.log);
    OthersKeep(s, s', {k});
    BeginOk(s.identity, s.log, c, p);
    hide Consistent, TaskOk, FrameOk, Backed, Begin, ValidSender;
    forall i | 0 <= i < |s'.log| ensures FrameOk(s'.identity, s'.log, i) {
      if i >= |s.log| {
        ArrivalOk(s'.identity, s.log, c, p, i);
      }
    }
  }

  lemma ArrivalOk(identity: Identities, log: seq<Event>, c: Cid, p: Packet, i: nat)
    requires |log| <= i < |log + Arrival(c, p)|
    ensures FrameOk(identity, log + Arrival(c, p), i)
  {
  }

  lemma BeginOk(identity: Identities, log: seq<Event>, c: Cid, p: Packet)
    requires c in identity
    ensures TaskOk(identity, log + Arrival(c, p), c, Begin(p))
  {
    if p.ClientTargetedAudio? {
      var es := Arrival(c, p);
      assert (log + es)[|log|] == AudioFrom(c, p.targetAddress);
    }
  }

  lemma MovesKeep(s: System, m: Move, s': System)
    requires Inv(s) && Moves(s, m, s')
    ensures Inv(s')
  {
    match m
    case Connect(c, address, now) => ConnectMoves(s, c, address, now, s');
    case OpenChannel(c, k) => OpenMoves(s, c, k, s');
    case Disconnect(c) =>
      hide TaskOk, FrameOk, Consistent, Backed, Unregister, Has;
      UnregisterConsistent(s.reg, c);
      UnregisterFrame(s.reg, c);
      FewerBacked(s.reg, s'.reg, s.identity, s.log);
    case Arrive(k, p) => ArriveMoves(s, k, p, s');
    case Acquire(k, now, rooms') => MicroMoves(s, k, now, rooms', s');
  }

  /** Any interleaving, from the empty daemon. */
  ghost predicate IsInterleaving(states: seq<System>, moves: seq<Move>) {
    && |states| == |moves| + 1 && states[0] == START
    && forall n :: 0 <= n < |moves| ==> Moves(states[n], moves[n], states[n + 1])
  }

  lemma {:induction false} EveryInterleavingKeeps(states: seq<System>, moves: seq<Move>, n: nat)
    requires IsInterleaving(states, moves) && n < |states|
    ensures Inv(states[n])
  {
    if n > 0 {
      EveryInterleavingKeeps(states, moves, n - 1);
      hide Inv, Moves;
      MovesKeep(states[n - 1], moves[n - 1], states[n]);
    }
  }

  /** Consent under every interleaving: before any 1-to-1 frame from `c` to `t`, the client `t`
      accepted an address that `c` answers to, or sent audio to one. */
  lemma ConsentUnderInterleaving(states: seq<System>, moves: seq<Move>, n: nat, i: nat)
    requires IsInterleaving(states, moves) && n < |states| && i < |states[n].log| && states[n].log[i].Broadcast?
    ensures var s := states[n]; var e := s.log[i];
      && e.c in s.identity && e.sender == s.identity[e.c]
      && exists j :: 0 <= j < i && Consents(s.log[j], e.t, e.sender)
  {
    EveryInterleavingKeeps(states, moves, n);
    var s := states[n];
    var e := s.log[i];
    hide IsInterleaving, MatchesPrefix, Met, Backed, TaskOk, Consistent, Consents;
    assert FrameOk(s.identity, s.log, i);
    var e' :| e' in s.log[..i] && Consents(e', e.t, e.sender);
    var j :| 0 <= j < i && s.log[..i][j] == e';
    assert s.log[j] == e';
  }

  /** Between two full addresses, even an interleaved frame has an acceptance of one by the other
      behind it: chains of "it called me, so I may call it" all end in one. */
  lemma AcceptanceUnderInterleaving(states: seq<System>, moves: seq<Move>, n: nat, i: nat)
    requires IsInterleaving(states, moves) && n < |states| && i < |states[n].log| && states[n].log[i].Broadcast?
    ensures var s := states[n]; var e := s.log[i];
      && e.t in s.identity && MatchesPrefix(s.identity[e.t], e.key)
      && (Exact(e.sender) && Exact(s.identity[e.t]) ==>
            exists j :: 0 <= j < i && Joins(s.identity, s.log[j], e.sender, s.identity[e.t]))
  {
    EveryInterleavingKeeps(states, moves, n);
    var s := states[n];
    var e := s.log[i];
    hide IsInterleaving, MatchesPrefix, Consented, Backed, TaskOk, Consistent, Joins, Exact;
    assert FrameOk(s.identity, s.log, i);
    if Exact(e.sender) && Exact(s.identity[e.t]) {
      var e' :| e' in s.log[..i] && Joins(s.identity, e', e.sender, s.identity[e.t]);
      var j :| 0 <= j < i && s.log[..i][j] == e';
      assert s.log[j] == e';
    }
  }
}
