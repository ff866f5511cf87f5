/**
 The packet handlers of a client connection, cut at their lock acquisitions: each `Pc` is a point
 between two acquisitions of the registry lock, and `Micro` is what one acquisition does.
 */
module Handlers {
  import opened Basics
  import opened Bytes
  import opened Addresses
  import opened Codec
  import opened Rooms
  import opened Registry

  const MAX_MESSAGE_SIZE := 1048576

  datatype Frame = Frame(key: UserAddress, codec: u8, payload: seq<byte>)

  datatype Notice = AcceptedNotice | RejectedNotice | EndedNotice

  datatype Pc =
    | Idle
    // handle_client_targeted_audio
    | CheckRoom(f: Frame)
    | FindTarget(f: Frame)
    | CheckStale(f: Frame, t: Cid)
    | DropStale(f: Frame, t: Cid)
    | CheckRejected(f: Frame, t: Cid)
    | CheckSameCall(f: Frame, t: Cid)
    | CheckMutual(f: Frame, t: Cid, same: bool)
    | CheckFull(f: Frame, t: Cid)
    | CheckApproved(f: Frame, t: Cid)
    | CheckNotified(f: Frame, t: Cid)
    | MarkNotified(f: Frame, t: Cid)
    | SendPrompt(f: Frame, t: Cid)
    | SetTarget(f: Frame, t: Cid)
    | Emit(f: Frame, t: Cid)
    // the other handlers
    | AcceptMark(key: UserAddress)
    | AcceptTarget(key: UserAddress)
    | RejectMark(key: UserAddress)
    | HangupClear(key: UserAddress)
    | NotifyFind(key: UserAddress, notice: Notice)
    | NotifySend(d: Cid, notice: Notice)
    | NotifyAddress(d: Cid, notice: Notice)
    | RoomAudio(key: UserAddress)
    | RoomJoin(key: UserAddress)
    | RoomLeave(key: UserAddress)
    | PongMark

  /** What a step lets the world see, or what a proof needs to remember of it. A notice carries the
      registered address of its sender, or one made up for the occasion (`None`). */
  datatype Event =
    | AudioFrom(c: Cid, key: UserAddress)
    | Accepted(c: Cid, key: UserAddress)
    | Broadcast(c: Cid, sender: UserAddress, key: UserAddress, t: Cid)
    | Prompt(t: Cid, c: Cid)
    | ErrorTo(c: Cid, key: UserAddress)
    | NoticeTo(d: Cid, c: Cid, notice: Notice, about: Option<UserAddress>)

  /** `dispatch_daemon_packet`: where the handler of a packet starts. */
  function Begin(p: Packet): (pc: Pc) {
    match p
    case ClientTargetedAudio(key, codec, payload) =>
      if |payload| > MAX_MESSAGE_SIZE then Idle else CheckRoom(Frame(key, codec, payload))
    case CallAcceptResponse(key) => AcceptMark(key)
    case CallRejectResponse(key) => RejectMark(key)
    case CallHangup(key) => HangupClear(key)
    case RoomJoinRequest(key) => RoomJoin(key)
    case RoomLeaveRequest(key) => RoomLeave(key)
    case RoomGroupAudio(key, _, payload) => if |payload| > MAX_MESSAGE_SIZE then Idle else RoomAudio(key)
    case RoomGroupAudioE2EE(key, _, _, payload) => if |payload| > MAX_MESSAGE_SIZE then Idle else RoomAudio(key)
    case Pong(_) => PongMark
    case _ => Idle
  }

  /** A packet whose claimed sender is not the authenticated one is dropped. */
  predicate ValidSender(p: Packet, c: Cid, me: UserAddress) {
    match p
    case ClientAssignment(id, a) => id == c && a == me
    case ServerTargetedAudio(_, id, a, _, _) => id == c && a == me
    case PeerTargetedAudio(id, _, _, a, _, _, _) => id == c && a == me
    case CallRequest(id, a) => id == c && a == me
    case BroadcastAudio(id, _) => id == c
    case _ => true
  }

  predicate Mutual(r: Tables, t: Cid, me: UserAddress) {
    t in r.targets && MatchesPrefix(r.targets[t], me)
  }

  datatype Effect = Effect(r: Tables, pc: Pc, events: seq<Event>)

  /** One lock acquisition by the task of connection `c`, authenticated as `me`. `rooms'` is the
      outcome of a room update, which depends on hash-map order. */
  function Micro(r: Tables, c: Cid, me: UserAddress, pc: Pc, now: Time, rooms': RoomTables): (e: Effect)
    requires !pc.Idle?
  {
    match pc
    case CheckRoom(f) => Effect(r, if IsClientInRoom(r, c, f.key) then RoomAudio(f.key) else FindTarget(f), [])
    case FindTarget(f) =>
      (match Find(r.addresses, f.key)
       case Found(t) => Effect(r, CheckStale(f, t), [])
       case _ => Effect(r, Idle, [ErrorTo(c, f.key)]))
    case CheckStale(f, t) =>
      if IsStale(r, t, now) then Effect(r, DropStale(f, t), [])
      else if t == c then Effect(r, Idle, [ErrorTo(c, f.key)])
      else Effect(r, CheckRejected(f, t), [])
    case DropStale(f, t) => Effect(Unregister(r, t), Idle, [ErrorTo(c, f.key)])
    case CheckRejected(f, t) =>
      if IsCallRejected(r, t, me) then Effect(r, Idle, [ErrorTo(c, f.key)]) else Effect(r, CheckSameCall(f, t), [])
    case CheckSameCall(f, t) => Effect(r, CheckMutual(f, t, IsClientInSameCall(r, c, f.key)), [])
    case CheckMutual(f, t, same) =>
      Effect(r, if Mutual(r, t, me) then SetTarget(f, t) else if same then CheckApproved(f, t) else CheckFull(f, t), [])
    case CheckFull(f, t) =>
      if IsRoomOrTargetFull(r, f.key) then Effect(r, Idle, [ErrorTo(c, f.key)]) else Effect(r, CheckApproved(f, t), [])
    case CheckApproved(f, t) =>
      Effect(r, if IsCallApproved(r, t, me) then SetTarget(f, t) else CheckNotified(f, t), [])
    case CheckNotified(f, t) => Effect(r, if HasBeenNotified(r, t, c) then Idle else MarkNotified(f, t), [])
    case MarkNotified(f, t) => Effect(r.(notified := Mark(r.notified, t, c)), SendPrompt(f, t), [])
    case SendPrompt(f, t) => Effect(r, Idle, if t in r.channels then [Prompt(t, c)] else [])
    case SetTarget(f, t) =>
      Effect(r.(targets := r.targets[c := f.key]), if f.payload == [] then Idle else Emit(f, t), [])
    case Emit(f, t) => Effect(r, Idle, [Broadcast(c, me, f.key, t)])
    case AcceptMark(key) => Effect(r.(approved := Mark(r.approved, c, key)), AcceptTarget(key), [Accepted(c, key)])
    case AcceptTarget(key) =>
      Effect(if c in r.targets then r else r.(targets := r.targets[c := key]), NotifyFind(key, AcceptedNotice), [])
    case RejectMark(key) => Effect(r.(rejected := Mark(r.rejected, c, key)), NotifyFind(key, RejectedNotice), [])
    case HangupClear(key) => Effect(ClearCallSession(r, c, key), NotifyFind(key, EndedNotice), [])
    case NotifyFind(key, n) =>
      (match Find(r.addresses, key)
       case Found(d) => Effect(r, NotifySend(d, n), [])
       case _ => Effect(r, Idle, []))
    case NotifySend(d, n) => Effect(r, if d in r.channels then NotifyAddress(d, n) else Idle, [])
    case NotifyAddress(d, n) => Effect(r, Idle, [NoticeTo(d, c, n, Get(r.addresses, c))])
    case RoomAudio(key) => Effect(r.(rooms := rooms'), Idle, [])
    case RoomJoin(key) => Effect(r.(rooms := Join(r.rooms, c, key)), Idle, [])
    case RoomLeave(key) => Effect(r.(rooms := rooms'), Idle, [])
    case PongMark => Effect(r.(lastPong := r.lastPong[c := now]), Idle, [])
  }

  /** Which outcomes a room update may have. */
  ghost predicate RoomOutcome(r: Tables, c: Cid, pc: Pc, rooms': RoomTables) {
    match pc
    case RoomAudio(key) =>
      exists energy: real, now: Time, v: Verdict :: Update(r.rooms, r.addresses, key, c, energy, now, rooms', v)
    case RoomLeave(key) => Leaves(r.rooms, c, key, rooms')
    case _ => true
  }

  /** How many acquisitions a handler can still make. */
  function Rank(pc: Pc): (n: nat) {
    match pc
    case Idle => 0
    case CheckRoom(_) => 14
    case FindTarget(_) => 13
    case CheckStale(_, _) => 12
    case DropStale(_, _) => 1
    case CheckRejected(_, _) => 11
    case CheckSameCall(_, _) => 10
    case CheckMutual(_, _, _) => 9
    case CheckFull(_, _) => 8
    case CheckApproved(_, _) => 7
    case CheckNotified(_, _) => 6
    case MarkNotified(_, _) => 5
    case SendPrompt(_, _) => 1
    case SetTarget(_, _) => 2
    case Emit(_, _) => 1
    case AcceptMark(_) => 5
    case AcceptTarget(_) => 4
    case RejectMark(_) => 4
    case HangupClear(_) => 4
    case NotifyFind(_, _) => 3
    case NotifySend(_, _) => 2
    case NotifyAddress(_, _) => 1
    case RoomAudio(_) => 1
    case RoomJoin(_) => 1
    case RoomLeave(_) => 1
    case PongMark => 1
  }

  /** Every handler finishes: each acquisition brings it closer to its end. */
  lemma MicroTerminates(r: Tables, c: Cid, me: UserAddress, pc: Pc, now: Time, rooms': RoomTables)
    requires !pc.Idle?
    ensures Rank(Micro(r, c, me, pc, now, rooms').pc) < Rank(pc)
  {
    hide MatchesPrefix, Find, ClearCallSession, Unregister, IsClientInRoom, IsClientInSameCall, IsRoomOrTargetFull;
    hide IsStale, Mutual, Has, Mark, Join, IsCallApproved, IsCallRejected, HasBeenNotified;
  }

  /** A handler that nobody interrupts: all its acquisitions in a row. */
  function Handle(r: Tables, c: Cid, me: UserAddress, pc: Pc, now: Time, rooms': RoomTables): (e: Effect)
    ensures e.pc.Idle?
    decreases Rank(pc)
  {
    if pc.Idle? then Effect(r, Idle, []) else
      MicroTerminates(r, c, me, pc, now, rooms');
      var e1 := Micro(r, c, me, pc, now, rooms');
      var e2 := Handle(e1.r, c, me, e1.pc, now, rooms');
      Effect(e2.r, Idle, e1.events + e2.events)
  }

  // ---------------------------------------------------------------- what every acquisition keeps

  lemma MicroConsistent(r: Tables, c: Cid, me: UserAddress, pc: Pc, now: Time, rooms': RoomTables)
    requires Consistent(r) && !pc.Idle? && RoomOutcome(r, c, pc, rooms')
    ensures Consistent(Micro(r, c, me, pc, now, rooms').r)
  {
    hide MatchesPrefix, Find, ClearCallSession, Unregister, IsClientInRoom, IsClientInSameCall, IsRoomOrTargetFull;
    hide Update, Leaves, WithinLimit, Join, IsStale, Mutual, Has, Mark, IsCallApproved, IsCallRejected, HasBeenNotified;
    match pc
    case DropStale(_, t) => UnregisterConsistent(r, t);
    case HangupClear(key) => ClearConsistent(r, c, key);
    case RoomAudio(key) => RoomAudioLimit(r, c, key, rooms');
    case RoomJoin(key) => LimitKept(r.rooms, c, key);
    case RoomLeave(key) => LimitKept(r.rooms, c, key);
    case _ =>
  }

  lemma RoomAudioLimit(r: Tables, c: Cid, key: UserAddress, rooms': RoomTables)
    requires WithinLimit(r.rooms) && RoomOutcome(r, c, RoomAudio(key), rooms')
    ensures WithinLimit(rooms')
  {
    var energy: real, now: Time, v: Verdict :| Update(r.rooms, r.addresses, key, c, energy, now, rooms', v);
    assert rooms'.members == r.rooms.members;
  }

  /** Acquisitions that touch neither addresses, targets, approvals nor notifications, and emit no
      frame and no prompt. */
  predicate Quiet(pc: Pc) {
    !(pc.Idle? || pc.DropStale? || pc.MarkNotified? || pc.SendPrompt? || pc.SetTarget? || pc.Emit?
      || pc.AcceptMark? || pc.AcceptTarget? || pc.HangupClear?)
  }

  lemma MicroQuiet(r: Tables, c: Cid, me: UserAddress, pc: Pc, now: Time, rooms': RoomTables)
    requires Quiet(pc)
    ensures var e := Micro(r, c, me, pc, now, rooms');
      && e.r.addresses == r.addresses && e.r.targets == r.targets && e.r.approved == r.approved
      && e.r.notified == r.notified
      && !e.pc.AcceptMark? && !e.pc.AcceptTarget?
      && forall i :: 0 <= i < |e.events| ==> e.events[i].ErrorTo? || e.events[i].NoticeTo?
  {
    hide MatchesPrefix, Find, ClearCallSession, Unregister, IsClientInRoom, IsClientInSameCall, IsRoomOrTargetFull;
    hide IsStale, Mutual, Has, IsCallApproved, IsCallRejected, HasBeenNotified;
  }
}
