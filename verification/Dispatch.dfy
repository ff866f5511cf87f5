/**
 The packet handlers as the code writes them, one statement after another on the registry object,
 and the proof that they do what the handlers cut at their lock acquisitions do.
 */
module Dispatch {
  import opened Basics
  import opened Bytes
  import opened Addresses
  import opened Codec
  import opened Rooms
  import opened Registry
  import opened Handlers
  import opened CallControl
  import opened RegistryObject
  import RateLimit

  /** A handler: who runs it, when, and what its room update (if any) comes to. */
  datatype Context = Context(c: Cid, me: UserAddress, now: Time, rooms': RoomTables)

  function Acquire(x: Context, r: Tables, pc: Pc): (e: Effect)
    requires !pc.Idle?
  {
    Micro(r, x.c, x.me, pc, x.now, x.rooms')
  }

  function Whole(x: Context, r: Tables, pc: Pc): (e: Effect) {
    Handle(r, x.c, x.me, pc, x.now, x.rooms')
  }

  ghost predicate Legal(x: Context, r: Tables, pc: Pc) {
    LegalRooms(r, x.c, x.me, pc, x.now, x.rooms')
  }

  /** Starting at `pc0` with `r0`, the handler gets to `pc` with `r`, having emitted `es`. */
  ghost predicate Gets(x: Context, r0: Tables, pc0: Pc, r: Tables, pc: Pc, es: seq<Event>) {
    && Whole(x, r0, pc0) == Effect(Whole(x, r, pc).r, Idle, es + Whole(x, r, pc).events)
    && (Legal(x, r, pc) ==> Legal(x, r0, pc0))
  }

  lemma Starts(x: Context, r: Tables, pc: Pc)
    ensures Gets(x, r, pc, r, pc, [])
  {
    hide Handle, LegalRooms;
    var e := Whole(x, r, pc);
    assert [] + e.events == e.events;
  }

  lemma Unfolds(x: Context, r: Tables, pc: Pc)
    requires !pc.Idle?
    ensures var e := Acquire(x, r, pc); var e2 := Whole(x, e.r, e.pc);
      && Whole(x, r, pc) == Effect(e2.r, Idle, e.events + e2.events)
      && (Legal(x, e.r, e.pc) && RoomOutcome(r, x.c, pc, x.rooms') ==> Legal(x, r, pc))
  {
    hide Micro, RoomOutcome, Rank;
  }

  /** One more acquisition. */
  lemma Goes(x: Context, r0: Tables, pc0: Pc, r: Tables, pc: Pc, es: seq<Event>, e: Effect, es': seq<Event>)
    requires Gets(x, r0, pc0, r, pc, es) && !pc.Idle? && Acquire(x, r, pc) == e && RoomOutcome(r, x.c, pc, x.rooms')
    requires es' == es + e.events
    ensures Gets(x, r0, pc0, e.r, e.pc, es')
    ensures e.pc.Idle? ==> Does(x, r0, pc0, e.r, es')
  {
    hide Acquire, Whole, Legal, RoomOutcome;
    Unfolds(x, r, pc);
    var e2 := Whole(x, e.r, e.pc);
    assert es + (e.events + e2.events) == es' + e2.events;
    hide Does;
    if e.pc.Idle? {
      Ends(x, r0, pc0, e.r, es');
    }
  }

  /** The code has done what the whole handler does. */
  ghost predicate Does(x: Context, r0: Tables, pc0: Pc, r: Tables, es: seq<Event>) {
    Whole(x, r0, pc0) == Effect(r, Idle, es) && Legal(x, r0, pc0)
  }

  lemma Ends(x: Context, r0: Tables, pc0: Pc, r: Tables, es: seq<Event>)
    requires Gets(x, r0, pc0, r, Idle, es)
    ensures Does(x, r0, pc0, r, es)
  {
    assert Whole(x, r, Idle) == Effect(r, Idle, []) && Legal(x, r, Idle);
    hide Handle, LegalRooms;
    assert es + [] == es;
  }

  // ---------------------------------------------------------------- targeted audio, check by check

  lemma FoundPath(x: Context, r: Tables, f: Frame, t: Cid)
    requires !IsClientInRoom(r, x.c, f.key) && Find(r.addresses, f.key) == Found(t)
    ensures Gets(x, r, CheckRoom(f), r, CheckStale(f, t), [])
  {
    hide Find, IsClientInRoom, Gets;
    Starts(x, r, CheckRoom(f));
    Goes(x, r, CheckRoom(f), r, CheckRoom(f), [], Effect(r, FindTarget(f), []), []);
    Goes(x, r, CheckRoom(f), r, FindTarget(f), [], Effect(r, CheckStale(f, t), []), []);
  }

  lemma LostPath(x: Context, r: Tables, f: Frame)
    requires !IsClientInRoom(r, x.c, f.key) && !Find(r.addresses, f.key).Found?
    ensures Does(x, r, CheckRoom(f), r, [ErrorTo(x.c, f.key)])
  {
    hide Find, IsClientInRoom, Gets, Does;
    Starts(x, r, CheckRoom(f));
    Goes(x, r, CheckRoom(f), r, CheckRoom(f), [], Effect(r, FindTarget(f), []), []);
    Goes(x, r, CheckRoom(f), r, FindTarget(f), [], Effect(r, Idle, [ErrorTo(x.c, f.key)]), [ErrorTo(x.c, f.key)]);
  }

  lemma StalePath(x: Context, r: Tables, f: Frame, t: Cid)
    requires Gets(x, r, CheckRoom(f), r, CheckStale(f, t), []) && IsStale(r, t, x.now)
    ensures Does(x, r, CheckRoom(f), Unregister(r, t), [ErrorTo(x.c, f.key)])
  {
    hide Unregister, Gets, Does, IsStale;
    Goes(x, r, CheckRoom(f), r, CheckStale(f, t), [], Effect(r, DropStale(f, t), []), []);
    Goes(x, r, CheckRoom(f), r, DropStale(f, t), [], Effect(Unregister(r, t), Idle, [ErrorTo(x.c, f.key)]),
         [ErrorTo(x.c, f.key)]);
  }

  /** An acquisition that changes nothing and either moves on or refuses. */
  predicate Check(x: Context, r: Tables, f: Frame, pc: Pc, go: bool, pc': Pc) {
    && !pc.Idle? && !pc.RoomAudio? && !pc.RoomLeave?
    && Acquire(x, r, pc) == if go then Effect(r, pc', []) else Effect(r, Idle, [ErrorTo(x.c, f.key)])
  }

  lemma Checks(x: Context, r: Tables, f: Frame, pc: Pc, go: bool, pc': Pc)
    requires Gets(x, r, CheckRoom(f), r, pc, []) && Check(x, r, f, pc, go, pc')
    ensures go ==> Gets(x, r, CheckRoom(f), r, pc', [])
    ensures !go ==> Does(x, r, CheckRoom(f), r, [ErrorTo(x.c, f.key)])
  {
    hide Gets, Acquire, Does;
    if go {
      Goes(x, r, CheckRoom(f), r, pc, [], Effect(r, pc', []), []);
    } else {
      Goes(x, r, CheckRoom(f), r, pc, [], Effect(r, Idle, [ErrorTo(x.c, f.key)]), [ErrorTo(x.c, f.key)]);
    }
  }

  lemma CallPath(x: Context, r: Tables, f: Frame, t: Cid)
    requires Gets(x, r, CheckRoom(f), r, CheckStale(f, t), []) && !IsStale(r, t, x.now)
    ensures t == x.c || IsCallRejected(r, t, x.me) ==> Does(x, r, CheckRoom(f), r, [ErrorTo(x.c, f.key)])
    ensures t != x.c && !IsCallRejected(r, t, x.me) ==>
      Gets(x, r, CheckRoom(f), r, CheckMutual(f, t, IsClientInSameCall(r, x.c, f.key)), [])
  {
    hide Gets, Does, IsStale, IsCallRejected, IsClientInSameCall;
    Checks(x, r, f, CheckStale(f, t), t != x.c, CheckRejected(f, t));
    if t != x.c {
      Checks(x, r, f, CheckRejected(f, t), !IsCallRejected(r, t, x.me), CheckSameCall(f, t));
      if !IsCallRejected(r, t, x.me) {
        Checks(x, r, f, CheckSameCall(f, t), true, CheckMutual(f, t, IsClientInSameCall(r, x.c, f.key)));
      }
    }
  }

  lemma PermitPath(x: Context, r: Tables, f: Frame, t: Cid, same: bool)
    requires Gets(x, r, CheckRoom(f), r, CheckMutual(f, t, same), [])
    ensures Permitted(r, t, x.me) && (Mutual(r, t, x.me) || same || !IsRoomOrTargetFull(r, f.key)) ==>
      Gets(x, r, CheckRoom(f), r, SetTarget(f, t), [])
    ensures !Permitted(r, t, x.me) && (same || !IsRoomOrTargetFull(r, f.key)) ==>
      Gets(x, r, CheckRoom(f), r, CheckNotified(f, t), [])
    ensures !Mutual(r, t, x.me) && !same && IsRoomOrTargetFull(r, f.key) ==>
      Does(x, r, CheckRoom(f), r, [ErrorTo(x.c, f.key)])
  {
    hide Gets, Does, IsCallApproved, IsRoomOrTargetFull, Mutual;
    if Mutual(r, t, x.me) {
      Checks(x, r, f, CheckMutual(f, t, same), true, SetTarget(f, t));
    } else {
      var full := IsRoomOrTargetFull(r, f.key);
      if same {
        Checks(x, r, f, CheckMutual(f, t, same), true, CheckApproved(f, t));
      } else {
        Checks(x, r, f, CheckMutual(f, t, same), true, CheckFull(f, t));
        Checks(x, r, f, CheckFull(f, t), !full, CheckApproved(f, t));
      }
      if same || !full {
        Checks(x, r, f, CheckApproved(f, t), true,
               if IsCallApproved(r, t, x.me) then SetTarget(f, t) else CheckNotified(f, t));
      }
    }
  }

  lemma NotifiedPath(x: Context, r: Tables, f: Frame, t: Cid)
    requires Gets(x, r, CheckRoom(f), r, CheckNotified(f, t), []) && HasBeenNotified(r, t, x.c)
    ensures Does(x, r, CheckRoom(f), r, [])
  {
    hide Gets, Does, HasBeenNotified;
    Goes(x, r, CheckRoom(f), r, CheckNotified(f, t), [], Effect(r, Idle, []), []);
  }

  lemma PromptPath(x: Context, r: Tables, f: Frame, t: Cid)
    requires Gets(x, r, CheckRoom(f), r, CheckNotified(f, t), []) && !HasBeenNotified(r, t, x.c)
    ensures Does(x, r, CheckRoom(f), r.(notified := Mark(r.notified, t, x.c)), if t in r.channels then [Prompt(t, x.c)] else [])
  {
    hide Gets, Does, HasBeenNotified, Mark;
    Goes(x, r, CheckRoom(f), r, CheckNotified(f, t), [], Effect(r, MarkNotified(f, t), []), []);
    var r' := r.(notified := Mark(r.notified, t, x.c));
    Goes(x, r, CheckRoom(f), r, MarkNotified(f, t), [], Effect(r', SendPrompt(f, t), []), []);
    var es := if t in r.channels then [Prompt(t, x.c)] else [];
    Goes(x, r, CheckRoom(f), r', SendPrompt(f, t), [], Effect(r', Idle, es), es);
  }

  lemma ForwardPath(x: Context, r: Tables, f: Frame, t: Cid)
    requires Gets(x, r, CheckRoom(f), r, SetTarget(f, t), [])
    ensures Does(x, r, CheckRoom(f), r.(targets := r.targets[x.c := f.key]),
                 if f.payload == [] then [] else [Broadcast(x.c, x.me, f.key, t)])
  {
    hide Gets, Does;
    var r' := r.(targets := r.targets[x.c := f.key]);
    if f.payload == [] {
      Goes(x, r, CheckRoom(f), r, SetTarget(f, t), [], Effect(r', Idle, []), []);
    } else {
      Goes(x, r, CheckRoom(f), r, SetTarget(f, t), [], Effect(r', Emit(f, t), []), []);
      var es := [Broadcast(x.c, x.me, f.key, t)];
      Goes(x, r, CheckRoom(f), r', Emit(f, t), [], Effect(r', Idle, es), es);
    }
  }

  lemma RoomPath(x: Context, r: Tables, pc0: Pc, pc: Pc, energy: real, v: Verdict)
    requires pc.RoomAudio? && Gets(x, r, pc0, r, pc, [])
    requires Update(r.rooms, r.addresses, pc.key, x.c, energy, x.now, x.rooms', v)
    ensures Does(x, r, pc0, r.(rooms := x.rooms'), [])
  {
    hide Gets, Does, Update;
    Goes(x, r, pc0, r, pc, [], Effect(r.(rooms := x.rooms'), Idle, []), []);
  }

  lemma InRoomPath(x: Context, r: Tables, f: Frame)
    requires IsClientInRoom(r, x.c, f.key)
    ensures Gets(x, r, CheckRoom(f), r, RoomAudio(f.key), [])
  {
    hide Gets, IsClientInRoom;
    Starts(x, r, CheckRoom(f));
    Goes(x, r, CheckRoom(f), r, CheckRoom(f), [], Effect(r, RoomAudio(f.key), []), []);
  }

  // ---------------------------------------------------------------- the handlers

  /** `handle_client_targeted_audio`. The energy of the samples is an input. */
  method HandleClientTargetedAudio(reg: ClientRegistry, c: Cid, me: UserAddress, f: Frame, now: Time, energy: real)
    returns (es: seq<Event>, ghost x: Context)
    modifies reg, reg.limiter
    ensures x.c == c && x.me == me && x.now == now
    ensures Does(x, old(reg.View()), CheckRoom(f), reg.View(), es)
    ensures reg.limiter.buckets == old(reg.limiter.buckets) - Departed(old(reg.View()), reg.View())
  {
    hide Gets, Does, Find, MatchesPrefix, IsClientInRoom, Update, IsRoomOrTargetFull, IsClientInSameCall, Unregister, Mark;
    ghost var r := reg.View();
    x := Context(c, me, now, r.rooms);
    if reg.InRoom(c, f.key) {
      var v := reg.HearSpeaker(f.key, c, energy, now);
      x := Context(c, me, now, reg.View().rooms);
      InRoomPath(x, r, f);
      RoomPath(x, r, CheckRoom(f), RoomAudio(f.key), energy, v);
      return [], x;
    }
    var found := FindClientByAddress(reg.addresses, f.key);
    if !found.Found? {
      LostPath(x, r, f);
      return [ErrorTo(c, f.key)], x;
    }
    var t := found.cid;
    FoundPath(x, r, f, t);
    var stale := reg.StaleClients(now);
    if t in stale {
      StalePath(x, r, f, t);
      FoundIsRegistered(r, f.key, t);
      UnregisterFrame(r, t);
      reg.UnregisterClient(t);
      assert Departed(r, reg.View()) == {t};
      return [ErrorTo(c, f.key)], x;
    }
    CallPath(x, r, f, t);
    if t == c || (t in reg.rejected && me in reg.rejected[t]) {
      return [ErrorTo(c, f.key)], x;
    }
    es := CallFound(reg, x, c, me, f, t);
  }

  /** The rest of it, once the target is known, fresh, somebody else and not refusing. */
  method CallFound(reg: ClientRegistry, ghost x: Context, c: Cid, me: UserAddress, f: Frame, t: Cid)
    returns (es: seq<Event>)
    requires x.c == c && x.me == me
    requires Gets(x, reg.View(), CheckRoom(f), reg.View(), CheckMutual(f, t, IsClientInSameCall(reg.View(), c, f.key)), [])
    modifies reg
    ensures Does(x, old(reg.View()), CheckRoom(f), reg.View(), es)
    ensures reg.addresses == old(reg.addresses)
  {
    hide Gets, Does, MatchesPrefix, IsRoomOrTargetFull, IsClientInSameCall, Mark;
    ghost var r := reg.View();
    var same := reg.InSameCall(c, f.key);
    var mutual := t in reg.targets && MatchesPrefix(reg.targets[t], me);
    PermitPath(x, r, f, t, same);
    if !same && !mutual {
      var full := reg.RoomOrTargetFull(f.key);
      if full {
        return [ErrorTo(c, f.key)];
      }
    }
    var approved := t in reg.approved && me in reg.approved[t];
    if !mutual && !approved {
      if t in reg.notified && c in reg.notified[t] {
        NotifiedPath(x, r, f, t);
        return [];
      }
      PromptPath(x, r, f, t);
      reg.MarkNotified(t, c);
      return if t in reg.channels then [Prompt(t, c)] else [];
    }
    ForwardPath(x, r, f, t);
    reg.targets := reg.targets[c := f.key];
    es := if f.payload == [] then [] else [Broadcast(c, me, f.key, t)];
  }

  /** The notification a response causes: to the one client its key denotes, if that has a channel,
      about the sender's registered address. */
  function Notices(r: Tables, c: Cid, key: UserAddress, n: Notice): (es: seq<Event>) {
    match Find(r.addresses, key)
    case Found(d) => if d in r.channels then [NoticeTo(d, c, n, Get(r.addresses, c))] else []
    case _ => []
  }

  lemma NotifyPath(x: Context, r0: Tables, pc0: Pc, r: Tables, key: UserAddress, n: Notice, es: seq<Event>)
    requires Gets(x, r0, pc0, r, NotifyFind(key, n), es)
    ensures Does(x, r0, pc0, r, es + Notices(r, x.c, key, n))
  {
    hide Gets, Does, Find;
    match Find(r.addresses, key)
    case Found(d) =>
      Goes(x, r0, pc0, r, NotifyFind(key, n), es, Effect(r, NotifySend(d, n), []), es);
      NotifySendPath(x, r0, pc0, r, d, n, es);
    case _ =>
      Goes(x, r0, pc0, r, NotifyFind(key, n), es, Effect(r, Idle, []), es + []);
  }

  lemma NotifySendPath(x: Context, r0: Tables, pc0: Pc, r: Tables, d: Cid, n: Notice, es: seq<Event>)
    requires Gets(x, r0, pc0, r, NotifySend(d, n), es)
    ensures Does(x, r0, pc0, r, es + if d in r.channels then [NoticeTo(d, x.c, n, Get(r.addresses, x.c))] else [])
  {
    hide Gets, Does;
    if d in r.channels {
      Goes(x, r0, pc0, r, NotifySend(d, n), es, Effect(r, NotifyAddress(d, n), []), es);
      var last := [NoticeTo(d, x.c, n, Get(r.addresses, x.c))];
      Goes(x, r0, pc0, r, NotifyAddress(d, n), es, Effect(r, Idle, last), es + last);
    } else {
      Goes(x, r0, pc0, r, NotifySend(d, n), es, Effect(r, Idle, []), es + []);
    }
  }

  /** `send_call_response_notification` */
  method SendCallResponse(reg: ClientRegistry, c: Cid, key: UserAddress, n: Notice) returns (es: seq<Event>)
    ensures es == Notices(reg.View(), c, key, n)
  {
    hide Find, MatchesPrefix;
    var found := FindClientByAddress(reg.addresses, key);
    var about := if c in reg.addresses then Some(reg.addresses[c]) else None;
    es := if found.Found? && found.cid in reg.channels then [NoticeTo(found.cid, c, n, about)] else [];
  }

  /** The registry after an acceptance: the approval, and the caller as target unless there is one. */
  function AfterAccept(r: Tables, c: Cid, key: UserAddress): (r': Tables) {
    var r1 := r.(approved := Mark(r.approved, c, key));
    if c in r.targets then r1 else r1.(targets := r.targets[c := key])
  }

  lemma AcceptPath(x: Context, r: Tables, key: UserAddress)
    ensures var r2 := AfterAccept(r, x.c, key);
      Does(x, r, AcceptMark(key), r2, [Accepted(x.c, key)] + Notices(r2, x.c, key, AcceptedNotice))
  {
    hide Gets, Does, Mark;
    var r1, r2, es := r.(approved := Mark(r.approved, x.c, key)), AfterAccept(r, x.c, key), [Accepted(x.c, key)];
    Starts(x, r, AcceptMark(key));
    Goes(x, r, AcceptMark(key), r, AcceptMark(key), [], Effect(r1, AcceptTarget(key), es), es);
    Goes(x, r, AcceptMark(key), r1, AcceptTarget(key), es, Effect(r2, NotifyFind(key, AcceptedNotice), []), es);
    NotifyPath(x, r, AcceptMark(key), r2, key, AcceptedNotice, es);
  }

  /** `handle_call_accept_response` */
  method HandleAccept(reg: ClientRegistry, ghost x: Context, c: Cid, key: UserAddress) returns (es: seq<Event>)
    requires x.c == c
    modifies reg
    ensures Does(x, old(reg.View()), AcceptMark(key), reg.View(), es)
    ensures reg.addresses == old(reg.addresses)
  {
    hide Does, Notices, Mark;
    AcceptPath(x, reg.View(), key);
    reg.MarkCallApproved(c, key);
    if c !in reg.targets {
      reg.targets := reg.targets[c := key];
    }
    es := SendCallResponse(reg, c, key, AcceptedNotice);
    es := [Accepted(c, key)] + es;
  }

  /** `handle_call_reject_response` */
  method HandleReject(reg: ClientRegistry, ghost x: Context, c: Cid, key: UserAddress) returns (es: seq<Event>)
    requires x.c == c
    modifies reg
    ensures Does(x, old(reg.View()), RejectMark(key), reg.View(), es)
    ensures reg.addresses == old(reg.addresses)
  {
    hide Gets, Does, Find, Mark;
    ghost var r := reg.View();
    reg.MarkCallRejected(c, key);
    es := SendCallResponse(reg, c, key, RejectedNotice);
    Starts(x, r, RejectMark(key));
    Goes(x, r, RejectMark(key), r, RejectMark(key), [], Effect(reg.View(), NotifyFind(key, RejectedNotice), []), []);
    NotifyPath(x, r, RejectMark(key), reg.View(), key, RejectedNotice, []);
    assert [] + es == es;
  }

  /** `handle_call_hangup` */
  method HandleHangup(reg: ClientRegistry, ghost x: Context, c: Cid, key: UserAddress) returns (es: seq<Event>)
    requires x.c == c
    modifies reg
    ensures Does(x, old(reg.View()), HangupClear(key), reg.View(), es)
    ensures reg.addresses == old(reg.addresses)
  {
    hide Gets, Does, Find, ClearCallSession;
    ghost var r := reg.View();
    ClearFrame(r, c, key);
    reg.ClearSession(c, key);
    es := SendCallResponse(reg, c, key, EndedNotice);
    Starts(x, r, HangupClear(key));
    Goes(x, r, HangupClear(key), r, HangupClear(key), [], Effect(reg.View(), NotifyFind(key, EndedNotice), []), []);
    NotifyPath(x, r, HangupClear(key), reg.View(), key, EndedNotice, []);
    assert [] + es == es;
  }

  /** `handle_room_group_audio` and its end-to-end encrypted twin. */
  method HandleRoomAudio(reg: ClientRegistry, c: Cid, me: UserAddress, key: UserAddress, now: Time, energy: real)
    returns (ghost x: Context)
    modifies reg
    ensures x.c == c && x.me == me && x.now == now
    ensures Does(x, old(reg.View()), RoomAudio(key), reg.View(), [])
    ensures reg.addresses == old(reg.addresses)
  {
    hide Gets, Does, Update;
    ghost var r := reg.View();
    var v := reg.HearSpeaker(key, c, energy, now);
    x := Context(c, me, now, reg.View().rooms);
    Starts(x, r, RoomAudio(key));
    RoomPath(x, r, RoomAudio(key), RoomAudio(key), energy, v);
  }

  /** The handlers that take the lock once. */
  lemma SingleStep(x: Context, r: Tables, pc: Pc, r': Tables)
    requires !pc.Idle? && Acquire(x, r, pc) == Effect(r', Idle, []) && RoomOutcome(r, x.c, pc, x.rooms')
    ensures Does(x, r, pc, r', [])
  {
    hide Gets, Does, Acquire, RoomOutcome;
    Starts(x, r, pc);
    Goes(x, r, pc, r, pc, [], Effect(r', Idle, []), []);
  }

  method HandleRoomLeave(reg: ClientRegistry, c: Cid, me: UserAddress, key: UserAddress, now: Time)
    returns (ghost x: Context)
    modifies reg
    ensures x.c == c && x.me == me && x.now == now
    ensures Does(x, old(reg.View()), RoomLeave(key), reg.View(), [])
    ensures reg.addresses == old(reg.addresses)
  {
    hide Does, Leaves;
    ghost var r := reg.View();
    var left := reg.LeaveRoom(c, key);
    x := Context(c, me, now, reg.View().rooms);
    SingleStep(x, r, RoomLeave(key), reg.View());
  }

  method HandleRoomJoin(reg: ClientRegistry, ghost x: Context, c: Cid, key: UserAddress)
    requires x.c == c
    modifies reg
    ensures Does(x, old(reg.View()), RoomJoin(key), reg.View(), [])
    ensures reg.addresses == old(reg.addresses)
  {
    hide Does, Join, MembersOf;
    ghost var r := reg.View();
    var count := reg.JoinRoom(c, key);
    SingleStep(x, r, RoomJoin(key), reg.View());
  }

  method HandlePong(reg: ClientRegistry, ghost x: Context, c: Cid, now: Time)
    requires x.c == c && x.now == now
    modifies reg
    ensures Does(x, old(reg.View()), PongMark, reg.View(), [])
    ensures reg.addresses == old(reg.addresses)
  {
    hide Does;
    ghost var r := reg.View();
    reg.lastPong := reg.lastPong[c := now];
    SingleStep(x, r, PongMark, reg.View());
  }

  lemma Nothing(x: Context, r: Tables)
    ensures Does(x, r, Idle, r, [])
  {
  }

  /** `dispatch_daemon_packet`: every handler does what its chain of acquisitions does. */
  method DispatchPacket(reg: ClientRegistry, c: Cid, me: UserAddress, p: Packet, now: Time, energy: real)
    returns (es: seq<Event>, ghost x: Context)
    modifies reg, reg.limiter
    ensures x.c == c && x.me == me && x.now == now
    ensures Does(x, old(reg.View()), Begin(p), reg.View(), es)
    ensures reg.limiter.buckets == old(reg.limiter.buckets) - Departed(old(reg.View()), reg.View())
  {
    hide Does;
    es, x := [], Context(c, me, now, reg.View().rooms);
    Nothing(x, reg.View());
    if p.ClientTargetedAudio? {
      if |p.audioData| <= MAX_MESSAGE_SIZE {
        es, x := HandleClientTargetedAudio(reg, c, me, Frame(p.targetAddress, p.codecId, p.audioData), now, energy);
      }
      return;
    }
    es, x := DispatchOther(reg, c, me, p, now, energy);
  }

  /** The packets other than targeted audio unregister nobody. */
  method DispatchOther(reg: ClientRegistry, c: Cid, me: UserAddress, p: Packet, now: Time, energy: real)
    returns (es: seq<Event>, ghost x: Context)
    requires !p.ClientTargetedAudio?
    modifies reg
    ensures x.c == c && x.me == me && x.now == now
    ensures Does(x, old(reg.View()), Begin(p), reg.View(), es)
    ensures reg.addresses == old(reg.addresses)
  {
    hide Does;
    es, x := [], Context(c, me, now, reg.View().rooms);
    Nothing(x, reg.View());
    match p
    case CallAcceptResponse(key) => es := HandleAccept(reg, x, c, key);
    case CallRejectResponse(key) => es := HandleReject(reg, x, c, key);
    case CallHangup(key) => es := HandleHangup(reg, x, c, key);
    case RoomJoinRequest(key) => HandleRoomJoin(reg, x, c, key);
    case RoomLeaveRequest(key) => x := HandleRoomLeave(reg, c, me, key, now);
    case RoomGroupAudio(key, _, payload) =>
      if |payload| <= MAX_MESSAGE_SIZE {
        x := HandleRoomAudio(reg, c, me, key, now, energy);
      }
    case RoomGroupAudioE2EE(key, _, _, payload) =>
      if |payload| <= MAX_MESSAGE_SIZE {
        x := HandleRoomAudio(reg, c, me, key, now, energy);
      }
    case Pong(_) => HandlePong(reg, x, c, now);
    case _ =>
  }

  /** What the connection's event loop does with a decoded packet is one step of the daemon that
      the theorems about whole runs quantify over; it costs exactly those their rate-limit buckets
      whom it unregisters. */
  method OnPacket(reg: ClientRegistry, ghost identity: map<Cid, UserAddress>, c: Cid, me: UserAddress, p: Packet,
                  now: Time, energy: real)
    returns (es: seq<Event>, ghost x: Context)
    requires c in identity && identity[c] == me
    modifies reg, reg.limiter
    ensures Next(Daemon(old(reg.View()), identity), Receive(c, p, now, x.rooms'), Daemon(reg.View(), identity), es)
    ensures reg.limiter.buckets == old(reg.limiter.buckets) - Departed(old(reg.View()), reg.View())
  {
    hide Handle, LegalRooms;
    es, x := [], Context(c, me, now, reg.View().rooms);
    if ValidSender(p, c, me) {
      es, x := DispatchPacket(reg, c, me, p, now, energy);
    }
  }

  /** A message from the data channel: the rate limiter first, then the decoder, then the packet. One
      that the limiter refuses or the decoder rejects changes nothing but the sender's bucket. */
  method OnMessage(reg: ClientRegistry, ghost identity: map<Cid, UserAddress>, c: Cid, me: UserAddress, bytes: seq<byte>,
                   spare: UserAddress, now: Time, energy: real)
    returns (es: seq<Event>, ghost x: Context)
    requires c in identity && identity[c] == me
    modifies reg, reg.limiter
    ensures var (buckets, ok) := RateLimit.Check(reg.limiter.cfg, old(reg.limiter.buckets), c, now);
      var d := Decode(bytes, spare);
      if ok && d.Ok? then
        && Next(Daemon(old(reg.View()), identity), Receive(c, d.packet, now, x.rooms'), Daemon(reg.View(), identity), es)
        && reg.limiter.buckets == buckets - Departed(old(reg.View()), reg.View())
      else reg.View() == old(reg.View()) && es == [] && reg.limiter.buckets == buckets
  {
    hide Next, RateLimit.Check, Decode;
    es, x := [], Context(c, me, now, reg.View().rooms);
    var ok := reg.limiter.CheckAndConsume(c, now);
    if !ok {
      return;
    }
    var d := Decode(bytes, spare);
    if d.Ok? {
      es, x := OnPacket(reg, identity, c, me, d.packet, now, energy);
    }
  }
}
