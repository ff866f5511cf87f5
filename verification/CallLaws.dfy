/**
 What the handlers mean to the people who call one another: which of forwarding, prompting and
 refusing a caller meets, exactly when; and what an answer or a hangup tells the other end. The laws
 speak of targets, approvals and clocks, not of the queries the handlers make.
 */
module CallLaws {
  import opened Basics
  import opened Bytes
  import opened Addresses
  import opened Codec
  import opened Rooms
  import opened Registry
  import opened Handlers
  import opened CallControl
  import opened Dispatch

  /** Client `t` is registered, alone, under the full address `a`. */
  predicate Resident(r: Tables, t: Cid, a: UserAddress) {
    UniqueAddresses(r) && t in r.addresses && r.addresses[t] == a && Exact(a)
  }

  /** The target of `d` is the address `a`, or a short ID of it. */
  predicate Chose(r: Tables, d: Cid, a: UserAddress) {
    d in r.targets && MatchesPrefix(a, r.targets[d])
  }

  /** Somebody else has chosen `t`. */
  predicate Wanted(r: Tables, t: Cid, a: UserAddress) {
    exists d :: d in r.addresses && d != t && Chose(r, d, a)
  }

  /** Client `d` answers to `key`, or has a target such that one of the two denotes the other. */
  predicate Joins(r: Tables, d: Cid, key: UserAddress) {
    || (d in r.addresses && MatchesPrefix(r.addresses[d], key))
    || Chose(r, d, key)
    || (d in r.targets && MatchesPrefix(r.targets[d], key))
  }

  /** Somebody other than `t` is there too. */
  predicate Shared(r: Tables, t: Cid, key: UserAddress) {
    exists d :: d in r.addresses && d != t && Joins(r, d, key)
  }

  /** What makes a callee busy: somebody else has chosen it, or what it has chosen, unless that is
      itself, is shared with somebody else. */
  predicate Busy(r: Tables, t: Cid, a: UserAddress) {
    Wanted(r, t, a) || (t in r.targets && r.targets[t] != a && Shared(r, t, r.targets[t]))
  }

  // ---------------------------------------------------------------- the busy check

  lemma TwoOrMore(s: set<Cid>, t: Cid)
    requires t in s
    ensures |s| >= 2 <==> exists d :: d in s && d != t
  {
    assert s == {t} + (s - {t});
    if d :| d in s && d != t {
      assert d in s - {t};
    }
    if |s| >= 2 {
      var d :| d in s - {t};
      assert d in s && d != t;
    }
  }

  lemma OnlyHolder(r: Tables, t: Cid, a: UserAddress, d: Cid)
    requires Resident(r, t, a) && d in r.addresses
    ensures MatchesPrefix(r.addresses[d], a) <==> d == t
  {
    ExactMatchesOnlyItself(r.addresses[d], a);
  }

  lemma InRoomMeans(r: Tables, t: Cid, a: UserAddress, d: Cid)
    requires Resident(r, t, a) && d in r.addresses
    ensures IsClientInRoom(r, d, a) <==> d == t || Chose(r, d, a)
  {
    OnlyHolder(r, t, a, d);
    if d in r.targets {
      ExactMatchesOnlyItself(r.targets[d], a);
    }
  }

  /** The busy check, in the callee's terms. */
  lemma BusyExactly(r: Tables, t: Cid, a: UserAddress)
    requires Resident(r, t, a)
    ensures IsRoomOrTargetFull(r, a) <==> Busy(r, t, a)
  {
    hide MatchesPrefix, UniqueAddresses, Exact;
    var ps := Participants(r, a);
    forall d | d in r.addresses ensures d in ps <==> d == t || Chose(r, d, a) {
      hide Chose;
      InRoomMeans(r, t, a, d);
    }
    TwoOrMore(ps, t);
    assert |ps| >= 2 <==> Wanted(r, t, a);
    forall d | d in r.addresses && BusyElsewhere(r, d, a) ensures d == t {
      OnlyHolder(r, t, a, d);
    }
    if t in r.targets {
      ElsewhereExactly(r, t, a);
    }
  }

  lemma ElsewhereExactly(r: Tables, t: Cid, a: UserAddress)
    requires Resident(r, t, a) && t in r.targets
    ensures BusyElsewhere(r, t, a) <==> r.targets[t] != a && Shared(r, t, r.targets[t])
  {
    var key := r.targets[t];
    ExactMatchesOnlyItself(key, a);
    OnlyHolder(r, t, a, t);
    assert MatchesPrefix(key, key);
    hide MatchesPrefix, UniqueAddresses, Exact;
    var ps := Participants(r, key);
    assert t in ps;
    TwoOrMore(ps, t);
    forall d | d in r.addresses ensures d in ps <==> Joins(r, d, key) {
    }
  }

  // ---------------------------------------------------------------- what a caller gets

  /** Client `c` has chosen nobody and sends audio to the full address of another client `t`. */
  predicate Calling(x: Context, r: Tables, f: Frame, t: Cid) {
    Resident(r, x.c, x.me) && Resident(r, t, f.key) && t != x.c && !Chose(r, x.c, f.key)
  }

  /** Nothing has been heard of `t` for thirty seconds. */
  predicate Silent(r: Tables, t: Cid, now: Time) {
    t in r.lastPong && now >= r.lastPong[t] + 30.0
  }

  /** Why a call is turned away: the callee is lost, has rejected the caller, or is busy with
      somebody else. */
  predicate TurnedAway(x: Context, r: Tables, f: Frame, t: Cid) {
    Silent(r, t, x.now) || Has(r.rejected, t, x.me) || (Busy(r, t, f.key) && !Chose(r, t, x.me))
  }

  /** Why it is let through: the callee has chosen the caller's full address, or approved it. */
  predicate Welcome(x: Context, r: Tables, t: Cid) {
    (t in r.targets && r.targets[t] == x.me) || Has(r.approved, t, x.me)
  }

  lemma CalleeFound(x: Context, r: Tables, f: Frame, t: Cid)
    requires Calling(x, r, f, t)
    ensures !IsClientInRoom(r, x.c, f.key) && Find(r.addresses, f.key) == Found(t)
  {
    InRoomMeans(r, t, f.key, x.c);
    FindResident(r, t, f.key);
  }

  lemma FindResident(r: Tables, t: Cid, a: UserAddress)
    requires Resident(r, t, a)
    ensures Find(r.addresses, a) == Found(t)
  {
    forall d | d in r.addresses ensures MatchesPrefix(r.addresses[d], a) <==> d == t {
      OnlyHolder(r, t, a, d);
    }
    assert Holders(r.addresses, a) == {t};
  }

  lemma SameCallMeans(x: Context, r: Tables, f: Frame, t: Cid)
    requires Calling(x, r, f, t)
    ensures IsClientInSameCall(r, x.c, f.key) <==> Chose(r, t, x.me)
    ensures Mutual(r, t, x.me) <==> t in r.targets && r.targets[t] == x.me
  {
    CalleeFound(x, r, f, t);
    if t in r.targets {
      ExactMatchesOnlyItself(r.targets[t], x.me);
    }
    forall d | d in r.addresses ensures PointsBack(r, d, f.key, x.me) <==> d == t && Chose(r, t, x.me) {
      OnlyHolder(r, t, f.key, d);
    }
  }

  /** Audio to somebody the caller has chosen already is room audio: nothing else changes. */
  lemma InCallIsRoomAudio(x: Context, r: Tables, f: Frame)
    requires Chose(r, x.c, f.key)
    ensures Whole(x, r, CheckRoom(f)) == Effect(r.(rooms := x.rooms'), Idle, [])
  {
    InRoomGets(x, r, f);
  }

  lemma InRoomGets(x: Context, r: Tables, f: Frame)
    requires IsClientInRoom(r, x.c, f.key)
    ensures Whole(x, r, CheckRoom(f)) == Effect(r.(rooms := x.rooms'), Idle, [])
  {
    InRoomPath(x, r, f);
    var e := Acquire(x, r, RoomAudio(f.key));
    Unfolds(x, r, RoomAudio(f.key));
    assert [] + e.events == [];
  }

  /** A call is turned away with an error and no other trace, except that a lost callee is
      unregistered. */
  lemma TurnedAwayGets(x: Context, r: Tables, f: Frame, t: Cid)
    requires Calling(x, r, f, t) && TurnedAway(x, r, f, t)
    ensures Whole(x, r, CheckRoom(f)) ==
      Effect(if Silent(r, t, x.now) then Unregister(r, t) else r, Idle, [ErrorTo(x.c, f.key)])
  {
    CalleeFound(x, r, f, t);
    FoundPath(x, r, f, t);
    SameCallMeans(x, r, f, t);
    BusyExactly(r, t, f.key);
    hide Find, Calling, Whole, Legal, Unregister, IsClientInRoom, Chose, Busy, IsRoomOrTargetFull, Has, Gets;
    if Silent(r, t, x.now) {
      StalePath(x, r, f, t);
    } else {
      CallPath(x, r, f, t);
      if !Has(r.rejected, t, x.me) {
        PermitPath(x, r, f, t, IsClientInSameCall(r, x.c, f.key));
      }
    }
  }

  /** A call that is not turned away is forwarded if it is welcome, and makes the callee the
      caller's target; else the callee is prompted, once, and nothing is forwarded. */
  lemma HeardOutGets(x: Context, r: Tables, f: Frame, t: Cid)
    requires Calling(x, r, f, t) && !TurnedAway(x, r, f, t)
    ensures Welcome(x, r, t) ==>
      Whole(x, r, CheckRoom(f)) == Effect(r.(targets := r.targets[x.c := f.key]), Idle,
                                          if f.payload == [] then [] else [Broadcast(x.c, x.me, f.key, t)])
    ensures !Welcome(x, r, t) && Has(r.notified, t, x.c) ==> Whole(x, r, CheckRoom(f)) == Effect(r, Idle, [])
    ensures !Welcome(x, r, t) && !Has(r.notified, t, x.c) ==>
      Whole(x, r, CheckRoom(f)) == Effect(r.(notified := Mark(r.notified, t, x.c)), Idle,
                                          if t in r.channels then [Prompt(t, x.c)] else [])
  {
    CalleeFound(x, r, f, t);
    FoundPath(x, r, f, t);
    SameCallMeans(x, r, f, t);
    BusyExactly(r, t, f.key);
    var same := IsClientInSameCall(r, x.c, f.key);
    assert t in r.targets && r.targets[t] == x.me ==> Chose(r, t, x.me);
    hide Find, Calling, Whole, Legal, IsClientInRoom, Chose, Busy, IsRoomOrTargetFull, Has, Gets, Mark, IsClientInSameCall;
    CallPath(x, r, f, t);
    PermitPath(x, r, f, t, same);
    if Welcome(x, r, t) {
      ForwardPath(x, r, f, t);
    } else if Has(r.notified, t, x.c) {
      NotifiedPath(x, r, f, t);
    } else {
      PromptPath(x, r, f, t);
    }
  }

  /** The handler of a packet of audio for `f.key`. */
  function Sent(x: Context, r: Tables, f: Frame): (e: Effect) {
    Whole(x, r, Begin(ClientTargetedAudio(f.key, f.codec, f.payload)))
  }

  /** Exactly when audio for another client's full address is broadcast to it, prompts it, or is
      answered with an error. */
  lemma WhatACallerGets(x: Context, r: Tables, f: Frame, t: Cid)
    requires Resident(r, x.c, x.me) && Resident(r, t, f.key) && t != x.c
    ensures var es := Sent(x, r, f).events; var calls := |f.payload| <= 1048576 && !Chose(r, x.c, f.key);
      && (Broadcast(x.c, x.me, f.key, t) in es <==>
            calls && f.payload != [] && !TurnedAway(x, r, f, t) && Welcome(x, r, t))
      && (Prompt(t, x.c) in es <==>
            calls && !TurnedAway(x, r, f, t) && !Welcome(x, r, t) && !Has(r.notified, t, x.c) && t in r.channels)
      && (ErrorTo(x.c, f.key) in es <==> calls && TurnedAway(x, r, f, t))
      && |es| <= 1
  {
    hide Resident, Chose, TurnedAway, Welcome, Has, Mark, Unregister;
    if |f.payload| <= 1048576 {
      assert Begin(ClientTargetedAudio(f.key, f.codec, f.payload)) == CheckRoom(f);
      hide Whole, Begin;
      if Chose(r, x.c, f.key) {
        InCallIsRoomAudio(x, r, f);
      } else if TurnedAway(x, r, f, t) {
        TurnedAwayGets(x, r, f, t);
      } else {
        HeardOutGets(x, r, f, t);
      }
    }
  }

  /** Two clients in a call, each having chosen the other, are busy for everybody else: a third
      client that calls one of them gets an error, and nothing changes. */
  lemma BusyCalleeRefused(x: Context, r: Tables, f: Frame, t: Cid, d: Cid)
    requires Calling(x, r, f, t) && d in r.addresses && Resident(r, d, r.addresses[d]) && d != x.c && d != t
    requires d in r.targets && r.targets[d] == f.key && t in r.targets && r.targets[t] == r.addresses[d]
    requires !Silent(r, t, x.now)
    ensures Whole(x, r, CheckRoom(f)) == Effect(r, Idle, [ErrorTo(x.c, f.key)])
  {
    assert Chose(r, d, f.key) && Wanted(r, t, f.key);
    ExactMatchesOnlyItself(x.me, r.addresses[d]);
    assert !Chose(r, t, x.me);
    TurnedAwayGets(x, r, f, t);
  }

  /** One end having chosen the other is enough, whichever it is. */
  lemma HalfCallIsBusy(x: Context, r: Tables, f: Frame, t: Cid, d: Cid)
    requires Calling(x, r, f, t) && d in r.addresses && Resident(r, d, r.addresses[d]) && d != x.c && d != t
    requires !Chose(r, t, x.me) && !Silent(r, t, x.now)
    requires Chose(r, d, f.key) || (t in r.targets && r.targets[t] == r.addresses[d])
    ensures Whole(x, r, CheckRoom(f)) == Effect(r, Idle, [ErrorTo(x.c, f.key)])
  {
    if Chose(r, d, f.key) {
      assert Wanted(r, t, f.key);
    } else {
      assert MatchesPrefix(r.addresses[d], r.targets[t]) && Joins(r, d, r.targets[t]);
      assert Shared(r, t, r.targets[t]);
    }
    TurnedAwayGets(x, r, f, t);
  }

  /** A callee that has been heard of, has not rejected the caller, has chosen nobody and whom nobody
      has chosen is never refused: the caller gets through or the callee is prompted. */
  lemma IdleCalleeNeverRefused(x: Context, r: Tables, f: Frame, t: Cid)
    requires Calling(x, r, f, t) && !Silent(r, t, x.now) && !Has(r.rejected, t, x.me)
    requires t !in r.targets && forall d :: d in r.addresses && d != t ==> !Chose(r, d, f.key)
    ensures ErrorTo(x.c, f.key) !in Whole(x, r, CheckRoom(f)).events
    ensures Has(r.approved, t, x.me) ==> Whole(x, r, CheckRoom(f)).r.targets == r.targets[x.c := f.key]
    ensures !Has(r.approved, t, x.me) ==> Has(Whole(x, r, CheckRoom(f)).r.notified, t, x.c)
  {
    hide Has;
    assert !Busy(r, t, f.key);
    hide Calling, Busy, Chose, Silent;
    HeardOutGets(x, r, f, t);
  }

  /** A caller who is not part of what the key denotes, and whose key denotes no registered client or
      several, gets an error, and nothing changes. */
  lemma UnclearKeyRefused(x: Context, r: Tables, f: Frame)
    requires !Joins(r, x.c, f.key)
    requires forall t :: t in r.addresses && MatchesPrefix(r.addresses[t], f.key) ==>
      exists d :: d in r.addresses && d != t && MatchesPrefix(r.addresses[d], f.key)
    ensures Whole(x, r, CheckRoom(f)) == Effect(r, Idle, [ErrorTo(x.c, f.key)])
  {
    if t: Cid :| Find(r.addresses, f.key) == Found(t) {
      FindMeans(r.addresses, f.key, t);
    }
    hide MatchesPrefix, Find, Whole, Legal;
    LostPath(x, r, f);
  }

  /** Whatever the key, audio is broadcast only by a client that has not chosen what the key denotes,
      and the broadcast makes that choice: the next frame is room audio. */
  lemma BroadcastChooses(x: Context, r: Tables, f: Frame, i: nat)
    requires var e := Whole(x, r, CheckRoom(f)); i < |e.events| && e.events[i].Broadcast?
    ensures !Joins(r, x.c, f.key)
    ensures Whole(x, r, CheckRoom(f)).r.targets == r.targets[x.c := f.key]
    ensures forall x': Context, f': Frame :: x'.c == x.c && f'.key == f.key ==>
      Whole(x', Whole(x, r, CheckRoom(f)).r, CheckRoom(f')).events == []
  {
    var r' := Whole(x, r, CheckRoom(f)).r;
    OnlyForwarding(x, r, f);
    assert MatchesPrefix(f.key, f.key);
    forall x': Context, f': Frame | x'.c == x.c && f'.key == f.key
      ensures Whole(x', r', CheckRoom(f')).events == []
    {
      InCallIsRoomAudio(x', r', f');
    }
  }

  lemma OnlyForwarding(x: Context, r: Tables, f: Frame)
    ensures var e := Whole(x, r, CheckRoom(f));
      || (forall i :: 0 <= i < |e.events| ==> !e.events[i].Broadcast?)
      || (e.r.targets == r.targets[x.c := f.key] && !Joins(r, x.c, f.key))
  {
    hide Find, MatchesPrefix, Whole, Legal, Unregister, IsRoomOrTargetFull, Has, Gets, Mark, IsClientInSameCall, IsStale;
    if IsClientInRoom(r, x.c, f.key) {
      hide IsClientInRoom;
      InRoomGets(x, r, f);
      return;
    }
    assert !Joins(r, x.c, f.key);
    hide IsClientInRoom, Joins;
    if !Find(r.addresses, f.key).Found? {
      LostPath(x, r, f);
      return;
    }
    var t := Find(r.addresses, f.key).cid;
    FoundPath(x, r, f, t);
    if IsStale(r, t, x.now) {
      StalePath(x, r, f, t);
      return;
    }
    CallPath(x, r, f, t);
    if t != x.c && !IsCallRejected(r, t, x.me) {
      AnsweredOnlyForwarding(x, r, f, t);
    }
  }

  lemma AnsweredOnlyForwarding(x: Context, r: Tables, f: Frame, t: Cid)
    requires Gets(x, r, CheckRoom(f), r, CheckMutual(f, t, IsClientInSameCall(r, x.c, f.key)), [])
    ensures var e := Whole(x, r, CheckRoom(f));
      || (forall i :: 0 <= i < |e.events| ==> !e.events[i].Broadcast?)
      || e.r.targets == r.targets[x.c := f.key]
  {
    hide Whole, Legal, IsRoomOrTargetFull, Has, Gets, Mark, IsClientInSameCall, Mutual;
    var same := IsClientInSameCall(r, x.c, f.key);
    PermitPath(x, r, f, t, same);
    if Mutual(r, t, x.me) || same || !IsRoomOrTargetFull(r, f.key) {
      if Permitted(r, t, x.me) {
        ForwardPath(x, r, f, t);
      } else if HasBeenNotified(r, t, x.c) {
        NotifiedPath(x, r, f, t);
      } else {
        PromptPath(x, r, f, t);
      }
    }
  }

  // ---------------------------------------------------------------- answers and hangups

  lemma NoticesResident(x: Context, r: Tables, r': Tables, d: Cid, key: UserAddress, n: Notice)
    requires Resident(r, x.c, x.me) && Resident(r, d, key)
    requires r'.addresses == r.addresses && r'.channels == r.channels
    ensures Notices(r', x.c, key, n) == if d in r.channels then [NoticeTo(d, x.c, n, Some(x.me))] else []
  {
    FindResident(r, d, key);
  }

  lemma DoesWhole(x: Context, r: Tables, pc: Pc, r': Tables, es: seq<Event>)
    requires Does(x, r, pc, r', es)
    ensures Whole(x, r, pc) == Effect(r', Idle, es)
  {
  }

  lemma AfterAcceptMeans(r: Tables, c: Cid, key: UserAddress)
    ensures Begin(CallAcceptResponse(key)) == AcceptMark(key)
    ensures var r' := AfterAccept(r, c, key);
      && r' == r.(approved := r'.approved, targets := r'.targets)
      && (forall k: Cid, a: UserAddress :: Has(r'.approved, k, a) <==> Has(r.approved, k, a) || (k == c && a == key))
      && (c in r.targets ==> r'.targets == r.targets)
      && (c !in r.targets ==> r'.targets == r.targets[c := key])
  {
    hide Has, Mark;
  }

  /** Accepting tells the caller so, adds one approval, and chooses the caller unless somebody is
      chosen already. */
  lemma AcceptTells(x: Context, r: Tables, d: Cid, key: UserAddress)
    requires Resident(r, x.c, x.me) && Resident(r, d, key)
    ensures var e := Whole(x, r, Begin(CallAcceptResponse(key)));
      && e.events == [Accepted(x.c, key)] + (if d in r.channels then [NoticeTo(d, x.c, AcceptedNotice, Some(x.me))] else [])
      && e.r == r.(approved := e.r.approved, targets := e.r.targets)
      && (forall k: Cid, a: UserAddress :: Has(e.r.approved, k, a) <==> Has(r.approved, k, a) || (k == x.c && a == key))
      && (x.c in r.targets ==> e.r.targets == r.targets)
      && (x.c !in r.targets ==> e.r.targets == r.targets[x.c := key])
  {
    hide *;
    var r2 := AfterAccept(r, x.c, key);
    AfterAcceptMeans(r, x.c, key);
    AcceptPath(x, r, key);
    NoticesResident(x, r, r2, d, key, AcceptedNotice);
    DoesWhole(x, r, AcceptMark(key), r2, [Accepted(x.c, key)] + Notices(r2, x.c, key, AcceptedNotice));
  }

  /** Rejecting tells the caller so and adds one rejection. */
  lemma RejectTells(x: Context, r: Tables, d: Cid, key: UserAddress)
    requires Resident(r, x.c, x.me) && Resident(r, d, key)
    ensures var e := Whole(x, r, Begin(CallRejectResponse(key)));
      && e.events == (if d in r.channels then [NoticeTo(d, x.c, RejectedNotice, Some(x.me))] else [])
      && e.r == r.(rejected := e.r.rejected)
      && (forall k: Cid, a: UserAddress :: Has(e.r.rejected, k, a) <==> Has(r.rejected, k, a) || (k == x.c && a == key))
  {
    hide Has, Find, MatchesPrefix, UniqueAddresses, Exact, Mark, Gets, Does, Whole, Notices;
    var r2 := r.(rejected := Mark(r.rejected, x.c, key));
    Starts(x, r, RejectMark(key));
    Goes(x, r, RejectMark(key), r, RejectMark(key), [], Effect(r2, NotifyFind(key, RejectedNotice), []), []);
    NotifyPath(x, r, RejectMark(key), r2, key, RejectedNotice, []);
    NoticesResident(x, r, r2, d, key, RejectedNotice);
    DoesWhole(x, r, RejectMark(key), r2, [] + Notices(r2, x.c, key, RejectedNotice));
  }

  /** Hanging up tells the other end so, and leaves neither end with a target, an approval of the
      other, or a note of a prompt about the other. */
  lemma HangupTells(x: Context, r: Tables, d: Cid, key: UserAddress)
    requires Resident(r, x.c, x.me) && Resident(r, d, key)
    ensures var e := Whole(x, r, Begin(CallHangup(key)));
      && e.events == (if d in r.channels then [NoticeTo(d, x.c, EndedNotice, Some(x.me))] else [])
      && x.c !in e.r.targets && d !in e.r.targets
      && !Has(e.r.approved, x.c, key) && !Has(e.r.approved, d, x.me)
      && !Has(e.r.rejected, x.c, key) && !Has(e.r.rejected, d, x.me)
      && !Has(e.r.notified, x.c, d) && !Has(e.r.notified, d, x.c)
  {
    FindResident(r, d, key);
    ClearExactly(r, x.c, key);
    ClearFrame(r, x.c, key);
    hide Has, Find, MatchesPrefix, UniqueAddresses, Exact, ClearCallSession, Gets, Does, Whole, Notices;
    var r2 := ClearCallSession(r, x.c, key);
    Starts(x, r, HangupClear(key));
    Goes(x, r, HangupClear(key), r, HangupClear(key), [], Effect(r2, NotifyFind(key, EndedNotice), []), []);
    NotifyPath(x, r, HangupClear(key), r2, key, EndedNotice, []);
    NoticesResident(x, r, r2, d, key, EndedNotice);
    DoesWhole(x, r, HangupClear(key), r2, [] + Notices(r2, x.c, key, EndedNotice));
  }

  // ---------------------------------------------------------------- keep-alive

  /** A pong keeps the client from being taken for lost for thirty seconds, and no longer; it is a
      matter of that client alone. */
  lemma PongLasts(x: Context, r: Tables, timestamp: u64)
    ensures var e := Whole(x, r, Begin(Pong(timestamp)));
      && e.events == []
      && (forall later: Time :: IsStale(e.r, x.c, later) <==> later >= x.now + 30.0)
      && (forall d: Cid, later: Time :: d != x.c ==> (IsStale(e.r, d, later) <==> IsStale(r, d, later)))
      && e.r == r.(lastPong := e.r.lastPong)
  {
    hide Does, Whole;
    var r' := r.(lastPong := r.lastPong[x.c := x.now]);
    SingleStep(x, r, PongMark, r');
    DoesWhole(x, r, PongMark, r', []);
  }

  /** When the client leaves whose full address it has chosen, a client's call is over. */
  lemma LeavingEndsCall(r: Tables, c: Cid, d: Cid)
    requires d in r.addresses && Resident(r, d, r.addresses[d]) && d != c && c in r.targets && r.targets[c] == r.addresses[d]
    ensures d !in Unregister(r, c).targets
    ensures forall k :: k in Unregister(r, c).targets ==> r.targets[k] != r.addresses[d]
  {
    UnregisterTargets(r, c);
    var r1 := RemoveRows(r, c);
    FindResident(r1, d, r.addresses[d]);
    forall k | k in Unregister(r, c).targets ensures r.targets[k] != r.addresses[d] {
      ExactMatchesOnlyItself(r.targets[k], r.addresses[d]);
    }
  }

  // ---------------------------------------------------------------- room packets

  /** Packets that are not for the daemon change nothing; nor does room audio over the size limit. */
  predicate Ignored(p: Packet) {
    || p.ClientAssignment? || p.ServerTargetedAudio? || p.PeerTargetedAudio? || p.CallRequest?
    || p.CallAcceptedNotification? || p.CallRejectedNotification? || p.ConnectionError? || p.CallEndedNotification?
    || p.RoomStateNotification? || p.ActiveSpeakerNotice? || p.Ping? || p.VideoFrameData? || p.BroadcastAudio?
    || ((p.RoomGroupAudio? || p.RoomGroupAudioE2EE?) && |p.audioData| > 1048576)
  }

  lemma IgnoredDoNothing(x: Context, r: Tables, p: Packet)
    requires Ignored(p)
    ensures Whole(x, r, Begin(p)) == Effect(r, Idle, [])
  {
    hide Micro;
  }

  /** What the room packets do, under every legal outcome: a join seats the sender in the room of
      that very address, a leave takes it out of one matching room, audio makes it heard. */
  lemma RoomPackets(x: Context, r: Tables, p: Packet)
    requires Legal(x, r, Begin(p))
    ensures p.RoomJoinRequest? ==>
      Whole(x, r, Begin(p)) == Effect(r.(rooms := Join(r.rooms, x.c, p.roomAddress)), Idle, [])
    ensures p.RoomLeaveRequest? ==>
      Leaves(r.rooms, x.c, p.roomAddress, x.rooms') && Whole(x, r, Begin(p)) == Effect(r.(rooms := x.rooms'), Idle, [])
    ensures (p.RoomGroupAudio? || p.RoomGroupAudioE2EE?) && |p.audioData| <= 1048576 ==>
      && Whole(x, r, Begin(p)) == Effect(r.(rooms := x.rooms'), Idle, [])
      && exists energy: real, now: Time, v: Verdict ::
           Update(r.rooms, r.addresses, p.roomAddress, x.c, energy, now, x.rooms', v)
  {
    if p.RoomJoinRequest? || p.RoomLeaveRequest? || ((p.RoomGroupAudio? || p.RoomGroupAudioE2EE?) && |p.audioData| <= 1048576) {
      OneAcquisition(x, r, Begin(p));
    }
  }

  lemma OneAcquisition(x: Context, r: Tables, pc: Pc)
    requires (pc.RoomJoin? || pc.RoomLeave? || pc.RoomAudio?) && Legal(x, r, pc)
    ensures Whole(x, r, pc) == Acquire(x, r, pc) && RoomOutcome(r, x.c, pc, x.rooms')
  {
    hide RoomOutcome, Join;
    var e := Acquire(x, r, pc);
    assert e.pc.Idle? && e.events == [];
    Unfolds(x, r, pc);
    assert [] + e.events == [];
  }
}
