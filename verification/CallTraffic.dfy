/**
 More about whole runs with atomic handlers: a 1-to-1 frame reaches exactly one local client, a
 callee is not prompted twice for one session, and exactly which hangups revoke an approval.
 */
module CallTraffic {
  import opened Basics
  import opened Bytes
  import opened Addresses
  import opened Codec
  import opened Rooms
  import opened Registry
  import opened Handlers
  import opened CallControl

  // ---------------------------------------------------------------- local unicast

  /** The registered clients whose receive loop lets a broadcast by `c` for `key` through. */
  function Receivers(r: Tables, c: Cid, key: UserAddress): (cs: set<Cid>) {
    set z | z in r.addresses && z != c && MatchesPrefix(r.addresses[z], key)
  }

  lemma FoundIsOnlyReceiver(r: Tables, c: Cid, key: UserAddress, t: Cid)
    requires Find(r.addresses, key) == Found(t) && t != c
    ensures Receivers(r, c, key) == {t}
  {
    assert Holders(r.addresses, key) == {t};
    hide MatchesPrefix, Find;
    assert forall z :: z in Receivers(r, c, key) ==> z in Holders(r.addresses, key);
    assert t in Holders(r.addresses, key);
  }

  /** Each frame among the events of `c` passes the filter of its resolved target and no other. */
  predicate Unicast(r: Tables, c: Cid, me: UserAddress, es: seq<Event>) {
    forall i :: 0 <= i < |es| && es[i].Broadcast? ==>
      es[i].c == c && es[i].sender == me && Receivers(r, c, es[i].key) == {es[i].t}
  }

  lemma UnicastJoins(r: Tables, r': Tables, c: Cid, me: UserAddress, es: seq<Event>, es': seq<Event>)
    requires Unicast(r, c, me, es) && Unicast(r', c, me, es') && (r.addresses == r'.addresses || es' == [])
    ensures Unicast(r, c, me, es + es')
  {
    forall key | r.addresses == r'.addresses ensures Receivers(r, c, key) == Receivers(r', c, key) {}
  }

  lemma EmitUnicast(r: Tables, c: Cid, me: UserAddress, f: Frame, t: Cid, now: Time, rooms': RoomTables)
    requires Knows(r, c, me, Emit(f, t))
    ensures Unicast(r, c, me, Micro(r, c, me, Emit(f, t), now, rooms').events)
  {
    FoundIsOnlyReceiver(r, c, f.key, t);
    hide Find, MatchesPrefix, Receivers, Permitted;
  }

  lemma OnlyEmitBroadcasts(r: Tables, c: Cid, me: UserAddress, pc: Pc, now: Time, rooms': RoomTables)
    requires !pc.Idle? && !pc.Emit?
    ensures Unicast(r, c, me, Micro(r, c, me, pc, now, rooms').events)
  {
    if Quiet(pc) {
      MicroQuiet(r, c, me, pc, now, rooms');
      hide Micro, Receivers;
    } else {
      hide Find, ClearCallSession, Unregister, MatchesPrefix, Receivers, Has, Mark;
    }
  }

  lemma MicroUnicast(r: Tables, c: Cid, me: UserAddress, pc: Pc, now: Time, rooms': RoomTables)
    requires !pc.Idle? && Knows(r, c, me, pc)
    ensures var e := Micro(r, c, me, pc, now, rooms');
      && (e.pc.Idle? || e.r.addresses == r.addresses)
      && Unicast(r, c, me, e.events)
  {
    hide Micro, Knows, Unicast;
    MicroAddresses(r, c, me, pc, now, rooms');
    if pc.Emit? {
      EmitUnicast(r, c, me, pc.f, pc.t, now, rooms');
    } else {
      OnlyEmitBroadcasts(r, c, me, pc, now, rooms');
    }
  }

  lemma {:induction false} HandleUnicast(r: Tables, c: Cid, me: UserAddress, pc: Pc, now: Time, rooms': RoomTables)
    requires Knows(r, c, me, pc)
    ensures var e := Handle(r, c, me, pc, now, rooms');
      Unicast(r, c, me, e.events)
    decreases Rank(pc)
  {
    if !pc.Idle? {
      hide Micro, Knows, Rank, MatchesPrefix;
      MicroTerminates(r, c, me, pc, now, rooms');
      MicroKnows(r, c, me, pc, now, rooms');
      MicroUnicast(r, c, me, pc, now, rooms');
      var e1 := Micro(r, c, me, pc, now, rooms');
      HandleUnicast(e1.r, c, me, e1.pc, now, rooms');
      var e2 := Handle(e1.r, c, me, e1.pc, now, rooms');
      hide Unicast;
      UnicastJoins(r, e1.r, c, me, e1.events, e2.events);
    }
  }

  /** Whenever a 1-to-1 frame is broadcast, exactly one registered client passes the receive
      filter: the one the lookup resolved, and never the sender. */
  lemma FrameReachesExactlyOne(run: Run, n: nat, i: nat)
    requires CallControl.IsRun(run) && n < |run.ops| && i < |run.outs[n]| && run.outs[n][i].Broadcast?
    ensures var e := run.outs[n][i]; var d := run.daemons[n];
      && e.c in d.identity && e.sender == d.identity[e.c] && e.t != e.c
      && Receivers(d.reg, e.c, e.key) == {e.t}
  {
    var d, op, e := run.daemons[n], run.ops[n], run.outs[n][i];
    assert Next(d, op, run.daemons[n + 1], run.outs[n]);
    hide Handle, LegalRooms, Knows, Registers, Unregister, MatchesPrefix;
    BeginKnows(d.reg, op.c, d.identity[op.c], op.packet);
    HandleUnicast(d.reg, op.c, d.identity[op.c], Begin(op.packet), op.now, op.rooms');
    assert Unicast(d.reg, op.c, d.identity[op.c], run.outs[n]);
    assert e.t in Receivers(d.reg, e.c, e.key);
  }

  /** The running receive loops, one per data channel, and the connection each belongs to. A loop
      outlives the registration of its connection. */
  type Loops = map<nat, Cid>

  /** The loops that pass a broadcast by `c` for `key` on. */
  function Hearing(identity: map<Cid, UserAddress>, loops: Loops, c: Cid, key: UserAddress): (ks: set<nat>) {
    set k | k in loops && loops[k] in identity && loops[k] != c && MatchesPrefix(identity[loops[k]], key)
  }

  function Own(loops: Loops, t: Cid): (ks: set<nat>) {
    set k | k in loops && loops[k] == t
  }

  /** Loops of connections that match the key but are registered no longer. */
  function Stray(d: Daemon, loops: Loops, c: Cid, key: UserAddress): (ks: set<nat>) {
    set k | k in Hearing(d.identity, loops, c, key) && loops[k] !in d.reg.addresses
  }

  /** Whatever loops are running, those that pass a frame on are the loops of the resolved target and
      those of outdated connections that also match. So it is heard once exactly when the target has
      one loop and there is no outdated match, or it has none and there is one outdated match. */
  lemma FrameHeardBy(run: Run, n: nat, i: nat, loops: Loops)
    requires CallControl.IsRun(run) && n < |run.ops| && i < |run.outs[n]| && run.outs[n][i].Broadcast?
    ensures var e, d := run.outs[n][i], run.daemons[n];
      var heard, own, stray := Hearing(d.identity, loops, e.c, e.key), Own(loops, e.t), Stray(d, loops, e.c, e.key);
      heard == own + stray && own !! stray && (|heard| == 1 <==> |own| + |stray| == 1)
  {
    RegistryInvariant(run, n);
    FrameReachesExactlyOne(run, n, i);
    var e, d := run.outs[n][i], run.daemons[n];
    hide *;
    LoopsSplit(d, loops, e.c, e.key, e.t);
  }

  lemma LoopsSplit(d: Daemon, loops: Loops, c: Cid, key: UserAddress, t: Cid)
    requires Tracked(d) && Receivers(d.reg, c, key) == {t}
    ensures var heard, own, stray := Hearing(d.identity, loops, c, key), Own(loops, t), Stray(d, loops, c, key);
      heard == own + stray && own !! stray && (|heard| == 1 <==> |own| + |stray| == 1)
  {
    hide MatchesPrefix, Consistent;
    var heard, own, stray := Hearing(d.identity, loops, c, key), Own(loops, t), Stray(d, loops, c, key);
    assert t in Receivers(d.reg, c, key);
    forall k | k in heard ensures k in own + stray {
      if loops[k] in d.reg.addresses {
        assert loops[k] in Receivers(d.reg, c, key);
      }
    }
    assert heard == own + stray;
  }

  // ---------------------------------------------------------------- prompts

  predicate Unregistered(d: Daemon, d': Daemon, u: Cid) {
    u in d.reg.addresses && u !in d'.reg.addresses
  }

  /** The operation ends whatever session there was between `t` and `x`: a hangup of one that
      resolves to the other, or the departure of either. */
  predicate ClearsPair(d: Daemon, op: Op, d': Daemon, t: Cid, x: Cid) {
    || Unregistered(d, d', t) || Unregistered(d, d', x)
    || (op.Disconnect? && (op.c == t || op.c == x))
    || (op.Receive? && op.packet.CallHangup? && EndsPair(d.reg, op.c, op.packet.targetAddress, t, x))
  }

  predicate EndsPair(r: Tables, c: Cid, key: UserAddress, t: Cid, x: Cid) {
    (c == x && Find(r.addresses, key) == Found(t)) || (c == t && Find(r.addresses, key) == Found(x))
  }

  lemma ClearKeepsNotified(r: Tables, c: Cid, key: UserAddress, t: Cid, x: Cid)
    requires Has(r.notified, t, x) && !EndsPair(r, c, key, t, x)
    ensures Has(ClearCallSession(r, c, key).notified, t, x)
  {
    hide MatchesPrefix, Find, Has;
  }

  lemma UnregisterKeepsNotified(r: Tables, u: Cid, t: Cid, x: Cid)
    requires Has(r.notified, t, x) && u != t && u != x
    ensures Has(Unregister(r, u).notified, t, x)
  {
    hide MatchesPrefix, Find, ClearCallSession;
    var r1 := RemoveRows(r, u);
    if u in r.targets {
      ClearKeepsNotified(r1, u, r.targets[u], t, x);
    }
  }

  lemma MicroKeepsNotified(
    r: Tables, c: Cid, me: UserAddress, pc: Pc, now: Time, rooms': RoomTables, t: Cid, x: Cid)
    requires !pc.Idle? && Has(r.notified, t, x)
    requires pc.DropStale? ==> pc.t != t && pc.t != x
    requires pc.HangupClear? ==> !EndsPair(r, c, pc.key, t, x)
    ensures Has(Micro(r, c, me, pc, now, rooms').r.notified, t, x)
  {
    if Quiet(pc) {
      MicroQuiet(r, c, me, pc, now, rooms');
      hide Micro;
    } else {
      hide MatchesPrefix, Find, ClearCallSession, Unregister, Has;
      if pc.DropStale? {
        UnregisterKeepsNotified(r, pc.t, t, x);
      } else if pc.HangupClear? {
        ClearKeepsNotified(r, c, pc.key, t, x);
      }
    }
  }

  lemma MicroAddresses(r: Tables, c: Cid, me: UserAddress, pc: Pc, now: Time, rooms': RoomTables)
    requires !pc.Idle?
    ensures var e := Micro(r, c, me, pc, now, rooms');
      && !e.pc.HangupClear?
      && (pc.DropStale? ==> e.pc.Idle? && e.r.addresses == r.addresses - {pc.t})
      && (!pc.DropStale? ==> e.r.addresses == r.addresses)
  {
    hide MatchesPrefix, Find, ClearCallSession, Unregister, IsClientInRoom, IsClientInSameCall, IsRoomOrTargetFull, Has;
    if pc.HangupClear? {
      ClearFrame(r, c, pc.key);
    } else if pc.DropStale? {
      UnregisterFrame(r, pc.t);
    }
  }

  /** A handler that neither hangs up on the pair nor drops one of them keeps the mark. */
  lemma {:induction false} HandleKeepsNotified(
    r: Tables, c: Cid, me: UserAddress, pc: Pc, now: Time, rooms': RoomTables, t: Cid, x: Cid)
    requires Has(r.notified, t, x) && Knows(r, c, me, pc)
    requires pc.HangupClear? ==> !EndsPair(r, c, pc.key, t, x)
    requires var e := Handle(r, c, me, pc, now, rooms');
      !(t in r.addresses && t !in e.r.addresses) && !(x in r.addresses && x !in e.r.addresses)
    ensures Has(Handle(r, c, me, pc, now, rooms').r.notified, t, x)
    decreases Rank(pc)
  {
    if !pc.Idle? {
      if pc.DropStale? {
        FoundIsRegistered(r, pc.f.key, pc.t);
      }
      hide Micro, Knows, Rank, MatchesPrefix, Find, Has;
      MicroTerminates(r, c, me, pc, now, rooms');
      MicroKnows(r, c, me, pc, now, rooms');
      MicroAddresses(r, c, me, pc, now, rooms');
      MicroKeepsNotified(r, c, me, pc, now, rooms', t, x);
      var e1 := Micro(r, c, me, pc, now, rooms');
      HandleKeepsNotified(e1.r, c, me, e1.pc, now, rooms', t, x);
    }
  }

  lemma NextKeepsNotified(d: Daemon, op: Op, d': Daemon, out: seq<Event>, t: Cid, x: Cid)
    requires Next(d, op, d', out) && Has(d.reg.notified, t, x) && !ClearsPair(d, op, d', t, x)
    ensures Has(d'.reg.notified, t, x)
  {
    hide MatchesPrefix, Find, Has, Handle, LegalRooms, Knows, Unregister;
    match op
    case Connect(c, address, now) =>
      if old' :| Holder(d.reg, c, address, old') && d'.reg == Seat(Unregister(d.reg, old'), c, address, now) {
        UnregisterFrame(d.reg, old');
        UnregisterKeepsNotified(d.reg, old', t, x);
      }
    case OpenChannel(c) =>
    case Disconnect(c) => UnregisterKeepsNotified(d.reg, c, t, x);
    case Receive(c, p, now, rooms') =>
      if ValidSender(p, c, d.identity[c]) {
        BeginKnows(d.reg, c, d.identity[c], p);
        HandleKeepsNotified(d.reg, c, d.identity[c], Begin(p), now, rooms', t, x);
      }
  }

  /** Each prompt among the events of `c` had no mark before and has one after. */
  predicate FreshPrompts(r: Tables, r': Tables, c: Cid, es: seq<Event>) {
    forall i :: 0 <= i < |es| && es[i].Prompt? ==>
      es[i].c == c && !Has(r.notified, es[i].t, c) && Has(r'.notified, es[i].t, c)
  }

  predicate NoPrompts(es: seq<Event>) {
    forall i :: 0 <= i < |es| ==> !es[i].Prompt?
  }

  lemma MicroPrompt(r: Tables, c: Cid, me: UserAddress, pc: Pc, now: Time, rooms': RoomTables)
    requires !pc.Idle? && Knows(r, c, me, pc)
    ensures var e := Micro(r, c, me, pc, now, rooms');
      && (pc.MarkNotified? ==> e.pc == SendPrompt(pc.f, pc.t) && e.events == [] && !Has(r.notified, pc.t, c))
      && (pc.SendPrompt? ==> e.pc.Idle? && e.r == r && e.events <= [Prompt(pc.t, c)] && Has(r.notified, pc.t, c))
      && (!pc.MarkNotified? && !pc.SendPrompt? ==>
            !e.pc.SendPrompt? && NoPrompts(e.events))
      && (e.pc.MarkNotified? ==> e.r == r)
  {
    hide MatchesPrefix, Find, ClearCallSession, Unregister, IsClientInRoom, IsClientInSameCall, IsRoomOrTargetFull;
    hide IsStale, Mutual;
  }

  lemma MarkedPrompt(r: Tables, c: Cid, me: UserAddress, f: Frame, t: Cid, now: Time, rooms': RoomTables)
    requires !Has(r.notified, t, c)
    ensures var e1 := Micro(r, c, me, MarkNotified(f, t), now, rooms');
      var e2 := Handle(e1.r, c, me, e1.pc, now, rooms');
      FreshPrompts(r, e2.r, c, e2.events)
  {
    var r1 := r.(notified := Mark(r.notified, t, c));
    assert Has(r1.notified, t, c);
    hide Has;
    var es := if t in r1.channels then [Prompt(t, c)] else [];
    assert Micro(r1, c, me, SendPrompt(f, t), now, rooms') == Effect(r1, Idle, es);
    assert Handle(r1, c, me, SendPrompt(f, t), now, rooms') == Effect(r1, Idle, es + []);
  }

  lemma PromptsJoin(r: Tables, r1: Tables, r2: Tables, c: Cid, es: seq<Event>, es': seq<Event>)
    requires NoPrompts(es) && FreshPrompts(r1, r2, c, es') && (r == r1 || NoPrompts(es'))
    ensures FreshPrompts(r, r2, c, es + es') && (NoPrompts(es') ==> NoPrompts(es + es'))
  {
  }

  lemma UnfoldHandle(r: Tables, c: Cid, me: UserAddress, pc: Pc, now: Time, rooms': RoomTables)
    requires !pc.Idle?
    ensures var e1 := Micro(r, c, me, pc, now, rooms');
      var e2 := Handle(e1.r, c, me, e1.pc, now, rooms');
      Handle(r, c, me, pc, now, rooms') == Effect(e2.r, Idle, e1.events + e2.events)
  {
    hide Micro, Rank;
  }

  /** From any point but the send itself, a handler that prompts found no mark and leaves one. */
  lemma {:induction false} HandlePrompt(r: Tables, c: Cid, me: UserAddress, pc: Pc, now: Time, rooms': RoomTables)
    requires Knows(r, c, me, pc) && !pc.SendPrompt?
    ensures var e := Handle(r, c, me, pc, now, rooms');
      FreshPrompts(r, e.r, c, e.events) && (AudioPc(pc) || NoPrompts(e.events))
    decreases Rank(pc)
  {
    hide Handle, Micro, Knows, Rank, FreshPrompts, NoPrompts, Has, AudioPc;
    if pc.Idle? {
      IdlePrompt(r, c, me, now, rooms');
    } else {
      MicroTerminates(r, c, me, pc, now, rooms');
      MicroKnows(r, c, me, pc, now, rooms');
      MicroPrompt(r, c, me, pc, now, rooms');
      MicroAudio(r, c, me, pc, now, rooms');
      var e1 := Micro(r, c, me, pc, now, rooms');
      var e2 := Handle(e1.r, c, me, e1.pc, now, rooms');
      UnfoldHandle(r, c, me, pc, now, rooms');
      if pc.MarkNotified? {
        assert AudioPc(pc) by { MarkIsAudio(pc); }
        MarkedPrompt(r, c, me, pc.f, pc.t, now, rooms');
        assert e1.events + e2.events == e2.events;
      } else {
        HandlePrompt(e1.r, c, me, e1.pc, now, rooms');
        PromptsJoin(r, e1.r, e2.r, c, e1.events, e2.events);
      }
    }
  }

  lemma IdlePrompt(r: Tables, c: Cid, me: UserAddress, now: Time, rooms': RoomTables)
    ensures var e := Handle(r, c, me, Idle, now, rooms'); FreshPrompts(r, e.r, c, e.events) && NoPrompts(e.events)
  {
    hide Has;
  }

  lemma MarkIsAudio(pc: Pc)
    requires pc.MarkNotified?
    ensures AudioPc(pc)
  {
  }

  /** The points of `handle_client_targeted_audio` before it marks or sends anything. */
  predicate AudioPc(pc: Pc) {
    || pc.CheckRoom? || pc.FindTarget? || pc.CheckStale? || pc.CheckRejected? || pc.CheckSameCall?
    || pc.CheckMutual? || pc.CheckFull? || pc.CheckApproved? || pc.CheckNotified? || pc.MarkNotified?
  }

  lemma MicroAudio(r: Tables, c: Cid, me: UserAddress, pc: Pc, now: Time, rooms': RoomTables)
    requires !pc.Idle?
    ensures var e := Micro(r, c, me, pc, now, rooms');
      && (AudioPc(e.pc) ==> AudioPc(pc) && e.r == r)
      && (AudioPc(pc) ==> e.r.notified == r.notified || pc.MarkNotified?)
  {
    hide MatchesPrefix, Find, ClearCallSession, Unregister, IsClientInRoom, IsClientInSameCall, IsRoomOrTargetFull;
    hide IsStale, Mutual, Has;
  }

  lemma NextPrompt(d: Daemon, op: Op, d': Daemon, out: seq<Event>, i: nat, t: Cid, x: Cid)
    requires Next(d, op, d', out) && i < |out| && out[i] == Prompt(t, x)
    ensures !Has(d.reg.notified, t, x) && Has(d'.reg.notified, t, x)
  {
    hide Handle, LegalRooms, Knows, Has, Registers, Unregister, AudioPc;
    BeginKnows(d.reg, op.c, d.identity[op.c], op.packet);
    HandlePrompt(d.reg, op.c, d.identity[op.c], Begin(op.packet), op.now, op.rooms');
    assert FreshPrompts(d.reg, d'.reg, op.c, out);
  }

  /** Step `k` of the run ends the session of the pair. */
  ghost predicate ClearedAt(run: Run, k: nat, t: Cid, x: Cid)
    requires CallControl.IsRun(run) && k < |run.ops|
  {
    ClearsPair(run.daemons[k], run.ops[k], run.daemons[k + 1], t, x)
  }

  ghost predicate MarkedAt(run: Run, k: nat, t: Cid, x: Cid)
    requires CallControl.IsRun(run) && k <= |run.ops|
  {
    Has(run.daemons[k].reg.notified, t, x)
  }

  lemma MarkStays(run: Run, k: nat, t: Cid, x: Cid)
    requires CallControl.IsRun(run) && k < |run.ops| && MarkedAt(run, k, t, x) && !ClearedAt(run, k, t, x)
    ensures MarkedAt(run, k + 1, t, x)
  {
    hide ClearsPair, Has;
    var d, op, d', out := run.daemons[k], run.ops[k], run.daemons[k + 1], run.outs[k];
    assert Next(d, op, d', out);
    hide Next;
    NextKeepsNotified(d, op, d', out, t, x);
  }

  lemma {:induction false} MarkLasts(run: Run, m: nat, n: nat, t: Cid, x: Cid)
    requires CallControl.IsRun(run) && m <= n <= |run.ops| && MarkedAt(run, m, t, x)
    requires forall k :: m <= k < n ==> !ClearedAt(run, k, t, x)
    ensures MarkedAt(run, n, t, x)
    decreases n - m
  {
    if m < n {
      hide *;
      MarkStays(run, m, t, x);
      MarkLasts(run, m + 1, n, t, x);
    }
  }

  lemma PromptMarks(run: Run, k: nat, i: nat, t: Cid, x: Cid)
    requires CallControl.IsRun(run) && k < |run.ops| && i < |run.outs[k]| && run.outs[k][i] == Prompt(t, x)
    ensures !MarkedAt(run, k, t, x) && MarkedAt(run, k + 1, t, x)
  {
    hide Has;
    var d, op, d', out := run.daemons[k], run.ops[k], run.daemons[k + 1], run.outs[k];
    assert Next(d, op, d', out);
    hide Next;
    NextPrompt(d, op, d', out, i, t, x);
  }

  /** Between two call requests for the same callee and caller there is always an operation that
      ended the session of that pair. */
  lemma NoDuplicatePrompts(run: Run, m: nat, i: nat, n: nat, j: nat, t: Cid, x: Cid)
    requires CallControl.IsRun(run) && m < n < |run.ops| && i < |run.outs[m]| && j < |run.outs[n]|
    requires run.outs[m][i] == Prompt(t, x) && run.outs[n][j] == Prompt(t, x)
    ensures exists k :: m < k < n && ClearedAt(run, k, t, x)
  {
    PromptMarks(run, m, i, t, x);
    PromptMarks(run, n, j, t, x);
    hide *;
    if forall k :: m + 1 <= k < n ==> !ClearedAt(run, k, t, x) {
      MarkLasts(run, m + 1, n, t, x);
    }
  }

  // ---------------------------------------------------------------- which hangups revoke

  /** A hangup takes back the sender's own approval of `b` exactly when it names `b` in full. A
      hangup by short ID ends the session but leaves that approval standing. */
  lemma HangupRevokesExactly(r: Tables, x: Cid, key: UserAddress, b: UserAddress)
    requires x in r.addresses && r.addresses[x] != b && Has(r.approved, x, b)
    ensures !Has(ClearCallSession(r, x, key).approved, x, b) <==> key == b
  {
    hide MatchesPrefix, Find, Has;
  }
}
