/**
 Hanging up while handlers interleave. A hangup clears the tables, but not the handlers that wait
 for the lock: this says which of them can still lead to a frame, and that without those no frame
 passes between the two ends until one accepts the other again. That each of them does lead to a
 frame is shown in LockExact.
 */
module LockRevocation {
  import opened Basics
  import opened Bytes
  import opened Addresses
  import Codec
  import opened Rooms
  import opened Registry
  import opened Handlers
  import opened LockSteps
  import CallControl

  predicate OwnedBy(s: System, k: Chan, a: UserAddress) {
    k in s.tasks && s.tasks[k].c in s.identity && s.identity[s.tasks[k].c] == a
  }

  predicate Denotes(identity: Identities, t: Cid, b: UserAddress) {
    t in identity && identity[t] == b
  }

  // ---------------------------------------------------------------- what can still come through

  /** The points at which a handler has still to ask whether its target lets it through; at the first
      of them it also looks at the target's own target, or at its rejections. */
  predicate Asks(pc: Pc) {
    AsksMutual(pc) || pc.CheckFull? || pc.CheckApproved?
  }

  predicate AsksMutual(pc: Pc) {
    BeforeReject(pc) || pc.CheckSameCall? || pc.CheckMutual?
  }

  predicate BeforeReject(pc: Pc) {
    pc.CheckStale? || pc.CheckRejected?
  }

  /** The target has approved `x`, and has not rejected it where that still counts. */
  predicate Granted(r: Tables, pc: Pc, x: UserAddress)
    requires Asks(pc)
  {
    Has(r.approved, pc.t, x) && (BeforeReject(pc) ==> !Has(r.rejected, pc.t, x))
  }

  /** A handler of `x` that asks a client of `z` can get through: by an approval, or because the client
      asked, which no lookup finds any more, can yet come to point back. The handlers in `used` are
      taken to stand still. */
  ghost predicate Passes(s: System, k: Chan, x: UserAddress, z: UserAddress, used: set<Chan>)
    requires k in s.tasks && Asks(s.tasks[k].pc)
    decreases |s.tasks.Keys - used|, 3
  {
    var pc := s.tasks[k].pc;
    || Granted(s.reg, pc, x)
    || (AsksMutual(pc) && pc.t !in s.reg.addresses && Opens(s, pc.t, z, x, used))
  }

  /** The client `y` of `z` has made `x` its target, or has a handler that can do so. */
  ghost predicate Opens(s: System, y: Cid, z: UserAddress, x: UserAddress, used: set<Chan>)
    decreases |s.tasks.Keys - used|, 2
  {
    || (y in s.reg.targets && s.reg.targets[y] == x)
    || exists k :: k in s.tasks && k !in used && s.tasks[k].c == y && Way(s, k, z, x, used)
  }

  /** This handler, of a client of `z`, can make `x` that client's target. */
  ghost predicate Way(s: System, k: Chan, z: UserAddress, x: UserAddress, used: set<Chan>)
    requires k in s.tasks && k !in used
    decreases |s.tasks.Keys - used|, 1
  {
    var pc := s.tasks[k].pc;
    FewerLeft(s.tasks.Keys, used, k);
    || (pc.AcceptTarget? && pc.key == x)
    || (pc.SetTarget? && pc.f.key == x)
    || (Asks(pc) && pc.f.key == x && Passes(s, k, z, x, used + {k}))
  }

  lemma FewerLeft(all: set<Chan>, used: set<Chan>, k: Chan)
    requires k in all && k !in used
    ensures |all - (used + {k})| < |all - used|
  {
    assert all - used == (all - (used + {k})) + {k};
  }

  /** The address has a connection, or can still get one. */
  ghost predicate Present(s: System, x: UserAddress) {
    (exists c :: Denotes(s.identity, c, x)) || exists c: Cid :: c !in s.identity
  }

  /** A handler of `x` that is on its way to a frame for `z`: past its checks, or able to pass them. */
  ghost predicate Headed(s: System, k: Chan, x: UserAddress, z: UserAddress)
    requires k in s.tasks
  {
    var pc := s.tasks[k].pc;
    || (pc.Emit? && Denotes(s.identity, pc.t, z))
    || (pc.SetTarget? && Denotes(s.identity, pc.t, z) && pc.f.payload != [])
    || (Asks(pc) && Denotes(s.identity, pc.t, z) && pc.f.payload != [] && Passes(s, k, x, z, {k}))
  }

  /** A registered client of `z` that lets `x` through, or can come to. */
  ghost predicate Ajar(s: System, y: Cid, z: UserAddress, x: UserAddress) {
    && y in s.reg.addresses && Denotes(s.identity, y, z)
    && (Has(s.reg.approved, y, x) || (Present(s, x) && Opens(s, y, z, x, {})))
  }

  /** A frame of `x` for `z` can still come. */
  ghost predicate Threat(s: System, x: UserAddress, z: UserAddress) {
    (exists k :: OwnedBy(s, k, x) && Headed(s, k, x, z)) || exists y :: Ajar(s, y, z, x)
  }

  /** No frame can come in either direction. */
  ghost predicate Calm(s: System, a: UserAddress, b: UserAddress) {
    !Threat(s, a, b) && !Threat(s, b, a)
  }

  predicate FrameBetween(identity: Identities, e: Event, a: UserAddress, b: UserAddress) {
    e.Broadcast? && ((e.sender == a && Denotes(identity, e.t, b)) || (e.sender == b && Denotes(identity, e.t, a)))
  }

  /** None of the events is an acceptance between the two. */
  predicate NoneJoins(identity: Identities, es: seq<Event>, a: UserAddress, b: UserAddress) {
    forall e :: e in es ==> !Joins(identity, e, a, b)
  }

  predicate NoneFrames(identity: Identities, es: seq<Event>, a: UserAddress, b: UserAddress) {
    forall e :: e in es ==> !FrameBetween(identity, e, a, b)
  }

  /** The pair, in one direction or the other. */
  predicate Ends(a: UserAddress, b: UserAddress, x: UserAddress, z: UserAddress) {
    Exact(a) && Exact(b) && ((x == a && z == b) || (x == b && z == a))
  }

  // ---------------------------------------------------------------- how a state relates to the one before

  /** How a handler of `x` comes to a point that matters. */
  predicate Advances(r: Tables, pc: Pc, pc': Pc, x: UserAddress) {
    || (Asks(pc) && Asks(pc') && pc'.f == pc.f && pc'.t == pc.t && (AsksMutual(pc') ==> AsksMutual(pc))
        && (BeforeReject(pc) ==> BeforeReject(pc') || !Has(r.rejected, pc.t, x)))
    || (Asks(pc') && pc'.t in r.addresses)
    || (pc'.SetTarget? && Asks(pc) && pc'.f == pc.f && pc'.t == pc.t
        && ((AsksMutual(pc) && pc.t in r.targets && r.targets[pc.t] == x) || (!BeforeReject(pc) && Has(r.approved, pc.t, x))))
    || (pc'.Emit? && pc.SetTarget? && pc'.f == pc.f && pc'.t == pc.t && pc.f.payload != [])
  }

  predicate Matters(pc: Pc, z: UserAddress) {
    Asks(pc) || pc.SetTarget? || pc.Emit? || (pc.AcceptTarget? && pc.key == z)
  }

  predicate TaskBack(s: System, s': System, k: Chan, x: UserAddress, z: UserAddress)
    requires k in s'.tasks
  {
    Matters(s'.tasks[k].pc, z) ==>
      && k in s.tasks && s.tasks[k].c == s'.tasks[k].c
      && (s.tasks[k].pc == s'.tasks[k].pc || Advances(s.reg, s.tasks[k].pc, s'.tasks[k].pc, x))
  }

  /** This handler of `y` makes `x` its target, and is done asking. */
  predicate Sets(s: System, s': System, k: Chan, y: Cid, x: UserAddress) {
    && k in s.tasks && s.tasks[k].c == y
    && ((s.tasks[k].pc.SetTarget? && s.tasks[k].pc.f.key == x) || (s.tasks[k].pc.AcceptTarget? && s.tasks[k].pc.key == x))
    && (k in s'.tasks ==> !Asks(s'.tasks[k].pc))
  }

  ghost predicate TablesBack(s: System, s': System, y: Cid, x: UserAddress) {
    && (y in s'.reg.addresses && y in s.identity ==> y in s.reg.addresses)
    && (Has(s'.reg.approved, y, x) ==> Has(s.reg.approved, y, x))
    && (Has(s'.reg.approved, y, x) && !Has(s'.reg.rejected, y, x) ==> !Has(s.reg.rejected, y, x))
    && (y in s'.reg.targets && s'.reg.targets[y] == x ==>
          (y in s.reg.targets && s.reg.targets[y] == x) || exists k :: Sets(s, s', k, y, x))
  }

  /** One direction of a move that is no acceptance between the two. */
  ghost predicate HalfPrecedes(s: System, s': System, x: UserAddress, z: UserAddress) {
    && (forall k :: OwnedBy(s', k, x) ==> TaskBack(s, s', k, x, z))
    && (forall y :: Denotes(s'.identity, y, z) ==> TablesBack(s, s', y, x))
  }

  ghost predicate Precedes(s: System, s': System, a: UserAddress, b: UserAddress) {
    && Inv(s) && Inv(s') && Exact(a) && Exact(b)
    && (forall y :: y in s.identity ==> y in s'.identity && s'.identity[y] == s.identity[y])
    && (forall x :: Present(s', x) ==> Present(s, x))
    && HalfPrecedes(s, s', a, b) && HalfPrecedes(s, s', b, a)
  }

  // ---------------------------------------------------------------- nothing new can come through

  lemma {:induction false} OpensMore(s: System, y: Cid, z: UserAddress, x: UserAddress, used: set<Chan>, fewer: set<Chan>)
    requires Opens(s, y, z, x, used) && fewer <= used
    ensures Opens(s, y, z, x, fewer)
    decreases |s.tasks.Keys - used|, 1
  {
    if !(y in s.reg.targets && s.reg.targets[y] == x) {
      var k :| k in s.tasks && k !in used && s.tasks[k].c == y && Way(s, k, z, x, used);
      FewerLeft(s.tasks.Keys, used, k);
      if Asks(s.tasks[k].pc) {
        PassesMore(s, k, z, x, used + {k}, fewer + {k});
      }
      assert Way(s, k, z, x, fewer);
    }
  }

  lemma {:induction false} PassesMore(s: System, k: Chan, x: UserAddress, z: UserAddress, used: set<Chan>, fewer: set<Chan>)
    requires k in s.tasks && Asks(s.tasks[k].pc) && fewer <= used
    ensures Passes(s, k, x, z, used) ==> Passes(s, k, x, z, fewer)
    decreases |s.tasks.Keys - used|, 2
  {
    var pc := s.tasks[k].pc;
    if AsksMutual(pc) && pc.t !in s.reg.addresses && Opens(s, pc.t, z, x, used) {
      OpensMore(s, pc.t, z, x, used, fewer);
    }
  }

  lemma AsksWhom(s: System, k: Chan)
    requires Inv(s) && k in s.tasks && (Asks(s.tasks[k].pc) || s.tasks[k].pc.SetTarget? || s.tasks[k].pc.Emit?)
    ensures s.tasks[k].pc.t in s.identity && s.tasks[k].c in s.identity
    ensures MatchesPrefix(s.identity[s.tasks[k].pc.t], s.tasks[k].pc.f.key)
  {
    assert TaskOk(s.identity, s.log, s.tasks[k].c, s.tasks[k].pc);
  }

  /** A client whose way is open, and which a lookup finds, is a threat. */
  lemma FoundIsThreat(s: System, y: Cid, z: UserAddress, x: UserAddress, used: set<Chan>)
    requires y in s.reg.addresses && Denotes(s.identity, y, z) && Opens(s, y, z, x, used) && Present(s, x)
    ensures Threat(s, x, z)
  {
    OpensMore(s, y, z, x, used, {});
    assert Ajar(s, y, z, x);
  }

  lemma OwnerPresent(s: System, k: Chan, x: UserAddress)
    requires OwnedBy(s, k, x)
    ensures Present(s, x)
  {
    assert Denotes(s.identity, s.tasks[k].c, x);
  }

  ghost predicate StillAsks(s: System, used: set<Chan>) {
    forall k :: k in used ==> k in s.tasks && Asks(s.tasks[k].pc)
  }

  /** What can open after the move could open before it, unless there was a threat already. */
  lemma {:induction false} OpensBack(
    s: System, s': System, y: Cid, z: UserAddress, x: UserAddress, used: set<Chan>, a: UserAddress, b: UserAddress)
    requires Precedes(s, s', a, b) && Ends(a, b, x, z) && Denotes(s.identity, y, z)
    requires StillAsks(s', used) && Opens(s', y, z, x, used)
    ensures Opens(s, y, z, x, used) || !Calm(s, a, b)
    decreases |s'.tasks.Keys - used|, 1
  {
    hide Inv, Exact, Has;
    assert TablesBack(s, s', y, x);
    if y in s'.reg.targets && s'.reg.targets[y] == x {
      if !(y in s.reg.targets && s.reg.targets[y] == x) {
        var k :| Sets(s, s', k, y, x);
        SetsIsWay(s, s', k, y, z, x, used);
      }
    } else {
      var k :| k in s'.tasks && k !in used && s'.tasks[k].c == y && Way(s', k, z, x, used);
      FewerLeft(s'.tasks.Keys, used, k);
      assert OwnedBy(s', k, z) && TaskBack(s, s', k, z, x);
      if Asks(s'.tasks[k].pc) {
        AsksWhom(s', k);
        ExactMatchesOnlyItself(s'.identity[s'.tasks[k].pc.t], x);
        PassesBack(s, s', k, z, x, used + {k}, a, b);
        if Calm(s, a, b) {
          assert Way(s, k, z, x, used);
        }
      } else if s.tasks[k].pc == s'.tasks[k].pc {
        assert Way(s, k, z, x, used);
      } else {
        AskedIsWay(s, s', k, y, z, x, used, a, b);
      }
    }
  }

  lemma SetsIsWay(s: System, s': System, k: Chan, y: Cid, z: UserAddress, x: UserAddress, used: set<Chan>)
    requires Sets(s, s', k, y, x) && StillAsks(s', used)
    ensures Opens(s, y, z, x, used)
  {
    assert k !in used;
    assert Way(s, k, z, x, used);
  }

  /** A handler that has just got through could get through before. */
  lemma AskedIsWay(s: System, s': System, k: Chan, y: Cid, z: UserAddress, x: UserAddress, used: set<Chan>, a: UserAddress, b: UserAddress)
    requires Precedes(s, s', a, b) && Ends(a, b, x, z) && Denotes(s.identity, y, z) && k in s.tasks && k in s'.tasks && k !in used
    requires s.tasks[k].c == y && s'.tasks[k].pc.SetTarget? && s'.tasks[k].pc.f.key == x
    requires Advances(s.reg, s.tasks[k].pc, s'.tasks[k].pc, z)
    ensures Opens(s, y, z, x, used) || !Calm(s, a, b)
  {
    var pc := s.tasks[k].pc;
    AsksWhom(s, k);
    ExactMatchesOnlyItself(s.identity[pc.t], x);
    hide Inv, Exact, Has, HalfPrecedes;
    FewerLeft(s.tasks.Keys, used, k);
    assert OwnedBy(s, k, z);
    OwnerPresent(s, k, z);
    if Granted(s.reg, pc, z) {
      assert Passes(s, k, z, x, used + {k}) && Way(s, k, z, x, used);
    } else if pc.t in s.reg.addresses {
      assert Opens(s, pc.t, x, z, {});
      FoundIsThreat(s, pc.t, x, z, {});
    } else {
      assert Opens(s, pc.t, x, z, used + {k});
      assert Passes(s, k, z, x, used + {k}) && Way(s, k, z, x, used);
    }
  }

  lemma {:induction false} PassesBack(
    s: System, s': System, k: Chan, x: UserAddress, z: UserAddress, used: set<Chan>, a: UserAddress, b: UserAddress)
    requires Precedes(s, s', a, b) && Ends(a, b, x, z) && k in s'.tasks && OwnedBy(s', k, x) && k in used
    requires Asks(s'.tasks[k].pc) && StillAsks(s', used - {k}) && Denotes(s'.identity, s'.tasks[k].pc.t, z)
    requires Passes(s', k, x, z, used)
    ensures k in s.tasks && s.tasks[k].c == s'.tasks[k].c
    ensures !Calm(s, a, b) || (
      && Asks(s.tasks[k].pc) && s.tasks[k].pc.f == s'.tasks[k].pc.f && s.tasks[k].pc.t == s'.tasks[k].pc.t
      && Passes(s, k, x, z, used))
    decreases |s'.tasks.Keys - used|, 2
  {
    hide Inv, Exact, Has;
    assert TaskBack(s, s', k, x, z);
    var pc, pc' := s.tasks[k].pc, s'.tasks[k].pc;
    var t := pc'.t;
    assert TablesBack(s, s', t, x);
    KnownBefore(s, s', k, x, z);
    OwnerPresent(s, k, x);
    if !Granted(s'.reg, pc', x) {
      assert StillAsks(s', used);
      OpensBack(s, s', t, z, x, used, a, b);
      if t in s.reg.addresses && Opens(s, t, z, x, used) {
        FoundIsThreat(s, t, z, x, used);
      }
    } else if t in s.reg.addresses {
      assert Ajar(s, t, z, x);
    }
  }

  /** Whom a handler asks was known before it came to ask. */
  lemma KnownBefore(s: System, s': System, k: Chan, x: UserAddress, z: UserAddress)
    requires Inv(s) && OwnedBy(s', k, x) && TaskBack(s, s', k, x, z) && Asks(s'.tasks[k].pc)
    requires forall y :: y in s.identity ==> y in s'.identity && s'.identity[y] == s.identity[y]
    requires Denotes(s'.identity, s'.tasks[k].pc.t, z)
    ensures OwnedBy(s, k, x) && Denotes(s.identity, s'.tasks[k].pc.t, z)
  {
    hide Has;
    assert TaskOk(s.identity, s.log, s.tasks[k].c, s.tasks[k].pc);
  }

  // ---------------------------------------------------------------- no threat, and still none

  lemma HeadedBack(s: System, s': System, k: Chan, x: UserAddress, z: UserAddress, a: UserAddress, b: UserAddress)
    requires Precedes(s, s', a, b) && Ends(a, b, x, z) && OwnedBy(s', k, x) && Headed(s', k, x, z)
    ensures !Calm(s, a, b)
  {
    hide Inv, Exact, Has;
    assert TaskBack(s, s', k, x, z);
    var pc, pc' := s.tasks[k].pc, s'.tasks[k].pc;
    if Asks(pc') {
      PassesBack(s, s', k, x, z, {k}, a, b);
      KnownBefore(s, s', k, x, z);
      if Asks(pc) && pc.f == pc'.f && pc.t == pc'.t && Passes(s, k, x, z, {k}) {
        assert Headed(s, k, x, z);
      }
    } else {
      HeadedPast(s, s', k, x, z, a, b);
    }
  }

  lemma HeadedPast(s: System, s': System, k: Chan, x: UserAddress, z: UserAddress, a: UserAddress, b: UserAddress)
    requires Precedes(s, s', a, b) && Ends(a, b, x, z) && OwnedBy(s', k, x) && Headed(s', k, x, z) && !Asks(s'.tasks[k].pc)
    ensures Threat(s, x, z)
  {
    assert TaskBack(s, s', k, x, z);
    var pc, pc' := s.tasks[k].pc, s'.tasks[k].pc;
    AsksWhom(s, k);
    hide Inv, Exact, Has;
    assert OwnedBy(s, k, x) && Denotes(s.identity, pc.t, z);
    OwnerPresent(s, k, x);
    if Asks(pc) {
      if Granted(s.reg, pc, x) {
        assert Passes(s, k, x, z, {k}) && Headed(s, k, x, z);
      } else if pc.t in s.reg.addresses {
        assert Opens(s, pc.t, z, x, {});
        FoundIsThreat(s, pc.t, z, x, {});
      } else {
        assert Opens(s, pc.t, z, x, {k});
        assert Passes(s, k, x, z, {k}) && Headed(s, k, x, z);
      }
    } else {
      assert Headed(s, k, x, z);
    }
  }

  lemma AjarBack(s: System, s': System, y: Cid, x: UserAddress, z: UserAddress, a: UserAddress, b: UserAddress)
    requires Precedes(s, s', a, b) && Ends(a, b, x, z) && Ajar(s', y, z, x)
    ensures !Calm(s, a, b)
  {
    KnownAlready(s, s', y, x, z, a, b);
    hide Inv, Exact, Has;
    assert TablesBack(s, s', y, x);
    if Has(s'.reg.approved, y, x) {
      assert Ajar(s, y, z, x);
    } else {
      OpensBack(s, s', y, z, x, {}, a, b);
      if Opens(s, y, z, x, {}) {
        FoundIsThreat(s, y, z, x, {});
      }
    }
  }

  /** A client that lets somebody through, or has handlers that can, was there before. */
  lemma KnownAlready(s: System, s': System, y: Cid, x: UserAddress, z: UserAddress, a: UserAddress, b: UserAddress)
    requires Precedes(s, s', a, b) && Ends(a, b, x, z) && Ajar(s', y, z, x)
    ensures y in s.identity && s.identity[y] == z
  {
    assert TablesBack(s, s', y, x);
    hide Exact;
    if Has(s.reg.approved, y, x) {
    } else if y in s'.reg.targets && s'.reg.targets[y] == x {
      if k :| Sets(s, s', k, y, x) {
        assert TaskOk(s.identity, s.log, s.tasks[k].c, s.tasks[k].pc);
      }
    } else {
      var k :| k in s'.tasks && k !in {} && s'.tasks[k].c == y && Way(s', k, z, x, {});
      assert OwnedBy(s', k, z) && TaskBack(s, s', k, z, x);
      assert TaskOk(s.identity, s.log, s.tasks[k].c, s.tasks[k].pc);
    }
  }

  /** No threat arises from a move that is no acceptance between the two. */
  lemma CalmBack(s: System, s': System, a: UserAddress, b: UserAddress)
    requires Precedes(s, s', a, b) && Calm(s, a, b)
    ensures Calm(s', a, b)
  {
    hide Precedes, Headed, Ajar;
    HalfCalmBack(s, s', a, b, a, b);
    HalfCalmBack(s, s', b, a, a, b);
  }

  lemma HalfCalmBack(s: System, s': System, x: UserAddress, z: UserAddress, a: UserAddress, b: UserAddress)
    requires Precedes(s, s', a, b) && Calm(s, a, b) && ((x == a && z == b) || (x == b && z == a))
    ensures !Threat(s', x, z)
  {
    assert Ends(a, b, x, z);
    hide Precedes, Headed, Ajar;
    if k :| OwnedBy(s', k, x) && Headed(s', k, x, z) {
      HeadedBack(s, s', k, x, z, a, b);
    } else if y :| Ajar(s', y, z, x) {
      AjarBack(s, s', y, x, z, a, b);
    }
  }

  // ---------------------------------------------------------------- what one acquisition can do

  lemma FindLeads(r: Tables, c: Cid, me: UserAddress, f: Frame, now: Time, rooms': RoomTables)
    ensures var e := Micro(r, c, me, FindTarget(f), now, rooms');
      e.pc.Idle? || (e.pc.CheckStale? && e.pc.t in r.addresses)
  {
    hide MatchesPrefix, Find;
    match Find(r.addresses, f.key)
    case Found(t) => FoundIsRegistered(r, f.key, t);
    case _ =>
  }

  lemma MicroAddressesShrink(r: Tables, c: Cid, me: UserAddress, pc: Pc, now: Time, rooms': RoomTables)
    requires !pc.Idle?
    ensures Micro(r, c, me, pc, now, rooms').r.addresses.Keys <= r.addresses.Keys
  {
    if Quiet(pc) {
      MicroQuiet(r, c, me, pc, now, rooms');
      hide Micro;
    } else {
      hide MatchesPrefix, Find, ClearCallSession, Unregister, Has;
      if pc.DropStale? {
        UnregisterFrame(r, pc.t);
      } else if pc.HangupClear? {
        ClearFrame(r, c, pc.key);
      }
    }
  }

  lemma AskAdvances(r: Tables, c: Cid, me: UserAddress, pc: Pc, now: Time, rooms': RoomTables)
    requires Asks(pc) && Exact(me)
    ensures var pc' := Micro(r, c, me, pc, now, rooms').pc;
      Asks(pc') || pc'.SetTarget? || pc'.Emit? ==> Advances(r, pc, pc', me)
  {
    if pc.CheckMutual? && pc.t in r.targets {
      ExactMatchesOnlyItself(r.targets[pc.t], me);
    }
    hide MatchesPrefix, Find, ClearCallSession, Unregister, IsClientInRoom, IsClientInSameCall, IsRoomOrTargetFull;
    hide IsStale, Has, Join, Mark, HasBeenNotified, Exact;
  }

  lemma ElsewhereAdvances(r: Tables, c: Cid, me: UserAddress, pc: Pc, now: Time, rooms': RoomTables)
    requires !pc.Idle? && !Asks(pc) && !pc.FindTarget?
    ensures var pc' := Micro(r, c, me, pc, now, rooms').pc;
      !Asks(pc') && !pc'.SetTarget? && (pc'.Emit? ==> pc.SetTarget? && pc'.f == pc.f && pc'.t == pc.t && pc.f.payload != [])
  {
    hide MatchesPrefix, Find, ClearCallSession, Unregister, IsClientInRoom, IsClientInSameCall, IsRoomOrTargetFull;
    hide IsStale, Mutual, Has, Join, Mark, IsCallApproved, IsCallRejected, HasBeenNotified;
  }

  lemma MicroAdvances(r: Tables, c: Cid, me: UserAddress, pc: Pc, now: Time, rooms': RoomTables)
    requires !pc.Idle? && Exact(me)
    ensures var pc' := Micro(r, c, me, pc, now, rooms').pc;
      Asks(pc') || pc'.SetTarget? || pc'.Emit? ==> Advances(r, pc, pc', me)
  {
    hide Micro, Has, Exact;
    if Asks(pc) {
      AskAdvances(r, c, me, pc, now, rooms');
    } else if pc.FindTarget? {
      FindLeads(r, c, me, pc.f, now, rooms');
    } else {
      ElsewhereAdvances(r, c, me, pc, now, rooms');
    }
  }

  /** Whom an acquisition lets through, and that it takes back no rejection without the approval. */
  lemma MicroLists(r: Tables, c: Cid, me: UserAddress, pc: Pc, now: Time, rooms': RoomTables, y: Cid, x: UserAddress)
    requires !pc.Idle? && !(pc.AcceptMark? && c == y && pc.key == x)
    ensures var r' := Micro(r, c, me, pc, now, rooms').r;
      && (Has(r'.approved, y, x) ==> Has(r.approved, y, x))
      && (Has(r'.approved, y, x) && Has(r.rejected, y, x) ==> Has(r'.rejected, y, x))
  {
    hide MatchesPrefix, Find, ClearCallSession, Unregister, Has, IsClientInRoom, IsClientInSameCall, IsRoomOrTargetFull;
    hide IsStale, Mutual, Join, Mark, IsCallApproved, IsCallRejected, HasBeenNotified;
    if pc.DropStale? {
      UnregisterExactly(r, pc.t);
    } else if pc.HangupClear? {
      ClearExactly(r, c, pc.key);
    }
  }

  lemma MicroTargets(r: Tables, c: Cid, me: UserAddress, pc: Pc, now: Time, rooms': RoomTables, y: Cid, x: UserAddress)
    requires !pc.Idle?
    ensures var e := Micro(r, c, me, pc, now, rooms');
      y in e.r.targets && e.r.targets[y] == x ==>
        || (y in r.targets && r.targets[y] == x)
        || (y == c && ((pc.SetTarget? && pc.f.key == x) || (pc.AcceptTarget? && pc.key == x)) && !Asks(e.pc))
  {
    if Quiet(pc) {
      MicroQuiet(r, c, me, pc, now, rooms');
      hide Micro;
    } else if pc.SetTarget? || pc.AcceptTarget? {
      hide Has;
    } else {
      MicroKeepsTargets(r, c, me, pc, now, rooms');
      hide Micro;
    }
  }

  lemma MicroKeepsTargets(r: Tables, c: Cid, me: UserAddress, pc: Pc, now: Time, rooms': RoomTables)
    requires !pc.Idle? && !Quiet(pc) && !pc.SetTarget? && !pc.AcceptTarget?
    ensures var r' := Micro(r, c, me, pc, now, rooms').r;
      forall y :: y in r'.targets ==> y in r.targets && r'.targets[y] == r.targets[y]
  {
    hide MatchesPrefix, Find, ClearCallSession, Unregister, Has, Mark;
    if pc.DropStale? {
      UnregisterFrame(r, pc.t);
    } else if pc.HangupClear? {
      ClearFrame(r, c, pc.key);
    }
  }

  lemma MicroAccepts(r: Tables, c: Cid, me: UserAddress, pc: Pc, now: Time, rooms': RoomTables)
    requires !pc.Idle?
    ensures var e := Micro(r, c, me, pc, now, rooms');
      && (e.pc.AcceptTarget? ==> pc.AcceptMark? && e.pc.key == pc.key)
      && (pc.AcceptMark? ==> e.events == [Accepted(c, pc.key)])
  {
    hide MatchesPrefix, Find, ClearCallSession, Unregister, IsClientInRoom, IsClientInSameCall, IsRoomOrTargetFull;
    hide IsStale, Mutual, Has, Join, Mark, IsCallApproved, IsCallRejected, HasBeenNotified;
  }

  lemma MicroFrames(r: Tables, c: Cid, me: UserAddress, pc: Pc, now: Time, rooms': RoomTables, e: Event)
    requires !pc.Idle? && e in Micro(r, c, me, pc, now, rooms').events && e.Broadcast?
    ensures pc.Emit? && e == Broadcast(c, me, pc.f.key, pc.t)
  {
    if Quiet(pc) {
      MicroQuiet(r, c, me, pc, now, rooms');
      hide Micro;
    } else {
      hide MatchesPrefix, Find, ClearCallSession, Unregister, Has;
    }
  }

  // ---------------------------------------------------------------- every move relates states so

  /** An acquisition by channel `k` that is no acceptance between the two. */
  ghost predicate Stepping(s: System, k: Chan, now: Time, rooms': RoomTables, s': System, a: UserAddress, b: UserAddress) {
    && Inv(s) && Exact(a) && Exact(b) && Moves(s, Acquire(k, now, rooms'), s')
    && NoneJoins(s.identity, Acquired(s, k, now, rooms').events, a, b)
  }

  lemma AcquireTaskBack(s: System, k: Chan, now: Time, rooms': RoomTables, s': System, a: UserAddress, b: UserAddress,
                        x: UserAddress, z: UserAddress)
    requires Stepping(s, k, now, rooms', s', a, b) && Ends(a, b, x, z)
    ensures forall j :: OwnedBy(s', j, x) ==> TaskBack(s, s', j, x, z)
  {
    var c, pc := s.tasks[k].c, s.tasks[k].pc;
    if OwnedBy(s, k, x) {
      MicroAdvances(s.reg, c, x, pc, now, rooms');
      MicroAccepts(s.reg, c, x, pc, now, rooms');
      if pc.AcceptMark? {
        assert Accepted(c, pc.key) in Acquired(s, k, now, rooms').events;
        assert !Joins(s.identity, Accepted(c, pc.key), a, b);
      }
    }
    hide Micro, Exact, Inv, RoomOutcome, Advances;
  }

  lemma AcquireTablesBack(s: System, k: Chan, now: Time, rooms': RoomTables, s': System, a: UserAddress, b: UserAddress,
                          x: UserAddress, z: UserAddress, y: Cid)
    requires Stepping(s, k, now, rooms', s', a, b) && Ends(a, b, x, z) && Denotes(s.identity, y, z)
    ensures TablesBack(s, s', y, x)
  {
    var c, pc := s.tasks[k].c, s.tasks[k].pc;
    var me := s.identity[c];
    hide Micro, Exact, Inv, RoomOutcome, Has;
    MicroAddressesShrink(s.reg, c, me, pc, now, rooms');
    MicroAccepts(s.reg, c, me, pc, now, rooms');
    if pc.AcceptMark? {
      assert Accepted(c, pc.key) in Acquired(s, k, now, rooms').events;
      assert !Joins(s.identity, Accepted(c, pc.key), a, b);
    }
    MicroLists(s.reg, c, me, pc, now, rooms', y, x);
    MicroTargets(s.reg, c, me, pc, now, rooms', y, x);
    assert y in s'.reg.targets && s'.reg.targets[y] == x && !(y in s.reg.targets && s.reg.targets[y] == x) ==> Sets(s, s', k, y, x);
  }

  lemma AcquirePrecedes(s: System, k: Chan, now: Time, rooms': RoomTables, s': System, a: UserAddress, b: UserAddress)
    requires Stepping(s, k, now, rooms', s', a, b)
    ensures Precedes(s, s', a, b)
  {
    MovesKeep(s, Acquire(k, now, rooms'), s');
    AcquireTaskBack(s, k, now, rooms', s', a, b, a, b);
    AcquireTaskBack(s, k, now, rooms', s', a, b, b, a);
    forall y | Denotes(s'.identity, y, b) ensures TablesBack(s, s', y, a) {
      AcquireTablesBack(s, k, now, rooms', s', a, b, a, b, y);
    }
    forall y | Denotes(s'.identity, y, a) ensures TablesBack(s, s', y, b) {
      AcquireTablesBack(s, k, now, rooms', s', a, b, b, a, y);
    }
    hide Micro, Exact, Inv, RoomOutcome, TaskBack, TablesBack;
  }

  lemma AcquireNoFrames(s: System, k: Chan, now: Time, rooms': RoomTables, s': System, a: UserAddress, b: UserAddress)
    requires Stepping(s, k, now, rooms', s', a, b) && Calm(s, a, b)
    ensures NoneFrames(s.identity, Acquired(s, k, now, rooms').events, a, b)
  {
    hide Micro, Exact, Inv, RoomOutcome, Ajar, Passes;
    var c, pc := s.tasks[k].c, s.tasks[k].pc;
    forall e | e in Acquired(s, k, now, rooms').events && e.Broadcast? ensures !FrameBetween(s.identity, e, a, b) {
      MicroFrames(s.reg, c, s.identity[c], pc, now, rooms', e);
      assert OwnedBy(s, k, a) ==> !Headed(s, k, a, b);
      assert OwnedBy(s, k, b) ==> !Headed(s, k, b, a);
    }
  }

  /** The other moves put no handler anywhere that matters. */
  lemma OtherTasksBack(s: System, m: Move, s': System, k: Chan, x: UserAddress, z: UserAddress)
    requires Inv(s) && Moves(s, m, s') && !m.Acquire? && OwnedBy(s', k, x)
    ensures TaskBack(s, s', k, x, z)
  {
    hide Inv, Registers, Unregister, Advances;
    if m.Arrive? {
      BeginHarmless(m.packet);
    }
  }

  lemma BeginHarmless(p: Codec.Packet)
    ensures forall z :: !Matters(Begin(p), z)
  {
  }

  lemma OtherTablesBack(s: System, m: Move, s': System, y: Cid, x: UserAddress)
    requires Inv(s) && Moves(s, m, s') && !m.Acquire?
    ensures TablesBack(s, s', y, x)
  {
    hide Inv, Has, Unregister;
    match m
    case Connect(c, address, now) =>
      if old' :| Holder(s.reg, c, address, old') && s'.reg == Seat(Unregister(s.reg, old'), c, address, now) {
        UnregisterFrame(s.reg, old');
        UnregisterExactly(s.reg, old');
      }
    case OpenChannel(c, k) =>
    case Disconnect(c) =>
      UnregisterFrame(s.reg, c);
      UnregisterExactly(s.reg, c);
    case Arrive(k, p) =>
  }

  lemma OtherPrecedes(s: System, m: Move, s': System, a: UserAddress, b: UserAddress)
    requires Inv(s) && Exact(a) && Exact(b) && Moves(s, m, s') && !m.Acquire?
    ensures Precedes(s, s', a, b)
  {
    MovesKeep(s, m, s');
    MoveExtends(s, m, s');
    forall k, x, z | OwnedBy(s', k, x) ensures TaskBack(s, s', k, x, z) {
      OtherTasksBack(s, m, s', k, x, z);
    }
    forall y: Cid, x: UserAddress ensures TablesBack(s, s', y, x) {
      OtherTablesBack(s, m, s', y, x);
    }
    forall x | Present(s', x) ensures Present(s, x) {
      OtherPresent(s, m, s', x);
    }
    hide Inv, Exact, Moves, TaskBack, TablesBack, Present;
  }

  lemma OtherPresent(s: System, m: Move, s': System, x: UserAddress)
    requires Moves(s, m, s') && !m.Acquire? && Present(s', x)
    ensures Present(s, x)
  {
    hide Registers, Unregister;
    if c :| Denotes(s'.identity, c, x) {
      assert c !in s.identity || Denotes(s.identity, c, x);
    } else {
      var c: Cid :| c !in s'.identity;
      assert c !in s.identity;
    }
  }

  // ---------------------------------------------------------------- until the next acceptance

  /** The events a move logs. */
  function Logged(s: System, s': System): (es: seq<Event>) {
    if |s.log| <= |s'.log| then s'.log[|s.log|..] else []
  }

  lemma CalmStep(s: System, m: Move, s': System, a: UserAddress, b: UserAddress)
    requires Inv(s) && Exact(a) && Exact(b) && Calm(s, a, b) && Moves(s, m, s')
    requires NoneJoins(s.identity, Logged(s, s'), a, b)
    ensures s.log <= s'.log && Calm(s', a, b) && NoneFrames(s.identity, Logged(s, s'), a, b)
  {
    if m.Acquire? {
      assert Logged(s, s') == Acquired(s, m.k, m.now, m.rooms').events;
      hide Inv, Exact, Calm, Micro, RoomOutcome, Precedes;
      AcquirePrecedes(s, m.k, m.now, m.rooms', s', a, b);
      AcquireNoFrames(s, m.k, m.now, m.rooms', s', a, b);
      CalmBack(s, s', a, b);
    } else {
      hide Inv, Exact, Calm, Moves, Precedes;
      OtherPrecedes(s, m, s', a, b);
      OthersLogNoFrame(s, m, s');
      CalmBack(s, s', a, b);
    }
  }

  lemma OthersLogNoFrame(s: System, m: Move, s': System)
    requires Moves(s, m, s') && !m.Acquire?
    ensures s.log <= s'.log && forall e :: e in Logged(s, s') ==> !e.Broadcast?
  {
    hide Unregister, Registers;
  }

  lemma MoveExtends(s: System, m: Move, s': System)
    requires Moves(s, m, s')
    ensures s.log <= s'.log
    ensures forall y :: y in s.identity ==> y in s'.identity && s'.identity[y] == s.identity[y]
  {
    hide Unregister, Registers, Micro, RoomOutcome;
  }

  /** What the log of state `n` has gained since state `m`. */
  function Since(states: seq<System>, m: nat, n: nat): (es: seq<Event>)
    requires m <= n < |states|
  {
    Logged(states[m], states[n])
  }

  lemma {:induction false} LogGrows(states: seq<System>, moves: seq<Move>, m: nat, n: nat)
    requires IsInterleaving(states, moves) && m <= n < |states|
    ensures states[m].log <= states[n].log
    ensures forall y :: y in states[m].identity ==> y in states[n].identity && states[n].identity[y] == states[m].identity[y]
    decreases n - m
  {
    if m < n {
      LogGrows(states, moves, m, n - 1);
      assert Moves(states[n - 1], moves[n - 1], states[n]);
      hide Moves, IsInterleaving;
      MoveExtends(states[n - 1], moves[n - 1], states[n]);
    }
  }

  lemma JoinsLater(identity: Identities, identity': Identities, es: seq<Event>, a: UserAddress, b: UserAddress)
    requires NoneJoins(identity', es, a, b)
    requires forall y :: y in identity ==> y in identity' && identity'[y] == identity[y]
    ensures NoneJoins(identity, es, a, b)
  {
    forall e | e in es ensures !Joins(identity, e, a, b) {
      assert !Joins(identity', e, a, b);
    }
  }

  lemma FramesKnown(s: System, e: Event)
    requires Inv(s) && e in s.log && e.Broadcast?
    ensures e.t in s.identity
  {
    var i :| 0 <= i < |s.log| && s.log[i] == e;
    assert FrameOk(s.identity, s.log, i);
  }

  lemma NoFramesLater(s: System, identity': Identities, es: seq<Event>, a: UserAddress, b: UserAddress)
    requires Inv(s) && NoneFrames(s.identity, es, a, b) && forall e :: e in es ==> e in s.log
    requires forall y :: y in s.identity ==> y in identity' && identity'[y] == s.identity[y]
    ensures NoneFrames(identity', es, a, b)
  {
    hide Inv;
    forall e | e in es ensures !FrameBetween(identity', e, a, b) {
      assert !FrameBetween(s.identity, e, a, b);
      if e.Broadcast? {
        FramesKnown(s, e);
      }
    }
  }

  /** From a calm state on, as long as neither end accepts the other, it stays calm and no frame
      passes between them. */
  lemma {:induction false} CalmLasts(states: seq<System>, moves: seq<Move>, m: nat, n: nat, a: UserAddress, b: UserAddress)
    requires IsInterleaving(states, moves) && m <= n < |states| && Exact(a) && Exact(b) && Calm(states[m], a, b)
    requires NoneJoins(states[n].identity, Since(states, m, n), a, b)
    ensures Calm(states[n], a, b) && NoneFrames(states[n].identity, Since(states, m, n), a, b)
    decreases n - m
  {
    if m < n {
      var i: nat := n - 1;
      LogGrows(states, moves, m, i);
      LogGrows(states, moves, i, n);
      EveryInterleavingKeeps(states, moves, i);
      var s, s' := states[i], states[n];
      assert Moves(s, moves[i], s');
      hide IsInterleaving, Moves, Inv, Calm, Exact;
      var before, last := Since(states, m, i), Logged(s, s');
      assert Since(states, m, n) == before + last;
      JoinsLater(s.identity, s'.identity, before + last, a, b);
      CalmLasts(states, moves, m, i, a, b);
      CalmStep(s, moves[i], s', a, b);
      NoFramesLater(s, s'.identity, before, a, b);
    }
  }

  lemma MicroLogsOne(r: Tables, c: Cid, me: UserAddress, pc: Pc, now: Time, rooms': RoomTables)
    requires !pc.Idle?
    ensures |Micro(r, c, me, pc, now, rooms').events| <= 1
  {
    hide MatchesPrefix, Find, ClearCallSession, Unregister, IsClientInRoom, IsClientInSameCall, IsRoomOrTargetFull;
    hide IsStale, Mutual, Has, Join, Mark;
  }

  lemma MoveLogsOne(s: System, m: Move, s': System)
    requires Moves(s, m, s')
    ensures |s'.log| <= |s.log| + 1
  {
    hide Micro, Registers, Unregister, RoomOutcome;
    if m.Acquire? {
      MicroLogsOne(s.reg, s.tasks[m.k].c, s.identity[s.tasks[m.k].c], s.tasks[m.k].pc, m.now, m.rooms');
    }
  }

  /** The move that logs the event at position `i`. */
  lemma {:induction false} LoggingMove(states: seq<System>, moves: seq<Move>, m: nat, n: nat, i: nat) returns (p: nat)
    requires IsInterleaving(states, moves) && m < n < |states| && |states[m].log| <= i < |states[n].log|
    ensures m <= p < n && |states[p].log| == i && |states[p + 1].log| == i + 1
    decreases n
  {
    var last: nat := n - 1;
    assert Moves(states[last], moves[last], states[n]);
    hide Moves;
    MoveLogsOne(states[last], moves[last], states[n]);
    if |states[last].log| <= i {
      p := last;
    } else {
      p := LoggingMove(states, moves, m, last, i);
    }
  }

  /** One of the two accepted the other at a position of the log between these. */
  predicate JoinedBetween(identity: Identities, log: seq<Event>, from: nat, to: nat, a: UserAddress, b: UserAddress)
    requires to <= |log|
  {
    exists j :: from <= j < to && Joins(identity, log[j], a, b)
  }

  lemma JoinedInside(identity: Identities, log: seq<Event>, from: nat, i: nat, a: UserAddress, b: UserAddress)
    requires from <= i && |log| == i + 1 && log[i].Broadcast? && !NoneJoins(identity, log[from..], a, b)
    ensures JoinedBetween(identity, log, from, i, a, b)
  {
    var es := log[from..];
    var e :| e in es && Joins(identity, e, a, b);
    var j :| 0 <= j < |es| && es[j] == e;
    assert log[from + j] == e;
  }

  lemma FrameNeedsAcceptance(states: seq<System>, moves: seq<Move>, m: nat, q: nat, a: UserAddress, b: UserAddress)
    requires IsInterleaving(states, moves) && m <= q < |states| && Exact(a) && Exact(b) && Calm(states[m], a, b)
    requires |states[m].log| < |states[q].log|
    requires var s := states[q]; FrameBetween(s.identity, s.log[|s.log| - 1], a, b)
    ensures var s := states[q]; JoinedBetween(s.identity, s.log, |states[m].log|, |s.log| - 1, a, b)
  {
    LogGrows(states, moves, m, q);
    hide IsInterleaving, Calm, Exact, JoinedBetween, Joins;
    var s, from := states[q], |states[m].log|;
    var i: nat := |s.log| - 1;
    assert Since(states, m, q) == s.log[from..];
    assert s.log[from..][i - from] == s.log[i];
    if NoneJoins(s.identity, s.log[from..], a, b) {
      CalmLasts(states, moves, m, q, a, b);
    } else {
      JoinedInside(s.identity, s.log, from, i, a, b);
    }
  }

  /** From a calm state on, every frame between the two has an acceptance before it. */
  lemma CalmNeedsAcceptance(states: seq<System>, moves: seq<Move>, m: nat, n: nat, i: nat, a: UserAddress, b: UserAddress)
    requires IsInterleaving(states, moves) && m < n < |states| && Exact(a) && Exact(b) && Calm(states[m], a, b)
    requires |states[m].log| <= i < |states[n].log| && FrameBetween(states[n].identity, states[n].log[i], a, b)
    ensures JoinedBetween(states[n].identity, states[n].log, |states[m].log|, i, a, b)
  {
    var p := LoggingMove(states, moves, m, n, i);
    var q := p + 1;
    LogGrows(states, moves, q, n);
    EveryInterleavingKeeps(states, moves, q);
    var s := states[q];
    assert s.log[i] == states[n].log[i];
    FramesKnown(s, s.log[i]);
    hide IsInterleaving, Calm, Exact, Inv;
    FrameNeedsAcceptance(states, moves, m, q, a, b);
    var j :| |states[m].log| <= j < i && Joins(s.identity, s.log[j], a, b);
    assert states[n].log[j] == s.log[j];
  }

  // ---------------------------------------------------------------- the hangup

  /** A hangup by a registered client at one end, naming the full address of the other. */
  predicate HangsUp(s: System, k: Chan, a: UserAddress, b: UserAddress) {
    OwnedBy(s, k, a) && s.tasks[k].pc == HangupClear(b) && s.tasks[k].c in s.reg.addresses
  }

  lemma HangupTables(s: System, k: Chan, now: Time, rooms': RoomTables, s': System, a: UserAddress, b: UserAddress)
    requires HangsUp(s, k, a, b) && Moves(s, Acquire(k, now, rooms'), s')
    ensures s'.reg == ClearCallSession(s.reg, s.tasks[k].c, b) && s'.identity == s.identity
    ensures s'.tasks == s.tasks[k := Task(s.tasks[k].c, NotifyFind(b, EndedNotice))]
  {
    hide ClearCallSession;
  }

  /** What the hangup leaves of the ways between the two: only approvals given by connections that
      are no longer registered. */
  lemma ClearedExactly(s: System, c: Cid, a: UserAddress, b: UserAddress, y: Cid)
    requires Inv(s) && Exact(a) && Exact(b) && c in s.reg.addresses && Denotes(s.identity, c, a)
    ensures var r' := ClearCallSession(s.reg, c, b);
      && (Denotes(s.identity, y, b) ==> (CallControl.Closed(r', y, a) <==> y !in s.reg.addresses && Has(s.reg.approved, y, a)))
      && (Denotes(s.identity, y, a) ==> (CallControl.Closed(r', y, b) <==> y !in s.reg.addresses && Has(s.reg.approved, y, b)))
  {
    ClearExactly(s.reg, c, b);
    if y in s.reg.addresses && s.reg.addresses[y] == b {
      CallControl.ExactHolder(s.reg, b, y);
    }
    if Find(s.reg.addresses, b) == Found(y) {
      FoundIsRegistered(s.reg, b, y);
    }
    ExactMatchesOnlyItself(a, a);
    ExactMatchesOnlyItself(b, b);
    hide ClearCallSession, MatchesPrefix, Find, Has, Exact, TaskOk, FrameOk;
  }

  /** Nothing in the tables lets `x` through to `z`, but for approvals by connections of `z` that are no
      longer registered. */
  predicate HalfSeparated(s: System, x: UserAddress, z: UserAddress) {
    forall y :: y in s.identity && s.identity[y] == z ==>
      && !(y in s.reg.targets && s.reg.targets[y] == x)
      && (y in s.reg.addresses ==> !Has(s.reg.approved, y, x))
  }

  predicate Separated(s: System, a: UserAddress, b: UserAddress) {
    HalfSeparated(s, a, b) && HalfSeparated(s, b, a)
  }

  /** That is what a hangup leaves. */
  lemma HangupSeparates(s: System, k: Chan, now: Time, rooms': RoomTables, s': System, a: UserAddress, b: UserAddress)
    requires Inv(s) && Exact(a) && Exact(b) && HangsUp(s, k, a, b) && Moves(s, Acquire(k, now, rooms'), s')
    ensures Separated(s', a, b)
  {
    HangupTables(s, k, now, rooms', s', a, b);
    ClearFrame(s.reg, s.tasks[k].c, b);
    forall y | y in s.identity && (s.identity[y] == b || s.identity[y] == a)
      ensures s.identity[y] == b ==> (CallControl.Closed(s'.reg, y, a) ==> y !in s.reg.addresses && !TargetsIt(s'.reg, y, a))
      ensures s.identity[y] == a ==> (CallControl.Closed(s'.reg, y, b) ==> y !in s.reg.addresses && !TargetsIt(s'.reg, y, b))
    {
      ClearedExactly(s, s.tasks[k].c, a, b, y);
      NoTargetLeft(s, s.tasks[k].c, a, b, y);
    }
    hide ClearCallSession, Moves, Inv, Exact, Has;
  }

  predicate TargetsIt(r: Tables, y: Cid, x: UserAddress) {
    y in r.targets && r.targets[y] == x
  }

  lemma NoTargetLeft(s: System, c: Cid, a: UserAddress, b: UserAddress, y: Cid)
    requires Inv(s) && c in s.reg.addresses && Denotes(s.identity, c, a)
    ensures var r' := ClearCallSession(s.reg, c, b); !TargetsIt(r', y, a) && !TargetsIt(r', y, b)
  {
    ClearExactly(s.reg, c, b);
    ClearFrame(s.reg, c, b);
    hide ClearCallSession, Has, Find;
  }

  /** Revocation under every interleaving: after a hangup that leaves no handler able to lead to a
      frame, none passes between the two, in either direction, before one has accepted the other. */
  lemma RevocationUnderInterleaving(states: seq<System>, moves: seq<Move>, h: nat, n: nat, i: nat, a: UserAddress, b: UserAddress)
    requires IsInterleaving(states, moves) && h + 1 < n < |states| && Exact(a) && Exact(b)
    requires moves[h].Acquire? && HangsUp(states[h], moves[h].k, a, b) && Calm(states[h + 1], a, b)
    requires |states[h + 1].log| <= i < |states[n].log| && FrameBetween(states[n].identity, states[n].log[i], a, b)
    ensures JoinedBetween(states[n].identity, states[n].log, |states[h + 1].log|, i, a, b)
  {
    hide IsInterleaving, Calm, Exact, HangsUp, FrameBetween, Joins, JoinedBetween;
    CalmNeedsAcceptance(states, moves, h + 1, n, i, a, b);
  }
}
