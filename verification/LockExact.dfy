/**
 The other half of revocation: every handler that can lead to a frame after a hangup does so on some
 continuation, so that a hangup holds if and only if it leaves none.
 */
module LockExact {
  import opened Basics
  import opened Bytes
  import opened Addresses
  import opened Codec
  import opened Rooms
  import opened Registry
  import opened Handlers
  import opened LockSteps
  import opened LockRevocation
  import opened LockRuns
  import CallControl

  // ---------------------------------------------------------------- moves that leave handlers alone

  /** Nothing was logged, nobody connected, and the handlers in `used` stand where they stood. */
  predicate Kept(s: System, s': System, used: set<Chan>) {
    && s'.identity == s.identity && s'.log == s.log && s'.reg.addresses.Keys <= s.reg.addresses.Keys
    && forall k :: k in used && k in s.tasks ==> k in s'.tasks && s'.tasks[k] == s.tasks[k]
  }

  lemma KeptOn(s: System, s1: System, s2: System, used: set<Chan>)
    requires Kept(s, s1, used) && Kept(s1, s2, used)
    ensures Kept(s, s2, used)
  {
  }

  lemma FreshChannel(tasks: map<Chan, Task>) returns (k: Chan)
    ensures k !in tasks
  {
    var all := tasks.Keys;
    k := Above(all);
  }

  lemma {:induction false} Above(all: set<Chan>) returns (k: Chan)
    ensures forall j :: j in all ==> j < k
    decreases |all|
  {
    if all == {} {
      k := 0;
    } else {
      var top :| top in all;
      var rest := all - {top};
      var k1 := Above(rest);
      k := if k1 > top then k1 else top + 1;
      assert forall j :: j in all ==> j == top || j in rest;
    }
  }

  lemma Disconnecting(h: Trail, c: Cid) returns (h': Trail)
    requires IsTrail(h)
    ensures IsTrail(h') && Continues(h, h') && Last(h') == Last(h).(reg := Unregister(Last(h).reg, c))
  {
    hide Unregister;
    var s := Last(h);
    var s' := s.(reg := Unregister(s.reg, c));
    assert Moves(s, Disconnect(c), s');
    h' := Extend(h, Disconnect(c), s');
  }

  /** The tables after client `c`, from a new channel, has hung up on `key`. */
  function AfterHangup(r: Tables, c: Cid, key: UserAddress): (r': Tables) {
    ClearCallSession(r.(channels := r.channels + {c}), c, key)
  }

  /** Any client may hang up on anybody from a new channel. */
  lemma HangUpOn(h: Trail, c: Cid, key: UserAddress) returns (h': Trail)
    requires IsTrail(h) && c in Last(h).identity
    ensures IsTrail(h') && Continues(h, h') && Kept(Last(h), Last(h'), Last(h).tasks.Keys)
    ensures Last(h').reg == AfterHangup(Last(h).reg, c, key)
  {
    var s := Last(h);
    var k := FreshChannel(s.tasks);
    var h1 := Opened(h, c, k);
    var h2 := Arrives(h1, k, c, CallHangup(key));
    var r' := AfterHangup(s.reg, c, key);
    ClearFrame(s.reg.(channels := s.reg.channels + {c}), c, key);
    hide IsTrail, Continues, ClearCallSession;
    h' := Step(h2, k, c, HangupClear(key), 0.0, Effect(r', NotifyFind(key, EndedNotice), []));
    ContinuesOn(h, h1, h2);
    ContinuesOn(h, h2, h');
    assert s.log + [] == s.log;
  }

  /** What such a hangup does to the lists and targets. */
  lemma HangupLists(r: Tables, c: Cid, key: UserAddress)
    ensures var r' := AfterHangup(r, c, key); var found, me := Find(r.addresses, key), Get(r.addresses, c);
      && r'.addresses == r.addresses && r'.lastPong == r.lastPong && c !in r'.targets
      && (forall y :: y in r'.targets ==> y in r.targets && r'.targets[y] == r.targets[y])
      && (forall d: Cid, a: UserAddress :: Has(r'.approved, d, a) <==>
            Has(r.approved, d, a) && !(d == c && a == key) && !(found == Found(d) && me == Some(a)))
      && (forall d: Cid, a: UserAddress :: Has(r'.rejected, d, a) <==>
            Has(r.rejected, d, a) && !(d == c && a == key) && !(found == Found(d) && me == Some(a)))
      && (forall y :: y in r.targets && y != c && found != Found(y) && !MatchesPrefix(r.targets[y], key) && me.None? ==>
            y in r'.targets)
  {
    var r0 := r.(channels := r.channels + {c});
    ClearExactly(r0, c, key);
    ClearFrame(r0, c, key);
    hide ClearCallSession, Find, MatchesPrefix, Has;
  }

  // ---------------------------------------------------------------- asking

  /** A moment at which client `t` does not look stale. */
  function Timely(r: Tables, t: Cid): (now: Time) {
    if t in r.lastPong then r.lastPong[t] else 0.0
  }

  /** As the tables stand, a handler at this point gets through. */
  predicate Willing(r: Tables, c: Cid, me: UserAddress, pc: Pc) {
    && Asks(pc) && pc.t != c
    && (BeforeReject(pc) ==> !IsCallRejected(r, pc.t, me))
    && ((AsksMutual(pc) && Mutual(r, pc.t, me)) || (IsCallApproved(r, pc.t, me) && !IsRoomOrTargetFull(r, pc.f.key)))
  }

  /** The next point of a handler that gets through. */
  function NextAsk(r: Tables, c: Cid, me: UserAddress, pc: Pc): (pc': Pc)
    requires Willing(r, c, me, pc)
  {
    match pc
    case CheckStale(f, t) => CheckRejected(f, t)
    case CheckRejected(f, t) => CheckSameCall(f, t)
    case CheckSameCall(f, t) => CheckMutual(f, t, IsClientInSameCall(r, c, f.key))
    case CheckMutual(f, t, same) =>
      if Mutual(r, t, me) then SetTarget(f, t) else if same then CheckApproved(f, t) else CheckFull(f, t)
    case CheckFull(f, t) => CheckApproved(f, t)
    case CheckApproved(f, t) => SetTarget(f, t)
  }

  lemma AskStep(r: Tables, c: Cid, me: UserAddress, pc: Pc)
    requires Willing(r, c, me, pc)
    ensures Micro(r, c, me, pc, Timely(r, pc.t), r.rooms) == Effect(r, NextAsk(r, c, me, pc), [])
    ensures var pc' := NextAsk(r, c, me, pc);
      && pc'.f == pc.f && pc'.t == pc.t && Rank(pc') < Rank(pc)
      && (pc' == SetTarget(pc.f, pc.t) || Willing(r, c, me, pc'))
  {
    hide Mutual, IsCallApproved, IsCallRejected, IsRoomOrTargetFull, IsClientInSameCall, Find, Unregister, ClearCallSession;
  }

  /** A handler that gets through comes to where it sets its target. */
  lemma {:induction false} AskThrough(h: Trail, k: Chan, c: Cid, pc: Pc) returns (h': Trail)
    requires IsTrail(h) && AtPc(Last(h), k, c, pc) && Willing(Last(h).reg, c, Last(h).identity[c], pc)
    ensures IsTrail(h') && Continues(h, h')
    ensures Last(h') == Last(h).(tasks := Last(h).tasks[k := Task(c, SetTarget(pc.f, pc.t))])
    decreases Rank(pc)
  {
    var s := Last(h);
    var me := s.identity[c];
    AskStep(s.reg, c, me, pc);
    var pc' := NextAsk(s.reg, c, me, pc);
    hide IsTrail, Continues, Willing, NextAsk, Micro, Rank;
    var h1 := Look(h, k, c, pc, Timely(s.reg, pc.t), pc');
    if pc' == SetTarget(pc.f, pc.t) {
      h' := h1;
    } else {
      h' := AskThrough(h1, k, c, pc');
      ContinuesOn(h, h1, h');
    }
  }

  // ---------------------------------------------------------------- emptying the house

  /** What emptying the registry spares: the lists of those it does not register, as far as they speak
      of addresses that stay. */
  predicate Spares(r: Tables, r': Tables, keep: set<Cid>, t: Cid, w: UserAddress) {
    t !in r.addresses && (forall u :: u in r.addresses && r.addresses[u] == w ==> u in keep) ==>
      (Has(r'.approved, t, w) <==> Has(r.approved, t, w)) && (Has(r'.rejected, t, w) <==> Has(r.rejected, t, w))
  }

  predicate Emptied(r: Tables, r': Tables, keep: set<Cid>) {
    && r'.addresses.Keys == r.addresses.Keys * keep
    && (forall u :: u in r'.addresses ==> r'.addresses[u] == r.addresses[u])
    && (forall y :: y in r'.targets ==> y in r.targets && r'.targets[y] == r.targets[y])
  }

  ghost predicate SparesAll(r: Tables, r': Tables, keep: set<Cid>) {
    forall t: Cid, w: UserAddress :: Spares(r, r', keep, t, w)
  }

  /** Everybody registered but those to keep disconnects. */
  lemma {:induction false} Evacuate(h: Trail, keep: set<Cid>) returns (h': Trail)
    requires IsTrail(h)
    ensures IsTrail(h') && Continues(h, h') && Kept(Last(h), Last(h'), Last(h).tasks.Keys)
    ensures Emptied(Last(h).reg, Last(h').reg, keep) && SparesAll(Last(h).reg, Last(h').reg, keep)
    decreases |Last(h).reg.addresses.Keys - keep|
  {
    var r := Last(h).reg;
    if r.addresses.Keys <= keep {
      h' := h;
      assert r.addresses.Keys == r.addresses.Keys * keep;
      hide Has;
    } else {
      var u :| u in r.addresses.Keys && u !in keep;
      var h1 := Disconnecting(h, u);
      var r1 := Last(h1).reg;
      UnregisterFrame(r, u);
      OneFewer(r, u, keep);
      assert Kept(Last(h), Last(h1), Last(h).tasks.Keys);
      FewerOf(r.addresses.Keys, keep, u);
      assert r1.addresses.Keys == r.addresses.Keys - {u};
      hide Unregister, SparesAll, Emptied, Continues, IsTrail;
      h' := Evacuate(h1, keep);
      ContinuesOn(h, h1, h');
      EmptiedOn(r, r1, Last(h').reg, keep, u);
      assert Last(h1).tasks == Last(h).tasks;
      KeptOn(Last(h), Last(h1), Last(h'), Last(h).tasks.Keys);
    }
  }

  lemma EmptiedOn(r: Tables, r1: Tables, r2: Tables, keep: set<Cid>, u: Cid)
    requires u in r.addresses && u !in keep && r1.addresses == r.addresses - {u}
    requires forall y :: y in r1.targets ==> y in r.targets && r1.targets[y] == r.targets[y]
    requires SparesAll(r, r1, keep) && SparesAll(r1, r2, keep) && Emptied(r1, r2, keep)
    ensures SparesAll(r, r2, keep) && Emptied(r, r2, keep)
  {
    forall t: Cid, w: UserAddress ensures Spares(r, r2, keep, t, w) {
      SparesOn(r, r1, r2, keep, u, t, w);
    }
    hide Spares;
    FewerOf(r.addresses.Keys, keep, u);
  }

  lemma SparesOn(r: Tables, r1: Tables, r2: Tables, keep: set<Cid>, u: Cid, t: Cid, w: UserAddress)
    requires u in r.addresses && u !in keep && r1.addresses == r.addresses - {u}
    requires SparesAll(r, r1, keep) && SparesAll(r1, r2, keep)
    ensures Spares(r, r2, keep, t, w)
  {
    assert Spares(r1, r2, keep, t, w) && Spares(r, r1, keep, t, w);
    hide SparesAll, Has;
  }

  lemma FewerOf(all: set<Cid>, keep: set<Cid>, u: Cid)
    requires u in all && u !in keep
    ensures |(all - {u}) - keep| < |all - keep| && (all - {u}) * keep == all * keep
  {
    assert all - keep == ((all - {u}) - keep) + {u};
  }

  lemma OneFewer(r: Tables, u: Cid, keep: set<Cid>)
    requires u in r.addresses && u !in keep
    ensures SparesAll(r, Unregister(r, u), keep)
  {
    UnregisterExactly(r, u);
    hide Unregister, Has;
  }

  /** With at most one client registered, nothing is full. */
  lemma AloneIsNotFull(r: Tables, u: Cid, key: UserAddress)
    requires r.addresses.Keys <= {u}
    ensures !IsRoomOrTargetFull(r, key)
  {
    forall x ensures |Participants(r, x)| < 2 {
      var ps := Participants(r, x);
      hide IsClientInRoom;
      assert ps <= {u};
      if u in ps {
        assert ps == {u};
      } else {
        assert ps == {};
      }
    }
  }

  /** The two ends, if registered, and nobody else, and neither in a call. */
  predicate OnlyEnds(r: Tables, a: UserAddress, b: UserAddress) {
    forall u :: u in r.addresses ==> (r.addresses[u] == a || r.addresses[u] == b) && u !in r.targets
  }

  lemma EndsAreNotFull(r: Tables, a: UserAddress, b: UserAddress, x: UserAddress)
    requires Two(a, b) && UniqueAddresses(r) && OnlyEnds(r, a, b) && (x == a || x == b)
    ensures !IsRoomOrTargetFull(r, x)
  {
    var ps := Participants(r, x);
    forall u | u in r.addresses ensures u in ps <==> r.addresses[u] == x {
      ExactMatchesOnlyItself(r.addresses[u], x);
    }
    hide MatchesPrefix, Exact;
    if u :| u in ps {
      assert ps == {u};
    } else {
      assert ps == {};
    }
  }

  const NOBODY := UserAddress("")

  lemma NobodyFound(book: map<Cid, UserAddress>)
    ensures Find(book, NOBODY).NotFound?
  {
  }

  /** The lists speak of full addresses as before, and targets have only gone. */
  ghost predicate SameLists(r: Tables, r': Tables) {
    && (forall d: Cid, w: UserAddress :: w != NOBODY ==> (Has(r'.approved, d, w) <==> Has(r.approved, d, w)))
    && (forall d: Cid, w: UserAddress :: w != NOBODY ==> (Has(r'.rejected, d, w) <==> Has(r.rejected, d, w)))
    && (forall y :: y in r'.targets ==> y in r.targets && r'.targets[y] == r.targets[y])
  }

  /** A client drops its target by hanging up on nobody. */
  lemma DropTarget(h: Trail, c: Cid) returns (h': Trail)
    requires IsTrail(h) && c in Last(h).identity
    ensures IsTrail(h') && Continues(h, h') && Kept(Last(h), Last(h'), Last(h).tasks.Keys)
    ensures Last(h').reg.addresses == Last(h).reg.addresses && c !in Last(h').reg.targets
    ensures SameLists(Last(h).reg, Last(h').reg)
    ensures c !in Last(h).reg.addresses ==> forall y :: y in Last(h).reg.targets && y != c && Exact(Last(h).reg.targets[y]) ==>
      y in Last(h').reg.targets
  {
    var r := Last(h).reg;
    h' := HangUpOn(h, c, NOBODY);
    HangupLists(r, c, NOBODY);
    NobodyFound(r.addresses);
    hide AfterHangup, Find, Has, IsTrail, Continues;
  }

  lemma SameListsOn(r: Tables, r1: Tables, r2: Tables)
    requires SameLists(r, r1) && SameLists(r1, r2)
    ensures SameLists(r, r2)
  {
    hide Has;
  }

  /** Both ends, as far as they are registered, drop their targets. */
  lemma DropTargets(h: Trail, ends: set<Cid>) returns (h': Trail)
    requires IsTrail(h) && ends <= Last(h).identity.Keys
    ensures IsTrail(h') && Continues(h, h') && Kept(Last(h), Last(h'), Last(h).tasks.Keys)
    ensures Last(h').reg.addresses == Last(h).reg.addresses && SameLists(Last(h).reg, Last(h').reg)
    ensures forall c :: c in ends ==> c !in Last(h').reg.targets
    decreases |ends|
  {
    if ends == {} {
      h' := h;
      hide Has;
    } else {
      var c :| c in ends;
      var h1 := DropTarget(h, c);
      hide IsTrail, Continues, SameLists, Has;
      h' := DropTargets(h1, ends - {c});
      ContinuesOn(h, h1, h');
      KeptFewer(Last(h1), Last(h'), Last(h1).tasks.Keys, Last(h).tasks.Keys);
      KeptOn(Last(h), Last(h1), Last(h'), Last(h).tasks.Keys);
      DroppedStays(Last(h1).reg, Last(h').reg, c);
      SameListsOn(Last(h).reg, Last(h1).reg, Last(h').reg);
    }
  }

  lemma DroppedStays(r: Tables, r': Tables, c: Cid)
    requires SameLists(r, r') && c !in r.targets
    ensures c !in r'.targets
  {
    hide Has;
  }

  lemma KeptFewer(s: System, s': System, used: set<Chan>, fewer: set<Chan>)
    requires Kept(s, s', used) && forall k :: k in fewer && k in s.tasks ==> k in used
    ensures Kept(s, s', fewer)
  {
  }

  /** The clients registered under either address. */
  function EndsOf(r: Tables, a: UserAddress, b: UserAddress): (cs: set<Cid>) {
    set u | u in r.addresses && (r.addresses[u] == a || r.addresses[u] == b)
  }

  /** The two ends are left alone in the house; what unregistered connections have on their lists about
      them is as it was. */
  lemma QuietHouse(h: Trail, a: UserAddress, b: UserAddress) returns (h': Trail)
    requires IsTrail(h) && Two(a, b)
    ensures IsTrail(h') && Continues(h, h') && Kept(Last(h), Last(h'), Last(h).tasks.Keys)
    ensures OnlyEnds(Last(h').reg, a, b) && EndsOf(Last(h').reg, a, b) == EndsOf(Last(h).reg, a, b)
    ensures forall t: Cid, w: UserAddress :: t !in Last(h).reg.addresses && (w == a || w == b) ==>
      && (Has(Last(h').reg.approved, t, w) <==> Has(Last(h).reg.approved, t, w))
      && (Has(Last(h').reg.rejected, t, w) <==> Has(Last(h).reg.rejected, t, w))
  {
    EveryInterleavingKeeps(h.states, h.moves, |h.states| - 1);
    var r, ends := Last(h).reg, EndsOf(Last(h).reg, a, b);
    assert ends <= Last(h).identity.Keys;
    var h1 := Evacuate(h, ends);
    var r1 := Last(h1).reg;
    hide IsTrail, Continues, Inv;
    var h2 := DropTargets(h1, ends);
    ContinuesOn(h, h1, h2);
    KeptFewer(Last(h1), Last(h2), Last(h1).tasks.Keys, Last(h).tasks.Keys);
    KeptOn(Last(h), Last(h1), Last(h2), Last(h).tasks.Keys);
    h' := h2;
    hide Has;
    forall t: Cid, w: UserAddress | t !in r.addresses && (w == a || w == b)
      ensures (Has(Last(h').reg.approved, t, w) <==> Has(r.approved, t, w))
      ensures (Has(Last(h').reg.rejected, t, w) <==> Has(r.rejected, t, w))
    {
      assert Spares(r, r1, ends, t, w);
      assert w != NOBODY;
    }
  }

  // ---------------------------------------------------------------- opening a way

  /** Client `y` points at `x`, does not reject it, and the two ends are registered as before. */
  predicate PointsAt(s: System, s': System, y: Cid, x: UserAddress, a: UserAddress, b: UserAddress) {
    && TargetsIt(s'.reg, y, x) && !Has(s'.reg.rejected, y, x)
    && EndsOf(s'.reg, a, b) == EndsOf(s.reg, a, b)
  }

  /** A handler that is about to make `x` its client's target does so; a hangup by that client, from
      another channel, has cleared its old target and any rejection of `x` first. */
  lemma ThenSets(h: Trail, k: Chan, y: Cid, x: UserAddress, a: UserAddress, b: UserAddress) returns (h': Trail)
    requires IsTrail(h) && k in Last(h).tasks && Last(h).tasks[k].c == y && y in Last(h).identity
    requires var pc := Last(h).tasks[k].pc; (pc.SetTarget? && pc.f.key == x) || (pc.AcceptTarget? && pc.key == x)
    ensures IsTrail(h') && Continues(h, h') && Kept(Last(h), Last(h'), Last(h).tasks.Keys - {k})
    ensures PointsAt(Last(h), Last(h'), y, x, a, b)
  {
    var h1 := HangUpOn(h, y, x);
    HangupLists(Last(h).reg, y, x);
    var s1, pc := Last(h1), Last(h).tasks[k].pc;
    hide AfterHangup, Find, Has, IsTrail, Continues;
    var r' := s1.reg.(targets := s1.reg.targets[y := x]);
    if pc.SetTarget? {
      h' := Step(h1, k, y, pc, 0.0, Effect(r', if pc.f.payload == [] then Idle else Emit(pc.f, pc.t), []));
    } else {
      h' := Step(h1, k, y, pc, 0.0, Effect(r', NotifyFind(x, AcceptedNotice), []));
    }
    assert s1.log + [] == s1.log;
    ContinuesOn(h, h1, h');
  }

  lemma TrailKeeps(h: Trail)
    requires IsTrail(h)
    ensures h.states != [] && Inv(Last(h))
  {
    EveryInterleavingKeeps(h.states, h.moves, |h.states| - 1);
  }

  /** A handler at this point asks a client of the other end. */
  lemma AsksOther(h: Trail, k: Chan, x: UserAddress)
    requires IsTrail(h) && k in Last(h).tasks && Asks(Last(h).tasks[k].pc) && Last(h).tasks[k].pc.f.key == x && Exact(x)
    ensures Denotes(Last(h).identity, Last(h).tasks[k].pc.t, x)
  {
    TrailKeeps(h);
    AsksWhom(Last(h), k);
    ExactMatchesOnlyItself(Last(h).identity[Last(h).tasks[k].pc.t], x);
  }

  /** A handler with an old approval gets through once the house is quiet. */
  lemma GrantedWilling(h: Trail, k: Chan, y: Cid, x: UserAddress, z: UserAddress, a: UserAddress, b: UserAddress) returns (h': Trail)
    requires IsTrail(h) && Two(a, b) && Ends(a, b, x, z) && Separated(Last(h), a, b) && Denotes(Last(h).identity, y, z)
    requires k in Last(h).tasks && Last(h).tasks[k].c == y
    requires var pc := Last(h).tasks[k].pc; Asks(pc) && pc.f.key == x && Granted(Last(h).reg, pc, z)
    ensures IsTrail(h') && Continues(h, h') && Kept(Last(h), Last(h'), Last(h).tasks.Keys)
    ensures EndsOf(Last(h').reg, a, b) == EndsOf(Last(h).reg, a, b)
    ensures Willing(Last(h').reg, y, z, Last(h).tasks[k].pc)
  {
    var pc := Last(h).tasks[k].pc;
    AsksOther(h, k, x);
    assert pc.t !in Last(h).reg.addresses;
    h' := QuietHouse(h, a, b);
    TrailKeeps(h');
    EndsAreNotFull(Last(h').reg, a, b, x);
    hide IsTrail, Continues, Has, IsRoomOrTargetFull, Mutual;
  }

  /** Whatever can open does open, on some continuation, without moving the handlers in `used`. */
  lemma {:induction false} MakeOpen(
    h: Trail, y: Cid, z: UserAddress, x: UserAddress, used: set<Chan>, a: UserAddress, b: UserAddress) returns (h': Trail)
    requires IsTrail(h) && Two(a, b) && Ends(a, b, x, z) && Separated(Last(h), a, b) && Denotes(Last(h).identity, y, z)
    requires Opens(Last(h), y, z, x, used)
    ensures IsTrail(h') && Continues(h, h') && Kept(Last(h), Last(h'), used)
    ensures PointsAt(Last(h), Last(h'), y, x, a, b)
    decreases |Last(h).tasks.Keys - used|
  {
    var s := Last(h);
    var k :| k in s.tasks && k !in used && s.tasks[k].c == y && Way(s, k, z, x, used);
    var pc := s.tasks[k].pc;
    if Asks(pc) {
      AsksOther(h, k, x);
      FewerLeft(s.tasks.Keys, used, k);
      assert Passes(s, k, z, x, used + {k});
      var h1;
      if Granted(s.reg, pc, z) {
        h1 := GrantedWilling(h, k, y, x, z, a, b);
        KeptFewer(s, Last(h1), s.tasks.Keys, used + {k});
      } else {
        h1 := MakeOpen(h, pc.t, x, z, used + {k}, a, b);
        PointingIsMutual(Last(h1).reg, pc.t, z);
      }
      hide Opens, Way, Passes, Separated, IsTrail, Continues, Has, Mutual, IsRoomOrTargetFull;
      h' := ThroughAndSets(h, h1, k, y, z, x, pc, used, a, b);
    } else {
      hide Opens, Way, Separated, IsTrail, Continues;
      h' := ThenSets(h, k, y, x, a, b);
      KeptFewer(s, Last(h'), s.tasks.Keys - {k}, used);
    }
  }

  lemma ThroughAndSets(h: Trail, h1: Trail, k: Chan, y: Cid, z: UserAddress, x: UserAddress, pc: Pc, used: set<Chan>,
                       a: UserAddress, b: UserAddress) returns (h': Trail)
    requires IsTrail(h) && IsTrail(h1) && Continues(h, h1) && Kept(Last(h), Last(h1), used + {k}) && k !in used
    requires k in Last(h).tasks && Last(h).tasks[k] == Task(y, pc) && Denotes(Last(h).identity, y, z) && Asks(pc) && pc.f.key == x
    requires Willing(Last(h1).reg, y, z, pc) && EndsOf(Last(h1).reg, a, b) == EndsOf(Last(h).reg, a, b)
    ensures IsTrail(h') && Continues(h, h') && Kept(Last(h), Last(h'), used)
    ensures PointsAt(Last(h), Last(h'), y, x, a, b)
  {
    hide IsTrail, Continues, Willing, Has;
    var h2 := AskThrough(h1, k, y, pc);
    h' := ThenSets(h2, k, y, x, a, b);
    ContinuesOn(h, h1, h2);
    ContinuesOn(h, h2, h');
  }

  // ---------------------------------------------------------------- using it

  /** A handler of `x` that asks a client of `z`, and gets through, sends its frame. */
  lemma AskedFrame(h: Trail, h1: Trail, k: Chan, c: Cid, pc: Pc, x: UserAddress, z: UserAddress) returns (h': Trail)
    requires IsTrail(h) && IsTrail(h1) && Continues(h, h1) && Last(h1).log == Last(h).log && AtPc(Last(h1), k, c, pc)
    requires Denotes(Last(h1).identity, c, x) && Asks(pc) && Denotes(Last(h1).identity, pc.t, z) && pc.f.payload != []
    requires Willing(Last(h1).reg, c, x, pc)
    ensures IsTrail(h') && Continues(h, h') && FrameCame(Last(h), Last(h'), x, z)
  {
    var s := Last(h);
    hide IsTrail, Continues, Willing;
    var h2 := AskThrough(h1, k, c, pc);
    h' := FrameFollows(h2, k, c, pc.f, pc.t);
    ContinuesOn(h, h1, h2);
    ContinuesOn(h, h2, h');
    OneFrame(s, Last(h'), [], c, x, pc.f.key, pc.t, z);
  }

  /** Between the two states a frame between the two addresses was logged, and no acceptance. */
  ghost predicate FrameCame(s: System, s': System, x: UserAddress, z: UserAddress) {
    && s.log <= s'.log && NoneJoins(s'.identity, Logged(s, s'), x, z)
    && !NoneFrames(s'.identity, Logged(s, s'), x, z)
  }

  lemma OneFrame(s: System, s': System, es: seq<Event>, c: Cid, x: UserAddress, key: UserAddress, t: Cid, z: UserAddress)
    requires s'.log == s.log + es + [Broadcast(c, x, key, t)] && Denotes(s'.identity, t, z)
    requires forall e :: e in es ==> e.AudioFrom?
    ensures FrameCame(s, s', x, z)
  {
    var e := Broadcast(c, x, key, t);
    assert Logged(s, s') == es + [e];
    assert (es + [e])[|es|] == e;
    assert e in Logged(s, s') && FrameBetween(s'.identity, e, x, z);
  }

  /** A waiting handler with a payload, past its checks or able to pass them. */
  lemma HeadedComes(h: Trail, k: Chan, x: UserAddress, z: UserAddress, a: UserAddress, b: UserAddress) returns (h': Trail)
    requires IsTrail(h) && Two(a, b) && Ends(a, b, x, z) && Separated(Last(h), a, b)
    requires OwnedBy(Last(h), k, x) && Headed(Last(h), k, x, z)
    ensures IsTrail(h') && Continues(h, h') && FrameCame(Last(h), Last(h'), x, z)
  {
    var s := Last(h);
    var c, pc := s.tasks[k].c, s.tasks[k].pc;
    if !Asks(pc) {
      hide Separated, IsTrail, Continues;
      h' := PastFrame(h, k, c, pc.f, pc.t);
      OneFrame(s, Last(h'), [], c, x, pc.f.key, pc.t, z);
    } else if Granted(s.reg, pc, x) {
      h' := GrantedFrame(h, k, c, pc, x, z, a, b);
    } else {
      assert Opens(s, pc.t, z, x, {k});
      var h1 := MakeOpen(h, pc.t, z, x, {k}, a, b);
      PointingIsMutual(Last(h1).reg, pc.t, x);
      hide Separated, IsTrail, Continues, Has, Mutual;
      h' := AskedFrame(h, h1, k, c, pc, x, z);
    }
  }

  /** Past its checks, whatever its payload, at the broadcast itself. */
  lemma PastFrame(h: Trail, k: Chan, c: Cid, f: Frame, t: Cid) returns (h': Trail)
    requires IsTrail(h) && (AtPc(Last(h), k, c, Emit(f, t)) || (AtPc(Last(h), k, c, SetTarget(f, t)) && f.payload != []))
    ensures IsTrail(h') && Continues(h, h') && Last(h').identity == Last(h).identity
    ensures Last(h').log == Last(h).log + [Broadcast(c, Last(h).identity[c], f.key, t)]
  {
    if f.payload != [] {
      h' := FrameFollows(h, k, c, f, t);
    } else {
      hide IsTrail, Continues;
      h' := Step(h, k, c, Emit(f, t), 0.0, Effect(Last(h).reg, Idle, [Broadcast(c, Last(h).identity[c], f.key, t)]));
    }
  }

  lemma GrantedFrame(h: Trail, k: Chan, c: Cid, pc: Pc, x: UserAddress, z: UserAddress, a: UserAddress, b: UserAddress)
    returns (h': Trail)
    requires IsTrail(h) && Two(a, b) && Ends(a, b, x, z) && Separated(Last(h), a, b)
    requires AtPc(Last(h), k, c, pc) && Denotes(Last(h).identity, c, x) && Asks(pc) && pc.f.payload != []
    requires Denotes(Last(h).identity, pc.t, z) && Granted(Last(h).reg, pc, x)
    ensures IsTrail(h') && Continues(h, h') && FrameCame(Last(h), Last(h'), x, z)
  {
    assert pc.t !in Last(h).reg.addresses;
    var h1 := LeftAlone(h, x);
    hide Separated, IsTrail, Continues, Has, Mutual, IsRoomOrTargetFull;
    h' := AskedFrame(h, h1, k, c, pc, x, z);
  }

  /** The holder of `x` is left alone in the house, so that nothing is full; what unregistered
      connections have on their lists about `x` is as it was. */
  lemma LeftAlone(h: Trail, x: UserAddress) returns (h': Trail)
    requires IsTrail(h)
    ensures IsTrail(h') && Continues(h, h') && Kept(Last(h), Last(h'), Last(h).tasks.Keys)
    ensures forall key :: !IsRoomOrTargetFull(Last(h').reg, key)
    ensures forall t :: t !in Last(h).reg.addresses ==>
      && (Has(Last(h').reg.approved, t, x) <==> Has(Last(h).reg.approved, t, x))
      && (Has(Last(h').reg.rejected, t, x) <==> Has(Last(h).reg.rejected, t, x))
  {
    var r := Last(h).reg;
    TrailKeeps(h);
    var keep := set u | u in r.addresses && r.addresses[u] == x;
    h' := Evacuate(h, keep);
    var r' := Last(h').reg;
    hide IsTrail, Continues, Has, IsRoomOrTargetFull, Inv;
    var one: Cid := 0;
    if u :| u in keep {
      one := u;
    }
    assert r'.addresses.Keys <= {one};
    forall key ensures !IsRoomOrTargetFull(r', key) {
      AloneIsNotFull(r', one, key);
    }
    forall t | t !in r.addresses
      ensures Has(r'.approved, t, x) <==> Has(r.approved, t, x)
      ensures Has(r'.rejected, t, x) <==> Has(r.rejected, t, x)
    {
      assert Spares(r, r', keep, t, x);
    }
  }

  // ---------------------------------------------------------------- a call to a registered client

  /** An outdated connection `c` of `x` calls the registered client `y` of `z`, which points at `x`. */
  lemma CallComes(h: Trail, y: Cid, c: Cid, z: UserAddress, x: UserAddress) returns (h': Trail)
    requires IsTrail(h) && Exact(x) && Exact(z) && x != z
    requires y in Last(h).reg.addresses && Denotes(Last(h).identity, y, z)
    requires Denotes(Last(h).identity, c, x) && c !in Last(h).reg.addresses
    requires TargetsIt(Last(h).reg, y, x) && !Has(Last(h).reg.rejected, y, x)
    ensures IsTrail(h') && Continues(h, h') && FrameCame(Last(h), Last(h'), x, z)
  {
    var s := Last(h);
    var f := Frame(z, 1, CALL_PAYLOAD);
    var h2, k := ReadyToCall(h, y, c, z, x);
    hide IsTrail, Continues, Has, Mutual, Find, IsClientInRoom, IsCallRejected, Exact;
    var h3 := Arrives(h2, k, c, ClientTargetedAudio(z, 1, CALL_PAYLOAD));
    assert Last(h3).tasks[k].pc == CheckRoom(f) && Last(h3).reg == Last(h2).reg;
    h' := CallGoes(h3, k, c, f, y, x);
    ContinuesOn(h, h2, h3);
    ContinuesOn(h, h3, h');
    OneFrame(s, Last(h'), [AudioFrom(c, z)], c, x, z, y, z);
  }

  /** The caller has dropped its own target and opened a channel; its checks will pass. */
  lemma ReadyToCall(h: Trail, y: Cid, c: Cid, z: UserAddress, x: UserAddress) returns (h': Trail, k: Chan)
    requires IsTrail(h) && Exact(x) && Exact(z) && x != z
    requires y in Last(h).reg.addresses && Denotes(Last(h).identity, y, z)
    requires Denotes(Last(h).identity, c, x) && c !in Last(h).reg.addresses
    requires TargetsIt(Last(h).reg, y, x) && !Has(Last(h).reg.rejected, y, x)
    ensures IsTrail(h') && Continues(h, h') && AtPc(Last(h'), k, c, Idle)
    ensures Last(h').identity == Last(h).identity && Last(h').log == Last(h).log
    ensures !IsClientInRoom(Last(h').reg, c, z) && Find(Last(h').reg.addresses, z) == Found(y)
    ensures Mutual(Last(h').reg, y, x) && !IsCallRejected(Last(h').reg, y, x)
  {
    var h1 := DropTarget(h, c);
    k := FreshChannel(Last(h1).tasks);
    h' := Opened(h1, c, k);
    TrailKeeps(h');
    var r := Last(h').reg;
    hide IsTrail, Continues, Has, SameLists;
    ContinuesOn(h, h1, h');
    StillListed(Last(h).reg, Last(h1).reg, y, x);
    PointingIsMutual(r, y, x);
    hide Mutual, MatchesPrefix, Exact;
    CallControl.ExactHolder(r, z, y);
  }

  lemma StillListed(r: Tables, r': Tables, y: Cid, x: UserAddress)
    requires SameLists(r, r') && x != NOBODY
    ensures Has(r'.rejected, y, x) <==> Has(r.rejected, y, x)
    ensures y in r'.targets ==> y in r.targets && r'.targets[y] == r.targets[y]
  {
    hide Has;
  }

  lemma CallGoes(h: Trail, k: Chan, c: Cid, f: Frame, y: Cid, x: UserAddress) returns (h': Trail)
    requires IsTrail(h) && AtPc(Last(h), k, c, CheckRoom(f)) && Last(h).identity[c] == x && f.payload != [] && c != y
    requires !IsClientInRoom(Last(h).reg, c, f.key) && Find(Last(h).reg.addresses, f.key) == Found(y)
    requires Mutual(Last(h).reg, y, x) && !IsCallRejected(Last(h).reg, y, x)
    ensures IsTrail(h') && Continues(h, h') && Last(h').identity == Last(h).identity
    ensures Last(h').log == Last(h).log + [Broadcast(c, x, f.key, y)]
  {
    hide IsTrail, Continues, Mutual, Find, IsClientInRoom, IsRoomOrTargetFull, IsCallRejected;
    var h1 := Look(h, k, c, CheckRoom(f), 0.0, FindTarget(f));
    var h2 := Look(h1, k, c, FindTarget(f), 0.0, CheckStale(f, y));
    var h3 := AskThrough(h2, k, c, CheckStale(f, y));
    h' := FrameFollows(h3, k, c, f, y);
    ContinuesOn(h, h1, h2);
    ContinuesOn(h, h2, h3);
    ContinuesOn(h, h3, h');
  }

  /** The handlers are as before and nothing was logged; people may have come or gone. */
  predicate Prepared(s: System, s': System) {
    && s'.tasks == s.tasks && s'.log == s.log
    && forall y :: y in s.identity ==> y in s'.identity && s'.identity[y] == s.identity[y]
  }

  /** If `x` has only registered connections, or none, a way of `y` to it needs no other handler. */
  lemma DirectWay(h: Trail, y: Cid, z: UserAddress, x: UserAddress, a: UserAddress, b: UserAddress, s': System)
    requires IsTrail(h) && Two(a, b) && Ends(a, b, x, z) && Separated(Last(h), a, b) && Denotes(Last(h).identity, y, z)
    requires Opens(Last(h), y, z, x, {}) && Prepared(Last(h), s')
    requires forall c :: Denotes(Last(h).identity, c, x) ==> c in Last(h).reg.addresses
    ensures Opens(s', y, z, x, {})
  {
    var s := Last(h);
    var k :| k in s.tasks && k !in {} && s.tasks[k].c == y && Way(s, k, z, x, {});
    if Asks(s.tasks[k].pc) {
      AsksOther(h, k, x);
      AsksRegistered(s, k, z, x, {} + {k});
    }
    assert Way(s', k, z, x, {});
  }

  lemma AsksRegistered(s: System, k: Chan, z: UserAddress, x: UserAddress, used: set<Chan>)
    requires k in s.tasks && Asks(s.tasks[k].pc) && Denotes(s.identity, s.tasks[k].pc.t, x)
    requires s.tasks[k].pc.t in s.reg.addresses && HalfSeparated(s, z, x)
    ensures !Passes(s, k, z, x, used)
  {
  }

  lemma StillSeparated(s: System, s': System, a: UserAddress, b: UserAddress)
    requires Separated(s, a, b)
    requires forall y :: y in s'.identity && y in s.identity ==> s'.identity[y] == s.identity[y]
    requires forall y :: y in s'.identity && y !in s.identity ==> y !in s'.reg.targets && y !in s'.reg.addresses
    requires forall y :: y in s'.reg.addresses ==> y in s.reg.addresses
    requires forall y :: y in s'.reg.targets ==> y in s.reg.targets && s'.reg.targets[y] == s.reg.targets[y]
    requires forall d: Cid, w: UserAddress :: Has(s'.reg.approved, d, w) ==> Has(s.reg.approved, d, w)
    ensures Separated(s', a, b)
  {
    hide Has;
  }

  /** There is, or comes to be, an outdated connection of `x`, and the way of `y` is as open as before. */
  lemma Prepare(h: Trail, y: Cid, z: UserAddress, x: UserAddress, a: UserAddress, b: UserAddress) returns (h': Trail, c: Cid)
    requires IsTrail(h) && Two(a, b) && Ends(a, b, x, z) && Separated(Last(h), a, b)
    requires y in Last(h).reg.addresses && Denotes(Last(h).identity, y, z)
    requires Opens(Last(h), y, z, x, {}) && Present(Last(h), x)
    ensures IsTrail(h') && Continues(h, h') && Prepared(Last(h), Last(h')) && Separated(Last(h'), a, b)
    ensures y in Last(h').reg.addresses && Opens(Last(h'), y, z, x, {})
    ensures Denotes(Last(h').identity, c, x) && c !in Last(h').reg.addresses
  {
    var s := Last(h);
    if c1 :| Denotes(s.identity, c1, x) && c1 !in s.reg.addresses {
      h', c := h, c1;
      hide Opens, Separated;
    } else if c1 :| Denotes(s.identity, c1, x) {
      c := c1;
      h' := Leaving(h, c, a, b);
      DirectWay(h, y, z, x, a, b, Last(h'));
      hide Opens, Separated;
    } else {
      var c1: Cid :| c1 !in s.identity;
      c := c1;
      h' := ComingAndGoing(h, c, x, a, b);
      DirectWay(h, y, z, x, a, b, Last(h'));
      hide Opens, Separated;
    }
  }

  lemma Leaving(h: Trail, c: Cid, a: UserAddress, b: UserAddress) returns (h': Trail)
    requires IsTrail(h) && Separated(Last(h), a, b)
    ensures IsTrail(h') && Continues(h, h') && Prepared(Last(h), Last(h')) && Separated(Last(h'), a, b)
    ensures Last(h').identity == Last(h).identity && Last(h').reg.addresses == Last(h).reg.addresses - {c}
  {
    var s := Last(h);
    h' := Disconnecting(h, c);
    UnregisterFrame(s.reg, c);
    hide Unregister, Separated, Has;
    StillSeparated(s, Last(h'), a, b);
  }

  lemma ComingAndGoing(h: Trail, c: Cid, x: UserAddress, a: UserAddress, b: UserAddress) returns (h': Trail)
    requires IsTrail(h) && Separated(Last(h), a, b) && c !in Last(h).identity
    requires forall d :: !Denotes(Last(h).identity, d, x)
    ensures IsTrail(h') && Continues(h, h') && Prepared(Last(h), Last(h')) && Separated(Last(h'), a, b)
    ensures Last(h').identity == Last(h).identity[c := x] && Last(h').reg.addresses == Last(h).reg.addresses
    ensures c !in Last(h').reg.addresses
  {
    var s := Last(h);
    TrailKeeps(h);
    assert c !in s.reg.addresses && c !in s.reg.targets;
    forall d | d in s.reg.addresses ensures s.reg.addresses[d] != x {
      assert !Denotes(s.identity, d, x);
    }
    hide Inv;
    var h1 := Connected(h, c, x);
    h' := Disconnecting(h1, c);
    UnregisterFrame(Last(h1).reg, c);
    ContinuesOn(h, h1, h');
    hide Unregister, Separated, Has, IsTrail, Continues;
    StillSeparated(s, Last(h'), a, b);
  }

  lemma AjarComes(h: Trail, y: Cid, z: UserAddress, x: UserAddress, a: UserAddress, b: UserAddress) returns (h': Trail)
    requires IsTrail(h) && Two(a, b) && Ends(a, b, x, z) && Separated(Last(h), a, b) && Ajar(Last(h), y, z, x)
    ensures IsTrail(h') && Continues(h, h') && FrameCame(Last(h), Last(h'), x, z)
  {
    assert !Has(Last(h).reg.approved, y, x);
    var h1, c := Prepare(h, y, z, x, a, b);
    hide Opens, Present;
    var h2 := MakeOpen(h1, y, z, x, {}, a, b);
    TrailKeeps(h1);
    TrailKeeps(h2);
    assert Last(h1).reg.addresses[y] == z;
    assert y in EndsOf(Last(h1).reg, a, b);
    hide Separated, IsTrail, Continues, Has, Inv;
    var h3 := CallComes(h2, y, c, z, x);
    ContinuesOn(h, h1, h2);
    ContinuesOn(h, h2, h3);
    h' := h3;
  }

  // ---------------------------------------------------------------- exactly

  /** Whatever threatens after a hangup comes true on some continuation. */
  lemma ThreatComesTrue(h: Trail, x: UserAddress, z: UserAddress, a: UserAddress, b: UserAddress) returns (h': Trail)
    requires IsTrail(h) && Two(a, b) && Ends(a, b, x, z) && Separated(Last(h), a, b) && Threat(Last(h), x, z)
    ensures IsTrail(h') && Continues(h, h') && FrameCame(Last(h), Last(h'), x, z)
  {
    var s := Last(h);
    hide Separated, Headed, Ajar, IsTrail, Continues;
    if k :| OwnedBy(s, k, x) && Headed(s, k, x, z) {
      h' := HeadedComes(h, k, x, z, a, b);
    } else {
      var y :| Ajar(s, y, z, x);
      h' := AjarComes(h, y, z, x, a, b);
    }
  }

  /** Wherever the run goes on from here, every frame between the two has an acceptance before it. */
  ghost predicate Silent(h: Trail, a: UserAddress, b: UserAddress)
    requires IsTrail(h)
  {
    forall h' :: Continues(h, h') ==> Quietly(Last(h), h', a, b)
  }

  ghost predicate Quietly(s: System, h': Trail, a: UserAddress, b: UserAddress)
    requires IsTrail(h')
  {
    var s' := Last(h');
    forall i :: |s.log| <= i < |s'.log| && FrameBetween(s'.identity, s'.log[i], a, b) ==>
      JoinedBetween(s'.identity, s'.log, |s.log|, i, a, b)
  }

  lemma FrameIsLoud(s: System, h': Trail, x: UserAddress, z: UserAddress, a: UserAddress, b: UserAddress)
    requires IsTrail(h') && FrameCame(s, Last(h'), x, z) && Ends(a, b, x, z)
    ensures !Quietly(s, h', a, b)
  {
    var s' := Last(h');
    var es := Logged(s, s');
    var e :| e in es && FrameBetween(s'.identity, e, x, z);
    var j :| 0 <= j < |es| && es[j] == e;
    var i := |s.log| + j;
    assert s'.log[i] == e && FrameBetween(s'.identity, s'.log[i], a, b);
    forall q | |s.log| <= q < i ensures !Joins(s'.identity, s'.log[q], a, b) {
      assert s'.log[q] == es[q - |s.log|];
      assert s'.log[q] in es;
    }
    hide FrameBetween, Joins;
  }

  lemma CalmIsSilent(h: Trail, a: UserAddress, b: UserAddress)
    requires IsTrail(h) && Exact(a) && Exact(b) && Calm(Last(h), a, b)
    ensures Silent(h, a, b)
  {
    forall h' | Continues(h, h') ensures Quietly(Last(h), h', a, b) {
      CalmIsQuiet(h, h', a, b);
    }
  }

  lemma CalmIsQuiet(h: Trail, h': Trail, a: UserAddress, b: UserAddress)
    requires Continues(h, h') && Exact(a) && Exact(b) && Calm(Last(h), a, b)
    ensures Quietly(Last(h), h', a, b)
  {
    var m, n := |h.states| - 1, |h'.states| - 1;
    assert h'.states[m] == Last(h) && h'.states[n] == Last(h');
    hide Exact, Calm, FrameBetween, JoinedBetween;
    forall i | |Last(h).log| <= i < |Last(h').log| && FrameBetween(Last(h').identity, Last(h').log[i], a, b)
      ensures JoinedBetween(Last(h').identity, Last(h').log, |Last(h).log|, i, a, b)
    {
      CalmNeedsAcceptance(h'.states, h'.moves, m, n, i, a, b);
    }
  }

  /** A hangup holds, on every continuation, if and only if it leaves no handler, of either end, that
      can lead to a frame. */
  lemma HangupHoldsExactly(h: Trail, h1: Trail, k: Chan, now: Time, rooms': RoomTables, a: UserAddress, b: UserAddress)
    requires Two(a, b) && Continues(h, h1) && h1.states == h.states + [Last(h1)] && HangsUp(Last(h), k, a, b)
    requires Moves(Last(h), Acquire(k, now, rooms'), Last(h1))
    ensures Silent(h1, a, b) <==> Calm(Last(h1), a, b)
  {
    TrailKeeps(h);
    HangupSeparates(Last(h), k, now, rooms', Last(h1), a, b);
    assert Ends(a, b, a, b) && Ends(a, b, b, a);
    hide Moves, HangsUp, Separated, Threat, Inv, Exact, FrameCame, Quietly;
    if Calm(Last(h1), a, b) {
      CalmIsSilent(h1, a, b);
    } else if Threat(Last(h1), a, b) {
      var h2 := ThreatComesTrue(h1, a, b, a, b);
      FrameIsLoud(Last(h1), h2, a, b, a, b);
    } else {
      var h2 := ThreatComesTrue(h1, b, a, a, b);
      FrameIsLoud(Last(h1), h2, b, a, a, b);
    }
  }

  // ---------------------------------------------------------------- in plain terms

  /** No handler of either end is asking a connection of the other that is registered no longer. */
  predicate NoLostCalls(s: System, x: UserAddress, z: UserAddress) {
    forall k :: k in s.tasks && OwnedBy(s, k, x) && Asks(s.tasks[k].pc) && Denotes(s.identity, s.tasks[k].pc.t, z) ==>
      s.tasks[k].pc.t in s.reg.addresses
  }

  /** A handler of `x` past its checks towards `z`, with something to send. */
  predicate PastChecks(s: System, k: Chan, x: UserAddress, z: UserAddress) {
    && OwnedBy(s, k, x) && (s.tasks[k].pc.Emit? || (s.tasks[k].pc.SetTarget? && s.tasks[k].pc.f.payload != []))
    && Denotes(s.identity, s.tasks[k].pc.t, z)
  }

  /** A handler of a registered client of `z` that is about to make `x` its target. */
  predicate AboutToPoint(s: System, k: Chan, x: UserAddress, z: UserAddress) {
    && OwnedBy(s, k, z) && s.tasks[k].c in s.reg.addresses
    && ((s.tasks[k].pc.SetTarget? && s.tasks[k].pc.f.key == x) || (s.tasks[k].pc.AcceptTarget? && s.tasks[k].pc.key == x))
  }

  /** After a hangup, and unless somebody is calling a lost connection, what threatens is just the
      handlers past their checks with something to send, and the handlers of registered clients about
      to choose the other end as their target. */
  lemma PlainThreat(h: Trail, x: UserAddress, z: UserAddress)
    requires IsTrail(h) && Exact(x) && Exact(z) && HalfSeparated(Last(h), x, z) && HalfSeparated(Last(h), z, x)
    requires NoLostCalls(Last(h), x, z) && NoLostCalls(Last(h), z, x)
    ensures Threat(Last(h), x, z) <==>
      (exists k :: PastChecks(Last(h), k, x, z)) || (Present(Last(h), x) && exists k :: AboutToPoint(Last(h), k, x, z))
  {
    var s := Last(h);
    TrailKeeps(h);
    if k :| PastChecks(s, k, x, z) {
      assert OwnedBy(s, k, x) && Headed(s, k, x, z);
    } else if k :| Present(s, x) && AboutToPoint(s, k, x, z) {
      assert Way(s, k, z, x, {}) && Ajar(s, s.tasks[k].c, z, x);
    } else {
      forall k | OwnedBy(s, k, x) ensures !Headed(s, k, x, z) {
        assert !PastChecks(s, k, x, z);
        if Asks(s.tasks[k].pc) && Denotes(s.identity, s.tasks[k].pc.t, z) {
          AsksRegistered(s, k, x, z, {k});
        }
      }
      forall y ensures !Ajar(s, y, z, x) {
        NotAjar(h, y, z, x);
      }
    }
  }

  lemma NotAjar(h: Trail, y: Cid, z: UserAddress, x: UserAddress)
    requires IsTrail(h) && Exact(x) && HalfSeparated(Last(h), x, z) && HalfSeparated(Last(h), z, x) && NoLostCalls(Last(h), z, x)
    requires forall k :: !(Present(Last(h), x) && AboutToPoint(Last(h), k, x, z))
    ensures !Ajar(Last(h), y, z, x)
  {
    var s := Last(h);
    if Ajar(s, y, z, x) {
      var k :| k in s.tasks && k !in {} && s.tasks[k].c == y && Way(s, k, z, x, {});
      if Asks(s.tasks[k].pc) {
        AsksOther(h, k, x);
        AsksRegistered(s, k, z, x, {} + {k});
      } else if AboutToPoint(s, k, x, z) {
      }
    }
  }
}
