/**
 Call requests while handlers interleave. Between marking a callee as notified and sending the
 request, anything may happen: this says what two requests for one pair always have between them,
 and shows the two ways in which that differs from the case of atomic handlers.
 */
module LockPrompts {
  import opened Basics
  import opened Bytes
  import opened Addresses
  import opened Codec
  import opened Rooms
  import opened Registry
  import opened Handlers
  import opened LockSteps
  import opened LockRevocation
  import opened LockRuns
  import LockExact
  import CallTraffic

  /** The move ends the registration of client `u`. */
  predicate Departs(s: System, m: Move, s': System, u: Cid) {
    || (m.Disconnect? && m.c == u)
    || (m.Acquire? && m.k in s.tasks && s.tasks[m.k].pc.DropStale? && s.tasks[m.k].pc.t == u)
    || (u in s.reg.addresses && u !in s'.reg.addresses)
  }

  /** The move ends whatever session there was between `t` and `x`. */
  predicate Clears(s: System, m: Move, s': System, t: Cid, x: Cid) {
    || Departs(s, m, s', t) || Departs(s, m, s', x)
    || (m.Acquire? && m.k in s.tasks && s.tasks[m.k].pc.HangupClear?
        && CallTraffic.EndsPair(s.reg, s.tasks[m.k].c, s.tasks[m.k].pc.key, t, x))
  }

  lemma MoveKeepsMark(s: System, m: Move, s': System, t: Cid, x: Cid)
    requires Moves(s, m, s') && Has(s.reg.notified, t, x) && !Clears(s, m, s', t, x)
    ensures Has(s'.reg.notified, t, x)
  {
    hide Has, Unregister, Micro, RoomOutcome, CallTraffic.EndsPair;
    match m
    case Connect(c, address, now) =>
      if old' :| Holder(s.reg, c, address, old') && s'.reg == Seat(Unregister(s.reg, old'), c, address, now) {
        UnregisterFrame(s.reg, old');
        CallTraffic.UnregisterKeepsNotified(s.reg, old', t, x);
      }
    case OpenChannel(c, k) =>
    case Disconnect(c) => CallTraffic.UnregisterKeepsNotified(s.reg, c, t, x);
    case Arrive(k, p) =>
    case Acquire(k, now, rooms') =>
      var c := s.tasks[k].c;
      CallTraffic.MicroKeepsNotified(s.reg, c, s.identity[c], s.tasks[k].pc, now, rooms', t, x);
  }

  // ---------------------------------------------------------------- marks along a run

  ghost predicate MarkedAt(states: seq<System>, moves: seq<Move>, n: nat, t: Cid, x: Cid)
    requires IsInterleaving(states, moves) && n < |states|
  {
    Has(states[n].reg.notified, t, x)
  }

  ghost predicate ClearedAt(states: seq<System>, moves: seq<Move>, n: nat, t: Cid, x: Cid)
    requires IsInterleaving(states, moves) && n < |moves|
  {
    Clears(states[n], moves[n], states[n + 1], t, x)
  }

  lemma MarkStays(states: seq<System>, moves: seq<Move>, n: nat, t: Cid, x: Cid)
    requires IsInterleaving(states, moves) && n < |moves| && MarkedAt(states, moves, n, t, x) && !ClearedAt(states, moves, n, t, x)
    ensures MarkedAt(states, moves, n + 1, t, x)
  {
    assert Moves(states[n], moves[n], states[n + 1]);
    hide Moves, Has, Clears;
    MoveKeepsMark(states[n], moves[n], states[n + 1], t, x);
  }

  lemma {:induction false} MarkLasts(states: seq<System>, moves: seq<Move>, m: nat, n: nat, t: Cid, x: Cid)
    requires IsInterleaving(states, moves) && m <= n <= |moves| && MarkedAt(states, moves, m, t, x)
    requires forall j :: m <= j < n ==> !ClearedAt(states, moves, j, t, x)
    ensures MarkedAt(states, moves, n, t, x)
    decreases n - m
  {
    if m < n {
      assert |states| == |moves| + 1;
      hide *;
      MarkStays(states, moves, m, t, x);
      MarkLasts(states, moves, m + 1, n, t, x);
    }
  }

  // ---------------------------------------------------------------- where a request comes from

  /** Move `n` is an acquisition of channel `k` by a handler of `x` at this point. */
  ghost predicate Takes(states: seq<System>, moves: seq<Move>, n: nat, k: Chan, x: Cid, pc: Pc)
    requires IsInterleaving(states, moves) && n < |moves|
  {
    moves[n].Acquire? && moves[n].k == k && k in states[n].tasks && states[n].tasks[k] == Task(x, pc)
  }

  /** Move `n` sends client `t` a call request of `x`. */
  ghost predicate Sends(states: seq<System>, moves: seq<Move>, n: nat, k: Chan, x: Cid, f: Frame, t: Cid)
    requires IsInterleaving(states, moves) && n < |moves|
  {
    Takes(states, moves, n, k, x, SendPrompt(f, t)) && t in states[n].reg.channels
  }

  lemma MicroPromptChain(r: Tables, c: Cid, me: UserAddress, pc: Pc, now: Time, rooms': RoomTables)
    requires !pc.Idle?
    ensures var e := Micro(r, c, me, pc, now, rooms');
      && (e.pc.SendPrompt? ==> pc == MarkNotified(e.pc.f, e.pc.t))
      && (e.pc.MarkNotified? ==> pc == CheckNotified(e.pc.f, e.pc.t) && !Has(r.notified, pc.t, c))
      && (pc.MarkNotified? ==> Has(e.r.notified, pc.t, c))
      && (forall d: Cid, x: Cid :: Prompt(d, x) in e.events <==> pc.SendPrompt? && pc.t == d && x == c && d in r.channels)
  {
    hide MatchesPrefix, Find, ClearCallSession, Unregister, IsClientInRoom, IsClientInSameCall, IsRoomOrTargetFull;
    hide IsStale, Mutual, Join, IsCallApproved, IsCallRejected;
  }

  lemma PromptIsSent(states: seq<System>, moves: seq<Move>, n: nat, t: Cid, x: Cid) returns (k: Chan, f: Frame)
    requires IsInterleaving(states, moves) && n < |moves| && Prompt(t, x) in Logged(states[n], states[n + 1])
    ensures Sends(states, moves, n, k, x, f, t)
  {
    var s, m, s' := states[n], moves[n], states[n + 1];
    assert Moves(s, m, s');
    hide Micro, RoomOutcome, Registers, Unregister;
    if !m.Acquire? {
      OthersLogNoPrompt(s, m, s');
    }
    k := m.k;
    var c, pc := s.tasks[k].c, s.tasks[k].pc;
    MicroPromptChain(s.reg, c, s.identity[c], pc, m.now, m.rooms');
    assert Logged(s, s') == Acquired(s, k, m.now, m.rooms').events;
    f := pc.f;
  }

  lemma OthersLogNoPrompt(s: System, m: Move, s': System)
    requires Moves(s, m, s') && !m.Acquire?
    ensures forall e :: e in Logged(s, s') ==> !e.Prompt?
  {
    hide Registers, Unregister;
  }

  /** Only an acquisition brings a channel's task to these points. */
  lemma TaskUnmoved(s: System, m: Move, s': System, k: Chan, x: Cid, pc: Pc)
    requires Moves(s, m, s') && k in s'.tasks && s'.tasks[k] == Task(x, pc) && (pc.SendPrompt? || pc.MarkNotified?)
    requires !(m.Acquire? && m.k == k)
    ensures k in s.tasks && s.tasks[k] == Task(x, pc)
  {
    hide Micro, RoomOutcome, Registers, Unregister;
  }

  /** The acquisition that brought a task to its present point. */
  lemma {:induction false} LastTaken(states: seq<System>, moves: seq<Move>, n: nat, k: Chan, x: Cid, f: Frame, t: Cid, marked: bool)
    returns (m: nat)
    requires IsInterleaving(states, moves) && n < |states| && k in states[n].tasks
    requires states[n].tasks[k] == Task(x, if marked then SendPrompt(f, t) else MarkNotified(f, t))
    ensures m < n && Takes(states, moves, m, k, x, if marked then MarkNotified(f, t) else CheckNotified(f, t))
    ensures marked ==> MarkedAt(states, moves, m + 1, t, x)
    ensures !marked ==> !MarkedAt(states, moves, m, t, x)
    ensures forall j :: m < j <= n ==> k in states[j].tasks && states[j].tasks[k] == states[n].tasks[k]
    decreases n
  {
    assert n > 0;
    var i: nat := n - 1;
    var s, mv, s' := states[i], moves[i], states[n];
    assert Moves(s, mv, s');
    var pc := if marked then SendPrompt(f, t) else MarkNotified(f, t);
    hide Micro, RoomOutcome, Has;
    if mv.Acquire? && mv.k == k {
      MicroPromptChain(s.reg, x, s.identity[x], s.tasks[k].pc, mv.now, mv.rooms');
      m := i;
    } else {
      TaskUnmoved(s, mv, s', k, x, pc);
      hide Moves;
      m := LastTaken(states, moves, i, k, x, f, t, marked);
    }
  }

  /** Two handlers of `x`: if the second looked for a mark after the first had set it, and found none,
      then the session of the pair was cleared in between. */
  lemma MarkWasCleared(states: seq<System>, moves: seq<Move>, m: nat, c: nat, t: Cid, x: Cid)
    requires IsInterleaving(states, moves) && m < c < |moves|
    requires MarkedAt(states, moves, m + 1, t, x) && !MarkedAt(states, moves, c, t, x)
    ensures exists j :: m < j < c && ClearedAt(states, moves, j, t, x)
  {
    assert |states| == |moves| + 1;
    hide *;
    if forall j :: m + 1 <= j < c ==> !ClearedAt(states, moves, j, t, x) {
      MarkLasts(states, moves, m + 1, c, t, x);
    }
  }

  /** Any two call requests for one pair, under every interleaving: `mark` is where the first one's
      handler marked the callee, `check` where the second one's looked. Either a session of the pair
      was cleared in between, or the second had looked before the first marked, on another channel of
      the same caller. */
  lemma PromptsUnderInterleaving(states: seq<System>, moves: seq<Move>, n1: nat, n2: nat, t: Cid, x: Cid)
    returns (k1: Chan, k2: Chan, f1: Frame, f2: Frame, mark: nat, check: nat)
    requires IsInterleaving(states, moves) && n1 < n2 < |moves|
    requires Prompt(t, x) in Logged(states[n1], states[n1 + 1]) && Prompt(t, x) in Logged(states[n2], states[n2 + 1])
    ensures mark < n1 && Takes(states, moves, mark, k1, x, MarkNotified(f1, t))
    ensures check < n2 && Takes(states, moves, check, k2, x, CheckNotified(f2, t))
    ensures || (exists j :: mark < j < check && ClearedAt(states, moves, j, t, x))
            || (check < mark && k1 != k2)
  {
    k1, f1 := PromptIsSent(states, moves, n1, t, x);
    k2, f2 := PromptIsSent(states, moves, n2, t, x);
    mark := LastTaken(states, moves, n1, k1, x, f1, t, true);
    var mark2 := LastTaken(states, moves, n2, k2, x, f2, t, true);
    check := LastTaken(states, moves, mark2, k2, x, f2, t, false);
    assert |states| == |moves| + 1;
    SameChannelWaits(states, moves, n1, n2, k1, k2, x, f1, f2, t, mark, mark2, check);
    hide IsInterleaving, MarkedAt, ClearedAt;
    if mark < check {
      MarkWasCleared(states, moves, mark, check, t, x);
    }
  }

  /** One channel handles one packet at a time. */
  lemma SameChannelWaits(states: seq<System>, moves: seq<Move>, n1: nat, n2: nat, k1: Chan, k2: Chan, x: Cid,
                         f1: Frame, f2: Frame, t: Cid, mark: nat, mark2: nat, check: nat)
    requires IsInterleaving(states, moves) && n1 < n2 < |moves| && mark < n1 && check < mark2 < n2
    requires Takes(states, moves, n1, k1, x, SendPrompt(f1, t)) && Takes(states, moves, n2, k2, x, SendPrompt(f2, t))
    requires Takes(states, moves, mark, k1, x, MarkNotified(f1, t)) && Takes(states, moves, mark2, k2, x, MarkNotified(f2, t))
    requires Takes(states, moves, check, k2, x, CheckNotified(f2, t))
    requires forall j :: mark2 < j <= n2 ==> k2 in states[j].tasks && states[j].tasks[k2] == states[n2].tasks[k2]
    requires forall j :: check < j <= mark2 ==> k2 in states[j].tasks && states[j].tasks[k2] == states[mark2].tasks[k2]
    ensures mark != check && (k1 == k2 ==> mark < check)
  {
    SentIsIdle(states, moves, n1, k1, x, f1, t);
    assert |states| == |moves| + 1;
    hide IsInterleaving;
    forall q | check < q <= n2 ensures k2 in states[q].tasks && !states[q].tasks[k2].pc.Idle? {
      assert q <= mark2 || mark2 < q;
    }
  }

  lemma SentIsIdle(states: seq<System>, moves: seq<Move>, n: nat, k: Chan, x: Cid, f: Frame, t: Cid)
    requires IsInterleaving(states, moves) && n < |moves| && Takes(states, moves, n, k, x, SendPrompt(f, t))
    ensures k in states[n + 1].tasks && states[n + 1].tasks[k].pc.Idle?
  {
    assert Moves(states[n], moves[n], states[n + 1]);
  }

  // ---------------------------------------------------------------- exactly when one request is all

  /** A handler of `x` stands between looking for a mark on `t` and sending its request. */
  ghost predicate Poised(s: System, t: Cid, x: Cid) {
    exists k :: PoisedAt(s, k, t, x)
  }

  predicate PoisedAt(s: System, k: Chan, t: Cid, x: Cid) {
    k in s.tasks && s.tasks[k].c == x && (s.tasks[k].pc.MarkNotified? || s.tasks[k].pc.SendPrompt?) && s.tasks[k].pc.t == t
  }

  /** While the mark stands, no further handler comes to be poised. */
  lemma PoisedBefore(s: System, m: Move, s': System, k: Chan, t: Cid, x: Cid)
    requires Moves(s, m, s') && Has(s.reg.notified, t, x) && PoisedAt(s', k, t, x)
    ensures PoisedAt(s, k, t, x)
  {
    hide Micro, RoomOutcome, Registers, Unregister, Has;
    if m.Acquire? && m.k == k {
      MicroPromptChain(s.reg, x, s.identity[x], s.tasks[k].pc, m.now, m.rooms');
    } else {
      TaskUnmoved(s, m, s', k, x, s'.tasks[k].pc);
    }
  }

  lemma StaysUnpoised(s: System, m: Move, s': System, t: Cid, x: Cid)
    requires Moves(s, m, s') && Has(s.reg.notified, t, x) && !Poised(s, t, x)
    ensures !Poised(s', t, x)
  {
    hide Moves, Has, PoisedAt;
    if k :| PoisedAt(s', k, t, x) {
      PoisedBefore(s, m, s', k, t, x);
    }
  }

  ghost predicate UnpoisedAt(states: seq<System>, moves: seq<Move>, n: nat, t: Cid, x: Cid)
    requires IsInterleaving(states, moves) && n < |states|
  {
    !Poised(states[n], t, x)
  }

  lemma UnpoisedStays(states: seq<System>, moves: seq<Move>, n: nat, t: Cid, x: Cid)
    requires IsInterleaving(states, moves) && n < |moves| && MarkedAt(states, moves, n, t, x) && UnpoisedAt(states, moves, n, t, x)
    ensures UnpoisedAt(states, moves, n + 1, t, x)
  {
    assert Moves(states[n], moves[n], states[n + 1]);
    hide Moves, Has, Poised;
    StaysUnpoised(states[n], moves[n], states[n + 1], t, x);
  }

  lemma {:induction false} UnpoisedLasts(states: seq<System>, moves: seq<Move>, m: nat, n: nat, t: Cid, x: Cid)
    requires IsInterleaving(states, moves) && m <= n <= |moves|
    requires MarkedAt(states, moves, m, t, x) && UnpoisedAt(states, moves, m, t, x)
    requires forall j :: m <= j < n ==> !ClearedAt(states, moves, j, t, x)
    ensures UnpoisedAt(states, moves, n, t, x)
    decreases n - m
  {
    if m < n {
      assert |states| == |moves| + 1;
      hide *;
      MarkStays(states, moves, m, t, x);
      UnpoisedStays(states, moves, m, t, x);
      UnpoisedLasts(states, moves, m + 1, n, t, x);
    }
  }

  /** In a continuation of `h`, every request for the pair has a clearing of it before it. */
  ghost predicate ClearedFirst(h: Trail, h': Trail, t: Cid, x: Cid)
    requires IsTrail(h')
  {
    forall q :: |h.moves| <= q < |h'.moves| && PromptedAt(h'.states, h'.moves, q, t, x) ==>
      ClearedWithin(h'.states, h'.moves, |h.moves|, q, t, x)
  }

  /** Move `q` sends a request of `x` to `t`. */
  ghost predicate PromptedAt(states: seq<System>, moves: seq<Move>, q: nat, t: Cid, x: Cid)
    requires IsInterleaving(states, moves) && q < |moves|
  {
    Prompt(t, x) in Logged(states[q], states[q + 1])
  }

  ghost predicate ClearedWithin(states: seq<System>, moves: seq<Move>, m: nat, n: nat, t: Cid, x: Cid)
    requires IsInterleaving(states, moves) && n <= |moves|
  {
    exists j :: m <= j < n && ClearedAt(states, moves, j, t, x)
  }

  lemma UnpoisedIsCleared(h: Trail, h': Trail, t: Cid, x: Cid)
    requires Continues(h, h') && Has(Last(h).reg.notified, t, x) && !Poised(Last(h), t, x)
    ensures ClearedFirst(h, h', t, x)
  {
    var n := |h.moves|;
    assert h'.states[n] == Last(h) && |h'.states| == |h'.moves| + 1;
    assert MarkedAt(h'.states, h'.moves, n, t, x) && UnpoisedAt(h'.states, h'.moves, n, t, x);
    hide Poised, Has, ClearedAt;
    forall q | n <= q < |h'.moves| && PromptedAt(h'.states, h'.moves, q, t, x)
      ensures ClearedWithin(h'.states, h'.moves, n, q, t, x)
    {
      if !ClearedWithin(h'.states, h'.moves, n, q, t, x) {
        UnpoisedLasts(h'.states, h'.moves, n, q, t, x);
        SenderIsPoised(h'.states, h'.moves, q, t, x);
      }
    }
  }

  lemma SenderIsPoised(states: seq<System>, moves: seq<Move>, q: nat, t: Cid, x: Cid)
    requires IsInterleaving(states, moves) && q < |moves| && Prompt(t, x) in Logged(states[q], states[q + 1])
    ensures !UnpoisedAt(states, moves, q, t, x)
  {
    var k, f := PromptIsSent(states, moves, q, t, x);
    assert PoisedAt(states[q], k, t, x);
  }

  /** A poised handler sends its request, and nothing on the way clears the pair. */
  lemma PoisedSends(h: Trail, k: Chan, t: Cid, x: Cid) returns (h': Trail)
    requires IsTrail(h) && PoisedAt(Last(h), k, t, x)
    ensures Continues(h, h') && !ClearedFirst(h, h', t, x)
  {
    EveryInterleavingKeeps(h.states, h.moves, |h.states| - 1);
    var s, pc := Last(h), Last(h).tasks[k].pc;
    assert TaskOk(s.identity, s.log, x, pc);
    var from := |h.moves|;
    NothingYetFor(h, t, x);
    var j := LockExact.FreshChannel(s.tasks);
    var h1 := Opened(h, t, j);
    hide Inv, Has;
    StillGentle(h, h1, from, t, x);
    var h2, n := FromPoised(h1, k, x, pc, t, from);
    ContinuesOn(h, h1, h2);
    h' := h2;
    SentUncleared(h, h', n, t, x);
  }

  lemma NothingYetFor(h: Trail, t: Cid, x: Cid)
    requires IsTrail(h)
    ensures Gentle(h, |h.moves|, t, x)
  {
  }

  lemma SentUncleared(h: Trail, h': Trail, n: nat, t: Cid, x: Cid)
    requires Gentle(h', |h.moves|, t, x) && |h.moves| <= n < |h'.moves| && PromptedAt(h'.states, h'.moves, n, t, x)
    ensures !ClearedFirst(h, h', t, x)
  {
    hide ClearedAt, PromptedAt;
  }

  /** The handler marks, if it has not yet, and sends, as move `n`. */
  lemma FromPoised(h: Trail, k: Chan, x: Cid, pc: Pc, t: Cid, from: nat) returns (h': Trail, n: nat)
    requires Gentle(h, from, t, x) && AtPc(Last(h), k, x, pc) && (pc.MarkNotified? || pc.SendPrompt?) && pc.t == t
    requires t in Last(h).reg.channels && from <= |h.moves|
    ensures Continues(h, h') && Gentle(h', from, t, x) && from <= n < |h'.moves| && n + 1 < |h'.states|
    ensures Prompt(t, x) in Logged(h'.states[n], h'.states[n + 1])
    decreases Rank(pc)
  {
    if pc.MarkNotified? {
      var r := Last(h).reg;
      var h1 := Step(h, k, x, pc, 0.0, Effect(r.(notified := Mark(r.notified, t, x)), SendPrompt(pc.f, t), []));
      hide Mark, Has;
      StillGentle(h, h1, from, t, x);
      h', n := FromPoised(h1, k, x, SendPrompt(pc.f, t), t, from);
      ContinuesOn(h, h1, h');
    } else {
      n := |h.moves|;
      h' := Step(h, k, x, pc, 0.0, Effect(Last(h).reg, Idle, [Prompt(t, x)]));
      StillGentle(h, h', from, t, x);
      assert h'.states[n] == Last(h) && h'.states[n + 1] == Last(h');
      assert Logged(Last(h), Last(h')) == [Prompt(t, x)];
      assert [Prompt(t, x)][0] in [Prompt(t, x)];
    }
  }

  /** Once `t` is marked for `x`, every later request for the pair, on every continuation, has a
      clearing before it if and only if no handler of `x` is poised to send one. */
  lemma PromptsOnceExactly(h: Trail, t: Cid, x: Cid)
    requires IsTrail(h) && Has(Last(h).reg.notified, t, x)
    ensures (forall h' :: Continues(h, h') ==> ClearedFirst(h, h', t, x)) <==> !Poised(Last(h), t, x)
  {
    if k :| PoisedAt(Last(h), k, t, x) {
      var h' := PoisedSends(h, k, t, x);
      hide ClearedFirst;
    } else {
      forall h' | Continues(h, h') ensures ClearedFirst(h, h', t, x) {
        UnpoisedIsCleared(h, h', t, x);
      }
      hide ClearedFirst;
    }
  }

  // ---------------------------------------------------------------- the two exceptions, as runs

  /** From move `from` on, no move clears the session of `t` and `x`. */
  ghost predicate Gentle(h: Trail, from: nat, t: Cid, x: Cid) {
    IsTrail(h) && forall j :: from <= j < |h.moves| ==> !ClearedAt(h.states, h.moves, j, t, x)
  }

  lemma StillGentle(h: Trail, h': Trail, from: nat, t: Cid, x: Cid)
    requires Gentle(h, from, t, x) && IsTrail(h') && |h'.moves| == |h.moves| + 1
    requires h'.moves == h.moves + [h'.moves[|h.moves|]] && h'.states == h.states + [Last(h')]
    requires !Clears(Last(h), h'.moves[|h.moves|], Last(h'), t, x)
    ensures Gentle(h', from, t, x)
  {
    hide Clears;
    forall j | from <= j < |h'.moves| ensures !ClearedAt(h'.states, h'.moves, j, t, x) {
      if j < |h.moves| {
        assert h'.states[j] == h.states[j] && h'.states[j + 1] == h.states[j + 1] && h'.moves[j] == h.moves[j];
        assert !ClearedAt(h.states, h.moves, j, t, x);
      }
    }
  }

  /** A step of a handler that neither hangs up nor drops a stale client. */
  lemma GentleStep(h: Trail, k: Chan, pc: Pc, e: Effect, from: nat) returns (h': Trail)
    requires Gentle(h, from, 2, 1) && AtPc(Last(h), k, 1, pc) && !pc.Idle? && !pc.RoomAudio? && !pc.RoomLeave?
    requires !pc.HangupClear? && !pc.DropStale? && e.r.addresses == Last(h).reg.addresses
    requires e == Micro(Last(h).reg, 1, Last(h).identity[1], pc, 0.0, Last(h).reg.rooms)
    ensures IsTrail(h') && Continues(h, h') && Last(h') == After(Last(h), k, e) && Gentle(h', from, 2, 1)
    ensures |h'.moves| == |h.moves| + 1 && h'.states == h.states + [Last(h')]
  {
    hide Micro;
    h' := Step(h, k, 1, pc, 0.0, e);
    StillGentle(h, h', from, 2, 1);
  }

  lemma GentleLook(h: Trail, k: Chan, pc: Pc, pc': Pc, from: nat) returns (h': Trail)
    requires Gentle(h, from, 2, 1) && AtPc(Last(h), k, 1, pc) && !pc.Idle? && !pc.RoomAudio? && !pc.RoomLeave?
    requires !pc.HangupClear? && !pc.DropStale?
    requires Micro(Last(h).reg, 1, Last(h).identity[1], pc, 0.0, Last(h).reg.rooms) == Effect(Last(h).reg, pc', [])
    ensures IsTrail(h') && Continues(h, h') && Gentle(h', from, 2, 1) && Last(h') == Last(h).(tasks := Last(h).tasks[k := Task(1, pc')])
  {
    hide Micro, Gentle;
    assert h.states != [] by { GentleStarts(h, from); }
    h' := GentleStep(h, k, pc, Effect(Last(h).reg, pc', []), from);
    assert Last(h).log + [] == Last(h).log;
  }

  lemma GentleStarts(h: Trail, from: nat)
    requires Gentle(h, from, 2, 1)
    ensures IsTrail(h) && h.states != [] && |h.states| == |h.moves| + 1
  {
  }

  /** Nothing between the two yet: the caller's checks end at the prompt. */
  lemma Unknown(r: Tables, a: UserAddress, b: UserAddress)
    requires Two(a, b) && Pair(r, a, b) && r.targets == map[]
    ensures !IsClientInRoom(r, 1, b) && !IsClientInSameCall(r, 1, b) && !Mutual(r, 2, a) && !IsRoomOrTargetFull(r, b)
    ensures Find(r.addresses, b) == Found(2)
  {
    NotAlready(r, a, b, 1);
    PairFinds(r, a, b, 2);
    assert Participants(r, b) == {2};
  }

  /** Client 1's checks towards client 2, up to the point where it marks client 2 as notified. */
  lemma PromptWalk(h: Trail, k: Chan, f: Frame, a: UserAddress, b: UserAddress, from: nat) returns (h': Trail)
    requires Two(a, b) && Gentle(h, from, 2, 1) && Ready(Last(h), a, b) && AtPc(Last(h), k, 1, CheckRoom(f)) && f.key == b
    requires Last(h).reg.targets == map[] && !Has(Last(h).reg.approved, 2, a) && !Has(Last(h).reg.notified, 2, 1)
    ensures IsTrail(h') && Continues(h, h') && Gentle(h', from, 2, 1)
    ensures Last(h') == Last(h).(tasks := Last(h).tasks[k := Task(1, MarkNotified(f, 2))])
  {
    GentleStarts(h, from);
    Unknown(Last(h).reg, a, b);
    hide Gentle, Find, IsClientInRoom, IsClientInSameCall, IsRoomOrTargetFull, Mutual, Two, Has, IsTrail;
    var h1 := GentleLook(h, k, CheckRoom(f), FindTarget(f), from);
    var h2 := GentleLook(h1, k, FindTarget(f), CheckStale(f, 2), from);
    var h3 := GentleLook(h2, k, CheckStale(f, 2), CheckRejected(f, 2), from);
    ContinuesOn(h, h1, h2);
    ContinuesOn(h, h2, h3);
    var h4 := PromptWalkOn(h3, k, f, a, b, from);
    ContinuesOn(h, h3, h4);
    h' := h4;
  }

  lemma PromptWalkOn(h: Trail, k: Chan, f: Frame, a: UserAddress, b: UserAddress, from: nat) returns (h': Trail)
    requires Two(a, b) && Gentle(h, from, 2, 1) && Ready(Last(h), a, b) && AtPc(Last(h), k, 1, CheckRejected(f, 2)) && f.key == b
    requires Last(h).reg.targets == map[] && !Has(Last(h).reg.approved, 2, a) && !Has(Last(h).reg.notified, 2, 1)
    ensures IsTrail(h') && Continues(h, h') && Gentle(h', from, 2, 1)
    ensures Last(h') == Last(h).(tasks := Last(h).tasks[k := Task(1, MarkNotified(f, 2))])
  {
    GentleStarts(h, from);
    var r := Last(h).reg;
    Unknown(r, a, b);
    assert !IsCallRejected(r, 2, a) && !IsCallApproved(r, 2, a) && !HasBeenNotified(r, 2, 1);
    hide Gentle, Find, IsClientInRoom, IsClientInSameCall, IsRoomOrTargetFull, Mutual, Two, Has, IsTrail;
    hide IsCallRejected, IsCallApproved, HasBeenNotified;
    var h1 := GentleLook(h, k, CheckRejected(f, 2), CheckSameCall(f, 2), from);
    var h2 := GentleLook(h1, k, CheckSameCall(f, 2), CheckMutual(f, 2, false), from);
    var h3 := GentleLook(h2, k, CheckMutual(f, 2, false), CheckFull(f, 2), from);
    ContinuesOn(h, h1, h2);
    ContinuesOn(h, h2, h3);
    h' := PromptWalkEnd(h3, k, f, from);
    ContinuesOn(h, h3, h');
  }

  lemma PromptWalkEnd(h: Trail, k: Chan, f: Frame, from: nat) returns (h': Trail)
    requires Gentle(h, from, 2, 1) && AtPc(Last(h), k, 1, CheckFull(f, 2)) && !IsRoomOrTargetFull(Last(h).reg, f.key)
    requires !IsCallApproved(Last(h).reg, 2, Last(h).identity[1]) && !HasBeenNotified(Last(h).reg, 2, 1)
    ensures IsTrail(h') && Continues(h, h') && Gentle(h', from, 2, 1)
    ensures Last(h') == Last(h).(tasks := Last(h).tasks[k := Task(1, MarkNotified(f, 2))])
  {
    GentleStarts(h, from);
    hide Gentle, IsRoomOrTargetFull, Has, IsTrail, IsCallApproved, HasBeenNotified;
    var h1 := GentleLook(h, k, CheckFull(f, 2), CheckApproved(f, 2), from);
    var h2 := GentleLook(h1, k, CheckApproved(f, 2), CheckNotified(f, 2), from);
    h' := GentleLook(h2, k, CheckNotified(f, 2), MarkNotified(f, 2), from);
    ContinuesOn(h, h1, h2);
    ContinuesOn(h, h2, h');
  }

  lemma Marking(h: Trail, k: Chan, f: Frame, from: nat) returns (h': Trail)
    requires Gentle(h, from, 2, 1) && AtPc(Last(h), k, 1, MarkNotified(f, 2))
    ensures IsTrail(h') && Continues(h, h') && Gentle(h', from, 2, 1)
    ensures var s := Last(h); Last(h') == s.(reg := s.reg.(notified := Mark(s.reg.notified, 2, 1)),
                                            tasks := s.tasks[k := Task(1, SendPrompt(f, 2))])
  {
    GentleStarts(h, from);
    var r := Last(h).reg;
    hide Gentle, Mark;
    h' := GentleStep(h, k, MarkNotified(f, 2), Effect(r.(notified := Mark(r.notified, 2, 1)), SendPrompt(f, 2), []), from);
    assert Last(h).log + [] == Last(h).log;
  }

  /** The request goes out, as move `n`. */
  lemma Prompting(h: Trail, k: Chan, f: Frame, from: nat) returns (h': Trail, n: nat)
    requires Gentle(h, from, 2, 1) && AtPc(Last(h), k, 1, SendPrompt(f, 2)) && 2 in Last(h).reg.channels
    ensures IsTrail(h') && Continues(h, h') && Gentle(h', from, 2, 1) && n == |h.moves| && n + 1 == |h'.moves|
    ensures |h'.states| == n + 2 && Prompt(2, 1) in Logged(h'.states[n], h'.states[n + 1])
    ensures var s := Last(h); Last(h') == s.(tasks := s.tasks[k := Task(1, Idle)], log := s.log + [Prompt(2, 1)])
  {
    GentleStarts(h, from);
    hide Gentle;
    n := |h.moves|;
    h' := GentleStep(h, k, SendPrompt(f, 2), Effect(Last(h).reg, Idle, [Prompt(2, 1)]), from);
    assert h'.states[n] == Last(h) && h'.states[n + 1] == Last(h');
    assert Logged(Last(h), Last(h')) == [Prompt(2, 1)];
    assert [Prompt(2, 1)][0] in [Prompt(2, 1)];
  }

  lemma Calling(h: Trail, k: Chan, b: UserAddress, from: nat) returns (h': Trail, f: Frame)
    requires Gentle(h, from, 2, 1) && AtPc(Last(h), k, 1, Idle)
    ensures IsTrail(h') && Continues(h, h') && Gentle(h', from, 2, 1) && f.key == b
    ensures var s := Last(h);
      Last(h') == s.(tasks := s.tasks[k := Task(1, CheckRoom(f))], log := s.log + [AudioFrom(1, b)])
  {
    GentleStarts(h, from);
    f := Frame(b, 1, CALL_PAYLOAD);
    h' := Arrives(h, k, 1, ClientTargetedAudio(b, 1, CALL_PAYLOAD));
    StillGentle(h, h', from, 2, 1);
  }

  lemma NothingYet(h: Trail)
    requires IsTrail(h)
    ensures Gentle(h, |h.moves|, 2, 1)
  {
  }

  /** A whole call by client 1 to client 2, up to its request. */
  lemma CallAndPrompt(h: Trail, a: UserAddress, b: UserAddress, from: nat) returns (h': Trail, n: nat)
    requires Two(a, b) && Gentle(h, from, 2, 1) && Ready(Last(h), a, b) && AtPc(Last(h), 1, 1, Idle)
    requires Last(h).reg.targets == map[] && !Has(Last(h).reg.approved, 2, a) && !Has(Last(h).reg.notified, 2, 1)
    ensures IsTrail(h') && Continues(h, h') && Gentle(h', from, 2, 1) && |h.moves| <= n && n + 1 == |h'.moves| && |h'.states| == n + 2
    ensures Prompt(2, 1) in Logged(h'.states[n], h'.states[n + 1])
  {
    GentleStarts(h, from);
    hide Gentle, IsTrail, Has, Two;
    var h1, f := Calling(h, 1, b, from);
    var h2 := PromptWalk(h1, 1, f, a, b, from);
    var h3 := Marking(h2, 1, f, from);
    h', n := Prompting(h3, 1, f, from);
    ContinuesOn(h, h1, h2);
    ContinuesOn(h, h2, h3);
    ContinuesOn(h, h3, h');
  }

  lemma ClearKeepsNoApproval(r: Tables, a: UserAddress)
    requires !Has(r.approved, 2, a)
    ensures !Has(ClearCallSession(r, 2, a).approved, 2, a)
  {
    ClearFrame(r, 2, a);
    hide ClearCallSession;
  }

  /** The clearing may come before the first request is even sent: a run with two requests for one
      pair and no clearing from the first one on. */
  lemma RequestOutlivesClearing(a: UserAddress, b: UserAddress) returns (h: Trail, n1: nat, n2: nat)
    requires Two(a, b)
    ensures IsTrail(h) && n1 < n2 < |h.moves|
    ensures Prompt(2, 1) in Logged(h.states[n1], h.states[n1 + 1]) && Prompt(2, 1) in Logged(h.states[n2], h.states[n2 + 1])
    ensures forall j :: n1 <= j < n2 ==> !ClearedAt(h.states, h.moves, j, 2, 1)
  {
    var h4, f := ClearedBeforeSending(a, b);
    var from := |h4.moves|;
    NothingYet(h4);
    var h5;
    h5, n1 := Prompting(h4, 1, f, from);
    hide Two, Has;
    h, n2 := CallAndPrompt(h5, a, b, from);
    hide ClearedAt;
    assert h.states[n1] == h5.states[n1] && h.states[n1 + 1] == h5.states[n1 + 1];
  }

  /** Client 1 has marked client 2, client 2 has hung up, and the request is still to be sent. */
  lemma ClearedBeforeSending(a: UserAddress, b: UserAddress) returns (h: Trail, f: Frame)
    requires Two(a, b)
    ensures IsTrail(h) && Ready(Last(h), a, b) && AtPc(Last(h), 1, 1, SendPrompt(f, 2))
    ensures Last(h).reg.targets == map[] && !Has(Last(h).reg.approved, 2, a) && !Has(Last(h).reg.notified, 2, 1)
  {
    var h0 := Opening(a, b);
    var from := |h0.moves|;
    NothingYet(h0);
    var h1;
    h1, f := Calling(h0, 1, b, from);
    hide Gentle, Two;
    var h2 := PromptWalk(h1, 1, f, a, b, from);
    var h3 := Marking(h2, 1, f, from);
    ClearKeepsPair(Last(h3).reg, a, b);
    ClearKeepsNoApproval(Last(h3).reg, a);
    hide ClearCallSession, Has, IsTrail, Mark;
    var at;
    h, at := HangingUp(h3, a, b);
  }

  /** Two channels of one caller may both look before either marks: a run with two requests for one
      pair and no clearing at all since the clients connected. */
  lemma TwoChannelsPromptTwice(a: UserAddress, b: UserAddress) returns (h: Trail, from: nat, n1: nat, n2: nat)
    requires Two(a, b)
    ensures IsTrail(h) && from <= n1 < n2 < |h.moves| && h.states[from].log == []
    ensures Prompt(2, 1) in Logged(h.states[n1], h.states[n1 + 1]) && Prompt(2, 1) in Logged(h.states[n2], h.states[n2 + 1])
    ensures forall j :: from <= j < |h.moves| ==> !ClearedAt(h.states, h.moves, j, 2, 1)
  {
    var h0 := Opening(a, b);
    var h1 := Opened(h0, 1, 3);
    from := |h1.moves|;
    NothingYet(h1);
    assert Last(h1).reg.channels == {1, 2} && h1.states[from] == Last(h1);
    hide Gentle, Two, IsTrail;
    var h2, f1 := Calling(h1, 1, b, from);
    var h3 := PromptWalk(h2, 1, f1, a, b, from);
    var h4, f2 := Calling(h3, 3, b, from);
    var h5 := PromptWalk(h4, 3, f2, a, b, from);
    ContinuesOn(h1, h2, h3);
    ContinuesOn(h1, h3, h4);
    ContinuesOn(h1, h4, h5);
    h, n1, n2 := BothSend(h5, f1, f2, from);
    ContinuesOn(h1, h5, h);
    assert h.states[from] == h1.states[from];
    GentleStarts(h5, from);
    OpenGentle(h, from);
  }

  lemma OpenGentle(h: Trail, from: nat)
    requires Gentle(h, from, 2, 1)
    ensures IsTrail(h) && forall j :: from <= j < |h.moves| ==> !ClearedAt(h.states, h.moves, j, 2, 1)
  {
  }

  lemma BothSend(h: Trail, f1: Frame, f2: Frame, from: nat) returns (h': Trail, n1: nat, n2: nat)
    requires Gentle(h, from, 2, 1) && 2 in Last(h).reg.channels
    requires AtPc(Last(h), 1, 1, MarkNotified(f1, 2)) && AtPc(Last(h), 3, 1, MarkNotified(f2, 2))
    ensures IsTrail(h') && Continues(h, h') && Gentle(h', from, 2, 1) && |h.moves| <= n1 < n2 < |h'.moves| && |h'.states| == |h'.moves| + 1
    ensures Prompt(2, 1) in Logged(h'.states[n1], h'.states[n1 + 1]) && Prompt(2, 1) in Logged(h'.states[n2], h'.states[n2 + 1])
  {
    GentleStarts(h, from);
    hide Gentle, Mark, IsTrail;
    var h1 := Marking(h, 1, f1, from);
    var h2;
    h2, n1 := Prompting(h1, 1, f1, from);
    var h3 := Marking(h2, 3, f2, from);
    h', n2 := Prompting(h3, 3, f2, from);
    ContinuesOn(h, h1, h2);
    ContinuesOn(h2, h3, h');
    ContinuesOn(h, h2, h');
    assert h'.states[n1] == h2.states[n1] && h'.states[n1 + 1] == h2.states[n1 + 1];
  }
}
