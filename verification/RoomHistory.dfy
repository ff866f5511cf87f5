/**
 Runs of a room's table: speakers are heard, clients join, leave and disappear, in any order. What
 an update chooses is stated against the history of the run, with no reference to the table.
 */
module RoomHistory {
  import opened Basics
  import opened Bytes
  import opened Addresses
  import opened Rooms

  datatype Act =
    | Hear(room: UserAddress, cid: Cid, energy: real, now: Time, book: map<Cid, UserAddress>, verdict: Verdict)
    | Enter(cid: Cid, room: UserAddress)
    | Exit(cid: Cid, room: UserAddress, key: Option<UserAddress>)
    | Vanish(cid: Cid)

  /** One operation on the tables; an exit records which matching room it met first, if any. */
  ghost predicate Acts(t: RoomTables, act: Act, t': RoomTables) {
    match act
    case Hear(room, c, energy, now, book, verdict) => Update(t, book, room, c, energy, now, t', verdict)
    case Enter(c, room) => t' == Join(t, c, room)
    case Exit(c, room, Some(key)) => key in t.members && Matches(key, room) && t' == Leave(t, c, key)
    case Exit(c, room, None) => (forall key :: key in t.members ==> !Matches(key, room)) && t' == t
    case Vanish(c) => t' == Forget(t, c)
  }

  ghost predicate IsRun(run: seq<RoomTables>, acts: seq<Act>) {
    && |run| == |acts| + 1 && run[0].speakers == map[] && run[0].prevTop == map[]
    && forall n :: 0 <= n < |acts| ==> ActsAt(run, acts, n)
  }

  ghost predicate ActsAt(run: seq<RoomTables>, acts: seq<Act>, n: nat)
    requires n < |acts| && |run| == |acts| + 1
  {
    Acts(run[n], acts[n], run[n + 1])
  }

  /** The clock is read under the lock and never runs backwards. */
  predicate InOrder(acts: seq<Act>) {
    forall i, j :: 0 <= i <= j < |acts| && acts[i].Hear? && acts[j].Hear? ==> acts[i].now <= acts[j].now
  }

  // ---------------------------------------------------------------- history

  predicate Updates(act: Act, key: UserAddress) {
    act.Hear? && act.verdict.key == key
  }

  predicate Hears(act: Act, key: UserAddress, s: Cid) {
    Updates(act, key) && act.cid == s
  }

  predicate Departs(act: Act, key: UserAddress, s: Cid) {
    (act.Vanish? && act.cid == s) || (act.Exit? && act.cid == s && act.key == Some(key))
  }

  /** Before step `n`, the room was updated for the last time at step `u`. */
  predicate UpdatedLast(acts: seq<Act>, n: nat, key: UserAddress, u: nat) {
    && u < n <= |acts| && Updates(acts[u], key)
    && forall j :: u < j < n ==> !Updates(acts[j], key)
  }

  /** Before step `n`, `s` was heard in the room for the last time at step `i` and has not left since. */
  predicate HeardLast(acts: seq<Act>, n: nat, key: UserAddress, s: Cid, i: nat) {
    && i < n <= |acts| && Hears(acts[i], key, s)
    && forall j :: i < j < n ==> !Hears(acts[j], key, s) && !Departs(acts[j], key, s)
  }

  /** `s` was heard at step `i`, no more than three seconds before the room's last update. */
  ghost predicate Speaks(acts: seq<Act>, n: nat, key: UserAddress, s: Cid, i: nat) {
    && HeardLast(acts, n, key, s, i)
    && forall u: nat :: UpdatedLast(acts, n, key, u) ==> acts[u].now - acts[i].now <= 3.0
  }

  /** What one operation does to the voices of a room. */
  lemma ActVoices(t: RoomTables, act: Act, t': RoomTables, key: UserAddress)
    requires Acts(t, act, t')
    ensures var v, v' := VoicesOf(t, key), VoicesOf(t', key);
      if Updates(act, key) then
        && (forall s :: s in v' <==> s == act.cid || (s in v && Elapsed(act.now, v[s].lastSeen) <= 3.0))
        && (forall s :: s in v' ==> v'[s] == if s == act.cid then Speaker(act.energy, act.now) else v[s])
      else
        && (forall s :: s in v' <==> s in v && !Departs(act, key, s))
        && (forall s :: s in v' ==> v'[s] == v[s])
  {
    hide Matches, Resolves, IsTop, AddressesOf;
  }

  /** How the history of a speaker grows by one operation. */
  lemma SpeaksStep(acts: seq<Act>, n: nat, key: UserAddress, s: Cid, i: nat)
    requires n < |acts| && InOrder(acts)
    ensures Speaks(acts, n + 1, key, s, i) <==>
      if Hears(acts[n], key, s) then i == n
      else if Updates(acts[n], key) then Speaks(acts, n, key, s, i) && acts[n].now - acts[i].now <= 3.0
      else Speaks(acts, n, key, s, i) && !Departs(acts[n], key, s)
  {
    assert HeardLast(acts, n + 1, key, s, i) <==>
      if Hears(acts[n], key, s) then i == n else HeardLast(acts, n, key, s, i) && !Departs(acts[n], key, s);
    forall u: nat
      ensures UpdatedLast(acts, n + 1, key, u) <==> if Updates(acts[n], key) then u == n else UpdatedLast(acts, n, key, u)
    {
    }
  }

  /** Who counts as active in a room, and with which energy, is decided by the history alone: those
      whose latest audio there, since they last left, is at most three seconds older than the
      room's latest. */
  lemma {:induction false} VoicesAreHistory(run: seq<RoomTables>, acts: seq<Act>, n: nat, key: UserAddress, s: Cid)
    requires IsRun(run, acts) && InOrder(acts) && n <= |acts|
    ensures s in VoicesOf(run[n], key) <==> exists i: nat :: Speaks(acts, n, key, s, i)
    ensures forall i: nat :: Speaks(acts, n, key, s, i) ==>
      s in VoicesOf(run[n], key) && VoicesOf(run[n], key)[s] == Speaker(acts[i].energy, acts[i].now)
  {
    if n > 0 {
      var m := n - 1;
      VoicesAreHistory(run, acts, m, key, s);
      assert ActsAt(run, acts, m);
      ActVoices(run[m], acts[m], run[n], key);
      forall i: nat ensures Speaks(acts, n, key, s, i) <==>
        if Hears(acts[m], key, s) then i == m
        else if Updates(acts[m], key) then Speaks(acts, m, key, s, i) && acts[m].now - acts[i].now <= 3.0
        else Speaks(acts, m, key, s, i) && !Departs(acts[m], key, s)
      {
        SpeaksStep(acts, m, key, s, i);
      }
      hide IsRun, VoicesOf, Acts, ActsAt;
      var v := VoicesOf(run[m], key);
      if s in v {
        var i: nat :| Speaks(acts, m, key, s, i);
        assert v[s].lastSeen == acts[i].now;
        assert acts[m].Hear? ==> acts[i].now <= acts[m].now;
      }
      if Hears(acts[m], key, s) {
        assert Speaks(acts, n, key, s, m);
      }
    }
  }

  /** `addrs` are the registered addresses of `top`, in the same order; the unregistered are skipped. */
  ghost predicate AddressesAre(book: map<Cid, UserAddress>, top: seq<Cid>, addrs: seq<UserAddress>, idx: seq<nat>) {
    && |idx| == |addrs| && Increasing(idx)
    && (forall k: nat :: k in idx <==> k < |top| && top[k] in book)
    && (forall m :: 0 <= m < |idx| ==> idx[m] < |top| && top[idx[m]] in book && addrs[m] == book[top[idx[m]]])
  }

  lemma AddressesOfAppend(book: map<Cid, UserAddress>, cs: seq<Cid>, c: Cid)
    ensures AddressesOf(book, cs + [c]) == AddressesOf(book, cs) + if c in book then [book[c]] else []
  {
    if cs != [] {
      AddressesOfAppend(book, cs[1..], c);
      assert (cs + [c])[1..] == cs[1..] + [c];
    }
  }

  lemma {:induction false} AddressesInOrder(book: map<Cid, UserAddress>, top: seq<Cid>) returns (idx: seq<nat>)
    ensures AddressesAre(book, top, AddressesOf(book, top), idx)
  {
    if top == [] {
      return [];
    }
    var n := |top| - 1;
    idx := AddressesInOrder(book, top[..n]);
    assert top == top[..n] + [top[n]];
    AddressesOfAppend(book, top[..n], top[n]);
    if top[n] in book {
      IncreasingOn(idx, n);
      idx := idx + [n];
    }
  }

  /** At the update of step `n`, `s` is an active speaker of the room, heard at step `i`. */
  ghost predicate ActiveAt(acts: seq<Act>, n: nat, s: Cid, i: nat)
    requires n < |acts| && acts[n].Hear?
  {
    Speaks(acts, n + 1, acts[n].verdict.key, s, i)
  }

  /** Of two active speakers, the first is at least as loud. */
  ghost predicate NoQuieter(acts: seq<Act>, n: nat, s: Cid, s': Cid)
    requires n < |acts| && acts[n].Hear?
  {
    forall i: nat, j: nat :: ActiveAt(acts, n, s, i) && ActiveAt(acts, n, s', j) ==> acts[i].energy >= acts[j].energy
  }

  /** What the update at step `n` promises, against the history up to and including it. */
  ghost predicate ChoosesLoudest(acts: seq<Act>, n: nat)
    requires n < |acts| && acts[n].Hear?
  {
    var top := acts[n].verdict.top;
    && |top| <= 3 && Distinct(top)
    && (forall s :: s in top ==> exists i: nat :: ActiveAt(acts, n, s, i))
    && (|top| < 3 ==> forall s: Cid, i: nat :: ActiveAt(acts, n, s, i) ==> s in top)
    && (forall k, l :: 0 <= k < l < |top| ==> NoQuieter(acts, n, top[k], top[l]))
    && (forall s, s' :: s in top && s' !in top ==> NoQuieter(acts, n, s, s'))
    && (acts[n].verdict.isTop <==> acts[n].cid in top)
  }

  /** The voices `v` are those of the history. */
  ghost predicate VoicesAre(acts: seq<Act>, n: nat, v: Voices)
    requires n < |acts| && acts[n].Hear?
  {
    && (forall s: Cid :: s in v ==> exists i: nat :: ActiveAt(acts, n, s, i))
    && (forall s: Cid, i: nat :: ActiveAt(acts, n, s, i) ==> s in v && v[s].energy == acts[i].energy)
  }

  lemma UpdatedVoices(run: seq<RoomTables>, acts: seq<Act>, n: nat)
    requires IsRun(run, acts) && InOrder(acts) && n < |acts| && acts[n].Hear?
    ensures VoicesAre(acts, n, VoicesOf(run[n + 1], acts[n].verdict.key))
  {
    var key, m := acts[n].verdict.key, n + 1;
    var v := VoicesOf(run[m], key);
    hide IsRun, InOrder, Speaks, VoicesOf;
    forall s: Cid
      ensures s in v ==> exists i: nat :: ActiveAt(acts, n, s, i)
      ensures forall i: nat :: ActiveAt(acts, n, s, i) ==> s in v && v[s].energy == acts[i].energy
    {
      VoicesAreHistory(run, acts, m, key, s);
      if s in v {
        var i: nat :| Speaks(acts, m, key, s, i);
        assert ActiveAt(acts, n, s, i);
      }
    }
  }

  lemma TopOfVoices(acts: seq<Act>, n: nat, v: Voices)
    requires n < |acts| && acts[n].Hear? && VoicesAre(acts, n, v) && IsTop(v, acts[n].verdict.top)
    requires acts[n].verdict.isTop == (acts[n].cid in acts[n].verdict.top)
    ensures ChoosesLoudest(acts, n)
  {
    hide ActiveAt;
    var top := acts[n].verdict.top;
    forall s: Cid, i: nat | |top| < 3 && ActiveAt(acts, n, s, i) ensures s in top {
      AllChosen(v, top, s);
    }
  }

  /** The answer of every update, on every run: three of the active speakers, or all if there are
      fewer; loudest first, nobody left out louder; their registered addresses in that order. */
  lemma TopThreeOfHistory(run: seq<RoomTables>, acts: seq<Act>, n: nat) returns (idx: seq<nat>)
    requires IsRun(run, acts) && InOrder(acts) && n < |acts| && acts[n].Hear?
    ensures ActiveAt(acts, n, acts[n].cid, n)
    ensures ChoosesLoudest(acts, n)
    ensures AddressesAre(acts[n].book, acts[n].verdict.top, acts[n].verdict.addrs, idx)
  {
    var act := acts[n];
    idx := AddressesInOrder(act.book, act.verdict.top);
    SpeaksStep(acts, n, act.verdict.key, act.cid, n);
    UpdatedVoices(run, acts, n);
    assert ActsAt(run, acts, n);
    hide VoicesAre, IsTop, ChoosesLoudest, IsRun, Speaks, AddressesAre, InOrder, Resolves, AddressesOf;
    TopOfVoices(acts, n, VoicesOf(run[n + 1], act.verdict.key));
  }

  // ---------------------------------------------------------------- the change flag

  lemma {:induction false} PreviousIsLast(run: seq<RoomTables>, acts: seq<Act>, n: nat, key: UserAddress)
    requires IsRun(run, acts) && n <= |acts|
    ensures forall u: nat :: UpdatedLast(acts, n, key, u) ==> Previous(run[n], key) == acts[u].verdict.addrs
    ensures (forall u: nat :: !UpdatedLast(acts, n, key, u)) ==> Previous(run[n], key) == []
  {
    if n > 0 {
      var m := n - 1;
      PreviousIsLast(run, acts, m, key);
      assert ActsAt(run, acts, m);
      hide IsRun, ActsAt, Matches, Resolves, IsTop, AddressesOf, Active;
      if acts[m].Hear? {
        var h := acts[m];
        UpdatePromises(run[m], h.book, h.room, h.cid, h.energy, h.now, run[n], h.verdict);
      }
      hide Acts;
      forall u: nat
        ensures UpdatedLast(acts, n, key, u) <==> if Updates(acts[m], key) then u == m else UpdatedLast(acts, m, key, u)
      {
      }
    }
  }

  /** Over whole runs, the change flag is raised exactly when the list differs from the one this
      room's previous update gave, or from none if this is the first. */
  lemma ChangeFlagIsExact(run: seq<RoomTables>, acts: seq<Act>, n: nat)
    requires IsRun(run, acts) && n < |acts| && acts[n].Hear?
    ensures var verdict := acts[n].verdict;
      && (forall u: nat :: UpdatedLast(acts, n, verdict.key, u) ==>
            (verdict.changed <==> verdict.addrs != acts[u].verdict.addrs))
      && ((forall u: nat :: !UpdatedLast(acts, n, verdict.key, u)) ==> (verdict.changed <==> verdict.addrs != []))
  {
    PreviousIsLast(run, acts, n, acts[n].verdict.key);
    assert ActsAt(run, acts, n);
  }
}
