/**
 The registry as the object the daemon keeps behind its lock: each method updates the tables in
 place, and does to their contents exactly what the functions of `Registry` and `Rooms` say.
 */
module RegistryObject {
  import opened Basics
  import opened Bytes
  import opened Addresses
  import opened Rooms
  import opened Registry
  import RateLimit

  // ---------------------------------------------------------------- loops over one table

  /** `retain` on every list of a table. */
  method RetainInAll(m: map<Cid, seq<UserAddress>>, x: UserAddress) returns (r: map<Cid, seq<UserAddress>>)
    ensures r == UnmarkAll(m, x)
  {
    r := m;
    var rest := m.Keys;
    while rest != {}
      invariant rest <= m.Keys && r.Keys == m.Keys
      invariant forall c :: c in m ==> r[c] == if c in rest then m[c] else Drop(m[c], x)
    {
      var c :| c in rest;
      r, rest := r[c := Drop(r[c], x)], rest - {c};
    }
  }

  /** The removal of a client from every room's member list and from every room's speakers. */
  method RetainInRooms(t: RoomTables, c: Cid) returns (t': RoomTables)
    ensures t' == Forget(t, c)
  {
    t' := t;
    var rest := t.members.Keys;
    while rest != {}
      invariant rest <= t.members.Keys == t'.members.Keys && t' == t.(members := t'.members)
      invariant forall k :: k in t.members ==> t'.members[k] == if k in rest then t.members[k] else Drop(t.members[k], c)
    {
      var k :| k in rest;
      t', rest := t'.(members := t'.members[k := Drop(t'.members[k], c)]), rest - {k};
    }
    assert t'.members == Forget(t, c).members;
    rest := t.speakers.Keys;
    while rest != {}
      invariant rest <= t.speakers.Keys == t'.speakers.Keys && t' == t.(members := Forget(t, c).members, speakers := t'.speakers)
      invariant forall k :: k in t.speakers ==> t'.speakers[k] == if k in rest then t.speakers[k] else t.speakers[k] - {c}
    {
      var k :| k in rest;
      t', rest := t'.(speakers := t'.speakers[k := t'.speakers[k] - {c}]), rest - {k};
    }
  }

  /** Whether `clear_call_session` lets the row `k -> a` of the target table stand. */
  predicate KeepsTarget(k: Cid, a: UserAddress, c: Cid, key: UserAddress, found: AddressSearchResult, me: Option<UserAddress>) {
    k != c && found != Found(k) && !MatchesPrefix(a, key) && !(me.Some? && MatchesPrefix(a, me.value))
  }

  function KeptTargets(m: map<Cid, UserAddress>, c: Cid, key: UserAddress, found: AddressSearchResult, me: Option<UserAddress>)
    : (r: map<Cid, UserAddress>)
  {
    map k | k in m && KeepsTarget(k, m[k], c, key, found, me) :: m[k]
  }

  function ClearedList(
    m: map<Cid, seq<UserAddress>>, c: Cid, key: UserAddress, found: AddressSearchResult, me: Option<UserAddress>)
    : (r: map<Cid, seq<UserAddress>>)
  {
    var m1 := Unmark(m, c, key);
    if found.Found? then UnmarkSome(m1, found.cid, me) else m1
  }

  function ClearedNotices(m: map<Cid, seq<Cid>>, c: Cid, found: AddressSearchResult): (r: map<Cid, seq<Cid>>) {
    if found.Found? then Unmark(Unmark(m, found.cid, c), c, found.cid) else m
  }

  /** `clear_call_session`, table by table. */
  lemma SessionCleared(r: Tables, c: Cid, key: UserAddress)
    ensures var found, me := Find(r.addresses, key), Get(r.addresses, c);
      ClearCallSession(r, c, key) == Tables(
        r.connections, r.addresses, KeptTargets(r.targets, c, key, found, me), r.channels,
        ClearedList(r.approved, c, key, found, me), ClearedList(r.rejected, c, key, found, me),
        ClearedNotices(r.notified, c, found), r.rooms, r.lastPong, r.connectedAt)
  {
    hide Find, MatchesPrefix, Has, Unmark;
    assert ClearCallSession(r, c, key).targets == KeptTargets(r.targets, c, key, Find(r.addresses, key), Get(r.addresses, c));
  }

  method RetainTargets(m: map<Cid, UserAddress>, c: Cid, key: UserAddress, found: AddressSearchResult, me: Option<UserAddress>)
    returns (r: map<Cid, UserAddress>)
    ensures r == KeptTargets(m, c, key, found, me)
  {
    hide KeepsTarget;
    r := m;
    var rest := m.Keys;
    while rest != {}
      invariant rest <= m.Keys && r.Keys <= m.Keys && forall k :: k in r ==> r[k] == m[k]
      invariant forall k :: k in m ==> (k in r <==> k in rest || KeepsTarget(k, m[k], c, key, found, me))
    {
      var k :| k in rest;
      if !KeepsTarget(k, m[k], c, key, found, me) {
        r := r - {k};
      }
      rest := rest - {k};
    }
  }

  /** The clients that a change of the tables unregisters. */
  function Departed(r: Tables, r': Tables): (cs: set<Cid>) {
    r.addresses.Keys - r'.addresses.Keys
  }

  class ClientRegistry {
    const limiter: RateLimit.RateLimiter<Cid>
    var connections: set<Cid>
    var addresses: map<Cid, UserAddress>
    var targets: map<Cid, UserAddress>
    var channels: set<Cid>
    var approved: map<Cid, seq<UserAddress>>
    var rejected: map<Cid, seq<UserAddress>>
    var notified: map<Cid, seq<Cid>>
    var members: map<UserAddress, seq<Cid>>
    var speakers: map<UserAddress, map<Cid, Speaker>>
    var lastPong: map<Cid, Time>
    var connectedAt: map<Cid, Time>
    var prevTop: map<UserAddress, seq<UserAddress>>

    ghost function View(): (r: Tables)
      reads this
    {
      Tables(connections, addresses, targets, channels, approved, rejected, notified,
             RoomTables(members, speakers, prevTop), lastPong, connectedAt)
    }

    constructor (limiter: RateLimit.RateLimiter<Cid>)
      ensures View() == EMPTY && this.limiter == limiter
    {
      this.limiter := limiter;
      connections, addresses, targets, channels := {}, map[], map[], {};
      approved, rejected, notified := map[], map[], map[];
      members, speakers, prevTop := map[], map[], map[];
      lastPong, connectedAt := map[], map[];
    }

    /** What `c` and the client it hangs up on have on their lists about each other goes. */
    method ClearLists(c: Cid, key: UserAddress, found: AddressSearchResult, me: Option<UserAddress>)
      modifies this`approved, this`rejected, this`notified
      ensures approved == ClearedList(old(approved), c, key, found, me)
      ensures rejected == ClearedList(old(rejected), c, key, found, me)
      ensures notified == ClearedNotices(old(notified), c, found)
    {
      hide Unmark, Has;
      var as', rs := Unmark(approved, c, key), Unmark(rejected, c, key);
      if found.Found? {
        as', rs := UnmarkSome(as', found.cid, me), UnmarkSome(rs, found.cid, me);
        notified := Unmark(Unmark(notified, found.cid, c), c, found.cid);
      }
      approved, rejected := as', rs;
    }

    /** `clear_call_session` */
    method ClearSession(c: Cid, key: UserAddress)
      modifies this`targets, this`approved, this`rejected, this`notified
      ensures View() == ClearCallSession(old(View()), c, key)
    {
      var found := FindClientByAddress(addresses, key);
      var me := Get(addresses, c);
      SessionCleared(View(), c, key);
      hide ClearCallSession, Find, KeepsTarget, ClearedList, ClearedNotices;
      ClearLists(c, key, found, me);
      targets := RetainTargets(targets, c, key, found, me);
    }

    method RemoveRoutes(c: Cid)
      modifies this`connections, this`addresses, this`targets, this`channels
      ensures connections == Less(old(connections), c) && addresses == Without(old(addresses), c)
      ensures targets == Without(old(targets), c) && channels == Less(old(channels), c)
    {
      hide *;
      connections := Less(connections, c);
      addresses := Without(addresses, c);
      targets := Without(targets, c);
      channels := Less(channels, c);
    }

    method RemoveLists(c: Cid)
      modifies this`approved, this`rejected, this`notified
      ensures approved == Without(old(approved), c) && rejected == Without(old(rejected), c)
      ensures notified == Without(old(notified), c)
    {
      hide *;
      approved := Without(approved, c);
      rejected := Without(rejected, c);
      notified := Without(notified, c);
    }

    method RemoveTimes(c: Cid)
      modifies this`lastPong, this`connectedAt
      ensures lastPong == Without(old(lastPong), c) && connectedAt == Without(old(connectedAt), c)
    {
      hide *;
      lastPong := Without(lastPong, c);
      connectedAt := Without(connectedAt, c);
    }

    method RemoveAllRows(c: Cid)
      modifies this
      ensures View() == RemoveRows(old(View()), c)
    {
      RowsRemoved(View(), c);
      hide RemoveRows, Without, Less;
      RemoveRoutes(c);
      RemoveLists(c);
      RemoveTimes(c);
    }

    /** `unregister_client` */
    method UnregisterClient(c: Cid)
      modifies this, limiter
      ensures View() == Unregister(old(View()), c)
      ensures limiter.buckets == old(limiter.buckets) - {c}
    {
      hide Find, MatchesPrefix, Has, ClearCallSession, UnmarkAll, Forget, RemoveRows;
      var me, target := Get(addresses, c), Get(targets, c);
      RemoveAllRows(c);
      if target.Some? {
        ClearSession(c, target.value);
      }
      if me.Some? {
        approved := RetainInAll(approved, me.value);
        rejected := RetainInAll(rejected, me.value);
      }
      var rooms := RetainInRooms(RoomTables(members, speakers, prevTop), c);
      assert rooms.prevTop == prevTop by { ForgetKeepsTop(RoomTables(members, speakers, prevTop), c); }
      members, speakers := rooms.members, rooms.speakers;
      limiter.RemoveClient(c);
    }

    /** The other clients registered under `address`. */
    method CollectHolders(c: Cid, address: UserAddress) returns (olds: seq<Cid>)
      ensures forall d :: d in olds <==> Holder(View(), c, address, d)
      ensures Distinct(olds)
    {
      olds := [];
      var rest := addresses.Keys;
      while rest != {}
        invariant rest <= addresses.Keys && Distinct(olds)
        invariant forall d :: d in olds <==> Holder(View(), c, address, d) && d !in rest
      {
        var d :| d in rest;
        if d != c && addresses[d] == address {
          olds := olds + [d];
        }
        rest := rest - {d};
      }
    }

    /** Whoever else holds the address is unregistered. */
    method EvictHolders(c: Cid, address: UserAddress) returns (olds: seq<Cid>)
      requires Consistent(View())
      modifies this, limiter
      ensures |olds| <= 1 && forall d :: d in olds <==> Holder(old(View()), c, address, d)
      ensures View() == if olds == [] then old(View()) else Unregister(old(View()), olds[0])
      ensures limiter.buckets == old(limiter.buckets) - if olds == [] then {} else {olds[0]}
    {
      ghost var before := View();
      olds := CollectHolders(c, address);
      AtMostOneHolder(before, c, address, olds);
      hide Consistent, Unregister, Distinct, Holder;
      var i := 0;
      while i < |olds|
        invariant i <= |olds| <= 1
        invariant View() == if i == 0 then before else Unregister(before, olds[0])
        invariant limiter.buckets == old(limiter.buckets) - if i == 0 then {} else {olds[0]}
      {
        UnregisterClient(olds[i]);
        i := i + 1;
      }
    }

    method SeatClient(c: Cid, address: UserAddress, now: Time)
      modifies this`connections, this`addresses, this`connectedAt, this`lastPong
      ensures View() == Seat(old(View()), c, address, now)
    {
      connections := connections + {c};
      addresses := addresses[c := address];
      connectedAt := connectedAt[c := now];
      lastPong := lastPong[c := now];
    }

    /** `register_client` */
    method RegisterClient(c: Cid, address: UserAddress, now: Time)
      requires Consistent(View())
      modifies this, limiter
      ensures Registers(old(View()), c, address, now, View()) && Consistent(View())
      ensures limiter.buckets == old(limiter.buckets) - Departed(old(View()), View())
    {
      ghost var before := View();
      var olds := EvictHolders(c, address);
      SeatClient(c, address, now);
      SeatedAs(before, c, address, now, olds, View());
    }

    /** `mark_call_approved` */
    method MarkCallApproved(target: Cid, caller: UserAddress)
      modifies this
      ensures View() == old(View()).(approved := Mark(old(approved), target, caller))
    {
      var list := if target in approved then approved[target] else [];
      if caller !in list {
        list := list + [caller];
      }
      approved := approved[target := list];
    }

    /** `mark_call_rejected` */
    method MarkCallRejected(target: Cid, caller: UserAddress)
      modifies this
      ensures View() == old(View()).(rejected := Mark(old(rejected), target, caller))
    {
      var list := if target in rejected then rejected[target] else [];
      if caller !in list {
        list := list + [caller];
      }
      rejected := rejected[target := list];
    }

    /** `mark_notified` */
    method MarkNotified(target: Cid, caller: Cid)
      modifies this
      ensures View() == old(View()).(notified := Mark(old(notified), target, caller))
    {
      var list := if target in notified then notified[target] else [];
      if caller !in list {
        list := list + [caller];
      }
      notified := notified[target := list];
    }

    /** `get_participant_count_for_room` */
    method ParticipantCount(key: UserAddress) returns (n: nat)
      ensures n == |Participants(View(), key)|
    {
      hide MatchesPrefix;
      n := 0;
      var rest, seen := addresses.Keys, {};
      while rest != {}
        invariant rest !! seen && rest + seen == addresses.Keys
        invariant n == |Seated(View(), key, seen)|
      {
        var c :| c in rest;
        ghost var grown := Seated(View(), key, seen + {c});
        if MatchesPrefix(addresses[c], key)
          || (c in targets && (MatchesPrefix(targets[c], key) || MatchesPrefix(key, targets[c])))
        {
          assert grown == Seated(View(), key, seen) + {c};
          n := n + 1;
        } else {
          assert grown == Seated(View(), key, seen);
        }
        rest, seen := rest - {c}, seen + {c};
      }
      assert Seated(View(), key, seen) == Participants(View(), key);
    }

    /** `is_client_in_room` */
    predicate InRoom(c: Cid, key: UserAddress)
      reads this
      ensures InRoom(c, key) <==> IsClientInRoom(View(), c, key)
    {
      if c in addresses && MatchesPrefix(addresses[c], key) then true
      else c in targets && (MatchesPrefix(targets[c], key) || MatchesPrefix(key, targets[c]))
    }

    /** `is_client_in_same_call` */
    method InSameCall(c: Cid, key: UserAddress) returns (yes: bool)
      ensures yes == IsClientInSameCall(View(), c, key)
    {
      hide MatchesPrefix;
      if InRoom(c, key) {
        return true;
      }
      if c !in addresses {
        return false;
      }
      var me, rest := addresses[c], addresses.Keys;
      while rest != {}
        invariant rest <= addresses.Keys
        invariant forall d :: d in addresses && d !in rest ==> !PointsBack(View(), d, key, me)
      {
        var d :| d in rest;
        if MatchesPrefix(addresses[d], key) && d in targets
          && (MatchesPrefix(me, targets[d]) || MatchesPrefix(targets[d], me))
        {
          assert PointsBack(View(), d, key, me);
          return true;
        }
        rest := rest - {d};
      }
      return false;
    }

    /** `is_room_or_target_full` */
    method RoomOrTargetFull(key: UserAddress) returns (yes: bool)
      ensures yes == IsRoomOrTargetFull(View(), key)
    {
      hide MatchesPrefix, Participants;
      var n := ParticipantCount(key);
      if n >= 2 {
        return true;
      }
      var rest := addresses.Keys;
      while rest != {}
        invariant rest <= addresses.Keys
        invariant forall d :: d in addresses && d !in rest ==> !BusyElsewhere(View(), d, key)
      {
        var d :| d in rest;
        if MatchesPrefix(addresses[d], key) && d in targets && !MatchesPrefix(targets[d], key) {
          var k := ParticipantCount(targets[d]);
          if k >= 2 {
            assert BusyElsewhere(View(), d, key);
            return true;
          }
        }
        rest := rest - {d};
      }
      return false;
    }

    /** `get_stale_clients` */
    method StaleClients(now: Time) returns (stale: seq<Cid>)
      ensures forall c :: c in stale <==> IsStale(View(), c, now)
    {
      stale := [];
      var rest := lastPong.Keys;
      while rest != {}
        invariant rest <= lastPong.Keys
        invariant forall c :: c in stale <==> IsStale(View(), c, now) && c !in rest
      {
        var c :| c in rest;
        if Elapsed(now, lastPong[c]) >= KEEP_ALIVE_TIMEOUT {
          stale := stale + [c];
        }
        rest := rest - {c};
      }
    }

    /** `join_room`, which reports the size of the room either way. */
    method JoinRoom(c: Cid, room: UserAddress) returns (count: nat)
      modifies this
      ensures View() == old(View()).(rooms := Join(old(View()).rooms, c, room))
      ensures room in members && count == |members[room]|
      ensures c in members[room] <==> c in MembersOf(old(View()).rooms, room) || |MembersOf(old(View()).rooms, room)| < MAX_MEMBERS
    {
      var ms := if room in members then members[room] else [];
      if c !in ms && |ms| < MAX_MEMBERS {
        ms := ms + [c];
      }
      members := members[room := ms];
      count := |ms|;
    }

    /** `leave_room` */
    method LeaveRoom(c: Cid, room: UserAddress) returns (count: nat)
      modifies this
      ensures Leaves(old(View()).rooms, c, room, View().rooms)
      ensures View() == old(View()).(rooms := View().rooms)
      ensures || (exists key :: key in old(members) && Matches(key, room) && View().rooms == Leave(old(View()).rooms, c, key)
                                && count == |MembersOf(View().rooms, key)|)
              || ((forall key :: key in members ==> !Matches(key, room)) && View() == old(View()) && count == 0)
    {
      hide Matches;
      count := 0;
      var rest := members.Keys;
      while rest != {}
        invariant View() == old(View()) && rest <= members.Keys && count == 0
        invariant forall k :: k in members && k !in rest ==> !Matches(k, room)
      {
        var k :| k in rest;
        if Matches(k, room) {
          var left := Drop(members[k], c);
          members := members[k := left];
          if k in speakers {
            speakers := speakers[k := speakers[k] - {c}];
          }
          assert View().rooms == Leave(old(View()).rooms, c, k);
          return |left|;
        }
        rest := rest - {k};
      }
    }

    /** `get_room_member_ids` */
    method RoomMemberIds(room: UserAddress) returns (ms: seq<Cid>)
      ensures || (exists key :: key in members && Matches(key, room) && ms == members[key])
              || ((forall key :: key in members ==> !Matches(key, room)) && ms == [])
    {
      hide Matches;
      ms := [];
      var rest := members.Keys;
      while rest != {}
        invariant rest <= members.Keys && ms == []
        invariant forall k :: k in members && k !in rest ==> !Matches(k, room)
      {
        var k :| k in rest;
        if Matches(k, room) {
          return members[k];
        }
        rest := rest - {k};
      }
    }

    /** `update_speaker_energy` */
    method HearSpeaker(room: UserAddress, c: Cid, energy: real, now: Time) returns (v: Verdict)
      modifies this
      ensures Update(old(View()).rooms, old(addresses), room, c, energy, now, View().rooms, v)
      ensures View() == old(View()).(rooms := View().rooms)
    {
      hide Update;
      var t;
      t, v := UpdateSpeakerEnergy(RoomTables(members, speakers, prevTop), addresses, room, c, energy, now);
      members, speakers, prevTop := t.members, t.speakers, t.prevTop;
    }
  }

  function Less(s: set<Cid>, c: Cid): (r: set<Cid>) {
    s - {c}
  }

  function Without<V>(m: map<Cid, V>, c: Cid): (r: map<Cid, V>) {
    m - {c}
  }

  lemma RowsRemoved(r: Tables, c: Cid)
    ensures RemoveRows(r, c) == Tables(
      Less(r.connections, c), Without(r.addresses, c), Without(r.targets, c), Less(r.channels, c),
      Without(r.approved, c), Without(r.rejected, c), Without(r.notified, c), r.rooms, Without(r.lastPong, c),
      Without(r.connectedAt, c))
  {
  }

  lemma ForgetKeepsTop(t: RoomTables, c: Cid)
    ensures Forget(t, c).prevTop == t.prevTop
  {
  }

  /** The participants among the clients seen so far. */
  function Seated(r: Tables, key: UserAddress, seen: set<Cid>): (cs: set<Cid>) {
    set c | c in seen && c in r.addresses && IsClientInRoom(r, c, key)
  }

  lemma SeatedAs(r: Tables, c: Cid, address: UserAddress, now: Time, olds: seq<Cid>, r': Tables)
    requires Consistent(r) && |olds| <= 1 && forall d :: d in olds <==> Holder(r, c, address, d)
    requires r' == Seat(if olds == [] then r else Unregister(r, olds[0]), c, address, now)
    ensures Registers(r, c, address, now, r') && Consistent(r')
    ensures Departed(r, r') == if olds == [] then {} else {olds[0]}
  {
    if olds != [] {
      assert olds[0] in olds;
      UnregisterFrame(r, olds[0]);
    }
    hide Unregister, Consistent;
    RegisterConsistent(r, c, address, now, r');
  }

  lemma OneEntry(s: seq<Cid>, i: nat, j: nat)
    requires Distinct(s) && i < j < |s|
    ensures s[i] != s[j]
  {
  }

  lemma AtMostOneHolder(r: Tables, c: Cid, address: UserAddress, olds: seq<Cid>)
    requires Consistent(r) && Distinct(olds) && forall d :: d in olds ==> Holder(r, c, address, d)
    ensures |olds| <= 1
  {
    assert forall i :: 0 <= i < |olds| ==> Holder(r, c, address, olds[i]);
    assert forall i, j :: 0 <= i < j < |olds| ==> olds[i] == olds[j];
    hide *;
    var n := |olds|;
    if n > 1 {
      OneEntry(olds, 0, 1);
    }
  }
}
