/**
 What the room handlers send once they have released the lock: audio of the three loudest to the
 other members, notices of a changed speaker list and of the number of participants to all.
 */
module RoomRelay {
  import opened Basics
  import opened Bytes
  import opened Addresses
  import opened Rooms
  import opened Registry
  import opened RegistryObject

  /** `ms` are the members of a room that the address matches, or nobody if none does. */
  predicate MembersSeen(t: RoomTables, room: UserAddress, ms: seq<Cid>) {
    || (exists key :: key in t.members && Matches(key, room) && ms == t.members[key])
    || ((forall key :: key in t.members ==> !Matches(key, room)) && ms == [])
  }

  lemma MembersOfExactRoom(t: RoomTables, room: UserAddress, ms: seq<Cid>)
    requires Exact(room)
    ensures MembersSeen(t, room, ms) <==> ms == MembersOf(t, room)
  {
    MatchesExactRoom(t, room);
  }

  lemma MatchesExactRoom(t: RoomTables, room: UserAddress)
    requires Exact(room)
    ensures forall key :: key in t.members ==> (Matches(key, room) <==> key == room)
  {
    forall key | key in t.members ensures Matches(key, room) <==> key == room {
      ExactMatchesOnlyItself(key, room);
    }
  }

  /** `to` are the members with a channel, but for the excluded one, in the room's order. */
  ghost predicate ReachedOf(ms: seq<Cid>, channels: set<Cid>, exclude: Option<Cid>, to: seq<Cid>, idx: seq<nat>) {
    && |idx| == |to| && Increasing(idx)
    && (forall i: nat :: i in idx <==> i < |ms| && ms[i] in channels && exclude != Some(ms[i]))
    && (forall k :: 0 <= k < |idx| ==> idx[k] < |ms| && to[k] == ms[idx[k]])
  }

  lemma ReachedExactly(ms: seq<Cid>, channels: set<Cid>, exclude: Option<Cid>, to: seq<Cid>, idx: seq<nat>)
    requires ReachedOf(ms, channels, exclude, to, idx)
    ensures forall d :: d in to <==> d in ms && d in channels && exclude != Some(d)
  {
    forall d | d in ms && d in channels && exclude != Some(d) ensures d in to {
      var i: nat :| i < |ms| && ms[i] == d;
      assert i in idx;
      var k :| 0 <= k < |idx| && idx[k] == i;
      assert to[k] == d;
    }
    forall d | d in to ensures d in ms && d in channels && exclude != Some(d) {
      var k :| 0 <= k < |to| && to[k] == d;
      assert idx[k] in idx;
    }
  }

  lemma ReachedNext(ms: seq<Cid>, c: Cid, channels: set<Cid>, exclude: Option<Cid>, to: seq<Cid>, idx: seq<nat>)
    requires ReachedOf(ms, channels, exclude, to, idx)
    ensures c in channels && exclude != Some(c) ==> ReachedOf(ms + [c], channels, exclude, to + [c], idx + [|ms|])
    ensures !(c in channels && exclude != Some(c)) ==> ReachedOf(ms + [c], channels, exclude, to, idx)
  {
    if c in channels && exclude != Some(c) {
      IncreasingOn(idx, |ms|);
    }
  }

  /** `broadcast_to_room_members` */
  method BroadcastToRoomMembers(reg: ClientRegistry, room: UserAddress, exclude: Option<Cid>)
    returns (to: seq<Cid>, ghost ms: seq<Cid>, ghost idx: seq<nat>)
    ensures MembersSeen(reg.View().rooms, room, ms) && ReachedOf(ms, reg.channels, exclude, to, idx)
    ensures Exact(room) ==>
      forall d :: d in to <==> d in MembersOf(reg.View().rooms, room) && d in reg.channels && exclude != Some(d)
  {
    hide Matches, Exact;
    var cids := reg.RoomMemberIds(room);
    ms, idx, to := cids, [], [];
    for i := 0 to |cids|
      invariant ReachedOf(cids[..i], reg.channels, exclude, to, idx)
    {
      hide ReachedOf;
      ReachedNext(cids[..i], cids[i], reg.channels, exclude, to, idx);
      assert cids[..i + 1] == cids[..i] + [cids[i]];
      if exclude != Some(cids[i]) && cids[i] in reg.channels {
        idx := idx + [i];
        to := to + [cids[i]];
      }
    }
    assert cids[..|cids|] == cids;
    hide MembersSeen, ReachedOf;
    ReachedExactly(ms, reg.channels, exclude, to, idx);
    if Exact(room) {
      MembersOfExactRoom(reg.View().rooms, room, ms);
    }
  }

  /** `process_room_speaker_update`: to whom the audio goes, and to whom the new list of speakers. */
  method ProcessSpeakerUpdate(reg: ClientRegistry, c: Cid, room: UserAddress, v: Verdict)
    returns (audio: seq<Cid>, notice: seq<Cid>)
    ensures !v.isTop ==> audio == [] && notice == []
    ensures !v.changed || v.addrs == [] ==> notice == []
    ensures Exact(room) ==>
      forall d :: d in audio <==> v.isTop && d != c && d in MembersOf(reg.View().rooms, room) && d in reg.channels
    ensures Exact(room) ==> forall d :: d in notice <==>
      v.isTop && v.changed && v.addrs != [] && d in MembersOf(reg.View().rooms, room) && d in reg.channels
  {
    hide MembersOf, Exact, MembersSeen, ReachedOf;
    audio, notice := [], [];
    if !v.isTop {
      return;
    }
    ghost var ms, idx;
    audio, ms, idx := BroadcastToRoomMembers(reg, room, Some(c));
    if v.changed && v.addrs != [] {
      notice, ms, idx := BroadcastToRoomMembers(reg, room, None);
    }
  }

  /** `handle_room_group_audio` and its encrypted twin, with what they send: audio is relayed to the
      other members exactly when its sender is among the loudest. */
  method RelayRoomAudio(reg: ClientRegistry, c: Cid, room: UserAddress, energy: real, now: Time)
    returns (v: Verdict, audio: seq<Cid>, notice: seq<Cid>)
    modifies reg
    ensures Update(old(reg.View()).rooms, old(reg.addresses), room, c, energy, now, reg.View().rooms, v)
    ensures reg.View() == old(reg.View()).(rooms := reg.View().rooms)
    ensures c !in v.top ==> audio == [] && notice == []
    ensures Exact(room) ==>
      forall d :: d in audio <==> c in v.top && d != c && d in MembersOf(old(reg.View()).rooms, room) && d in reg.channels
    ensures Exact(room) ==> forall d :: d in notice <==>
      c in v.top && v.changed && v.addrs != [] && d in MembersOf(old(reg.View()).rooms, room) && d in reg.channels
  {
    v := reg.HearSpeaker(room, c, energy, now);
    assert v.isTop == (c in v.top) && reg.members == old(reg.members);
    audio, notice := ProcessSpeakerUpdate(reg, c, room, v);
  }

  /** `handle_room_join`: everybody in the room, the newcomer included, learns how many there are. */
  method AnnounceJoin(reg: ClientRegistry, c: Cid, room: UserAddress) returns (count: nat, to: seq<Cid>)
    modifies reg
    ensures reg.View() == old(reg.View()).(rooms := Join(old(reg.View()).rooms, c, room))
    ensures count == |MembersOf(reg.View().rooms, room)|
    ensures Exact(room) ==> forall d :: d in to <==> d in MembersOf(reg.View().rooms, room) && d in reg.channels
  {
    hide Exact, MembersSeen, ReachedOf, Join;
    count := reg.JoinRoom(c, room);
    ghost var ms, idx;
    to, ms, idx := BroadcastToRoomMembers(reg, room, None);
  }

  /** `handle_room_leave`: those who stay learn how many they are. */
  method AnnounceLeave(reg: ClientRegistry, c: Cid, room: UserAddress) returns (count: nat, to: seq<Cid>)
    modifies reg
    ensures Leaves(old(reg.View()).rooms, c, room, reg.View().rooms)
    ensures reg.View() == old(reg.View()).(rooms := reg.View().rooms)
    ensures Exact(room) ==> forall d :: d in to <==> d in MembersOf(reg.View().rooms, room) && d in reg.channels
    ensures Exact(room) ==> count == |MembersOf(reg.View().rooms, room)|
    ensures Exact(room) ==> forall d :: d in to ==> d != c && d in MembersOf(old(reg.View()).rooms, room)
  {
    count := reg.LeaveRoom(c, room);
    if Exact(room) {
      MatchesExactRoom(reg.View().rooms, room);
      MatchesExactRoom(old(reg.View()).rooms, room);
    }
    hide Matches;
    ghost var ms, idx;
    to, ms, idx := BroadcastToRoomMembers(reg, room, None);
    if Exact(room) {
      LeavesExactRoom(old(reg.View()).rooms, c, room, reg.View().rooms);
    }
  }

  lemma LeavesExactRoom(t: RoomTables, c: Cid, room: UserAddress, t': RoomTables)
    requires Leaves(t, c, room, t') && Exact(room)
    ensures forall d :: d in MembersOf(t', room) <==> d in MembersOf(t, room) && d != c
  {
    MatchesExactRoom(t, room);
    hide Matches, Exact;
  }
}
