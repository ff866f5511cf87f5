/**
 Group rooms: membership, per-room speaker energies, and the choice of the three loudest
 active speakers. Times and energies are exact reals.
 */
module Rooms {
  import opened Basics
  import opened Bytes
  import opened Addresses

  const MAX_MEMBERS := 50
  const TOP_K := 3
  const QUIET: real := 3.0

  datatype Speaker = Speaker(energy: real, lastSeen: Time)

  datatype RoomTables = RoomTables(
    members: map<UserAddress, seq<Cid>>,
    speakers: map<UserAddress, map<Cid, Speaker>>,
    prevTop: map<UserAddress, seq<UserAddress>>)

  // ---------------------------------------------------------------- lists

  function Drop<T(==,!new)>(s: seq<T>, x: T): (r: seq<T>)
    ensures forall y :: y in r <==> y in s && y != x
  {
    if s == [] then [] else (if s[0] == x then [] else [s[0]]) + Drop(s[1..], x)
  }

  function Add<T(==,!new)>(s: seq<T>, x: T): (r: seq<T>)
    ensures forall y :: y in r <==> y in s || y == x
  {
    if x in s then s else s + [x]
  }

  // ---------------------------------------------------------------- membership

  function MembersOf(t: RoomTables, room: UserAddress): (ms: seq<Cid>) {
    if room in t.members then t.members[room] else []
  }

  /** `join_room`: the room keyed by exactly this address; a full room is left alone. */
  function Join(t: RoomTables, c: Cid, room: UserAddress): (t': RoomTables) {
    var ms := MembersOf(t, room);
    t.(members := t.members[room := if c in ms || |ms| >= MAX_MEMBERS then ms else ms + [c]])
  }

  predicate Matches(key: UserAddress, room: UserAddress) {
    key == room || MatchesPrefix(key, room)
  }

  /** `leave_room` on the matching room the iteration happens to meet first. */
  function Leave(t: RoomTables, c: Cid, key: UserAddress): (t': RoomTables)
    requires key in t.members
  {
    t.(members := t.members[key := Drop(t.members[key], c)],
       speakers := if key in t.speakers then t.speakers[key := t.speakers[key] - {c}] else t.speakers)
  }

  predicate Leaves(t: RoomTables, c: Cid, room: UserAddress, t': RoomTables) {
    || (exists key :: key in t.members && Matches(key, room) && t' == Leave(t, c, key))
    || ((forall key :: key in t.members ==> !Matches(key, room)) && t' == t)
  }

  /** A client disappears from every room. */
  function Forget(t: RoomTables, c: Cid): (t': RoomTables) {
    t.(members := map room | room in t.members :: Drop(t.members[room], c),
       speakers := map room | room in t.speakers :: t.speakers[room] - {c})
  }

  /** No room ever holds more than the maximum, whoever joins and leaves. */
  predicate WithinLimit(t: RoomTables) {
    forall room :: room in t.members ==> |t.members[room]| <= MAX_MEMBERS
  }

  lemma {:induction false} DropShrinks<T(!new)>(s: seq<T>, x: T)
    ensures |Drop(s, x)| <= |s|
  {
    if s != [] {
      DropShrinks(s[1..], x);
    }
  }

  lemma LimitKept(t: RoomTables, c: Cid, room: UserAddress)
    requires WithinLimit(t)
    ensures WithinLimit(Join(t, c, room)) && WithinLimit(Forget(t, c))
    ensures forall t' :: Leaves(t, c, room, t') ==> WithinLimit(t')
  {
    forall key | key in t.members ensures |Drop(t.members[key], c)| <= MAX_MEMBERS {
      DropShrinks(t.members[key], c);
    }
  }

  /** A join seats the client behind all who were there, unless the room has fifty; it touches no
      other room and no speaker. */
  lemma JoinExactly(t: RoomTables, c: Cid, room: UserAddress)
    ensures var t' := Join(t, c, room); var was, are := MembersOf(t, room), MembersOf(t', room);
      && was <= are <= was + [c] && (forall d :: d in are <==> d in was || (d == c && |was| < 50))
      && (c in was ==> are == was)
      && (forall k :: k != room ==> MembersOf(t', k) == MembersOf(t, k))
      && t'.speakers == t.speakers && t'.prevTop == t.prevTop
  {
  }

  /** Dropping keeps all the others, in their order. */
  lemma {:induction false} DropInOrder<T(!new)>(s: seq<T>, x: T) returns (idx: seq<nat>)
    ensures Increasing(idx) && |idx| == |Drop(s, x)|
    ensures forall i: nat :: i in idx <==> i < |s| && s[i] != x
    ensures forall k :: 0 <= k < |idx| ==> idx[k] < |s| && Drop(s, x)[k] == s[idx[k]]
  {
    if s == [] {
      return [];
    }
    var n := |s| - 1;
    idx := DropInOrder(s[..n], x);
    assert s == s[..n] + [s[n]];
    DropAppend(s[..n], s[n], x);
    if s[n] != x {
      IncreasingOn(idx, n);
      idx := idx + [n];
    }
  }

  lemma DropAppend<T(!new)>(s: seq<T>, y: T, x: T)
    ensures Drop(s + [y], x) == Drop(s, x) + if y == x then [] else [y]
  {
    if s != [] {
      DropAppend(s[1..], y, x);
      assert (s + [y])[1..] == s[1..] + [y];
    }
  }

  /** Leaving takes the client's seat and voice in one matching room, and nothing else anywhere. */
  lemma LeaveExactly(t: RoomTables, c: Cid, key: UserAddress)
    requires key in t.members
    ensures var t' := Leave(t, c, key);
      && (forall k: UserAddress, d: Cid :: d in MembersOf(t', k) <==> d in MembersOf(t, k) && !(k == key && d == c))
      && (forall k: UserAddress, d: Cid :: d in VoicesOf(t', k) <==> d in VoicesOf(t, k) && !(k == key && d == c))
      && (forall k: UserAddress, d: Cid :: d in VoicesOf(t', k) ==> VoicesOf(t', k)[d] == VoicesOf(t, k)[d])
      && t'.prevTop == t.prevTop
  {
  }

  /** Disappearing takes the client's seat and voice in every room, and nothing else. */
  lemma ForgetExactly(t: RoomTables, c: Cid)
    ensures var t' := Forget(t, c);
      && (forall k: UserAddress, d: Cid :: d in MembersOf(t', k) <==> d in MembersOf(t, k) && d != c)
      && (forall k: UserAddress, d: Cid :: d in VoicesOf(t', k) <==> d in VoicesOf(t, k) && d != c)
      && (forall k: UserAddress, d: Cid :: d in VoicesOf(t', k) ==> VoicesOf(t', k)[d] == VoicesOf(t, k)[d])
      && t'.prevTop == t.prevTop
  {
  }

  // ---------------------------------------------------------------- loudest speakers

  type Voices = map<Cid, Speaker>

  function VoicesOf(t: RoomTables, key: UserAddress): (v: Voices) {
    if key in t.speakers then t.speakers[key] else map[]
  }

  /** The speakers of a room once `c` has been heard and the quiet ones are gone. */
  function Active(t: RoomTables, key: UserAddress, c: Cid, energy: real, now: Time): (v: Voices) {
    var v1 := VoicesOf(t, key)[c := Speaker(energy, now)];
    map s | s in v1 && Elapsed(now, v1[s].lastSeen) <= QUIET :: v1[s]
  }

  predicate Distinct<T(==)>(s: seq<T>) {
    forall i, j :: 0 <= i < j < |s| ==> s[i] != s[j]
  }

  /** `top` is a choice of loudest speakers: as many as there are, at most three, loudest first,
      and nobody left out is louder than anybody chosen. */
  predicate IsTop(v: Voices, top: seq<Cid>) {
    && |top| == (if |v| < TOP_K then |v| else TOP_K)
    && (forall i :: 0 <= i < |top| ==> top[i] in v)
    && Distinct(top)
    && (forall i, j :: 0 <= i < j < |top| ==> v[top[i]].energy >= v[top[j]].energy)
    && (forall i, s :: 0 <= i < |top| && s in v && s !in top ==> v[top[i]].energy >= v[s].energy)
  }

  function AddressesOf(book: map<Cid, UserAddress>, cs: seq<Cid>): (r: seq<UserAddress>) {
    if cs == [] then [] else (if cs[0] in book then [book[cs[0]]] else []) + AddressesOf(book, cs[1..])
  }

  function Previous(t: RoomTables, key: UserAddress): (r: seq<UserAddress>) {
    if key in t.prevTop then t.prevTop[key] else []
  }

  /** The room an address denotes: a matching room the iteration meets first, or itself. */
  predicate Resolves(t: RoomTables, room: UserAddress, key: UserAddress) {
    || (key in t.members && Matches(key, room))
    || (key == room && forall k :: k in t.members ==> !Matches(k, room))
  }

  /** A full address denotes the room of exactly that address. */
  lemma ExactRoomIsItself(t: RoomTables, room: UserAddress, key: UserAddress)
    requires Exact(room)
    ensures Resolves(t, room, key) <==> key == room
  {
    ExactMatchesOnlyItself(key, room);
    forall k | k in t.members ensures Matches(k, room) <==> k == room {
      ExactMatchesOnlyItself(k, room);
    }
  }

  /** A short ID denotes any room that starts with it, or itself if there is none. */
  lemma ShortRoomResolves(t: RoomTables, room: UserAddress, key: UserAddress)
    requires 12 <= |room.id| < 64
    ensures Resolves(t, room, key) <==>
      || (key in t.members && room.id <= key.id)
      || (key == room && forall k :: k in t.members ==> !(room.id <= k.id))
  {
    forall k: UserAddress ensures Matches(k, room) <==> room.id <= k.id {
      ShortKeyMatches(k, room);
    }
    hide Matches;
  }

  datatype Verdict = Verdict(key: UserAddress, top: seq<Cid>, addrs: seq<UserAddress>, isTop: bool, changed: bool)

  /** `update_speaker_energy`, up to the orders a hash map and a tie may produce. */
  predicate Update(t: RoomTables, book: map<Cid, UserAddress>, room: UserAddress, c: Cid, energy: real, now: Time,
                   t': RoomTables, r: Verdict)
  {
    var v := Active(t, r.key, c, energy, now);
    && Resolves(t, room, r.key) && IsTop(v, r.top)
    && r.addrs == AddressesOf(book, r.top) && r.isTop == (c in r.top)
    && r.changed == (r.addrs != Previous(t, r.key))
    && t' == t.(speakers := t.speakers[r.key := v],
                prevTop := if r.changed then t.prevTop[r.key := r.addrs] else t.prevTop)
  }

  // ---------------------------------------------------------------- the sort

  datatype Voice = Voice(cid: Cid, energy: real)

  predicate Descending(s: seq<Voice>) {
    forall i, j :: 0 <= i < j < |s| ==> s[i].energy >= s[j].energy
  }

  function Cids(s: seq<Voice>): (cs: seq<Cid>)
    ensures |cs| == |s| && forall i :: 0 <= i < |s| ==> cs[i] == s[i].cid
  {
    seq(|s|, i requires 0 <= i < |s| => s[i].cid)
  }

  /** The list `s` holds each voice of `v` outside `rest` exactly once. */
  predicate Lists(v: Voices, rest: set<Cid>, s: seq<Voice>) {
    && |s| + |rest| == |v|
    && (forall i :: 0 <= i < |s| ==> s[i].cid in v && s[i].cid !in rest && s[i].energy == v[s[i].cid].energy)
    && (forall c :: c in v && c !in rest ==> c in Cids(s))
    && Distinct(Cids(s))
  }

  function InsertAt<T>(s: seq<T>, at: nat, x: T): (r: seq<T>)
    requires at <= |s|
    ensures |r| == |s| + 1 && r[at] == x
    ensures forall i :: 0 <= i < at ==> r[i] == s[i]
    ensures forall i :: at < i < |r| ==> r[i] == s[i - 1]
  {
    s[..at] + [x] + s[at..]
  }

  lemma InsertAtMembers(s: seq<Cid>, at: nat, x: Cid)
    requires at <= |s| && x !in s && Distinct(s)
    ensures Distinct(InsertAt(s, at, x)) && forall y :: y in InsertAt(s, at, x) <==> y in s || y == x
  {
    var r := InsertAt(s, at, x);
    forall y | y in s ensures y in r {
      var i :| 0 <= i < |s| && s[i] == y;
      if i < at {
        assert r[i] == y;
      } else {
        assert r[i + 1] == y;
      }
    }
    forall i, j | 0 <= i < j < |r| ensures r[i] != r[j] {
      var i', j' := if i < at then i else i - 1, if j < at then j else j - 1;
      if i != at && j != at {
        assert r[i] == s[i'] && r[j] == s[j'];
      }
    }
  }

  method Insert(s: seq<Voice>, x: Voice) returns (r: seq<Voice>, at: nat)
    requires Descending(s)
    ensures at <= |s| && r == InsertAt(s, at, x) && Descending(r)
  {
    at := 0;
    while at < |s| && s[at].energy >= x.energy
      invariant at <= |s| && forall i :: 0 <= i < at ==> s[i].energy >= x.energy
    {
      at := at + 1;
    }
    r := InsertAt(s, at, x);
  }

  lemma InsertLists(v: Voices, rest: set<Cid>, s: seq<Voice>, c: Cid, at: nat)
    requires c in rest && rest <= v.Keys && Lists(v, rest, s) && at <= |s|
    ensures Lists(v, rest - {c}, InsertAt(s, at, Voice(c, v[c].energy)))
  {
    var r := InsertAt(s, at, Voice(c, v[c].energy));
    assert forall i :: 0 <= i < |s| ==> Cids(s)[i] == s[i].cid;
    assert c !in Cids(s);
    assert Cids(r) == InsertAt(Cids(s), at, c);
    InsertAtMembers(Cids(s), at, c);
    hide Distinct;
    forall i | 0 <= i < |r|
      ensures r[i].cid in v && r[i].cid !in rest - {c} && r[i].energy == v[r[i].cid].energy
    {
      if i < at {
        assert r[i] == s[i];
      } else if i > at {
        assert r[i] == s[i - 1];
      }
    }
  }

  /** Collect the speakers in whatever order the map yields them and sort by energy, loudest first. */
  method Sorted(v: Voices) returns (s: seq<Voice>)
    ensures Descending(s) && Lists(v, {}, s)
  {
    s := [];
    var rest := v.Keys;
    assert |v.Keys| == |v|;
    while rest != {}
      invariant rest <= v.Keys && Descending(s) && Lists(v, rest, s)
    {
      hide Lists, Descending;
      var c :| c in rest;
      var r, at := Insert(s, Voice(c, v[c].energy));
      InsertLists(v, rest, s, c, at);
      s, rest := r, rest - {c};
    }
  }

  lemma FirstAreTop(v: Voices, s: seq<Voice>, n: nat)
    requires Descending(s) && Lists(v, {}, s) && n == if |v| < TOP_K then |v| else TOP_K
    ensures n <= |s| && IsTop(v, Cids(s)[..n])
  {
    var cs := Cids(s);
    var top := cs[..n];
    forall i, x | 0 <= i < |top| && x in v && x !in top ensures v[top[i]].energy >= v[x].energy {
      var j :| 0 <= j < |cs| && cs[j] == x;
      assert j >= n;
    }
  }

  /** The loop over room keys that stops at the first match. */
  method ResolveKey(t: RoomTables, room: UserAddress) returns (key: UserAddress)
    ensures Resolves(t, room, key)
  {
    hide MatchesPrefix;
    var rest := t.members.Keys;
    while rest != {}
      invariant rest <= t.members.Keys
      invariant forall k :: k in t.members && k !in rest ==> !Matches(k, room)
    {
      var k :| k in rest;
      if Matches(k, room) {
        return k;
      }
      rest := rest - {k};
    }
    key := room;
  }

  /** `update_speaker_energy`. */
  method UpdateSpeakerEnergy(
    t: RoomTables, book: map<Cid, UserAddress>, room: UserAddress, c: Cid, energy: real, now: Time)
    returns (t': RoomTables, r: Verdict)
    ensures Update(t, book, room, c, energy, now, t', r)
  {
    hide Resolves, Active, AddressesOf, IsTop, Lists, Descending;
    var key := ResolveKey(t, room);
    var v := Active(t, key, c, energy, now);
    var s := Sorted(v);
    var n := if |v| < TOP_K then |v| else TOP_K;
    FirstAreTop(v, s, n);
    var top := Cids(s)[..n];
    var addrs := AddressesOf(book, top);
    var changed := if key in t.prevTop then t.prevTop[key] != addrs else addrs != [];
    t' := t.(speakers := t.speakers[key := v]);
    if changed {
      t' := t'.(prevTop := t'.prevTop[key := addrs]);
    }
    r := Verdict(key, top, addrs, c in top, changed);
  }

  // ---------------------------------------------------------------- what an update promises

  /** Everything the choice promises, in terms of who spoke when. */
  lemma UpdatePromises(t: RoomTables, book: map<Cid, UserAddress>, room: UserAddress, c: Cid, energy: real,
                       now: Time, t': RoomTables, r: Verdict)
    requires Update(t, book, room, c, energy, now, t', r)
    ensures r.key in t'.speakers
    ensures var v := t'.speakers[r.key];
      && c in v && v[c] == Speaker(energy, now)
      && |r.top| == (if |v| < TOP_K then |v| else TOP_K)
      && (forall i :: 0 <= i < |r.top| ==> r.top[i] in v && now - v[r.top[i]].lastSeen <= QUIET)
      && (forall i, s :: 0 <= i < |r.top| && s in v && s !in r.top ==> v[r.top[i]].energy >= v[s].energy)
      && (r.isTop <==> c in r.top)
    ensures !r.isTop ==> |r.top| == TOP_K
    ensures Previous(t', r.key) == r.addrs
    ensures forall k :: k != r.key ==> Previous(t', k) == Previous(t, k)
  {
    var v := Active(t, r.key, c, energy, now);
    if |v| < TOP_K {
      AllChosen(v, r.top, c);
    } else if |v| == TOP_K {
      AllChosen(v, r.top, c);
    }
  }

  /** With at most three active speakers, all of them are chosen. */
  lemma AllChosen(v: Voices, top: seq<Cid>, c: Cid)
    requires IsTop(v, top) && |v| <= TOP_K && c in v
    ensures c in top
  {
    DistinctCount(top);
    var chosen := AsSet(top);
    assert chosen <= v.Keys && |chosen| == |v.Keys|;
    if c !in chosen {
      SubsetSmaller(chosen, v.Keys, c);
    }
  }

  lemma {:induction false} DistinctCount(s: seq<Cid>)
    requires Distinct(s)
    ensures |AsSet(s)| == |s|
  {
    if s != [] {
      var init := s[..|s| - 1];
      DistinctCount(init);
      AsSetAppend(init, s[|s| - 1]);
      assert s == init + [s[|s| - 1]];
    }
  }

  lemma {:induction false} SubsetSmaller(a: set<Cid>, b: set<Cid>, x: Cid)
    requires a <= b && x in b && x !in a
    ensures |a| < |b|
    decreases |b|
  {
    if a != {} {
      var y :| y in a;
      SubsetSmaller(a - {y}, b - {y}, x);
    }
  }
}
