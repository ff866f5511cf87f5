/**
 The daemon's client registry: its tables as one value, the functions that query and update them,
 and the invariants that every update keeps.
 */
module Registry {
  import opened Basics
  import opened Bytes
  import opened Addresses
  import opened Rooms

  const KEEP_ALIVE_TIMEOUT: real := 30.0

  datatype Tables = Tables(
    connections: set<Cid>,
    addresses: map<Cid, UserAddress>,
    targets: map<Cid, UserAddress>,
    channels: set<Cid>,
    approved: map<Cid, seq<UserAddress>>,
    rejected: map<Cid, seq<UserAddress>>,
    notified: map<Cid, seq<Cid>>,
    rooms: RoomTables,
    lastPong: map<Cid, Time>,
    connectedAt: map<Cid, Time>)

  const EMPTY := Tables({}, map[], map[], {}, map[], map[], map[], RoomTables(map[], map[], map[]), map[], map[])

  // ---------------------------------------------------------------- tables of lists

  function Get<K, V>(m: map<K, V>, k: K): (r: Option<V>) {
    if k in m then Some(m[k]) else None
  }

  predicate Has<T(==,!new)>(m: map<Cid, seq<T>>, c: Cid, x: T) {
    c in m && x in m[c]
  }

  function Mark<T(==,!new)>(m: map<Cid, seq<T>>, c: Cid, x: T): (r: map<Cid, seq<T>>)
    ensures forall d: Cid, y: T :: Has(r, d, y) <==> Has(m, d, y) || (d == c && y == x)
    ensures r.Keys == m.Keys + {c}
  {
    m[c := Add(if c in m then m[c] else [], x)]
  }

  function Unmark<T(==,!new)>(m: map<Cid, seq<T>>, c: Cid, x: T): (r: map<Cid, seq<T>>)
    ensures forall d: Cid, y: T :: Has(r, d, y) <==> Has(m, d, y) && !(d == c && y == x)
    ensures r.Keys == m.Keys
  {
    if c in m then m[c := Drop(m[c], x)] else m
  }

  function UnmarkAll<T(==,!new)>(m: map<Cid, seq<T>>, x: T): (r: map<Cid, seq<T>>)
    ensures forall d: Cid, y: T :: Has(r, d, y) <==> Has(m, d, y) && y != x
    ensures r.Keys == m.Keys
  {
    map c | c in m :: Drop(m[c], x)
  }

  function UnmarkSome<T(==,!new)>(m: map<Cid, seq<T>>, c: Cid, x: Option<T>): (r: map<Cid, seq<T>>) {
    match x case None => m case Some(y) => Unmark(m, c, y)
  }

  // ---------------------------------------------------------------- queries

  predicate IsCallApproved(r: Tables, target: Cid, caller: UserAddress) {
    Has(r.approved, target, caller)
  }

  predicate IsCallRejected(r: Tables, target: Cid, caller: UserAddress) {
    Has(r.rejected, target, caller)
  }

  predicate HasBeenNotified(r: Tables, target: Cid, caller: Cid) {
    Has(r.notified, target, caller)
  }

  predicate IsStale(r: Tables, c: Cid, now: Time) {
    c in r.lastPong && Elapsed(now, r.lastPong[c]) >= KEEP_ALIVE_TIMEOUT
  }

  /** A client's chosen target overlaps `key`, in either direction. */
  predicate TargetOverlaps(r: Tables, c: Cid, key: UserAddress) {
    c in r.targets && (MatchesPrefix(r.targets[c], key) || MatchesPrefix(key, r.targets[c]))
  }

  predicate IsClientInRoom(r: Tables, c: Cid, key: UserAddress) {
    (c in r.addresses && MatchesPrefix(r.addresses[c], key)) || TargetOverlaps(r, c, key)
  }

  /** The registered clients that take part in the call or room `key`. */
  function Participants(r: Tables, key: UserAddress): (cs: set<Cid>) {
    set c | c in r.addresses && IsClientInRoom(r, c, key)
  }

  predicate PointsBack(r: Tables, c: Cid, key: UserAddress, me: UserAddress) {
    && c in r.addresses && MatchesPrefix(r.addresses[c], key) && c in r.targets
    && (MatchesPrefix(me, r.targets[c]) || MatchesPrefix(r.targets[c], me))
  }

  predicate IsClientInSameCall(r: Tables, c: Cid, key: UserAddress) {
    || IsClientInRoom(r, c, key)
    || (c in r.addresses && exists d :: d in r.addresses && PointsBack(r, d, key, r.addresses[c]))
  }

  predicate BusyElsewhere(r: Tables, c: Cid, key: UserAddress) {
    && c in r.addresses && MatchesPrefix(r.addresses[c], key) && c in r.targets
    && !MatchesPrefix(r.targets[c], key) && |Participants(r, r.targets[c])| >= 2
  }

  predicate IsRoomOrTargetFull(r: Tables, key: UserAddress) {
    |Participants(r, key)| >= 2 || exists c :: c in r.addresses && BusyElsewhere(r, c, key)
  }

  // ---------------------------------------------------------------- updates

  /** `clear_call_session`: ends whatever `c` has with the client that `key` denotes. */
  function ClearCallSession(r: Tables, c: Cid, key: UserAddress): (r': Tables) {
    var found := Find(r.addresses, key);
    var me := Get(r.addresses, c);
    var approved1 := Unmark(r.approved, c, key);
    var rejected1 := Unmark(r.rejected, c, key);
    r.(targets := map k | k in r.targets && k != c && found != Found(k)
                          && !MatchesPrefix(r.targets[k], key)
                          && !(me.Some? && MatchesPrefix(r.targets[k], me.value)) :: r.targets[k],
       approved := if found.Found? then UnmarkSome(approved1, found.cid, me) else approved1,
       rejected := if found.Found? then UnmarkSome(rejected1, found.cid, me) else rejected1,
       notified := if found.Found? then Unmark(Unmark(r.notified, found.cid, c), c, found.cid) else r.notified)
  }

  /** The tables without the rows keyed by `c`. */
  function RemoveRows(r: Tables, c: Cid): (r': Tables) {
    r.(connections := r.connections - {c}, addresses := r.addresses - {c}, targets := r.targets - {c},
       channels := r.channels - {c}, approved := r.approved - {c}, rejected := r.rejected - {c},
       notified := r.notified - {c}, lastPong := r.lastPong - {c}, connectedAt := r.connectedAt - {c})
  }

  /** `unregister_client`: drop the rows, end the call its target names, forget its address. */
  function Unregister(r: Tables, c: Cid): (r': Tables) {
    var r1 := RemoveRows(r, c);
    var r2 := if c in r.targets then ClearCallSession(r1, c, r.targets[c]) else r1;
    var r3 := if c in r.addresses
      then r2.(approved := UnmarkAll(r2.approved, r.addresses[c]), rejected := UnmarkAll(r2.rejected, r.addresses[c]))
      else r2;
    r3.(rooms := Forget(r3.rooms, c))
  }

  predicate UniqueAddresses(r: Tables) {
    forall c, d :: c in r.addresses && d in r.addresses && r.addresses[c] == r.addresses[d] ==> c == d
  }

  /** The other client that already holds this address, if any. */
  predicate Holder(r: Tables, c: Cid, address: UserAddress, old': Cid) {
    old' in r.addresses && old' != c && r.addresses[old'] == address
  }

  function Seat(r: Tables, c: Cid, address: UserAddress, now: Time): (r': Tables) {
    r.(connections := r.connections + {c}, addresses := r.addresses[c := address],
       connectedAt := r.connectedAt[c := now], lastPong := r.lastPong[c := now])
  }

  /** `register_client`: the previous holder of the address is unregistered first. */
  ghost predicate Registers(r: Tables, c: Cid, address: UserAddress, now: Time, r': Tables) {
    || (exists old' :: Holder(r, c, address, old') && r' == Seat(Unregister(r, old'), c, address, now))
    || ((forall old' :: !Holder(r, c, address, old')) && r' == Seat(r, c, address, now))
  }

  // ---------------------------------------------------------------- invariants

  /** What holds of the registry at all times. */
  predicate Consistent(r: Tables) {
    && UniqueAddresses(r)
    && r.connections == r.addresses.Keys == r.connectedAt.Keys
    && r.addresses.Keys <= r.lastPong.Keys
    && WithinLimit(r.rooms)
  }

  /** No trace of a client: no row, room seat or speaker entry for its id, and its address on
      nobody's approval or rejection list. */
  predicate Gone(r: Tables, c: Cid, address: UserAddress) {
    && c !in r.connections && c !in r.addresses && c !in r.targets && c !in r.channels
    && c !in r.approved && c !in r.rejected && c !in r.notified && c !in r.lastPong && c !in r.connectedAt
    && (forall room :: room in r.rooms.members ==> c !in r.rooms.members[room])
    && (forall room :: room in r.rooms.speakers ==> c !in r.rooms.speakers[room])
    && (forall d :: !Has(r.approved, d, address) && !Has(r.rejected, d, address))
  }

  lemma ClearFrame(r: Tables, c: Cid, key: UserAddress)
    ensures var r' := ClearCallSession(r, c, key);
      && r'.connections == r.connections && r'.addresses == r.addresses && r'.channels == r.channels
      && r'.rooms == r.rooms && r'.lastPong == r.lastPong && r'.connectedAt == r.connectedAt
      && r'.approved.Keys == r.approved.Keys && r'.rejected.Keys == r.rejected.Keys
      && r'.notified.Keys == r.notified.Keys && r'.targets.Keys <= r.targets.Keys
      && (forall k :: k in r'.targets ==> r'.targets[k] == r.targets[k])
      && (forall d: Cid, a: UserAddress :: Has(r'.approved, d, a) ==> Has(r.approved, d, a))
      && (forall d: Cid, a: UserAddress :: Has(r'.rejected, d, a) ==> Has(r.rejected, d, a))
      && (forall d: Cid, x: Cid :: Has(r'.notified, d, x) ==> Has(r.notified, d, x))
  {
    hide MatchesPrefix, Find, Has;
  }

  /** What clearing a session takes away, and that it takes away nothing else: what the two ends
      hold about each other, and every target that denotes one of them. */
  lemma ClearExactly(r: Tables, c: Cid, key: UserAddress)
    ensures var r' := ClearCallSession(r, c, key); var found, me := Find(r.addresses, key), Get(r.addresses, c);
      && (forall d: Cid, a: UserAddress :: Has(r'.approved, d, a) <==>
            Has(r.approved, d, a) && !(d == c && a == key) && !(found == Found(d) && me == Some(a)))
      && (forall d: Cid, a: UserAddress :: Has(r'.rejected, d, a) <==>
            Has(r.rejected, d, a) && !(d == c && a == key) && !(found == Found(d) && me == Some(a)))
      && (forall d: Cid, x: Cid :: Has(r'.notified, d, x) <==>
            Has(r.notified, d, x) && !(d == c && found == Found(x)) && !(x == c && found == Found(d)))
      && (forall k :: k in r'.targets <==>
            && k in r.targets && k != c && found != Found(k) && !MatchesPrefix(r.targets[k], key)
            && (me.Some? ==> !MatchesPrefix(r.targets[k], me.value)))
  {
    hide MatchesPrefix, Find, Has;
  }

  /** Once the rows of `c` are gone, clearing its session touches no approvals or rejections. */
  lemma ClearAfterRemoval(r: Tables, c: Cid, key: UserAddress)
    requires c !in r.addresses && c !in r.approved && c !in r.rejected
    ensures var r' := ClearCallSession(r, c, key); r'.approved == r.approved && r'.rejected == r.rejected
  {
    hide MatchesPrefix, Find, Has;
  }

  /** A table of lists without a client: neither its row nor its address on any other row. */
  function Purged(m: map<Cid, seq<UserAddress>>, c: Cid, me: Option<UserAddress>): (r: map<Cid, seq<UserAddress>>) {
    if me.Some? then UnmarkAll(m - {c}, me.value) else m - {c}
  }

  lemma UnregisterLists(r: Tables, c: Cid)
    ensures var r' := Unregister(r, c); var me := Get(r.addresses, c);
      r'.approved == Purged(r.approved, c, me) && r'.rejected == Purged(r.rejected, c, me)
  {
    hide MatchesPrefix, Find, ClearCallSession, Forget, Has, UnmarkAll;
    var r1 := RemoveRows(r, c);
    if c in r.targets {
      ClearAfterRemoval(r1, c, r.targets[c]);
    }
  }

  /** Of other clients' lists, unregistering takes away exactly the client's own address. */
  lemma UnregisterExactly(r: Tables, c: Cid)
    ensures var r' := Unregister(r, c);
      && (forall d: Cid, a: UserAddress :: Has(r'.approved, d, a) <==>
            Has(r.approved, d, a) && d != c && Get(r.addresses, c) != Some(a))
      && (forall d: Cid, a: UserAddress :: Has(r'.rejected, d, a) <==>
            Has(r.rejected, d, a) && d != c && Get(r.addresses, c) != Some(a))
  {
    UnregisterLists(r, c);
    HasWithout(r.approved, c);
    HasWithout(r.rejected, c);
    hide Unregister, Has, UnmarkAll;
  }

  /** What else unregistering takes away: the target of the client its own target denotes and every
      target that denotes the same; that client's note of a prompt about it; its seat and voice in
      every room. */
  lemma UnregisterTargets(r: Tables, c: Cid)
    ensures var r' := Unregister(r, c);
      forall k :: k in r'.targets <==>
        && k in r.targets && k != c
        && (c in r.targets ==> Find(r.addresses - {c}, r.targets[c]) != Found(k) && !MatchesPrefix(r.targets[k], r.targets[c]))
  {
    hide MatchesPrefix, Find, Forget, Has, UnmarkAll;
    if c in r.targets {
      var r1 := RemoveRows(r, c);
      ClearExactly(r1, c, r.targets[c]);
      hide ClearCallSession;
    }
  }

  lemma UnregisterNotified(r: Tables, c: Cid)
    ensures var r' := Unregister(r, c);
      forall d: Cid, x: Cid :: Has(r'.notified, d, x) <==>
        && Has(r.notified, d, x) && d != c
        && !(x == c && c in r.targets && Find(r.addresses - {c}, r.targets[c]) == Found(d))
  {
    hide MatchesPrefix, Find, Forget, UnmarkAll;
    HasWithout(r.notified, c);
    hide Has;
    if c in r.targets {
      var r1 := RemoveRows(r, c);
      ClearExactly(r1, c, r.targets[c]);
      FindAvoids(r1.addresses, r.targets[c], c);
      hide ClearCallSession;
    }
  }

  lemma FindAvoids(book: map<Cid, UserAddress>, key: UserAddress, c: Cid)
    requires c !in book
    ensures Find(book, key) != Found(c)
  {
    assert c !in Holders(book, key);
  }

  /** Unregistering leaves nothing behind. */
  lemma UnregisterLeavesNothing(r: Tables, c: Cid)
    requires c in r.addresses
    ensures Gone(Unregister(r, c), c, r.addresses[c])
  {
    hide MatchesPrefix, Find;
    var r1 := RemoveRows(r, c);
    if c in r.targets {
      ClearFrame(r1, c, r.targets[c]);
    }
  }

  lemma HasWithout<T(!new)>(m: map<Cid, seq<T>>, c: Cid)
    ensures forall d: Cid, y: T :: Has(m - {c}, d, y) <==> Has(m, d, y) && d != c
  {
  }

  lemma RemoveRowsFrame(r: Tables, c: Cid)
    ensures var r' := RemoveRows(r, c);
      && (forall d: Cid, a: UserAddress :: Has(r'.approved, d, a) ==> Has(r.approved, d, a))
      && (forall d: Cid, x: Cid :: Has(r'.notified, d, x) ==> Has(r.notified, d, x))
  {
    HasWithout(r.approved, c);
    HasWithout(r.notified, c);
    hide Has;
  }

  lemma UnregisterFrame(r: Tables, c: Cid)
    ensures var r' := Unregister(r, c);
      && r'.connections == r.connections - {c} && r'.addresses == r.addresses - {c}
      && r'.channels == r.channels - {c}
      && r'.lastPong == r.lastPong - {c} && r'.connectedAt == r.connectedAt - {c}
      && r'.approved.Keys == r.approved.Keys - {c} && r'.targets.Keys <= r.targets.Keys - {c}
      && r'.notified.Keys == r.notified.Keys - {c}
      && r'.rooms == Forget(r.rooms, c)
      && (forall k :: k in r'.targets ==> r'.targets[k] == r.targets[k])
      && (forall d: Cid, a: UserAddress :: Has(r'.approved, d, a) ==> Has(r.approved, d, a))
      && (forall d: Cid, x: Cid :: Has(r'.notified, d, x) ==> Has(r.notified, d, x))
  {
    hide MatchesPrefix, Find, ClearCallSession, Forget, Has, UnmarkAll;
    var r1 := RemoveRows(r, c);
    RemoveRowsFrame(r, c);
    if c in r.targets {
      ClearFrame(r1, c, r.targets[c]);
    }
  }

  lemma UnregisterConsistent(r: Tables, c: Cid)
    requires Consistent(r)
    ensures Consistent(Unregister(r, c))
  {
    UnregisterFrame(r, c);
    LimitKept(r.rooms, c, UserAddress(""));
    hide Unregister;
  }

  lemma SeatConsistent(r: Tables, c: Cid, address: UserAddress, now: Time)
    requires Consistent(r) && forall old' :: !Holder(r, c, address, old')
    ensures Consistent(Seat(r, c, address, now))
  {
    hide WithinLimit;
    var r' := Seat(r, c, address, now);
    forall d, e | d in r'.addresses && e in r'.addresses && r'.addresses[d] == r'.addresses[e] ensures d == e {
      assert !Holder(r, c, address, d) && !Holder(r, c, address, e);
    }
  }

  lemma HolderIsOnly(r: Tables, c: Cid, address: UserAddress, old': Cid)
    requires UniqueAddresses(r) && Holder(r, c, address, old')
    ensures forall d :: !Holder(Unregister(r, old'), c, address, d)
  {
    UnregisterFrame(r, old');
    hide Unregister;
  }

  /** Registering keeps addresses unique: a second client with the same address replaces the first. */
  lemma RegisterConsistent(r: Tables, c: Cid, address: UserAddress, now: Time, r': Tables)
    requires Consistent(r) && Registers(r, c, address, now, r')
    ensures Consistent(r') && c in r'.addresses && r'.addresses[c] == address
    ensures forall d :: d in r'.addresses && r'.addresses[d] == address ==> d == c
  {
    hide Unregister, Holder;
    if old' :| Holder(r, c, address, old') && r' == Seat(Unregister(r, old'), c, address, now) {
      UnregisterConsistent(r, old');
      HolderIsOnly(r, c, address, old');
      SeatConsistent(Unregister(r, old'), c, address, now);
    } else {
      SeatConsistent(r, c, address, now);
    }
  }

  lemma ClearConsistent(r: Tables, c: Cid, key: UserAddress)
    requires Consistent(r)
    ensures Consistent(ClearCallSession(r, c, key))
  {
    ClearFrame(r, c, key);
    hide ClearCallSession;
  }

  /** Registering grants nothing: approvals, targets and notifications only shrink. */
  lemma RegisterFrame(r: Tables, c: Cid, address: UserAddress, now: Time, r': Tables)
    requires Registers(r, c, address, now, r')
    ensures r'.addresses.Keys <= r.addresses.Keys + {c}
    ensures forall k :: k in r'.addresses && k != c ==> k in r.addresses && r'.addresses[k] == r.addresses[k]
    ensures r'.targets.Keys <= r.targets.Keys && r'.approved.Keys <= r.approved.Keys
    ensures r'.notified.Keys <= r.notified.Keys
    ensures forall k :: k in r'.targets ==> r'.targets[k] == r.targets[k]
    ensures forall k: Cid, a: UserAddress :: Has(r'.approved, k, a) ==> Has(r.approved, k, a)
  {
    hide Unregister, Has;
    if old' :| Holder(r, c, address, old') && r' == Seat(Unregister(r, old'), c, address, now) {
      UnregisterFrame(r, old');
    }
  }

  lemma SeatOthers(r: Tables, c: Cid, address: UserAddress, now: Time, d: Cid)
    requires d != c
    ensures var r' := Seat(r, c, address, now);
      Get(r'.addresses, d) == Get(r.addresses, d) && Get(r'.lastPong, d) == Get(r.lastPong, d)
  {
  }

  lemma UnregisterOthers(r: Tables, c: Cid, d: Cid)
    ensures var r' := Unregister(r, c);
      && Get(r'.addresses, d) == (if d == c then None else Get(r.addresses, d))
      && Get(r'.lastPong, d) == (if d == c then None else Get(r.lastPong, d))
  {
    UnregisterFrame(r, c);
    hide Unregister, Has;
  }

  /** Of the others, registering removes only the previous holder of the address. */
  lemma RegisterBook(r: Tables, c: Cid, address: UserAddress, now: Time, r': Tables, d: Cid)
    requires UniqueAddresses(r) && Registers(r, c, address, now, r') && d != c
    ensures Get(r'.addresses, d) == if Get(r.addresses, d) == Some(address) then None else Get(r.addresses, d)
    ensures d in r'.addresses ==> Get(r'.lastPong, d) == Get(r.lastPong, d)
  {
    hide Unregister, Seat;
    if old' :| Holder(r, c, address, old') && r' == Seat(Unregister(r, old'), c, address, now) {
      UnregisterOthers(r, old', d);
      SeatOthers(Unregister(r, old'), c, address, now, d);
    } else {
      SeatOthers(r, c, address, now, d);
      assert !Holder(r, c, address, d);
    }
  }

  /** Registering seats the client as connected and alive now; where nobody else holds the address,
      nothing else changes. */
  lemma RegisterExactly(r: Tables, c: Cid, address: UserAddress, now: Time, r': Tables)
    requires Registers(r, c, address, now, r')
    ensures c in r'.connections && Get(r'.addresses, c) == Some(address)
    ensures Get(r'.lastPong, c) == Some(now) && Get(r'.connectedAt, c) == Some(now)
    ensures (forall d :: d in r.addresses && r.addresses[d] == address ==> d == c) ==>
      && r'.targets == r.targets && r'.approved == r.approved && r'.rejected == r.rejected && r'.notified == r.notified
      && r'.rooms == r.rooms && r'.channels == r.channels
  {
    hide Unregister;
    if old' :| Holder(r, c, address, old') && r' == Seat(Unregister(r, old'), c, address, now) {
      assert r.addresses[old'] == address && old' != c;
    }
  }

  lemma FoundIsRegistered(r: Tables, key: UserAddress, t: Cid)
    requires Find(r.addresses, key) == Found(t)
    ensures t in r.addresses && MatchesPrefix(r.addresses[t], key)
  {
    assert t in Holders(r.addresses, key);
  }
}
