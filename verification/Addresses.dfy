/**
 User addresses: the 32-byte wire form, exact and short-ID matching, and lookup of a
 client by full address or short ID.
 */
module Addresses {
  import opened Basics
  import opened Bytes

  type Cid = u64

  datatype UserAddress = UserAddress(id: string)

  datatype AddressSearchResult = Found(cid: Cid) | NotFound | Ambiguous

  const MIN_SHORT_ID := 12
  const FULL_ID := 64

  /** A full address as the daemon writes it: 64 lower-case hex digits. */
  predicate Canonical(a: UserAddress) {
    |a.id| == FULL_ID && IsLowerHex(a.id)
  }

  // ---------------------------------------------------------------- wire form

  /** `UserAddress::from_bytes`. */
  function FromBytes(bs: seq<byte>): (a: UserAddress) {
    UserAddress(HexEncode(bs))
  }

  /** `UserAddress::to_bytes`: decoded hex cut or zero-padded to 32 bytes; all zeros if not hex. */
  function ToBytes(a: UserAddress): (bs: seq<byte>)
    ensures |bs| == 32
  {
    match HexDecode(a.id)
    case None => Zeros(32)
    case Some(d) => if |d| >= 32 then d[..32] else d + Zeros(32 - |d|)
  }

  lemma ToFromBytes(bs: seq<byte>)
    requires |bs| == 32
    ensures ToBytes(FromBytes(bs)) == bs && Canonical(FromBytes(bs))
  {
    HexDecodeEncode(bs);
  }

  /** An address survives the wire exactly when it is canonical. */
  lemma FromToBytes(a: UserAddress)
    ensures FromBytes(ToBytes(a)) == a <==> Canonical(a)
  {
    ToFromBytes(ToBytes(a));
    if Canonical(a) {
      HexEncodeDecode(a.id);
      var d := HexDecode(a.id).value;
      assert d[..32] == d;
    }
  }

  // ---------------------------------------------------------------- matching

  function TrimZeros(s: string): (t: string)
    ensures |t| <= |s| && t <= s
    ensures t != "" ==> t[|t| - 1] != '0'
    ensures forall i :: |t| <= i < |s| ==> s[i] == '0'
  {
    if s != "" && s[|s| - 1] == '0' then TrimZeros(s[..|s| - 1]) else s
  }

  /** `matches_short_id_prefix`: exact, or `key` is a short ID that `a` starts with. */
  predicate MatchesPrefix(a: UserAddress, key: UserAddress) {
    || a == key
    || (MIN_SHORT_ID <= |key.id| < FULL_ID && key.id <= a.id)
    || (|key.id| == FULL_ID && |a.id| == FULL_ID
        && MIN_SHORT_ID <= |TrimZeros(key.id)| < FULL_ID && TrimZeros(key.id) <= a.id)
  }

  /** A full address that zero-trimming leaves alone. */
  predicate Exact(a: UserAddress) {
    |a.id| == FULL_ID && a.id[FULL_ID - 1] != '0'
  }

  /** An address of this form is matched by itself alone, whatever it is compared with. */
  lemma ExactMatchesOnlyItself(a: UserAddress, key: UserAddress)
    requires Exact(key)
    ensures MatchesPrefix(a, key) <==> a == key
  {
    assert TrimZeros(key.id) == key.id;
  }

  // ---------------------------------------------------------------- lookup

  function Holders(book: map<Cid, UserAddress>, key: UserAddress): (cs: set<Cid>) {
    set c | c in book && MatchesPrefix(book[c], key)
  }

  /** The answer of a lookup, with no reference to any iteration order. */
  function Find(book: map<Cid, UserAddress>, key: UserAddress): (r: AddressSearchResult)
    ensures r.Found? ==> Holders(book, key) == {r.cid}
    ensures r.Ambiguous? ==> |Holders(book, key)| >= 2
  {
    var m := Holders(book, key);
    if |TrimZeros(key.id)| < MIN_SHORT_ID && |key.id| < MIN_SHORT_ID then NotFound
    else if m == {} then NotFound
    else if |m| == 1 then Found(Only(m))
    else Ambiguous
  }

  function Only(m: set<Cid>): (c: Cid)
    requires |m| == 1
    ensures m == {c}
  {
    SingletonHasOne(m);
    var c :| c in m && m == {c};
    c
  }

  lemma SingletonHasOne(m: set<Cid>)
    requires |m| == 1
    ensures exists c :: c in m && m == {c}
  {
    var c :| c in m;
    assert |m - {c}| == 0;
    assert m == {c};
  }

  /** A short ID of 12 to 63 digits denotes the addresses it starts; a shorter key only itself. */
  lemma ShortKeyMatches(a: UserAddress, key: UserAddress)
    ensures 12 <= |key.id| < 64 ==> (MatchesPrefix(a, key) <==> key.id <= a.id)
    ensures |key.id| < 12 || 64 < |key.id| ==> (MatchesPrefix(a, key) <==> a == key)
  {
  }

  /** A lookup finds a client exactly when the key has at least 12 digits and denotes that client
      and no other, and is ambiguous exactly when it denotes two. */
  lemma FindMeans(book: map<Cid, UserAddress>, key: UserAddress, t: Cid)
    ensures Find(book, key) == Found(t) <==>
      && |key.id| >= 12 && t in book && MatchesPrefix(book[t], key)
      && forall d :: d in book && MatchesPrefix(book[d], key) ==> d == t
    ensures Find(book, key) == Ambiguous <==>
      && |key.id| >= 12
      && exists c, d :: c in book && d in book && c != d && MatchesPrefix(book[c], key) && MatchesPrefix(book[d], key)
  {
    hide MatchesPrefix;
    var m := Holders(book, key);
    assert forall c :: c in m <==> c in book && MatchesPrefix(book[c], key);
    hide Holders;
    if c, d :| c in m && d in m && c != d {
      assert {c, d} <= m && |{c, d}| == 2;
      SubsetCount({c, d}, m);
    } else if m != {} {
      var c :| c in m;
      assert m == {c};
      assert forall d :: d in m ==> d == c;
    }
  }

  lemma SubsetCount(a: set<Cid>, b: set<Cid>)
    requires a <= b
    ensures |a| <= |b|
  {
    assert b == a + (b - a);
  }

  function AsSet(s: seq<Cid>): (r: set<Cid>) {
    set c | c in s
  }

  lemma AsSetAppend(s: seq<Cid>, c: Cid)
    requires c !in s && |s| == |AsSet(s)|
    ensures AsSet(s + [c]) == AsSet(s) + {c} && |s + [c]| == |AsSet(s + [c])|
  {
    assert AsSet(s + [c]) == AsSet(s) + {c};
  }

  /** The loop of `find_client_by_address` over a hash map, in whatever order it yields keys. */
  method CollectMatches(book: map<Cid, UserAddress>, key: UserAddress) returns (matches: seq<Cid>)
    ensures AsSet(matches) == Holders(book, key) && |matches| == |Holders(book, key)|
  {
    matches := [];
    var rest := book.Keys;
    while rest != {}
      invariant rest <= book.Keys
      invariant AsSet(matches) == Holders(book, key) - rest && |matches| == |AsSet(matches)|
    {
      var cid :| cid in rest;
      assert cid in Holders(book, key) <==> MatchesPrefix(book[cid], key);
      assert cid !in AsSet(matches);
      if MatchesPrefix(book[cid], key) {
        AsSetAppend(matches, cid);
        matches := matches + [cid];
      }
      rest := rest - {cid};
    }
  }

  /** `find_client_by_address`. */
  method FindClientByAddress(book: map<Cid, UserAddress>, key: UserAddress) returns (r: AddressSearchResult)
    ensures r == Find(book, key)
  {
    if |TrimZeros(key.id)| < MIN_SHORT_ID && |key.id| < MIN_SHORT_ID {
      return NotFound;
    }
    var matches := CollectMatches(book, key);
    if |matches| == 1 {
      assert matches[0] in AsSet(matches);
      r := Found(matches[0]);
    } else if |matches| == 0 {
      r := NotFound;
    } else {
      r := Ambiguous;
    }
  }

  // ---------------------------------------------------------------- short IDs on the wire

  /** What a short ID becomes after one trip over the wire. */
  function Padded(p: UserAddress): (a: UserAddress) {
    FromBytes(ToBytes(p))
  }

  predicate ShortId(p: UserAddress) {
    IsLowerHex(p.id) && |p.id| % 2 == 0 && MIN_SHORT_ID <= |p.id| < FULL_ID
  }

  lemma PaddedForm(p: UserAddress)
    requires ShortId(p)
    ensures Padded(p).id == p.id + ZeroDigits(FULL_ID - |p.id|)
  {
    HexEncodeDecode(p.id);
    var d := HexDecode(p.id).value;
    HexEncodeConcat(d, Zeros(32 - |d|));
    HexOfZeros(32 - |d|);
  }

  lemma TrimOfPadded(p: UserAddress)
    requires ShortId(p)
    ensures TrimZeros(Padded(p).id) == TrimZeros(p.id)
  {
    PaddedForm(p);
    TrimAppend(p.id, FULL_ID - |p.id|);
  }

  lemma {:induction false} TrimAppend(s: string, k: nat)
    ensures TrimZeros(s + ZeroDigits(k)) == TrimZeros(s)
  {
    if k == 0 {
      assert s + ZeroDigits(0) == s;
    } else {
      var t := s + ZeroDigits(k);
      assert t[|t| - 1] == '0';
      assert t[..|t| - 1] == s + ZeroDigits(k - 1);
      TrimAppend(s, k - 1);
    }
  }

  predicate CanonicalBook(book: map<Cid, UserAddress>) {
    forall c :: c in book ==> Canonical(book[c])
  }

  lemma SameMatches(a: UserAddress, p: UserAddress)
    requires Canonical(a) && ShortId(p) && p.id[|p.id| - 1] != '0'
    ensures MatchesPrefix(a, Padded(p)) == MatchesPrefix(a, p)
  {
    TrimOfPadded(p);
    PaddedForm(p);
    assert TrimZeros(p.id) == p.id;
  }

  lemma SameLookup(book: map<Cid, UserAddress>, p: UserAddress)
    requires CanonicalBook(book) && ShortId(p) && p.id[|p.id| - 1] != '0'
    ensures Find(book, Padded(p)) == Find(book, p)
  {
    forall c | c in book ensures MatchesPrefix(book[c], Padded(p)) == MatchesPrefix(book[c], p) {
      SameMatches(book[c], p);
    }
    assert Holders(book, Padded(p)) == Holders(book, p);
    PaddedForm(p);
  }

  function Efs(n: nat): (s: string)
    ensures |s| == n && forall i :: 0 <= i < n ==> s[i] == 'f'
  {
    if n == 0 then "" else ['f'] + Efs(n - 1)
  }

  lemma SoloLookup(a: UserAddress, key: UserAddress)
    requires |key.id| >= MIN_SHORT_ID
    ensures Find(map[0 := a], key) == if MatchesPrefix(a, key) then Found(0) else NotFound
  {
    var book: map<Cid, UserAddress> := map[0 := a];
    if MatchesPrefix(a, key) {
      assert Holders(book, key) == {0};
    } else {
      assert Holders(book, key) == {};
    }
  }

  /** The full address with the given stem and otherwise only 'f' digits. */
  function Stretch(stem: string): (a: UserAddress)
    requires |stem| <= FULL_ID
    ensures |a.id| == FULL_ID && stem <= a.id
    ensures forall i :: |stem| <= i < FULL_ID ==> a.id[i] == 'f'
  {
    UserAddress(stem + Efs(FULL_ID - |stem|))
  }

  /** A full address that trimming separates from the short ID `p`: it starts with the trimmed
      digits only if those still make a short ID, and with `p` itself otherwise. */
  function Separator(p: UserAddress): (a: UserAddress)
    requires ShortId(p)
    ensures |a.id| == FULL_ID
  {
    Stretch(if |TrimZeros(p.id)| >= MIN_SHORT_ID then TrimZeros(p.id) else p.id)
  }

  lemma SeparatorSeparates(p: UserAddress)
    requires ShortId(p) && p.id[|p.id| - 1] == '0'
    ensures MatchesPrefix(Separator(p), Padded(p)) != MatchesPrefix(Separator(p), p)
  {
    var a, clean := Separator(p), TrimZeros(p.id);
    PaddedForm(p);
    TrimOfPadded(p);
    assert a.id[FULL_ID - 1] == 'f' && Padded(p).id[FULL_ID - 1] == '0';
    if |clean| >= MIN_SHORT_ID {
      assert a.id[|clean|] == 'f' && p.id[|clean|] == '0';
      assert !(p.id <= a.id);
    }
  }

  /** A short ID ending in '0' is answered differently before and after the wire: trimming either
      widens it to a shorter prefix, or leaves too few digits for any prefix at all. */
  lemma TrailingZeroChangesLookup(p: UserAddress)
    requires ShortId(p) && p.id[|p.id| - 1] == '0'
    ensures Canonical(Separator(p))
    ensures Find(map[0 := Separator(p)], Padded(p)) != Find(map[0 := Separator(p)], p)
  {
    SeparatorSeparates(p);
    PaddedForm(p);
    SoloLookup(Separator(p), p);
    SoloLookup(Separator(p), Padded(p));
  }

  /** A short ID means the same before and after the wire, against every address book, exactly
      when it does not end in '0'. */
  lemma ShortIdSurvivesWire(p: UserAddress)
    requires ShortId(p)
    ensures (forall book: map<Cid, UserAddress> :: CanonicalBook(book) ==> Find(book, Padded(p)) == Find(book, p))
       <==> p.id[|p.id| - 1] != '0'
  {
    if p.id[|p.id| - 1] != '0' {
      forall book: map<Cid, UserAddress> | CanonicalBook(book) ensures Find(book, Padded(p)) == Find(book, p) {
        SameLookup(book, p);
      }
    } else {
      TrailingZeroChangesLookup(p);
      var book: map<Cid, UserAddress> := map[0 := Separator(p)];
      assert CanonicalBook(book);
    }
  }
}
