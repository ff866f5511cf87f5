/**
 Where every field of a packet lies on the wire, byte by byte: the layout tables of WPIP-04, which
 another implementation would have to agree with.
 */
module WireLayout {
  import opened Basics
  import opened Arith
  import opened Bytes
  import opened Addresses
  import opened Codec

  // ---------------------------------------------------------------- integers and addresses

  /** Byte `i` of a written integer has weight 256^i. */
  lemma {:induction false} LittleEndian(n: nat, k: nat, i: nat)
    requires i < k
    ensures PutLe(n, k)[i] == n / Pow256(i) % 256
    decreases k
  {
    if i > 0 {
      LittleEndian(n / 256, k - 1, i - 1);
      DivDiv(n, Pow256(i - 1));
    }
  }

  lemma DivDiv(n: nat, m: nat)
    requires m > 0
    ensures n / (256 * m) == n / 256 / m
  {
    var q, r := n / 256 / m, n / 256 % m;
    assert n == 256 * (q * m + r) + n % 256;
    RegroupProduct(256, m, q);
    DivModUnique(n, 256 * m, q, 256 * r + n % 256);
  }

  /** The text form of an address spells each byte with two digits, the high one first. */
  lemma {:induction false} HexDigits(bs: seq<byte>, i: nat)
    requires i < |bs|
    ensures HexEncode(bs)[2 * i] == "0123456789abcdef"[bs[i] / 16]
    ensures HexEncode(bs)[2 * i + 1] == "0123456789abcdef"[bs[i] % 16]
  {
    if i == 0 {
      DigitOf(bs[0] / 16);
      DigitOf(bs[0] % 16);
    } else {
      HexDigits(bs[1..], i - 1);
      assert HexEncode(bs)[2..] == HexEncode(bs[1..]);
    }
  }

  lemma DigitOf(n: nat)
    requires n < 16
    ensures HexDigit(n) == "0123456789abcdef"[n]
  {
  }

  // ---------------------------------------------------------------- packets

  /** The integer `n` lies at `off` as eight bytes, least significant first. */
  predicate Word(d: seq<byte>, off: nat, n: u64) {
    off + 8 <= |d| && forall i: nat :: i < 8 ==> d[off + i] == n / Pow256(i) % 256
  }

  predicate Address(d: seq<byte>, off: nat, a: UserAddress) {
    off + 32 <= |d| && d[off..off + 32] == ToBytes(a)
  }

  /** The rest of the packet from `off` on. */
  predicate Rest(d: seq<byte>, off: nat, data: seq<byte>) {
    off <= |d| && d[off..] == data
  }

  predicate AddressPacket(d: seq<byte>, tag: u8, a: UserAddress) {
    |d| == 33 && d[0] == tag && Address(d, 1, a)
  }

  /** The tag and field offsets of every kind of packet. */
  predicate LaidOut(p: Packet, d: seq<byte>) {
    match p
    case BroadcastAudio(id, audio) => |d| >= 9 && d[0] == 0x00 && Word(d, 1, id) && Rest(d, 9, audio)
    case ClientAssignment(id, a) => |d| == 41 && d[0] == 0x01 && Word(d, 1, id) && Address(d, 9, a)
    case ClientTargetedAudio(t, codec, audio) =>
      |d| >= 34 && d[0] == 0x02 && Address(d, 1, t) && d[33] == codec && Rest(d, 34, audio)
    case ServerTargetedAudio(t, id, s, codec, audio) =>
      |d| >= 74 && d[0] == 0x03 && Address(d, 1, t) && Word(d, 33, id) && Address(d, 41, s) && d[73] == codec && Rest(d, 74, audio)
    case PeerTargetedAudio(id, origin, t, s, codec, ttl, audio) =>
      && |d| >= 83 && d[0] == 0x04 && Word(d, 1, id) && Word(d, 9, origin) && Address(d, 17, t) && Address(d, 49, s)
      && d[81] == codec && d[82] == ttl && Rest(d, 83, audio)
    case CallRequest(id, a) => |d| == 41 && d[0] == 0x05 && Word(d, 1, id) && Address(d, 9, a)
    case CallAcceptResponse(a) => AddressPacket(d, 0x06, a)
    case CallRejectResponse(a) => AddressPacket(d, 0x07, a)
    case CallAcceptedNotification(a) => AddressPacket(d, 0x08, a)
    case CallRejectedNotification(a) => AddressPacket(d, 0x09, a)
    case ConnectionError(a) => AddressPacket(d, 0x0A, a)
    case CallHangup(a) => AddressPacket(d, 0x0B, a)
    case CallEndedNotification(a) => AddressPacket(d, 0x0C, a)
    case RoomJoinRequest(a) => AddressPacket(d, 0x0D, a)
    case RoomStateNotification(a, n) =>
      |d| == 37 && d[0] == 0x0E && Address(d, 1, a) && forall i: nat :: i < 4 ==> d[33 + i] == n / Pow256(i) % 256
    case RoomLeaveRequest(a) => AddressPacket(d, 0x0F, a)
    case RoomGroupAudio(a, codec, audio) =>
      |d| >= 34 && d[0] == 0x10 && Address(d, 1, a) && d[33] == codec && Rest(d, 34, audio)
    case ActiveSpeakerNotice(a, speakers) =>
      && |d| == 33 + 32 * |speakers| && d[0] == 0x11 && Address(d, 1, a)
      && forall i :: 0 <= i < |speakers| ==> Address(d, 33 + 32 * i, speakers[i])
    case Ping(t) => |d| == 9 && d[0] == 0x12 && Word(d, 1, t)
    case Pong(t) => |d| == 9 && d[0] == 0x13 && Word(d, 1, t)
    case VideoFrameData(t, codec, frame) =>
      |d| >= 34 && d[0] == 0x14 && Address(d, 1, t) && d[33] == codec && Rest(d, 34, frame)
    case RoomGroupAudioE2EE(a, codec, energy, audio) =>
      |d| >= 35 && d[0] == 0x15 && Address(d, 1, a) && d[33] == codec && d[34] == energy && Rest(d, 35, audio)
  }

  lemma WordIs(d: seq<byte>, off: nat, n: u64)
    requires off + 8 <= |d| && d[off..off + 8] == PutLe(n, 8)
    ensures Word(d, off, n)
  {
    hide PutLe, Pow256;
    forall i: nat | i < 8 ensures d[off + i] == n / Pow256(i) % 256 {
      LittleEndian(n, 8, i);
      assert d[off + i] == d[off..off + 8][i];
    }
  }

  lemma {:induction false} SpeakersLaidOut(speakers: seq<UserAddress>, i: nat)
    requires i < |speakers|
    ensures EncodeSpeakers(speakers)[32 * i..32 * i + 32] == ToBytes(speakers[i])
  {
    hide ToBytes;
    var e := EncodeSpeakers(speakers);
    if i > 0 {
      SpeakersLaidOut(speakers[1..], i - 1);
      assert e[32 * i..32 * i + 32] == e[32..][32 * (i - 1)..32 * (i - 1) + 32];
    }
  }

  lemma PayloadLaidOut(p: Packet)
    requires CarriesPayload(p)
    ensures LaidOut(p, Encode(p))
  {
    hide PutLe, ToBytes, Word, Pow256;
    var d := Encode(p);
    match p
    case BroadcastAudio(id, _) => WordIs(d, 1, id);
    case ServerTargetedAudio(_, id, _, _, _) => WordIs(d, 33, id);
    case PeerTargetedAudio(_, _, _, _, _, _, _) => PeerLaidOut(p);
    case _ =>
  }

  lemma PeerLaidOut(p: Packet)
    requires p.PeerTargetedAudio?
    ensures LaidOut(p, Encode(p))
  {
    hide PutLe, ToBytes, Word, Pow256;
    var d := Encode(p);
    WordIs(d, 1, p.senderId);
    WordIs(d, 9, p.originNode);
  }

  lemma IdLaidOut(d: seq<byte>, tag: u8, id: u64, a: UserAddress)
    requires d == [tag] + PutLe(id, 8) + ToBytes(a)
    ensures |d| == 41 && d[0] == tag && Word(d, 1, id) && Address(d, 9, a)
  {
    hide PutLe, ToBytes, Word, Pow256;
    var head := [tag] + PutLe(id, 8);
    assert |head| == 9 && d == head + ToBytes(a);
    assert d[1..9] == head[1..] == PutLe(id, 8);
    WordIs(d, 1, id);
  }

  lemma NoticeLaidOut(p: Packet)
    requires p.ActiveSpeakerNotice?
    ensures LaidOut(p, Encode(p))
  {
    hide PutLe, ToBytes, Word, Pow256;
    var d := Encode(p);
    forall i | 0 <= i < |p.speakerAddresses| ensures Address(d, 33 + 32 * i, p.speakerAddresses[i]) {
      SpeakersLaidOut(p.speakerAddresses, i);
      assert d[33..] == EncodeSpeakers(p.speakerAddresses);
      assert d[33 + 32 * i..33 + 32 * i + 32] == d[33..][32 * i..32 * i + 32];
    }
  }

  /** Every packet is encoded according to the table. */
  lemma EncodedAsLaidOut(p: Packet)
    ensures LaidOut(p, Encode(p))
  {
    if CarriesPayload(p) {
      PayloadLaidOut(p);
    } else {
      FixedLaidOut(p);
    }
  }

  lemma FixedLaidOut(p: Packet)
    requires !CarriesPayload(p)
    ensures LaidOut(p, Encode(p))
  {
    hide PutLe, ToBytes, Word, Pow256;
    var d := Encode(p);
    match p
    case ClientAssignment(id, a) => IdLaidOut(d, 0x01, id, a);
    case CallRequest(id, a) => IdLaidOut(d, 0x05, id, a);
    case RoomStateNotification(_, n) =>
      forall i: nat | i < 4 ensures d[33 + i] == n / Pow256(i) % 256 {
        LittleEndian(n, 4, i);
      }
    case ActiveSpeakerNotice(_, speakers) => NoticeLaidOut(p);
    case Ping(t) => WordIs(d, 1, t);
    case Pong(t) => WordIs(d, 1, t);
    case _ =>
  }

  /** The tag 0xFF is an older spelling of 0x0A, and the only tag above 0x15 that is read at all. */
  lemma OlderErrorTag(tag: u8, rest: seq<byte>, spare: UserAddress)
    requires |rest| < 1048576 && tag > 0x15
    ensures Decode([tag] + rest, spare).Ok? <==> tag == 0xFF && |rest| >= 32
    ensures tag == 0xFF && |rest| >= 32 ==>
      Decode([tag] + rest, spare) == Decode([0x0A] + rest, spare) == Ok(ConnectionError(FromBytes(rest[..32])))
  {
    assert ([tag] + rest)[1..] == rest && ([0x0A] + rest)[1..] == rest;
    if |rest| >= 32 {
      assert ([tag] + rest)[1..33] == rest[..32] == ([0x0A] + rest)[1..33];
    }
  }
}
