/**
 Round trips of the packet codec. `RoundTrip` says exactly which packets come back from the
 wire unchanged; `DecodedIsWellFormed` says everything the decoder accepts is such a packet.
 */
module CodecRoundTrip {
  import opened Basics
  import opened Bytes
  import opened Addresses
  import opened Codec

  lemma U64RoundTrip(d: seq<byte>, off: nat, n: u64)
    requires off + 8 <= |d| && d[off..off + 8] == PutLe(n, 8)
    ensures U64At(d, off) == n
  {
    WordSizes();
    GetPutLe(n, 8);
  }

  lemma AddrRoundTrip(d: seq<byte>, off: nat, a: UserAddress)
    requires off + 32 <= |d| && d[off..off + 32] == ToBytes(a)
    ensures AddrAt(d, off) == a <==> Canonical(a)
  {
    FromToBytes(a);
  }

  lemma AllCanonicalCons(addrs: seq<UserAddress>)
    requires addrs != []
    ensures AllCanonical(addrs) <==> Canonical(addrs[0]) && AllCanonical(addrs[1..])
  {
    hide Canonical;
    if Canonical(addrs[0]) && AllCanonical(addrs[1..]) {
      forall i | 0 < i < |addrs| ensures Canonical(addrs[i]) {
        assert addrs[i] == addrs[1..][i - 1];
      }
    }
  }

  lemma {:induction false} SpeakersRoundTrip(addrs: seq<UserAddress>)
    ensures DecodeSpeakers(EncodeSpeakers(addrs)) == addrs <==> AllCanonical(addrs)
  {
    hide FromBytes, ToBytes, Canonical, AllCanonical;
    if addrs == [] {
      AllCanonicalNil();
    } else {
      var e := EncodeSpeakers(addrs);
      assert e[..32] == ToBytes(addrs[0]) && e[32..] == EncodeSpeakers(addrs[1..]);
      var back := DecodeSpeakers(e);
      assert back[0] == FromBytes(e[..32]) && back[1..] == DecodeSpeakers(e[32..]);
      FromToBytes(addrs[0]);
      SpeakersRoundTrip(addrs[1..]);
      AllCanonicalCons(addrs);
      assert back == addrs <==> back[0] == addrs[0] && back[1..] == addrs[1..] by {
        assert |back| > 0 && back == [back[0]] + back[1..];
        assert addrs == [addrs[0]] + addrs[1..];
      }
    }
  }

  lemma AllCanonicalNil()
    ensures AllCanonical([])
  {
  }

  // ---------------------------------------------------------------- decode after encode

  predicate Survives(p: Packet, spare: UserAddress) {
    Decode(Encode(p), spare) == Ok(p)
  }

  /** Packets made of a tag and one address. */
  predicate AddressOnly(p: Packet) {
    || p.CallAcceptResponse? || p.CallRejectResponse? || p.CallAcceptedNotification?
    || p.CallRejectedNotification? || p.ConnectionError? || p.CallHangup?
    || p.CallEndedNotification? || p.RoomJoinRequest? || p.RoomLeaveRequest?
  }

  function OnlyAddress(p: Packet): (a: UserAddress)
    requires AddressOnly(p)
  {
    if p.CallAcceptResponse? || p.CallRejectResponse? then p.callerAddress
    else if p.RoomJoinRequest? || p.RoomLeaveRequest? then p.roomAddress
    else p.targetAddress
  }

  lemma AddressOnlyRoundTrip(p: Packet, spare: UserAddress)
    requires AddressOnly(p)
    ensures Survives(p, spare) <==> WellFormed(p)
  {
    hide FromBytes, ToBytes, Canonical;
    var e := Encode(p);
    var a := OnlyAddress(p);
    assert e[1..33] == ToBytes(a);
    AddrRoundTrip(e, 1, a);
  }

  /** Packets of an 8-byte integer and an address. */
  predicate IdAddress(p: Packet) {
    p.ClientAssignment? || p.CallRequest?
  }

  lemma IdAddressRoundTrip(p: Packet, spare: UserAddress)
    requires IdAddress(p)
    ensures Survives(p, spare) <==> WellFormed(p)
  {
    hide FromBytes, ToBytes, Canonical, GetLe, PutLe;
    var e := Encode(p);
    var (id, a) := if p.ClientAssignment? then (p.clientId, p.userAddress) else (p.callerId, p.callerAddress);
    assert e[1..9] == PutLe(id, 8) && e[9..41] == ToBytes(a);
    U64RoundTrip(e, 1, id);
    AddrRoundTrip(e, 9, a);
  }

  /** Packets of an 8-byte integer and possibly a payload. */
  predicate IdPayload(p: Packet) {
    p.Ping? || p.Pong? || p.BroadcastAudio?
  }

  lemma IdPayloadRoundTrip(p: Packet, spare: UserAddress)
    requires IdPayload(p)
    ensures Survives(p, spare) <==> WellFormed(p)
  {
    hide FromBytes, ToBytes, Canonical, GetLe, PutLe;
    var e := Encode(p);
    var id := if p.BroadcastAudio? then p.senderId else p.timestamp;
    assert e[1..9] == PutLe(id, 8);
    U64RoundTrip(e, 1, id);
    if p.BroadcastAudio? {
      assert e[9..] == p.audioData;
    }
  }

  /** Packets of one address, one byte and a payload. */
  predicate AddressPayload(p: Packet) {
    p.ClientTargetedAudio? || p.RoomGroupAudio? || p.VideoFrameData?
  }

  lemma AddressPayloadRoundTrip(p: Packet, spare: UserAddress)
    requires AddressPayload(p)
    ensures Survives(p, spare) <==> WellFormed(p)
  {
    hide FromBytes, ToBytes, Canonical;
    var e := Encode(p);
    match p
    case ClientTargetedAudio(a, codec, audio) =>
      assert e[1..33] == ToBytes(a) && e[33] == codec && e[34..] == audio;
      AddrRoundTrip(e, 1, a);
    case RoomGroupAudio(a, codec, audio) =>
      assert e[1..33] == ToBytes(a) && e[33] == codec && e[34..] == audio;
      AddrRoundTrip(e, 1, a);
    case VideoFrameData(a, codec, frame) =>
      assert e[1..33] == ToBytes(a) && e[33] == codec && e[34..] == frame;
      AddrRoundTrip(e, 1, a);
  }

  /** The remaining room packets. */
  predicate RoomPacket(p: Packet) {
    p.RoomStateNotification? || p.ActiveSpeakerNotice? || p.RoomGroupAudioE2EE?
  }

  lemma RoomPacketRoundTrip(p: Packet, spare: UserAddress)
    requires RoomPacket(p)
    ensures Survives(p, spare) <==> WellFormed(p)
  {
    hide FromBytes, ToBytes, Canonical, DecodeSpeakers, EncodeSpeakers, GetLe, PutLe;
    var e := Encode(p);
    match p
    case RoomStateNotification(a, n) =>
      assert e[1..33] == ToBytes(a) && e[33..37] == PutLe(n, 4);
      AddrRoundTrip(e, 1, a);
      WordSizes();
      GetPutLe(n, 4);
    case ActiveSpeakerNotice(a, speakers) =>
      assert e[1..33] == ToBytes(a) && e[33..] == EncodeSpeakers(speakers);
      AddrRoundTrip(e, 1, a);
      SpeakersRoundTrip(speakers);
    case RoomGroupAudioE2EE(a, codec, energy, audio) =>
      assert e[1..33] == ToBytes(a) && e[33] == codec && e[34] == energy && e[35..] == audio;
      AddrRoundTrip(e, 1, a);
  }

  lemma ServerAudioRoundTrip(p: Packet, spare: UserAddress)
    requires p.ServerTargetedAudio?
    ensures Survives(p, spare) <==> WellFormed(p)
  {
    hide FromBytes, ToBytes, Canonical, DecodeSpeakers, EncodeSpeakers, GetLe, PutLe;
    var e := Encode(p);
    assert e[1..33] == ToBytes(p.targetAddress) && e[33..41] == PutLe(p.senderId, 8);
    assert e[41..73] == ToBytes(p.senderAddress) && e[73] == p.codecId && e[74..] == p.audioData;
    AddrRoundTrip(e, 1, p.targetAddress);
    U64RoundTrip(e, 33, p.senderId);
    AddrRoundTrip(e, 41, p.senderAddress);
  }

  lemma PeerAudioRoundTrip(p: Packet, spare: UserAddress)
    requires p.PeerTargetedAudio?
    ensures Survives(p, spare) <==> WellFormed(p)
  {
    hide FromBytes, ToBytes, Canonical, DecodeSpeakers, EncodeSpeakers, GetLe, PutLe;
    var e := Encode(p);
    assert e[1..9] == PutLe(p.senderId, 8) && e[9..17] == PutLe(p.originNode, 8);
    assert e[17..49] == ToBytes(p.targetAddress) && e[49..81] == ToBytes(p.senderAddress);
    assert e[81] == p.codecId && e[82] == p.ttl && e[83..] == p.audioData;
    U64RoundTrip(e, 1, p.senderId);
    U64RoundTrip(e, 9, p.originNode);
    AddrRoundTrip(e, 17, p.targetAddress);
    AddrRoundTrip(e, 49, p.senderAddress);
  }

  /** A packet comes back from the wire unchanged exactly when it is well formed. */
  lemma RoundTrip(p: Packet, spare: UserAddress)
    ensures Decode(Encode(p), spare) == Ok(p) <==> WellFormed(p)
  {
    hide Encode, Decode, WellFormed;
    if AddressOnly(p) {
      AddressOnlyRoundTrip(p, spare);
    } else if IdAddress(p) {
      IdAddressRoundTrip(p, spare);
    } else if IdPayload(p) {
      IdPayloadRoundTrip(p, spare);
    } else if AddressPayload(p) {
      AddressPayloadRoundTrip(p, spare);
    } else if RoomPacket(p) {
      RoomPacketRoundTrip(p, spare);
    } else if p.ServerTargetedAudio? {
      ServerAudioRoundTrip(p, spare);
    } else {
      PeerAudioRoundTrip(p, spare);
    }
  }

  /** The family that does not survive: a long broadcast is read back as a client assignment. */
  lemma LongBroadcastMisread(id: u64, audio: seq<byte>, spare: UserAddress)
    requires |audio| >= 32 && 9 + |audio| <= MAX_PACKET_SIZE
    ensures Decode(Encode(BroadcastAudio(id, audio)), spare) == Ok(ClientAssignment(id, FromBytes(audio[..32])))
  {
    var e := Encode(BroadcastAudio(id, audio));
    assert e[1..9] == PutLe(id, 8) && e[9..41] == audio[..32];
    U64RoundTrip(e, 1, id);
  }

  // ---------------------------------------------------------------- encode after decode

  lemma AddrAtCanonical(d: seq<byte>, off: nat)
    requires off + 32 <= |d|
    ensures Canonical(AddrAt(d, off))
  {
    ToFromBytes(d[off..off + 32]);
  }

  lemma {:induction false} DecodedSpeakersCanonical(bs: seq<byte>)
    ensures AllCanonical(DecodeSpeakers(bs))
  {
    if |bs| >= 32 {
      ToFromBytes(bs[..32]);
      DecodedSpeakersCanonical(bs[32..]);
    }
  }

  /** Whatever bytes arrive, a packet the decoder accepts is well formed. */
  lemma DecodedIsWellFormed(d: seq<byte>, spare: UserAddress)
    requires Canonical(spare)
    ensures Decode(d, spare).Ok? ==> WellFormed(Decode(d, spare).packet)
  {
    hide FromBytes, Canonical, DecodeSpeakers, GetLe;
    if |d| >= 33 { AddrAtCanonical(d, 1); }
    if |d| >= 41 { AddrAtCanonical(d, 9); }
    if |d| >= 73 { AddrAtCanonical(d, 41); }
    if |d| >= 81 { AddrAtCanonical(d, 17); AddrAtCanonical(d, 49); }
    if |d| >= 33 { DecodedSpeakersCanonical(d[33..]); }
  }

  /** So re-encoding and decoding it again changes nothing. */
  lemma AcceptedSurvives(d: seq<byte>, spare: UserAddress, spare': UserAddress)
    requires Canonical(spare) && Decode(d, spare).Ok?
    ensures Decode(Encode(Decode(d, spare).packet), spare') == Decode(d, spare)
  {
    DecodedIsWellFormed(d, spare);
    RoundTrip(Decode(d, spare).packet, spare');
  }

  // ---------------------------------------------------------------- what is refused, and why

  /** The least length each known tag needs; `None` for an unknown tag. */
  function MinLength(tag: u8): (n: Option<nat>) {
    if tag in {0x00, 0x01, 0x12, 0x13} then Some(9)
    else if tag in {0x02, 0x03, 0x10, 0x14} then Some(34)
    else if tag == 0x04 then Some(83)
    else if tag == 0x05 then Some(41)
    else if tag == 0x0E then Some(37)
    else if tag == 0x15 then Some(35)
    else if 0x06 <= tag <= 0x11 || tag == 0xFF then Some(33)
    else None
  }

  /** How many bytes of a packet of length `n` with this tag count against the audio limit. */
  function AudioLength(tag: u8, n: nat): (k: int) {
    if tag in {0x02, 0x10} then n - 34
    else if tag == 0x03 then if n >= 74 then n - 74 else n - 33
    else if tag == 0x04 then n - 83
    else if tag == 0x15 then n - 35
    else 0
  }

  /** The decoder accepts a byte string exactly when its size, tag, length, audio payload and
      speaker count are all in order; the contents of the fields never matter. */
  lemma AcceptedExactly(d: seq<byte>, spare: UserAddress)
    ensures Decode(d, spare).Ok? <==>
      && 0 < |d| <= 1048576
      && MinLength(d[0]).Some? && |d| >= MinLength(d[0]).value
      && AudioLength(d[0], |d|) <= 16384
      && (d[0] == 0x11 ==> (|d| - 33) / 32 <= 64)
    ensures Decode(d, spare).Err? && Decode(d, spare).error.InsufficientLength? <==>
      && 0 < |d| <= 1048576 && MinLength(d[0]).Some? && |d| < MinLength(d[0]).value
    ensures Decode(d, spare).Err? && Decode(d, spare).error.UnknownPacketType? <==>
      0 < |d| <= 1048576 && MinLength(d[0]).None?
  {
  }
}
