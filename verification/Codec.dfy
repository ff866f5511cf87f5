/**
 The DataChannel packet codec of WPIP-04: packet types, the encoder and the decoder over
 byte strings, and the round trips in both directions.
 */
module Codec {
  import opened Basics
  import opened Bytes
  import opened Addresses

  const CODEC_OPUS: u8 := 0x01

  const MAX_PACKET_SIZE := 1048576
  const MAX_AUDIO_PAYLOAD_SIZE := 16384
  const MAX_SPEAKER_ADDRESSES := 64

  const MIN_LEN_CLIENT_ASSIGNMENT := 9
  const FULL_LEN_CLIENT_ASSIGNMENT := 41
  const MIN_LEN_CLIENT_TARGETED_AUDIO := 34
  const MIN_LEN_SERVER_TARGETED_AUDIO := 74
  const MIN_LEN_PEER_TARGETED_AUDIO := 83
  const MIN_LEN_CALL_REQUEST := 41
  const MIN_LEN_ADDRESS_ONLY_PACKET := 33
  const MIN_LEN_ROOM_STATE_NOTIFICATION := 37
  const MIN_LEN_PING_PONG := 9
  const MIN_LEN_VIDEO_FRAME_DATA := 34
  const MIN_LEN_ROOM_GROUP_AUDIO_E2EE := 35

  datatype Packet =
    | ClientAssignment(clientId: u64, userAddress: UserAddress)
    | ClientTargetedAudio(targetAddress: UserAddress, codecId: u8, audioData: seq<byte>)
    | ServerTargetedAudio(targetAddress: UserAddress, senderId: u64, senderAddress: UserAddress,
                          codecId: u8, audioData: seq<byte>)
    | PeerTargetedAudio(senderId: u64, originNode: u64, targetAddress: UserAddress,
                        senderAddress: UserAddress, codecId: u8, ttl: u8, audioData: seq<byte>)
    | CallRequest(callerId: u64, callerAddress: UserAddress)
    | CallAcceptResponse(callerAddress: UserAddress)
    | CallRejectResponse(callerAddress: UserAddress)
    | CallAcceptedNotification(targetAddress: UserAddress)
    | CallRejectedNotification(targetAddress: UserAddress)
    | ConnectionError(targetAddress: UserAddress)
    | CallHangup(targetAddress: UserAddress)
    | CallEndedNotification(targetAddress: UserAddress)
    | RoomJoinRequest(roomAddress: UserAddress)
    | RoomStateNotification(roomAddress: UserAddress, participantCount: u32)
    | RoomLeaveRequest(roomAddress: UserAddress)
    | RoomGroupAudio(roomAddress: UserAddress, codecId: u8, audioData: seq<byte>)
    | ActiveSpeakerNotice(roomAddress: UserAddress, speakerAddresses: seq<UserAddress>)
    | Ping(timestamp: u64)
    | Pong(timestamp: u64)
    | VideoFrameData(targetAddress: UserAddress, videoCodecId: u8, frameData: seq<byte>)
    | RoomGroupAudioE2EE(roomAddress: UserAddress, codecId: u8, audioEnergy: u8, audioData: seq<byte>)
    | BroadcastAudio(senderId: u64, audioData: seq<byte>)

  datatype ProtocolError =
    | EmptyPacket
    | PacketTooLarge(actual: nat)
    | AudioPayloadTooLarge(actual: nat)
    | TooManySpeakers(actual: nat)
    | UnknownPacketType(tag: u8)
    | InsufficientLength(packetType: u8, actual: nat, expected: nat)

  datatype Decoded = Ok(packet: Packet) | Err(error: ProtocolError)

  // ---------------------------------------------------------------- encoding

  function EncodeSpeakers(addrs: seq<UserAddress>): (bs: seq<byte>)
    ensures |bs| == 32 * |addrs|
  {
    if addrs == [] then [] else ToBytes(addrs[0]) + EncodeSpeakers(addrs[1..])
  }

  /** The layout of each packet, field after field. */
  function Encode(p: Packet): (bs: seq<byte>)
    ensures bs != []
  {
    match p
    case ClientAssignment(id, a) => [0x01] + PutLe(id, 8) + ToBytes(a)
    case ClientTargetedAudio(t, codec, audio) => [0x02] + ToBytes(t) + [codec] + audio
    case ServerTargetedAudio(t, id, s, codec, audio) =>
      [0x03] + ToBytes(t) + PutLe(id, 8) + ToBytes(s) + [codec] + audio
    case PeerTargetedAudio(id, origin, t, s, codec, ttl, audio) =>
      [0x04] + PutLe(id, 8) + PutLe(origin, 8) + ToBytes(t) + ToBytes(s) + [codec, ttl] + audio
    case CallRequest(id, a) => [0x05] + PutLe(id, 8) + ToBytes(a)
    case CallAcceptResponse(a) => [0x06] + ToBytes(a)
    case CallRejectResponse(a) => [0x07] + ToBytes(a)
    case CallAcceptedNotification(a) => [0x08] + ToBytes(a)
    case CallRejectedNotification(a) => [0x09] + ToBytes(a)
    case ConnectionError(a) => [0x0A] + ToBytes(a)
    case CallHangup(a) => [0x0B] + ToBytes(a)
    case CallEndedNotification(a) => [0x0C] + ToBytes(a)
    case RoomJoinRequest(a) => [0x0D] + ToBytes(a)
    case RoomStateNotification(a, n) => [0x0E] + ToBytes(a) + PutLe(n, 4)
    case RoomLeaveRequest(a) => [0x0F] + ToBytes(a)
    case RoomGroupAudio(a, codec, audio) => [0x10] + ToBytes(a) + [codec] + audio
    case ActiveSpeakerNotice(a, speakers) => [0x11] + ToBytes(a) + EncodeSpeakers(speakers)
    case Ping(t) => [0x12] + PutLe(t, 8)
    case Pong(t) => [0x13] + PutLe(t, 8)
    case VideoFrameData(t, codec, frame) => [0x14] + ToBytes(t) + [codec] + frame
    case RoomGroupAudioE2EE(a, codec, energy, audio) => [0x15] + ToBytes(a) + [codec, energy] + audio
    case BroadcastAudio(id, audio) => [0x00] + PutLe(id, 8) + audio
  }

  // ---------------------------------------------------------------- decoding

  function AddrAt(d: seq<byte>, off: nat): (a: UserAddress)
    requires off + 32 <= |d|
  {
    FromBytes(d[off..off + 32])
  }

  function U64At(d: seq<byte>, off: nat): (n: u64)
    requires off + 8 <= |d|
  {
    WordSizes();
    GetLe(d[off..off + 8])
  }

  function U32At(d: seq<byte>, off: nat): (n: u32)
    requires off + 4 <= |d|
  {
    WordSizes();
    GetLe(d[off..off + 4])
  }

  function DecodeSpeakers(bs: seq<byte>): (addrs: seq<UserAddress>)
    ensures |addrs| == |bs| / 32
  {
    if |bs| < 32 then [] else [FromBytes(bs[..32])] + DecodeSpeakers(bs[32..])
  }

  function TooShort(d: seq<byte>, expected: nat): (r: Decoded)
    requires d != []
  {
    Err(InsufficientLength(d[0], |d|, expected))
  }

  /** The payload limit that most audio packets share. */
  function Limited(audio: seq<byte>, p: Packet): (r: Decoded) {
    if |audio| > MAX_AUDIO_PAYLOAD_SIZE then Err(AudioPayloadTooLarge(|audio|)) else Ok(p)
  }

  /** Tags 0x00 and 0x01; `spare` stands for the address the decoder invents when none is sent. */
  function DecodeClientAssignment(d: seq<byte>, spare: UserAddress): (r: Decoded)
    requires d != []
  {
    if d[0] == 0x00 && MIN_LEN_CLIENT_ASSIGNMENT <= |d| < FULL_LEN_CLIENT_ASSIGNMENT
    then Ok(BroadcastAudio(U64At(d, 1), d[9..]))
    else if |d| < MIN_LEN_CLIENT_ASSIGNMENT then TooShort(d, MIN_LEN_CLIENT_ASSIGNMENT)
    else if |d| >= FULL_LEN_CLIENT_ASSIGNMENT then Ok(ClientAssignment(U64At(d, 1), AddrAt(d, 9)))
    else Ok(ClientAssignment(U64At(d, 1), spare))
  }

  function DecodeServerTargetedAudio(d: seq<byte>): (r: Decoded)
    requires d != []
  {
    if |d| < MIN_LEN_CLIENT_TARGETED_AUDIO then TooShort(d, MIN_LEN_CLIENT_TARGETED_AUDIO)
    else if |d| >= MIN_LEN_SERVER_TARGETED_AUDIO
    then Limited(d[74..], ServerTargetedAudio(AddrAt(d, 1), U64At(d, 33), AddrAt(d, 41), d[73], d[74..]))
    else Limited(d[33..], ClientTargetedAudio(AddrAt(d, 1), CODEC_OPUS, d[33..]))
  }

  function DecodePeerTargetedAudio(d: seq<byte>): (r: Decoded)
    requires d != []
  {
    if |d| < MIN_LEN_PEER_TARGETED_AUDIO then TooShort(d, MIN_LEN_PEER_TARGETED_AUDIO)
    else Limited(d[83..], PeerTargetedAudio(U64At(d, 1), U64At(d, 9), AddrAt(d, 17), AddrAt(d, 49), d[81], d[82], d[83..]))
  }

  function DecodeAddressOnly(d: seq<byte>, make: UserAddress -> Packet): (r: Decoded)
    requires d != []
  {
    if |d| < MIN_LEN_ADDRESS_ONLY_PACKET then TooShort(d, MIN_LEN_ADDRESS_ONLY_PACKET)
    else Ok(make(AddrAt(d, 1)))
  }

  function DecodeActiveSpeakerNotice(d: seq<byte>): (r: Decoded)
    requires d != []
  {
    if |d| < MIN_LEN_ADDRESS_ONLY_PACKET then TooShort(d, MIN_LEN_ADDRESS_ONLY_PACKET)
    else if (|d| - 33) / 32 > MAX_SPEAKER_ADDRESSES then Err(TooManySpeakers((|d| - 33) / 32))
    else Ok(ActiveSpeakerNotice(AddrAt(d, 1), DecodeSpeakers(d[33..])))
  }

  /** `ProtocolPacket::decode`. Every index is checked to lie inside `d`. */
  function Decode(d: seq<byte>, spare: UserAddress): (r: Decoded) {
    if d == [] then Err(EmptyPacket)
    else if |d| > MAX_PACKET_SIZE then Err(PacketTooLarge(|d|))
    else match d[0]
      case 0x00 => DecodeClientAssignment(d, spare)
      case 0x01 => DecodeClientAssignment(d, spare)
      case 0x02 =>
        if |d| < MIN_LEN_CLIENT_TARGETED_AUDIO then TooShort(d, MIN_LEN_CLIENT_TARGETED_AUDIO)
        else Limited(d[34..], ClientTargetedAudio(AddrAt(d, 1), d[33], d[34..]))
      case 0x03 => DecodeServerTargetedAudio(d)
      case 0x04 => DecodePeerTargetedAudio(d)
      case 0x05 =>
        if |d| < MIN_LEN_CALL_REQUEST then TooShort(d, MIN_LEN_CALL_REQUEST)
        else Ok(CallRequest(U64At(d, 1), AddrAt(d, 9)))
      case 0x06 => DecodeAddressOnly(d, a => CallAcceptResponse(a))
      case 0x07 => DecodeAddressOnly(d, a => CallRejectResponse(a))
      case 0x08 => DecodeAddressOnly(d, a => CallAcceptedNotification(a))
      case 0x09 => DecodeAddressOnly(d, a => CallRejectedNotification(a))
      case 0x0A => DecodeAddressOnly(d, a => ConnectionError(a))
      case 0xFF => DecodeAddressOnly(d, a => ConnectionError(a))
      case 0x0B => DecodeAddressOnly(d, a => CallHangup(a))
      case 0x0C => DecodeAddressOnly(d, a => CallEndedNotification(a))
      case 0x0D => DecodeAddressOnly(d, a => RoomJoinRequest(a))
      case 0x0E =>
        if |d| < MIN_LEN_ROOM_STATE_NOTIFICATION then TooShort(d, MIN_LEN_ROOM_STATE_NOTIFICATION)
        else Ok(RoomStateNotification(AddrAt(d, 1), U32At(d, 33)))
      case 0x0F => DecodeAddressOnly(d, a => RoomLeaveRequest(a))
      case 0x10 =>
        if |d| < MIN_LEN_CLIENT_TARGETED_AUDIO then TooShort(d, MIN_LEN_CLIENT_TARGETED_AUDIO)
        else Limited(d[34..], RoomGroupAudio(AddrAt(d, 1), d[33], d[34..]))
      case 0x11 => DecodeActiveSpeakerNotice(d)
      case 0x12 => if |d| < MIN_LEN_PING_PONG then TooShort(d, MIN_LEN_PING_PONG) else Ok(Ping(U64At(d, 1)))
      case 0x13 => if |d| < MIN_LEN_PING_PONG then TooShort(d, MIN_LEN_PING_PONG) else Ok(Pong(U64At(d, 1)))
      case 0x14 =>
        if |d| < MIN_LEN_VIDEO_FRAME_DATA then TooShort(d, MIN_LEN_VIDEO_FRAME_DATA)
        else Ok(VideoFrameData(AddrAt(d, 1), d[33], d[34..]))
      case 0x15 =>
        if |d| < MIN_LEN_ROOM_GROUP_AUDIO_E2EE then TooShort(d, MIN_LEN_ROOM_GROUP_AUDIO_E2EE)
        else Limited(d[35..], RoomGroupAudioE2EE(AddrAt(d, 1), d[33], d[34], d[35..]))
      case tag => Err(UnknownPacketType(tag))
  }

  // ---------------------------------------------------------------- the loops

  /** The encoder's loop over speaker addresses. */
  method AppendSpeakers(buf: seq<byte>, speakers: seq<UserAddress>) returns (b: seq<byte>)
    ensures b == buf + EncodeSpeakers(speakers)
  {
    hide ToBytes;
    b := buf;
    for i := 0 to |speakers|
      invariant b + EncodeSpeakers(speakers[i..]) == buf + EncodeSpeakers(speakers)
    {
      assert speakers[i..][1..] == speakers[i + 1..];
      b := b + ToBytes(speakers[i]);
    }
  }

  method EncodeAddressPacket(tag: u8, a: UserAddress) returns (b: seq<byte>)
    ensures b == [tag] + ToBytes(a)
  {
    b := [tag];
    b := b + ToBytes(a);
  }

  predicate CarriesPayload(p: Packet) {
    || p.ClientTargetedAudio? || p.ServerTargetedAudio? || p.PeerTargetedAudio? || p.RoomGroupAudio?
    || p.VideoFrameData? || p.RoomGroupAudioE2EE? || p.BroadcastAudio?
  }

  /** The arms of `ProtocolPacket::encode` that end in a payload. */
  method EncodePayloadPacket(p: Packet) returns (b: seq<byte>)
    requires CarriesPayload(p)
    ensures b == Encode(p)
  {
    hide ToBytes, PutLe;
    match p
    case ClientTargetedAudio(t, codec, audio) =>
      b := EncodeAddressPacket(0x02, t);
      b := b + [codec];
      b := b + audio;
    case ServerTargetedAudio(t, id, s, codec, audio) =>
      b := EncodeAddressPacket(0x03, t);
      b := b + PutLe(id, 8);
      b := b + ToBytes(s);
      b := b + [codec];
      b := b + audio;
    case PeerTargetedAudio(id, origin, t, s, codec, ttl, audio) =>
      b := [0x04];
      b := b + PutLe(id, 8);
      b := b + PutLe(origin, 8);
      b := b + ToBytes(t);
      b := b + ToBytes(s);
      b := b + [codec];
      b := b + [ttl];
      b := b + audio;
    case RoomGroupAudio(a, codec, audio) =>
      b := EncodeAddressPacket(0x10, a);
      b := b + [codec];
      b := b + audio;
    case VideoFrameData(t, codec, frame) =>
      b := EncodeAddressPacket(0x14, t);
      b := b + [codec];
      b := b + frame;
    case RoomGroupAudioE2EE(a, codec, energy, audio) =>
      b := EncodeAddressPacket(0x15, a);
      b := b + [codec];
      b := b + [energy];
      b := b + audio;
    case BroadcastAudio(id, audio) =>
      b := [0x00];
      b := b + PutLe(id, 8);
      b := b + audio;
  }

  /** `ProtocolPacket::encode`, appending one field after the other to a buffer. */
  method EncodePacket(p: Packet) returns (b: seq<byte>)
    ensures b == Encode(p)
  {
    hide ToBytes, PutLe;
    if CarriesPayload(p) {
      b := EncodePayloadPacket(p);
      return;
    }
    match p
    case ClientAssignment(id, a) =>
      b := [0x01];
      b := b + PutLe(id, 8);
      b := b + ToBytes(a);
    case CallRequest(id, a) =>
      b := [0x05];
      b := b + PutLe(id, 8);
      b := b + ToBytes(a);
    case CallAcceptResponse(a) => b := EncodeAddressPacket(0x06, a);
    case CallRejectResponse(a) => b := EncodeAddressPacket(0x07, a);
    case CallAcceptedNotification(a) => b := EncodeAddressPacket(0x08, a);
    case CallRejectedNotification(a) => b := EncodeAddressPacket(0x09, a);
    case ConnectionError(a) => b := EncodeAddressPacket(0x0A, a);
    case CallHangup(a) => b := EncodeAddressPacket(0x0B, a);
    case CallEndedNotification(a) => b := EncodeAddressPacket(0x0C, a);
    case RoomJoinRequest(a) => b := EncodeAddressPacket(0x0D, a);
    case RoomStateNotification(a, n) =>
      b := EncodeAddressPacket(0x0E, a);
      b := b + PutLe(n, 4);
    case RoomLeaveRequest(a) => b := EncodeAddressPacket(0x0F, a);
    case ActiveSpeakerNotice(a, speakers) =>
      b := EncodeAddressPacket(0x11, a);
      b := AppendSpeakers(b, speakers);
    case Ping(t) =>
      b := [0x12];
      b := b + PutLe(t, 8);
    case Pong(t) =>
      b := [0x13];
      b := b + PutLe(t, 8);
  }

  /** The decoder's loop: read 32-byte addresses while enough bytes remain. */
  method ReadSpeakers(bs: seq<byte>) returns (addrs: seq<UserAddress>)
    ensures addrs == DecodeSpeakers(bs)
  {
    addrs := [];
    var rest := bs;
    while |rest| >= 32
      invariant addrs + DecodeSpeakers(rest) == DecodeSpeakers(bs)
    {
      addrs, rest := addrs + [FromBytes(rest[..32])], rest[32..];
    }
  }

  // ---------------------------------------------------------------- packets that survive

  predicate AllCanonical(addrs: seq<UserAddress>) {
    forall i :: 0 <= i < |addrs| ==> Canonical(addrs[i])
  }

  predicate AudioFits(audio: seq<byte>) {
    |audio| <= MAX_AUDIO_PAYLOAD_SIZE
  }

  /** The packets the wire can carry faithfully. */
  predicate WellFormed(p: Packet) {
    match p
    case ClientAssignment(_, a) => Canonical(a)
    case ClientTargetedAudio(t, _, audio) => Canonical(t) && AudioFits(audio)
    case ServerTargetedAudio(t, _, s, _, audio) => Canonical(t) && Canonical(s) && AudioFits(audio)
    case PeerTargetedAudio(_, _, t, s, _, _, audio) => Canonical(t) && Canonical(s) && AudioFits(audio)
    case CallRequest(_, a) => Canonical(a)
    case CallAcceptResponse(a) => Canonical(a)
    case CallRejectResponse(a) => Canonical(a)
    case CallAcceptedNotification(a) => Canonical(a)
    case CallRejectedNotification(a) => Canonical(a)
    case ConnectionError(a) => Canonical(a)
    case CallHangup(a) => Canonical(a)
    case CallEndedNotification(a) => Canonical(a)
    case RoomJoinRequest(a) => Canonical(a)
    case RoomStateNotification(a, _) => Canonical(a)
    case RoomLeaveRequest(a) => Canonical(a)
    case RoomGroupAudio(a, _, audio) => Canonical(a) && AudioFits(audio)
    case ActiveSpeakerNotice(a, speakers) =>
      Canonical(a) && AllCanonical(speakers) && |speakers| <= MAX_SPEAKER_ADDRESSES
    case Ping(_) => true
    case Pong(_) => true
    case VideoFrameData(t, _, frame) => Canonical(t) && MIN_LEN_VIDEO_FRAME_DATA + |frame| <= MAX_PACKET_SIZE
    case RoomGroupAudioE2EE(a, _, _, audio) => Canonical(a) && AudioFits(audio)
    case BroadcastAudio(_, audio) => MIN_LEN_CLIENT_ASSIGNMENT + |audio| < FULL_LEN_CLIENT_ASSIGNMENT
  }
}
