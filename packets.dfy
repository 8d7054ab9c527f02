/**
 * The wire format: a packed header {uint32 type; size_t size} followed by a
 * fixed-layout payload. Integers travel in host byte order; the model fixes it
 * to little-endian with an 8-byte size_t. Floats are carried as their 32-bit
 * patterns, never interpreted.
 */
module Packets {
  import opened Bytes
  import opened Wrappers

  /** An IEEE-754 single, kept as its bit pattern. */
  type F32 = u32

  // ---------------------------------------------------------------------------
  // Header (same layout in both directions)

  datatype Header = Header(kind: u32, size: u64)

  const HeaderSize: nat := 12

  /** The packed header: the type in bytes 0..3, then the size in bytes 4..11, no padding. */
  function EncodeHeader(h: Header): (r: seq<byte>)
    ensures |r| == HeaderSize
    ensures r[..4] == EncodeU32(h.kind) && r[4..] == EncodeU64(h.size)
  {
    EncodeU32(h.kind) + EncodeU64(h.size)
  }

  function DecodeHeader(s: seq<byte>): (h: Header)
    requires |s| == HeaderSize
  {
    Header(DecodeU32(s[..4]), DecodeU64(s[4..]))
  }

  /** The packed header is a bijection between headers and 12-byte strings. */
  lemma HeaderRoundTrip(h: Header, s: seq<byte>)
    requires |s| == HeaderSize
    ensures DecodeHeader(EncodeHeader(h)) == h
    ensures EncodeHeader(DecodeHeader(s)) == s
  {
    var e := EncodeHeader(h);
    assert e[..4] == EncodeU32(h.kind) && e[4..] == EncodeU64(h.size);
    U32RoundTrip(h.kind, s[..4]);
    U64RoundTrip(h.size, s[4..]);
    assert s == s[..4] + s[4..];
  }

  /** A header announcing |payload| bytes, followed by the payload. */
  function Frame(kind: u32, payload: seq<byte>): (r: seq<byte>)
    requires |payload| < 0x1_0000_0000_0000_0000
    ensures |r| == HeaderSize + |payload|
    ensures DecodeHeader(r[..HeaderSize]) == Header(kind, |payload|)
    ensures r[HeaderSize..] == payload
  {
    var h := EncodeHeader(Header(kind, |payload|));
    HeaderRoundTrip(Header(kind, |payload|), h);
    assert (h + payload)[..HeaderSize] == h;
    h + payload
  }

  // ---------------------------------------------------------------------------
  // Putting a packet on a socket

  /** One ::send call: the descriptor written to and the bytes handed over. */
  datatype Write = Write(fd: int, bytes: seq<byte>)

  /** The two ::send calls of `send` (server) and `sendPacket` (client): header, then payload. */
  function SendWrites(fd: int, kind: u32, data: seq<byte>): (w: seq<Write>)
    requires |data| < 0x1_0000_0000_0000_0000
  {
    [Write(fd, EncodeHeader(Header(kind, |data|))), Write(fd, data)]
  }

  /** The two writes of `send` put exactly one framed packet on the client's socket. */
  lemma SendWritesFrame(fd: int, kind: u32, data: seq<byte>)
    requires |data| < 0x1_0000_0000_0000_0000
    ensures |SendWrites(fd, kind, data)| == 2
    ensures forall w <- SendWrites(fd, kind, data) :: w.fd == fd
    ensures SendWrites(fd, kind, data)[0].bytes + SendWrites(fd, kind, data)[1].bytes == Frame(kind, data)
  {
    var h := Header(kind, |data|);
    HeaderRoundTrip(h, EncodeHeader(h));
  }

  // ---------------------------------------------------------------------------
  // Serverbound packets

  datatype ServerboundType = Join | Leave | Move | Rotate | Look | Teleport

  function ServerboundCode(t: ServerboundType): (c: u32)
    ensures c < 6
  {
    match t
    case Join => 0
    case Leave => 1
    case Move => 2
    case Rotate => 3
    case Look => 4
    case Teleport => 5
  }

  /** The enumerant a received type word names; None for words beyond Teleport. */
  function ServerboundFromCode(c: u32): (r: Option<ServerboundType>)
    ensures r.Some? <==> c < 6
    ensures r.Some? ==> ServerboundCode(r.value) == c
  {
    if c == 0 then Some(Join)
    else if c == 1 then Some(Leave)
    else if c == 2 then Some(Move)
    else if c == 3 then Some(Rotate)
    else if c == 4 then Some(Look)
    else if c == 5 then Some(Teleport)
    else None
  }

  lemma ServerboundCodeInjective(t: ServerboundType, t': ServerboundType)
    ensures ServerboundFromCode(ServerboundCode(t)) == Some(t)
    ensures ServerboundCode(t) == ServerboundCode(t') ==> t == t'
  {
  }

  /** A char[64] field of the Join packet. */
  type Field = s: seq<byte> | |s| == 64 witness seq(64, _ => 0 as byte)

  const FieldSize: nat := 64

  datatype JoinPacket = JoinPacket(name: Field, companion: Field)
  datatype MovePacket = MovePacket(dx: F32, dy: F32, dz: F32)
  datatype RotatePacket = RotatePacket(yaw: F32)
  datatype LookPacket = LookPacket(yaw: F32, pitch: F32)

  /** The declared teleport targets: only Player. */
  datatype TeleportTarget = Player

  function TeleportTargetCode(t: TeleportTarget): (c: byte)
    ensures c == 0
  {
    match t
    case Player => 0
  }

  /** The target byte as sent: any uint8, declared or not. */
  datatype TeleportPacket = TeleportPacket(target: byte)

  datatype ServerPacket =
    | JoinP(join: JoinPacket)
    | LeaveP
    | MoveP(move: MovePacket)
    | RotateP(rotate: RotatePacket)
    | LookP(look: LookPacket)
    | TeleportP(teleport: TeleportPacket)

  function KindOf(p: ServerPacket): ServerboundType
  {
    match p
    case JoinP(_) => Join
    case LeaveP => Leave
    case MoveP(_) => Move
    case RotateP(_) => Rotate
    case LookP(_) => Look
    case TeleportP(_) => Teleport
  }

  /**
   * The number of payload bytes each packet carries: sizeof of its packed
   * struct, except that Leave has no fields and so carries none (sizeof of
   * the empty LeavePacket is 1, but no code path sends or decodes a Leave).
   */
  function PayloadSize(t: ServerboundType): nat
  {
    match t
    case Join => 128
    case Leave => 0
    case Move => 12
    case Rotate => 4
    case Look => 8
    case Teleport => 1
  }

  function EncodeJoin(p: JoinPacket): (r: seq<byte>)
    ensures |r| == 128
    ensures r[..FieldSize] == p.name && r[FieldSize..] == p.companion
  {
    p.name + p.companion
  }

  function DecodeJoin(s: seq<byte>): (p: JoinPacket)
    requires |s| == 128
  {
    JoinPacket(s[..FieldSize], s[FieldSize..])
  }

  /** The Join payload is at least sizeof(JoinPacket) and both fields are NUL-terminated. */
  predicate JoinReadable(data: seq<byte>)
  {
    |data| >= 128 && 0 in data[..FieldSize] && 0 in data[FieldSize..128]
  }

  function JoinName(data: seq<byte>): seq<byte>
    requires JoinReadable(data)
  {
    CString(data[..FieldSize])
  }

  function JoinCompanion(data: seq<byte>): seq<byte>
    requires JoinReadable(data)
  {
    CString(data[FieldSize..128])
  }

  /** dx in bytes 0..3, dy in 4..7, dz in 8..11. */
  function EncodeMove(m: MovePacket): (r: seq<byte>)
    ensures |r| == 12
    ensures r[..4] == EncodeU32(m.dx) && r[4..8] == EncodeU32(m.dy) && r[8..] == EncodeU32(m.dz)
  {
    EncodeU32(m.dx) + EncodeU32(m.dy) + EncodeU32(m.dz)
  }

  function DecodeMove(s: seq<byte>): MovePacket
    requires |s| == 12
  {
    MovePacket(DecodeU32(s[..4]), DecodeU32(s[4..8]), DecodeU32(s[8..]))
  }

  /** yaw in bytes 0..3, pitch in 4..7. */
  function EncodeLook(l: LookPacket): (r: seq<byte>)
    ensures |r| == 8
    ensures r[..4] == EncodeU32(l.yaw) && r[4..] == EncodeU32(l.pitch)
  {
    EncodeU32(l.yaw) + EncodeU32(l.pitch)
  }

  function DecodeLook(s: seq<byte>): LookPacket
    requires |s| == 8
  {
    LookPacket(DecodeU32(s[..4]), DecodeU32(s[4..]))
  }

  function EncodePayload(p: ServerPacket): (r: seq<byte>)
    ensures |r| == PayloadSize(KindOf(p))
  {
    match p
    case JoinP(j) => EncodeJoin(j)
    case LeaveP => []
    case MoveP(m) => EncodeMove(m)
    case RotateP(r) => EncodeU32(r.yaw)
    case LookP(l) => EncodeLook(l)
    case TeleportP(t) => [t.target]
  }

  /** The payload of type t held in s; None when s is not exactly sizeof that struct. */
  function DecodePayload(t: ServerboundType, s: seq<byte>): (r: Option<ServerPacket>)
    ensures r.Some? <==> |s| == PayloadSize(t)
    ensures r.Some? ==> KindOf(r.value) == t
  {
    if |s| != PayloadSize(t) then None
    else match t
      case Join => Some(JoinP(DecodeJoin(s)))
      case Leave => Some(LeaveP)
      case Move => Some(MoveP(DecodeMove(s)))
      case Rotate => Some(RotateP(RotatePacket(DecodeU32(s))))
      case Look => Some(LookP(DecodeLook(s)))
      case Teleport => Some(TeleportP(TeleportPacket(s[0])))
  }

  /** Each float of Move is read back from its own offset, in declaration order, and the packet decodes to itself. */
  lemma MoveRoundTrip(m: MovePacket)
    ensures var e := EncodeMove(m);
            DecodeU32(e[..4]) == m.dx && DecodeU32(e[4..8]) == m.dy && DecodeU32(e[8..]) == m.dz
    ensures DecodeMove(EncodeMove(m)) == m
  {
    var e := EncodeMove(m);
    U32RoundTrip(m.dx, e[..4]);
    U32RoundTrip(m.dy, e[4..8]);
    U32RoundTrip(m.dz, e[8..]);
  }

  /** yaw is read back from bytes 0..3 and pitch from 4..7, and the packet decodes to itself. */
  lemma LookRoundTrip(l: LookPacket)
    ensures var e := EncodeLook(l);
            DecodeU32(e[..4]) == l.yaw && DecodeU32(e[4..]) == l.pitch
    ensures DecodeLook(EncodeLook(l)) == l
  {
    var e := EncodeLook(l);
    U32RoundTrip(l.yaw, e[..4]);
    U32RoundTrip(l.pitch, e[4..]);
  }

  /** Every payload decodes back to itself, field by field in declaration order. */
  lemma PayloadRoundTrip(p: ServerPacket)
    ensures DecodePayload(KindOf(p), EncodePayload(p)) == Some(p)
  {
    match p
    case JoinP(j) =>
      assert DecodeJoin(EncodeJoin(j)) == j;
    case LeaveP =>
    case MoveP(m) => MoveRoundTrip(m);
    case RotateP(r) => U32RoundTrip(r.yaw, EncodeU32(r.yaw));
    case LookP(l) => LookRoundTrip(l);
    case TeleportP(t) =>
  }

  /** Every byte string of the right size is the encoding of what it decodes to. */
  lemma PayloadBytesRoundTrip(t: ServerboundType, s: seq<byte>)
    requires |s| == PayloadSize(t)
    ensures EncodePayload(DecodePayload(t, s).value) == s
  {
    match t
    case Join =>
      assert s == s[..FieldSize] + s[FieldSize..];
    case Leave =>
    case Move =>
      U32RoundTrip(0, s[..4]);
      U32RoundTrip(0, s[4..8]);
      U32RoundTrip(0, s[8..]);
      assert s == s[..4] + s[4..8] + s[8..];
    case Rotate =>
      U32RoundTrip(0, s);
    case Look =>
      U32RoundTrip(0, s[..4]);
      U32RoundTrip(0, s[4..]);
      assert s == s[..4] + s[4..];
    case Teleport =>
      assert s == [s[0]];
  }

  /** A framed serverbound packet: the header names its type and exact payload size. */
  function EncodeServerPacket(p: ServerPacket): (r: seq<byte>)
  {
    Frame(ServerboundCode(KindOf(p)), EncodePayload(p))
  }

  /** Reading a framed packet back: header first, then the payload it announces. */
  lemma ServerFrameRoundTrip(p: ServerPacket)
    ensures var r := EncodeServerPacket(p);
            var h := DecodeHeader(r[..HeaderSize]);
            && h.size == PayloadSize(KindOf(p))
            && ServerboundFromCode(h.kind) == Some(KindOf(p))
            && DecodePayload(KindOf(p), r[HeaderSize..]) == Some(p)
  {
    PayloadRoundTrip(p);
    ServerboundCodeInjective(KindOf(p), KindOf(p));
  }

  // ---------------------------------------------------------------------------
  // Clientbound packets

  datatype ClientboundType = Disconnect

  function ClientboundCode(t: ClientboundType): (c: u32)
    ensures c == 0
  {
    match t
    case Disconnect => 0
  }

  datatype DisconnectReason = Generic | JoinDenied | UnknownCompanion | TooManyClients | Kicked

  function ReasonCode(r: DisconnectReason): (c: u32)
    ensures c < 5
  {
    match r
    case Generic => 0
    case JoinDenied => 1
    case UnknownCompanion => 2
    case TooManyClients => 3
    case Kicked => 4
  }

  function ReasonFromCode(c: u32): (r: Option<DisconnectReason>)
    ensures r.Some? <==> c < 5
    ensures r.Some? ==> ReasonCode(r.value) == c
  {
    if c == 0 then Some(Generic)
    else if c == 1 then Some(JoinDenied)
    else if c == 2 then Some(UnknownCompanion)
    else if c == 3 then Some(TooManyClients)
    else if c == 4 then Some(Kicked)
    else None
  }

  /** sizeof(DisconnectPacket). */
  const DisconnectSize: nat := 4

  function EncodeDisconnect(reason: DisconnectReason): (r: seq<byte>)
    ensures |r| == DisconnectSize
  {
    EncodeU32(ReasonCode(reason))
  }

  function DecodeDisconnect(s: seq<byte>): (r: Option<DisconnectReason>)
    requires |s| == DisconnectSize
  {
    ReasonFromCode(DecodeU32(s))
  }

  lemma DisconnectRoundTrip(reason: DisconnectReason)
    ensures DecodeDisconnect(EncodeDisconnect(reason)) == Some(reason)
  {
    U32RoundTrip(ReasonCode(reason), EncodeDisconnect(reason));
  }
}
