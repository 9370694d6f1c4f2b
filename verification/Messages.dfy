/** Multihop messages and their byte layout (multihop_messages.h, multihop.cpp). */
module Messages {
  import opened Bytes

  type Address = Byte
  type Ring = Byte

  const GATEWAY_ADDR: Address := 0
  const UNKNOWN_ADDR: Address := 255
  const GATEWAY_RING: Ring := 0
  const UNKNOWN_RING: Ring := 255

  const HEADER_BYTES := 6
  const SEND_ACKS_BYTES := 2
  const DATAGRAM_BYTES := 4
  const CELLS := 8

  type Cells = c: seq<Byte> | |c| == CELLS witness [0, 0, 0, 0, 0, 0, 0, 0]

  /** How many neighbours were heard at `ringStart`, `ringStart + 1`, ... */
  datatype RingList = RingList(ringStart: Ring, counts: Cells)

  datatype Body =
    | OpenCluster(ring: Ring, node: Address, neighbors: RingList)
    | Follow(clusterhead: Address, follower: Address)
    | Accept(accepted: bool, follower: Address, startSlot: Byte, relativeSlot: Byte, remoteTime: U32)
    | CloseCluster(nomination: Address, neighbors: RingList)
    | SendAcks(start: Byte, end: Byte, acks: seq<U32>)
    | Datagram(count: Byte, part: Byte, data: seq<Byte>)
    | Heartbeat(ring: Ring)

  datatype Message = Message(sequence: U32, src: Address, body: Body)

  function TypeCode(b: Body): Byte {
    match b
    case OpenCluster(_, _, _) => 0
    case Follow(_, _) => 1
    case Accept(_, _, _, _, _) => 2
    case CloseCluster(_, _) => 3
    case SendAcks(_, _, _) => 4
    case Datagram(_, _, _) => 5
    case Heartbeat(_) => 6
  }

  /** The variable-length part of a message agrees with the field that describes it. */
  predicate WellFormed(m: Message) {
    match m.body
    case SendAcks(start, end, acks) => |acks| == if start < end then end - start else 0
    case Datagram(_, _, data) => |data| < 0x1_0000
    case _ => true
  }

  function EncodeRingList(r: RingList): (b: seq<Byte>)
    ensures |b| == 9
  {
    [r.ringStart] + r.counts
  }

  function EncodeBody(m: Body): (b: seq<Byte>)
    requires m.Datagram? ==> |m.data| < 0x1_0000
  {
    match m
    case OpenCluster(ring, node, neighbors) => [ring, node] + EncodeRingList(neighbors)
    case Follow(clusterhead, follower) => [clusterhead, follower]
    case Accept(accepted, follower, start, relative, time) =>
      [if accepted then 1 else 0, follower, start, relative] + PutU32(time)
    case CloseCluster(nomination, neighbors) => [nomination] + EncodeRingList(neighbors)
    case SendAcks(start, end, acks) => [start, end] + PutU32s(acks)
    case Datagram(count, part, data) => PutU16(|data|) + [count, part] + data
    case Heartbeat(ring) => [ring]
  }

  function EncodeHeader(m: Message): (b: seq<Byte>)
    ensures |b| == HEADER_BYTES
  {
    PutU32(m.sequence) + [m.src, TypeCode(m.body)]
  }

  function Encode(m: Message): (b: seq<Byte>)
    requires WellFormed(m)
  {
    EncodeHeader(m) + EncodeBody(m.body)
  }

  /** The bytes of a message: its time stamp, its sender and the code of its type, then the fields of its body in the
      order in which the source's packed structures have them, wider fields lowest byte first. */
  lemma WireLayout(m: Message)
    requires WellFormed(m)
    ensures var b := Encode(m);
      |b| >= 6 && U32At(b, 0) == m.sequence && b[4] == m.src && BodyLayout(b, m.body)
  {
    U32Layout(m.sequence);
    match m.body
    case Accept(_, _, _, _, time) => U32Layout(time);
    case SendAcks(_, _, acks) =>
      forall i | 0 <= i < |acks| ensures U32At(Encode(m), 8 + 4 * i) == acks[i] { U32sLayout(acks, i); }
    case _ =>
  }

  predicate BodyLayout(b: seq<Byte>, body: Body)
    requires |b| >= 6
  {
    match body
    case OpenCluster(ring, node, neighbors) =>
      |b| == 17 && b[5] == 0 && b[6] == ring && b[7] == node && b[8] == neighbors.ringStart
        && b[9..] == neighbors.counts
    case Follow(clusterhead, follower) => |b| == 8 && b[5] == 1 && b[6] == clusterhead && b[7] == follower
    case Accept(accepted, follower, start, relative, time) =>
      |b| == 14 && b[5] == 2 && b[6] == (if accepted then 1 else 0) && b[7] == follower && b[8] == start
        && b[9] == relative && U32At(b, 10) == time
    case CloseCluster(nomination, neighbors) =>
      |b| == 16 && b[5] == 3 && b[6] == nomination && b[7] == neighbors.ringStart && b[8..] == neighbors.counts
    case SendAcks(start, end, acks) =>
      |b| == 8 + 4 * |acks| && b[5] == 4 && b[6] == start && b[7] == end
        && forall i | 0 <= i < |acks| :: U32At(b, 8 + 4 * i) == acks[i]
    case Datagram(count, part, data) =>
      |b| == 10 + |data| && b[5] == 5 && b[6] as int + 0x100 * b[7] as int == |data| && b[8] == count && b[9] == part
        && b[10..] == data
    case Heartbeat(ring) => |b| == 7 && b[5] == 6 && b[6] == ring
  }

  function DecodeRingList(b: seq<Byte>): RingList
    requires |b| == 9
  {
    RingList(b[0], b[1..])
  }

  /** Size of the bodies that have one fixed length. */
  function FixedBodyBytes(kind: Byte): (n: Option<nat>) {
    if kind == 0 then Some(11)
    else if kind == 1 then Some(2)
    else if kind == 2 then Some(8)
    else if kind == 3 then Some(10)
    else if kind == 6 then Some(1)
    else None
  }

  /** The checks of `decode_msg`, then the fields read through the cast pointer. */
  function Decode(buf: seq<Byte>): (r: Option<Message>)
  {
    if |buf| < HEADER_BYTES then None
    else
      var body := DecodeBody(buf[5], buf[HEADER_BYTES..]);
      if body.None? then None else Some(Message(GetU32(buf[..4]), buf[4], body.value))
  }

  function DecodeBody(kind: Byte, b: seq<Byte>): (r: Option<Body>)
  {
    if kind == 4 then
      if |b| < SEND_ACKS_BYTES || b[1] <= b[0] || SEND_ACKS_BYTES + 4 * (b[1] as int - b[0] as int) != |b| then None
      else Some(SendAcks(b[0], b[1], GetU32s(b[2..])))
    else if kind == 5 then
      if |b| < DATAGRAM_BYTES || DATAGRAM_BYTES + GetU16(b[..2]) != |b| then None
      else Some(Datagram(b[2], b[3], b[4..]))
    else if FixedBodyBytes(kind) != Some(|b|) then None
    else if kind == 0 then Some(OpenCluster(b[0], b[1], DecodeRingList(b[2..])))
    else if kind == 1 then Some(Follow(b[0], b[1]))
    else if kind == 2 then Some(Accept(b[0] != 0, b[1], b[2], b[3], GetU32(b[4..])))
    else if kind == 3 then Some(CloseCluster(b[0], DecodeRingList(b[1..])))
    else Some(Heartbeat(b[0]))
  }

  /** An ack message that carries no acks is sent by the clusterhead but refused by every receiver. */
  predicate EmptyAcks(m: Message) { m.body.SendAcks? && m.body.end <= m.body.start }

  lemma BodyRoundTrip(m: Message)
    requires WellFormed(m)
    ensures DecodeBody(TypeCode(m.body), EncodeBody(m.body)) == if EmptyAcks(m) then None else Some(m.body)
  {
    var b := EncodeBody(m.body);
    match m.body
    case OpenCluster(ring, node, neighbors) => assert b[2..] == EncodeRingList(neighbors);
      assert b[2..][1..] == neighbors.counts;
    case Follow(_, _) =>
    case Accept(accepted, follower, start, relative, time) =>
      assert b[4..] == PutU32(time);
      U32RoundTrip(time, b[4..]);
    case CloseCluster(nomination, neighbors) => assert b[1..] == EncodeRingList(neighbors);
      assert b[1..][1..] == neighbors.counts;
    case SendAcks(start, end, acks) =>
      assert b[2..] == PutU32s(acks);
      U32sRoundTrip(acks);
    case Datagram(count, part, data) =>
      assert b[..2] == PutU16(|data|) && b[4..] == data;
      U16RoundTrip(|data|, b[..2]);
    case Heartbeat(_) =>
  }

  /** Every message comes back from its bytes, except an ack message without acks. */
  lemma DecodeEncode(m: Message)
    requires WellFormed(m)
    ensures Decode(Encode(m)) == if EmptyAcks(m) then None else Some(m)
  {
    var b := Encode(m);
    assert b[HEADER_BYTES..] == EncodeBody(m.body) && b[..4] == PutU32(m.sequence);
    U32RoundTrip(m.sequence, b[..4]);
    BodyRoundTrip(m);
  }

  /** Accepted bytes denote one message only; the `accepted` byte is 0 or 1 in a C++ bool. */
  lemma EncodeDecode(b: seq<Byte>)
    requires Decode(b).Some?
    requires b[5] == 2 ==> b[6] <= 1
    ensures WellFormed(Decode(b).value) && !EmptyAcks(Decode(b).value)
    ensures Encode(Decode(b).value) == b
  {
    var m := Decode(b).value;
    var body := b[HEADER_BYTES..];
    U32RoundTrip(0, b[..4]);
    assert EncodeHeader(m) == b[..HEADER_BYTES] by {
      assert b[..HEADER_BYTES] == b[..4] + [b[4], b[5]];
    }
    EncodeDecodeBody(b[5], body);
    assert b == b[..HEADER_BYTES] + body;
  }

  lemma RingListRoundTrip(b: seq<Byte>)
    requires |b| == 9
    ensures EncodeRingList(DecodeRingList(b)) == b
  {
  }

  lemma VariableBodyRoundTrip(kind: Byte, b: seq<Byte>)
    requires DecodeBody(kind, b).Some? && kind in {4, 5}
    ensures var m := DecodeBody(kind, b).value;
      TypeCode(m) == kind && WellFormed(Message(0, 0, m)) && EncodeBody(m) == b
  {
    if kind == 4 {
      BytesU32sRoundTrip(b[2..]);
      assert b == [b[0], b[1]] + b[2..];
    } else {
      U16RoundTrip(0, b[..2]);
      assert b == b[..2] + [b[2], b[3]] + b[4..];
    }
  }

  lemma EncodeDecodeBody(kind: Byte, b: seq<Byte>)
    requires DecodeBody(kind, b).Some?
    requires kind == 2 ==> b[0] <= 1
    ensures var m := DecodeBody(kind, b).value;
      TypeCode(m) == kind && WellFormed(Message(0, 0, m)) && EncodeBody(m) == b
  {
    if kind == 4 || kind == 5 {
      VariableBodyRoundTrip(kind, b);
    } else if kind == 0 {
      RingListRoundTrip(b[2..]);
      assert b == [b[0], b[1]] + b[2..];
    } else if kind == 2 {
      U32RoundTrip(0, b[4..]);
      assert b == [b[0], b[1], b[2], b[3]] + b[4..];
    } else if kind == 3 {
      RingListRoundTrip(b[1..]);
      assert b == [b[0]] + b[1..];
    }
  }
}
