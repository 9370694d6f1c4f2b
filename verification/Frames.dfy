/** Link frames: packing, header, checksum, and what a receiver accepts (link_layer.cpp). */
module Frames {
  import opened Bytes
  import opened LinkCodes
  import opened Messages

  const FRAME_HEADER_BYTES := 12

  // ---- Checksum ----------------------------------------------------------------------------------

  function Sum(s: seq<Byte>): nat {
    if s == [] then 0 else Sum(s[..|s| - 1]) + s[|s| - 1] as nat
  }

  function Checksum(s: seq<Byte>): U16 { Sum(s) % 0x1_0000 }

  lemma {:induction false} SumOfChange(s: seq<Byte>, i: nat, x: Byte)
    requires i < |s|
    ensures Sum(s[i := x]) == Sum(s) - s[i] as int + x as int
  {
    var n := |s| - 1;
    if i < n {
      SumOfChange(s[..n], i, x);
      assert s[i := x][..n] == s[..n][i := x];
    } else {
      assert s[i := x][..n] == s[..n];
    }
  }

  /** The sum is that of all bytes: it is additive, and that of one byte is the byte. */
  lemma {:induction false} SumJoins(a: seq<Byte>, b: seq<Byte>)
    ensures Sum(a + b) == Sum(a) + Sum(b)
    ensures |a| == 1 ==> Sum(a) == a[0] as nat
  {
    if b == [] {
      assert a + b == a;
    } else {
      SumJoins(a, b[..|b| - 1]);
      assert (a + b)[..|a + b| - 1] == a + b[..|b| - 1];
    }
  }

  lemma ChecksumSeesChange(s: seq<Byte>, i: nat, x: Byte)
    requires i < |s| && x != s[i]
    ensures Checksum(s[i := x]) != Checksum(s)
  {
    SumOfChange(s, i, x);
  }

  // ---- Packing -----------------------------------------------------------------------------------

  /** Messages whose length fits the one-byte prefix. */
  predicate Short(q: seq<seq<Byte>>) { forall i | 0 <= i < |q| :: |q[i]| <= 255 }

  function PackOne(m: seq<Byte>): (b: seq<Byte>)
    requires |m| <= 255
    ensures |b| == |m| + 1
  {
    [|m|] + m
  }

  function Pack(q: seq<seq<Byte>>): (b: seq<Byte>)
    requires Short(q)
    ensures |b| >= |q|
  {
    if q == [] then [] else PackOne(q[0]) + Pack(q[1..])
  }

  lemma {:induction false} PackSnoc(q: seq<seq<Byte>>, m: seq<Byte>)
    requires Short(q) && |m| <= 255
    ensures Short(q + [m]) && Pack(q + [m]) == Pack(q) + PackOne(m)
  {
    if q == [] {
      assert [m][1..] == [];
    } else {
      PackSnoc(q[1..], m);
      assert (q + [m])[1..] == q[1..] + [m] && (q + [m])[0] == q[0];
      Regroup(PackOne(q[0]), Pack(q[1..]), PackOne(m));
    }
  }

  /** What up to `left` calls of `getmsg` find in a payload that ends at `end`, from `cursor` on. */
  function ReadFrom(buf: seq<Byte>, cursor: nat, end: nat, left: nat): (ms: seq<seq<Byte>>)
    requires cursor <= end <= |buf|
    decreases left
  {
    if left == 0 || cursor == end then []
    else
      var next := cursor + buf[cursor] as nat + 1;
      if next > end then [] else [buf[cursor + 1..next]] + ReadFrom(buf, next, end, left - 1)
  }

  lemma FirstPacked(buf: seq<Byte>, cursor: nat, m: seq<Byte>, rest: seq<Byte>)
    requires |m| <= 255 && cursor <= |buf| && buf[cursor..] == PackOne(m) + rest
    ensures var next := cursor + 1 + |m|;
      next <= |buf| && buf[cursor] as int == |m| && buf[cursor + 1..next] == m && buf[next..] == rest
  {
    var b := PackOne(m) + rest;
    assert buf[cursor..][0] == b[0];
    SliceOfSlice(buf, cursor, |buf|, 1, 1 + |m|);
    SliceOfSlice(buf, cursor, |buf|, 1 + |m|, |b|);
  }

  /** Packed messages are read back, wherever they start. */
  lemma {:induction false} ReadPacked(buf: seq<Byte>, cursor: nat, q: seq<seq<Byte>>)
    requires Short(q) && cursor <= |buf| && buf[cursor..] == Pack(q)
    ensures ReadFrom(buf, cursor, |buf|, |q|) == q
    decreases |q|
  {
    if q != [] {
      FirstPacked(buf, cursor, q[0], Pack(q[1..]));
      ReadPacked(buf, cursor + 1 + |q[0]|, q[1..]);
    }
  }

  /** Bytes behind the end are never read. */
  lemma {:induction false} ReadIgnoresRest(buf: seq<Byte>, longer: seq<Byte>, cursor: nat, left: nat)
    requires cursor <= |buf| <= |longer| && forall i | 0 <= i < |buf| :: longer[i] == buf[i]
    ensures ReadFrom(longer, cursor, |buf|, left) == ReadFrom(buf, cursor, |buf|, left)
    decreases left
  {
    if left > 0 && cursor < |buf| {
      var next := cursor + buf[cursor] as nat + 1;
      if next <= |buf| {
        ReadIgnoresRest(buf, longer, next, left - 1);
        assert longer[cursor + 1..next] == buf[cursor + 1..next];
      }
    }
  }

  /** Whatever the bytes are, the messages that are read lie packed from the cursor on, and reading stops for one of
      three reasons only: as many messages as asked for, the end, or a length that reaches beyond it. */
  lemma {:induction false} ReadsPackedPrefix(buf: seq<Byte>, cursor: nat, end: nat, left: nat)
    requires cursor <= end <= |buf|
    ensures var ms := ReadFrom(buf, cursor, end, left);
      && Short(ms) && |ms| <= left && cursor + |Pack(ms)| <= end && buf[cursor..cursor + |Pack(ms)|] == Pack(ms)
      && var next := cursor + |Pack(ms)|; |ms| == left || next == end || next + buf[next] as nat + 1 > end
    decreases left
  {
    var next := if cursor < end then cursor + buf[cursor] as nat + 1 else cursor;
    if left > 0 && cursor < end && next <= end {
      ReadsPackedPrefix(buf, next, end, left - 1);
      PrependPacked(buf, cursor, next, ReadFrom(buf, next, end, left - 1));
    }
  }

  lemma PrependPacked(buf: seq<Byte>, cursor: nat, next: nat, ms: seq<seq<Byte>>)
    requires Short(ms) && next + |Pack(ms)| <= |buf| && buf[next..next + |Pack(ms)|] == Pack(ms)
    requires cursor < next && next == cursor + buf[cursor] as nat + 1
    ensures var all := [buf[cursor + 1..next]] + ms;
      Short(all) && cursor + |Pack(all)| == next + |Pack(ms)| && buf[cursor..cursor + |Pack(all)|] == Pack(all)
  {
    var all := [buf[cursor + 1..next]] + ms;
    assert all[1..] == ms;
    assert buf[cursor..next + |Pack(ms)|] == buf[cursor..next] + buf[next..next + |Pack(ms)|];
    assert buf[cursor..next] == PackOne(buf[cursor + 1..next]);
  }

  // ---- Frames ------------------------------------------------------------------------------------

  /** Everything after the checksum. */
  function FrameBody(payload: seq<Byte>, time: U32, sender: Address, count: Byte): (b: seq<Byte>)
    requires |payload| < 0x1_0000
    ensures |b| == FRAME_HEADER_BYTES - 2 + |payload|
  {
    PutU16(|payload|) + PutU32(time) + [sender, count, 0, 0] + payload
  }

  predicate FitsFrame(q: seq<seq<Byte>>, size: nat) {
    Short(q) && size <= 255 && FRAME_HEADER_BYTES + |Pack(q)| <= size
  }

  /** The bytes a successful flush puts on the air. */
  function Frame(q: seq<seq<Byte>>, time: U32, sender: Address): (b: seq<Byte>)
    requires FitsFrame(q, 255)
    ensures |b| == FRAME_HEADER_BYTES + |Pack(q)|
  {
    var body := FrameBody(Pack(q), time, sender, |q|);
    PutU16(Checksum(body)) + body
  }

  /** The bytes of a frame: checksum of all that follows, payload length, time, sender, number of messages, two zeros,
      and the messages with their length bytes; wider fields lowest byte first. */
  lemma FrameLayout(q: seq<seq<Byte>>, time: U32, sender: Address)
    requires FitsFrame(q, 255)
    ensures var f := Frame(q, time, sender);
      && |f| == 12 + |Pack(q)|
      && f[0] as int + 0x100 * f[1] as int == Sum(f[2..]) % 0x1_0000
      && f[2] as int + 0x100 * f[3] as int == |Pack(q)|
      && U32At(f, 4) == time && f[8] == sender && f[9] as int == |q| && f[10] == 0 && f[11] == 0
      && f[12..] == Pack(q)
  {
    U32Layout(time);
    FrameFields(q, time, sender);
  }

  /** The checks of `recv` on received bytes, with `size` bytes of receive buffer. */
  function Admission(frame: seq<Byte>, size: nat): LinkRC {
    if |frame| <= FRAME_HEADER_BYTES then InvalidMsg
    else
      var total := FRAME_HEADER_BYTES + GetU16(frame[2..4]) as nat;
      if total != |frame| then MsgSizeMismatch
      else if total > size then BufSize
      else if Checksum(frame[2..]) != GetU16(frame[..2]) then ChecksumError
      else Ok
  }

  /** The messages a receiver gets out of received bytes. */
  function Received(frame: seq<Byte>, size: nat): seq<seq<Byte>> {
    if Admission(frame, size) == Ok then ReadFrom(frame, FRAME_HEADER_BYTES, |frame|, frame[9] as nat) else []
  }

  /** A frame is admitted if and only if it holds more than a header, its length field counts the rest, it fits the
      buffer, and its checksum field is the sum of the bytes behind it. Of several errors the first one is reported. */
  lemma AdmittedIff(f: seq<Byte>, size: nat)
    ensures Admission(f, size) == InvalidMsg <==> |f| <= 12
    ensures Admission(f, size) == MsgSizeMismatch <==> |f| > 12 && 12 + f[2] as int + 0x100 * f[3] as int != |f|
    ensures Admission(f, size) == BufSize <==>
      |f| > 12 && 12 + f[2] as int + 0x100 * f[3] as int == |f| && |f| > size
    ensures Admission(f, size) == Ok <==>
      && |f| > 12 && 12 + f[2] as int + 0x100 * f[3] as int == |f| <= size
      && f[0] as int + 0x100 * f[1] as int == Sum(f[2..]) % 0x1_0000
    ensures Admission(f, size) in {InvalidMsg, MsgSizeMismatch, BufSize, ChecksumError, Ok}
  {
  }

  /** Any one changed byte of an admitted frame is noticed: in the length field by the length check,
      anywhere else by the checksum. */
  lemma OneByteDamageIsRejected(frame: seq<Byte>, size: nat, i: nat, x: Byte)
    requires Admission(frame, size) == Ok && i < |frame| && x != frame[i]
    ensures Admission(frame[i := x], size) == if i == 2 || i == 3 then MsgSizeMismatch else ChecksumError
  {
    var damaged := frame[i := x];
    if i < 2 {
      assert damaged[2..] == frame[2..] && damaged[2..4] == frame[2..4];
      U16RoundTrip(0, damaged[..2]);
      U16RoundTrip(0, frame[..2]);
      assert damaged[..2][i] != frame[..2][i];
    } else {
      assert damaged[2..] == frame[2..][i - 2 := x];
      if i < 4 {
        U16RoundTrip(0, damaged[2..4]);
        U16RoundTrip(0, frame[2..4]);
        assert damaged[2..4][i - 2] != frame[2..4][i - 2];
      } else {
        assert damaged[2..4] == frame[2..4] && damaged[..2] == frame[..2];
        ChecksumSeesChange(frame[2..], i - 2, x);
      }
    }
  }

  lemma BodyFields(payload: seq<Byte>, time: U32, sender: Address, count: Byte, body: seq<Byte>)
    requires |payload| < 0x1_0000 && body == FrameBody(payload, time, sender, count)
    ensures GetU16(body[..2]) as int == |payload| && body[7] == count && body[FRAME_HEADER_BYTES - 2..] == payload
  {
    U16RoundTrip(|payload|, body[..2]);
    assert body[..2] == PutU16(|payload|);
  }

  lemma FrameFields(q: seq<seq<Byte>>, time: U32, sender: Address)
    requires FitsFrame(q, 255)
    ensures var f := Frame(q, time, sender);
      && GetU16(f[..2]) == Checksum(f[2..]) && GetU16(f[2..4]) as int == |Pack(q)|
      && f[9] as int == |q| && f[FRAME_HEADER_BYTES..] == Pack(q)
  {
    var body, f := FrameBody(Pack(q), time, sender, |q|), Frame(q, time, sender);
    BodyFields(Pack(q), time, sender, |q|, body);
    assert f[..2] == PutU16(Checksum(body)) && f[2..] == body;
    assert f[2..4] == body[..2] && f[9] == body[7] && f[FRAME_HEADER_BYTES..] == body[FRAME_HEADER_BYTES - 2..];
    U16RoundTrip(Checksum(body), f[..2]);
  }

  /** A flushed frame is admitted unless it carries no message, and gives back exactly its messages. */
  lemma FrameIsReceived(q: seq<seq<Byte>>, time: U32, sender: Address, size: nat)
    requires FitsFrame(q, size)
    ensures Admission(Frame(q, time, sender), size) == if q == [] then InvalidMsg else Ok
    ensures Received(Frame(q, time, sender), size) == q
  {
    FrameFields(q, time, sender);
    var f := Frame(q, time, sender);
    ReadPacked(f, FRAME_HEADER_BYTES, q);
  }

  // ---- The send queue over a run -------------------------------------------------------------------

  function Available(q: seq<seq<Byte>>, size: nat): nat
    requires Short(q)
  {
    var used := FRAME_HEADER_BYTES + |Pack(q)|;
    if used > size then 0 else size - used
  }

  /** What `sendmsg` answers for a message of `n` bytes. */
  function SendResult(q: seq<seq<Byte>>, n: nat, size: nat, msgMax: nat): LinkRC
    requires Short(q)
  {
    if Available(q, size) < n + 1 then BufSize
    else if n > msgMax then MsgTooBig
    else Ok
  }

  /** A message is accepted if and only if it fits with its length byte behind the header and all that is queued, and
      is not longer than messages may be; a lack of room is reported first. */
  lemma AcceptedIff(q: seq<seq<Byte>>, n: nat, size: nat, msgMax: nat)
    requires Short(q)
    ensures SendResult(q, n, size, msgMax) == BufSize <==> 12 + |Pack(q)| + 1 + n > size
    ensures SendResult(q, n, size, msgMax) == Ok <==> 12 + |Pack(q)| + 1 + n <= size && n <= msgMax
    ensures SendResult(q, n, size, msgMax) in {Ok, BufSize, MsgTooBig}
  {
  }

  /** `frames` and `accepted` are history: what went on the air, and what `sendmsg` accepted. */
  datatype Line = Line(queue: seq<seq<Byte>>, frames: seq<seq<Byte>>, accepted: seq<seq<Byte>>)

  datatype Op = Send(m: seq<Byte>) | Flush(time: U32, succeeds: bool)

  datatype LineParams = LineParams(size: nat, msgMax: nat, sender: Address)

  function Apply(p: LineParams, l: Line, op: Op): (l': Line)
    requires FitsFrame(l.queue, p.size)
    ensures FitsFrame(l'.queue, p.size)
  {
    match op
    case Send(m) =>
      if SendResult(l.queue, |m|, p.size, p.msgMax) != Ok then l
      else
        PackSnoc(l.queue, m);
        Line(l.queue + [m], l.frames, l.accepted + [m])
    case Flush(time, succeeds) =>
      if !succeeds then l else Line([], l.frames + [Frame(l.queue, time, p.sender)], l.accepted)
  }

  function Run(p: LineParams, l: Line, ops: seq<Op>): (l': Line)
    requires FitsFrame(l.queue, p.size)
    ensures FitsFrame(l'.queue, p.size)
  {
    if ops == [] then l else Apply(p, Run(p, l, ops[..|ops| - 1]), ops[|ops| - 1])
  }

  /** Everything a receiver gets from the frames, in order. */
  function Delivered(frames: seq<seq<Byte>>, size: nat): seq<seq<Byte>> {
    if frames == [] then []
    else Delivered(frames[..|frames| - 1], size) + Received(frames[|frames| - 1], size)
  }

  ghost predicate InOrder(p: LineParams, l: Line, rxSize: nat) {
    Delivered(l.frames, rxSize) + l.queue == l.accepted
  }

  lemma ApplyKeepsOrder(p: LineParams, l: Line, op: Op, rxSize: nat)
    requires FitsFrame(l.queue, p.size) && p.size <= rxSize <= 255 && InOrder(p, l, rxSize)
    ensures InOrder(p, Apply(p, l, op), rxSize)
  {
    match op
    case Send(m) =>
      assert Delivered(l.frames, rxSize) + (l.queue + [m]) == (Delivered(l.frames, rxSize) + l.queue) + [m];
    case Flush(time, succeeds) =>
      FrameIsReceived(l.queue, time, p.sender, rxSize);
      var f := Frame(l.queue, time, p.sender);
      assert (l.frames + [f])[..|l.frames|] == l.frames;
  }

  /** Exactly once, in order: what the frames deliver and then what is still queued is what was accepted,
      over every run of sends and flushes, refused and failed ones included. */
  lemma {:induction false} FifoExactlyOnce(p: LineParams, ops: seq<Op>, rxSize: nat)
    requires FRAME_HEADER_BYTES <= p.size <= rxSize <= 255
    ensures InOrder(p, Run(p, Line([], [], []), ops), rxSize)
  {
    if ops != [] {
      FifoExactlyOnce(p, ops[..|ops| - 1], rxSize);
      ApplyKeepsOrder(p, Run(p, Line([], [], []), ops[..|ops| - 1]), ops[|ops| - 1], rxSize);
    }
  }
}
