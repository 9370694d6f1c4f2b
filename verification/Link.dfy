/** The link layer object: message vectors, TX and RX buffers, and the receive cursor (link_layer.cpp). */
module Link {
  import opened Bytes
  import opened Messages
  import opened Frames
  import opened LinkCodes
  import opened SlotClock

  /** A linked list of byte ranges that are sent as one message. */
  class MessageVec {
    const buf: array<Byte>
    const start: nat
    const sz: nat
    const next: MessageVec?
    ghost const depth: nat
    ghost const buffers: set<array<Byte>>

    ghost predicate Valid()
      decreases depth
    {
      && start + sz <= buf.Length
      && buffers == {buf} + (if next == null then {} else next.buffers)
      && (next != null ==> next.depth < depth && next.Valid())
    }

    ghost function Contents(): seq<Byte>
      requires Valid()
      reads buffers
      decreases depth
    {
      buf[start..start + sz] + if next == null then [] else next.Contents()
    }

    constructor (buf: array<Byte>, start: nat, sz: nat, next: MessageVec?)
      requires start + sz <= buf.Length && (next != null ==> next.Valid())
      ensures Valid() && buffers == {buf} + if next == null then {} else next.buffers
      ensures Contents() == buf[start..start + sz] + if next == null then [] else next.Contents()
    {
      this.buf, this.start, this.sz, this.next := buf, start, sz, next;
      depth := if next == null then 0 else next.depth + 1;
      buffers := {buf} + if next == null then {} else next.buffers;
    }

    method Size() returns (n: nat)
      requires Valid()
      ensures n == |Contents()|
    {
      var p: MessageVec? := this;
      n := 0;
      while p != null
        invariant p != null ==> p.Valid()
        invariant n + (if p == null then 0 else |p.Contents()|) == |Contents()|
        decreases if p == null then 0 else p.depth + 1
      {
        n := n + p.sz;
        p := p.next;
      }
    }

    /** `memcpy` of this part behind `done`, which was copied over the beginning of `tail`. */
    method Copy(dst: array<Byte>, at: nat, ghost front: seq<Byte>, ghost done: seq<Byte>, ghost tail: seq<Byte>)
      requires Valid() && dst != buf && at == |front| + |done|
      requires |done| + sz <= |tail| && dst[..] == Spliced(front, done, tail)
      modifies dst
      ensures dst[..] == Spliced(front, done + buf[start..start + sz], tail)
    {
      ghost var before := dst[..];
      forall k | 0 <= k < sz { dst[at + k] := buf[start + k]; }
      assert dst[..] == before[..at] + buf[start..start + sz] + before[at + sz..];
      SpliceMore(front, done, buf[start..start + sz], tail);
    }

    /** Copies all parts, one after the other, to `dst` from index `at` on. */
    method Write(dst: array<Byte>, at: nat)
      requires Valid() && dst !in buffers && at + |Contents()| <= dst.Length
      modifies dst
      ensures dst[..] == Spliced(old(dst[..at]), old(Contents()), old(dst[at..]))
    {
      var p: MessageVec? := this;
      var i := at;
      ghost var front, tail, all := dst[..at], dst[at..], Contents();
      ghost var done, rest := [], all;
      assert dst[..] == Spliced(front, [], tail);
      while p != null
        invariant |done| + |rest| == |all| && i == at + |done|
        invariant done + rest == all
        invariant p == null ==> rest == []
        invariant p != null ==> p.Valid() && dst !in p.buffers && p.Contents() == rest
        invariant dst[..] == Spliced(front, done, tail)
        decreases if p == null then 0 else p.depth + 1
      {
        done, rest := p.CopyTo(dst, i, front, done, rest, tail);
        i := i + p.sz;
        p := p.next;
      }
    }

    /** One turn of the loop in `Write`: copies this part and returns what is done and what is left then. */
    method CopyTo(dst: array<Byte>, at: nat, ghost front: seq<Byte>, ghost done: seq<Byte>, ghost rest: seq<Byte>,
                  ghost tail: seq<Byte>)
      returns (ghost done': seq<Byte>, ghost rest': seq<Byte>)
      requires Valid() && dst !in buffers && Contents() == rest && at == |front| + |done|
      requires |done| + |rest| <= |tail| && dst[..] == Spliced(front, done, tail)
      modifies dst
      ensures done' + rest' == done + rest && |done'| == |done| + sz
      ensures next == null ==> rest' == []
      ensures next != null ==> next.Valid() && dst !in next.buffers && next.Contents() == rest'
      ensures |done'| <= |tail| && dst[..] == Spliced(front, done', tail)
    {
      rest' := if next == null then [] else next.Contents();
      done' := done + buf[start..start + sz];
      assert done' + rest' == done + rest;
      Copy(dst, at, front, done, tail);
    }
  }

  /** `front`, then `done` over the beginning of `tail`. */
  ghost function Spliced(front: seq<Byte>, done: seq<Byte>, tail: seq<Byte>): seq<Byte>
    requires |done| <= |tail|
  {
    front + done + tail[|done|..]
  }

  lemma SpliceMore(front: seq<Byte>, done: seq<Byte>, part: seq<Byte>, tail: seq<Byte>)
    requires |done| + |part| <= |tail|
    ensures var dst, i := Spliced(front, done, tail), |front| + |done|;
      dst[..i] + part + dst[i + |part|..] == Spliced(front, done + part, tail)
  {
  }

  lemma SplicePrefixed(before: seq<Byte>, head: nat, m: seq<Byte>)
    requires |m| <= 255 && head + 1 + |m| <= |before|
    ensures var marked := before[head := Wrap8(|m|)];
      Spliced(marked[..head + 1], m, marked[head + 1..]) == Spliced(before[..head], PackOne(m), before[head..])
  {
  }

  /** A length byte and a message written behind the packed messages extend them. */
  lemma AppendPacked(before: seq<Byte>, packed: seq<Byte>, m: seq<Byte>)
    requires |m| <= 255 && FRAME_HEADER_BYTES + |packed| + 1 + |m| <= |before|
    requires before[FRAME_HEADER_BYTES..FRAME_HEADER_BYTES + |packed|] == packed
    ensures var head := FRAME_HEADER_BYTES + |packed|;
      var after := Spliced(before[..head], PackOne(m), before[head..]);
      after[FRAME_HEADER_BYTES..FRAME_HEADER_BYTES + |packed + PackOne(m)|] == packed + PackOne(m)
  {
  }

  lemma ReceivedPrefix(bytes: seq<Byte>, rest: seq<Byte>)
    requires |bytes| > FRAME_HEADER_BYTES
    ensures var b := bytes + rest;
      && b[..2] == bytes[..2] && b[2..4] == bytes[2..4] && b[2..|bytes|] == bytes[2..]
      && b[9] == bytes[9] && b[FRAME_HEADER_BYTES..|bytes|] == bytes[FRAME_HEADER_BYTES..]
  {
  }

  /** End of the payload that the frame header in a receive buffer announces. */
  ghost function PayloadEnd(buf: seq<Byte>): nat
    requires |buf| >= FRAME_HEADER_BYTES
  {
    FRAME_HEADER_BYTES + GetU16(buf[2..4]) as nat
  }

  predicate FrameInBuffer(buf: seq<Byte>) {
    |buf| >= FRAME_HEADER_BYTES && FRAME_HEADER_BYTES + GetU16(buf[2..4]) as nat <= |buf|
  }

  ghost predicate CursorValid(buf: seq<Byte>, cursor: Option<nat>) {
    cursor.Some? ==> FrameInBuffer(buf) && cursor.value <= PayloadEnd(buf)
  }

  /** The messages that are still to be read behind the first `num`. */
  ghost function Remaining(buf: seq<Byte>, cursor: Option<nat>, num: nat): seq<seq<Byte>>
    requires CursorValid(buf, cursor)
  {
    if cursor.None? || num >= buf[9] as nat then []
    else ReadFrom(buf, cursor.value, PayloadEnd(buf), buf[9] as nat - num)
  }

  /** The length byte is read before the bounds check. That stays inside the buffer when the frame
      holds all the messages it announces, or leaves one byte of the buffer unused. */
  ghost predicate LengthInBuffer(buf: seq<Byte>, cursor: Option<nat>, num: nat)
    requires CursorValid(buf, cursor)
  {
    cursor.Some? ==> PayloadEnd(buf) < |buf| || |Remaining(buf, cursor, num)| + num >= buf[9] as nat
  }

  lemma CursorAdvances(buf: seq<Byte>, cursor: nat, num: nat)
    requires CursorValid(buf, Some(cursor)) && LengthInBuffer(buf, Some(cursor), num) && num < buf[9] as nat
    requires cursor < |buf| && cursor + 1 + buf[cursor] as nat <= PayloadEnd(buf)
    ensures var next := cursor + 1 + buf[cursor] as nat;
      && CursorValid(buf, Some(next)) && LengthInBuffer(buf, Some(next), num + 1)
      && Remaining(buf, Some(cursor), num) == [buf[cursor + 1..next]] + Remaining(buf, Some(next), num + 1)
  {
  }

  /** An admitted frame at the beginning of the RX buffer is read from its first message on. */
  lemma AdmittedIsUnread(bytes: seq<Byte>, rest: seq<Byte>)
    requires Admission(bytes, |bytes + rest|) == Ok
    ensures FrameInBuffer(bytes + rest) && PayloadEnd(bytes + rest) == |bytes|
    ensures ReadFrom(bytes + rest, FRAME_HEADER_BYTES, |bytes|, bytes[9] as nat) == Received(bytes, |bytes + rest|)
  {
    ReceivedPrefix(bytes, rest);
    ReadIgnoresRest(bytes, bytes + rest, FRAME_HEADER_BYTES, bytes[9] as nat);
  }

  const DEFAULT_CODE: Byte := 0

  datatype RadioEvent = RadioTimedOut | RadioFailed | Heard(bytes: seq<Byte>)

  /** A received frame can be read to its end: it leaves a byte of the RX buffer unused, or holds all the messages
      that it announces. */
  predicate Readable(radio: RadioEvent, size: nat) {
    radio.Heard? ==> |radio.bytes| <= size && (|radio.bytes| < size || HoldsAll(radio.bytes, size))
  }

  /** The frame is refused anyway, or holds as many messages as it announces. */
  predicate HoldsAll(frame: seq<Byte>, size: nat) {
    Admission(frame, size) == Ok ==> |Received(frame, size)| >= frame[9] as nat
  }

  class LinkLayer {
    const address: Address
    const msgMaxBytes: nat
    const txBuf: array<Byte>
    const rxBuf: array<Byte>
    const clock: Clock
    var code: Byte
    var txBytesQueued: nat
    var txMsgCount: nat
    var rxCursor: Option<nat>
    var rxMsgNum: nat
    /** The messages in the TX buffer. */
    ghost var queue: seq<seq<Byte>>

    ghost predicate Valid()
      reads this`queue, this`txBytesQueued, this`txMsgCount, txBuf, clock
    {
      && clock.Valid()
      && txBuf != rxBuf && txBuf.Length <= 255 && rxBuf.Length <= 255
      && FitsFrame(queue, txBuf.Length)
      && txMsgCount == |queue| && txMsgCount + txBytesQueued == |Pack(queue)|
      && txBuf[FRAME_HEADER_BYTES..FRAME_HEADER_BYTES + |Pack(queue)|] == Pack(queue)
    }

    constructor (address: Address, msgMaxBytes: nat, txBuf: array<Byte>, rxBuf: array<Byte>, mac: MacParams, now: U32)
      requires mac.Valid() && InRange(mac, now)
      requires txBuf != rxBuf && FRAME_HEADER_BYTES <= txBuf.Length <= 255 && rxBuf.Length <= 255
      ensures Valid() && fresh(clock) && clock.mac == mac && queue == [] && rxCursor == None && code == DEFAULT_CODE
      ensures this.address == address && this.msgMaxBytes == msgMaxBytes && this.txBuf == txBuf && this.rxBuf == rxBuf
    {
      this.address, this.msgMaxBytes, this.txBuf, this.rxBuf := address, msgMaxBytes, txBuf, rxBuf;
      clock := new Clock(mac, now);
      code := DEFAULT_CODE;
      txBytesQueued, txMsgCount, rxCursor, rxMsgNum := 0, 0, None, 0;
      queue := [];
    }

    // ---- Sending ---------------------------------------------------------------------------------

    method TxBytesAvailable() returns (n: int)
      requires Valid()
      ensures n == Available(queue, txBuf.Length)
    {
      var used := FRAME_HEADER_BYTES + txMsgCount + txBytesQueued;
      if used > txBuf.Length { return 0; }
      n := txBuf.Length - used;
    }

    /** Writes the length byte and the message at the write head. */
    method WriteMessage(v: MessageVec, head: nat)
      requires v.Valid() && txBuf !in v.buffers && |v.Contents()| <= 255 && head + 1 + |v.Contents()| <= txBuf.Length
      modifies txBuf
      ensures txBuf[..] == Spliced(old(txBuf[..head]), PackOne(old(v.Contents())), old(txBuf[head..]))
    {
      ghost var m, before := v.Contents(), txBuf[..];
      var sz := v.Size();
      txBuf[head] := Wrap8(sz);
      assert txBuf[..] == before[head := Wrap8(|m|)];
      v.Write(txBuf, head + 1);
      SplicePrefixed(before, head, m);
    }

    /** Writes the message behind the packed ones. */
    method AppendMessage(v: MessageVec)
      requires Valid() && v.Valid() && txBuf !in v.buffers && |v.Contents()| < Available(queue, txBuf.Length)
      modifies txBuf
      ensures var packed := Pack(queue) + PackOne(old(v.Contents()));
        FRAME_HEADER_BYTES + |packed| <= txBuf.Length
          && txBuf[FRAME_HEADER_BYTES..FRAME_HEADER_BYTES + |packed|] == packed
    {
      ghost var m, before := v.Contents(), txBuf[..];
      AppendPacked(before, Pack(queue), m);
      WriteMessage(v, FRAME_HEADER_BYTES + txMsgCount + txBytesQueued);
    }

    method SendMsg(v: MessageVec) returns (rc: LinkRC)
      requires Valid() && v.Valid() && txBuf !in v.buffers
      modifies this`queue, this`txBytesQueued, this`txMsgCount, txBuf
      ensures Valid()
      ensures rc == SendResult(old(queue), |old(v.Contents())|, txBuf.Length, msgMaxBytes)
      ensures queue == if rc == Ok then old(queue) + [old(v.Contents())] else old(queue)
    {
      var sz := v.Size();
      var available := TxBytesAvailable();
      if available < sz + 1 {
        return BufSize;
      } else if sz > msgMaxBytes {
        return MsgTooBig;
      }
      PackSnoc(queue, v.Contents());
      Enqueue(v, sz);
      rc := Ok;
    }

    /** Writes the message and counts it. */
    method Enqueue(v: MessageVec, sz: nat)
      requires Valid() && v.Valid() && txBuf !in v.buffers && sz == |v.Contents()| < Available(queue, txBuf.Length)
      requires Short(queue + [v.Contents()]) && Pack(queue + [v.Contents()]) == Pack(queue) + PackOne(v.Contents())
      modifies this`queue, this`txBytesQueued, this`txMsgCount, txBuf
      ensures Valid() && queue == old(queue) + [old(v.Contents())]
    {
      ghost var m := v.Contents();
      AppendMessage(v);
      txBytesQueued := txBytesQueued + sz;
      txMsgCount := txMsgCount + 1;
      queue := queue + [m];
    }

    /** Adds up the bytes of `buf` from `from` to `to`, 16 bits wide. */
    static method CalculateChecksum(buf: array<Byte>, from: nat, to: nat) returns (sum: U16)
      requires from <= to <= buf.Length
      ensures sum == Checksum(buf[from..to])
    {
      sum := 0;
      var p := from;
      assert buf[from..from] == [];
      while p < to
        invariant from <= p <= to
        invariant sum == Checksum(buf[from..p])
      {
        assert buf[from..p + 1][..p - from] == buf[from..p];
        sum := (sum as int + buf[p] as int) % 0x1_0000;
        p := p + 1;
      }
    }

    /** False when the announced payload does not fit the buffer, otherwise the checksum of the frame in it. */
    static method HeaderChecksum(payloadBytes: U16, buf: array<Byte>) returns (ok: bool, sum: U16)
      ensures ok <==> FRAME_HEADER_BYTES + payloadBytes as int <= buf.Length
      ensures ok ==> sum == Checksum(buf[2..FRAME_HEADER_BYTES + payloadBytes as int])
    {
      var end := FRAME_HEADER_BYTES + payloadBytes as int;
      if end > buf.Length { return false, 0; }
      sum := CalculateChecksum(buf, 2, end);
      ok := true;
    }

    static method Store(buf: array<Byte>, bytes: seq<Byte>)
      requires |bytes| <= buf.Length
      modifies buf
      ensures buf[..] == bytes + old(buf[|bytes|..])
    {
      forall k | 0 <= k < |bytes| { buf[k] := bytes[k]; }
    }

    /** Stores the header fields behind the checksum, whose two bytes it clears. */
    method StoreHeader(header: seq<Byte>)
      requires Valid() && |header| == FRAME_HEADER_BYTES - 2
      modifies txBuf
      ensures Valid() && txBuf[2..FRAME_HEADER_BYTES + |Pack(queue)|] == header + Pack(queue)
    {
      ghost var packed, before, end := Pack(queue), txBuf[..], FRAME_HEADER_BYTES + |Pack(queue)|;
      Store(txBuf, [0, 0] + header);
      assert txBuf[..] == [0, 0] + header + before[FRAME_HEADER_BYTES..];
      assert txBuf[FRAME_HEADER_BYTES..end] == before[FRAME_HEADER_BYTES..end];
      assert txBuf[2..end] == header + txBuf[FRAME_HEADER_BYTES..end];
    }

    method StoreChecksum(sum: U16)
      requires Valid()
      modifies txBuf
      ensures Valid()
      ensures txBuf[..FRAME_HEADER_BYTES + |Pack(queue)|] == PutU16(sum)
        + old(txBuf[2..FRAME_HEADER_BYTES + |Pack(queue)|])
    {
      ghost var before, end := txBuf[..], FRAME_HEADER_BYTES + |Pack(queue)|;
      Store(txBuf, PutU16(sum));
      assert txBuf[..] == PutU16(sum) + before[2..];
      assert txBuf[FRAME_HEADER_BYTES..end] == before[FRAME_HEADER_BYTES..end];
    }

    method FillFrameHeader(time: U32) returns (ok: bool)
      requires Valid()
      modifies txBuf
      ensures Valid() && ok
      ensures txBuf[..FRAME_HEADER_BYTES + |Pack(queue)|] == Frame(queue, time, address)
    {
      var payloadBytes := txMsgCount + txBytesQueued;
      StoreHeader(PutU16(payloadBytes) + PutU32(time) + [address, Wrap8(txMsgCount), 0, 0]);
      ghost var body := FrameBody(Pack(queue), time, address, |queue|);
      assert txBuf[2..FRAME_HEADER_BYTES + |Pack(queue)|] == body;
      var sum;
      ok, sum := HeaderChecksum(payloadBytes, txBuf);
      StoreChecksum(sum);
    }

    /** `air` is what the radio transmitted; `radioOk` is what `lora::send` reports. */
    method Flush(now: U32, senderTime: U32, radioOk: bool) returns (rc: LinkRC, air: seq<seq<Byte>>)
      requires Valid() && InRange(clock.mac, now)
      modifies this`queue, this`txBytesQueued, this`txMsgCount, txBuf, clock
      ensures Valid() && clock.View() == Refresh(clock.mac.Schedule(), old(clock.View()), now)
      ensures rc == if !InWindow(clock.View(), now) then NotInWindow else if radioOk then Ok else FlushFailed
      ensures queue == if rc == Ok then [] else old(queue)
      ensures air == if rc == Ok then [Frame(old(queue), senderTime, address)] else []
    {
      clock.Update(now);
      air := [];
      if !(clock.windowStart <= now < clock.windowEnd) { return NotInWindow, []; }
      var ok := FillFrameHeader(senderTime);
      if !ok { return HeaderError, []; }
      var frame := txBuf[..FRAME_HEADER_BYTES + txMsgCount + txBytesQueued];
      if !radioOk { return FlushFailed, []; }
      air := [frame];
      TruncateTx();
      rc := Ok;
    }

    method TruncateTx()
      requires Valid()
      modifies this`queue, this`txBytesQueued, this`txMsgCount
      ensures Valid() && queue == []
    {
      txMsgCount, txBytesQueued, queue := 0, 0, [];
    }

    // ---- Receiving -------------------------------------------------------------------------------

    /** The cursor stands in a frame that lies in the RX buffer. */
    ghost predicate RxValid()
      reads this`rxCursor, this`rxMsgNum, rxBuf
    {
      CursorValid(rxBuf[..], rxCursor)
    }

    /** The messages that `GetMsg` has not handed out yet. */
    ghost function Unread(): (ms: seq<seq<Byte>>)
      requires RxValid()
      reads this`rxCursor, this`rxMsgNum, rxBuf
    {
      Remaining(rxBuf[..], rxCursor, rxMsgNum)
    }

    ghost predicate ReadableLength()
      requires RxValid()
      reads this`rxCursor, this`rxMsgNum, rxBuf
    {
      LengthInBuffer(rxBuf[..], rxCursor, rxMsgNum)
    }

    method Recv(now: U32, radio: RadioEvent) returns (rc: LinkRC)
      requires Valid() && InRange(clock.mac, now)
      requires radio.Heard? ==> |radio.bytes| <= rxBuf.Length
      modifies this`rxCursor, this`rxMsgNum, rxBuf, clock
      ensures Valid() && clock.View() == Refresh(clock.mac.Schedule(), old(clock.View()), now)
      ensures rc == if !InWindow(clock.View(), now) then NotInWindow
                    else match radio
                         case RadioTimedOut => TimedOut
                         case RadioFailed => PhyError
                         case Heard(bytes) => Admission(bytes, rxBuf.Length)
      ensures rc == NotInWindow ==>
        rxCursor == old(rxCursor) && rxMsgNum == old(rxMsgNum) && rxBuf[..] == old(rxBuf[..])
      ensures rc != NotInWindow && rc != Ok ==> rxCursor == None
      ensures rc == Ok ==>
        radio.Heard? && rxCursor.Some? && RxValid() && Unread() == Received(radio.bytes, rxBuf.Length)
      ensures rc == Ok ==> PayloadEnd(rxBuf[..]) == |radio.bytes| && rxMsgNum == 0 && rxBuf[9] == radio.bytes[9]
    {
      clock.Update(now);
      if !(clock.windowStart <= now < clock.windowEnd) { return NotInWindow; }
      TruncateRx();
      match radio {
        case RadioTimedOut => return TimedOut;
        case RadioFailed => return PhyError;
        case Heard(_) =>
      }
      rc := Admit(radio.bytes);
    }

    /** `recv` of a frame that can be read to its end. */
    method Listen(now: U32, radio: RadioEvent) returns (rc: LinkRC)
      requires Valid() && RxValid() && ReadableLength() && InRange(clock.mac, now) && Readable(radio, rxBuf.Length)
      modifies this`rxCursor, this`rxMsgNum, rxBuf, clock
      ensures Valid() && RxValid() && ReadableLength()
      ensures clock.View() == Refresh(clock.mac.Schedule(), old(clock.View()), now)
      ensures rc == NotInWindow <==> !InWindow(clock.View(), now)
      ensures rc == Ok <==> InWindow(clock.View(), now) && radio.Heard? && Admission(radio.bytes, rxBuf.Length) == Ok
      ensures rc == TimedOut <==> InWindow(clock.View(), now) && radio == RadioTimedOut
      ensures Unread() == if rc == NotInWindow then old(Unread())
                          else if radio.Heard? then Received(radio.bytes, rxBuf.Length) else []
    {
      ghost var before := Unread();
      rc := Recv(now, radio);
      if rc == Ok {
        assert |radio.bytes| == rxBuf.Length ==> |Unread()| >= rxBuf[9] as nat;
        assert ReadableLength();
      } else if rc != NotInWindow {
        assert rxCursor == None;
      } else {
        assert Unread() == before;
      }
    }

    /** Bytes arrive in the RX buffer and are checked; only a frame that passes can be read. */
    method Admit(bytes: seq<Byte>) returns (rc: LinkRC)
      requires |bytes| <= rxBuf.Length <= 255 && rxCursor == None
      modifies this`rxCursor, this`rxMsgNum, rxBuf
      ensures rc == Admission(bytes, rxBuf.Length)
      ensures rc != Ok ==> rxCursor == None
      ensures rc == Ok ==> rxCursor.Some? && RxValid() && Unread() == Received(bytes, rxBuf.Length)
      ensures rc == Ok ==> PayloadEnd(rxBuf[..]) == |bytes| && rxMsgNum == 0 && rxBuf[9] == bytes[9]
    {
      var len := |bytes|;
      ghost var rest := rxBuf[len..];
      Store(rxBuf, bytes);
      if len <= FRAME_HEADER_BYTES { return InvalidMsg; }
      ReceivedPrefix(bytes, rest);
      var receivedChecksum, payloadBytes := GetU16(rxBuf[..2]), GetU16(rxBuf[2..4]);
      var totalLen := FRAME_HEADER_BYTES + payloadBytes as int;
      if totalLen != len {
        return MsgSizeMismatch;
      } else if totalLen > rxBuf.Length {
        return BufSize;
      }
      var ok, sum := HeaderChecksum(payloadBytes, rxBuf);
      assert ok;
      if sum != receivedChecksum { return ChecksumError; }
      rxCursor, rxMsgNum := Some(FRAME_HEADER_BYTES), 0;
      AdmittedIsUnread(bytes, rest);
      rc := Ok;
    }

    method TruncateRx()
      modifies this`rxCursor, this`rxMsgNum
      ensures rxCursor == None && rxMsgNum == 0
    {
      rxCursor, rxMsgNum := None, 0;
    }

    /** The length byte of the next message lies in the buffer. */
    lemma LengthIsReadable()
      requires RxValid() && ReadableLength() && rxCursor.Some? && rxMsgNum < rxBuf[9] as nat
      ensures rxCursor.value < rxBuf.Length
    {
      if rxCursor.value == PayloadEnd(rxBuf[..]) { assert Unread() == []; }
    }

    /** The next message lies in the RX buffer from `start`, `sz` bytes long. */
    method GetMsg() returns (rc: LinkRC, start: nat, sz: nat)
      requires RxValid() && ReadableLength()
      modifies this`rxCursor, this`rxMsgNum
      ensures RxValid() && ReadableLength()
      ensures rc == Ok <==> old(Unread()) != []
      ensures rc == Ok ==>
        && start + sz <= rxBuf.Length
        && old(Unread())[0] == rxBuf[start..start + sz] && Unread() == old(Unread())[1..]
      ensures rc != Ok ==> rxCursor == old(rxCursor) && rxMsgNum == old(rxMsgNum)
      ensures rc == OutOfBounds <==> old(Unread()) == [] && rxCursor.Some? && rxMsgNum < rxBuf[9] as nat
      ensures rc in {Ok, OutOfBounds, NoMsg}
    {
      start, sz := 0, 0;
      if rxCursor.None? { return NoMsg, 0, 0; }
      if rxMsgNum >= rxBuf[9] as nat { return NoMsg, 0, 0; }
      LengthIsReadable();
      var cursor := rxCursor.value;
      var len := rxBuf[cursor];
      var frameEnd := FRAME_HEADER_BYTES + GetU16(rxBuf[2..4]) as nat;
      if cursor + len as nat + 1 > frameEnd { return OutOfBounds, 0, 0; }
      start, sz := cursor + 1, len;
      Advance(start, sz);
      rc := Ok;
    }

    /** Moves the cursor behind the message. */
    method Advance(start: nat, sz: nat)
      requires RxValid() && ReadableLength() && rxCursor.Some? && rxMsgNum < rxBuf[9] as nat
      requires start == rxCursor.value + 1 && start + sz <= PayloadEnd(rxBuf[..]) && sz == rxBuf[rxCursor.value] as nat
      modifies this`rxCursor, this`rxMsgNum
      ensures RxValid() && ReadableLength()
      ensures old(Unread()) == [rxBuf[start..start + sz]] + Unread()
    {
      CursorAdvances(rxBuf[..], rxCursor.value, rxMsgNum);
      rxCursor := Some(start + sz);
      rxMsgNum := rxMsgNum + 1;
    }

    /** The loop that every receiver runs: take messages until there is none. */
    method TakeAll() returns (ms: seq<seq<Byte>>)
      requires RxValid() && ReadableLength()
      modifies this`rxCursor, this`rxMsgNum
      ensures ms == old(Unread())
      ensures RxValid() && ReadableLength() && Unread() == []
    {
      ms := [];
      ghost var all := Unread();
      ghost var rest := all;
      while true
        invariant RxValid() && ReadableLength()
        invariant Unread() == rest && ms + rest == all
        decreases |rest|
      {
        var rc, start, sz := GetMsg();
        if rc != Ok { break; }
        MoveOver(ms, rest);
        ms, rest := ms + [rxBuf[start..start + sz]], rest[1..];
      }
    }

    // ---- Spreading code --------------------------------------------------------------------------

    method SetCdmaCode(id: Byte)
      modifies this`code
      ensures code == HashCdmaCode(id)
    {
      code := HashCdmaCode(id);
    }
  }

  function HashCdmaCode(id: Byte): Byte { id % 7 + 6 }

  /** The codes are the seven spreading factors from 6 on, in turn. */
  lemma CodesCycle(id: Byte)
    ensures id < 7 ==> HashCdmaCode(id) == 6 + id
    ensures id >= 7 ==> HashCdmaCode(id) == HashCdmaCode(id - 7)
  {
  }
}
