/** Fragmentation of a buffer into datagrams, and its journey over the link (multihop_messages.cpp, multihop.cpp). */
module Fragments {
  import opened Arith
  import opened Bytes
  import opened Messages
  import opened Frames
  import opened Link
  import opened Sending

  // ---- The iterator, as a value --------------------------------------------------------------------

  datatype Iter = Iter(part: Byte, count: Byte, i: nat, last: U16)

  /** Number of fragments of `n` bytes. */
  function PartCount(n: nat, max: U16): nat
    requires max > 0
  {
    if n == 0 then 0 else 1 + PartCount(n - Min(n, max), max)
  }

  /** ... is the quotient rounded up. */
  lemma {:induction false} PartCountIsCeiling(n: nat, max: U16)
    requires max > 0
    ensures PartCount(n, max) == (n + max as nat - 1) / max as nat
  {
    if n <= max as nat {
      CeilingSmall(n, max);
    } else {
      CeilingStep(n, max);
      PartCountIsCeiling(n - max as nat, max);
    }
  }

  function Start(n: nat, max: U16): Iter
    requires max > 0
  {
    var count := PartCount(n, max);
    if count > 255 then Iter(0, 0, n, 0) else Iter(0, count, 0, 0)
  }

  /** Bytes in the next fragment. */
  function NextSize(it: Iter, n: nat, max: U16): nat
    requires it.i <= n
  {
    Min(n - it.i, max)
  }

  function Advanced(it: Iter, n: nat, max: U16): Iter
    requires it.i < n
  {
    var size := NextSize(it, n, max);
    Iter(Wrap8(it.part as int + 1), it.count, it.i + size, size)
  }

  function Rewound(it: Iter): Iter
    requires it.last as nat <= it.i
  {
    Iter(Wrap8(it.part as int - 1), it.count, it.i - it.last as nat, 0)
  }

  lemma RewindUndoesNext(it: Iter, n: nat, max: U16)
    requires it.i < n
    ensures Rewound(Advanced(it, n, max)) == it.(last := 0)
  {
  }

  /** The message that carries the next fragment. */
  function FragmentMessage(it: Iter, data: seq<Byte>, max: U16, sequence: U32, src: Address): (m: Message)
    requires it.i < |data|
    ensures WellFormed(m)
  {
    Message(sequence, src, Datagram(it.count, it.part, data[it.i..it.i + NextSize(it, |data|, max)]))
  }

  /** What `send_datagram` does to the iterator, and what it answers. */
  function SendOutcome(it: Iter, data: seq<Byte>, max: U16, queue: seq<seq<Byte>>, size: nat, msgMax: nat)
    : (Iter, MultihopRC)
    requires it.i <= |data| && Short(queue)
  {
    if it.i == |data| then (it, NoData)
    else
      var n := NextSize(it, |data|, max);
      if n > Available(queue, size) then (Rewound(Advanced(it, |data|, max)), LinkFull)
      else
        (Advanced(it, |data|, max),
         match SendResult(queue, HEADER_BYTES + DATAGRAM_BYTES + n, size, msgMax)
         case Ok => Queued
         case BufSize => LinkFull
         case _ => LinkError)
  }

  /** What sending the next fragment answers, in bytes: there is none; or it is queued with its length byte and headers;
      or it does not fit with them; or it fits and is longer than messages may be. */
  lemma SendAnswerIs(it: Iter, data: seq<Byte>, max: U16, queue: seq<seq<Byte>>, size: nat, msgMax: nat)
    requires it.i <= |data| && Short(queue)
    ensures var rc, n := SendOutcome(it, data, max, queue, size, msgMax).1, 10 + NextSize(it, |data|, max);
      && (rc == NoData <==> it.i == |data|)
      && (rc == Queued <==> it.i < |data| && 12 + |Pack(queue)| + 1 + n <= size && n <= msgMax)
      && (rc == LinkFull <==> it.i < |data| && 12 + |Pack(queue)| + 1 + n > size)
      && (rc == LinkError <==> it.i < |data| && 12 + |Pack(queue)| + 1 + n <= size && n > msgMax)
  {
  }

  /** A fragment that was not sent stays next in line if and only if its bytes alone exceed the free space:
      when only its headers do not fit, or the message is too big, it is skipped. */
  lemma FragmentSkippedIff(it: Iter, data: seq<Byte>, max: U16, queue: seq<seq<Byte>>, size: nat, msgMax: nat)
    requires max > 0 && it.i < |data| && Short(queue)
    requires SendOutcome(it, data, max, queue, size, msgMax).1 != Queued
    ensures SendOutcome(it, data, max, queue, size, msgMax).0 == it.(last := 0)
       <==> NextSize(it, |data|, max) > Available(queue, size)
  {
    RewindUndoesNext(it, |data|, max);
    assert Advanced(it, |data|, max).i > it.i;
  }

  /** Ten bytes in one fragment, and twelve free bytes: the fragment is refused and nothing is left to be sent. */
  lemma RefusedFragmentIsLost(data: seq<Byte>)
    requires |data| == 10
    ensures var (it, rc) := SendOutcome(Start(10, 10), data, 10, [], FRAME_HEADER_BYTES + 12, 255);
      Start(10, 10).count == 1 && rc == LinkFull && it.i == |data|
  {
    assert PartCount(10, 10) == 1 by { PartCountIsCeiling(10, 10); }
  }

  const FRAGMENT_HEADERS := HEADER_BYTES + DATAGRAM_BYTES

  // ---- A run of sends and flushes -------------------------------------------------------------------

  datatype Source = Source(data: seq<Byte>, max: U16, line: LineParams)

  datatype Sender = Sender(it: Iter, line: Line)

  datatype Action = SendNext(sequence: U32) | FlushNow(time: U32, succeeds: bool)

  ghost predicate SenderValid(s: Source, x: Sender) {
    s.max > 0 && x.it.i <= |s.data| && FitsFrame(x.line.queue, s.line.size)
  }

  function SendAnswer(s: Source, x: Sender): MultihopRC
    requires x.it.i <= |s.data| && FitsFrame(x.line.queue, s.line.size)
  {
    SendOutcome(x.it, s.data, s.max, x.line.queue, s.line.size, s.line.msgMax).1
  }

  function Act(s: Source, x: Sender, a: Action): (x': Sender)
    requires SenderValid(s, x)
    ensures SenderValid(s, x')
  {
    match a
    case FlushNow(time, succeeds) => x.(line := Apply(s.line, x.line, Flush(time, succeeds)))
    case SendNext(sequence) =>
      var (it, rc) := SendOutcome(x.it, s.data, s.max, x.line.queue, s.line.size, s.line.msgMax);
      Sender(it, if rc != Queued then x.line
                 else Apply(s.line, x.line,
                            Send(Encode(FragmentMessage(x.it, s.data, s.max, sequence, s.line.sender)))))
  }

  function Begin(s: Source): (x: Sender)
    requires s.max > 0 && FRAME_HEADER_BYTES <= s.line.size <= 255
    ensures SenderValid(s, x)
  {
    Sender(Start(|s.data|, s.max), Line([], [], []))
  }

  function RunAll(s: Source, actions: seq<Action>): (x: Sender)
    requires s.max > 0 && FRAME_HEADER_BYTES <= s.line.size <= 255
    ensures SenderValid(s, x)
  {
    if actions == [] then Begin(s)
    else Act(s, RunAll(s, actions[..|actions| - 1]), actions[|actions| - 1])
  }

  /** The next fragment alone would fit the TX buffer, but not with its length byte and headers, or not the longest
      message: it is refused and skipped. */
  predicate Skips(s: Source, x: Sender)
    requires x.it.i <= |s.data| && Short(x.line.queue)
  {
    var n, room := NextSize(x.it, |s.data|, s.max), Available(x.line.queue, s.line.size);
    x.it.i < |s.data| && n <= room && (1 + FRAGMENT_HEADERS + n > room || FRAGMENT_HEADERS + n > s.line.msgMax)
  }

  /** No send of the run skips a fragment; sends may be refused, rewound and repeated. */
  ghost predicate NoneSkipped(s: Source, actions: seq<Action>)
    requires s.max > 0 && FRAME_HEADER_BYTES <= s.line.size <= 255
  {
    actions != [] ==>
      var init := actions[..|actions| - 1];
      NoneSkipped(s, init) && (actions[|actions| - 1].SendNext? ==> !Skips(s, RunAll(s, init)))
  }

  // ---- The receiving end ------------------------------------------------------------------------------

  /** `ms` decode to the parts 0, 1, ... of a datagram in `count` parts of at most `max` bytes. */
  ghost predicate ArePartsOf(ms: seq<seq<Byte>>, count: nat, max: U16, src: Address) {
    forall k | 0 <= k < |ms| :: IsPart(ms[k], k, count, max, src)
  }

  lemma PartsSnoc(ms: seq<seq<Byte>>, b: seq<Byte>, count: nat, max: U16, src: Address)
    requires ArePartsOf(ms, count, max, src) && IsPart(b, |ms|, count, max, src)
    ensures ArePartsOf(ms + [b], count, max, src)
  {
    var all := ms + [b];
    forall k | 0 <= k < |all| ensures IsPart(all[k], k, count, max, src) {
      if k < |ms| { assert IsPart(ms[k], k, count, max, src); }
    }
  }

  ghost predicate IsPart(m: seq<Byte>, part: nat, count: nat, max: U16, src: Address) {
    && Decode(m).Some? && Decode(m).value.src == src && Decode(m).value.body.Datagram?
    && var d := Decode(m).value.body;
      d.part as nat == part && d.count as nat == count && |d.data| <= max as nat
  }

  function Payload(m: seq<Byte>): seq<Byte> {
    if Decode(m).Some? && Decode(m).value.body.Datagram? then Decode(m).value.body.data else []
  }

  /** The payloads one after the other. */
  function Rejoined(ms: seq<seq<Byte>>): seq<Byte> {
    if ms == [] then [] else Rejoined(ms[..|ms| - 1]) + Payload(ms[|ms| - 1])
  }

  /** `n` parts are out and the rest of the data still makes up the announced count. */
  ghost predicate Counted(data: seq<Byte>, max: U16, it: Iter, n: nat)
    requires max > 0
  {
    && it.i <= |data| && it.count as nat == PartCount(|data|, max) && it.part as nat == n
    && n + PartCount(|data| - it.i, max) == it.count as nat
  }

  /** What was accepted so far are the first parts, and they hold the data up to the iterator. */
  ghost predicate Progress(data: seq<Byte>, max: U16, src: Address, it: Iter, accepted: seq<seq<Byte>>)
    requires max > 0
  {
    && Counted(data, max, it, |accepted|)
    && ArePartsOf(accepted, it.count as nat, max, src)
    && Rejoined(accepted) == data[..it.i]
  }

  lemma CountedStep(data: seq<Byte>, max: U16, it: Iter, n: nat)
    requires max > 0 && Counted(data, max, it, n) && it.i < |data|
    ensures var it' := Advanced(it, |data|, max);
      Counted(data, max, it', n + 1) && data[..it'.i] == data[..it.i] + data[it.i..it'.i]
  {
  }

  lemma FragmentDecodes(it: Iter, data: seq<Byte>, max: U16, sequence: U32, src: Address)
    requires it.i < |data|
    ensures var b := Encode(FragmentMessage(it, data, max, sequence, src));
      && IsPart(b, it.part as nat, it.count as nat, max, src) && Payload(b) == data[it.i..Advanced(it, |data|, max).i]
      && Decode(b).value.sequence == sequence
  {
    DecodeEncode(FragmentMessage(it, data, max, sequence, src));
  }

  lemma RejoinedSnoc(ms: seq<seq<Byte>>, m: seq<Byte>)
    ensures Rejoined(ms + [m]) == Rejoined(ms) + Payload(m)
  {
    assert (ms + [m])[..|ms|] == ms;
  }

  lemma SendStep(s: Source, x: Sender, sequence: U32, rxSize: nat)
    requires SenderValid(s, x) && SendAnswer(s, x) == Queued && FRAME_HEADER_BYTES <= s.line.size <= rxSize <= 255
    requires Progress(s.data, s.max, s.line.sender, x.it, x.line.accepted) && InOrder(s.line, x.line, rxSize)
    ensures var x' := Act(s, x, SendNext(sequence));
      Progress(s.data, s.max, s.line.sender, x'.it, x'.line.accepted) && InOrder(s.line, x'.line, rxSize)
  {
    var b := Encode(FragmentMessage(x.it, s.data, s.max, sequence, s.line.sender));
    FragmentDecodes(x.it, s.data, s.max, sequence, s.line.sender);
    CountedStep(s.data, s.max, x.it, |x.line.accepted|);
    PartsSnoc(x.line.accepted, b, x.it.count as nat, s.max, s.line.sender);
    RejoinedSnoc(x.line.accepted, b);
    ApplyKeepsOrder(s.line, x.line, Send(b), rxSize);
  }

  /** A fragment that is sent behind a gap does not close it. */
  lemma SendBehindGap(s: Source, x: Sender, sequence: U32, rxSize: nat)
    requires SenderValid(s, x) && SendAnswer(s, x) == Queued && FRAME_HEADER_BYTES <= s.line.size <= rxSize <= 255
    requires |Rejoined(x.line.accepted)| < x.it.i && InOrder(s.line, x.line, rxSize)
    ensures var x' := Act(s, x, SendNext(sequence));
      |Rejoined(x'.line.accepted)| < x'.it.i && InOrder(s.line, x'.line, rxSize)
  {
    var b := Encode(FragmentMessage(x.it, s.data, s.max, sequence, s.line.sender));
    FragmentDecodes(x.it, s.data, s.max, sequence, s.line.sender);
    RejoinedSnoc(x.line.accepted, b);
    ApplyKeepsOrder(s.line, x.line, Send(b), rxSize);
  }

  /** What is accepted so far: everything up to the iterator, or less once a fragment was skipped. */
  ghost predicate Accounted(s: Source, x: Sender, skipped: bool)
    requires s.max > 0
  {
    if skipped then |Rejoined(x.line.accepted)| < x.it.i
    else Progress(s.data, s.max, s.line.sender, x.it, x.line.accepted)
  }

  /** A refused send leaves everything as it was, but for the remembered size, or skips the fragment. */
  lemma RefusedStep(s: Source, x: Sender, sequence: U32)
    requires SenderValid(s, x) && SendAnswer(s, x) != Queued
    ensures var x' := Act(s, x, SendNext(sequence));
      && x'.line == x.line
      && (!Skips(s, x) ==> x'.it.(last := 0) == x.it.(last := 0))
      && (Skips(s, x) ==> x'.it.i > x.it.i)
  {
    if x.it.i < |s.data| { RewindUndoesNext(x.it, |s.data|, s.max); }
  }

  lemma RefusedIsAccounted(s: Source, x: Sender, x': Sender, skipped: bool, skips: bool)
    requires SenderValid(s, x) && Accounted(s, x, skipped) && x'.line == x.line
    requires if skips then x'.it.i > x.it.i else x'.it.(last := 0) == x.it.(last := 0)
    ensures Accounted(s, x', skipped || skips)
  {
    assert skipped || Rejoined(x.line.accepted) == s.data[..x.it.i];
  }

  /** One send, whatever it answers. */
  lemma SendIsAccounted(s: Source, x: Sender, sequence: U32, rxSize: nat, skipped: bool)
    requires SenderValid(s, x) && FRAME_HEADER_BYTES <= s.line.size <= rxSize <= 255
    requires PartCount(|s.data|, s.max) <= 255
    requires Accounted(s, x, skipped) && InOrder(s.line, x.line, rxSize)
    ensures var x' := Act(s, x, SendNext(sequence));
      Accounted(s, x', skipped || Skips(s, x)) && InOrder(s.line, x'.line, rxSize)
  {
    if SendAnswer(s, x) != Queued {
      RefusedStep(s, x, sequence);
      RefusedIsAccounted(s, x, Act(s, x, SendNext(sequence)), skipped, Skips(s, x));
    } else if !skipped {
      SendStep(s, x, sequence, rxSize);
    } else {
      SendBehindGap(s, x, sequence, rxSize);
    }
  }

  lemma {:induction false} RunAccounted(s: Source, actions: seq<Action>, rxSize: nat)
    requires s.max > 0 && FRAME_HEADER_BYTES <= s.line.size <= rxSize <= 255 && PartCount(|s.data|, s.max) <= 255
    ensures Accounted(s, RunAll(s, actions), !NoneSkipped(s, actions))
    ensures InOrder(s.line, RunAll(s, actions).line, rxSize)
  {
    if actions == [] {
      assert s.data[..0] == [];
    } else {
      var init, a := actions[..|actions| - 1], actions[|actions| - 1];
      var x := RunAll(s, init);
      RunAccounted(s, init, rxSize);
      match a
      case FlushNow(time, succeeds) => ApplyKeepsOrder(s.line, x.line, Flush(time, succeeds), rxSize);
      case SendNext(sequence) => SendIsAccounted(s, x, sequence, rxSize, !NoneSkipped(s, init));
    }
  }

  /** A datagram that would need more than 255 parts is never sent, not even in part. */
  lemma {:induction false} OversizedSendsNothing(s: Source, actions: seq<Action>, rxSize: nat)
    requires s.max > 0 && FRAME_HEADER_BYTES <= s.line.size <= rxSize <= 255
    requires PartCount(|s.data|, s.max) > 255
    ensures RunAll(s, actions).line.accepted == [] && RunAll(s, actions).it.i == |s.data|
    ensures InOrder(s.line, RunAll(s, actions).line, rxSize)
  {
    if actions != [] {
      var x, a := RunAll(s, actions[..|actions| - 1]), actions[|actions| - 1];
      OversizedSendsNothing(s, actions[..|actions| - 1], rxSize);
      if a.FlushNow? { ApplyKeepsOrder(s.line, x.line, Flush(a.time, a.succeeds), rxSize); }
    }
  }

  /** End to end: when no data are left and the queue is flushed out, with any sends refused, rewound and repeated
      and with flushes anywhere, the parts that the receiver gets join to the original buffer if and only if no
      fragment was skipped and the buffer has at most 255 parts; then they are exactly its parts in order. */
  lemma DatagramRoundTrip(s: Source, actions: seq<Action>, rxSize: nat)
    requires s.max > 0 && FRAME_HEADER_BYTES <= s.line.size <= rxSize <= 255
    requires var x := RunAll(s, actions); SendAnswer(s, x) == NoData && x.line.queue == []
    ensures var ms := Delivered(RunAll(s, actions).line.frames, rxSize);
      var count := PartCount(|s.data|, s.max);
      && (Rejoined(ms) == s.data <==> count <= 255 && NoneSkipped(s, actions))
      && (Rejoined(ms) == s.data ==> |ms| == count && ArePartsOf(ms, count, s.max, s.line.sender))
  {
    var x := RunAll(s, actions);
    var ms := Delivered(x.line.frames, rxSize);
    assert ms + [] == ms;
    if PartCount(|s.data|, s.max) <= 255 {
      RunAccounted(s, actions, rxSize);
      assert s.data[..|s.data|] == s.data;
      assert x.it.i == |s.data|;
    } else {
      OversizedSendsNothing(s, actions, rxSize);
      assert ms == [] && |s.data| > 0;
    }
  }

  // ---- The objects --------------------------------------------------------------------------------------

  class DatagramIterator {
    var part: Byte
    var count: Byte
    var i: nat
    const buf: array<Byte>
    const sz: nat
    const maxFragmentBytes: U16
    var lastMsgSz: U16

    ghost predicate Valid()
      reads this
    {
      i <= sz <= buf.Length && lastMsgSz as nat <= i && maxFragmentBytes > 0
    }

    ghost function View(): Iter
      reads this
    {
      Iter(part, count, i, lastMsgSz)
    }

    constructor (buf: array<Byte>, sz: nat, maxFragmentBytes: U16)
      requires sz <= buf.Length && maxFragmentBytes > 0
      ensures Valid() && View() == Start(sz, maxFragmentBytes)
      ensures this.buf == buf && this.sz == sz && this.maxFragmentBytes == maxFragmentBytes
    {
      this.buf, this.sz, this.maxFragmentBytes := buf, sz, maxFragmentBytes;
      part, i, lastMsgSz, count := 0, 0, 0, 0;
      PartCountIsCeiling(sz, maxFragmentBytes);
      var parts := (sz + maxFragmentBytes as nat - 1) / maxFragmentBytes as nat;
      if parts > 255 {
        i := sz;
      } else {
        count := parts;
      }
    }

    /** The fields of the next fragment, whose bytes are `buf[start..start + packetBytes]`. */
    method Peek() returns (ok: bool, packetBytes: U16, start: nat)
      requires Valid()
      ensures ok <==> i < sz
      ensures ok ==> packetBytes as nat == NextSize(View(), sz, maxFragmentBytes) && start == i
    {
      if i == sz { return false, 0, 0; }
      packetBytes, start := Min(sz - i, maxFragmentBytes), i;
      ok := true;
    }

    method Next() returns (ok: bool, packetBytes: U16, start: nat)
      requires Valid()
      modifies this
      ensures Valid() && (ok <==> old(i) < sz)
      ensures ok ==> packetBytes as nat == NextSize(old(View()), sz, maxFragmentBytes) && start == old(i)
      ensures View() == if ok then Advanced(old(View()), sz, maxFragmentBytes) else old(View())
    {
      ok, packetBytes, start := Peek();
      if ok {
        lastMsgSz := packetBytes;
        part := Wrap8(part as int + 1);
        i := i + lastMsgSz as nat;
      }
    }

    method Rewind() returns (lastSz: U16)
      requires Valid()
      modifies this
      ensures Valid() && View() == Rewound(old(View())) && lastSz == old(lastMsgSz)
    {
      lastSz := lastMsgSz;
      lastMsgSz := 0;
      i := i - lastSz as nat;
      part := Wrap8(part as int - 1);
    }
  }

  method SendDatagram(link: LinkLayer, iter: DatagramIterator, now: U32) returns (rc: MultihopRC)
    requires link.Valid() && iter.Valid() && iter.buf != link.txBuf
    modifies link`queue, link`txBytesQueued, link`txMsgCount, link.txBuf, iter
    ensures link.Valid() && iter.Valid()
    ensures (iter.View(), rc) == SendOutcome(old(iter.View()), old(iter.buf[..iter.sz]), iter.maxFragmentBytes,
                                             old(link.queue), link.txBuf.Length, link.msgMaxBytes)
    ensures rc != Queued ==> link.queue == old(link.queue)
    ensures rc == Queued ==>
      link.queue == old(link.queue)
        + [Encode(FragmentMessage(old(iter.View()), old(iter.buf[..iter.sz]), iter.maxFragmentBytes, now,
                                  link.address))]
  {
    ghost var it, data := iter.View(), iter.buf[..iter.sz];
    var count, part := iter.count, iter.part;
    var ok, packetBytes, start := iter.Next();
    if !ok { return NoData; }
    var available := link.TxBytesAvailable();
    if packetBytes as int > available {
      var _ := iter.Rewind();
      return LinkFull;
    }
    rc := SendFragment(link, iter.buf, start, packetBytes, count, part, now);
    assert iter.buf[start..start + packetBytes as nat]
      == data[it.i..it.i + NextSize(it, |data|, iter.maxFragmentBytes)];
  }

  /** The message with its header fields, followed by the fragment's bytes. */
  method SendFragment(link: LinkLayer, buf: array<Byte>, start: nat, packetBytes: U16, count: Byte, part: Byte,
                      now: U32)
    returns (rc: MultihopRC)
    requires link.Valid() && buf != link.txBuf && start + packetBytes as nat <= buf.Length
    modifies link`queue, link`txBytesQueued, link`txMsgCount, link.txBuf
    ensures link.Valid()
    ensures rc == Code(SendResult(old(link.queue), HEADER_BYTES + DATAGRAM_BYTES + packetBytes as nat,
                                  link.txBuf.Length, link.msgMaxBytes))
    ensures var m := Message(now, link.address, Datagram(count, part, old(buf[start..start + packetBytes as nat])));
      link.queue == if rc == Queued then old(link.queue) + [Encode(m)] else old(link.queue)
  {
    var header := PutU32(now) + [link.address, 5] + PutU16(packetBytes) + [count, part];
    DatagramBytes(now, link.address, count, part, buf[start..start + packetBytes as nat], header);
    rc := SendBytes(link, header, buf, start, packetBytes as nat);
  }

  lemma DatagramBytes(now: U32, src: Address, count: Byte, part: Byte, data: seq<Byte>, header: seq<Byte>)
    requires |data| < 0x1_0000 && header == PutU32(now) + [src, 5] + PutU16(|data|) + [count, part]
    ensures |header| == HEADER_BYTES + DATAGRAM_BYTES
    ensures Encode(Message(now, src, Datagram(count, part, data))) == header + data
  {
    Regroup(PutU32(now) + [src, 5], PutU16(|data|), [count, part]);
    Regroup(PutU32(now) + [src, 5], PutU16(|data|) + [count, part], data);
  }
}
