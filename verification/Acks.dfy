/** Acknowledgements from a clusterhead to its members (multihop.cpp). */
module Acks {
  import opened Bytes
  import opened Messages
  import opened Frames
  import opened Link
  import opened Sending
  import opened State

  const ACK_MESSAGE_BYTES := HEADER_BYTES + SEND_ACKS_BYTES
  const ACK_BYTES := 4

  // ---- One ack message -------------------------------------------------------------------------------

  /** How many acks from `start` on go into a message when `available` bytes of the TX buffer are free. */
  function AckCount(available: nat, start: Byte, slotCount: nat): (n: nat)
    requires available > ACK_MESSAGE_BYTES
    ensures start as nat + n <= 255
    ensures n > 0 ==> start as nat + n <= slotCount
    ensures ACK_MESSAGE_BYTES + n * ACK_BYTES <= available
  {
    var n := Min((available - ACK_MESSAGE_BYTES) / ACK_BYTES, 255 - start as nat);
    if start as nat + n <= slotCount then n else if start as nat < slotCount then slotCount - start as nat else 0
  }

  /** What `send_acks` reports as the end of the range. */
  function AckEnd(available: nat, start: Byte, slotCount: nat): Byte {
    if available <= ACK_MESSAGE_BYTES then start else start as nat + AckCount(available, start, slotCount)
  }

  function AckMessage(acks: seq<U32>, start: Byte, end: Byte, now: U32, src: Address): (m: Message)
    requires start <= end && (start < end ==> end as nat <= |acks|)
    ensures WellFormed(m) && |Encode(m)| == ACK_MESSAGE_BYTES + ACK_BYTES * (end as nat - start as nat)
  {
    Message(now, src, SendAcks(start, end, if start < end then acks[start..end] else []))
  }

  function AckResult(q: seq<seq<Byte>>, start: Byte, slotCount: nat, size: nat, msgMax: nat): MultihopRC
    requires Short(q)
  {
    var available := Available(q, size);
    if available <= ACK_MESSAGE_BYTES then LinkFull
    else Code(SendResult(q, ACK_MESSAGE_BYTES + ACK_BYTES * AckCount(available, start, slotCount), size, msgMax))
  }

  /** Acks as the bytes of the array that the source casts. */
  method BytesOf(acks: seq<U32>) returns (buf: array<Byte>)
    ensures fresh(buf) && buf[..] == PutU32s(acks)
  {
    buf := new Byte[ACK_BYTES * |acks|](_ => 0);
    LinkLayer.Store(buf, PutU32s(acks));
    assert buf[..] == PutU32s(acks);
  }

  lemma RangeBytes(now: U32, src: Address, start: Byte, end: Byte, range: seq<U32>, header: seq<Byte>)
    requires start <= end && |range| == end as nat - start as nat
    requires header == PutU32(now) + [src, 4] + [start, end]
    ensures Encode(Message(now, src, SendAcks(start, end, range))) == header + PutU32s(range)
    ensures |header| == ACK_MESSAGE_BYTES
  {
    Regroup(PutU32(now) + [src, 4], [start, end], PutU32s(range));
  }

  /** Queues an ack message that carries `range`. */
  method SendRange(link: LinkLayer, range: seq<U32>, start: Byte, end: Byte, now: U32) returns (rc: MultihopRC)
    requires link.Valid() && start <= end && |range| == end as nat - start as nat
    modifies link`queue, link`txBytesQueued, link`txMsgCount, link.txBuf
    ensures link.Valid()
    ensures rc == Code(SendResult(old(link.queue), ACK_MESSAGE_BYTES + ACK_BYTES * |range|, link.txBuf.Length,
                                  link.msgMaxBytes))
    ensures link.queue == if rc == Queued
                          then old(link.queue) + [Encode(Message(now, link.address, SendAcks(start, end, range)))]
                          else old(link.queue)
  {
    var buf := BytesOf(range);
    var header := PutU32(now) + [link.address, 4] + [start, end];
    RangeBytes(now, link.address, start, end, range, header);
    assert buf[0..buf.Length] == PutU32s(range);
    rc := SendBytes(link, header, buf, 0, buf.Length);
  }

  method SendAckRange(link: LinkLayer, acks: array<U32>, start: Byte, now: U32) returns (rc: MultihopRC, end: Byte)
    requires link.Valid()
    modifies link`queue, link`txBytesQueued, link`txMsgCount, link.txBuf
    ensures link.Valid()
    ensures rc == AckResult(old(link.queue), start, acks.Length, link.txBuf.Length, link.msgMaxBytes)
    ensures end == AckEnd(Available(old(link.queue), link.txBuf.Length), start, acks.Length)
    ensures start <= end && (start < end ==> end as nat <= acks.Length)
    ensures link.queue == if rc == Queued
                          then old(link.queue) + [Encode(AckMessage(acks[..], start, end, now, link.address))]
                          else old(link.queue)
  {
    var available := link.TxBytesAvailable();
    if available <= ACK_MESSAGE_BYTES { return LinkFull, start; }
    var n := CountAcks(available, start, acks.Length);
    end := start as nat + n;
    var range := if start < end then acks[start..end] else [];
    assert start < end ==> range == acks[..][start..end];
    rc := SendRange(link, range, start, end, now);
  }

  /** How many acks fit in this message. */
  method CountAcks(available: nat, start: Byte, slotCount: nat) returns (n: nat)
    requires available > ACK_MESSAGE_BYTES
    ensures n == AckCount(available, start, slotCount)
  {
    n := (available - ACK_MESSAGE_BYTES) / ACK_BYTES;
    n := Min(n, 255 - start as nat);
    if start as nat + n > slotCount { n := if start as nat < slotCount then slotCount - start as nat else 0; }
  }

  // ---- The loop --------------------------------------------------------------------------------------

  datatype Range = Range(start: Byte, end: Byte)

  /** Bytes that a message with `n` acks takes in the TX buffer, its length byte included. */
  function BytesTaken(n: nat): nat { 1 + ACK_MESSAGE_BYTES + ACK_BYTES * n }

  /** The ranges that the loop of `emit_ch_messages` sends when `available` bytes are free. */
  function AckRanges(available: nat, msgMax: nat, slotCount: nat, used: nat, start: Byte): seq<Range>
    decreases available
  {
    if start as nat >= used || available <= ACK_MESSAGE_BYTES then []
    else
      var n := AckCount(available, start, slotCount);
      if available < BytesTaken(n) || BytesTaken(n) - 1 > msgMax then []
      else
        [Range(start, start as nat + n)]
          + AckRanges(available - BytesTaken(n), msgMax, slotCount, used, start as nat + n)
  }

  /** The ranges follow each other without gap or overlap, from `start` to `end`. */
  predicate Tiles(rs: seq<Range>, start: Byte, end: Byte) {
    if rs == [] then start == end
    else rs[0].start == start && start <= rs[0].end && Tiles(rs[1..], rs[0].end, end)
  }

  /** The first ack that is not sent. */
  function Acked(rs: seq<Range>, start: Byte): Byte { if rs == [] then start else rs[|rs| - 1].end }

  lemma {:induction false} RangesTile(available: nat, msgMax: nat, slotCount: nat, used: nat, start: Byte)
    ensures var rs := AckRanges(available, msgMax, slotCount, used, start);
      Tiles(rs, start, Acked(rs, start)) && (Acked(rs, start) > start ==> Acked(rs, start) as nat <= slotCount)
    decreases available
  {
    var rs := AckRanges(available, msgMax, slotCount, used, start);
    if rs != [] {
      var n := AckCount(available, start, slotCount);
      RangesTile(available - BytesTaken(n), msgMax, slotCount, used, start as nat + n);
      OneMoreRange(start, start as nat + n, AckRanges(available - BytesTaken(n), msgMax, slotCount, used,
                                                      start as nat + n));
    }
  }

  lemma OneMoreRange(start: Byte, end: Byte, rest: seq<Range>)
    requires start <= end && Tiles(rest, end, Acked(rest, end))
    ensures var rs := [Range(start, end)] + rest;
      Acked(rs, start) == Acked(rest, end) && Tiles(rs, start, Acked(rs, start))
  {
    assert ([Range(start, end)] + rest)[1..] == rest;
  }

  /** The number of acks that leave in one go: a message takes all that fit, unless they fit to the last byte;
      then the send is refused for want of the length byte. */
  function AckedPrefix(available: nat, msgMax: nat, slotCount: nat, used: nat): nat {
    if used == 0 || available <= ACK_MESSAGE_BYTES then 0
    else
      var n := AckCount(available, 0, slotCount);
      if available == ACK_MESSAGE_BYTES + ACK_BYTES * n || BytesTaken(n) - 1 > msgMax then 0 else n
  }

  /** Whatever is free, the loop sends at most one message: it leaves nothing to send or no room to send it. */
  lemma LoopSendsOnce(available: nat, msgMax: nat, slotCount: nat, used: nat)
    requires used <= 255 && used <= slotCount
    ensures var rs := AckRanges(available, msgMax, slotCount, used, 0);
      |rs| <= 1 && Acked(rs, 0) as nat == AckedPrefix(available, msgMax, slotCount, used)
  {
  }

  /** The ack messages for the given ranges. */
  function Batch(rs: seq<Range>, acks: seq<U32>, now: U32, src: Address): (ms: seq<seq<Byte>>)
    requires forall i | 0 <= i < |rs| ::
      rs[i].start <= rs[i].end && (rs[i].start < rs[i].end ==> rs[i].end as nat <= |acks|)
  {
    if rs == [] then []
    else [Encode(AckMessage(acks, rs[0].start, rs[0].end, now, src))] + Batch(rs[1..], acks, now, src)
  }

  lemma {:induction false} RangesInArray(available: nat, msgMax: nat, slotCount: nat, used: nat, start: Byte)
    ensures forall r | r in AckRanges(available, msgMax, slotCount, used, start) ::
      r.start <= r.end && (r.start < r.end ==> r.end as nat <= slotCount)
    decreases available
  {
    if start as nat < used && available > ACK_MESSAGE_BYTES {
      var n := AckCount(available, start, slotCount);
      if BytesTaken(n) <= available {
        RangesInArray(available - BytesTaken(n), msgMax, slotCount, used, start as nat + n);
      }
    }
  }

  /** What the loop queues. */
  function AckMessages(q: seq<seq<Byte>>, size: nat, msgMax: nat, acks: seq<U32>, used: nat, start: Byte, now: U32,
                       src: Address)
    : seq<seq<Byte>>
    requires Short(q)
  {
    RangesInArray(Available(q, size), msgMax, |acks|, used, start);
    Batch(AckRanges(Available(q, size), msgMax, |acks|, used, start), acks, now, src)
  }

  lemma QueuedTakesRoom(q: seq<seq<Byte>>, m: seq<Byte>, size: nat)
    requires Short(q) && |m| <= 255 && |m| + 1 <= Available(q, size)
    ensures Short(q + [m]) && Available(q + [m], size) == Available(q, size) - |m| - 1
  {
    PackSnoc(q, m);
  }

  /** The queue when the loop is done, if it starts with `start`. */
  function Emitted(q: seq<seq<Byte>>, size: nat, msgMax: nat, acks: seq<U32>, used: nat, start: Byte, now: U32,
                   src: Address)
    : seq<seq<Byte>>
    requires Short(q)
  {
    q + AckMessages(q, size, msgMax, acks, used, start, now, src)
  }

  predicate Sends(q: seq<seq<Byte>>, size: nat, msgMax: nat, slotCount: nat, start: Byte)
    requires Short(q)
  {
    AckResult(q, start, slotCount, size, msgMax) == Queued
  }

  lemma RangesTurn(q: seq<seq<Byte>>, size: nat, msgMax: nat, slotCount: nat, used: nat, start: Byte)
    requires Short(q) && start as nat < used
    ensures var available, end := Available(q, size), AckEnd(Available(q, size), start, slotCount);
      && start <= end && (start < end ==> end as nat <= slotCount)
      && if Sends(q, size, msgMax, slotCount, start) then
           && BytesTaken(end as nat - start as nat) <= available
           && AckRanges(available, msgMax, slotCount, used, start)
                == [Range(start, end)]
                  + AckRanges(available - BytesTaken(end as nat - start as nat), msgMax, slotCount, used, end)
         else AckRanges(available, msgMax, slotCount, used, start) == []
  {
  }

  lemma MessagesTurn(q: seq<seq<Byte>>, q': seq<seq<Byte>>, m: seq<Byte>, size: nat, msgMax: nat, acks: seq<U32>,
                     used: nat, start: Byte, end: Byte, now: U32, src: Address)
    requires Short(q) && q' == q + [m] && Short(q') && start <= end && (start < end ==> end as nat <= |acks|)
    requires m == Encode(AckMessage(acks, start, end, now, src))
    requires AckRanges(Available(q, size), msgMax, |acks|, used, start)
          == [Range(start, end)] + AckRanges(Available(q', size), msgMax, |acks|, used, end)
    ensures Emitted(q, size, msgMax, acks, used, start, now, src)
      == Emitted(q', size, msgMax, acks, used, end, now, src)
  {
    var rest := AckRanges(Available(q', size), msgMax, |acks|, used, end);
    RangesInArray(Available(q', size), msgMax, |acks|, used, end);
    BatchHead(Range(start, end), rest, acks, now, src, [Range(start, end)] + rest);
    Regroup(q, [m], Batch(rest, acks, now, src));
  }

  lemma BatchHead(r: Range, rest: seq<Range>, acks: seq<U32>, now: U32, src: Address, rs: seq<Range>)
    requires r.start <= r.end && (r.start < r.end ==> r.end as nat <= |acks|)
    requires forall i | 0 <= i < |rest| ::
      rest[i].start <= rest[i].end && (rest[i].start < rest[i].end ==> rest[i].end as nat <= |acks|)
    requires rs == [r] + rest
    ensures Batch(rs, acks, now, src) == [Encode(AckMessage(acks, r.start, r.end, now, src))]
      + Batch(rest, acks, now, src)
  {
    assert rs[1..] == rest;
  }

  /** One turn of the loop: either it sends the first range of what is left, or nothing is left to send. */
  lemma LoopTurn(q: seq<seq<Byte>>, q': seq<seq<Byte>>, size: nat, msgMax: nat, acks: seq<U32>, used: nat, start: Byte,
                 now: U32, src: Address)
    requires Short(q) && size <= 255 && start as nat < used
    requires q' == if Sends(q, size, msgMax, |acks|, start)
                   then q + [Encode(AckMessage(acks, start, Reached(q, size, start, acks), now, src))] else q
    ensures if Sends(q, size, msgMax, |acks|, start) then
              && Short(q') && Available(q', size) < Available(q, size)
              && Emitted(q, size, msgMax, acks, used, start, now, src)
                   == Emitted(q', size, msgMax, acks, used, Reached(q, size, start, acks), now, src)
            else Emitted(q, size, msgMax, acks, used, start, now, src) == q
  {
    RangesTurn(q, size, msgMax, |acks|, used, start);
    if Sends(q, size, msgMax, |acks|, start) {
      var end := Reached(q, size, start, acks);
      var m := Encode(AckMessage(acks, start, end, now, src));
      QueuedTakesRoom(q, m, size);
      MessagesTurn(q, q', m, size, msgMax, acks, used, start, end, now, src);
    }
  }

  /** Where the next range starts if this one is sent. */
  function Reached(q: seq<seq<Byte>>, size: nat, start: Byte, acks: seq<U32>): (end: Byte)
    requires Short(q)
    ensures start <= end && (start < end ==> end as nat <= |acks|)
  {
    AckEnd(Available(q, size), start, |acks|)
  }

  /** Sends the acks of all used slots, as far as the TX buffer takes them; the loop ends because every
      message, even one without acks, takes room. */
  method SendAllAcks(link: LinkLayer, acks: array<U32>, used: nat, now: U32)
    requires link.Valid() && acks as object != link.txBuf
    modifies link`queue, link`txBytesQueued, link`txMsgCount, link.txBuf
    ensures link.Valid()
    ensures link.queue
      == Emitted(old(link.queue), link.txBuf.Length, link.msgMaxBytes, acks[..], used, 0, now, link.address)
  {
    var start: Byte := 0;
    ghost var values := acks[..];
    ghost var all := Emitted(link.queue, link.txBuf.Length, link.msgMaxBytes, values, used, 0, now, link.address);
    while start as nat < used
      invariant link.Valid() && acks[..] == values
      invariant Emitted(link.queue, link.txBuf.Length, link.msgMaxBytes, values, used, start, now, link.address) == all
      decreases Available(link.queue, link.txBuf.Length)
    {
      ghost var before := link.queue;
      var rc, end := SendAckRange(link, acks, start, now);
      LoopTurn(before, link.queue, link.txBuf.Length, link.msgMaxBytes, values, used, start, now, link.address);
      if rc != Queued { break; }
      start := end;
    }
  }

  // ---- The member's side -----------------------------------------------------------------------------

  /** What a waiting member does with one received message, and whether it is done waiting. */
  function Hear(s: NodeState, bytes: seq<Byte>): (NodeState, bool)
    requires |s.acks| > 0
  {
    match Decode(bytes)
    case None => (s, false)
    case Some(m) => HearBody(s, m.body)
  }

  function HearBody(s: NodeState, body: Body): (NodeState, bool)
    requires |s.acks| > 0
  {
    match body
    case SendAcks(start, end, acks) =>
      var rel := s.upstreamRelativeSlot;
      var mine := start <= rel < end && (rel - start) as nat < |acks|;
      (if mine then s.(acks := s.acks[0 := acks[rel - start]]) else s, true)
    case CloseCluster(nomination, _) =>
      (if nomination != UNKNOWN_ADDR then s.(clusterheadAddr := nomination)
       else s.(clusterheadAddr := UNKNOWN_ADDR, clusterheadRing := UNKNOWN_RING), true)
    case _ => (s, false)
  }

  /** All messages of a frame are read, also behind the one that ends the waiting. */
  function HearAll(s: NodeState, ms: seq<seq<Byte>>): (r: (NodeState, bool))
    requires |s.acks| > 0
    ensures |r.0.acks| == |s.acks| && r.0.upstreamRelativeSlot == s.upstreamRelativeSlot
  {
    if ms == [] then (s, false)
    else
      var before := HearAll(s, ms[..|ms| - 1]);
      var last := Hear(before.0, ms[|ms| - 1]);
      (last.0, before.1 || last.1)
  }

  predicate NoAcks(bytes: seq<Byte>) { Decode(bytes).None? || !Decode(bytes).value.body.SendAcks? }

  lemma {:induction false} HearingNoAcks(s: NodeState, ms: seq<seq<Byte>>, more: seq<seq<Byte>>)
    requires |s.acks| > 0 && forall m | m in more :: NoAcks(m)
    ensures HearAll(s, ms + more).0.acks == HearAll(s, ms).0.acks
  {
    if more == [] {
      assert ms + more == ms;
    } else {
      var init := more[..|more| - 1];
      HearingNoAcks(s, ms, init);
      assert (ms + more)[..|ms + more| - 1] == ms + init;
      assert NoAcks(more[|more| - 1]);
    }
  }

  lemma RangeIsHeard(s: NodeState, acks: seq<U32>, start: Byte, end: Byte)
    requires |s.acks| > 0 && start < end && end as nat <= |acks|
    ensures HearBody(s, SendAcks(start, end, acks[start..end])).0
         == if start <= s.upstreamRelativeSlot < end then s.(acks := s.acks[0 := acks[s.upstreamRelativeSlot]]) else s
  {
  }

  /** A message with acks [start, end) tells the members in that range, and only them, their ack. */
  lemma AckIsHeard(s: NodeState, acks: seq<U32>, start: Byte, end: Byte, now: U32, src: Address, bytes: seq<Byte>)
    requires |s.acks| > 0 && start <= end && (start < end ==> end as nat <= |acks|)
    requires bytes == Encode(AckMessage(acks, start, end, now, src))
    ensures Hear(s, bytes).0
         == if start <= s.upstreamRelativeSlot < end then s.(acks := s.acks[0 := acks[s.upstreamRelativeSlot]]) else s
  {
    DecodeEncode(AckMessage(acks, start, end, now, src));
    if start < end { RangeIsHeard(s, acks, start, end); }
  }

  lemma OneRange(available: nat, msgMax: nat, slotCount: nat, used: nat)
    requires used <= 255 && used <= slotCount
    ensures var rs, k :=
      AckRanges(available, msgMax, slotCount, used, 0), AckedPrefix(available, msgMax, slotCount, used);
      k <= 255 && rs in {[], [Range(0, k)]} && (rs == [] ==> k == 0) && k <= slotCount
  {
    LoopSendsOnce(available, msgMax, slotCount, used);
    RangesTile(available, msgMax, slotCount, used, 0);
    var rs := AckRanges(available, msgMax, slotCount, used, 0);
    if rs != [] { assert rs == [rs[0]]; }
  }

  /** Whatever is heard, only the first cell of a member's acks can change. */
  lemma {:induction false} HearingTouchesOne(s: NodeState, ms: seq<seq<Byte>>)
    requires |s.acks| > 0
    ensures HearAll(s, ms).0.acks == s.acks[0 := HearAll(s, ms).0.acks[0]]
  {
    if ms != [] { HearingTouchesOne(s, ms[..|ms| - 1]); }
  }

  /** From everything that a clusterhead queues behind the messages `q`, a member whose slot is below the acknowledged
      prefix learns the clusterhead's ack for its slot, even if `q` still holds acks of a frame that was not
      transmitted; every other member learns what it learns from `q`. */
  lemma AcksAreHeard(s: NodeState, q: seq<seq<Byte>>, size: nat, msgMax: nat, acks: seq<U32>, used: nat, now: U32,
                     src: Address, more: seq<seq<Byte>>)
    requires Short(q) && used <= 255 && used <= |acks| && |s.acks| > 0
    requires forall m | m in more :: NoAcks(m)
    ensures var k := AckedPrefix(Available(q, size), msgMax, |acks|, used);
      && k <= |acks|
      && HearAll(s, Emitted(q, size, msgMax, acks, used, 0, now, src) + more).0.acks
           == (if s.upstreamRelativeSlot as nat < k then s.acks[0 := acks[s.upstreamRelativeSlot]]
               else HearAll(s, q).0.acks)
  {
    var sent := Emitted(q, size, msgMax, acks, used, 0, now, src);
    var k := AckedPrefix(Available(q, size), msgMax, |acks|, used);
    EmittedIs(q, size, msgMax, acks, used, now, src, k);
    HearingNoAcks(s, sent, more);
    HearingTouchesOne(s, q);
    if sent != q {
      var m := Encode(AckMessage(acks, 0, k, now, src));
      LastIsHeard(s, q, m, sent);
      AckIsHeard(HearAll(s, q).0, acks, 0, k, now, src, m);
    }
  }

  /** ... which is nothing, if `q` holds no acks. */
  lemma NothingIsHeard(s: NodeState, q: seq<seq<Byte>>)
    requires |s.acks| > 0 && forall m | m in q :: NoAcks(m)
    ensures HearAll(s, q).0.acks == s.acks
  {
    HearingNoAcks(s, [], q);
    assert [] + q == q;
  }

  /** The loop adds nothing, or one message with the acknowledged prefix. */
  lemma EmittedIs(q: seq<seq<Byte>>, size: nat, msgMax: nat, acks: seq<U32>, used: nat, now: U32, src: Address, k: nat)
    requires Short(q) && used <= 255 && used <= |acks| && k == AckedPrefix(Available(q, size), msgMax, |acks|, used)
    ensures k <= 255 && k <= |acks|
    ensures var sent := Emitted(q, size, msgMax, acks, used, 0, now, src);
      || (sent == q && k == 0)
      || (sent == q + [Encode(AckMessage(acks, 0, k, now, src))] && BytesTaken(k) <= Available(q, size))
  {
    OneRange(Available(q, size), msgMax, |acks|, used);
    if AckRanges(Available(q, size), msgMax, |acks|, used, 0) == [] {
      assert Emitted(q, size, msgMax, acks, used, 0, now, src) == q;
    } else {
      BatchHead(Range(0, k), [], acks, now, src, [Range(0, k)]);
    }
  }

  lemma LastIsHeard(s: NodeState, q: seq<seq<Byte>>, m: seq<Byte>, ms: seq<seq<Byte>>)
    requires |s.acks| > 0 && ms == q + [m]
    ensures HearAll(s, ms).0 == Hear(HearAll(s, q).0, m).0
  {
    assert ms[..|ms| - 1] == q;
  }

  /** Number of acks that a message takes when `available` bytes are free. */
  function AcksThatFit(available: nat, slotCount: nat): nat
    requires available >= ACK_MESSAGE_BYTES
  {
    Min(Min(255, slotCount), (available - ACK_MESSAGE_BYTES) / ACK_BYTES)
  }

  /** `n` is the most acks that a message of at most `available` bytes, its 8 header bytes included, can carry. */
  predicate IsMost(n: nat, available: nat, slotCount: nat) {
    && 8 + 4 * n <= available && n <= slotCount && n <= 255
    && (n == slotCount || n == 255 || 8 + 4 * (n + 1) > available)
  }

  /** At the end of a window one message with the first acks, the most that the free space can carry, is queued behind
      what was queued; or nothing is, and then no slot is used, not even a message without acks could be begun, or
      that message leaves no room for its length byte or is longer than messages may be. */
  lemma AcksAreSentIff(q: seq<seq<Byte>>, size: nat, msgMax: nat, acks: seq<U32>, used: nat, now: U32, src: Address)
    returns (n: nat)
    requires Short(q) && used <= 255 && used <= |acks|
    ensures var room, sent := Available(q, size), Emitted(q, size, msgMax, acks, used, 0, now, src);
      if used == 0 || room <= 8 then sent == q
      else
        && IsMost(n, room, |acks|)
        && (if 8 + 4 * n == room || 8 + 4 * n > msgMax then sent == q
            else
              && |sent| == |q| + 1 && sent[..|q|] == q
              && sent[|q|] == Encode(Message(now, src, SendAcks(0, n, acks[..n]))))
  {
    var room := Available(q, size);
    n := if used == 0 || room <= ACK_MESSAGE_BYTES then 0 else AckCount(room, 0, |acks|);
    var rs := AckRanges(room, msgMax, |acks|, used, 0);
    OneRange(room, msgMax, |acks|, used);
    if rs == [] {
      assert Emitted(q, size, msgMax, acks, used, 0, now, src) == q;
    } else {
      BatchHead(Range(0, n), [], acks, now, src, rs);
      assert AckMessage(acks, 0, n, now, src) == Message(now, src, SendAcks(0, n, acks[..n]));
    }
  }

  /** All members are told their acks if and only if those of the used slots fit, and the message with all acks
      that fit leaves room for its length byte and is no longer than messages may be. */
  lemma AllAcksGoOutIff(available: nat, msgMax: nat, slotCount: nat, used: nat)
    requires 0 < used <= 255 && used <= slotCount
    ensures AckedPrefix(available, msgMax, slotCount, used) >= used
       <==> && ACK_MESSAGE_BYTES + ACK_BYTES * used <= available
            && ACK_MESSAGE_BYTES + ACK_BYTES * AcksThatFit(available, slotCount) < available
            && ACK_MESSAGE_BYTES + ACK_BYTES * AcksThatFit(available, slotCount) <= msgMax
  {
  }

  /** Room for the one member's ack and another, to the byte: both are put into the message, which then does not
      fit with its length byte, and the member is told nothing. */
  lemma ExactRoomAcksNobody()
    ensures var available := ACK_MESSAGE_BYTES + 2 * ACK_BYTES;
      ACK_MESSAGE_BYTES + ACK_BYTES < available && AckedPrefix(available, 255, 2, 1) == 0
  {
    AllAcksGoOutIff(ACK_MESSAGE_BYTES + 2 * ACK_BYTES, 255, 2, 1);
  }
}
