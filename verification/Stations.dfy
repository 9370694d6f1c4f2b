/** The link layer as the advertising loops use it: messages go out through the TX buffer and come in through the
    RX buffer, and what is transmitted is the frames that the flushes produce. */
module Stations {
  import opened Bytes
  import opened Messages
  import opened LinkCodes
  import opened SlotClock
  import opened Frames
  import opened Link
  import opened Sending
  import opened Rounds

  // ---- Messages on the line --------------------------------------------------------------------------

  /** The messages that decode, as a set. */
  function Decoded(ms: seq<seq<Byte>>): set<Message> { set b | b in ms && Decode(b).Some? :: Decode(b).value }

  /** The messages that decode, in order, as sent in the given phase. */
  function ReadAs(ms: seq<seq<Byte>>, phase: Phase): seq<Transmission> {
    if ms == [] then []
    else ReadAs(ms[..|ms| - 1], phase) + ReadOne(ms[|ms| - 1], phase)
  }

  function ReadOne(m: seq<Byte>, phase: Phase): seq<Transmission> {
    if Decode(m).Some? then [Transmission(phase, Decode(m).value)] else []
  }

  /** A frame on the air, and the phase in which it was sent. */
  datatype SentFrame = SentFrame(phase: Phase, bytes: seq<Byte>)

  function Tagged(phase: Phase, ms: set<Message>): set<Transmission> { set m | m in ms :: Transmission(phase, m) }

  /** All that the given frames carry. */
  function AirOf(frames: seq<SentFrame>): set<Transmission> {
    if frames == [] then {}
    else
      var last := frames[|frames| - 1];
      AirOf(frames[..|frames| - 1]) + Tagged(last.phase, Decoded(Received(last.bytes, 255)))
  }

  lemma DecodedSnoc(q: seq<seq<Byte>>, m: Message)
    requires WellFormed(m) && !EmptyAcks(m)
    ensures Decoded(q + [Encode(m)]) == Decoded(q) + {m}
  {
    DecodeEncode(m);
    DecodedMore(q, Encode(m), m);
  }

  lemma DecodedMore(q: seq<seq<Byte>>, b: seq<Byte>, m: Message)
    requires Decode(b) == Some(m)
    ensures Decoded(q + [b]) == Decoded(q) + {m}
  {
    assert forall c | c in q + [b] :: c in q || c == b;
    assert b in q + [b];
  }

  lemma AirSnoc(frames: seq<SentFrame>, phase: Phase, q: seq<seq<Byte>>, time: U32, sender: Address)
    requires FitsFrame(q, 255)
    ensures AirOf(frames + [SentFrame(phase, Frame(q, time, sender))]) == AirOf(frames) + Tagged(phase, Decoded(q))
  {
    FrameIsReceived(q, time, sender, 255);
    var more := frames + [SentFrame(phase, Frame(q, time, sender))];
    assert more[..|more| - 1] == frames;
  }

  // ---- The link layer as a value ---------------------------------------------------------------------

  datatype Setup = Setup(tm: Timing, txSize: nat, rxSize: nat, msgMax: nat, address: Address)

  /** The cached window, the messages in the TX and RX buffers, the phase in which those in the RX buffer were
      sent, and the frames transmitted so far. */
  datatype LinkView = LinkView(window: Window, queue: seq<seq<Byte>>, unread: seq<seq<Byte>>, rxPhase: Phase,
                               frames: seq<SentFrame>)

  /** When a frame is flushed, and whether the radio takes it. */
  datatype Moment = Moment(at: U32, senderTime: U32, radioOk: bool)

  /** When the radio listens, what it reports, and the phase in which that was sent. */
  datatype Reception = Reception(at: U32, radio: RadioEvent, phase: Phase)

  predicate Fits(p: Setup, q: seq<seq<Byte>>, m: Message)
    requires WellFormed(m)
  {
    Short(q) && SendResult(q, |Encode(m)|, p.txSize, p.msgMax) == Ok
  }

  function SendTo(p: Setup, v: LinkView, m: Message): LinkView
    requires WellFormed(m)
  {
    if Fits(p, v.queue, m) then v.(queue := v.queue + [Encode(m)]) else v
  }

  predicate Flushes(p: Setup, v: LinkView, moment: Moment)
    requires p.tm.Valid()
  {
    InWindow(Refresh(p.tm, v.window, moment.at), moment.at) && moment.radioOk && FitsFrame(v.queue, 255)
  }

  function FlushAt(p: Setup, v: LinkView, phase: Phase, moment: Moment): LinkView
    requires p.tm.Valid()
  {
    var ticked := v.(window := Refresh(p.tm, v.window, moment.at));
    if !Flushes(p, v, moment) then ticked
    else ticked.(queue := [], frames := v.frames + [SentFrame(phase, Frame(v.queue, moment.senderTime, p.address))])
  }

  function ReceiveAt(p: Setup, v: LinkView, r: Reception): LinkView
    requires p.tm.Valid()
  {
    var ticked := v.(window := Refresh(p.tm, v.window, r.at));
    if !InWindow(ticked.window, r.at) then ticked
    else ticked.(rxPhase := r.phase, unread := if r.radio.Heard? then Received(r.radio.bytes, p.rxSize) else [])
  }

  lemma {:induction false} ReadIsDecoded(ms: seq<seq<Byte>>, phase: Phase)
    ensures forall t | t in ReadAs(ms, phase) :: t in Tagged(phase, Decoded(ms))
  {
    if ms != [] {
      var init, last := ms[..|ms| - 1], ms[|ms| - 1];
      ReadIsDecoded(init, phase);
      assert forall b | b in init :: b in ms;
      assert Decoded(init) <= Decoded(ms);
    }
  }

  lemma {:induction false} AirIncludes(frames: seq<SentFrame>, f: SentFrame)
    requires f in frames
    ensures Tagged(f.phase, Decoded(Received(f.bytes, 255))) <= AirOf(frames)
  {
    if f != frames[|frames| - 1] { AirIncludes(frames[..|frames| - 1], f); }
  }

  /** What is read from one of a node's frames, that node has transmitted. */
  lemma FrameIsOnAir(frames: seq<SentFrame>, f: SentFrame, size: nat, t: Transmission)
    requires f in frames && size <= 255 && t in ReadAs(Received(f.bytes, size), f.phase)
    ensures t in AirOf(frames)
  {
    var ms := Received(f.bytes, size);
    ReadIsDecoded(ms, f.phase);
    assert Decoded(ms) <= Decoded(Received(f.bytes, 255));
    AirIncludes(frames, f);
  }

  /** So is whatever is read out of a RX buffer that received such a frame: what runs of the network ask of everything
      that is heard holds of the bytes. */
  lemma HeardIsOnAir(frames: seq<SentFrame>, p: Setup, v: LinkView, r: Reception, t: Transmission)
    requires p.tm.Valid() && p.rxSize <= 255 && InWindow(Refresh(p.tm, v.window, r.at), r.at)
    requires r.radio.Heard? && SentFrame(r.phase, r.radio.bytes) in frames
    requires var v' := ReceiveAt(p, v, r); t in ReadAs(v'.unread, v'.rxPhase)
    ensures t in AirOf(frames)
  {
    FrameIsOnAir(frames, SentFrame(r.phase, r.radio.bytes), p.rxSize, t);
  }

  // ---- Messages in a frame -----------------------------------------------------------------------------

  function Encodings(ms: seq<Message>): (q: seq<seq<Byte>>)
    requires forall i | 0 <= i < |ms| :: WellFormed(ms[i])
    ensures |q| == |ms| && forall i | 0 <= i < |ms| :: q[i] == Encode(ms[i])
  {
    seq(|ms|, i requires 0 <= i < |ms| => Encode(ms[i]))
  }

  function SentIn(phase: Phase, ms: seq<Message>): (ts: seq<Transmission>)
    ensures |ts| == |ms| && forall i | 0 <= i < |ms| :: ts[i] == Transmission(phase, ms[i])
  {
    seq(|ms|, i requires 0 <= i < |ms| => Transmission(phase, ms[i]))
  }

  /** Messages that receivers accept. */
  predicate Acceptable(ms: seq<Message>) { forall i | 0 <= i < |ms| :: WellFormed(ms[i]) && !EmptyAcks(ms[i]) }

  lemma EncodingsDecode(ms: seq<Message>)
    requires Acceptable(ms)
    ensures forall i | 0 <= i < |ms| :: Decode(Encodings(ms)[i]) == Some(ms[i])
  {
    forall i | 0 <= i < |ms| ensures Decode(Encodings(ms)[i]) == Some(ms[i]) { DecodeEncode(ms[i]); }
  }

  /** All messages of a frame are read, in the order in which they were queued. */
  lemma FrameIsRead(ms: seq<Message>, time: U32, sender: Address, size: nat, phase: Phase)
    requires Acceptable(ms) && FitsFrame(Encodings(ms), size)
    ensures ReadAs(Received(Frame(Encodings(ms), time, sender), size), phase) == SentIn(phase, ms)
  {
    FrameIsReceived(Encodings(ms), time, sender, size);
    EncodingsDecode(ms);
    DecodedAreRead(ms, Encodings(ms), phase);
  }

  lemma {:induction false} DecodedAreRead(ms: seq<Message>, q: seq<seq<Byte>>, phase: Phase)
    requires |q| == |ms| && forall i | 0 <= i < |ms| :: Decode(q[i]) == Some(ms[i])
    ensures ReadAs(q, phase) == SentIn(phase, ms)
  {
    if ms != [] {
      var k := |ms| - 1;
      DecodedAreRead(ms[..k], q[..k], phase);
      assert ReadOne(q[k], phase) == [Transmission(phase, ms[k])];
      SentInSnoc(phase, ms, k);
    }
  }

  lemma SentInSnoc(phase: Phase, ms: seq<Message>, k: nat)
    requires |ms| == k + 1
    ensures SentIn(phase, ms) == SentIn(phase, ms[..k]) + [Transmission(phase, ms[k])]
  {
  }

  // ---- The object ------------------------------------------------------------------------------------

  class Station {
    const link: LinkLayer
    var frames: seq<SentFrame>
    ghost var rxPhase: Phase

    constructor (link: LinkLayer)
      ensures this.link == link && frames == []
    {
      this.link := link;
      frames := [];
    }

    ghost predicate Valid()
      reads link`queue, link`txBytesQueued, link`txMsgCount, link`rxCursor, link`rxMsgNum, link.txBuf, link.rxBuf,
        link.clock
    {
      link.Valid() && link.RxValid() && link.ReadableLength()
    }

    function Params(): Setup {
      Setup(link.clock.mac.Schedule(), link.txBuf.Length, link.rxBuf.Length, link.msgMaxBytes, link.address)
    }

    ghost function View(): LinkView
      reads this, link`queue, link`rxCursor, link`rxMsgNum, link.rxBuf, link.clock
      requires link.RxValid()
    {
      LinkView(link.clock.View(), link.queue, link.Unread(), rxPhase, frames)
    }

    method Send(m: Message) returns (fits: bool)
      requires Valid() && WellFormed(m)
      modifies link`queue, link`txBytesQueued, link`txMsgCount, link.txBuf
      ensures Valid()
      ensures View() == SendTo(Params(), old(View()), m) && fits == Fits(Params(), old(link.queue), m)
    {
      var rc := SendMessage(link, m);
      fits := rc == Queued;
    }

    method Flush(phase: Phase, moment: Moment) returns (sent: bool)
      requires Valid() && InRange(link.clock.mac, moment.at)
      modifies this`frames, link`queue, link`txBytesQueued, link`txMsgCount, link.txBuf, link.clock
      ensures Valid()
      ensures View() == FlushAt(Params(), old(View()), phase, moment) && sent == Flushes(Params(), old(View()), moment)
    {
      var rc, air := link.Flush(moment.at, moment.senderTime, moment.radioOk);
      sent := rc == Ok;
      if sent { frames := frames + [SentFrame(phase, air[0])]; }
    }

    method Receive(r: Reception) returns (window: bool)
      requires Valid() && InRange(link.clock.mac, r.at) && Readable(r.radio, link.rxBuf.Length)
      modifies this`rxPhase, link`rxCursor, link`rxMsgNum, link.rxBuf, link.clock
      ensures Valid()
      ensures View() == ReceiveAt(Params(), old(View()), r) && window == InWindow(View().window, r.at)
    {
      var rc := link.Listen(r.at, r.radio);
      window := rc != NotInWindow;
      if window { rxPhase := r.phase; }
    }

    /** The next message of the RX buffer; None when there is one that does not decode. */
    method Next() returns (more: bool, m: Option<Message>)
      requires Valid()
      modifies link`rxCursor, link`rxMsgNum
      ensures Valid()
      ensures more <==> old(View()).unread != []
      ensures !more ==> m == None && View() == old(View())
      ensures more ==> m == Decode(old(View()).unread[0]) && View() == old(View()).(unread := old(View()).unread[1..])
    {
      var rc, start, sz := link.GetMsg();
      more, m := rc == Ok, None;
      if more { m := Decode(link.rxBuf[start..start + sz]); }
    }
  }
}
