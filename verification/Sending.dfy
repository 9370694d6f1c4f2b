/** `send` of the multihop layer: a message, possibly followed by bytes of a buffer (multihop.cpp). */
module Sending {
  import opened Bytes
  import opened LinkCodes
  import opened Messages
  import opened Frames
  import opened Link

  datatype MultihopRC = Queued | NoData | LinkFull | LinkError

  function Code(rc: LinkRC): MultihopRC {
    match rc case Ok => Queued case BufSize => LinkFull case _ => LinkError
  }

  lemma CodesMean(q: seq<seq<Byte>>, n: nat, size: nat, msgMax: nat)
    requires Short(q)
    ensures var rc := Code(SendResult(q, n, size, msgMax));
      && (rc == Queued <==> 12 + |Pack(q)| + 1 + n <= size && n <= msgMax)
      && (rc == LinkFull <==> 12 + |Pack(q)| + 1 + n > size)
      && rc in {Queued, LinkFull, LinkError}
  {
    AcceptedIff(q, n, size, msgMax);
  }

  /** One vector for the message, and a second one behind it when bytes follow. */
  method Vectors(message: seq<Byte>, buf: array<Byte>, start: nat, sz: nat) returns (v: MessageVec)
    requires start + sz <= buf.Length
    ensures v.Valid() && v.Contents() == message + buf[start..start + sz]
    ensures forall b | b in v.buffers :: b == buf || fresh(b)
  {
    var header := new Byte[|message|](_ => 0);
    LinkLayer.Store(header, message);
    assert header[0..header.Length] == message;
    if sz == 0 {
      v := new MessageVec(header, 0, header.Length, null);
    } else {
      var p2 := new MessageVec(buf, start, sz, null);
      v := new MessageVec(header, 0, header.Length, p2);
      assert p2.Contents() == buf[start..start + sz];
    }
  }

  /** Either everything is queued as one message or nothing is. */
  method SendBytes(link: LinkLayer, message: seq<Byte>, buf: array<Byte>, start: nat, sz: nat) returns (rc: MultihopRC)
    requires link.Valid() && buf != link.txBuf && start + sz <= buf.Length
    modifies link`queue, link`txBytesQueued, link`txMsgCount, link.txBuf
    ensures link.Valid()
    ensures rc == Code(SendResult(old(link.queue), |message| + sz, link.txBuf.Length, link.msgMaxBytes))
    ensures link.queue == if rc == Queued then old(link.queue) + [message + old(buf[start..start + sz])]
      else old(link.queue)
  {
    var v := Vectors(message, buf, start, sz);
    var r := link.SendMsg(v);
    rc := Code(r);
  }

  /** A message with nothing behind it. */
  method SendMessage(link: LinkLayer, m: Message) returns (rc: MultihopRC)
    requires link.Valid() && WellFormed(m)
    modifies link`queue, link`txBytesQueued, link`txMsgCount, link.txBuf
    ensures link.Valid()
    ensures rc == Code(SendResult(old(link.queue), |Encode(m)|, link.txBuf.Length, link.msgMaxBytes))
    ensures link.queue == if rc == Queued then old(link.queue) + [Encode(m)] else old(link.queue)
  {
    var nothing := new Byte[0];
    var bytes := Encode(m);
    assert bytes + nothing[0..0] == bytes;
    rc := SendBytes(link, bytes, nothing, 0, 0);
  }
}
