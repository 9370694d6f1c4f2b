/** The four actions of a superframe behind advertising, each guarded by the slot (multihop.cpp). */
module Actions {
  import opened Bytes
  import opened LinkCodes
  import opened Messages
  import opened SlotClock
  import opened Frames
  import opened Link
  import opened Sending
  import opened State
  import opened Cluster
  import opened Timetable
  import opened Acks

  datatype ActionRC = Done | WrongSlot | NoClusterhead | NothingHeard | Failed

  // ---- Forwarding ------------------------------------------------------------------------------------

  predicate IsDatagram(bytes: seq<Byte>) { Decode(bytes).Some? && Decode(bytes).value.body.Datagram? }

  /** The queue with `m` behind it, if `sendmsg` takes it. */
  function Appended(q: seq<seq<Byte>>, m: seq<Byte>, size: nat, msgMax: nat): seq<seq<Byte>> {
    if Short(q) && SendResult(q, |m|, size, msgMax) == Ok then q + [m] else q
  }

  /** A received datagram is queued again as it is. */
  function QueueNext(q: seq<seq<Byte>>, size: nat, msgMax: nat, m: seq<Byte>): seq<seq<Byte>> {
    if IsDatagram(m) then Appended(q, m, size, msgMax) else q
  }

  /** ... and its sequence number is the ack for its sender. */
  function AckNext(before: U32, m: seq<Byte>): U32 { if IsDatagram(m) then Decode(m).value.sequence else before }

  /** The TX queue of a clusterhead that has received `ms`. */
  function Forwarded(q: seq<seq<Byte>>, size: nat, msgMax: nat, ms: seq<seq<Byte>>): seq<seq<Byte>> {
    if ms == [] then q else QueueNext(Forwarded(q, size, msgMax, ms[..|ms| - 1]), size, msgMax, ms[|ms| - 1])
  }

  /** The ack that the sender of `ms` will get. */
  function LastSequence(before: U32, ms: seq<seq<Byte>>): U32 {
    if ms == [] then before else AckNext(LastSequence(before, ms[..|ms| - 1]), ms[|ms| - 1])
  }

  function Datagrams(ms: seq<seq<Byte>>): seq<seq<Byte>> {
    if ms == [] then []
    else Datagrams(ms[..|ms| - 1]) + if IsDatagram(ms[|ms| - 1]) then [ms[|ms| - 1]] else []
  }

  /** Where there is room for all, everything is forwarded, in order, byte for byte. */
  lemma {:induction false} AllForwarded(q: seq<seq<Byte>>, size: nat, msgMax: nat, ms: seq<seq<Byte>>)
    requires Short(q) && Short(Datagrams(ms)) && size <= 255
    requires |Pack(Datagrams(ms))| <= Available(q, size)
    requires forall m | m in Datagrams(ms) :: |m| <= msgMax
    ensures Forwarded(q, size, msgMax, ms) == q + Datagrams(ms)
    ensures |Pack(Datagrams(ms))| + Available(q + Datagrams(ms), size) == Available(q, size)
  {
    if ms == [] {
      assert q + [] == q;
    } else {
      var init, m := ms[..|ms| - 1], ms[|ms| - 1];
      var ds := Datagrams(init);
      if IsDatagram(m) {
        var last := Datagrams(ms)[|ds|];
        assert Datagrams(ms) == ds + [m] && last == m;
        assert Short(ds) by { assert forall i | 0 <= i < |ds| :: ds[i] == Datagrams(ms)[i]; }
        PackSnoc(ds, m);
        AllForwarded(q, size, msgMax, init);
        OneMore(q, ds, m, size);
      } else {
        assert Datagrams(ms) == ds;
        AllForwarded(q, size, msgMax, init);
      }
    }
  }

  lemma OneMore(q: seq<seq<Byte>>, ds: seq<seq<Byte>>, m: seq<Byte>, size: nat)
    requires Short(q + ds) && |m| + 1 <= Available(q + ds, size) && |m| <= 255
    ensures q + (ds + [m]) == (q + ds) + [m] && Short(q + (ds + [m]))
    ensures Available(q + (ds + [m]), size) == Available(q + ds, size) - |m| - 1
  {
    Regroup(q, ds, [m]);
    QueuedTakesRoom(q + ds, m, size);
  }

  /** Bytes that a queue takes in the TX buffer, its frame header included. */
  function Occupied(q: seq<seq<Byte>>): nat
    requires Short(q)
  {
    FRAME_HEADER_BYTES + |Pack(q)|
  }

  /** Nothing but the given datagrams is ever added; none is missing exactly when the lengths say so. */
  lemma {:induction false} ForwardedBounds(q: seq<seq<Byte>>, size: nat, msgMax: nat, ms: seq<seq<Byte>>)
    requires Short(q) && size <= 255
    ensures var q', ds := Forwarded(q, size, msgMax, ms), Datagrams(ms);
      && Short(q') && |q| <= |q'| <= |q| + |ds|
      && (|q'| > |q| ==> Occupied(q') <= size)
      && (|q'| == |q| + |ds| ==> q' == q + ds && forall m | m in ds :: |m| <= msgMax)
  {
    if ms == [] {
      assert q + [] == q;
    } else {
      var init, m := ms[..|ms| - 1], ms[|ms| - 1];
      ForwardedBounds(q, size, msgMax, init);
      ForwardedMore(q, Forwarded(q, size, msgMax, init), Datagrams(init), size, msgMax, m);
    }
  }

  lemma ForwardedMore(q: seq<seq<Byte>>, q1: seq<seq<Byte>>, ds: seq<seq<Byte>>, size: nat, msgMax: nat, m: seq<Byte>)
    requires Short(q) && size <= 255 && Short(q1) && |q| <= |q1| <= |q| + |ds|
    requires |q1| > |q| ==> Occupied(q1) <= size
    requires |q1| == |q| + |ds| ==> q1 == q + ds && forall d | d in ds :: |d| <= msgMax
    ensures var q', ds' := QueueNext(q1, size, msgMax, m), ds + if IsDatagram(m) then [m] else [];
      && Short(q') && |q| <= |q'| <= |q| + |ds'|
      && (|q'| > |q| ==> Occupied(q') <= size)
      && (|q'| == |q| + |ds'| ==> q' == q + ds' && forall d | d in ds' :: |d| <= msgMax)
  {
    if IsDatagram(m) {
      if SendResult(q1, |m|, size, msgMax) == Ok {
        QueuedTakesRoom(q1, m, size);
        PackSnoc(q1, m);
        Regroup(q, ds, [m]);
      }
    } else {
      assert ds + [] == ds;
    }
  }

  lemma {:induction false} PackJoins(a: seq<seq<Byte>>, b: seq<seq<Byte>>)
    requires Short(a) && Short(b)
    ensures Short(a + b) && |Pack(a + b)| == |Pack(a)| + |Pack(b)|
    decreases |b|
  {
    if b == [] {
      assert a + b == a;
    } else {
      PackSnoc(a, b[0]);
      PackJoins(a + [b[0]], b[1..]);
      assert a + b == (a + [b[0]]) + b[1..];
    }
  }

  /** Of a received frame, all datagrams are forwarded if and only if there is room for all of them and none is
      longer than messages may be; otherwise some datagram is acknowledged and lost. */
  lemma AllForwardedIff(q: seq<seq<Byte>>, size: nat, msgMax: nat, ms: seq<seq<Byte>>)
    requires Short(q) && Short(Datagrams(ms)) && size <= 255
    ensures Forwarded(q, size, msgMax, ms) == q + Datagrams(ms)
       <==> |Pack(Datagrams(ms))| <= Available(q, size) && forall m | m in Datagrams(ms) :: |m| <= msgMax
    ensures Forwarded(q, size, msgMax, ms) != q + Datagrams(ms) ==>
      |Forwarded(q, size, msgMax, ms)| < |q| + |Datagrams(ms)|
  {
    var ds := Datagrams(ms);
    ForwardedBounds(q, size, msgMax, ms);
    PackJoins(q, ds);
    if |Pack(ds)| <= Available(q, size) && forall m | m in ds :: |m| <= msgMax { AllForwarded(q, size, msgMax, ms); }
  }

  /** A datagram of one byte, from node 1. */
  const LOST_DATAGRAM := Message(9, 1, Datagram(1, 0, [7]))

  /** A queue that fills a TX buffer of 255 bytes: one message of 242 bytes. */
  const FULL_QUEUE: seq<seq<Byte>> := [seq(242, _ => 0)]

  /** With a full TX buffer the datagram is acknowledged, and it is lost. */
  lemma AcknowledgedButLost(before: U32)
    ensures FitsFrame(FULL_QUEUE, 255) && WellFormed(LOST_DATAGRAM)
    ensures LastSequence(before, [Encode(LOST_DATAGRAM)]) == 9
    ensures Forwarded(FULL_QUEUE, 255, 255, [Encode(LOST_DATAGRAM)]) == FULL_QUEUE
    ensures Datagrams([Encode(LOST_DATAGRAM)]) == [Encode(LOST_DATAGRAM)]
  {
    var ms := [Encode(LOST_DATAGRAM)];
    DecodeEncode(LOST_DATAGRAM);
    assert ms[..0] == [];
    PackSnoc([], FULL_QUEUE[0]);
    assert [] + [FULL_QUEUE[0]] == FULL_QUEUE;
  }

  // ---- The actions -----------------------------------------------------------------------------------

  /** `active_slot` of the cached clock when it is asked at time `now`. */
  ghost function ActiveSlot(clock: Clock, now: U32): int
    reads clock
    requires clock.Valid()
  {
    SlotIn(clock.mac.Schedule(), Refresh(clock.mac.Schedule(), clock.View(), now), now)
  }

  /** The node's tables are not the link's buffers. */
  ghost predicate Apart(link: LinkLayer, st: MultihopState) {
    && st.Valid() && {st.acks as object, st.slotAssignments, st.counts} !! {link.txBuf as object, link.rxBuf}
  }

  /** Flushes on the given code. */
  method FlushOn(link: LinkLayer, code: Byte, at: U32, senderTime: U32, radioOk: bool)
    returns (rc: ActionRC, air: seq<seq<Byte>>)
    requires link.Valid() && InRange(link.clock.mac, at)
    modifies link`queue, link`txBytesQueued, link`txMsgCount, link`code, link.txBuf, link.clock
    ensures link.Valid() && link.code == HashCdmaCode(code)
    ensures rc == if InWindow(link.clock.View(), at) && radioOk then Done else Failed
    ensures link.clock.View() == Refresh(link.clock.mac.Schedule(), old(link.clock.View()), at)
    ensures air == if rc == Done then [Frame(old(link.queue), senderTime, link.address)] else []
    ensures link.queue == if rc == Done then [] else old(link.queue)
  {
    link.SetCdmaCode(code);
    var flushed;
    flushed, air := link.Flush(at, senderTime, radioOk);
    rc := if flushed == Ok then Done else Failed;
  }

  /** The cached window when the clock was asked twice. */
  function Twice(mac: MacParams, w: Window, now: U32, at: U32): Window
    requires mac.Schedule().Valid()
  {
    Refresh(mac.Schedule(), Refresh(mac.Schedule(), w, now), at)
  }

  /** A member sends what is queued, in its own slot and on that slot's code. */
  method DoFollowerSend(link: LinkLayer, st: MultihopState, now: U32, at: U32, senderTime: U32, radioOk: bool)
    returns (rc: ActionRC, air: seq<seq<Byte>>)
    requires link.Valid() && st.Valid() && InRange(link.clock.mac, now) && InRange(link.clock.mac, at)
    modifies link`queue, link`txBytesQueued, link`txMsgCount, link`code, link.txBuf, link.clock
    ensures link.Valid() && rc in {WrongSlot, Done, Failed}
    ensures rc == WrongSlot <==> old(ActiveSlot(link.clock, now) != SendSlot(st.View()) as int)
    ensures rc == WrongSlot ==> link.code == old(link.code)
    ensures rc != WrongSlot ==>
      && link.clock.View() == Twice(link.clock.mac, old(link.clock.View()), now, at)
      && rc == if InWindow(link.clock.View(), at) && radioOk then Done else Failed
    ensures old(SendsOn(st.View(), ActiveSlot(link.clock, now))) == if rc == WrongSlot then None else Some(link.code)
    ensures air == if rc == Done then [Frame(old(link.queue), senderTime, link.address)] else []
    ensures link.queue == if rc == Done then [] else old(link.queue)
  {
    var slot := link.clock.CurrentSlot(now);
    if slot != Wrap8(st.upstreamStartSlot as int + st.upstreamRelativeSlot as int) as int { return WrongSlot, []; }
    rc, air := FlushOn(link, st.upstreamRelativeSlot, at, senderTime, radioOk);
  }

  /** What a clusterhead says at the end of its window. */
  function Closing(s: NodeState, draw: Byte, now: U32): (m: Message)
    ensures WellFormed(m) && |Encode(m)| == HEADER_BYTES + 10
  {
    Message(now, s.address, CloseCluster(if Volunteers(s, draw) then s.address else UNKNOWN_ADDR, s.rings.neighbors))
  }

  /** All that a clusterhead has queued when it flushes: what was queued, the acks, and the closing message. */
  function Management(q: seq<seq<Byte>>, size: nat, msgMax: nat, s: NodeState, draw: Byte, now: U32,
                      src: Address): seq<seq<Byte>>
    requires Short(q)
  {
    Appended(Emitted(q, size, msgMax, s.acks, s.slotsAssigned as nat, 0, now, src), Encode(Closing(s, draw, now)), size,
             msgMax)
  }

  method QueueClosing(link: LinkLayer, st: MultihopState, draw: Byte, now: U32)
    requires link.Valid() && Apart(link, st)
    modifies link`queue, link`txBytesQueued, link`txMsgCount, link.txBuf
    ensures link.Valid()
    ensures link.queue == Appended(old(link.queue), Encode(Closing(old(st.View()), draw, now)), link.txBuf.Length,
                                   link.msgMaxBytes)
  {
    var renominate := AnnounceClusterhead(st, draw);
    var nomination := if renominate then st.address else UNKNOWN_ADDR;
    var m := Message(now, st.address, CloseCluster(nomination, RingList(st.ringStart, st.counts[..])));
    assert m == Closing(st.View(), draw, now);
    var _ := SendMessage(link, m);
  }

  /** All of `q`, which fits, is on the air in one frame when `rc` says so, and is still queued otherwise. */
  ghost predicate GoesOut(q: seq<seq<Byte>>, size: nat, rc: ActionRC, senderTime: U32, src: Address,
                          air: seq<seq<Byte>>, queue: seq<seq<Byte>>)
  {
    && FitsFrame(q, size)
    && air == (if rc == Done then [Frame(q, senderTime, src)] else [])
    && queue == (if rc == Done then [] else q)
  }

  /** Acks and the closing message are queued behind what was queued, and all is flushed on code 0. */
  method EmitManagement(link: LinkLayer, st: MultihopState, draw: Byte, at: U32, senderTime: U32, radioOk: bool)
    returns (rc: ActionRC, air: seq<seq<Byte>>)
    requires link.Valid() && Apart(link, st) && InRange(link.clock.mac, at)
    modifies link`queue, link`txBytesQueued, link`txMsgCount, link`code, link.txBuf, link.clock
    ensures link.Valid() && link.code == HashCdmaCode(0)
    ensures link.clock.View() == Refresh(link.clock.mac.Schedule(), old(link.clock.View()), at)
    ensures rc == if InWindow(link.clock.View(), at) && radioOk then Done else Failed
    ensures GoesOut(Management(old(link.queue), link.txBuf.Length, link.msgMaxBytes, old(st.View()), draw, at,
                               link.address), link.txBuf.Length, rc, senderTime, link.address, air, link.queue)
  {
    link.SetCdmaCode(0);
    SendAllAcks(link, st.acks, st.slotsAssigned as nat, at);
    QueueClosing(link, st, draw, at);
    rc, air := FlushOn(link, 0, at, senderTime, radioOk);
  }

  /** A clusterhead speaks in the last slot of its window only. */
  method DoClusterheadSend(link: LinkLayer, st: MultihopState, now: U32, draw: Byte, at: U32, senderTime: U32,
                           radioOk: bool)
    returns (rc: ActionRC, air: seq<seq<Byte>>)
    requires link.Valid() && Apart(link, st) && InRange(link.clock.mac, now) && InRange(link.clock.mac, at)
    modifies link`queue, link`txBytesQueued, link`txMsgCount, link`code, link.txBuf, link.clock
    ensures link.Valid() && rc in {WrongSlot, Done, Failed}
    ensures Slotted(link.clock.mac)
    ensures rc == WrongSlot <==>
      old(ActiveSlot(link.clock, now) != AckSlot(link.clock.mac, st.downstreamStartSlot) as int)
    ensures rc == WrongSlot ==> link.code == old(link.code) && air == [] && link.queue == old(link.queue)
    ensures rc != WrongSlot ==>
      && link.clock.View() == Twice(link.clock.mac, old(link.clock.View()), now, at)
      && rc == if InWindow(link.clock.View(), at) && radioOk then Done else Failed
    ensures rc != WrongSlot ==>
      && link.code == HashCdmaCode(0)
      && GoesOut(Management(old(link.queue), link.txBuf.Length, link.msgMaxBytes, old(st.View()), draw, at,
                            link.address), link.txBuf.Length, rc, senderTime, link.address, air, link.queue)
  {
    var window := WindowSize(link.clock.mac);
    var chSlot := Wrap8(st.downstreamStartSlot as int + window as int - 1);
    var slot := link.clock.CurrentSlot(now);
    if slot != chSlot as int { return WrongSlot, []; }
    rc, air := EmitManagement(link, st, draw, at, senderTime, radioOk);
  }

  /** One message from the member with slot `relative`: a datagram is acknowledged and queued again. */
  method ForwardOne(link: LinkLayer, st: MultihopState, relative: nat, start: nat, sz: nat, ghost m: seq<Byte>)
    requires link.Valid() && Apart(link, st) && relative < st.acks.Length && start + sz <= link.rxBuf.Length
    requires m == link.rxBuf[start..start + sz]
    modifies link`queue, link`txBytesQueued, link`txMsgCount, link.txBuf, st.acks
    ensures link.Valid()
    ensures var m := old(link.rxBuf[start..start + sz]);
      && link.queue == QueueNext(old(link.queue), link.txBuf.Length, link.msgMaxBytes, m)
      && st.acks[..] == old(st.acks[..])[relative := AckNext(old(st.acks[relative]), m)]
  {
    var bytes := link.rxBuf[start..start + sz];
    var decoded := Decode(bytes);
    if decoded.None? || !decoded.value.body.Datagram? {
      assert st.acks[..] == st.acks[..][relative := st.acks[relative]];
      return;
    }
    st.acks[relative] := decoded.value.sequence;
    var v := new MessageVec(link.rxBuf, start, sz, null);
    assert v.Contents() == bytes;
    var _ := link.SendMsg(v);
  }

  /** A receive loop behind the first `i` of the messages `all`: what is unread, queued and acknowledged. */
  datatype Relay = Relay(unread: seq<seq<Byte>>, queue: seq<seq<Byte>>, acks: seq<U32>)

  predicate Behind(r: Relay, r0: Relay, i: nat, size: nat, msgMax: nat, relative: nat)
    requires relative < |r0.acks|
  {
    && i <= |r0.unread| && r.unread == r0.unread[i..]
    && r.queue == Forwarded(r0.queue, size, msgMax, r0.unread[..i])
    && r.acks == r0.acks[relative := LastSequence(r0.acks[relative], r0.unread[..i])]
  }

  lemma BehindNext(r: Relay, r0: Relay, i: nat, size: nat, msgMax: nat, relative: nat, r': Relay)
    requires relative < |r0.acks| && Behind(r, r0, i, size, msgMax, relative) && r.unread != []
    requires r'.unread == r.unread[1..] && r'.queue == QueueNext(r.queue, size, msgMax, r.unread[0])
    requires r'.acks == r.acks[relative := AckNext(r.acks[relative], r.unread[0])]
    ensures Behind(r', r0, i + 1, size, msgMax, relative)
  {
    assert r0.unread[..i + 1][..i] == r0.unread[..i];
    assert r.unread[0] == r0.unread[i];
  }

  lemma BehindStart(r0: Relay, size: nat, msgMax: nat, relative: nat)
    requires relative < |r0.acks|
    ensures Behind(r0, r0, 0, size, msgMax, relative)
  {
    assert r0.unread[0..] == r0.unread && r0.acks[relative := r0.acks[relative]] == r0.acks;
  }

  lemma BehindAll(r: Relay, r0: Relay, i: nat, size: nat, msgMax: nat, relative: nat)
    requires relative < |r0.acks| && Behind(r, r0, i, size, msgMax, relative) && r.unread == []
    ensures r.queue == Forwarded(r0.queue, size, msgMax, r0.unread)
    ensures r.acks == r0.acks[relative := LastSequence(r0.acks[relative], r0.unread)]
  {
    assert r0.unread[..i] == r0.unread;
  }

  /** One turn of the loop over the messages of a received frame. */
  method ForwardNext(link: LinkLayer, st: MultihopState, relative: nat) returns (more: bool, ghost m: seq<Byte>)
    requires Receptive(link) && Apart(link, st) && relative < st.acks.Length
    modifies link`queue, link`txBytesQueued, link`txMsgCount, link`rxCursor, link`rxMsgNum, link.txBuf, st.acks
    ensures Receptive(link)
    ensures more <==> old(link.Unread()) != []
    ensures more ==> m == old(link.Unread())[0] && link.Unread() == old(link.Unread())[1..]
    ensures !more ==>
      link.Unread() == old(link.Unread()) && link.queue == old(link.queue) && st.acks[..] == old(st.acks[..])
    ensures more ==>
      && link.queue == QueueNext(old(link.queue), link.txBuf.Length, link.msgMaxBytes, m)
      && st.acks[..] == old(st.acks[..])[relative := AckNext(old(st.acks[relative]), m)]
  {
    var rc, start, sz := link.GetMsg();
    more, m := rc == Ok, [];
    if more {
      m := link.rxBuf[start..start + sz];
      ForwardOne(link, st, relative, start, sz, m);
    }
  }

  method ForwardAll(link: LinkLayer, st: MultihopState, relative: nat)
    requires Receptive(link) && Apart(link, st) && relative < st.acks.Length
    modifies link`queue, link`txBytesQueued, link`txMsgCount, link`rxCursor, link`rxMsgNum, link.txBuf, st.acks
    ensures Receptive(link)
    ensures link.queue == Forwarded(old(link.queue), link.txBuf.Length, link.msgMaxBytes, old(link.Unread()))
    ensures st.acks[..] == old(st.acks[..])[relative := LastSequence(old(st.acks[relative]), old(link.Unread()))]
  {
    ghost var r0, i := Relay(link.Unread(), link.queue, st.acks[..]), 0;
    BehindStart(r0, link.txBuf.Length, link.msgMaxBytes, relative);
    ghost var r := r0;
    var more := true;
    while more
      invariant Receptive(link)
      invariant r == Relay(link.Unread(), link.queue, st.acks[..]) && (more || r.unread == [])
      invariant Behind(r, r0, i, link.txBuf.Length, link.msgMaxBytes, relative)
      decreases |r.unread|, more
    {
      ghost var before := r;
      ghost var m;
      more, m := ForwardNext(link, st, relative);
      r := Relay(link.Unread(), link.queue, st.acks[..]);
      if more {
        BehindNext(before, r0, i, link.txBuf.Length, link.msgMaxBytes, relative, r);
        i := i + 1;
      }
    }
    BehindAll(r, r0, i, link.txBuf.Length, link.msgMaxBytes, relative);
  }

  /** What listening for one frame reports. */
  function Listened(w: Window, at: U32, radio: RadioEvent, size: nat): ActionRC {
    if !InWindow(w, at) then Failed
    else match radio
         case RadioTimedOut => NothingHeard
         case RadioFailed => Failed
         case Heard(bytes) => if Admission(bytes, size) == Ok then Done else Failed
  }

  /** Listens for one frame on the given code. */
  method ListenOn(link: LinkLayer, code: Byte, at: U32, radio: RadioEvent) returns (rc: ActionRC)
    requires CanListen(link, at, radio)
    modifies link`rxCursor, link`rxMsgNum, link`code, link.rxBuf, link.clock
    ensures Receptive(link) && link.code == HashCdmaCode(code)
    ensures link.clock.View() == Refresh(link.clock.mac.Schedule(), old(link.clock.View()), at)
    ensures rc == Listened(link.clock.View(), at, radio, link.rxBuf.Length)
    ensures rc == Done ==> link.Unread() == Received(radio.bytes, link.rxBuf.Length)
  {
    link.SetCdmaCode(code);
    var received := link.Listen(at, radio);
    rc := if received == Ok then Done else if received == TimedOut then NothingHeard else Failed;
  }

  ghost predicate CanListen(link: LinkLayer, at: U32, radio: RadioEvent)
    reads link`queue, link`txBytesQueued, link`txMsgCount, link`rxCursor, link`rxMsgNum, link.txBuf, link.rxBuf,
      link.clock
  {
    Receptive(link) && InRange(link.clock.mac, at) && Readable(radio, link.rxBuf.Length)
  }

  /** What every receiving method needs and keeps. */
  ghost predicate Receptive(link: LinkLayer)
    reads link`queue, link`txBytesQueued, link`txMsgCount, link`rxCursor, link`rxMsgNum, link.txBuf, link.rxBuf,
      link.clock
  {
    link.Valid() && link.RxValid() && link.ReadableLength()
  }

  /** Whom a clusterhead listens to, asked of its clock. */
  ghost function ListensTo(clock: Clock, st: MultihopState, now: U32): Option<Byte>
    reads clock, st, st.counts, st.slotAssignments, st.acks
    requires clock.Valid() && st.Valid() && Slotted(clock.mac)
  {
    Listens(clock.mac, st.View(), ActiveSlot(clock, now))
  }

  /** The guard of `do_clusterhead_recv`. */
  method ListeningSlot(link: LinkLayer, st: MultihopState, now: U32) returns (member: Option<Byte>)
    requires link.Valid() && st.Valid() && InRange(link.clock.mac, now)
    modifies link.clock
    ensures link.Valid() && Slotted(link.clock.mac)
    ensures link.clock.View() == Refresh(link.clock.mac.Schedule(), old(link.clock.View()), now)
    ensures member == old(Listens(link.clock.mac, st.View(), ActiveSlot(link.clock, now)))
    ensures member.Some? ==> member.value < st.slotsAssigned
  {
    var slot := link.clock.CurrentSlot(now);
    var window := WindowSize(link.clock.mac);
    var lastSlot := Wrap8(st.downstreamStartSlot as int + window as int - 1);
    if slot <= st.downstreamStartSlot as int || slot >= lastSlot as int { return None; }
    var relative := Wrap8(slot - st.downstreamStartSlot as int);
    member := if relative >= st.slotsAssigned then None else Some(relative);
  }

  /** The part of `do_clusterhead_recv` behind its guard. */
  method ListenToMember(link: LinkLayer, st: MultihopState, relative: Byte, at: U32, radio: RadioEvent)
    returns (rc: ActionRC)
    requires CanListen(link, at, radio) && Apart(link, st) && relative as nat < st.acks.Length
    modifies link`queue, link`txBytesQueued, link`txMsgCount, link`rxCursor, link`rxMsgNum, link`code,
             link.txBuf, link.rxBuf, link.clock, st.acks
    ensures Receptive(link) && link.code == HashCdmaCode(relative)
    ensures link.clock.View() == Refresh(link.clock.mac.Schedule(), old(link.clock.View()), at)
    ensures rc == Listened(link.clock.View(), at, radio, link.rxBuf.Length)
    ensures rc != Done ==> link.queue == old(link.queue) && st.acks[..] == old(st.acks[..])
    ensures rc == Done ==> radio.Heard?
    ensures rc == Done ==>
      var heard := Received(radio.bytes, link.rxBuf.Length);
      && link.queue == Forwarded(old(link.queue), link.txBuf.Length, link.msgMaxBytes, heard)
      && st.acks[..] == old(st.acks[..])[relative := LastSequence(old(st.acks[..])[relative], heard)]
  {
    rc := ListenOn(link, relative, at, radio);
    if rc == Done { ForwardAll(link, st, relative as nat); }
  }

  /** A clusterhead listens to one member at a time; it acknowledges and queues again what it hears. */
  method DoClusterheadRecv(link: LinkLayer, st: MultihopState, now: U32, at: U32, radio: RadioEvent)
    returns (rc: ActionRC)
    requires CanListen(link, at, radio) && Apart(link, st) && InRange(link.clock.mac, now)
    requires st.slotsAssigned as nat <= st.acks.Length
    modifies link`queue, link`txBytesQueued, link`txMsgCount, link`rxCursor, link`rxMsgNum, link`code,
             link.txBuf, link.rxBuf, link.clock, st.acks
    ensures Receptive(link)
    ensures rc == WrongSlot <==> old(ListensTo(link.clock, st, now)).None?
    ensures rc == WrongSlot ==> link.code == old(link.code)
    ensures old(ListensOn(link.clock.mac, st.View(), ActiveSlot(link.clock, now)))
         == if rc == WrongSlot then None else Some(link.code)
    ensures rc != WrongSlot ==>
      && link.clock.View() == Twice(link.clock.mac, old(link.clock.View()), now, at)
      && rc == Listened(link.clock.View(), at, radio, link.rxBuf.Length)
    ensures rc != Done ==> link.queue == old(link.queue) && st.acks[..] == old(st.acks[..])
    ensures rc == Done ==> radio.Heard? && old(ListensTo(link.clock, st, now)).Some?
    ensures rc == Done ==>
      var relative, heard := old(ListensTo(link.clock, st, now)).value as nat, Received(radio.bytes, link.rxBuf.Length);
      && relative < st.acks.Length
      && link.queue == Forwarded(old(link.queue), link.txBuf.Length, link.msgMaxBytes, heard)
      && st.acks[..] == old(st.acks[..])[relative := LastSequence(old(st.acks[..])[relative], heard)]
  {
    var member := ListeningSlot(link, st, now);
    if member.None? { return WrongSlot; }
    rc := ListenToMember(link, st, member.value, at, radio);
  }

  // ---- A member waits for its clusterhead ------------------------------------------------------------

  /** One message heard while waiting. */
  method HearOne(st: MultihopState, bytes: seq<Byte>) returns (done: bool)
    requires st.Valid() && st.acks.Length > 0
    modifies st`clusterheadAddr, st`clusterheadRing, st.acks
    ensures (st.View(), done) == Hear(old(st.View()), bytes)
  {
    var decoded := Decode(bytes);
    if decoded.None? { return false; }
    match decoded.value.body
    case SendAcks(start, end, acks) =>
      if start <= st.upstreamRelativeSlot < end && (st.upstreamRelativeSlot - start) as nat < |acks| {
        st.acks[0] := acks[st.upstreamRelativeSlot - start];
      }
      done := true;
    case CloseCluster(nomination, _) =>
      if nomination != UNKNOWN_ADDR {
        st.clusterheadAddr := nomination;
      } else {
        st.clusterheadAddr, st.clusterheadRing := UNKNOWN_ADDR, UNKNOWN_RING;
      }
      done := true;
    case _ => done := false;
  }

  lemma HearNextOf(s: NodeState, ms: seq<seq<Byte>>, i: nat)
    requires |s.acks| > 0 && i < |ms|
    ensures var before := HearAll(s, ms[..i]);
      HearAll(s, ms[..i + 1]) == (Hear(before.0, ms[i]).0, before.1 || Hear(before.0, ms[i]).1)
  {
    assert ms[..i + 1][..i] == ms[..i];
  }

  /** Reads all messages of a received frame. */
  method HearFrame(link: LinkLayer, st: MultihopState) returns (done: bool)
    requires Receptive(link) && Apart(link, st) && st.acks.Length > 0
    modifies link`rxCursor, link`rxMsgNum, st`clusterheadAddr, st`clusterheadRing, st.acks
    ensures Receptive(link)
    ensures (st.View(), done) == HearAll(old(st.View()), old(link.Unread()))
  {
    var ms := link.TakeAll();
    done := HearMessages(st, ms);
  }

  method HearMessages(st: MultihopState, ms: seq<seq<Byte>>) returns (done: bool)
    requires st.Valid() && st.acks.Length > 0
    modifies st`clusterheadAddr, st`clusterheadRing, st.acks
    ensures (st.View(), done) == HearAll(old(st.View()), ms)
  {
    ghost var s := st.View();
    done := false;
    var i := 0;
    while i < |ms|
      invariant i <= |ms| && (st.View(), done) == HearAll(s, ms[..i])
    {
      HearNextOf(s, ms, i);
      var last := HearOne(st, ms[i]);
      done := done || last;
      i := i + 1;
    }
    assert ms[..i] == ms;
  }

  lemma {:induction false} HearingGoesOn(s: NodeState, ms: seq<seq<Byte>>, more: seq<seq<Byte>>)
    requires |s.acks| > 0
    ensures HearAll(s, ms + more)
         == (HearAll(HearAll(s, ms).0, more).0, HearAll(s, ms).1 || HearAll(HearAll(s, ms).0, more).1)
  {
    if more == [] {
      assert ms + more == ms;
    } else {
      var init := more[..|more| - 1];
      HearingGoesOn(s, ms, init);
      assert (ms + more)[..|ms + more| - 1] == ms + init;
    }
  }

  /** One turn of waiting: when and what the radio hears, and when the clock is asked again. */
  datatype Turn = Turn(at: U32, radio: RadioEvent, after: U32)

  function HeardIn(turns: seq<Turn>, size: nat): seq<seq<Byte>> {
    if turns == [] then []
    else
      var last := turns[|turns| - 1].radio;
      HeardIn(turns[..|turns| - 1], size) + if last.Heard? then Received(last.bytes, size) else []
  }

  /** Frames that a receive buffer of `size` bytes can take and that can be read to their end. */
  predicate Receivable(turns: seq<Turn>, mac: MacParams, size: nat) {
    forall i | 0 <= i < |turns| ::
      && InRange(mac, turns[i].at) && InRange(mac, turns[i].after)
      && Readable(turns[i].radio, size)
  }

  /** A member waits for its clusterhead's acks until it has heard them, the slot is over, or reception fails.
      `k` is the number of frames that it read. */
  method DoFollowerRecv(link: LinkLayer, st: MultihopState, now: U32, turns: seq<Turn>)
    returns (rc: ActionRC, ghost k: nat)
    requires Receptive(link) && Apart(link, st) && st.acks.Length > 0
    requires InRange(link.clock.mac, now) && Receivable(turns, link.clock.mac, link.rxBuf.Length)
    modifies link`rxCursor, link`rxMsgNum, link`code, link.rxBuf, link.clock, st`clusterheadAddr, st`clusterheadRing
    modifies st.acks
    ensures Receptive(link) && k <= |turns|
    ensures rc == NoClusterhead <==> old(st.clusterheadAddr) == UNKNOWN_ADDR
    ensures rc == WrongSlot <==>
      old(st.clusterheadAddr != UNKNOWN_ADDR && ActiveSlot(link.clock, now) != st.upstreamAckSlot as int)
    ensures rc in {NoClusterhead, WrongSlot} ==> k == 0 && link.code == old(link.code)
    ensures rc !in {NoClusterhead, WrongSlot} ==> link.code == HashCdmaCode(0)
    ensures st.View() == HearAll(old(st.View()), HeardIn(turns[..k], link.rxBuf.Length)).0
    ensures rc == Done <==> HearAll(old(st.View()), HeardIn(turns[..k], link.rxBuf.Length)).1
    ensures rc !in {NoClusterhead, WrongSlot} ==>
      Waited(st.View(), link.clock.View(), rc, k)
        == Waits(link.clock.mac.Schedule(), link.rxBuf.Length, old(st.upstreamAckSlot), old(st.View()),
                 old(Refresh(link.clock.mac.Schedule(), link.clock.View(), now)), turns, 0)
  {
    k := 0;
    if st.clusterheadAddr == UNKNOWN_ADDR { return NoClusterhead, 0; }
    var slot := link.clock.CurrentSlot(now);
    if slot != st.upstreamAckSlot as int { return WrongSlot, 0; }
    link.SetCdmaCode(0);
    rc, k := Wait(link, st, turns);
  }

  /** State and window after a turn of waiting, what listening reported, whether the waiting is over, and whether
      there is another turn. */
  datatype TurnResult = TurnResult(s: NodeState, w: Window, rc: ActionRC, done: bool, goOn: bool)

  function TakeTurn(tm: Timing, size: nat, slot: Byte, s: NodeState, w: Window, turn: Turn): TurnResult
    requires tm.Valid() && |s.acks| > 0
  {
    var w1 := Refresh(tm, w, turn.at);
    var rc := Listened(w1, turn.at, turn.radio, size);
    if rc != Done then TurnResult(s, w1, rc, false, false)
    else
      var (s', done) := HearAll(s, Received(turn.radio.bytes, size));
      var w2 := if done then w1 else Refresh(tm, w1, turn.after);
      TurnResult(s', w2, rc, done, !done && SlotIn(tm, w2, turn.after) == slot as int)
  }

  /** State, window and result when the waiting is over, and how many frames were read. */
  datatype Waited = Waited(s: NodeState, w: Window, rc: ActionRC, k: nat)

  /** A member waits until it has heard acks or a closing message, the slot is over, or nothing can be received. */
  function Waits(tm: Timing, size: nat, slot: Byte, s: NodeState, w: Window, turns: seq<Turn>, k: nat): Waited
    requires tm.Valid() && |s.acks| > 0 && k <= |turns|
    decreases |turns| - k
  {
    if k == |turns| then Waited(s, w, NothingHeard, k)
    else
      var r := TakeTurn(tm, size, slot, s, w, turns[k]);
      if r.rc != Done then Waited(r.s, r.w, r.rc, k)
      else if r.goOn then Waits(tm, size, slot, r.s, r.w, turns, k + 1)
      else Waited(r.s, r.w, if r.done then Done else NothingHeard, k + 1)
  }

  /** Reads the frame of one turn; `goOn` asks for another turn in the same slot. */
  method WaitTurn(link: LinkLayer, st: MultihopState, turn: Turn) returns (rc: ActionRC, done: bool, goOn: bool)
    requires Receptive(link) && Apart(link, st) && st.acks.Length > 0
    requires CanListen(link, turn.at, turn.radio) && InRange(link.clock.mac, turn.after)
    modifies link`rxCursor, link`rxMsgNum, link`code, link.rxBuf, link.clock, st`clusterheadAddr, st`clusterheadRing
    modifies st.acks
    ensures Receptive(link) && link.code == HashCdmaCode(0) && rc in {Done, NothingHeard, Failed}
    ensures TurnResult(st.View(), link.clock.View(), rc, done, goOn)
         == TakeTurn(link.clock.mac.Schedule(), link.rxBuf.Length, st.upstreamAckSlot, old(st.View()),
                     old(link.clock.View()), turn)
  {
    rc := ListenOn(link, 0, turn.at, turn.radio);
    done, goOn := false, false;
    if rc == Done {
      done := HearFrame(link, st);
      if !done { goOn := StillInSlot(link, st.upstreamAckSlot, turn.after); }
    }
  }

  method StillInSlot(link: LinkLayer, slot: Byte, now: U32) returns (still: bool)
    requires Receptive(link) && InRange(link.clock.mac, now)
    modifies link.clock
    ensures Receptive(link)
    ensures link.clock.View() == Refresh(link.clock.mac.Schedule(), old(link.clock.View()), now)
    ensures still <==> SlotIn(link.clock.mac.Schedule(), link.clock.View(), now) == slot as int
  {
    var current := link.clock.CurrentSlot(now);
    still := current == slot as int;
  }

  /** `do_follower_recv` from its loop on. */
  method Wait(link: LinkLayer, st: MultihopState, turns: seq<Turn>) returns (rc: ActionRC, ghost k: nat)
    requires Receptive(link) && Apart(link, st) && st.acks.Length > 0
    requires link.code == HashCdmaCode(0) && Receivable(turns, link.clock.mac, link.rxBuf.Length)
    modifies link`rxCursor, link`rxMsgNum, link`code, link.rxBuf, link.clock, st`clusterheadAddr, st`clusterheadRing
    modifies st.acks
    ensures Receptive(link) && link.code == HashCdmaCode(0) && k <= |turns| && rc in {Done, NothingHeard, Failed}
    ensures (st.View(), rc == Done) == HearAll(old(st.View()), HeardIn(turns[..k], link.rxBuf.Length))
    ensures Waited(st.View(), link.clock.View(), rc, k)
         == Waits(link.clock.mac.Schedule(), link.rxBuf.Length, st.upstreamAckSlot, old(st.View()),
                  old(link.clock.View()), turns, 0)
  {
    ghost var s, size, tm, slot := st.View(), link.rxBuf.Length, link.clock.mac.Schedule(), st.upstreamAckSlot;
    ghost var all := Waits(tm, size, slot, s, link.clock.View(), turns, 0);
    var i, done, goOn := 0, false, true;
    rc := NothingHeard;
    while i < |turns| && goOn
      invariant Receptive(link) && link.code == HashCdmaCode(0) && i <= |turns|
      invariant AfterTurns(s, st.View(), done, turns, i, size) && (goOn ==> !done)
      invariant all == if goOn then Waits(tm, size, slot, st.View(), link.clock.View(), turns, i)
                       else Waited(st.View(), link.clock.View(), if done then Done else NothingHeard, i)
      decreases |turns| - i
    {
      ghost var before := st.View();
      var received;
      TurnTaken(tm, size, slot, s, before, link.clock.View(), turns, i);
      received, done, goOn := WaitTurn(link, st, turns[i]);
      if received != Done { return received, i; }
      i := i + 1;
    }
    rc, k := if done then Done else NothingHeard, i;
  }

  /** The state and whether the waiting is over when the frames of the first `k` turns have been read. */
  ghost predicate AfterTurns(s0: NodeState, s: NodeState, done: bool, turns: seq<Turn>, k: nat, size: nat)
    requires |s0.acks| > 0
  {
    k <= |turns| && (s, done) == HearAll(s0, HeardIn(turns[..k], size))
  }

  lemma TurnHeard(s0: NodeState, s: NodeState, s': NodeState, done: bool, turns: seq<Turn>, i: nat, size: nat)
    requires |s0.acks| > 0 && i < |turns| && AfterTurns(s0, s, false, turns, i, size) && turns[i].radio.Heard?
    requires |s.acks| > 0 && (s', done) == HearAll(s, Received(turns[i].radio.bytes, size))
    ensures AfterTurns(s0, s', done, turns, i + 1, size)
  {
    assert turns[..i + 1][..i] == turns[..i];
    HearingGoesOn(s0, HeardIn(turns[..i], size), Received(turns[i].radio.bytes, size));
  }

  /** What a turn adds, for the frames that were read and for the waiting that is left. */
  lemma TurnTaken(tm: Timing, size: nat, slot: Byte, s0: NodeState, s: NodeState, w: Window, turns: seq<Turn>, i: nat)
    requires tm.Valid() && |s0.acks| > 0 && |s.acks| > 0 && i < |turns| && AfterTurns(s0, s, false, turns, i, size)
    ensures var r := TakeTurn(tm, size, slot, s, w, turns[i]);
      && (r.rc != Done ==> r.s == s && Waits(tm, size, slot, s, w, turns, i) == Waited(r.s, r.w, r.rc, i))
      && (r.rc == Done ==>
            && AfterTurns(s0, r.s, r.done, turns, i + 1, size) && (r.goOn ==> !r.done)
            && Waits(tm, size, slot, s, w, turns, i)
                 == if r.goOn then Waits(tm, size, slot, r.s, r.w, turns, i + 1)
                    else Waited(r.s, r.w, if r.done then Done else NothingHeard, i + 1))
  {
    var r := TakeTurn(tm, size, slot, s, w, turns[i]);
    if r.rc == Done { TurnHeard(s0, s, r.s, r.done, turns, i, size); }
  }

  // ---- End to end ------------------------------------------------------------------------------------

  /** A member that receives the frame with which its clusterhead ends the window knows afterwards the
      clusterhead's ack for its slot, if that slot is within the acknowledged prefix; otherwise it learns what older
      messages `q` of the queue say, which is nothing unless a frame with acks was not transmitted. */
  lemma MemberLearnsItsAck(s: NodeState, p: NodeState, q: seq<seq<Byte>>, size: nat, msgMax: nat, draw: Byte, now: U32,
                           src: Address, senderTime: U32, rxSize: nat)
    requires Short(q) && |s.acks| > 0 && p.slotsAssigned as nat <= |p.acks|
    requires FitsFrame(Management(q, size, msgMax, p, draw, now, src), size) && size <= rxSize <= 255
    ensures var k := AckedPrefix(Available(q, size), msgMax, |p.acks|, p.slotsAssigned as nat);
      && k <= |p.acks|
      && HearAll(s, Received(Frame(Management(q, size, msgMax, p, draw, now, src), senderTime, src), rxSize)).0.acks
           == (if s.upstreamRelativeSlot as nat < k then s.acks[0 := p.acks[s.upstreamRelativeSlot]]
               else HearAll(s, q).0.acks)
    ensures (forall m | m in q :: NoAcks(m)) ==> HearAll(s, q).0.acks == s.acks
  {
    if forall m | m in q :: NoAcks(m) { NothingIsHeard(s, q); }
    var sent := Management(q, size, msgMax, p, draw, now, src);
    FrameIsReceived(sent, senderTime, src, rxSize);
    var emitted := Emitted(q, size, msgMax, p.acks, p.slotsAssigned as nat, 0, now, src);
    var closing := Encode(Closing(p, draw, now));
    DecodeEncode(Closing(p, draw, now));
    var more := if sent == emitted then [] else [closing];
    assert sent == emitted + more;
    AcksAreHeard(s, q, size, msgMax, p.acks, p.slotsAssigned as nat, now, src, more);
  }

  /** From the closing message a member learns that its clusterhead stays one, or that it has none any more. */
  lemma ClosingIsHeard(s: NodeState, p: NodeState, draw: Byte, now: U32)
    requires |s.acks| > 0 && p.address != UNKNOWN_ADDR
    ensures Hear(s, Encode(Closing(p, draw, now)))
         == (if Volunteers(p, draw) then s.(clusterheadAddr := p.address)
             else s.(clusterheadAddr := UNKNOWN_ADDR, clusterheadRing := UNKNOWN_RING), true)
  {
    DecodeEncode(Closing(p, draw, now));
  }

  lemma MoreFits(q: seq<seq<Byte>>, m: seq<Byte>, size: nat)
    requires FitsFrame(q, size) && |m| <= 255 && |m| + 1 <= Available(q, size)
    ensures FitsFrame(q + [m], size)
  {
    PackSnoc(q, m);
  }

  /** Acks and closing message are queued only where they fit. */
  lemma ManagementFits(q: seq<seq<Byte>>, size: nat, msgMax: nat, p: NodeState, draw: Byte, now: U32, src: Address)
    requires FitsFrame(q, size) && p.slotsAssigned as nat <= |p.acks|
    ensures FitsFrame(Emitted(q, size, msgMax, p.acks, p.slotsAssigned as nat, 0, now, src), size)
    ensures FitsFrame(Management(q, size, msgMax, p, draw, now, src), size)
  {
    var k := AckedPrefix(Available(q, size), msgMax, |p.acks|, p.slotsAssigned as nat);
    EmittedIs(q, size, msgMax, p.acks, p.slotsAssigned as nat, now, src, k);
    var before := Emitted(q, size, msgMax, p.acks, p.slotsAssigned as nat, 0, now, src);
    if before != q { MoreFits(q, Encode(AckMessage(p.acks, 0, k, now, src)), size); }
    var closing := Encode(Closing(p, draw, now));
    if SendResult(before, |closing|, size, msgMax) == Ok { MoreFits(before, closing, size); }
  }

  /** The closing message is behind everything else in the frame that a clusterhead flushes if and only if its 16 bytes
      fit behind that with their length byte, and messages may be that long; it nominates the clusterhead itself if that
      volunteers again, and nobody otherwise. */
  lemma ClosingIsSentIff(q: seq<seq<Byte>>, size: nat, msgMax: nat, p: NodeState, draw: Byte, now: U32, src: Address,
                         senderTime: U32, rxSize: nat)
    requires FitsFrame(q, size) && size <= rxSize <= 255 && p.slotsAssigned as nat <= |p.acks|
    ensures FitsFrame(Management(q, size, msgMax, p, draw, now, src), size)
    ensures FitsFrame(Emitted(q, size, msgMax, p.acks, p.slotsAssigned as nat, 0, now, src), size)
    ensures var ms := Received(Frame(Management(q, size, msgMax, p, draw, now, src), senderTime, src), rxSize);
      var before := Emitted(q, size, msgMax, p.acks, p.slotsAssigned as nat, 0, now, src);
      if FRAME_HEADER_BYTES + |Pack(before)| + 1 + 16 <= size && 16 <= msgMax then
        && |ms| == |before| + 1 && ms[..|before|] == before
        && Decode(ms[|before|]) == Some(Message(now, p.address, CloseCluster(
             if Volunteers(p, draw) then p.address else UNKNOWN_ADDR, p.rings.neighbors)))
      else
        ms == before
  {
    ManagementFits(q, size, msgMax, p, draw, now, src);
    FrameIsReceived(Management(q, size, msgMax, p, draw, now, src), senderTime, src, rxSize);
    DecodeEncode(Closing(p, draw, now));
  }

  /** So a member that reads the whole frame has the clusterhead as its clusterhead if that volunteers again, and has
      none otherwise, whatever else was queued; and its waiting is over. */
  lemma MemberLearnsOfClosing(s: NodeState, p: NodeState, q: seq<seq<Byte>>, size: nat, msgMax: nat, draw: Byte,
                              now: U32, src: Address, senderTime: U32, rxSize: nat)
    requires FitsFrame(q, size) && size <= rxSize <= 255 && p.slotsAssigned as nat <= |p.acks|
    requires |s.acks| > 0 && p.address != UNKNOWN_ADDR && 16 <= msgMax
    requires var before := Emitted(q, size, msgMax, p.acks, p.slotsAssigned as nat, 0, now, src);
      FitsFrame(before, size) && FRAME_HEADER_BYTES + |Pack(before)| + 1 + 16 <= size
    ensures FitsFrame(Management(q, size, msgMax, p, draw, now, src), size)
    ensures var (s', done) :=
      HearAll(s, Received(Frame(Management(q, size, msgMax, p, draw, now, src), senderTime, src), rxSize));
      && done
      && s'.clusterheadAddr == (if Volunteers(p, draw) then p.address else UNKNOWN_ADDR)
      && (!Volunteers(p, draw) ==> s'.clusterheadRing == UNKNOWN_RING)
  {
    ClosingIsSentIff(q, size, msgMax, p, draw, now, src, senderTime, rxSize);
  }
}
