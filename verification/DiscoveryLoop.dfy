/** The loop of `run_neighbor_discovery`, in place on the node's state, and what it contributes to a run of the
    discovery protocol (multihop.cpp). */
module DiscoveryLoop {
  import opened Bytes
  import opened Messages
  import opened Rings
  import opened SlotClock
  import opened State
  import opened Rounds
  import opened Stations
  import Loops
  import Discovery

  /** A received message, and whether the announcement is due by then. */
  datatype Arrived = Arrived(m: Message, due: bool)

  datatype FindTurn = FindTurn(due: bool, heard: seq<Arrived>, now: U32, fits: bool, sent: bool)

  /** What the loop changes: rings, the two flags, and the link's TX side. */
  datatype Finder = Finder(rings: RingState, informed: bool, announced: bool, queue: set<Message>,
                           air: set<Transmission>)

  function HeardRings(s: RingState, ars: seq<Arrived>): RingState {
    if ars == [] then s
    else
      var init, m := HeardRings(s, ars[..|ars| - 1]), ars[|ars| - 1].m;
      if m.body.Heartbeat? then init.(neighbors := AddNeighbor(init.neighbors, m.body.ring)) else init
  }

  predicate HeardAny(ars: seq<Arrived>) { exists a :: a in ars && a.m.body.Heartbeat? }

  /** Whether the node may announce and it is time to, judged at the last heartbeat. */
  function DueAfter(start: bool, ars: seq<Arrived>): bool {
    if ars == [] then start
    else if ars[|ars| - 1].m.body.Heartbeat? then ars[|ars| - 1].due
    else DueAfter(start, ars[..|ars| - 1])
  }

  function FindOnce(self: Address, f: Finder, t: FindTurn): Finder {
    var rings := UpdateRing(self, HeardRings(f.rings, t.heard));
    var heard := f.(rings := rings, informed := f.informed || HeardAny(t.heard));
    if f.announced || !DueAfter(f.informed && t.due, t.heard) then heard
    else
      var queue := if t.fits then f.queue + {Message(t.now, self, Heartbeat(rings.ring))} else f.queue;
      if t.fits && t.sent then
        heard.(announced := true, queue := {}, air := f.air + set m | m in queue :: Transmission(Ready(0), m))
      else heard.(announced := true, queue := queue)
  }

  function FindTurns(self: Address, f: Finder, ts: seq<FindTurn>): Finder {
    if ts == [] then f else FindOnce(self, FindTurns(self, f, ts[..|ts| - 1]), ts[|ts| - 1])
  }

  function Started(s: RingState, queue: set<Message>, air: set<Transmission>): Finder {
    Finder(s.(neighbors := NO_NEIGHBORS), s.ring != UNKNOWN_RING, false, queue, air)
  }

  // ---- What the loop means ---------------------------------------------------------------------------

  /** The events that a turn consists of: heartbeats heard, the ring update, and perhaps an announcement. */
  function Heartbeats(v: Address, ars: seq<Arrived>): seq<Discovery.Event> {
    if ars == [] then []
    else
      var init, m := Heartbeats(v, ars[..|ars| - 1]), ars[|ars| - 1].m;
      if m.body.Heartbeat? then init + [Discovery.Hear(v, Discovery.Beat(m.src, m.body.ring))] else init
  }

  predicate Announces(f: Finder, t: FindTurn) { !f.announced && DueAfter(f.informed && t.due, t.heard) }

  /** What a turn adds behind the heartbeats: the ring update, and the announcement if it is due and queued. */
  function TurnEnd(v: Address, f: Finder, t: FindTurn): seq<Discovery.Event> {
    [Discovery.Update(v)] + if Announces(f, t) && t.fits then [Discovery.Announce(v)] else []
  }

  function TurnEvents(v: Address, f: Finder, ts: seq<FindTurn>): seq<Discovery.Event> {
    if ts == [] then []
    else
      var init, t := ts[..|ts| - 1], ts[|ts| - 1];
      TurnEvents(v, f, init) + Heartbeats(v, t.heard) + TurnEnd(v, FindTurns(v, f, init), t)
  }

  lemma {:induction false} HeardRingsIsLocalRun(v: Address, s: RingState, ars: seq<Arrived>)
    ensures HeardRings(s, ars) == Discovery.LocalRun(s, Heartbeats(v, ars))
  {
    if ars != [] {
      var init := Heartbeats(v, ars[..|ars| - 1]);
      HeardRingsIsLocalRun(v, s, ars[..|ars| - 1]);
      if ars[|ars| - 1].m.body.Heartbeat? {
        assert Heartbeats(v, ars)[..|init|] == init;
      }
    }
  }

  lemma TurnEndIsUpdate(v: Address, f: Finder, t: FindTurn, s: RingState)
    ensures Discovery.LocalRun(s, TurnEnd(v, f, t)) == UpdateRing(v, s)
  {
    Discovery.LocalSnoc(s, [], Discovery.Update(v));
    Discovery.LocalSnoc(s, [] + [Discovery.Update(v)], Discovery.Announce(v));
    assert [] + [Discovery.Update(v)] == [Discovery.Update(v)];
    assert [Discovery.Update(v)] + [] == [Discovery.Update(v)];
  }

  /** The loop takes the node's rings exactly through these events of the discovery protocol. */
  lemma {:induction false} LoopIsLocalRun(v: Address, f: Finder, ts: seq<FindTurn>)
    ensures FindTurns(v, f, ts).rings == Discovery.LocalRun(f.rings, TurnEvents(v, f, ts))
  {
    if ts != [] {
      var init, t := ts[..|ts| - 1], ts[|ts| - 1];
      var before := FindTurns(v, f, init);
      LoopIsLocalRun(v, f, init);
      HeardRingsIsLocalRun(v, before.rings, t.heard);
      Discovery.LocalRunJoins(f.rings, TurnEvents(v, f, init), Heartbeats(v, t.heard));
      Discovery.LocalRunJoins(f.rings, TurnEvents(v, f, init) + Heartbeats(v, t.heard), TurnEnd(v, before, t));
      TurnEndIsUpdate(v, before, t, HeardRings(before.rings, t.heard));
    }
  }

  /** A whole phase at a node: the histogram is reset, and then the turns follow. */
  function PhaseEvents(v: Address, s: RingState, queue: set<Message>, air: set<Transmission>, ts: seq<FindTurn>)
    : seq<Discovery.Event>
  {
    [Discovery.Reset(v)] + TurnEvents(v, Started(s, queue, air), ts)
  }

  /** Ring safety of the loop itself: take any run of the network in which node `v` went through the events
      `before`, and then through those of one phase; what it hears in the phase was announced by neighbours, because
      the run says so. Then the rings that the loop computes are those of the run, and safe. */
  lemma LoopIsRingSafe(g: Discovery.Graph, run: seq<Discovery.Network>, es: seq<Discovery.Event>, v: Address,
                       before: seq<Discovery.Event>, queue: set<Message>, air: set<Transmission>, ts: seq<FindTurn>)
    requires Discovery.ValidGraph(g) && Discovery.IsEventRun(g, run, es) && v in g.nodes && v in run[0].nodes
    requires var s := Discovery.LocalRun(run[0].nodes[v], before);
      Discovery.EventsAt(es, v) == before + PhaseEvents(v, s, queue, air, ts)
    ensures var rings := FindTurns(v, Started(Discovery.LocalRun(run[0].nodes[v], before), queue, air), ts).rings;
      && v in run[|es|].nodes && run[|es|].nodes[v] == rings
      && Discovery.Distance(g, v) <= rings.ring as nat && (rings.ring == GATEWAY_RING <==> v == GATEWAY_ADDR)
  {
    var s := Discovery.LocalRun(run[0].nodes[v], before);
    var turns := TurnEvents(v, Started(s, queue, air), ts);
    Discovery.NodeRunsLocally(g, run, es, v, |es|);
    assert es[..|es|] == es;
    Discovery.LocalRunJoins(run[0].nodes[v], before, PhaseEvents(v, s, queue, air, ts));
    Discovery.LocalRunJoins(s, [Discovery.Reset(v)], turns);
    Discovery.LocalSnoc(s, [], Discovery.Reset(v));
    assert [] + [Discovery.Reset(v)] == [Discovery.Reset(v)];
    LoopIsLocalRun(v, Started(s, queue, air), ts);
    Discovery.EventRunIsRun(g, run, es);
    Discovery.RingSafety(g, run, |es|);
  }

  /** All messages that a node has queued or transmitted. */
  function Said(f: Finder): set<Message> { f.queue + set t | t in f.air :: t.message }

  function BeatMessage(v: Address, now: U32, ring: Ring): Message { Message(now, v, Heartbeat(ring)) }

  lemma TurnSays(v: Address, f: Finder, t: FindTurn)
    ensures var f' := FindOnce(v, f, t);
      && (Said(f') == Said(f) || (f'.announced && Said(f') == Said(f) + {BeatMessage(v, t.now, f'.rings.ring)}))
      && (f.announced ==> f'.announced && Said(f') == Said(f))
  {
    var f' := FindOnce(v, f, t);
    if !f.announced && f'.announced && t.fits && t.sent {
      var sent := f.queue + {BeatMessage(v, t.now, f'.rings.ring)};
      forall m | m in sent ensures m in Said(f') { assert Transmission(Ready(0), m) in f'.air; }
      assert Said(f') == Said(f) + {BeatMessage(v, t.now, f'.rings.ring)};
    }
  }

  /** In one phase a node says at most one thing more: a heartbeat with the ring it has after some turn `k`. */
  lemma {:induction false} SaysAtMostOneHeartbeat(v: Address, f: Finder, ts: seq<FindTurn>) returns (k: nat, now: U32)
    requires !f.announced
    ensures k <= |ts|
    ensures var f' := FindTurns(v, f, ts);
      && (Said(f') == Said(f)
          || (f'.announced && Said(f') == Said(f) + {BeatMessage(v, now, FindTurns(v, f, ts[..k]).rings.ring)}))
  {
    k, now := 0, 0;
    if ts != [] {
      var init, last := ts[..|ts| - 1], ts[|ts| - 1];
      k, now := SaysAtMostOneHeartbeat(v, f, init);
      assert ts[..k] == init[..k];
      TurnSays(v, FindTurns(v, f, init), last);
      if !FindTurns(v, f, init).announced {
        k, now := |ts|, last.now;
        assert ts[..k] == ts;
      }
    }
  }

  predicate Silent(ts: seq<FindTurn>) { forall i | 0 <= i < |ts| :: !HeardAny(ts[i].heard) }

  /** A node without a ring stays silent until it hears a heartbeat. */
  lemma {:induction false} UninformedStaysSilent(v: Address, f: Finder, ts: seq<FindTurn>)
    requires !f.informed && Silent(ts)
    ensures var f' := FindTurns(v, f, ts);
      !f'.informed && f'.announced == f.announced && f'.queue == f.queue && f'.air == f.air
  {
    if ts != [] {
      UninformedStaysSilent(v, f, ts[..|ts| - 1]);
      assert !HeardAny(ts[|ts| - 1].heard);
      NothingHeard(ts[|ts| - 1].heard);
    }
  }

  lemma {:induction false} NothingHeard(ars: seq<Arrived>)
    requires !HeardAny(ars)
    ensures !DueAfter(false, ars)
  {
    if ars != [] {
      assert ars[|ars| - 1] in ars;
      assert forall a | a in ars[..|ars| - 1] :: a in ars;
      NothingHeard(ars[..|ars| - 1]);
    }
  }

  // ---- The node with the link layer ------------------------------------------------------------------

  datatype Seeker = Seeker(f: Finder, v: LinkView)

  /** The start of discovery on a link layer in use. */
  function Seeking(s: RingState, v: LinkView): (x: Seeker)
    ensures Coupled(x)
  {
    Seeker(Started(s, Decoded(v.queue), AirOf(v.frames)), v)
  }

  predicate Coupled(x: Seeker) { x.f.queue == Decoded(x.v.queue) && x.f.air == AirOf(x.v.frames) }

  /** What is given for a turn: the announcement is due, or becomes due when message `dueFrom` is processed. */
  datatype FindEnv = FindEnv(reception: Reception, due: bool, dueFrom: nat, now: U32, moment: Moment)

  /** The messages that decode, with what is due when they are processed. */
  function ArrivedIn(ms: seq<seq<Byte>>, due: bool, dueFrom: nat): seq<Arrived> {
    if ms == [] then []
    else
      var k := |ms| - 1;
      ArrivedIn(ms[..k], due, dueFrom)
        + if Decode(ms[k]).Some? then [Arrived(Decode(ms[k]).value, due || dueFrom <= k)] else []
  }

  /** Messages are processed only if `recv` heard something in the active window. */
  function Reads(p: Setup, x: Seeker, e: FindEnv): seq<seq<Byte>>
    requires p.tm.Valid()
  {
    var v := ReceiveAt(p, x.v, e.reception);
    if InWindow(v.window, e.reception.at) then v.unread else []
  }

  function FindTurnOf(p: Setup, self: Address, x: Seeker, e: FindEnv): FindTurn
    requires p.tm.Valid()
  {
    var v := ReceiveAt(p, x.v, e.reception);
    var ars := ArrivedIn(Reads(p, x, e), e.due, e.dueFrom);
    var m := BeatMessage(self, e.now, UpdateRing(self, HeardRings(x.f.rings, ars)).ring);
    FindTurn(e.due, ars, e.now, Fits(p, v.queue, m), Flushes(p, SendTo(p, v, m), e.moment))
  }

  /** The link layer after the messages of the turn were processed. */
  function AfterReading(p: Setup, x: Seeker, e: FindEnv): LinkView
    requires p.tm.Valid()
  {
    var v := ReceiveAt(p, x.v, e.reception);
    if InWindow(v.window, e.reception.at) then v.(unread := []) else v
  }

  function FindStep(p: Setup, self: Address, x: Seeker, e: FindEnv): Seeker
    requires p.tm.Valid()
  {
    var t, v := FindTurnOf(p, self, x, e), AfterReading(p, x, e);
    var f := FindOnce(self, x.f, t);
    var m := BeatMessage(self, e.now, f.rings.ring);
    Seeker(f, if Announces(x.f, t) then Loops.SendAndFlush(p, v, m, t.fits, Ready(0), e.moment) else v)
  }

  function FindSteps(p: Setup, self: Address, x: Seeker, es: seq<FindEnv>): Seeker
    requires p.tm.Valid()
  {
    if es == [] then x else FindStep(p, self, FindSteps(p, self, x, es[..|es| - 1]), es[|es| - 1])
  }

  function FindTurnsOf(p: Setup, self: Address, x: Seeker, es: seq<FindEnv>): (ts: seq<FindTurn>)
    requires p.tm.Valid()
    ensures |ts| == |es|
  {
    if es == [] then []
    else
      var init := es[..|es| - 1];
      FindTurnsOf(p, self, x, init) + [FindTurnOf(p, self, FindSteps(p, self, x, init), es[|es| - 1])]
  }

  lemma TurnsSnoc(self: Address, f: Finder, init: seq<FindTurn>, last: FindTurn, ts: seq<FindTurn>)
    requires ts == init + [last]
    ensures FindTurns(self, f, ts) == FindOnce(self, FindTurns(self, f, init), last)
  {
    assert ts[..|ts| - 1] == init;
  }

  lemma {:induction false} FindStepsAreTurns(p: Setup, self: Address, x: Seeker, es: seq<FindEnv>)
    requires p.tm.Valid()
    ensures FindSteps(p, self, x, es).f == FindTurns(self, x.f, FindTurnsOf(p, self, x, es))
  {
    if es != [] {
      var init := es[..|es| - 1];
      FindStepsAreTurns(p, self, x, init);
      var ts, last := FindTurnsOf(p, self, x, es), FindTurnOf(p, self, FindSteps(p, self, x, init), es[|es| - 1]);
      TurnsSnoc(self, x.f, FindTurnsOf(p, self, x, init), last, ts);
    }
  }

  lemma FindStepKeepsCoupled(p: Setup, self: Address, x: Seeker, e: FindEnv)
    requires p.tm.Valid() && Coupled(x)
    ensures Coupled(FindStep(p, self, x, e))
  {
    var t, v := FindTurnOf(p, self, x, e), AfterReading(p, x, e);
    var f := FindOnce(self, x.f, t);
    if Announces(x.f, t) && t.fits {
      var m := BeatMessage(self, e.now, f.rings.ring);
      DecodedSnoc(v.queue, m);
      if t.sent { AirSnoc(v.frames, Ready(0), SendTo(p, v, m).queue, e.moment.senderTime, p.address); }
    }
  }

  lemma {:induction false} FindingKeepsCoupled(p: Setup, self: Address, x: Seeker, es: seq<FindEnv>)
    requires p.tm.Valid() && Coupled(x)
    ensures Coupled(FindSteps(p, self, x, es))
  {
    if es != [] {
      FindingKeepsCoupled(p, self, x, es[..|es| - 1]);
      FindStepKeepsCoupled(p, self, FindSteps(p, self, x, es[..|es| - 1]), es[|es| - 1]);
    }
  }

  // ---- The object ------------------------------------------------------------------------------------

  /** `x` is what the objects and the two flags hold; nothing of the node but its rings differs from `s`. */
  ghost predicate HoldsSeeker(x: Seeker, s: NodeState, st: MultihopState, tx: Station, informed: bool, announced: bool)
    reads st, st.counts, st.slotAssignments, st.acks
    reads tx, tx.link`queue, tx.link`rxCursor, tx.link`rxMsgNum, tx.link.rxBuf, tx.link.clock
  {
    && st.Valid() && tx.link.RxValid() && st.View() == s.(rings := x.f.rings) && x.v == tx.View()
    && x.f.informed == informed && x.f.announced == announced
  }

  /** The messages of a turn from the first on: what they make of the rings and of the two flags. */
  datatype Hearing = Hearing(rings: RingState, informed: bool, announce: bool)

  function HearingOf(f: Finder, ars: seq<Arrived>, due: bool): Hearing {
    Hearing(HeardRings(f.rings, ars), f.informed || HeardAny(ars), !f.announced && DueAfter(f.informed && due, ars))
  }

  function HearingNext(h: Hearing, announced: bool, m: Message, due: bool): Hearing {
    if m.body.Heartbeat? then
      Hearing(h.rings.(neighbors := AddNeighbor(h.rings.neighbors, m.body.ring)), true, !announced && due)
    else h
  }

  lemma HearingSnoc(f: Finder, ms: seq<seq<Byte>>, i: nat, due: bool, dueFrom: nat)
    requires i < |ms|
    ensures var h, h' :=
      HearingOf(f, ArrivedIn(ms[..i], due, dueFrom), due), HearingOf(f, ArrivedIn(ms[..i + 1], due, dueFrom), due);
      h' == match Decode(ms[i]) case None => h case Some(m) => HearingNext(h, f.announced, m, due || dueFrom <= i)
  {
    assert ms[..i + 1][..i] == ms[..i];
    var ars, more := ArrivedIn(ms[..i], due, dueFrom), ArrivedIn(ms[..i + 1], due, dueFrom);
    if Decode(ms[i]).Some? {
      var last := Arrived(Decode(ms[i]).value, due || dueFrom <= i);
      assert more == ars + [last] && more[..|more| - 1] == ars;
      HeardAnySnoc(ars, last);
    } else {
      assert more == ars;
    }
  }

  lemma HeardAnySnoc(ars: seq<Arrived>, last: Arrived)
    ensures HeardAny(ars + [last]) <==> HeardAny(ars) || last.m.body.Heartbeat?
  {
    assert last in ars + [last];
    if HeardAny(ars) {
      var a :| a in ars && a.m.body.Heartbeat?;
      assert a in ars + [last];
    }
  }

  /** One message of the RX buffer. */
  method ProcessHeartbeat(st: MultihopState, m: Message, informed: bool, announced: bool, announce: bool, due: bool)
    returns (informed': bool, announce': bool)
    requires st.Valid()
    modifies st`ringStart, st.counts
    ensures var h := HearingNext(Hearing(old(st.View()).rings, informed, announce), announced, m, due);
      st.View() == old(st.View()).(rings := h.rings) && informed' == h.informed && announce' == h.announce
  {
    informed', announce' := informed, announce;
    if m.body.Heartbeat? {
      st.AddNeighbor(m.body.ring);
      informed', announce' := true, !announced && due;
    }
  }

  /** What the first `k` unread messages make of the rings and of the two flags. */
  function HearingTo(f: Finder, e: FindEnv, ms: seq<seq<Byte>>, k: nat): Hearing
    requires k <= |ms|
  {
    HearingOf(f, ArrivedIn(ms[..k], e.due, e.dueFrom), e.due)
  }

  /** Takes message `k` of those that were unread out of the RX buffer, if there is one, and processes it. */
  method ProcessNext(st: MultihopState, tx: Station, e: FindEnv, informed: bool, announced: bool, announce: bool,
                     k: nat, ghost f: Finder, ghost ms: seq<seq<Byte>>)
    returns (more: bool, informed': bool, announce': bool)
    requires tx.Valid() && Loops.Disjoint(st, tx) && k <= |ms| && tx.View().unread == ms[k..]
    requires f.announced == announced
    requires HearingTo(f, e, ms, k) == Hearing(st.View().rings, informed, announce)
    modifies tx.link`rxCursor, tx.link`rxMsgNum, st`ringStart, st.counts
    ensures tx.Valid() && (more <==> k < |ms|)
    ensures tx.View() == old(tx.View()).(unread := ms[if more then k + 1 else k..])
    ensures var h := HearingTo(f, e, ms, if more then k + 1 else k);
      st.View() == old(st.View()).(rings := h.rings) && informed' == h.informed && announce' == h.announce
  {
    informed', announce' := informed, announce;
    var m;
    more, m := tx.Next();
    if more {
      HearingSnoc(f, ms, k, e.due, e.dueFrom);
      assert ms[k..][1..] == ms[k + 1..] && ms[k..][0] == ms[k];
      if m.Some? {
        informed', announce' := ProcessHeartbeat(st, m.value, informed, announced, announce, e.due || e.dueFrom <= k);
      }
    }
  }

  /** Processes the messages of the RX buffer. */
  method ProcessHeartbeats(st: MultihopState, tx: Station, e: FindEnv, informed: bool, announced: bool, ghost f: Finder)
    returns (informed': bool, announce: bool)
    requires tx.Valid() && Loops.Disjoint(st, tx)
    requires f.rings == st.View().rings && f.informed == informed && f.announced == announced
    modifies tx.link`rxCursor, tx.link`rxMsgNum, st`ringStart, st.counts
    ensures tx.Valid() && tx.View() == old(tx.View()).(unread := [])
    ensures var h := HearingOf(f, ArrivedIn(old(tx.View()).unread, e.due, e.dueFrom), e.due);
      st.View() == old(st.View()).(rings := h.rings) && informed' == h.informed && announce == h.announce
  {
    ghost var s, v := st.View(), tx.View();
    ghost var ms := v.unread;
    informed', announce := informed, informed && !announced && e.due;
    var k, more := 0, true;
    assert ms[0..] == ms;
    while more
      invariant tx.Valid() && st.Valid() && k <= |ms| && tx.View() == v.(unread := ms[k..]) && (more || k == |ms|)
      invariant st.View() == s.(rings := st.View().rings)
      invariant HearingTo(f, e, ms, k) == Hearing(st.View().rings, informed', announce)
      decreases |ms| - k, more
    {
      more, informed', announce := ProcessNext(st, tx, e, informed', announced, announce, k, f, ms);
      if more { k := k + 1; }
    }
    assert ms[..k] == ms;
  }

  /** Sends the heartbeat and flushes; the results are ignored. */
  method AnnounceRing(st: MultihopState, tx: Station, e: FindEnv)
    requires tx.Valid() && Loops.Disjoint(st, tx) && InRange(tx.link.clock.mac, e.moment.at)
    modifies tx`frames, tx.link`queue, tx.link`txBytesQueued, tx.link`txMsgCount, tx.link.txBuf, tx.link.clock
    ensures tx.Valid()
    ensures var m := BeatMessage(old(st.View()).address, e.now, old(st.View()).rings.ring);
      tx.View() == Loops.SendAndFlush(tx.Params(), old(tx.View()), m, Fits(tx.Params(), old(tx.View()).queue, m),
                                      Ready(0), e.moment)
  {
    var fits := tx.Send(Message(e.now, st.address, Heartbeat(st.ring)));
    if fits {
      var _ := tx.Flush(Ready(0), e.moment);
    }
  }

  lemma FoundParts(p: Setup, self: Address, x: Seeker, e: FindEnv)
    requires p.tm.Valid()
    ensures var h, f := HearingOf(x.f, ArrivedIn(Reads(p, x, e), e.due, e.dueFrom), e.due), FindStep(p, self, x, e).f;
      && f.rings == UpdateRing(self, h.rings) && f.informed == h.informed
      && f.announced == (x.f.announced || h.announce)
    ensures var h, v := HearingOf(x.f, ArrivedIn(Reads(p, x, e), e.due, e.dueFrom), e.due), AfterReading(p, x, e);
      var m := BeatMessage(self, e.now, UpdateRing(self, h.rings).ring);
      FindStep(p, self, x, e).v
        == if h.announce then Loops.SendAndFlush(p, v, m, Fits(p, v.queue, m), Ready(0), e.moment) else v
  {
  }

  /** One turn of the loop: receive, process, update the ring, and announce it if that is due. */
  method DiscoveryTurn(st: MultihopState, tx: Station, informed: bool, announced: bool, e: FindEnv, ghost x: Seeker,
                       ghost s: NodeState)
    returns (informed': bool, announced': bool)
    requires tx.Valid() && Loops.Disjoint(st, tx)
    requires Loops.InTime(tx.link.clock.mac, e.moment.at, e.reception, tx.link.rxBuf.Length)
    requires HoldsSeeker(x, s, st, tx, informed, announced)
    modifies tx, tx.link`queue, tx.link`txBytesQueued, tx.link`txMsgCount, tx.link`rxCursor, tx.link`rxMsgNum
    modifies tx.link.txBuf, tx.link.rxBuf, tx.link.clock, st`ring, st`ringStart, st`roundsWithoutLower, st.counts
    ensures tx.Valid()
    ensures HoldsSeeker(FindStep(tx.Params(), s.address, x, e), s, st, tx, informed', announced')
  {
    FoundParts(tx.Params(), s.address, x, e);
    var announce;
    informed', announce := ReceiveHeartbeats(st, tx, informed, announced, e, x);
    UpdateAndAnnounce(st, tx, announce, e);
    announced' := announced || announce;
  }

  method UpdateAndAnnounce(st: MultihopState, tx: Station, announce: bool, e: FindEnv)
    requires tx.Valid() && Loops.Disjoint(st, tx) && InRange(tx.link.clock.mac, e.moment.at)
    modifies tx`frames, tx.link`queue, tx.link`txBytesQueued, tx.link`txMsgCount, tx.link.txBuf, tx.link.clock
    modifies st`ring, st`roundsWithoutLower
    ensures tx.Valid()
    ensures st.View() == old(st.View()).(rings := UpdateRing(st.address, old(st.View()).rings))
    ensures var m := BeatMessage(st.address, e.now, st.ring);
      tx.View() == if announce
        then Loops.SendAndFlush(tx.Params(), old(tx.View()), m, Fits(tx.Params(), old(tx.View()).queue, m), Ready(0),
                                e.moment)
                   else old(tx.View())
  {
    st.UpdateRingFromNeighbors();
    if announce { AnnounceRing(st, tx, e); }
  }

  method ReceiveHeartbeats(st: MultihopState, tx: Station, informed: bool, announced: bool, e: FindEnv, ghost x: Seeker)
    returns (informed': bool, announce: bool)
    requires tx.Valid() && Loops.Disjoint(st, tx)
    requires Loops.InTime(tx.link.clock.mac, e.moment.at, e.reception, tx.link.rxBuf.Length)
    requires HoldsSeeker(x, st.View(), st, tx, informed, announced)
    modifies tx, tx.link`rxCursor, tx.link`rxMsgNum, tx.link.rxBuf, tx.link.clock, st`ringStart, st.counts
    ensures tx.Valid() && tx.View() == AfterReading(tx.Params(), x, e)
    ensures var h := HearingOf(x.f, ArrivedIn(Reads(tx.Params(), x, e), e.due, e.dueFrom), e.due);
      st.View() == old(st.View()).(rings := h.rings) && informed' == h.informed && announce == h.announce
  {
    var window := tx.Receive(e.reception);
    if window {
      informed', announce := ProcessHeartbeats(st, tx, e, informed, announced, x.f);
    } else {
      informed', announce := informed, informed && !announced && e.due;
    }
  }

  predicate FindInTime(mac: MacParams, es: seq<FindEnv>, size: nat) {
    forall i | 0 <= i < |es| :: Loops.InTime(mac, es[i].moment.at, es[i].reception, size)
  }

  method RunNeighborDiscovery(st: MultihopState, tx: Station, es: seq<FindEnv>)
    requires tx.Valid() && Loops.Disjoint(st, tx) && FindInTime(tx.link.clock.mac, es, tx.link.rxBuf.Length)
    modifies tx, tx.link`queue, tx.link`txBytesQueued, tx.link`txMsgCount, tx.link`rxCursor, tx.link`rxMsgNum
    modifies tx.link.txBuf, tx.link.rxBuf, tx.link.clock, st`ring, st`ringStart, st`roundsWithoutLower, st.counts
    ensures tx.Valid()
    ensures var x := FindSteps(tx.Params(), st.address, Seeking(old(st.View()).rings, old(tx.View())), es);
      st.View() == old(st.View()).(rings := x.f.rings) && tx.View() == x.v
  {
    ghost var s, x := st.View(), Seeking(st.View().rings, tx.View());
    st.ResetNeighbors();
    FindingLoop(st, tx, st.ring != UNKNOWN_RING, es, x, s);
  }

  method FindingLoop(st: MultihopState, tx: Station, hasRingInfo: bool, es: seq<FindEnv>, ghost x: Seeker,
                     ghost s: NodeState)
    requires tx.Valid() && Loops.Disjoint(st, tx) && FindInTime(tx.link.clock.mac, es, tx.link.rxBuf.Length)
    requires HoldsSeeker(x, s, st, tx, hasRingInfo, false)
    modifies tx, tx.link`queue, tx.link`txBytesQueued, tx.link`txMsgCount, tx.link`rxCursor, tx.link`rxMsgNum
    modifies tx.link.txBuf, tx.link.rxBuf, tx.link.clock, st`ring, st`ringStart, st`roundsWithoutLower, st.counts
    ensures tx.Valid()
    ensures var y := FindSteps(tx.Params(), s.address, x, es); HoldsSeeker(y, s, st, tx, y.f.informed, y.f.announced)
  {
    ghost var p := tx.Params();
    var announced, informed := false, hasRingInfo;
    var i := 0;
    while i < |es|
      invariant i <= |es| && tx.Valid()
      invariant HoldsSeeker(FindSteps(p, s.address, x, es[..i]), s, st, tx, informed, announced)
    {
      assert es[..i + 1][..i] == es[..i];
      informed, announced := DiscoveryTurn(st, tx, informed, announced, es[i], FindSteps(p, s.address, x, es[..i]), s);
      i := i + 1;
    }
    assert es[..i] == es;
  }
}
