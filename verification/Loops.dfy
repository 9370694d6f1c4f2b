/** The loops of `do_advertise`, in place on the node's objects (multihop.cpp). When deadlines are reached, what the
    radio receives and transmits, the time and the random bytes are given per turn. */
module Loops {
  import opened Bytes
  import opened Messages
  import opened SlotClock
  import opened State
  import opened Cluster
  import opened Candidates
  import opened Rounds
  import opened Link
  import opened Stations

  /** A node and the link layer below it. */
  datatype Party = Party(n: Node, v: LinkView)

  /** What the node counts as queued and as transmitted is what the link layer holds and what its frames carry. */
  predicate Coupled(x: Party) { x.n.queue == Decoded(x.v.queue) && x.n.air == AirOf(x.v.frames) }

  /** The message goes into the TX buffer if it fits, and then perhaps all that is queued is flushed. */
  function SendAndFlush(p: Setup, v: LinkView, m: Message, flush: bool, phase: Phase, moment: Moment): LinkView
    requires p.tm.Valid() && WellFormed(m)
  {
    if flush then FlushAt(p, SendTo(p, v, m), phase, moment) else SendTo(p, v, m)
  }

  lemma SendKeepsCoupled(p: Setup, x: Party, body: Body, now: U32)
    requires Coupled(x)
    requires var m := Message(now, x.n.s.address, body); WellFormed(m) && !EmptyAcks(m)
    ensures var m := Message(now, x.n.s.address, body);
      Coupled(Party(Queued(x.n, body, now, Fits(p, x.v.queue, m)), SendTo(p, x.v, m)))
  {
    DecodedSnoc(x.v.queue, Message(now, x.n.s.address, body));
  }

  lemma FlushKeepsCoupled(p: Setup, x: Party, moment: Moment)
    requires p.tm.Valid() && Coupled(x)
    ensures Coupled(Party(Flushed(x.n, Flushes(p, x.v, moment)), FlushAt(p, x.v, x.n.c.phase, moment)))
  {
    if Flushes(p, x.v, moment) {
      AirSnoc(x.v.frames, x.n.c.phase, x.v.queue, moment.senderTime, p.address);
    }
  }

  // ---- Announcement ----------------------------------------------------------------------------------

  /** One turn of the announcement loop: is the announcement due, and what is heard. */
  datatype AnnounceTurn = AnnounceTurn(due: bool, now: U32, fits: bool, sent: bool, heard: seq<Transmission>)

  function HearAnnouncements(n: Node, ts: seq<Transmission>): Node {
    if ts == [] then n else HearAnnouncement(HearAnnouncements(n, ts[..|ts| - 1]), ts[|ts| - 1])
  }

  function AnnounceOnce(n: Node, t: AnnounceTurn): Node {
    HearAnnouncements(if n.c.pending && t.due then Announce(n, t.now, t.fits, t.sent) else n, t.heard)
  }

  function AnnounceTurns(n: Node, ts: seq<AnnounceTurn>): Node {
    if ts == [] then n else AnnounceOnce(AnnounceTurns(n, ts[..|ts| - 1]), ts[|ts| - 1])
  }

  /** What is given for a turn; `fits`, `sent` and `heard` follow from it and from the link layer. */
  datatype AnnounceEnv = AnnounceEnv(reception: Reception, due: bool, now: U32, moment: Moment)

  function Opening(n: Node, now: U32): (m: Message)
    ensures WellFormed(m) && !EmptyAcks(m)
  {
    Message(now, n.s.address, OpenCluster(n.s.rings.ring, n.s.address, n.s.rings.neighbors))
  }

  function OpenAndFlush(p: Setup, x: Party, now: U32, moment: Moment): Party
    requires p.tm.Valid()
  {
    var m := Opening(x.n, now);
    var fits := Fits(p, x.v.queue, m);
    Party(Announce(x.n, now, fits, Flushes(p, SendTo(p, x.v, m), moment)),
          SendAndFlush(p, x.v, m, fits, x.n.c.phase, moment))
  }

  /** The party when the turn's announcement is out, if there is one to make. */
  function Opened(p: Setup, x: Party, e: AnnounceEnv): Party
    requires p.tm.Valid()
  {
    var received := Party(x.n, ReceiveAt(p, x.v, e.reception));
    if x.n.c.pending && e.due then OpenAndFlush(p, received, e.now, e.moment) else received
  }

  function AnnounceStep(p: Setup, x: Party, e: AnnounceEnv): Party
    requires p.tm.Valid()
  {
    var made := Opened(p, x, e);
    Party(HearAnnouncements(made.n, ReadAs(made.v.unread, made.v.rxPhase)), made.v.(unread := []))
  }

  function AnnounceSteps(p: Setup, x: Party, es: seq<AnnounceEnv>): Party
    requires p.tm.Valid()
  {
    if es == [] then x else AnnounceStep(p, AnnounceSteps(p, x, es[..|es| - 1]), es[|es| - 1])
  }

  /** The turn with what followed. */
  function AnnounceTurnOf(p: Setup, x: Party, e: AnnounceEnv): AnnounceTurn
    requires p.tm.Valid()
  {
    var v := ReceiveAt(p, x.v, e.reception);
    var m := Opening(x.n, e.now);
    AnnounceTurn(e.due, e.now, Fits(p, v.queue, m), Flushes(p, SendTo(p, v, m), e.moment), ReadAs(v.unread, v.rxPhase))
  }

  function AnnounceTurnsOf(p: Setup, x: Party, es: seq<AnnounceEnv>): (ts: seq<AnnounceTurn>)
    requires p.tm.Valid()
    ensures |ts| == |es|
  {
    if es == [] then []
    else
      var init := es[..|es| - 1];
      AnnounceTurnsOf(p, x, init) + [AnnounceTurnOf(p, AnnounceSteps(p, x, init), es[|es| - 1])]
  }

  lemma {:induction false} AnnounceStepsAreTurns(p: Setup, x: Party, es: seq<AnnounceEnv>)
    requires p.tm.Valid()
    ensures AnnounceSteps(p, x, es).n == AnnounceTurns(x.n, AnnounceTurnsOf(p, x, es))
  {
    if es != [] {
      var init := es[..|es| - 1];
      AnnounceStepsAreTurns(p, x, init);
      var ts := AnnounceTurnsOf(p, x, es);
      assert ts[..|ts| - 1] == AnnounceTurnsOf(p, x, init);
    }
  }

  lemma {:induction false} HearingKeepsTx(n: Node, ts: seq<Transmission>)
    ensures var n' := HearAnnouncements(n, ts);
      n'.queue == n.queue && n'.air == n.air && n'.s == n.s && n'.c.phase == n.c.phase
  {
    if ts != [] { HearingKeepsTx(n, ts[..|ts| - 1]); }
  }

  lemma OpenKeepsCoupled(p: Setup, x: Party, now: U32, moment: Moment)
    requires p.tm.Valid() && Coupled(x)
    ensures Coupled(OpenAndFlush(p, x, now, moment))
  {
    var m := Opening(x.n, now);
    SendKeepsCoupled(p, x, m.body, now);
    if Fits(p, x.v.queue, m) { FlushKeepsCoupled(p, Party(Queued(x.n, m.body, now, true), SendTo(p, x.v, m)), moment); }
  }

  lemma {:induction false} AnnouncingKeepsCoupled(p: Setup, x: Party, es: seq<AnnounceEnv>)
    requires p.tm.Valid() && Coupled(x)
    ensures Coupled(AnnounceSteps(p, x, es))
  {
    if es != [] {
      var e := es[|es| - 1];
      AnnouncingKeepsCoupled(p, x, es[..|es| - 1]);
      var y := AnnounceSteps(p, x, es[..|es| - 1]);
      var received := Party(y.n, ReceiveAt(p, y.v, e.reception));
      if y.n.c.pending && e.due { OpenKeepsCoupled(p, received, e.now, e.moment); }
      var made := Opened(p, y, e);
      HearingKeepsTx(made.n, ReadAs(made.v.unread, made.v.rxPhase));
    }
  }

  /** `x` is what the objects hold. */
  ghost predicate HoldsParty(x: Party, st: MultihopState, tx: Station)
    reads st, st.counts, st.slotAssignments, st.acks
    reads tx, tx.link`queue, tx.link`rxCursor, tx.link`rxMsgNum, tx.link.rxBuf, tx.link.clock
  {
    st.Valid() && tx.link.RxValid() && x.n.s == st.View() && x.v == tx.View()
  }

  /** ... and `elected` and `pending` are its local variables in the announcement phase of `round`. */
  ghost predicate Tracks(x: Party, st: MultihopState, candidates: ClusterheadCandidates, tx: Station,
                         round: nat, elected: bool, pending: bool)
    requires candidates.Valid()
    reads st, st.counts, st.slotAssignments, st.acks, candidates.addresses, candidates.rings, candidates.scores
    reads tx, tx.link`queue, tx.link`rxCursor, tx.link`rxMsgNum, tx.link.rxBuf, tx.link.clock
  {
    && HoldsParty(x, st, tx) && x.n.c.candidates == candidates.View()
    && x.n.c.phase == Announcing(round) && x.n.c.elected == elected && x.n.c.pending == pending
  }

  /** The tables of the node, its candidates and the buffers of the link layer are different objects. */
  ghost predicate Separate(st: MultihopState, candidates: ClusterheadCandidates, tx: Station) {
    && Disjoint(st, tx) && candidates.Valid()
    && {candidates.addresses as object, candidates.rings, candidates.scores}
         !! {st.counts as object, st.slotAssignments, st.acks, tx.link.txBuf, tx.link.rxBuf}
  }

  ghost predicate Disjoint(st: MultihopState, tx: Station) {
    st.Valid() && {st.counts as object, st.slotAssignments, st.acks} !! {tx.link.txBuf as object, tx.link.rxBuf}
  }

  /** Times that do not overflow, and a frame that can be read. */
  predicate InTime(mac: MacParams, at: U32, r: Reception, size: nat) {
    InRange(mac, at) && InRange(mac, r.at) && Readable(r.radio, size)
  }

  lemma OpenedParts(p: Setup, x: Party, now: U32, moment: Moment)
    requires p.tm.Valid() && x.n.c.pending
    ensures var y, m := OpenAndFlush(p, x, now, moment), Opening(x.n, now);
      && y.n.s == x.n.s && y.v == SendAndFlush(p, x.v, m, Fits(p, x.v.queue, m), x.n.c.phase, moment)
      && y.n.c.pending == !(Fits(p, x.v.queue, m) && Flushes(p, SendTo(p, x.v, m), moment))
  {
  }

  method OpenClusterAndFlush(st: MultihopState, tx: Station, round: nat, now: U32, moment: Moment, ghost x: Party)
    returns (pending: bool)
    requires tx.Valid() && Disjoint(st, tx) && InRange(tx.link.clock.mac, moment.at)
    requires HoldsParty(x, st, tx) && x.n.c.phase == Announcing(round) && x.n.c.pending
    modifies tx`frames, tx.link`queue, tx.link`txBytesQueued, tx.link`txMsgCount, tx.link.txBuf, tx.link.clock
    ensures tx.Valid()
    ensures HoldsParty(OpenAndFlush(tx.Params(), x, now, moment), st, tx)
    ensures pending == OpenAndFlush(tx.Params(), x, now, moment).n.c.pending
  {
    ghost var p := tx.Params();
    var m := Message(now, st.address, OpenCluster(st.ring, st.address, RingList(st.ringStart, st.counts[..])));
    assert m == Opening(x.n, now);
    var fits := tx.Send(m);
    pending := true;
    if fits {
      var sent := tx.Flush(Announcing(round), moment);
      pending := !sent;
    }
    OpenedParts(p, x, now, moment);
  }

  /** The case of an announcement by another node. */
  method ConsiderRival(st: MultihopState, candidates: ClusterheadCandidates, m: Message, elected: bool, pending: bool)
    returns (loses: bool)
    requires st.Valid() && candidates.Valid() && m.body.OpenCluster?
    requires {candidates.addresses as object, candidates.rings, candidates.scores}
          !! {st.counts as object, st.slotAssignments, st.acks}
    modifies candidates.addresses, candidates.rings, candidates.scores
    ensures candidates.View()
      == Update(old(candidates.View()), Candidate(m.src, m.body.ring, Score(m.body.neighbors, m.body.ring)))
    ensures loses <==> elected && m.body.ring == st.ring && (pending || st.address < m.src)
  {
    var score := ComputeScore(m.body.neighbors, m.body.ring);
    candidates.Consider(m.src, m.body.ring, score);
    loses := elected && m.body.ring == st.ring && (pending || st.address < m.src);
  }

  /** A received message, while announcing; `t` is the message with the phase in which it was sent. */
  method ConsiderAnnouncement(st: MultihopState, candidates: ClusterheadCandidates, tx: Station, round: nat,
                              elected: bool, pending: bool,
                              m: Message, ghost t: Transmission, ghost x: Party)
    returns (elected': bool, pending': bool)
    requires tx.Valid() && Separate(st, candidates, tx) && Tracks(x, st, candidates, tx, round, elected, pending)
    requires t.message == m
    modifies candidates.addresses, candidates.rings, candidates.scores
    ensures tx.Valid()
    ensures Tracks(x.(n := HearAnnouncement(x.n, t)), st, candidates, tx, round, elected', pending')
  {
    elected', pending' := elected, pending;
    if !m.body.OpenCluster? || m.src == st.address { return; }
    var loses := ConsiderRival(st, candidates, m, elected, pending);
    if loses { elected', pending' := false, false; }
  }

  /** The party behind the first `i` of the messages that were unread. */
  function Reading(x: Party, i: nat): Party
    requires i <= |x.v.unread|
  {
    Party(HearAnnouncements(x.n, ReadAs(x.v.unread[..i], x.v.rxPhase)), x.v.(unread := x.v.unread[i..]))
  }

  lemma ReadingNext(x: Party, i: nat)
    requires i < |x.v.unread|
    ensures Reading(x, i).v.unread != [] && Reading(x, i).v.unread[0] == x.v.unread[i]
    ensures Reading(x, i + 1).v == Reading(x, i).v.(unread := Reading(x, i).v.unread[1..])
    ensures Reading(x, i + 1).n == match Decode(x.v.unread[i])
      case None => Reading(x, i).n
      case Some(m) => HearAnnouncement(Reading(x, i).n, Transmission(x.v.rxPhase, m))
  {
    var ms, phase := x.v.unread, x.v.rxPhase;
    assert ms[..i + 1][..i] == ms[..i];
    var before, now := ReadAs(ms[..i], phase), ReadAs(ms[..i + 1], phase);
    if Decode(ms[i]).Some? {
      assert now[..|now| - 1] == before;
    } else {
      assert now == before;
    }
  }

  /** Takes the next message of the RX buffer, if there is one: message `i` of those that were unread. */
  method ConsiderNext(st: MultihopState, candidates: ClusterheadCandidates, tx: Station, round: nat, elected: bool,
                      pending: bool, ghost x: Party, ghost i: nat)
    returns (more: bool, elected': bool, pending': bool)
    requires tx.Valid() && Separate(st, candidates, tx) && i <= |x.v.unread|
    requires Tracks(Reading(x, i), st, candidates, tx, round, elected, pending)
    modifies tx.link`rxCursor, tx.link`rxMsgNum, candidates.addresses, candidates.rings, candidates.scores
    ensures tx.Valid() && (more <==> i < |x.v.unread|)
    ensures Tracks(Reading(x, if more then i + 1 else i), st, candidates, tx, round, elected', pending')
  {
    elected', pending' := elected, pending;
    if i < |x.v.unread| { ReadingNext(x, i); }
    var m;
    more, m := tx.Next();
    if more && m.Some? {
      elected', pending' := ConsiderAnnouncement(st, candidates, tx, round, elected, pending, m.value,
                                                 Transmission(x.v.rxPhase, m.value),
                                                 Party(Reading(x, i).n, Reading(x, i + 1).v));
    }
  }

  /** The loop over the messages of the RX buffer. */
  method ConsiderAnnouncements(st: MultihopState, candidates: ClusterheadCandidates, tx: Station, round: nat,
                               elected: bool, pending: bool,
                               ghost x: Party)
    returns (elected': bool, pending': bool)
    requires tx.Valid() && Separate(st, candidates, tx) && Tracks(x, st, candidates, tx, round, elected, pending)
    modifies tx.link`rxCursor, tx.link`rxMsgNum, candidates.addresses, candidates.rings, candidates.scores
    ensures tx.Valid()
    ensures Tracks(Reading(x, |x.v.unread|), st, candidates, tx, round, elected', pending')
  {
    elected', pending' := elected, pending;
    ghost var i := 0;
    var more := true;
    assert Reading(x, 0) == x;
    while more
      invariant tx.Valid() && i <= |x.v.unread| && (more || i == |x.v.unread|)
      invariant Tracks(Reading(x, i), st, candidates, tx, round, elected', pending')
      decreases |x.v.unread| - i, more
    {
      more, elected', pending' := ConsiderNext(st, candidates, tx, round, elected', pending', x, i);
      if more { i := i + 1; }
    }
  }

  lemma AnnounceStepReads(p: Setup, x: Party, e: AnnounceEnv)
    requires p.tm.Valid()
    ensures AnnounceStep(p, x, e) == Reading(Opened(p, x, e), |Opened(p, x, e).v.unread|)
  {
    var y := Opened(p, x, e);
    assert y.v.unread[..|y.v.unread|] == y.v.unread;
  }

  /** The announcement, if it is pending and due. */
  method OpenIfDue(st: MultihopState, candidates: ClusterheadCandidates, tx: Station, round: nat, elected: bool,
                   pending: bool, e: AnnounceEnv, ghost x: Party)
    returns (pending': bool)
    requires tx.Valid() && Separate(st, candidates, tx) && Tracks(x, st, candidates, tx, round, elected, pending)
    requires InRange(tx.link.clock.mac, e.moment.at)
    modifies tx`frames, tx.link`queue, tx.link`txBytesQueued, tx.link`txMsgCount, tx.link.txBuf, tx.link.clock
    ensures tx.Valid()
    ensures Tracks(if pending && e.due then OpenAndFlush(tx.Params(), x, e.now, e.moment) else x,
                   st, candidates, tx, round, elected, pending')
  {
    pending' := pending;
    if pending && e.due {
      pending' := OpenClusterAndFlush(st, tx, round, e.now, e.moment, x);
    }
  }

  /** `recv` in a loop: only the RX side and the clock change. */
  method ReceiveFor(st: MultihopState, candidates: ClusterheadCandidates, tx: Station, r: Reception, ghost x: Party)
    requires tx.Valid() && Separate(st, candidates, tx) && HoldsParty(x, st, tx)
    requires x.n.c.candidates == candidates.View()
    requires InRange(tx.link.clock.mac, r.at) && Readable(r.radio, tx.link.rxBuf.Length)
    modifies tx`rxPhase, tx.link`rxCursor, tx.link`rxMsgNum, tx.link.rxBuf, tx.link.clock
    ensures tx.Valid() && HoldsParty(x.(v := ReceiveAt(tx.Params(), x.v, r)), st, tx)
    ensures x.n.c.candidates == candidates.View()
  {
    var _ := tx.Receive(r);
  }

  method ReceiveAndOpen(st: MultihopState, candidates: ClusterheadCandidates, tx: Station, round: nat, elected: bool,
                        pending: bool, e: AnnounceEnv, ghost x: Party)
    returns (pending': bool)
    requires tx.Valid() && Separate(st, candidates, tx) && Tracks(x, st, candidates, tx, round, elected, pending)
    requires InTime(tx.link.clock.mac, e.moment.at, e.reception, tx.link.rxBuf.Length)
    modifies tx, tx.link`queue, tx.link`txBytesQueued, tx.link`txMsgCount, tx.link`rxCursor, tx.link`rxMsgNum
    modifies tx.link.txBuf, tx.link.rxBuf, tx.link.clock
    ensures tx.Valid() && Tracks(Opened(tx.Params(), x, e), st, candidates, tx, round, elected, pending')
  {
    ReceiveFor(st, candidates, tx, e.reception, x);
    pending' :=
      OpenIfDue(st, candidates, tx, round, elected, pending, e, x.(v := ReceiveAt(tx.Params(), x.v, e.reception)));
  }

  /** One turn of the loop: receive, announce if it is due, then process what was received. */
  method AnnouncementTurn(st: MultihopState, candidates: ClusterheadCandidates, tx: Station, round: nat, elected: bool,
                          pending: bool, e: AnnounceEnv, ghost x: Party)
    returns (elected': bool, pending': bool)
    requires tx.Valid() && Separate(st, candidates, tx) && Tracks(x, st, candidates, tx, round, elected, pending)
    requires InTime(tx.link.clock.mac, e.moment.at, e.reception, tx.link.rxBuf.Length)
    modifies tx, tx.link`queue, tx.link`txBytesQueued, tx.link`txMsgCount, tx.link`rxCursor, tx.link`rxMsgNum
    modifies tx.link.txBuf, tx.link.rxBuf, tx.link.clock, candidates.addresses, candidates.rings, candidates.scores
    ensures tx.Valid() && Tracks(AnnounceStep(tx.Params(), x, e), st, candidates, tx, round, elected', pending')
  {
    AnnounceStepReads(tx.Params(), x, e);
    pending' := ReceiveAndOpen(st, candidates, tx, round, elected, pending, e, x);
    elected', pending' :=
      ConsiderAnnouncements(st, candidates, tx, round, elected, pending', Opened(tx.Params(), x, e));
  }

  predicate AnnounceInTime(mac: MacParams, es: seq<AnnounceEnv>, size: nat) {
    forall i | 0 <= i < |es| :: InTime(mac, es[i].moment.at, es[i].reception, size)
  }

  /** A node takes the clusterhead role, unless it is the gateway, and starts with an empty slot table. */
  method Promote(mac: MacParams, st: MultihopState)
    requires st.Valid() && Roomy(mac, st.View())
    modifies st`role, st`slotsAssigned, st`downstreamStartSlot, st.acks, st.slotAssignments
    ensures st.View()
      == Prepared(mac, old(st.View()).(role := if old(st.role) == Gateway then Gateway else Clusterhead))
  {
    if st.role != Gateway { st.role := Clusterhead; }
    PrepareClusterhead(mac, st);
  }

  lemma StandingFor(mac: MacParams, n: Node, draw: Byte)
    requires CanAccept(mac, n.s)
    ensures var wins := n.s.rings.ring as nat == n.c.phase.round && (n.s.role == Gateway || Volunteers(n.s, draw));
      && StartAnnouncing(mac, n, draw).c.elected == wins
      && StartAnnouncing(mac, n, draw).s == if wins && !n.c.isClusterhead
           then Prepared(mac, n.s.(role := if n.s.role == Gateway then Gateway else Clusterhead)) else n.s
  {
  }

  /** The part of `run_clusterhead_announcement` before its loop. */
  method StandForElection(mac: MacParams, st: MultihopState, round: nat, earlier: bool, draw: Byte, ghost n: Node)
    returns (isClusterhead: bool)
    requires st.Valid() && n.s == st.View() && CanAccept(mac, n.s) && n.c.phase == Ready(round)
    requires n.c.isClusterhead == earlier
    modifies st`role, st`slotsAssigned, st`downstreamStartSlot, st.acks, st.slotAssignments
    ensures st.View() == StartAnnouncing(mac, n, draw).s && isClusterhead == StartAnnouncing(mac, n, draw).c.elected
  {
    StandingFor(mac, n, draw);
    isClusterhead := false;
    if st.ring as nat == round {
      var volunteers := AnnounceClusterhead(st, draw);
      isClusterhead := st.role == Gateway || volunteers;
    }
    if isClusterhead && !earlier { Promote(mac, st); }
  }

  /** The announcement phase of a round. */
  function AnnouncementPhase(mac: MacParams, p: Setup, x: Party, draw: Byte, es: seq<AnnounceEnv>): Party
    requires CanAccept(mac, x.n.s) && p.tm.Valid()
  {
    AnnounceSteps(p, x.(n := StartAnnouncing(mac, x.n, draw)), es)
  }

  method AnnouncementLoop(st: MultihopState, candidates: ClusterheadCandidates, tx: Station, round: nat, elected: bool,
                          needed: bool, es: seq<AnnounceEnv>, ghost x: Party)
    returns (isClusterhead: bool, needToAnnounce: bool)
    requires tx.Valid() && Separate(st, candidates, tx) && Tracks(x, st, candidates, tx, round, elected, needed)
    requires AnnounceInTime(tx.link.clock.mac, es, tx.link.rxBuf.Length)
    modifies tx, tx.link`queue, tx.link`txBytesQueued, tx.link`txMsgCount, tx.link`rxCursor, tx.link`rxMsgNum
    modifies tx.link.txBuf, tx.link.rxBuf, tx.link.clock, candidates.addresses, candidates.rings, candidates.scores
    ensures tx.Valid()
    ensures Tracks(AnnounceSteps(tx.Params(), x, es), st, candidates, tx, round, isClusterhead, needToAnnounce)
  {
    ghost var p := tx.Params();
    isClusterhead, needToAnnounce := elected, needed;
    var i := 0;
    while i < |es|
      invariant i <= |es| && tx.Valid()
      invariant Tracks(AnnounceSteps(p, x, es[..i]), st, candidates, tx, round, isClusterhead, needToAnnounce)
    {
      assert es[..i + 1][..i] == es[..i];
      isClusterhead, needToAnnounce :=
        AnnouncementTurn(st, candidates, tx, round, isClusterhead, needToAnnounce, es[i], AnnounceSteps(p, x, es[..i]));
      i := i + 1;
    }
    assert es[..i] == es;
  }

  /** Whether the node is a clusterhead at the end of its announcement phase, and whom it could follow. */
  method RunClusterheadAnnouncement(st: MultihopState, candidates: ClusterheadCandidates, tx: Station,
                                    round: nat, earlier: bool, draw: Byte, es: seq<AnnounceEnv>, ghost x: Party)
    returns (isClusterhead: bool, ghost pending: bool)
    requires tx.Valid() && Separate(st, candidates, tx) && HoldsParty(x, st, tx) && CanAccept(tx.link.clock.mac, x.n.s)
    requires x.n.c.phase == Ready(round) && x.n.c.isClusterhead == earlier
    requires AnnounceInTime(tx.link.clock.mac, es, tx.link.rxBuf.Length)
    modifies st`role, st`slotsAssigned, st`downstreamStartSlot, st.acks, st.slotAssignments
    modifies tx, tx.link`queue, tx.link`txBytesQueued, tx.link`txMsgCount, tx.link`rxCursor, tx.link`rxMsgNum
    modifies tx.link.txBuf, tx.link.rxBuf, tx.link.clock, candidates.addresses, candidates.rings, candidates.scores
    ensures tx.Valid()
    ensures Tracks(AnnouncementPhase(tx.link.clock.mac, tx.Params(), x, draw, es), st, candidates, tx, round,
                   isClusterhead, pending)
  {
    ghost var start := x.(n := StartAnnouncing(tx.link.clock.mac, x.n, draw));
    isClusterhead := StandForElection(tx.link.clock.mac, st, round, earlier, draw, x.n);
    var needToAnnounce := isClusterhead && !earlier;
    candidates.Reset();
    isClusterhead, pending := AnnouncementLoop(st, candidates, tx, round, isClusterhead, needToAnnounce, es, start);
  }
}
