/** The loop of `run_clusterhead_joining`, in place on the node's objects (multihop.cpp). */
module JoinLoop {
  import opened Bytes
  import opened Messages
  import opened SlotClock
  import opened State
  import opened Cluster
  import opened Candidates
  import opened Rounds
  import opened Stations
  import opened Loops

  /** A message that arrives while joining, with the time and the random byte at its arrival, and what the link
      layer answers when the node answers. */
  datatype Arrival = Arrival(t: Transmission, now: U32, draw: Byte, fits: bool, sent: bool)

  /** One turn of the joining loop: is following due, and what arrives. */
  datatype JoinTurn = JoinTurn(due: bool, now: U32, fits: bool, sent: bool, heard: seq<Arrival>)

  function HearArrival(mac: MacParams, n: Node, a: Arrival): (n': Node)
    requires CanAccept(mac, n.s)
    ensures CanAccept(mac, n'.s)
  {
    HearWhileJoining(mac, n, a.t.message, a.now, a.draw, a.fits, a.sent)
  }

  function HearArrivals(mac: MacParams, n: Node, ars: seq<Arrival>): (n': Node)
    requires CanAccept(mac, n.s)
    ensures CanAccept(mac, n'.s)
    decreases |ars|
  {
    if ars == [] then n else HearArrivals(mac, HearArrival(mac, n, ars[0]), ars[1..])
  }

  function JoinOnce(mac: MacParams, n: Node, t: JoinTurn): (n': Node)
    requires CanAccept(mac, n.s)
    ensures CanAccept(mac, n'.s)
  {
    HearArrivals(mac, if n.c.tryToFollow && t.due then FollowTarget(n, t.now, t.fits, t.sent) else n, t.heard)
  }

  function JoinTurns(mac: MacParams, n: Node, ts: seq<JoinTurn>): (n': Node)
    requires CanAccept(mac, n.s)
    ensures CanAccept(mac, n'.s)
  {
    if ts == [] then n else JoinOnce(mac, JoinTurns(mac, n, ts[..|ts| - 1]), ts[|ts| - 1])
  }

  // ---- The node with the link layer ------------------------------------------------------------------

  /** What is given at the arrival of a message. */
  datatype AnswerEnv = AnswerEnv(now: U32, draw: Byte, moment: Moment)

  const NO_ANSWER := AnswerEnv(0, 0, Moment(0, 0, false))

  function AnswerAt(answers: seq<AnswerEnv>, k: nat): AnswerEnv { if k < |answers| then answers[k] else NO_ANSWER }

  /** What is given for a turn; `answers` belongs to its messages in order. */
  datatype JoinEnv = JoinEnv(reception: Reception, due: bool, now: U32, moment: Moment, answers: seq<AnswerEnv>)

  function Following(n: Node, now: U32): (m: Message)
    ensures WellFormed(m) && !EmptyAcks(m)
  {
    Message(now, n.s.address, Follow(n.c.target, n.s.address))
  }

  function FollowStep(p: Setup, x: Party, now: U32, moment: Moment): Party
    requires p.tm.Valid()
  {
    var m := Following(x.n, now);
    Party(FollowTarget(x.n, now, Fits(p, x.v.queue, m), Flushes(p, SendTo(p, x.v, m), moment)),
          if x.n.c.target == UNKNOWN_ADDR then x.v else FlushAt(p, SendTo(p, x.v, m), x.n.c.phase, moment))
  }

  function Accepting(mac: MacParams, n: Node, follower: Address, now: U32): (m: Message)
    requires CanAccept(mac, n.s)
    ensures WellFormed(m) && !EmptyAcks(m)
  {
    Message(now, n.s.address, AcceptBody(mac, n.s, follower, now))
  }

  /** The arrival with what followed. */
  function ArrivalOf(mac: MacParams, p: Setup, x: Party, m: Message, a: AnswerEnv): Arrival
    requires CanAccept(mac, x.n.s) && p.tm.Valid()
  {
    var reply := Accepting(mac, x.n, m.src, a.now);
    Arrival(Transmission(x.v.rxPhase, m), a.now, a.draw, Fits(p, x.v.queue, reply),
            Flushes(p, SendTo(p, x.v, reply), a.moment))
  }

  function ArrivalStep(mac: MacParams, p: Setup, x: Party, m: Message, a: AnswerEnv): (x': Party)
    requires CanAccept(mac, x.n.s) && p.tm.Valid()
    ensures CanAccept(mac, x'.n.s) && x'.v.unread == x.v.unread && x'.v.rxPhase == x.v.rxPhase
  {
    Party(HearArrival(mac, x.n, ArrivalOf(mac, p, x, m, a)),
          if AsksMe(x.n, m) then FlushAt(p, SendTo(p, x.v, Accepting(mac, x.n, m.src, a.now)), x.n.c.phase, a.moment)
          else x.v)
  }

  predicate RefusesMe(n: Node, m: Message) { !AsksMe(n, m) && AnswersMe(n, m) && !m.body.accepted }

  /** The party with the first message of the RX buffer taken out. */
  function Taken(x: Party): (x': Party)
    requires x.v.unread != []
  {
    x.(v := x.v.(unread := x.v.unread[1..]))
  }

  /** The turn stops at a message that does not decode, and behind a refusal. */
  function ReadStep(mac: MacParams, p: Setup, x: Party, answers: seq<AnswerEnv>, k: nat): (Party, bool)
    requires CanAccept(mac, x.n.s) && p.tm.Valid() && x.v.unread != []
  {
    match Decode(x.v.unread[0])
    case None => (Taken(x), true)
    case Some(m) => (ArrivalStep(mac, p, Taken(x), m, AnswerAt(answers, k)), RefusesMe(x.n, m))
  }

  function ReadSteps(mac: MacParams, p: Setup, x: Party, answers: seq<AnswerEnv>, k: nat): (x': Party)
    requires CanAccept(mac, x.n.s) && p.tm.Valid()
    ensures CanAccept(mac, x'.n.s)
    decreases |x.v.unread|
  {
    if x.v.unread == [] then x
    else
      var (next, stop) := ReadStep(mac, p, x, answers, k);
      if stop then next else ReadSteps(mac, p, next, answers, k + 1)
  }

  function ArrivalsOf(mac: MacParams, p: Setup, x: Party, answers: seq<AnswerEnv>, k: nat): (ars: seq<Arrival>)
    requires CanAccept(mac, x.n.s) && p.tm.Valid()
    decreases |x.v.unread|
  {
    if x.v.unread == [] || Decode(x.v.unread[0]).None? then []
    else
      var first := [ArrivalOf(mac, p, Taken(x), Decode(x.v.unread[0]).value, AnswerAt(answers, k))];
      var (next, stop) := ReadStep(mac, p, x, answers, k);
      if stop then first else first + ArrivalsOf(mac, p, next, answers, k + 1)
  }

  function JoinStep(mac: MacParams, p: Setup, x: Party, e: JoinEnv): (x': Party)
    requires CanAccept(mac, x.n.s) && p.tm.Valid()
    ensures CanAccept(mac, x'.n.s)
  {
    ReadSteps(mac, p, Asked(p, x, e), e.answers, 0)
  }

  /** The party when it has asked its target, if that is due, and received. */
  function Asked(p: Setup, x: Party, e: JoinEnv): (x': Party)
    requires p.tm.Valid()
    ensures x'.n.s == x.n.s
  {
    var y := if x.n.c.tryToFollow && e.due then FollowStep(p, x, e.now, e.moment) else x;
    y.(v := ReceiveAt(p, y.v, e.reception))
  }

  function JoinSteps(mac: MacParams, p: Setup, x: Party, es: seq<JoinEnv>): (x': Party)
    requires CanAccept(mac, x.n.s) && p.tm.Valid()
    ensures CanAccept(mac, x'.n.s)
  {
    if es == [] then x else JoinStep(mac, p, JoinSteps(mac, p, x, es[..|es| - 1]), es[|es| - 1])
  }

  function JoinTurnOf(mac: MacParams, p: Setup, x: Party, e: JoinEnv): JoinTurn
    requires CanAccept(mac, x.n.s) && p.tm.Valid()
  {
    var m := Following(x.n, e.now);
    JoinTurn(e.due, e.now, Fits(p, x.v.queue, m), Flushes(p, SendTo(p, x.v, m), e.moment),
             ArrivalsOf(mac, p, Asked(p, x, e), e.answers, 0))
  }

  function JoinTurnsOf(mac: MacParams, p: Setup, x: Party, es: seq<JoinEnv>): (ts: seq<JoinTurn>)
    requires CanAccept(mac, x.n.s) && p.tm.Valid()
    ensures |ts| == |es|
  {
    if es == [] then []
    else
      var init := es[..|es| - 1];
      JoinTurnsOf(mac, p, x, init) + [JoinTurnOf(mac, p, JoinSteps(mac, p, x, init), es[|es| - 1])]
  }

  lemma {:induction false} ReadStepsAreArrivals(mac: MacParams, p: Setup, x: Party, answers: seq<AnswerEnv>, k: nat)
    requires CanAccept(mac, x.n.s) && p.tm.Valid()
    ensures ReadSteps(mac, p, x, answers, k).n == HearArrivals(mac, x.n, ArrivalsOf(mac, p, x, answers, k))
    decreases |x.v.unread|
  {
    if x.v.unread != [] && Decode(x.v.unread[0]).Some? {
      var (next, stop) := ReadStep(mac, p, x, answers, k);
      var ars := ArrivalsOf(mac, p, x, answers, k);
      if stop {
        assert ars[1..] == [];
      } else {
        ReadStepsAreArrivals(mac, p, next, answers, k + 1);
        assert ars[1..] == ArrivalsOf(mac, p, next, answers, k + 1);
      }
    }
  }

  lemma {:induction false} JoinStepsAreTurns(mac: MacParams, p: Setup, x: Party, es: seq<JoinEnv>)
    requires CanAccept(mac, x.n.s) && p.tm.Valid()
    ensures JoinSteps(mac, p, x, es).n == JoinTurns(mac, x.n, JoinTurnsOf(mac, p, x, es))
  {
    if es != [] {
      var init, e := es[..|es| - 1], es[|es| - 1];
      JoinStepsAreTurns(mac, p, x, init);
      var ts := JoinTurnsOf(mac, p, x, es);
      assert ts[..|ts| - 1] == JoinTurnsOf(mac, p, x, init);
      ReadStepsAreArrivals(mac, p, Asked(p, JoinSteps(mac, p, x, init), e), e.answers, 0);
    }
  }

  // ---- Coupling --------------------------------------------------------------------------------------

  lemma FollowKeepsCoupled(p: Setup, x: Party, now: U32, moment: Moment)
    requires p.tm.Valid() && Coupled(x)
    ensures Coupled(FollowStep(p, x, now, moment))
  {
    if x.n.c.target != UNKNOWN_ADDR {
      var m := Following(x.n, now);
      SendKeepsCoupled(p, x, m.body, now);
      FlushKeepsCoupled(p, Party(Queued(x.n, m.body, now, Fits(p, x.v.queue, m)), SendTo(p, x.v, m)), moment);
    }
  }

  lemma ArrivalKeepsCoupled(mac: MacParams, p: Setup, x: Party, m: Message, a: AnswerEnv)
    requires CanAccept(mac, x.n.s) && p.tm.Valid() && Coupled(x)
    ensures Coupled(ArrivalStep(mac, p, x, m, a))
  {
    if AsksMe(x.n, m) {
      var reply := Accepting(mac, x.n, m.src, a.now);
      var granted := x.(n := GrantTo(mac, x.n, m.src));
      SendKeepsCoupled(p, granted, reply.body, a.now);
      var queued := Party(Queued(granted.n, reply.body, a.now, Fits(p, x.v.queue, reply)), SendTo(p, x.v, reply));
      FlushKeepsCoupled(p, queued, a.moment);
    }
  }

  lemma {:induction false} ReadingKeepsCoupled(mac: MacParams, p: Setup, x: Party, answers: seq<AnswerEnv>, k: nat)
    requires CanAccept(mac, x.n.s) && p.tm.Valid() && Coupled(x)
    ensures Coupled(ReadSteps(mac, p, x, answers, k))
    decreases |x.v.unread|
  {
    if x.v.unread != [] {
      var (next, stop) := ReadStep(mac, p, x, answers, k);
      if Decode(x.v.unread[0]).Some? {
        ArrivalKeepsCoupled(mac, p, Taken(x), Decode(x.v.unread[0]).value, AnswerAt(answers, k));
      }
      if !stop { ReadingKeepsCoupled(mac, p, next, answers, k + 1); }
    }
  }

  lemma {:induction false} JoiningKeepsCoupled(mac: MacParams, p: Setup, x: Party, es: seq<JoinEnv>)
    requires CanAccept(mac, x.n.s) && p.tm.Valid() && Coupled(x)
    ensures Coupled(JoinSteps(mac, p, x, es))
  {
    if es != [] {
      var init, e := es[..|es| - 1], es[|es| - 1];
      JoiningKeepsCoupled(mac, p, x, init);
      var y := JoinSteps(mac, p, x, init);
      if y.n.c.tryToFollow && e.due { FollowKeepsCoupled(p, y, e.now, e.moment); }
      ReadingKeepsCoupled(mac, p, Asked(p, y, e), e.answers, 0);
    }
  }

  // ---- The objects -----------------------------------------------------------------------------------

  /** The local variables of `run_clusterhead_joining` that change. */
  datatype Joiner = Joiner(target: Address, targetRing: Ring, tryToFollow: bool, joined: bool, triedSecond: bool)

  function JoinerOf(c: Control): Joiner { Joiner(c.target, c.targetRing, c.tryToFollow, c.joined, c.triedSecond) }

  ghost predicate TracksJoin(x: Party, st: MultihopState, candidates: ClusterheadCandidates, tx: Station,
                             round: nat, isClusterhead: bool, eligible: bool, j: Joiner)
    requires candidates.Valid()
    reads st, st.counts, st.slotAssignments, st.acks, candidates.addresses, candidates.rings, candidates.scores
    reads tx, tx.link`queue, tx.link`rxCursor, tx.link`rxMsgNum, tx.link.rxBuf, tx.link.clock
  {
    && HoldsParty(x, st, tx) && x.n.c.candidates == candidates.View() && x.n.c.phase == Joining(round)
    && x.n.c.isClusterhead == isClusterhead && x.n.c.eligible == eligible && JoinerOf(x.n.c) == j
  }

  lemma FollowedParts(p: Setup, x: Party, now: U32, moment: Moment)
    requires p.tm.Valid()
    ensures var y := FollowStep(p, x, now, moment);
      && y.n.s == x.n.s && y.n.c == x.n.c.(tryToFollow := false)
      && y.v == if x.n.c.target == UNKNOWN_ADDR then x.v
        else FlushAt(p, SendTo(p, x.v, Following(x.n, now)), x.n.c.phase, moment)
  {
  }

  /** `follow` and `flush`, if there is somebody to follow. */
  method FollowAndFlush(st: MultihopState, tx: Station, round: nat, target: Address, now: U32, moment: Moment,
                        ghost x: Party)
    requires tx.Valid() && Disjoint(st, tx) && InRange(tx.link.clock.mac, moment.at)
    requires HoldsParty(x, st, tx) && x.n.c.phase == Joining(round) && x.n.c.target == target
    modifies tx`frames, tx.link`queue, tx.link`txBytesQueued, tx.link`txMsgCount, tx.link.txBuf, tx.link.clock
    ensures tx.Valid() && HoldsParty(FollowStep(tx.Params(), x, now, moment), st, tx)
  {
    ghost var p := tx.Params();
    FollowedParts(p, x, now, moment);
    if target != UNKNOWN_ADDR {
      var m := Message(now, st.address, Follow(target, st.address));
      assert m == Following(x.n, now);
      var fits := tx.Send(m);
      var sent := tx.Flush(Joining(round), moment);
    }
  }

  lemma AnsweredParts(mac: MacParams, p: Setup, x: Party, m: Message, a: AnswerEnv)
    requires CanAccept(mac, x.n.s) && p.tm.Valid() && AsksMe(x.n, m)
    ensures var y := ArrivalStep(mac, p, x, m, a);
      && y.n.s == Accepted(mac, x.n.s, m.src) && y.n.c == x.n.c
      && y.v == FlushAt(p, SendTo(p, x.v, Accepting(mac, x.n, m.src, a.now)), x.n.c.phase, a.moment)
  {
  }

  /** `accept` and `flush`. */
  method AcceptAndFlush(st: MultihopState, tx: Station, round: nat, m: Message, a: AnswerEnv, ghost x: Party)
    requires tx.Valid() && Disjoint(st, tx) && InRange(tx.link.clock.mac, a.moment.at)
    requires HoldsParty(x, st, tx) && x.n.c.phase == Joining(round) && CanAccept(tx.link.clock.mac, x.n.s)
    requires AsksMe(x.n, m)
    modifies tx`frames, tx.link`queue, tx.link`txBytesQueued, tx.link`txMsgCount, tx.link.txBuf, tx.link.clock
    modifies st`slotsAssigned, st.slotAssignments
    ensures tx.Valid() && HoldsParty(ArrivalStep(tx.link.clock.mac, tx.Params(), x, m, a), st, tx)
  {
    ghost var p, mac := tx.Params(), tx.link.clock.mac;
    AnsweredParts(mac, p, x, m, a);
    var body := AcceptFollower(tx.link.clock.mac, st, m.src, a.now);
    var reply := Message(a.now, st.address, body);
    assert reply == Accepting(mac, x.n, m.src, a.now);
    assert tx.View() == x.v;
    var fits := tx.Send(reply);
    var sent := tx.Flush(Joining(round), a.moment);
  }

  method Attach(mac: MacParams, st: MultihopState, j: Joiner, start: Byte, relative: Byte, ghost n: Node)
    requires st.Valid() && CanAccept(mac, st.View()) && n.s == st.View() && JoinerOf(n.c) == j
    modifies st`clusterheadRing, st`clusterheadAddr, st`upstreamStartSlot, st`upstreamRelativeSlot, st`upstreamAckSlot
    ensures st.View() == Attached(mac, n, start, relative)
  {
    st.clusterheadRing, st.clusterheadAddr := j.targetRing, j.target;
    st.upstreamStartSlot, st.upstreamRelativeSlot := start, relative;
    st.upstreamAckSlot := AckSlot(mac, start);
  }

  /** The node attaches itself to its target, and takes the clusterhead role if it has none and draws it. */
  method JoinCluster(mac: MacParams, st: MultihopState, j: Joiner, start: Byte, relative: Byte, draw: Byte,
                     ghost n: Node)
    requires st.Valid() && CanAccept(mac, st.View()) && n.s == st.View() && JoinerOf(n.c) == j
    modifies st`role, st`slotsAssigned, st`downstreamStartSlot, st.acks, st.slotAssignments
    modifies st`clusterheadRing, st`clusterheadAddr, st`upstreamStartSlot, st`upstreamRelativeSlot, st`upstreamAckSlot
    ensures st.View() == Join(mac, n, start, relative, draw).s
  {
    Attach(mac, st, j, start, relative, n);
    if st.role != Gateway && st.role != Clusterhead {
      var volunteers := AnnounceClusterhead(st, draw);
      if volunteers { Promote(mac, st); }
    }
  }

  lemma SecondTarget(n: Node, aim: (Address, Ring))
    requires aim == Aim(n.s.rings.ring, n.c.candidates.second)
    ensures JoinerOf(TrySecond(n).c) == if n.c.triedSecond then JoinerOf(n.c)
      else Joiner(aim.0, aim.1, n.c.tryToFollow || aim.0 != UNKNOWN_ADDR, n.c.joined, true)
  {
  }

  /** The second candidate becomes the target, once. */
  method TargetSecond(st: MultihopState, candidates: ClusterheadCandidates, j: Joiner, ghost n: Node)
    returns (j': Joiner)
    requires st.Valid() && candidates.Valid() && st.ring == n.s.rings.ring && n.c.candidates == candidates.View()
    requires JoinerOf(n.c) == j
    ensures j' == JoinerOf(TrySecond(n).c)
  {
    j' := j;
    if !j.triedSecond {
      var target, targetRing := candidates.Second();
      if st.ring != UNKNOWN_RING && targetRing >= st.ring { target, targetRing := UNKNOWN_ADDR, UNKNOWN_RING; }
      j' := Joiner(target, targetRing, j.tryToFollow || target != UNKNOWN_ADDR, j.joined, true);
    }
    SecondTarget(n, Aim(n.s.rings.ring, n.c.candidates.second));
  }

  /** The answer to the node's own Follow. */
  method ProcessAnswer(mac: MacParams, st: MultihopState, candidates: ClusterheadCandidates, j: Joiner, m: Message,
                       draw: Byte, ghost n: Node)
    returns (j': Joiner)
    requires st.Valid() && candidates.Valid() && CanAccept(mac, n.s) && m.body.Accept?
    requires n.s == st.View() && n.c.candidates == candidates.View() && JoinerOf(n.c) == j
    modifies st`role, st`slotsAssigned, st`downstreamStartSlot, st.acks, st.slotAssignments
    modifies st`clusterheadRing, st`clusterheadAddr, st`upstreamStartSlot, st`upstreamRelativeSlot, st`upstreamAckSlot
    ensures var n' := if m.body.accepted then Join(mac, n, m.body.startSlot, m.body.relativeSlot, draw)
      else TrySecond(n);
      st.View() == n'.s && j' == JoinerOf(n'.c)
  {
    if m.body.accepted {
      JoinCluster(mac, st, j, m.body.startSlot, m.body.relativeSlot, draw, n);
      j' := j.(joined := true);
    } else {
      j' := TargetSecond(st, candidates, j, n);
    }
  }

  lemma ProcessedParts(mac: MacParams, p: Setup, x: Party, m: Message, a: AnswerEnv)
    requires CanAccept(mac, x.n.s) && p.tm.Valid() && !AsksMe(x.n, m)
    ensures var y := ArrivalStep(mac, p, x, m, a);
      y == x.(n := if !AnswersMe(x.n, m) then x.n
                   else if m.body.accepted then Join(mac, x.n, m.body.startSlot, m.body.relativeSlot, a.draw)
                   else TrySecond(x.n))
  {
  }

  lemma RestOfControl(mac: MacParams, n: Node, start: Byte, relative: Byte, draw: Byte)
    requires CanAccept(mac, n.s)
    ensures Join(mac, n, start, relative, draw).c == n.c.(joined := true)
    ensures var c := TrySecond(n).c;
      c.phase == n.c.phase && c.isClusterhead == n.c.isClusterhead && c.eligible == n.c.eligible
        && c.candidates == n.c.candidates
  {
  }

  /** A follower's request. */
  method ProcessRequest(st: MultihopState, candidates: ClusterheadCandidates, tx: Station, round: nat,
                        isClusterhead: bool, eligible: bool, j: Joiner, m: Message, a: AnswerEnv, ghost x: Party)
    requires tx.Valid() && Separate(st, candidates, tx) && CanAccept(tx.link.clock.mac, x.n.s)
    requires InRange(tx.link.clock.mac, a.moment.at)
    requires TracksJoin(x, st, candidates, tx, round, isClusterhead, eligible, j) && AsksMe(x.n, m)
    modifies tx`frames, tx.link`queue, tx.link`txBytesQueued, tx.link`txMsgCount, tx.link.txBuf, tx.link.clock
    modifies st`slotsAssigned, st.slotAssignments
    ensures tx.Valid()
    ensures TracksJoin(ArrivalStep(tx.link.clock.mac, tx.Params(), x, m, a), st, candidates, tx, round, isClusterhead,
                       eligible, j)
  {
    AnsweredParts(tx.link.clock.mac, tx.Params(), x, m, a);
    AcceptAndFlush(st, tx, round, m, a, x);
  }

  /** The answer to the node's own request; it touches nothing of the link layer. */
  method ProcessOwnAnswer(st: MultihopState, candidates: ClusterheadCandidates, tx: Station, round: nat,
                          isClusterhead: bool, eligible: bool, j: Joiner, m: Message, a: AnswerEnv, ghost x: Party)
    returns (j': Joiner)
    requires tx.Valid() && Separate(st, candidates, tx) && CanAccept(tx.link.clock.mac, x.n.s)
    requires TracksJoin(x, st, candidates, tx, round, isClusterhead, eligible, j) && AnswersMe(x.n, m)
    modifies st`role, st`slotsAssigned, st`downstreamStartSlot, st.acks, st.slotAssignments
    modifies st`clusterheadRing, st`clusterheadAddr, st`upstreamStartSlot, st`upstreamRelativeSlot, st`upstreamAckSlot
    ensures tx.Valid()
    ensures TracksJoin(ArrivalStep(tx.link.clock.mac, tx.Params(), x, m, a), st, candidates, tx, round, isClusterhead,
                       eligible, j')
  {
    ghost var mac, p := tx.link.clock.mac, tx.Params();
    ProcessedParts(mac, p, x, m, a);
    RestOfControl(mac, x.n, m.body.startSlot, m.body.relativeSlot, a.draw);
    j' := ProcessAnswer(tx.link.clock.mac, st, candidates, j, m, a.draw, x.n);
    assert tx.View() == x.v;
  }

  /** One message that arrives while joining; `refused` ends the turn. */
  method ProcessArrival(st: MultihopState, candidates: ClusterheadCandidates, tx: Station, round: nat,
                        isClusterhead: bool, eligible: bool, j: Joiner, m: Message, a: AnswerEnv, ghost x: Party)
    returns (j': Joiner, refused: bool)
    requires tx.Valid() && Separate(st, candidates, tx) && CanAccept(tx.link.clock.mac, x.n.s)
    requires InRange(tx.link.clock.mac, a.moment.at)
    requires TracksJoin(x, st, candidates, tx, round, isClusterhead, eligible, j)
    modifies tx`frames, tx.link`queue, tx.link`txBytesQueued, tx.link`txMsgCount, tx.link.txBuf, tx.link.clock
    modifies st`role, st`slotsAssigned, st`downstreamStartSlot, st.acks, st.slotAssignments
    modifies st`clusterheadRing, st`clusterheadAddr, st`upstreamStartSlot, st`upstreamRelativeSlot, st`upstreamAckSlot
    ensures tx.Valid() && (refused <==> RefusesMe(x.n, m))
    ensures TracksJoin(ArrivalStep(tx.link.clock.mac, tx.Params(), x, m, a), st, candidates, tx, round, isClusterhead,
                       eligible, j')
  {
    j', refused := j, false;
    if isClusterhead && m.body.Follow? && m.body.clusterhead == st.address {
      ProcessRequest(st, candidates, tx, round, isClusterhead, eligible, j, m, a, x);
    } else if !j.joined && eligible && m.body.Accept? && m.src == j.target && m.body.follower == st.address {
      j' := ProcessOwnAnswer(st, candidates, tx, round, isClusterhead, eligible, j, m, a, x);
      refused := !m.body.accepted;
    } else {
      ProcessedParts(tx.link.clock.mac, tx.Params(), x, m, a);
    }
  }

  predicate AnswersInTime(mac: MacParams, answers: seq<AnswerEnv>) {
    InRange(mac, 0) && forall i | 0 <= i < |answers| :: InRange(mac, answers[i].moment.at)
  }

  method TakeAndProcess(st: MultihopState, candidates: ClusterheadCandidates, tx: Station, round: nat,
                        isClusterhead: bool, eligible: bool, j: Joiner, answers: seq<AnswerEnv>, k: nat, ghost x: Party)
    returns (j': Joiner, more: bool, stop: bool)
    requires tx.Valid() && Separate(st, candidates, tx) && CanAccept(tx.link.clock.mac, x.n.s)
    requires AnswersInTime(tx.link.clock.mac, answers)
    requires TracksJoin(x, st, candidates, tx, round, isClusterhead, eligible, j)
    modifies tx.link`rxCursor, tx.link`rxMsgNum
    modifies tx`frames, tx.link`queue, tx.link`txBytesQueued, tx.link`txMsgCount, tx.link.txBuf, tx.link.clock
    modifies st`role, st`slotsAssigned, st`downstreamStartSlot, st.acks, st.slotAssignments
    modifies st`clusterheadRing, st`clusterheadAddr, st`upstreamStartSlot, st`upstreamRelativeSlot, st`upstreamAckSlot
    ensures tx.Valid() && (more <==> x.v.unread != [])
    ensures !more ==> TracksJoin(x, st, candidates, tx, round, isClusterhead, eligible, j')
    ensures more ==>
      var (next, stops) := ReadStep(tx.link.clock.mac, tx.Params(), x, answers, k);
      stop == stops && TracksJoin(next, st, candidates, tx, round, isClusterhead, eligible, j')
  {
    j', stop := j, true;
    var m;
    more, m := tx.Next();
    if more && m.Some? {
      j', stop :=
        ProcessArrival(st, candidates, tx, round, isClusterhead, eligible, j, m.value, AnswerAt(answers, k), Taken(x));
    }
  }

  /** One unrolling of `ReadSteps`. */
  lemma ReadStepsUnroll(mac: MacParams, p: Setup, x: Party, answers: seq<AnswerEnv>, k: nat)
    requires CanAccept(mac, x.n.s) && p.tm.Valid()
    ensures x.v.unread == [] ==> ReadSteps(mac, p, x, answers, k) == x
    ensures x.v.unread != [] ==>
      var (next, stop) := ReadStep(mac, p, x, answers, k);
      && CanAccept(mac, next.n.s) && |next.v.unread| < |x.v.unread|
      && ReadSteps(mac, p, x, answers, k) == if stop then next else ReadSteps(mac, p, next, answers, k + 1)
  {
  }

  /** Takes the next message out of the RX buffer and processes it. */
  method ProcessNext(st: MultihopState, candidates: ClusterheadCandidates, tx: Station, round: nat,
                     isClusterhead: bool, eligible: bool, j: Joiner, answers: seq<AnswerEnv>, k: nat, ghost x: Party)
    returns (j': Joiner, goOn: bool, ghost next: Party)
    requires tx.Valid() && Separate(st, candidates, tx) && CanAccept(tx.link.clock.mac, x.n.s)
    requires AnswersInTime(tx.link.clock.mac, answers)
    requires TracksJoin(x, st, candidates, tx, round, isClusterhead, eligible, j)
    modifies tx.link`rxCursor, tx.link`rxMsgNum
    modifies tx`frames, tx.link`queue, tx.link`txBytesQueued, tx.link`txMsgCount, tx.link.txBuf, tx.link.clock
    modifies st`role, st`slotsAssigned, st`downstreamStartSlot, st.acks, st.slotAssignments
    modifies st`clusterheadRing, st`clusterheadAddr, st`upstreamStartSlot, st`upstreamRelativeSlot, st`upstreamAckSlot
    ensures tx.Valid() && CanAccept(tx.link.clock.mac, next.n.s)
    ensures |next.v.unread| <= |x.v.unread| && (goOn ==> |next.v.unread| < |x.v.unread|)
    ensures TracksJoin(next, st, candidates, tx, round, isClusterhead, eligible, j')
    ensures ReadSteps(tx.link.clock.mac, tx.Params(), x, answers, k)
         == if goOn then ReadSteps(tx.link.clock.mac, tx.Params(), next, answers, k + 1) else next
  {
    ReadStepsUnroll(tx.link.clock.mac, tx.Params(), x, answers, k);
    var more, stop;
    j', more, stop := TakeAndProcess(st, candidates, tx, round, isClusterhead, eligible, j, answers, k, x);
    goOn := more && !stop;
    next := if more then ReadStep(tx.link.clock.mac, tx.Params(), x, answers, k).0 else x;
  }

  method ProcessArrivals(st: MultihopState, candidates: ClusterheadCandidates, tx: Station, round: nat,
                         isClusterhead: bool, eligible: bool, j: Joiner, answers: seq<AnswerEnv>, ghost x: Party)
    returns (j': Joiner)
    requires tx.Valid() && Separate(st, candidates, tx) && CanAccept(tx.link.clock.mac, x.n.s)
    requires AnswersInTime(tx.link.clock.mac, answers)
    requires TracksJoin(x, st, candidates, tx, round, isClusterhead, eligible, j)
    modifies tx.link`rxCursor, tx.link`rxMsgNum
    modifies tx`frames, tx.link`queue, tx.link`txBytesQueued, tx.link`txMsgCount, tx.link.txBuf, tx.link.clock
    modifies st`role, st`slotsAssigned, st`downstreamStartSlot, st.acks, st.slotAssignments
    modifies st`clusterheadRing, st`clusterheadAddr, st`upstreamStartSlot, st`upstreamRelativeSlot, st`upstreamAckSlot
    ensures tx.Valid()
    ensures TracksJoin(ReadSteps(tx.link.clock.mac, tx.Params(), x, answers, 0), st, candidates, tx, round,
                       isClusterhead, eligible, j')
  {
    ghost var mac, p, y := tx.link.clock.mac, tx.Params(), x;
    j' := j;
    var k, goOn := 0, true;
    while goOn
      invariant tx.Valid() && CanAccept(mac, y.n.s)
      invariant TracksJoin(y, st, candidates, tx, round, isClusterhead, eligible, j')
      invariant ReadSteps(mac, p, x, answers, 0) == if goOn then ReadSteps(mac, p, y, answers, k) else y
      decreases |y.v.unread|, goOn
    {
      ghost var next;
      j', goOn, next := ProcessNext(st, candidates, tx, round, isClusterhead, eligible, j', answers, k, y);
      y, k := next, k + 1;
    }
  }

  predicate JoinInTime(mac: MacParams, e: JoinEnv, size: nat) {
    InTime(mac, e.moment.at, e.reception, size) && AnswersInTime(mac, e.answers)
  }

  method AskAndReceive(st: MultihopState, candidates: ClusterheadCandidates, tx: Station, round: nat,
                       isClusterhead: bool, eligible: bool, j: Joiner, e: JoinEnv, ghost x: Party)
    returns (j': Joiner)
    requires tx.Valid() && Separate(st, candidates, tx) && JoinInTime(tx.link.clock.mac, e, tx.link.rxBuf.Length)
    requires TracksJoin(x, st, candidates, tx, round, isClusterhead, eligible, j)
    modifies tx, tx.link`queue, tx.link`txBytesQueued, tx.link`txMsgCount, tx.link`rxCursor, tx.link`rxMsgNum
    modifies tx.link.txBuf, tx.link.rxBuf, tx.link.clock
    ensures tx.Valid() && TracksJoin(Asked(tx.Params(), x, e), st, candidates, tx, round, isClusterhead, eligible, j')
  {
    j' := j;
    if j.tryToFollow && e.due {
      FollowedParts(tx.Params(), x, e.now, e.moment);
      FollowAndFlush(st, tx, round, j.target, e.now, e.moment, x);
      j' := j.(tryToFollow := false);
    }
    ghost var asked := if x.n.c.tryToFollow && e.due then FollowStep(tx.Params(), x, e.now, e.moment) else x;
    ReceiveFor(st, candidates, tx, e.reception, asked);
  }

  /** One turn of the loop: follow if it is due, receive, and process what was received. */
  method JoiningTurn(st: MultihopState, candidates: ClusterheadCandidates, tx: Station, round: nat,
                     isClusterhead: bool, eligible: bool, j: Joiner, e: JoinEnv, ghost x: Party)
    returns (j': Joiner)
    requires tx.Valid() && Separate(st, candidates, tx) && CanAccept(tx.link.clock.mac, x.n.s)
    requires JoinInTime(tx.link.clock.mac, e, tx.link.rxBuf.Length)
    requires TracksJoin(x, st, candidates, tx, round, isClusterhead, eligible, j)
    modifies tx, tx.link`queue, tx.link`txBytesQueued, tx.link`txMsgCount, tx.link`rxCursor, tx.link`rxMsgNum
    modifies tx.link.txBuf, tx.link.rxBuf, tx.link.clock
    modifies st`role, st`slotsAssigned, st`downstreamStartSlot, st.acks, st.slotAssignments
    modifies st`clusterheadRing, st`clusterheadAddr, st`upstreamStartSlot, st`upstreamRelativeSlot, st`upstreamAckSlot
    ensures tx.Valid()
    ensures TracksJoin(JoinStep(tx.link.clock.mac, tx.Params(), x, e), st, candidates, tx, round, isClusterhead,
                       eligible, j')
  {
    j' := AskAndReceive(st, candidates, tx, round, isClusterhead, eligible, j, e, x);
    j' := ProcessArrivals(st, candidates, tx, round, isClusterhead, eligible, j', e.answers, Asked(tx.Params(), x, e));
  }

  method JoiningLoop(st: MultihopState, candidates: ClusterheadCandidates, tx: Station, round: nat,
                     isClusterhead: bool, eligible: bool, j: Joiner, es: seq<JoinEnv>, ghost x: Party)
    returns (j': Joiner)
    requires tx.Valid() && Separate(st, candidates, tx) && CanAccept(tx.link.clock.mac, x.n.s)
    requires forall i | 0 <= i < |es| :: JoinInTime(tx.link.clock.mac, es[i], tx.link.rxBuf.Length)
    requires TracksJoin(x, st, candidates, tx, round, isClusterhead, eligible, j)
    modifies tx, tx.link`queue, tx.link`txBytesQueued, tx.link`txMsgCount, tx.link`rxCursor, tx.link`rxMsgNum
    modifies tx.link.txBuf, tx.link.rxBuf, tx.link.clock
    modifies st`role, st`slotsAssigned, st`downstreamStartSlot, st.acks, st.slotAssignments
    modifies st`clusterheadRing, st`clusterheadAddr, st`upstreamStartSlot, st`upstreamRelativeSlot, st`upstreamAckSlot
    ensures tx.Valid()
    ensures TracksJoin(JoinSteps(tx.link.clock.mac, tx.Params(), x, es), st, candidates, tx, round, isClusterhead,
                       eligible, j')
  {
    ghost var mac, p := tx.link.clock.mac, tx.Params();
    j' := j;
    var i := 0;
    while i < |es|
      invariant i <= |es| && tx.Valid()
      invariant TracksJoin(JoinSteps(mac, p, x, es[..i]), st, candidates, tx, round, isClusterhead, eligible, j')
    {
      assert es[..i + 1][..i] == es[..i];
      j' := JoiningTurn(st, candidates, tx, round, isClusterhead, eligible, j', es[i], JoinSteps(mac, p, x, es[..i]));
      i := i + 1;
    }
    assert es[..i] == es;
  }

  /** The joining phase of a round, behind the announcement phase. */
  function JoiningPhase(mac: MacParams, p: Setup, x: Party, es: seq<JoinEnv>): (x': Party)
    requires CanAccept(mac, x.n.s) && p.tm.Valid()
    ensures CanAccept(mac, x'.n.s)
  {
    JoinSteps(mac, p, x.(n := StartJoining(x.n)), es)
  }

  method RunClusterheadJoining(st: MultihopState, candidates: ClusterheadCandidates, tx: Station, round: nat,
                               isClusterhead: bool, es: seq<JoinEnv>, ghost x: Party)
    returns (ghost j: Joiner)
    requires tx.Valid() && Separate(st, candidates, tx) && CanAccept(tx.link.clock.mac, x.n.s)
    requires forall i | 0 <= i < |es| :: JoinInTime(tx.link.clock.mac, es[i], tx.link.rxBuf.Length)
    requires HoldsParty(x, st, tx) && x.n.c.candidates == candidates.View()
    requires x.n.c.phase == Announcing(round) && isClusterhead == x.n.Stands()
    modifies tx, tx.link`queue, tx.link`txBytesQueued, tx.link`txMsgCount, tx.link`rxCursor, tx.link`rxMsgNum
    modifies tx.link.txBuf, tx.link.rxBuf, tx.link.clock
    modifies st`role, st`slotsAssigned, st`downstreamStartSlot, st.acks, st.slotAssignments
    modifies st`clusterheadRing, st`clusterheadAddr, st`upstreamStartSlot, st`upstreamRelativeSlot, st`upstreamAckSlot
    ensures tx.Valid()
    ensures TracksJoin(JoiningPhase(tx.link.clock.mac, tx.Params(), x, es), st, candidates, tx, round, isClusterhead,
                       StartJoining(x.n).c.eligible, j)
  {
    var eligible := st.role == Role.Follower || st.role == Clusterhead;
    var target, targetRing := candidates.Top();
    if st.ring != UNKNOWN_RING && targetRing >= st.ring { target, targetRing := UNKNOWN_ADDR, UNKNOWN_RING; }
    j := JoiningLoop(st, candidates, tx, round, isClusterhead, eligible,
                     Joiner(target, targetRing, eligible, false, false), es,
                     x.(n := StartJoining(x.n)));
  }
}
