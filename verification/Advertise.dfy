/** `do_advertise`: discovery, three rounds, and the credit, in place on the node's objects (multihop.cpp). */
module Advertise {
  import opened Bytes
  import opened Messages
  import opened SlotClock
  import opened State
  import opened Cluster
  import opened Candidates
  import opened Rounds
  import opened Link
  import opened Stations
  import opened Loops
  import opened JoinLoop
  import opened Actions
  import DiscoveryLoop

  const ADVERTISEMENT_SLOT := 0

  /** All that happens to the node in one round, and in the whole phase. */
  datatype RoundScript = RoundScript(draw: Byte, announcing: seq<AnnounceTurn>, joining: seq<JoinTurn>)

  datatype Script = Script(finding: seq<DiscoveryLoop.FindTurn>, rounds: seq<RoundScript>)

  // ---- Rounds ----------------------------------------------------------------------------------------

  lemma {:induction false} TurnsCanAccept(mac: MacParams, n: Node, ts: seq<AnnounceTurn>)
    requires CanAccept(mac, n.s)
    ensures AnnounceTurns(n, ts).s == n.s && AnnounceTurns(n, ts).c.phase == n.c.phase
  {
    if ts != [] {
      TurnsCanAccept(mac, n, ts[..|ts| - 1]);
      var m, t := AnnounceTurns(n, ts[..|ts| - 1]), ts[|ts| - 1];
      HearingKeepsTx(if m.c.pending && t.due then Announce(m, t.now, t.fits, t.sent) else m, t.heard);
    }
  }

  function Ended(n: Node): Node { n.(c := n.c.(phase := Ready(n.c.phase.round + 1))) }

  function AfterRound(mac: MacParams, n: Node, r: RoundScript): (n': Node)
    requires CanAccept(mac, n.s)
    ensures CanAccept(mac, n'.s)
  {
    TurnsCanAccept(mac, StartAnnouncing(mac, n, r.draw), r.announcing);
    Ended(JoinTurns(mac, StartJoining(AnnounceTurns(StartAnnouncing(mac, n, r.draw), r.announcing)), r.joining))
  }

  function AfterRounds(mac: MacParams, n: Node, rs: seq<RoundScript>): (n': Node)
    requires CanAccept(mac, n.s)
    ensures CanAccept(mac, n'.s)
  {
    if rs == [] then n else AfterRound(mac, AfterRounds(mac, n, rs[..|rs| - 1]), rs[|rs| - 1])
  }

  // ---- Rounds are runs of steps ----------------------------------------------------------------------

  function HearEvents(ts: seq<Transmission>): seq<Event> {
    if ts == [] then [] else HearEvents(ts[..|ts| - 1]) + [Hear(ts[|ts| - 1], 0, 0, false, false)]
  }

  /** The events of a turn; an announcement that is due but not pending is passed over. */
  function AnnounceEvents(ts: seq<AnnounceTurn>): seq<Event> {
    if ts == [] then []
    else
      var t := ts[|ts| - 1];
      AnnounceEvents(ts[..|ts| - 1]) + (if t.due then [AnnounceDue(t.now, t.fits, t.sent)] else [])
        + HearEvents(t.heard)
  }

  function ArrivalEvents(ars: seq<Arrival>): seq<Event> {
    if ars == [] then []
    else [Hear(ars[0].t, ars[0].now, ars[0].draw, ars[0].fits, ars[0].sent)] + ArrivalEvents(ars[1..])
  }

  function JoinEvents(ts: seq<JoinTurn>): seq<Event> {
    if ts == [] then []
    else
      var t := ts[|ts| - 1];
      JoinEvents(ts[..|ts| - 1]) + (if t.due then [FollowDue(t.now, t.fits, t.sent)] else []) + ArrivalEvents(t.heard)
  }

  function RoundEvents(r: RoundScript): seq<Event> {
    [StartRound(r.draw)] + AnnounceEvents(r.announcing) + [AnnounceOver] + JoinEvents(r.joining) + [JoinOver]
  }

  /** The events that the rounds of a script consist of, in order. */
  function ScriptEvents(rs: seq<RoundScript>): seq<Event> {
    if rs == [] then [] else ScriptEvents(rs[..|rs| - 1]) + RoundEvents(rs[|rs| - 1])
  }

  lemma {:induction false} RunJoins(mac: MacParams, n: Node, a: seq<Event>, b: seq<Event>)
    requires CanAccept(mac, n.s)
    ensures RunEvents(mac, n, a + b) == RunEvents(mac, RunEvents(mac, n, a), b)
  {
    if b == [] {
      assert a + b == a;
    } else {
      RunJoins(mac, n, a, b[..|b| - 1]);
      assert (a + b)[..|a + b| - 1] == a + b[..|b| - 1];
    }
  }

  lemma OneEvent(mac: MacParams, n: Node, e: Event)
    requires CanAccept(mac, n.s)
    ensures RunEvents(mac, n, [e]) == if Enabled(n, e) then React(mac, n, e) else n
  {
    assert [e][..0] == [];
  }

  lemma {:induction false} HearingIsRun(mac: MacParams, n: Node, ts: seq<Transmission>)
    requires CanAccept(mac, n.s) && n.c.phase.Announcing?
    ensures RunEvents(mac, n, HearEvents(ts)) == HearAnnouncements(n, ts)
  {
    if ts != [] {
      var init := ts[..|ts| - 1];
      HearingIsRun(mac, n, init);
      HearingKeepsTx(n, init);
      RunSnoc(mac, n, HearEvents(init), Hear(ts[|ts| - 1], 0, 0, false, false));
    }
  }

  lemma AnnounceTurnIsRun(mac: MacParams, n: Node, t: AnnounceTurn, es: seq<Event>)
    requires CanAccept(mac, n.s) && n.c.phase.Announcing?
    requires es == if t.due then [AnnounceDue(t.now, t.fits, t.sent)] else []
    ensures RunEvents(mac, n, es + HearEvents(t.heard)) == AnnounceOnce(n, t)
  {
    if t.due { OneEvent(mac, n, AnnounceDue(t.now, t.fits, t.sent)); }
    var m := if n.c.pending && t.due then Announce(n, t.now, t.fits, t.sent) else n;
    assert RunEvents(mac, n, es) == m;
    RunJoins(mac, n, es, HearEvents(t.heard));
    HearingIsRun(mac, m, t.heard);
  }

  lemma {:induction false} AnnouncingIsRun(mac: MacParams, n: Node, ts: seq<AnnounceTurn>)
    requires CanAccept(mac, n.s) && n.c.phase.Announcing?
    ensures RunEvents(mac, n, AnnounceEvents(ts)) == AnnounceTurns(n, ts)
  {
    if ts != [] {
      var init, t := ts[..|ts| - 1], ts[|ts| - 1];
      var es := if t.due then [AnnounceDue(t.now, t.fits, t.sent)] else [];
      AnnouncingIsRun(mac, n, init);
      TurnsCanAccept(mac, n, init);
      AnnounceTurnIsRun(mac, AnnounceTurns(n, init), t, es);
      RunJoins(mac, n, AnnounceEvents(init), es + HearEvents(t.heard));
      Regroup(AnnounceEvents(init), es, HearEvents(t.heard));
    }
  }

  lemma OneArrival(mac: MacParams, n: Node, a: Arrival)
    requires CanAccept(mac, n.s) && n.c.phase.Joining?
    ensures RunEvents(mac, n, [Hear(a.t, a.now, a.draw, a.fits, a.sent)]) == HearArrival(mac, n, a)
    ensures HearArrival(mac, n, a).c.phase == n.c.phase
  {
    OneEvent(mac, n, Hear(a.t, a.now, a.draw, a.fits, a.sent));
    HearingKeepsPhase(mac, n, a);
  }

  lemma HearingKeepsPhase(mac: MacParams, n: Node, a: Arrival)
    requires CanAccept(mac, n.s)
    ensures HearArrival(mac, n, a).c.phase == n.c.phase
  {
  }

  lemma {:induction false} ArrivalsAreRun(mac: MacParams, n: Node, ars: seq<Arrival>)
    requires CanAccept(mac, n.s) && n.c.phase.Joining?
    ensures RunEvents(mac, n, ArrivalEvents(ars)) == HearArrivals(mac, n, ars)
    ensures HearArrivals(mac, n, ars).c.phase == n.c.phase
    decreases |ars|
  {
    if ars != [] {
      var a := ars[0];
      OneArrival(mac, n, a);
      ArrivalsAreRun(mac, HearArrival(mac, n, a), ars[1..]);
      RunJoins(mac, n, [Hear(a.t, a.now, a.draw, a.fits, a.sent)], ArrivalEvents(ars[1..]));
    }
  }

  lemma JoinTurnIsRun(mac: MacParams, n: Node, t: JoinTurn, es: seq<Event>)
    requires CanAccept(mac, n.s) && n.c.phase.Joining?
    requires es == if t.due then [FollowDue(t.now, t.fits, t.sent)] else []
    ensures RunEvents(mac, n, es + ArrivalEvents(t.heard)) == JoinOnce(mac, n, t)
    ensures JoinOnce(mac, n, t).c.phase == n.c.phase
  {
    if t.due { OneEvent(mac, n, FollowDue(t.now, t.fits, t.sent)); }
    var m := if n.c.tryToFollow && t.due then FollowTarget(n, t.now, t.fits, t.sent) else n;
    assert RunEvents(mac, n, es) == m;
    RunJoins(mac, n, es, ArrivalEvents(t.heard));
    ArrivalsAreRun(mac, m, t.heard);
  }

  lemma {:induction false} JoiningIsRun(mac: MacParams, n: Node, ts: seq<JoinTurn>)
    requires CanAccept(mac, n.s) && n.c.phase.Joining?
    ensures RunEvents(mac, n, JoinEvents(ts)) == JoinTurns(mac, n, ts) && JoinTurns(mac, n, ts).c.phase == n.c.phase
  {
    if ts != [] {
      var init, t := ts[..|ts| - 1], ts[|ts| - 1];
      var es := if t.due then [FollowDue(t.now, t.fits, t.sent)] else [];
      JoiningIsRun(mac, n, init);
      JoinTurnIsRun(mac, JoinTurns(mac, n, init), t, es);
      RunJoins(mac, n, JoinEvents(init), es + ArrivalEvents(t.heard));
      Regroup(JoinEvents(init), es, ArrivalEvents(t.heard));
    }
  }

  /** The announcement phase, from its start to its end. */
  lemma AnnouncementIsRun(mac: MacParams, n: Node, r: RoundScript, es: seq<Event>) returns (n': Node)
    requires CanAccept(mac, n.s) && n.c.phase.Ready? && n.c.phase.round < NUM_ADV_ROUNDS
    requires es == [StartRound(r.draw)] + AnnounceEvents(r.announcing) + [AnnounceOver]
    ensures CanAccept(mac, n'.s) && n'.c.phase == Joining(n.c.phase.round) && RunEvents(mac, n, es) == n'
    ensures n' == StartJoining(AnnounceTurns(StartAnnouncing(mac, n, r.draw), r.announcing))
  {
    var n1 := StartAnnouncing(mac, n, r.draw);
    OneEvent(mac, n, StartRound(r.draw));
    AnnouncingIsRun(mac, n1, r.announcing);
    TurnsCanAccept(mac, n1, r.announcing);
    RunJoins(mac, n, [StartRound(r.draw)], AnnounceEvents(r.announcing));
    RunSnoc(mac, n, [StartRound(r.draw)] + AnnounceEvents(r.announcing), AnnounceOver);
    n' := StartJoining(AnnounceTurns(n1, r.announcing));
  }

  lemma RoundIsRun(mac: MacParams, n: Node, r: RoundScript)
    requires CanAccept(mac, n.s) && n.c.phase.Ready? && n.c.phase.round < NUM_ADV_ROUNDS
    ensures RunEvents(mac, n, RoundEvents(r)) == AfterRound(mac, n, r)
    ensures AfterRound(mac, n, r).c.phase == Ready(n.c.phase.round + 1)
  {
    var es := [StartRound(r.draw)] + AnnounceEvents(r.announcing) + [AnnounceOver];
    var n2 := AnnouncementIsRun(mac, n, r, es);
    JoiningIsRun(mac, n2, r.joining);
    RunJoins(mac, n, es, JoinEvents(r.joining));
    RunSnoc(mac, n, es + JoinEvents(r.joining), JoinOver);
  }

  /** The rounds of a script take a node exactly through the script's events. */
  lemma {:induction false} RoundsAreRun(mac: MacParams, n: Node, rs: seq<RoundScript>)
    requires CanAccept(mac, n.s) && n.c.phase == Ready(0) && |rs| <= NUM_ADV_ROUNDS
    ensures RunEvents(mac, n, ScriptEvents(rs)) == AfterRounds(mac, n, rs)
    ensures AfterRounds(mac, n, rs).c.phase == Ready(|rs|)
  {
    if rs != [] {
      var init := rs[..|rs| - 1];
      RoundsAreRun(mac, n, init);
      RoundIsRun(mac, AfterRounds(mac, n, init), rs[|rs| - 1]);
      RunJoins(mac, n, ScriptEvents(init), RoundEvents(rs[|rs| - 1]));
    }
  }

  // ---- The node with the link layer ------------------------------------------------------------------

  /** What is given for a round, and for the whole phase. */
  datatype RoundPlan = RoundPlan(draw: Byte, announcing: seq<AnnounceEnv>, joining: seq<JoinEnv>)

  datatype Plan = Plan(finding: seq<DiscoveryLoop.FindEnv>, rounds: seq<RoundPlan>)

  lemma {:induction false} StepsCanAccept(mac: MacParams, p: Setup, x: Party, es: seq<AnnounceEnv>)
    requires CanAccept(mac, x.n.s) && p.tm.Valid()
    ensures AnnounceSteps(p, x, es).n.s == x.n.s && AnnounceSteps(p, x, es).n.c.phase == x.n.c.phase
    ensures AnnounceSteps(p, x, es).n.c.isClusterhead == x.n.c.isClusterhead
  {
    if es != [] {
      var y, e := AnnounceSteps(p, x, es[..|es| - 1]), es[|es| - 1];
      StepsCanAccept(mac, p, x, es[..|es| - 1]);
      var made := Opened(p, y, e);
      HearingKeepsTx(made.n, ReadAs(made.v.unread, made.v.rxPhase));
      HearingKeepsEarlier(made.n, ReadAs(made.v.unread, made.v.rxPhase));
    }
  }

  lemma {:induction false} HearingKeepsEarlier(n: Node, ts: seq<Transmission>)
    ensures HearAnnouncements(n, ts).c.isClusterhead == n.c.isClusterhead
  {
    if ts != [] { HearingKeepsEarlier(n, ts[..|ts| - 1]); }
  }

  function RoundStep(mac: MacParams, p: Setup, x: Party, r: RoundPlan): (x': Party)
    requires CanAccept(mac, x.n.s) && p.tm.Valid()
    ensures CanAccept(mac, x'.n.s)
  {
    StepsCanAccept(mac, p, x.(n := StartAnnouncing(mac, x.n, r.draw)), r.announcing);
    var joined := JoiningPhase(mac, p, AnnouncementPhase(mac, p, x, r.draw, r.announcing), r.joining);
    joined.(n := Ended(joined.n))
  }

  function RoundSteps(mac: MacParams, p: Setup, x: Party, rs: seq<RoundPlan>): (x': Party)
    requires CanAccept(mac, x.n.s) && p.tm.Valid()
    ensures CanAccept(mac, x'.n.s)
  {
    if rs == [] then x else RoundStep(mac, p, RoundSteps(mac, p, x, rs[..|rs| - 1]), rs[|rs| - 1])
  }

  /** The script of the steps: the plan with what followed. */
  function RoundScriptOf(mac: MacParams, p: Setup, x: Party, r: RoundPlan): RoundScript
    requires CanAccept(mac, x.n.s) && p.tm.Valid()
  {
    StepsCanAccept(mac, p, x.(n := StartAnnouncing(mac, x.n, r.draw)), r.announcing);
    var announced := AnnouncementPhase(mac, p, x, r.draw, r.announcing);
    RoundScript(r.draw, AnnounceTurnsOf(p, x.(n := StartAnnouncing(mac, x.n, r.draw)), r.announcing),
                JoinTurnsOf(mac, p, announced.(n := StartJoining(announced.n)), r.joining))
  }

  function RoundScriptsOf(mac: MacParams, p: Setup, x: Party, rs: seq<RoundPlan>): (ss: seq<RoundScript>)
    requires CanAccept(mac, x.n.s) && p.tm.Valid()
    ensures |ss| == |rs|
  {
    if rs == [] then []
    else
      var init := rs[..|rs| - 1];
      RoundScriptsOf(mac, p, x, init) + [RoundScriptOf(mac, p, RoundSteps(mac, p, x, init), rs[|rs| - 1])]
  }

  lemma RoundStepIsScript(mac: MacParams, p: Setup, x: Party, r: RoundPlan)
    requires CanAccept(mac, x.n.s) && p.tm.Valid()
    ensures RoundStep(mac, p, x, r).n == AfterRound(mac, x.n, RoundScriptOf(mac, p, x, r))
  {
    var start := x.(n := StartAnnouncing(mac, x.n, r.draw));
    var announced := AnnouncementPhase(mac, p, x, r.draw, r.announcing);
    StepsCanAccept(mac, p, start, r.announcing);
    AnnounceStepsAreTurns(p, start, r.announcing);
    JoinStepsAreTurns(mac, p, announced.(n := StartJoining(announced.n)), r.joining);
  }

  lemma AfterRoundsSnoc(mac: MacParams, n: Node, init: seq<RoundScript>, r: RoundScript, rs: seq<RoundScript>)
    requires CanAccept(mac, n.s) && rs == init + [r]
    ensures AfterRounds(mac, n, rs) == AfterRound(mac, AfterRounds(mac, n, init), r)
  {
    assert rs[..|rs| - 1] == init;
  }

  lemma {:induction false} RoundStepsAreScript(mac: MacParams, p: Setup, x: Party, rs: seq<RoundPlan>)
    requires CanAccept(mac, x.n.s) && p.tm.Valid()
    ensures RoundSteps(mac, p, x, rs).n == AfterRounds(mac, x.n, RoundScriptsOf(mac, p, x, rs))
  {
    if rs != [] {
      var init := rs[..|rs| - 1];
      var y, r := RoundSteps(mac, p, x, init), rs[|rs| - 1];
      RoundStepsAreScript(mac, p, x, init);
      RoundStepIsScript(mac, p, y, r);
      AfterRoundsSnoc(mac, x.n, RoundScriptsOf(mac, p, x, init), RoundScriptOf(mac, p, y, r),
                      RoundScriptsOf(mac, p, x, rs));
    }
  }

  lemma RoundKeepsCoupled(mac: MacParams, p: Setup, x: Party, r: RoundPlan)
    requires CanAccept(mac, x.n.s) && p.tm.Valid() && Coupled(x)
    ensures Coupled(RoundStep(mac, p, x, r))
  {
    var start := x.(n := StartAnnouncing(mac, x.n, r.draw));
    var announced := AnnouncementPhase(mac, p, x, r.draw, r.announcing);
    StepsCanAccept(mac, p, start, r.announcing);
    AnnouncingKeepsCoupled(p, start, r.announcing);
    JoiningKeepsCoupled(mac, p, announced.(n := StartJoining(announced.n)), r.joining);
  }

  lemma {:induction false} RoundsKeepCoupled(mac: MacParams, p: Setup, x: Party, rs: seq<RoundPlan>)
    requires CanAccept(mac, x.n.s) && p.tm.Valid() && Coupled(x)
    ensures Coupled(RoundSteps(mac, p, x, rs))
  {
    if rs != [] {
      RoundsKeepCoupled(mac, p, x, rs[..|rs| - 1]);
      RoundKeepsCoupled(mac, p, RoundSteps(mac, p, x, rs[..|rs| - 1]), rs[|rs| - 1]);
    }
  }

  /** The node behind discovery, when the rounds begin. */
  function FoundParty(p: Setup, s: NodeState, v: LinkView, es: seq<DiscoveryLoop.FindEnv>): Party
    requires p.tm.Valid()
  {
    var x := DiscoveryLoop.FindSteps(p, s.address, DiscoveryLoop.Seeking(s.rings, v), es);
    Party(Entering(Entered(s).(rings := x.f.rings), x.f.queue, x.f.air), x.v)
  }

  /** Node and link layer when advertising is over, before the credit is settled. */
  function AfterPlan(mac: MacParams, p: Setup, s: NodeState, v: LinkView, plan: Plan): Party
    requires CanAccept(mac, s) && p.tm.Valid()
  {
    RoundSteps(mac, p, FoundParty(p, s, v, plan.finding), plan.rounds)
  }

  /** The same for a script, without the link layer. */
  function Found(s: NodeState, queue: set<Message>, air: set<Transmission>, turns: seq<DiscoveryLoop.FindTurn>): Node {
    var f := DiscoveryLoop.FindTurns(s.address, DiscoveryLoop.Started(s.rings, queue, air), turns);
    Entering(Entered(s).(rings := f.rings), f.queue, f.air)
  }

  function AfterScript(mac: MacParams, s: NodeState, queue: set<Message>, air: set<Transmission>, script: Script): Node
    requires CanAccept(mac, s)
  {
    AfterRounds(mac, Found(s, queue, air, script.finding), script.rounds)
  }

  /** The plan with what followed from it: what fitted, what was sent, and what was heard. */
  function ScriptOf(mac: MacParams, p: Setup, s: NodeState, v: LinkView, plan: Plan): (script: Script)
    requires CanAccept(mac, s) && p.tm.Valid()
    ensures |script.rounds| == |plan.rounds|
  {
    Script(DiscoveryLoop.FindTurnsOf(p, s.address, DiscoveryLoop.Seeking(s.rings, v), plan.finding),
           RoundScriptsOf(mac, p, FoundParty(p, s, v, plan.finding), plan.rounds))
  }

  lemma PlanIsScript(mac: MacParams, p: Setup, s: NodeState, v: LinkView, plan: Plan)
    requires CanAccept(mac, s) && p.tm.Valid()
    ensures AfterPlan(mac, p, s, v, plan).n
         == AfterScript(mac, s, Decoded(v.queue), AirOf(v.frames), ScriptOf(mac, p, s, v, plan))
    ensures Coupled(AfterPlan(mac, p, s, v, plan))
  {
    var x := DiscoveryLoop.Seeking(s.rings, v);
    DiscoveryLoop.FindStepsAreTurns(p, s.address, x, plan.finding);
    DiscoveryLoop.FindingKeepsCoupled(p, s.address, x, plan.finding);
    RoundStepsAreScript(mac, p, FoundParty(p, s, v, plan.finding), plan.rounds);
    RoundsKeepCoupled(mac, p, FoundParty(p, s, v, plan.finding), plan.rounds);
  }

  // ---- The objects -----------------------------------------------------------------------------------

  /** The resets at the beginning of `do_advertise`. */
  method ResetCluster(st: MultihopState)
    requires st.Valid()
    modifies st`role, st`clusterheadAddr, st`clusterheadRing, st`upstreamStartSlot, st`upstreamRelativeSlot
    modifies st`upstreamAckSlot, st.acks
    ensures st.View() == Entered(old(st.View()))
  {
    if st.role != Gateway { st.role := Role.Follower; }
    st.clusterheadAddr, st.clusterheadRing := UNKNOWN_ADDR, UNKNOWN_RING;
    st.upstreamStartSlot, st.upstreamRelativeSlot, st.upstreamAckSlot := 0, 0, 0;
    ClearAcks(st.acks);
  }

  /** The credit bookkeeping at the end of `do_advertise`. */
  method SettleCredit(st: MultihopState)
    requires st.Valid()
    modifies st`chCredit
    ensures st.View() == Credited(old(st.View()))
  {
    if st.role != Gateway {
      if st.role == Clusterhead {
        st.chCredit := 0;
      } else if st.chCredit < 255 {
        st.chCredit := st.chCredit + 1;
      }
    }
  }

  predicate RoundInTime(mac: MacParams, r: RoundPlan, size: nat) {
    AnnounceInTime(mac, r.announcing, size) && forall i | 0 <= i < |r.joining| :: JoinInTime(mac, r.joining[i], size)
  }

  predicate PlanInTime(mac: MacParams, plan: Plan, size: nat) {
    && DiscoveryLoop.FindInTime(mac, plan.finding, size)
    && forall i | 0 <= i < |plan.rounds| :: RoundInTime(mac, plan.rounds[i], size)
  }

  /** What the announcement phase leaves for the joining phase of the round. */
  lemma AnnouncedParts(mac: MacParams, p: Setup, x: Party, r: RoundPlan)
    requires CanAccept(mac, x.n.s) && p.tm.Valid()
    ensures var y := AnnouncementPhase(mac, p, x, r.draw, r.announcing);
      && CanAccept(mac, y.n.s) && y.n.c.isClusterhead == x.n.c.isClusterhead
      && y.n.c.phase == Announcing(x.n.c.phase.round)
  {
    StepsCanAccept(mac, p, x.(n := StartAnnouncing(mac, x.n, r.draw)), r.announcing);
  }

  lemma RoundStepParts(mac: MacParams, p: Setup, x: Party, r: RoundPlan)
    requires CanAccept(mac, x.n.s) && p.tm.Valid()
    ensures CanAccept(mac, AnnouncementPhase(mac, p, x, r.draw, r.announcing).n.s)
    ensures var y, joined :=
      RoundStep(mac, p, x, r), JoiningPhase(mac, p, AnnouncementPhase(mac, p, x, r.draw, r.announcing), r.joining);
      && y.n.s == joined.n.s && y.v == joined.v
      && y.n.c.isClusterhead == joined.n.c.isClusterhead && y.n.c.phase == Ready(joined.n.c.phase.round + 1)
  {
    AnnouncedParts(mac, p, x, r);
  }

  /** Announcement and joining with the candidates of the round. */
  method AnnounceAndJoin(st: MultihopState, candidates: ClusterheadCandidates, tx: Station, round: nat, earlier: bool,
                         r: RoundPlan, ghost x: Party)
    returns (isClusterhead: bool, ghost joined: Party)
    requires tx.Valid() && Separate(st, candidates, tx) && HoldsParty(x, st, tx) && CanAccept(tx.link.clock.mac, x.n.s)
    requires x.n.c.phase == Ready(round) && x.n.c.isClusterhead == earlier
    requires RoundInTime(tx.link.clock.mac, r, tx.link.rxBuf.Length)
    modifies candidates.addresses, candidates.rings, candidates.scores
    modifies tx, tx.link`queue, tx.link`txBytesQueued, tx.link`txMsgCount, tx.link`rxCursor, tx.link`rxMsgNum
    modifies tx.link.txBuf, tx.link.rxBuf, tx.link.clock
    modifies st`role, st`slotsAssigned, st`downstreamStartSlot, st.acks, st.slotAssignments
    modifies st`clusterheadRing, st`clusterheadAddr, st`upstreamStartSlot, st`upstreamRelativeSlot, st`upstreamAckSlot
    ensures tx.Valid() && HoldsParty(joined, st, tx)
    ensures CanAccept(tx.link.clock.mac, AnnouncementPhase(tx.link.clock.mac, tx.Params(), x, r.draw, r.announcing).n.s)
    ensures joined == JoiningPhase(tx.link.clock.mac, tx.Params(),
                                   AnnouncementPhase(tx.link.clock.mac, tx.Params(), x, r.draw, r.announcing),
                                   r.joining)
    ensures joined.n.c.isClusterhead == isClusterhead && joined.n.c.phase == Joining(round)
  {
    ghost var mac, p := tx.link.clock.mac, tx.Params();
    AnnouncedParts(mac, p, x, r);
    var thisRound, pending := RunClusterheadAnnouncement(st, candidates, tx, round, earlier, r.draw, r.announcing, x);
    isClusterhead := earlier || thisRound;
    ghost var announced := AnnouncementPhase(mac, p, x, r.draw, r.announcing);
    var j := RunClusterheadJoining(st, candidates, tx, round, isClusterhead, r.joining, announced);
    joined := JoiningPhase(mac, p, announced, r.joining);
  }

  method RunPhases(st: MultihopState, candidates: ClusterheadCandidates, tx: Station, round: nat, earlier: bool,
                   r: RoundPlan, ghost x: Party)
    returns (isClusterhead: bool)
    requires tx.Valid() && Separate(st, candidates, tx) && HoldsParty(x, st, tx) && CanAccept(tx.link.clock.mac, x.n.s)
    requires x.n.c.phase == Ready(round) && x.n.c.isClusterhead == earlier
    requires RoundInTime(tx.link.clock.mac, r, tx.link.rxBuf.Length)
    modifies candidates.addresses, candidates.rings, candidates.scores
    modifies tx, tx.link`queue, tx.link`txBytesQueued, tx.link`txMsgCount, tx.link`rxCursor, tx.link`rxMsgNum
    modifies tx.link.txBuf, tx.link.rxBuf, tx.link.clock
    modifies st`role, st`slotsAssigned, st`downstreamStartSlot, st.acks, st.slotAssignments
    modifies st`clusterheadRing, st`clusterheadAddr, st`upstreamStartSlot, st`upstreamRelativeSlot, st`upstreamAckSlot
    ensures tx.Valid()
    ensures var x' := RoundStep(tx.link.clock.mac, tx.Params(), x, r);
      HoldsParty(x', st, tx) && x'.n.c.isClusterhead == isClusterhead && x'.n.c.phase == Ready(round + 1)
  {
    RoundStepParts(tx.link.clock.mac, tx.Params(), x, r);
    ghost var joined;
    isClusterhead, joined := AnnounceAndJoin(st, candidates, tx, round, earlier, r, x);
  }

  method RunRound(st: MultihopState, tx: Station, round: nat, earlier: bool, r: RoundPlan, ghost x: Party)
    returns (isClusterhead: bool)
    requires tx.Valid() && Disjoint(st, tx) && HoldsParty(x, st, tx) && CanAccept(tx.link.clock.mac, x.n.s)
    requires x.n.c.phase == Ready(round) && x.n.c.isClusterhead == earlier
    requires RoundInTime(tx.link.clock.mac, r, tx.link.rxBuf.Length)
    modifies tx, tx.link`queue, tx.link`txBytesQueued, tx.link`txMsgCount, tx.link`rxCursor, tx.link`rxMsgNum
    modifies tx.link.txBuf, tx.link.rxBuf, tx.link.clock
    modifies st`role, st`slotsAssigned, st`downstreamStartSlot, st.acks, st.slotAssignments
    modifies st`clusterheadRing, st`clusterheadAddr, st`upstreamStartSlot, st`upstreamRelativeSlot, st`upstreamAckSlot
    ensures tx.Valid()
    ensures var x' := RoundStep(tx.link.clock.mac, tx.Params(), x, r);
      HoldsParty(x', st, tx) && x'.n.c.isClusterhead == isClusterhead && x'.n.c.phase == Ready(round + 1)
  {
    var candidates := new ClusterheadCandidates();
    isClusterhead := RunPhases(st, candidates, tx, round, earlier, r, x);
  }

  lemma RoundStepsSnoc(mac: MacParams, p: Setup, x: Party, rs: seq<RoundPlan>, k: nat, y: Party)
    requires CanAccept(mac, x.n.s) && p.tm.Valid() && k < |rs| && y == RoundSteps(mac, p, x, rs[..k])
    ensures RoundSteps(mac, p, x, rs[..k + 1]) == RoundStep(mac, p, y, rs[k])
  {
    assert rs[..k + 1][..k] == rs[..k];
  }

  method RunRounds(st: MultihopState, tx: Station, rs: seq<RoundPlan>, ghost x: Party)
    requires tx.Valid() && Disjoint(st, tx) && HoldsParty(x, st, tx) && CanAccept(tx.link.clock.mac, x.n.s)
    requires x.n.c == AT_START && |rs| == NUM_ADV_ROUNDS
    requires forall i | 0 <= i < |rs| :: RoundInTime(tx.link.clock.mac, rs[i], tx.link.rxBuf.Length)
    modifies tx, tx.link`queue, tx.link`txBytesQueued, tx.link`txMsgCount, tx.link`rxCursor, tx.link`rxMsgNum
    modifies tx.link.txBuf, tx.link.rxBuf, tx.link.clock
    modifies st`role, st`slotsAssigned, st`downstreamStartSlot, st.acks, st.slotAssignments
    modifies st`clusterheadRing, st`clusterheadAddr, st`upstreamStartSlot, st`upstreamRelativeSlot, st`upstreamAckSlot
    ensures tx.Valid() && HoldsParty(RoundSteps(tx.link.clock.mac, tx.Params(), x, rs), st, tx)
  {
    ghost var mac, p := tx.link.clock.mac, tx.Params();
    ghost var y := x;
    var isClusterhead, round := false, 0;
    assert rs[..0] == [];
    while round < NUM_ADV_ROUNDS
      invariant 0 <= round <= NUM_ADV_ROUNDS && tx.Valid() && HoldsParty(y, st, tx) && CanAccept(mac, y.n.s)
      invariant y.n.c.isClusterhead == isClusterhead && y.n.c.phase == Ready(round)
      invariant y == RoundSteps(mac, p, x, rs[..round])
    {
      RoundStepsSnoc(mac, p, x, rs, round, y);
      ghost var before := y;
      y := RoundStep(mac, p, before, rs[round]);
      isClusterhead := RunRound(st, tx, round, isClusterhead, rs[round], before);
      round := round + 1;
    }
    assert rs[..round] == rs;
  }

  function Ticked(p: Setup, v: LinkView, now: U32): LinkView
    requires p.tm.Valid()
  {
    v.(window := Refresh(p.tm, v.window, now))
  }

  method InAdvertisementSlot(tx: Station, now: U32) returns (ours: bool)
    requires tx.Valid() && InRange(tx.link.clock.mac, now)
    modifies tx.link.clock
    ensures tx.Valid() && tx.View() == Ticked(tx.Params(), old(tx.View()), now)
    ensures ours <==> old(ActiveSlot(tx.link.clock, now)) == ADVERTISEMENT_SLOT
  {
    var slot := tx.link.clock.CurrentSlot(now);
    ours := slot == ADVERTISEMENT_SLOT;
  }

  method SetDefaultCode(st: MultihopState, tx: Station)
    requires tx.Valid() && st.Valid()
    modifies tx.link`code
    ensures tx.Valid() && tx.link.code == HashCdmaCode(DEFAULT_CODE) && st.View() == old(st.View())
    ensures tx.View() == old(tx.View())
  {
    tx.link.SetCdmaCode(DEFAULT_CODE);
  }

  method FinishAdvertising(st: MultihopState, tx: Station)
    requires tx.Valid() && Loops.Disjoint(st, tx)
    modifies st`chCredit
    ensures tx.Valid() && st.View() == Credited(old(st.View())) && tx.View() == old(tx.View())
  {
    SettleCredit(st);
  }

  /** The resets and discovery. */
  method Find(st: MultihopState, tx: Station, es: seq<DiscoveryLoop.FindEnv>)
    requires tx.Valid() && Loops.Disjoint(st, tx)
    requires DiscoveryLoop.FindInTime(tx.link.clock.mac, es, tx.link.rxBuf.Length)
    modifies tx, tx.link`queue, tx.link`txBytesQueued, tx.link`txMsgCount, tx.link`rxCursor, tx.link`rxMsgNum
    modifies tx.link.txBuf, tx.link.rxBuf, tx.link.clock, st, st.counts, st.acks
    ensures tx.Valid() && HoldsParty(FoundParty(tx.Params(), old(st.View()), old(tx.View()), es), st, tx)
  {
    ghost var v := tx.View();
    ResetCluster(st);
    assert tx.View() == v;
    DiscoveryLoop.RunNeighborDiscovery(st, tx, es);
  }

  /** Node and link layer are what the phase leaves, with the credit settled. */
  ghost predicate IsAdvertised(x: Party, st: MultihopState, tx: Station)
    reads st, st.counts, st.slotAssignments, st.acks
    reads tx, tx.link`queue, tx.link`rxCursor, tx.link`rxMsgNum, tx.link.rxBuf, tx.link.clock
    requires st.Valid() && tx.link.RxValid()
  {
    st.View() == Credited(x.n.s) && tx.View() == x.v
  }

  method RunAdvertising(st: MultihopState, tx: Station, plan: Plan, ghost s: NodeState, ghost v: LinkView)
    requires tx.Valid() && Loops.Disjoint(st, tx) && CanAccept(tx.link.clock.mac, s) && s == st.View() && v == tx.View()
    requires |plan.rounds| == NUM_ADV_ROUNDS && PlanInTime(tx.link.clock.mac, plan, tx.link.rxBuf.Length)
    modifies tx, tx.link`queue, tx.link`txBytesQueued, tx.link`txMsgCount, tx.link`rxCursor, tx.link`rxMsgNum
    modifies tx.link.txBuf, tx.link.rxBuf, tx.link.clock, st, st.counts, st.acks, st.slotAssignments
    ensures tx.Valid() && st.Valid()
    ensures IsAdvertised(AfterPlan(tx.link.clock.mac, tx.Params(), s, v, plan), st, tx)
  {
    ghost var found := FoundParty(tx.Params(), s, v, plan.finding);
    Find(st, tx, plan.finding);
    RunRounds(st, tx, plan.rounds, found);
    FinishAdvertising(st, tx);
  }

  /** `do_advertise` behind its guard. */
  method AdvertiseInSlot(st: MultihopState, tx: Station, plan: Plan, ghost s: NodeState, ghost v: LinkView)
    requires tx.Valid() && Loops.Disjoint(st, tx) && CanAccept(tx.link.clock.mac, s) && s == st.View() && v == tx.View()
    requires |plan.rounds| == NUM_ADV_ROUNDS && PlanInTime(tx.link.clock.mac, plan, tx.link.rxBuf.Length)
    modifies tx, tx.link`queue, tx.link`txBytesQueued, tx.link`txMsgCount, tx.link`rxCursor, tx.link`rxMsgNum
    modifies tx.link`code
    modifies tx.link.txBuf, tx.link.rxBuf, tx.link.clock, st, st.counts, st.acks, st.slotAssignments
    ensures tx.Valid() && st.Valid() && tx.link.code == HashCdmaCode(DEFAULT_CODE)
    ensures IsAdvertised(AfterPlan(tx.link.clock.mac, tx.Params(), s, v, plan), st, tx)
  {
    SetDefaultCode(st, tx);
    RunAdvertising(st, tx, plan, s, v);
  }

  method DoAdvertise(st: MultihopState, tx: Station, now: U32, plan: Plan) returns (rc: ActionRC)
    requires tx.Valid() && Loops.Disjoint(st, tx) && InRange(tx.link.clock.mac, now)
    requires CanAccept(tx.link.clock.mac, st.View())
    requires |plan.rounds| == NUM_ADV_ROUNDS && PlanInTime(tx.link.clock.mac, plan, tx.link.rxBuf.Length)
    modifies tx, tx.link`queue, tx.link`txBytesQueued, tx.link`txMsgCount, tx.link`rxCursor, tx.link`rxMsgNum
    modifies tx.link`code
    modifies tx.link.txBuf, tx.link.rxBuf, tx.link.clock, st, st.counts, st.acks, st.slotAssignments
    ensures tx.Valid() && st.Valid()
    ensures rc == if old(ActiveSlot(tx.link.clock, now)) == ADVERTISEMENT_SLOT then Done else WrongSlot
    ensures rc == WrongSlot ==>
      st.View() == old(st.View()) && tx.View() == Ticked(tx.Params(), old(tx.View()), now)
        && tx.link.code == old(tx.link.code)
    ensures rc == Done ==>
      && tx.link.code == HashCdmaCode(DEFAULT_CODE)
      && IsAdvertised(AfterPlan(tx.link.clock.mac, tx.Params(), old(st.View()),
                                Ticked(tx.Params(), old(tx.View()), now), plan), st, tx)
  {
    rc := WrongSlot;
    var ours := InAdvertisementSlot(tx, now);
    if ours {
      AdvertiseInSlot(st, tx, plan, st.View(), tx.View());
      rc := Done;
    }
  }
}
