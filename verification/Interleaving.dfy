/** Plans at all nodes form a run of the network: it is enough that what the radios receive are frames that other nodes
    have transmitted by then. */
module Interleaving {
  import opened Messages
  import opened SlotClock
  import opened State
  import opened Cluster
  import opened Rounds
  import opened Frames
  import opened Stations
  import opened Loops
  import opened JoinLoop
  import opened Advertise
  import opened Advertising
  import opened Refinement

  // ---- How far a node has come in its plan -------------------------------------------------------------

  /** Behind discovery; behind some turns of the announcement or the joining loop of a round; or behind the Follow
      of a joining turn, when its answer is awaited. */
  datatype Stage =
    | Discovered
    | InAnnouncing(round: nat, turns: nat)
    | InJoining(round: nat, turns: nat)
    | HavingAsked(round: nat, turns: nat)

  predicate InPlan(st: Stage, rs: seq<RoundPlan>) {
    match st
    case Discovered => true
    case InAnnouncing(k, j) => k < |rs| && j <= |rs[k].announcing|
    case InJoining(k, j) => k < |rs| && j <= |rs[k].joining|
    case HavingAsked(k, j) => k < |rs| && j < |rs[k].joining|
  }

  /** Node and link layer where the loops of round `k` begin. */
  ghost function Standing(mac: MacParams, p: Setup, x: Party, rs: seq<RoundPlan>, k: nat): (y: Party)
    requires CanAccept(mac, x.n.s) && p.tm.Valid() && k < |rs|
    ensures CanAccept(mac, y.n.s)
  {
    var before := RoundSteps(mac, p, x, rs[..k]);
    before.(n := StartAnnouncing(mac, before.n, rs[k].draw))
  }

  ghost function Aiming(mac: MacParams, p: Setup, x: Party, rs: seq<RoundPlan>, k: nat): (y: Party)
    requires CanAccept(mac, x.n.s) && p.tm.Valid() && k < |rs|
    ensures CanAccept(mac, y.n.s)
  {
    StepsCanAccept(mac, p, Standing(mac, p, x, rs, k), rs[k].announcing);
    var announced := AnnounceSteps(p, Standing(mac, p, x, rs, k), rs[k].announcing);
    announced.(n := StartJoining(announced.n))
  }

  /** Node and link layer at a stage. */
  ghost function PartyAt(mac: MacParams, p: Setup, x: Party, rs: seq<RoundPlan>, st: Stage): Party
    requires CanAccept(mac, x.n.s) && p.tm.Valid() && InPlan(st, rs)
  {
    match st
    case Discovered => x
    case InAnnouncing(k, j) => AnnounceSteps(p, Standing(mac, p, x, rs, k), rs[k].announcing[..j])
    case InJoining(k, j) => JoinSteps(mac, p, Aiming(mac, p, x, rs, k), rs[k].joining[..j])
    case HavingAsked(k, j) =>
      Asked(p, JoinSteps(mac, p, Aiming(mac, p, x, rs, k), rs[k].joining[..j]), rs[k].joining[j])
  }

  ghost function AnnouncedBy(mac: MacParams, p: Setup, x: Party, rs: seq<RoundPlan>, k: nat, j: nat): seq<Event>
    requires CanAccept(mac, x.n.s) && p.tm.Valid() && k < |rs| && j <= |rs[k].announcing|
  {
    [StartRound(rs[k].draw)] + AnnounceEvents(AnnounceTurnsOf(p, Standing(mac, p, x, rs, k), rs[k].announcing[..j]))
  }

  ghost function JoinedBy(mac: MacParams, p: Setup, x: Party, rs: seq<RoundPlan>, k: nat, j: nat): seq<Event>
    requires CanAccept(mac, x.n.s) && p.tm.Valid() && k < |rs| && j <= |rs[k].joining|
  {
    (AnnouncedBy(mac, p, x, rs, k, |rs[k].announcing|) + [AnnounceOver])
      + JoinEvents(JoinTurnsOf(mac, p, Aiming(mac, p, x, rs, k), rs[k].joining[..j]))
  }

  ghost function AskedBy(mac: MacParams, p: Setup, x: Party, rs: seq<RoundPlan>, k: nat, j: nat): seq<Event>
    requires CanAccept(mac, x.n.s) && p.tm.Valid() && k < |rs| && j < |rs[k].joining|
  {
    var t := JoinTurnOf(mac, p, JoinSteps(mac, p, Aiming(mac, p, x, rs, k), rs[k].joining[..j]), rs[k].joining[j]);
    if t.due then [FollowDue(t.now, t.fits, t.sent)] else []
  }

  /** What has happened to the node in the rounds by then. */
  ghost function EventsBy(mac: MacParams, p: Setup, x: Party, rs: seq<RoundPlan>, st: Stage): seq<Event>
    requires CanAccept(mac, x.n.s) && p.tm.Valid() && InPlan(st, rs)
  {
    match st
    case Discovered => []
    case InAnnouncing(k, j) => EarlierRounds(mac, p, x, rs, k) + AnnouncedBy(mac, p, x, rs, k, j)
    case InJoining(k, j) => EarlierRounds(mac, p, x, rs, k) + JoinedBy(mac, p, x, rs, k, j)
    case HavingAsked(k, j) =>
      (EarlierRounds(mac, p, x, rs, k) + JoinedBy(mac, p, x, rs, k, j)) + AskedBy(mac, p, x, rs, k, j)
  }

  ghost function EarlierRounds(mac: MacParams, p: Setup, x: Party, rs: seq<RoundPlan>, k: nat): seq<Event>
    requires CanAccept(mac, x.n.s) && p.tm.Valid() && k < |rs|
  {
    ScriptEvents(RoundScriptsOf(mac, p, x, rs[..k]))
  }

  // ---- Stages are reached by those events ----------------------------------------------------------------

  ghost predicate Begins(mac: MacParams, p: Setup, x: Party, rs: seq<RoundPlan>) {
    && CanAccept(mac, x.n.s) && p.tm.Valid() && x.n.c.phase == Ready(0) && Coupled(x) && |rs| <= NUM_ADV_ROUNDS
  }

  lemma EarlierAreRun(mac: MacParams, p: Setup, x: Party, rs: seq<RoundPlan>, k: nat)
    requires Begins(mac, p, x, rs) && k < |rs|
    ensures var y := RoundSteps(mac, p, x, rs[..k]);
      y.n == RunEvents(mac, x.n, EarlierRounds(mac, p, x, rs, k)) && y.n.c.phase == Ready(k) && Coupled(y)
  {
    RoundStepsAreScript(mac, p, x, rs[..k]);
    RoundsAreRun(mac, x.n, RoundScriptsOf(mac, p, x, rs[..k]));
    RoundsKeepCoupled(mac, p, x, rs[..k]);
  }

  lemma AnnouncedIsRun(mac: MacParams, p: Setup, x: Party, rs: seq<RoundPlan>, k: nat, j: nat)
    requires Begins(mac, p, x, rs) && k < |rs| && j <= |rs[k].announcing|
    ensures var y := AnnounceSteps(p, Standing(mac, p, x, rs, k), rs[k].announcing[..j]);
      && y.n == RunEvents(mac, RoundSteps(mac, p, x, rs[..k]).n, AnnouncedBy(mac, p, x, rs, k, j))
      && y.n.c.phase == Announcing(k) && Coupled(y) && CanAccept(mac, y.n.s)
  {
    var before, start, es := RoundSteps(mac, p, x, rs[..k]), Standing(mac, p, x, rs, k), rs[k].announcing[..j];
    EarlierAreRun(mac, p, x, rs, k);
    OneEvent(mac, before.n, StartRound(rs[k].draw));
    StepsCanAccept(mac, p, start, es);
    AnnounceStepsAreTurns(p, start, es);
    AnnouncingIsRun(mac, start.n, AnnounceTurnsOf(p, start, es));
    AnnouncingKeepsCoupled(p, start, es);
    RunJoins(mac, before.n, [StartRound(rs[k].draw)], AnnounceEvents(AnnounceTurnsOf(p, start, es)));
  }

  lemma AimingIsRun(mac: MacParams, p: Setup, x: Party, rs: seq<RoundPlan>, k: nat)
    requires Begins(mac, p, x, rs) && k < |rs|
    ensures var y := Aiming(mac, p, x, rs, k);
      && y.n == RunEvents(mac, RoundSteps(mac, p, x, rs[..k]).n,
                          AnnouncedBy(mac, p, x, rs, k, |rs[k].announcing|) + [AnnounceOver])
      && y.n.c.phase == Joining(k) && Coupled(y)
  {
    var before, all := RoundSteps(mac, p, x, rs[..k]), |rs[k].announcing|;
    assert rs[k].announcing[..all] == rs[k].announcing;
    AnnouncedIsRun(mac, p, x, rs, k, all);
    RunSnoc(mac, before.n, AnnouncedBy(mac, p, x, rs, k, all), AnnounceOver);
  }

  lemma JoinedIsRun(mac: MacParams, p: Setup, x: Party, rs: seq<RoundPlan>, k: nat, j: nat)
    requires Begins(mac, p, x, rs) && k < |rs| && j <= |rs[k].joining|
    ensures var y := JoinSteps(mac, p, Aiming(mac, p, x, rs, k), rs[k].joining[..j]);
      && y.n == RunEvents(mac, RoundSteps(mac, p, x, rs[..k]).n, JoinedBy(mac, p, x, rs, k, j))
      && y.n.c.phase == Joining(k) && Coupled(y)
  {
    var before, aim, es := RoundSteps(mac, p, x, rs[..k]), Aiming(mac, p, x, rs, k), rs[k].joining[..j];
    AimingIsRun(mac, p, x, rs, k);
    JoinStepsAreTurns(mac, p, aim, es);
    JoiningIsRun(mac, aim.n, JoinTurnsOf(mac, p, aim, es));
    JoiningKeepsCoupled(mac, p, aim, es);
    RunJoins(mac, before.n, AnnouncedBy(mac, p, x, rs, k, |rs[k].announcing|) + [AnnounceOver],
             JoinEvents(JoinTurnsOf(mac, p, aim, es)));
  }

  lemma AskIsRun(mac: MacParams, p: Setup, y: Party, e: JoinEnv, es: seq<Event>)
    requires CanAccept(mac, y.n.s) && p.tm.Valid() && y.n.c.phase.Joining?
    requires var m := Following(y.n, e.now);
      es == if e.due then [FollowDue(e.now, Fits(p, y.v.queue, m), Flushes(p, SendTo(p, y.v, m), e.moment))] else []
    ensures Asked(p, y, e).n == RunEvents(mac, y.n, es)
  {
    var m := Following(y.n, e.now);
    OneEvent(mac, y.n, FollowDue(e.now, Fits(p, y.v.queue, m), Flushes(p, SendTo(p, y.v, m), e.moment)));
  }

  lemma AskKeepsCoupled(p: Setup, y: Party, e: JoinEnv)
    requires p.tm.Valid() && Coupled(y)
    ensures Coupled(Asked(p, y, e))
  {
    if y.n.c.tryToFollow && e.due { FollowKeepsCoupled(p, y, e.now, e.moment); }
  }

  lemma AskedIsRun(mac: MacParams, p: Setup, x: Party, rs: seq<RoundPlan>, k: nat, j: nat)
    requires Begins(mac, p, x, rs) && k < |rs| && j < |rs[k].joining|
    ensures var y := JoinSteps(mac, p, Aiming(mac, p, x, rs, k), rs[k].joining[..j]);
      var z := Asked(p, y, rs[k].joining[j]);
      z.n == RunEvents(mac, y.n, AskedBy(mac, p, x, rs, k, j)) && Coupled(z)
  {
    var y, e := JoinSteps(mac, p, Aiming(mac, p, x, rs, k), rs[k].joining[..j]), rs[k].joining[j];
    JoinedIsRun(mac, p, x, rs, k, j);
    AskIsRun(mac, p, y, e, AskedBy(mac, p, x, rs, k, j));
    AskKeepsCoupled(p, y, e);
  }

  /** At every stage, the node is what those events make of it, and the link layer holds what the node has queued and
      has transmitted what is on the air. */
  lemma StageIsRun(mac: MacParams, p: Setup, x: Party, rs: seq<RoundPlan>, st: Stage)
    requires Begins(mac, p, x, rs) && InPlan(st, rs)
    ensures var y := PartyAt(mac, p, x, rs, st); y.n == RunEvents(mac, x.n, EventsBy(mac, p, x, rs, st)) && Coupled(y)
  {
    match st
    case Discovered =>
    case InAnnouncing(k, j) =>
      EarlierAreRun(mac, p, x, rs, k);
      AnnouncedIsRun(mac, p, x, rs, k, j);
      RunJoins(mac, x.n, EarlierRounds(mac, p, x, rs, k), AnnouncedBy(mac, p, x, rs, k, j));
    case InJoining(k, j) =>
      EarlierAreRun(mac, p, x, rs, k);
      JoinedIsRun(mac, p, x, rs, k, j);
      RunJoins(mac, x.n, EarlierRounds(mac, p, x, rs, k), JoinedBy(mac, p, x, rs, k, j));
    case HavingAsked(k, j) =>
      EarlierAreRun(mac, p, x, rs, k);
      JoinedIsRun(mac, p, x, rs, k, j);
      AskedIsRun(mac, p, x, rs, k, j);
      RunJoins(mac, x.n, EarlierRounds(mac, p, x, rs, k), JoinedBy(mac, p, x, rs, k, j));
      RunJoins(mac, x.n, EarlierRounds(mac, p, x, rs, k) + JoinedBy(mac, p, x, rs, k, j), AskedBy(mac, p, x, rs, k, j));
  }

  // ---- Plans at all nodes ----------------------------------------------------------------------------------

  /** A node with its link layer when it calls `do_advertise`, and what is given; `v.frames` are the frames of this
      superframe. */
  datatype Planned = Planned(p: Setup, s: NodeState, v: LinkView, plan: Plan)

  ghost predicate MayStart(mac: MacParams, v: Address, x: Planned) {
    && x.p.tm.Valid() && x.p.rxSize <= 255 && WellFormedNode(mac, x.s) && x.s.address == v
    && |x.plan.rounds| == NUM_ADV_ROUNDS && NoClustering(Decoded(x.v.queue), AirOf(x.v.frames))
  }

  ghost predicate AllMayStart(mac: MacParams, xs: map<Address, Planned>) {
    Slotted(mac) && forall v | v in xs :: MayStart(mac, v, xs[v])
  }

  function Start(x: Planned): Party
    requires x.p.tm.Valid()
  {
    FoundParty(x.p, x.s, x.v, x.plan.finding)
  }

  /** The execution that `do_advertise` computes from the plan. */
  function ExecutionOf(mac: MacParams, x: Planned): Execution
    requires CanAccept(mac, x.s) && x.p.tm.Valid()
  {
    Execution(x.s, Decoded(x.v.queue), AirOf(x.v.frames), ScriptOf(mac, x.p, x.s, x.v, x.plan))
  }

  lemma StartsAsFound(mac: MacParams, v: Address, x: Planned)
    requires Slotted(mac) && MayStart(mac, v, x)
    ensures Start(x).n == FoundBy(ExecutionOf(mac, x)) && AtStart(mac, v, Start(x).n)
    ensures Begins(mac, x.p, Start(x), x.plan.rounds)
    ensures ExecutionOf(mac, x).script.rounds == RoundScriptsOf(mac, x.p, Start(x), x.plan.rounds)
  {
    var begun := DiscoveryLoop.Seeking(x.s.rings, x.v);
    DiscoveryLoop.FindStepsAreTurns(x.p, x.s.address, begun, x.plan.finding);
    DiscoveryLoop.FindingKeepsCoupled(x.p, x.s.address, begun, x.plan.finding);
    RoundsBeginARun(mac, x.s, Decoded(x.v.queue), AirOf(x.v.frames), ExecutionOf(mac, x).script.finding);
  }

  /** The labels are what happens at the nodes, in some order. */
  ghost predicate Interleaves(mac: MacParams, xs: map<Address, Planned>, labels: seq<Label>) {
    && (forall i | 0 <= i < |labels| :: labels[i].v in xs)
    && forall v | v in xs :: HappensAt(mac, v, xs[v], labels)
  }

  ghost predicate HappensAt(mac: MacParams, v: Address, x: Planned, labels: seq<Label>) {
    && x.p.tm.Valid() && CanAccept(mac, x.s) && CanAccept(mac, Start(x).n.s)
    && EventsAt(labels, v) == Happening(mac, Start(x).n, ScriptEvents(ExecutionOf(mac, x).script.rounds))
  }

  /** Node `u` has come past the stage, and frame `f`, transmitted by then, is what carries `t` to a node with an RX
      buffer of `size` bytes. */
  ghost predicate Carries(mac: MacParams, u: Address, x: Planned, past: seq<Label>, st: Stage, f: SentFrame, size: nat,
                          t: Transmission) {
    && x.p.tm.Valid() && CanAccept(mac, Start(x).n.s) && InPlan(st, x.plan.rounds)
    && Happening(mac, Start(x).n, EventsBy(mac, x.p, Start(x), x.plan.rounds, st)) <= EventsAt(past, u)
    && f in PartyAt(mac, x.p, Start(x), x.plan.rounds, st).v.frames
    && t in ReadAs(Received(f.bytes, size), f.phase)
  }

  /** Whatever label `i` hears was read from a frame that its sender had transmitted by then. */
  ghost predicate HearsAFrame(mac: MacParams, xs: map<Address, Planned>, labels: seq<Label>, i: nat)
    requires i < |labels|
  {
    var l := labels[i];
    l.e.Hear? ==>
      && l.v in xs && l.from in xs
      && exists st, f :: Carries(mac, l.from, xs[l.from], labels[..i], st, f, xs[l.v].p.rxSize, l.e.t)
  }

  ghost predicate AllHearFrames(mac: MacParams, xs: map<Address, Planned>, labels: seq<Label>) {
    forall i | 0 <= i < |labels| :: HearsAFrame(mac, xs, labels, i)
  }

  // ---- The run ---------------------------------------------------------------------------------------------

  lemma {:induction false} AirGrows(mac: MacParams, n: Node, es: seq<Event>, k: nat)
    requires CanAccept(mac, n.s) && k <= |es|
    ensures RunEvents(mac, n, es[..k]).air <= RunEvents(mac, n, es).air
  {
    if k == |es| {
      assert es[..k] == es;
    } else {
      var init := es[..|es| - 1];
      assert init[..k] == es[..k];
      AirGrows(mac, n, init, k);
      StepKeepsAir(mac, RunEvents(mac, n, init), es[|es| - 1]);
    }
  }

  lemma StepKeepsAir(mac: MacParams, n: Node, e: Event)
    requires CanAccept(mac, n.s)
    ensures Enabled(n, e) ==> n.air <= React(mac, n, e).air
  {
  }

  lemma {:induction false} HappeningIsEnabled(mac: MacParams, n: Node, es: seq<Event>, h: seq<Event>, e: Event)
    requires CanAccept(mac, n.s) && h + [e] <= Happening(mac, n, es)
    ensures Enabled(RunEvents(mac, n, h), e)
  {
    if es != [] {
      var init := es[..|es| - 1];
      var all := Happening(mac, n, init);
      if |h| < |all| {
        assert h + [e] <= all;
        HappeningIsEnabled(mac, n, init, h, e);
      } else {
        var hs := Happening(mac, n, es);
        assert hs[..|h| + 1] == h + [e] && hs[|h|] == e;
        assert h == all by { assert hs[..|h|] == h && hs[..|all|] == all; }
        HappeningIsEnough(mac, n, init);
      }
    }
  }

  lemma {:induction false} EventsAtPrefix(labels: seq<Label>, v: Address, i: nat)
    requires i <= |labels|
    ensures EventsAt(labels[..i], v) <= EventsAt(labels, v)
  {
    if i == |labels| {
      assert labels[..i] == labels;
    } else {
      var init := labels[..|labels| - 1];
      assert init[..i] == labels[..i];
      EventsAtPrefix(init, v, i);
    }
  }

  lemma EventsAtNext(labels: seq<Label>, v: Address, i: nat)
    requires i < |labels|
    ensures EventsAt(labels[..i + 1], v)
         == if labels[i].v == v then EventsAt(labels[..i], v) + [labels[i].e] else EventsAt(labels[..i], v)
  {
    assert labels[..i + 1][..i] == labels[..i];
  }

  ghost function NetworkAfter(mac: MacParams, xs: map<Address, Planned>, labels: seq<Label>): (g: Network)
    requires forall v | v in xs :: xs[v].p.tm.Valid() && CanAccept(mac, Start(xs[v]).n.s)
    ensures g.Keys == xs.Keys && forall v | v in xs :: g[v] == RunEvents(mac, Start(xs[v]).n, EventsAt(labels, v))
  {
    map v | v in xs :: RunEvents(mac, Start(xs[v]).n, EventsAt(labels, v))
  }

  ghost predicate CanRun(mac: MacParams, xs: map<Address, Planned>) {
    forall v | v in xs :: xs[v].p.tm.Valid() && CanAccept(mac, Start(xs[v]).n.s)
  }

  lemma PrefixAir(mac: MacParams, n: Node, es: seq<Event>, all: seq<Event>)
    requires CanAccept(mac, n.s) && Happening(mac, n, es) <= all
    ensures RunEvents(mac, n, es).air <= RunEvents(mac, n, all).air
  {
    var h := Happening(mac, n, es);
    HappeningIsEnough(mac, n, es);
    assert all[..|h|] == h;
    AirGrows(mac, n, all, |h|);
  }

  /** What is read from a frame that was transmitted by a stage is on the air of the node when it has come past. */
  lemma CarriedIsOnAir(mac: MacParams, u: Address, x: Planned, past: seq<Label>, st: Stage, f: SentFrame, size: nat,
                       t: Transmission)
    requires Carries(mac, u, x, past, st, f, size, t) && size <= 255 && Begins(mac, x.p, Start(x), x.plan.rounds)
    ensures t in RunEvents(mac, Start(x).n, EventsAt(past, u)).air
  {
    StageIsRun(mac, x.p, Start(x), x.plan.rounds, st);
    PrefixAir(mac, Start(x).n, EventsBy(mac, x.p, Start(x), x.plan.rounds, st), EventsAt(past, u));
    FrameIsOnAir(PartyAt(mac, x.p, Start(x), x.plan.rounds, st).v.frames, f, size, t);
  }

  /** Everything heard is on the air. */
  lemma LabelIsPossible(mac: MacParams, xs: map<Address, Planned>, labels: seq<Label>, i: nat)
    requires AllMayStart(mac, xs) && i < |labels| && HearsAFrame(mac, xs, labels, i) && labels[i].e.Hear?
    ensures var l := labels[i];
      && l.from in xs && xs[l.from].p.tm.Valid() && CanAccept(mac, Start(xs[l.from]).n.s)
      && l.e.t in RunEvents(mac, Start(xs[l.from]).n, EventsAt(labels[..i], l.from)).air
  {
    var l := labels[i];
    var st, f :| Carries(mac, l.from, xs[l.from], labels[..i], st, f, xs[l.v].p.rxSize, l.e.t);
    assert MayStart(mac, l.v, xs[l.v]) && MayStart(mac, l.from, xs[l.from]);
    StartsAsFound(mac, l.from, xs[l.from]);
    CarriedIsOnAir(mac, l.from, xs[l.from], labels[..i], st, f, xs[l.v].p.rxSize, l.e.t);
  }

  /** Everything that happens can happen then. */
  lemma LabelIsEnabled(mac: MacParams, v: Address, x: Planned, labels: seq<Label>, i: nat)
    requires HappensAt(mac, v, x, labels) && i < |labels| && labels[i].v == v
    ensures var n := RunEvents(mac, Start(x).n, EventsAt(labels[..i], v));
      Enabled(n, labels[i].e) && RunEvents(mac, Start(x).n, EventsAt(labels[..i + 1], v)) == React(mac, n, labels[i].e)
  {
    EventsAtNext(labels, v, i);
    EventsAtPrefix(labels, v, i + 1);
    HappeningIsEnabled(mac, Start(x).n, ScriptEvents(ExecutionOf(mac, x).script.rounds), EventsAt(labels[..i], v),
                       labels[i].e);
    RunSnoc(mac, Start(x).n, EventsAt(labels[..i], v), labels[i].e);
  }

  lemma ReplacedOnly(g: Network, g': Network, u: Address)
    requires u in g && g'.Keys == g.Keys && forall v | v in g && v != u :: g'[v] == g[v]
    ensures g' == g[u := g'[u]]
  {
  }

  lemma OthersStay(mac: MacParams, xs: map<Address, Planned>, labels: seq<Label>, i: nat)
    requires CanRun(mac, xs) && i < |labels| && labels[i].v in xs
    ensures var g, g' := NetworkAfter(mac, xs, labels[..i]), NetworkAfter(mac, xs, labels[..i + 1]);
      g' == g[labels[i].v := g'[labels[i].v]]
  {
    var g, g' := NetworkAfter(mac, xs, labels[..i]), NetworkAfter(mac, xs, labels[..i + 1]);
    forall v | v in g && v != labels[i].v ensures g'[v] == g[v] { EventsAtNext(labels, v, i); }
    ReplacedOnly(g, g', labels[i].v);
  }

  lemma LabelIsStep(mac: MacParams, xs: map<Address, Planned>, labels: seq<Label>, i: nat)
    requires AllMayStart(mac, xs) && Interleaves(mac, xs, labels) && AllHearFrames(mac, xs, labels) && i < |labels|
    requires CanRun(mac, xs)
    ensures var l := labels[i];
      Step(mac, NetworkAfter(mac, xs, labels[..i]), l.v, l.e, l.from, NetworkAfter(mac, xs, labels[..i + 1]))
  {
    var l := labels[i];
    assert HappensAt(mac, l.v, xs[l.v], labels);
    LabelIsEnabled(mac, l.v, xs[l.v], labels, i);
    if l.e.Hear? {
      assert HearsAFrame(mac, xs, labels, i);
      LabelIsPossible(mac, xs, labels, i);
    }
    OthersStay(mac, xs, labels, i);
  }

  ghost function RunOf(mac: MacParams, xs: map<Address, Planned>, labels: seq<Label>): (run: seq<Network>)
    requires CanRun(mac, xs)
    ensures |run| == |labels| + 1 && forall i | 0 <= i < |run| :: run[i] == NetworkAfter(mac, xs, labels[..i])
  {
    seq(|labels| + 1, i requires 0 <= i <= |labels| => NetworkAfter(mac, xs, labels[..i]))
  }

  ghost function Executions(mac: MacParams, xs: map<Address, Planned>): (es: map<Address, Execution>)
    requires forall v | v in xs :: CanAccept(mac, xs[v].s) && xs[v].p.tm.Valid()
    ensures es.Keys == xs.Keys && forall v | v in xs :: es[v] == ExecutionOf(mac, xs[v])
  {
    map v | v in xs :: ExecutionOf(mac, xs[v])
  }

  lemma AllStart(mac: MacParams, xs: map<Address, Planned>)
    requires AllMayStart(mac, xs)
    ensures CanRun(mac, xs) && forall v | v in xs :: CanAccept(mac, xs[v].s)
    ensures Initial(mac, NetworkAfter(mac, xs, []))
  {
    forall v | v in xs
      ensures CanAccept(mac, xs[v].s) && xs[v].p.tm.Valid() && AtStart(mac, v, Start(xs[v]).n)
    {
      assert MayStart(mac, v, xs[v]);
      StartsAsFound(mac, v, xs[v]);
    }
  }

  lemma PlanIsExecuted(mac: MacParams, run: seq<Network>, labels: seq<Label>, v: Address, x: Planned)
    requires Slotted(mac) && MayStart(mac, v, x) && HappensAt(mac, v, x, labels)
    requires run != [] && v in run[0] && run[0][v] == Start(x).n
    ensures Executes(mac, run, labels, v, ExecutionOf(mac, x))
  {
    StartsAsFound(mac, v, x);
  }

  /** Plans at all nodes, in which what the radios receive are frames that other nodes have transmitted by then, are
      executed by a run of the network. */
  lemma PlansFormARun(mac: MacParams, xs: map<Address, Planned>, labels: seq<Label>) returns (run: seq<Network>)
    requires AllMayStart(mac, xs) && Interleaves(mac, xs, labels) && AllHearFrames(mac, xs, labels)
    ensures forall v | v in xs :: CanAccept(mac, xs[v].s) && xs[v].p.tm.Valid()
    ensures AllExecute(mac, run, labels, Executions(mac, xs))
  {
    AllStart(mac, xs);
    run := RunOf(mac, xs, labels);
    assert labels[..0] == [];
    forall i | 0 <= i < |labels| ensures LabelAt(mac, run, labels, i) { LabelIsStep(mac, xs, labels, i); }
    forall v | v in xs ensures Executes(mac, run, labels, v, Executions(mac, xs)[v]) {
      assert HappensAt(mac, v, xs[v], labels) && MayStart(mac, v, xs[v]);
      PlanIsExecuted(mac, run, labels, v, xs[v]);
    }
  }

  /** So whatever plans the nodes are given, members and clusterheads agree on their slots afterwards. */
  lemma PlansAgree(mac: MacParams, xs: map<Address, Planned>, labels: seq<Label>, v: Address)
    requires AllMayStart(mac, xs) && Interleaves(mac, xs, labels) && AllHearFrames(mac, xs, labels)
    requires forall u | u in xs :: CanAccept(mac, xs[u].s) && xs[u].p.tm.Valid()
    requires v in xs && AfterPlan(mac, xs[v].p, xs[v].s, xs[v].v, xs[v].plan).n.s.clusterheadAddr != UNKNOWN_ADDR
    ensures var s := AfterPlan(mac, xs[v].p, xs[v].s, xs[v].v, xs[v].plan).n.s;
      && s.clusterheadAddr in xs && s.clusterheadAddr != v && Slotted(mac)
      && var u := xs[s.clusterheadAddr];
         var head := AfterPlan(mac, u.p, u.s, u.v, u.plan).n.s;
      && head.ActsAsClusterhead() && head.downstreamStartSlot == s.upstreamStartSlot
      && s.upstreamRelativeSlot as nat < |head.slotAssignments| && head.slotAssignments[s.upstreamRelativeSlot] == v
      && s.upstreamAckSlot == AckSlot(mac, s.upstreamStartSlot)
  {
    var run := PlansFormARun(mac, xs, labels);
    var es := Executions(mac, xs);
    AllCanExecute(mac, run, labels, es);
    var x := xs[v];
    PlanIsScript(mac, x.p, x.s, x.v, x.plan);
    ExecutionsAgree(mac, run, labels, es, v);
    var u := xs[Outcome(mac, es)[v].s.clusterheadAddr];
    PlanIsScript(mac, u.p, u.s, u.v, u.plan);
  }
}
