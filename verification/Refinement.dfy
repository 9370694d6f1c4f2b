/** What the theorems about runs say of executions of `do_advertise`. */
module Refinement {
  import opened Bytes
  import opened Messages
  import opened SlotClock
  import opened State
  import opened Cluster
  import opened Rounds
  import opened Advertise
  import opened Advertising
  import opened Clusters
  import opened Timetable
  import Convergecast
  import Waiting

  // ---- Set-up and the start of a run -----------------------------------------------------------------

  /** A node whose role suits its address. */
  predicate WellFormedNode(mac: MacParams, s: NodeState) {
    && s.address != UNKNOWN_ADDR && CanAccept(mac, s) && s.role != NotInit
    && (s.role == Gateway <==> s.address == GATEWAY_ADDR)
  }

  /** `init` sets up such a node, and advertising leaves it one. */
  lemma InitIsWellFormed(mac: MacParams, address: Address, clusterheadP: Byte, slotCount: nat)
    requires Slotted(mac) && mac.slotCount as nat <= slotCount && address != UNKNOWN_ADDR
    ensures WellFormedNode(mac, Initialized(mac, address, clusterheadP, slotCount))
  {
  }

  predicate SameNode(s: NodeState, s': NodeState) {
    s'.address == s.address && (s'.role == Gateway <==> s.role == Gateway) && s'.role != NotInit
  }

  lemma ReactIsSameNode(mac: MacParams, n: Node, e: Event)
    requires CanAccept(mac, n.s) && Enabled(n, e) && n.s.role != NotInit
    ensures SameNode(n.s, React(mac, n, e).s)
  {
  }

  lemma {:induction false} RunIsSameNode(mac: MacParams, n: Node, es: seq<Event>)
    requires CanAccept(mac, n.s) && n.s.role != NotInit
    ensures SameNode(n.s, RunEvents(mac, n, es).s)
  {
    if es != [] {
      var init, e := es[..|es| - 1], es[|es| - 1];
      RunIsSameNode(mac, n, init);
      if Enabled(RunEvents(mac, n, init), e) { ReactIsSameNode(mac, RunEvents(mac, n, init), e); }
    }
  }

  lemma AdvertisingKeepsWellFormed(mac: MacParams, s: NodeState, queue: set<Message>, air: set<Transmission>,
                                   script: Script)
    requires WellFormedNode(mac, s) && |script.rounds| == NUM_ADV_ROUNDS
    ensures WellFormedNode(mac, Credited(AfterScript(mac, s, queue, air, script).s))
  {
    AdvertisingIsSteps(mac, s, queue, air, script);
    RunIsSameNode(mac, Found(s, queue, air, script.finding), ScriptEvents(script.rounds));
  }

  predicate NoClustering(queue: set<Message>, air: set<Transmission>) {
    && (forall m | m in queue :: !Clustering(m.body))
    && forall t | t in air :: !Clustering(t.message.body)
  }

  /** Whatever happens in discovery, the rounds begin in a state in which a run of the clustering protocol may
      begin, unless messages of that protocol are left over from before. */
  lemma RoundsBeginARun(mac: MacParams, s: NodeState, queue: set<Message>, air: set<Transmission>,
                        turns: seq<DiscoveryLoop.FindTurn>)
    requires WellFormedNode(mac, s) && NoClustering(queue, air)
    ensures AtStart(mac, s.address, Found(s, queue, air, turns))
  {
    var f := DiscoveryLoop.Started(s.rings, queue, air);
    var f' := DiscoveryLoop.FindTurns(s.address, f, turns);
    var k, now := DiscoveryLoop.SaysAtMostOneHeartbeat(s.address, f, turns);
    forall m | m in DiscoveryLoop.Said(f) ensures !Clustering(m.body) {
    }
    forall m | m in DiscoveryLoop.Said(f') ensures !Clustering(m.body) {
    }
    forall m | m in f'.queue ensures !Clustering(m.body) {
      assert m in DiscoveryLoop.Said(f');
    }
    forall t | t in f'.air ensures !Clustering(t.message.body) {
      assert t.message in DiscoveryLoop.Said(f');
    }
  }

  // ---- One node's part in a run ------------------------------------------------------------------------

  /** The three rounds of an execution are the events of its script, and nothing else. */
  lemma AdvertisingIsSteps(mac: MacParams, s: NodeState, queue: set<Message>, air: set<Transmission>, script: Script)
    requires CanAccept(mac, s) && |script.rounds| == NUM_ADV_ROUNDS
    ensures AfterScript(mac, s, queue, air, script)
      == RunEvents(mac, Found(s, queue, air, script.finding), ScriptEvents(script.rounds))
    ensures AfterScript(mac, s, queue, air, script).c.phase == Ready(NUM_ADV_ROUNDS)
  {
    RoundsAreRun(mac, Found(s, queue, air, script.finding), script.rounds);
  }

  /** Every execution of `do_advertise` is one superframe of a trace, so that bounded waiting holds of it. */
  lemma AdvertisingIsASuperframe(mac: MacParams, s: NodeState, queue: set<Message>, air: set<Transmission>,
                                 script: Script)
    requires CanAccept(mac, s) && |script.rounds| == NUM_ADV_ROUNDS
    ensures Waiting.Superframe(mac, s, Credited(AfterScript(mac, s, queue, air, script).s))
  {
    AdvertisingIsSteps(mac, s, queue, air, script);
    var n := Found(s, queue, air, script.finding);
    var c := Waiting.Course(n.s.rings, n.queue, n.air, ScriptEvents(script.rounds));
    assert Credited(AfterScript(mac, s, queue, air, script).s) == Waiting.AfterSuperframe(mac, s, c);
  }

  /** The events that happen, of those that could: the others are passed over. */
  function Happening(mac: MacParams, n: Node, es: seq<Event>): seq<Event>
    requires CanAccept(mac, n.s)
  {
    if es == [] then []
    else
      var init, e := es[..|es| - 1], es[|es| - 1];
      Happening(mac, n, init) + if Enabled(RunEvents(mac, n, init), e) then [e] else []
  }

  lemma {:induction false} HappeningIsEnough(mac: MacParams, n: Node, es: seq<Event>)
    requires CanAccept(mac, n.s)
    ensures RunEvents(mac, n, Happening(mac, n, es)) == RunEvents(mac, n, es)
  {
    if es != [] {
      var init, e := es[..|es| - 1], es[|es| - 1];
      HappeningIsEnough(mac, n, init);
      if Enabled(RunEvents(mac, n, init), e) {
        RunSnoc(mac, n, Happening(mac, n, init), e);
      } else {
        assert Happening(mac, n, es) == Happening(mac, n, init);
      }
    }
  }

  /** A step of a run: who takes it, what happens, and who sent what is heard. */
  datatype Label = Label(v: Address, e: Event, from: Address)

  ghost predicate LabelAt(mac: MacParams, run: seq<Network>, labels: seq<Label>, i: nat)
    requires |run| == |labels| + 1 && i < |labels|
  {
    Step(mac, run[i], labels[i].v, labels[i].e, labels[i].from, run[i + 1])
  }

  ghost predicate IsLabelledRun(mac: MacParams, run: seq<Network>, labels: seq<Label>) {
    && |run| == |labels| + 1 && Initial(mac, run[0])
    && forall i | 0 <= i < |labels| :: LabelAt(mac, run, labels, i)
  }

  lemma LabelledRunIsRun(mac: MacParams, run: seq<Network>, labels: seq<Label>)
    requires IsLabelledRun(mac, run, labels)
    ensures IsRun(mac, run)
  {
    forall i | 0 < i < |run| ensures Linked(mac, run, i) { assert LabelAt(mac, run, labels, i - 1); }
  }

  /** The events at one node. */
  function EventsAt(labels: seq<Label>, v: Address): seq<Event> {
    if labels == [] then []
    else EventsAt(labels[..|labels| - 1], v) + if labels[|labels| - 1].v == v then [labels[|labels| - 1].e] else []
  }

  /** In every run, a node is what the events at that node make of it. */
  lemma {:induction false} NodeRunsLocally(mac: MacParams, run: seq<Network>, labels: seq<Label>, v: Address, k: nat)
    requires IsLabelledRun(mac, run, labels) && v in run[0] && k <= |labels|
    ensures CanAccept(mac, run[0][v].s) && v in run[k]
    ensures run[k].Keys == run[0].Keys
    ensures run[k][v] == RunEvents(mac, run[0][v], EventsAt(labels[..k], v))
  {
    assert AtStart(mac, v, run[0][v]);
    if k > 0 {
      NodeRunsLocally(mac, run, labels, v, k - 1);
      assert LabelAt(mac, run, labels, k - 1);
      var l, before := labels[k - 1], EventsAt(labels[..k - 1], v);
      assert labels[..k][..k - 1] == labels[..k - 1];
      assert EventsAt(labels[..k], v) == if l.v == v then before + [l.e] else before;
      RunSnoc(mac, run[0][v], before, l.e);
    }
  }

  // ---- Executions of all nodes -------------------------------------------------------------------------

  /** A node's state, TX queue and transmissions when it calls `do_advertise`, and what then happens to it. */
  datatype Execution = Execution(s: NodeState, queue: set<Message>, air: set<Transmission>, script: Script)

  function FoundBy(x: Execution): Node { Found(x.s, x.queue, x.air, x.script.finding) }

  /** The steps of node `v` in the run are exactly the events of its execution. */
  ghost predicate Executes(mac: MacParams, run: seq<Network>, labels: seq<Label>, v: Address, x: Execution) {
    && run != [] && v in run[0] && x.s.address == v && CanAccept(mac, x.s) && |x.script.rounds| == NUM_ADV_ROUNDS
    && run[0][v] == FoundBy(x)
    && CanAccept(mac, run[0][v].s) && EventsAt(labels, v) == Happening(mac, run[0][v], ScriptEvents(x.script.rounds))
  }

  /** All nodes execute `do_advertise`, and hear what they transmit to one another, as the run says. */
  ghost predicate AllExecute(mac: MacParams, run: seq<Network>, labels: seq<Label>, xs: map<Address, Execution>) {
    && IsLabelledRun(mac, run, labels) && run[0].Keys == xs.Keys
    && forall v | v in xs :: Executes(mac, run, labels, v, xs[v])
  }

  ghost predicate CanExecute(mac: MacParams, xs: map<Address, Execution>) {
    forall v | v in xs :: CanAccept(mac, xs[v].s)
  }

  function End(mac: MacParams, x: Execution): Node
    requires CanAccept(mac, x.s)
  {
    AfterScript(mac, x.s, x.queue, x.air, x.script)
  }

  /** All nodes when advertising is over. */
  ghost function Outcome(mac: MacParams, xs: map<Address, Execution>): (g: Network)
    requires CanExecute(mac, xs)
    ensures g.Keys == xs.Keys && forall v | v in xs :: g[v] == End(mac, xs[v])
  {
    map v | v in xs :: End(mac, xs[v])
  }

  lemma ExecutionEndsRun(mac: MacParams, run: seq<Network>, labels: seq<Label>, v: Address, x: Execution)
    requires IsLabelledRun(mac, run, labels) && Executes(mac, run, labels, v, x)
    ensures v in run[|labels|] && run[|labels|][v] == End(mac, x)
  {
    NodeRunsLocally(mac, run, labels, v, |labels|);
    assert labels[..|labels|] == labels;
    HappeningIsEnough(mac, run[0][v], ScriptEvents(x.script.rounds));
    AdvertisingIsSteps(mac, x.s, x.queue, x.air, x.script);
  }

  lemma {:induction false} KeysStay(mac: MacParams, run: seq<Network>, labels: seq<Label>, k: nat)
    requires IsLabelledRun(mac, run, labels) && k <= |labels|
    ensures run[k].Keys == run[0].Keys
  {
    if k > 0 {
      KeysStay(mac, run, labels, k - 1);
      assert LabelAt(mac, run, labels, k - 1);
    }
  }

  lemma AllCanExecute(mac: MacParams, run: seq<Network>, labels: seq<Label>, xs: map<Address, Execution>)
    requires AllExecute(mac, run, labels, xs)
    ensures CanExecute(mac, xs)
  {
    forall v | v in xs ensures CanAccept(mac, xs[v].s) { assert Executes(mac, run, labels, v, xs[v]); }
  }

  /** When all nodes execute `do_advertise`, the states with which they leave the rounds are the last of a run. */
  lemma ExecutionsEndARun(mac: MacParams, run: seq<Network>, labels: seq<Label>, xs: map<Address, Execution>)
    requires AllExecute(mac, run, labels, xs)
    ensures CanExecute(mac, xs) && IsRun(mac, run) && run[|labels|] == Outcome(mac, xs)
  {
    AllCanExecute(mac, run, labels, xs);
    LabelledRunIsRun(mac, run, labels);
    KeysStay(mac, run, labels, |labels|);
    ghost var g, g' := run[|labels|], Outcome(mac, xs);
    forall v | v in xs ensures g[v] == g'[v] {
      assert Executes(mac, run, labels, v, xs[v]);
      ExecutionEndsRun(mac, run, labels, v, xs[v]);
    }
    SameNetwork(g, g');
  }

  lemma SameNetwork(g: Network, g': Network)
    requires g.Keys == g'.Keys && forall v | v in g :: g[v] == g'[v]
    ensures g == g'
  {
  }

  /** Executions agree on their slots: what a member believes is what its clusterhead's table says. */
  lemma ExecutionsAgree(mac: MacParams, run: seq<Network>, labels: seq<Label>, xs: map<Address, Execution>, v: Address)
    requires AllExecute(mac, run, labels, xs) && v in xs && CanExecute(mac, xs) && Joined(Outcome(mac, xs), v)
    ensures var s := Outcome(mac, xs)[v].s;
      && HasSlot(Outcome(mac, xs), v, s.clusterheadAddr, s.upstreamStartSlot, s.upstreamRelativeSlot)
      && Slotted(mac) && s.upstreamAckSlot == AckSlot(mac, s.upstreamStartSlot)
  {
    ExecutionsEndARun(mac, run, labels, xs);
    RunIsSafe(mac, run, |labels|);
    SlotTableAgreement(mac, run, |labels|, v);
  }

  /** Executions build a forest that keeps the timetable. */
  lemma ExecutionsKeepTimetable(mac: MacParams, run: seq<Network>, labels: seq<Label>, xs: map<Address, Execution>,
                                chain: seq<Address>)
    requires AllExecute(mac, run, labels, xs) && CanExecute(mac, xs) && IsChain(Outcome(mac, xs), chain)
    requires mac.reuseDistance >= 3
    ensures |chain| - 1 <= NUM_ADV_ROUNDS && forall a, b | 0 <= a < b < |chain| :: chain[a] != chain[b]
    ensures forall k | 0 <= k < |chain| :: chain[k] in xs
    ensures forall a, b | 0 <= a < b < |chain| - 1 ::
      SendSlot(Outcome(mac, xs)[chain[a]].s) < SendSlot(Outcome(mac, xs)[chain[b]].s)
  {
    ExecutionsEndARun(mac, run, labels, xs);
    ClusterForest(mac, run, |labels|, chain);
    Convergecast.ConvergecastTimetable(mac, run, |labels|, chain);
  }

  /** What `do_advertise` computes on a node's objects is such an execution: the script is the plan with what
      followed from it, and the node's queue and transmissions are those of the link layer. */
  lemma PlanIsExecution(mac: MacParams, p: Stations.Setup, s: NodeState, v: Stations.LinkView, plan: Plan)
    requires CanAccept(mac, s) && p.tm.Valid()
    ensures var x := Execution(s, Stations.Decoded(v.queue), Stations.AirOf(v.frames), ScriptOf(mac, p, s, v, plan));
      var y := AfterPlan(mac, p, s, v, plan);
      && y.n == AfterScript(mac, x.s, x.queue, x.air, x.script)
      && y.n.queue == Stations.Decoded(y.v.queue) && y.n.air == Stations.AirOf(y.v.frames)
  {
    PlanIsScript(mac, p, s, v, plan);
  }
}
