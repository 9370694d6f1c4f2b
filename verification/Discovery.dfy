/** Ring discovery across a network: hop distances, safety under loss, convergence without it. */
module Discovery {
  import opened Messages
  import opened Rings

  /** Who can hear whom: `(u, v)` means that `v` receives what `u` sends. */
  datatype Graph = Graph(nodes: set<Address>, edges: set<(Address, Address)>)

  ghost predicate ValidGraph(g: Graph) {
    && GATEWAY_ADDR in g.nodes && UNKNOWN_ADDR !in g.nodes
    && forall e | e in g.edges :: e.0 in g.nodes && e.1 in g.nodes
  }

  // ---- Hop distance ---------------------------------------------------------------------------

  ghost predicate Hop(g: Graph, u: Address, v: Address) { (u, v) in g.edges }

  /** `v` can be reached from the gateway over at most `k` hops. */
  ghost predicate WithinHops(g: Graph, v: Address, k: nat)
    decreases k
  {
    if k == 0 then v == GATEWAY_ADDR
    else WithinHops(g, v, k - 1) || exists u :: Hop(g, u, v) && WithinHops(g, u, k - 1)
  }

  ghost predicate IsPath(g: Graph, p: seq<Address>) {
    && p != [] && p[0] == GATEWAY_ADDR
    && forall i | 0 < i < |p| :: Hop(g, p[i - 1], p[i])
  }

  ghost predicate PathTo(g: Graph, v: Address, p: seq<Address>) { IsPath(g, p) && p[|p| - 1] == v }

  lemma {:induction false} WithinHopsMonotone(g: Graph, v: Address, j: nat, k: nat)
    requires j <= k && WithinHops(g, v, j)
    ensures WithinHops(g, v, k)
    decreases k - j
  {
    if j < k { WithinHopsMonotone(g, v, j + 1, k); }
  }

  /** `WithinHops` means what it says: there is a path with that many hops or fewer. */
  lemma WithinHopsIffPath(g: Graph, v: Address, k: nat)
    ensures WithinHops(g, v, k) <==> exists p :: PathTo(g, v, p) && |p| <= k + 1
  {
    if WithinHops(g, v, k) { var p := PathOf(g, v, k); }
    if p :| PathTo(g, v, p) && |p| <= k + 1 {
      PathGivesHops(g, p);
      WithinHopsMonotone(g, v, |p| - 1, k);
    }
  }

  lemma {:induction false} PathOf(g: Graph, v: Address, k: nat) returns (p: seq<Address>)
    requires WithinHops(g, v, k)
    ensures PathTo(g, v, p) && |p| <= k + 1
    decreases k
  {
    if k == 0 {
      p := [v];
    } else if WithinHops(g, v, k - 1) {
      p := PathOf(g, v, k - 1);
    } else {
      var u :| Hop(g, u, v) && WithinHops(g, u, k - 1);
      p := PathOf(g, u, k - 1);
      p := p + [v];
    }
  }

  lemma {:induction false} PathGivesHops(g: Graph, p: seq<Address>)
    requires IsPath(g, p)
    ensures WithinHops(g, p[|p| - 1], |p| - 1)
  {
    if |p| > 1 {
      PathGivesHops(g, p[..|p| - 1]);
      assert Hop(g, p[|p| - 2], p[|p| - 1]);
    }
  }

  /** Hop distance to the gateway, capped at 255 as rings are. */
  ghost function Distance(g: Graph, v: Address): (d: nat)
    ensures d <= 255
    ensures d < 255 ==> WithinHops(g, v, d)
    ensures forall k: nat | k < d :: !WithinHops(g, v, k)
  {
    DistanceFrom(g, v, 0)
  }

  ghost function DistanceFrom(g: Graph, v: Address, k: nat): (d: nat)
    requires k <= 255 && forall j: nat | j < k :: !WithinHops(g, v, j)
    ensures k <= d <= 255
    ensures d < 255 ==> WithinHops(g, v, d)
    ensures forall j: nat | j < d :: !WithinHops(g, v, j)
    decreases 255 - k
  {
    if k == 255 || WithinHops(g, v, k) then k else DistanceFrom(g, v, k + 1)
  }

  lemma DistanceAtMost(g: Graph, v: Address, k: nat)
    requires WithinHops(g, v, k)
    ensures Distance(g, v) <= k
  {
  }

  /** A ring is sound for a node when it is the unknown ring or counts enough hops to reach the gateway. */
  ghost predicate SoundRing(g: Graph, v: Address, r: Ring) { r == UNKNOWN_RING || WithinHops(g, v, r as nat) }

  lemma SoundIsAtLeastDistance(g: Graph, v: Address, r: Ring)
    ensures SoundRing(g, v, r) <==> Distance(g, v) <= r as nat
  {
    if r != UNKNOWN_RING && Distance(g, v) <= r as nat { WithinHopsMonotone(g, v, Distance(g, v), r as nat); }
  }

  // ---- Every run, with loss, delay, reordering and duplication ----------------------------------

  datatype Beat = Beat(src: Address, ring: Ring)

  /** A heartbeat stays in `air` for ever; one that is lost is one that nobody hears. */
  datatype Network = Network(nodes: map<Address, RingState>, air: set<Beat>)

  datatype Event = Reset(v: Address) | Hear(v: Address, b: Beat) | Update(v: Address) | Announce(v: Address)

  /** What an event does to the state of the node that it happens to. */
  function Local(s: RingState, e: Event): RingState {
    match e
    case Reset(_) => s.(neighbors := NO_NEIGHBORS)
    case Hear(_, b) => s.(neighbors := AddNeighbor(s.neighbors, b.ring))
    case Update(v) => UpdateRing(v, s)
    case Announce(_) => s
  }

  ghost predicate Init(g: Graph, n: Network) {
    && n.nodes.Keys == g.nodes && n.air == {}
    && forall v | v in g.nodes ::
         n.nodes[v] == RingState(if v == GATEWAY_ADDR then GATEWAY_RING else UNKNOWN_RING, NO_NEIGHBORS, 0)
  }

  /** The lowest ring that the update reads off the histogram does not fit 8 bits. */
  predicate Wraps(r: RingList) {
    var k := FirstCell(r.counts, 0);
    k < CELLS && r.ringStart as int + k > 255
  }

  ghost predicate Step(g: Graph, n: Network, e: Event, n': Network) {
    && e.v in n.nodes
    && var nodes := n.nodes[e.v := Local(n.nodes[e.v], e)];
      match e
      case Reset(v) => n' == n.(nodes := nodes)
      case Hear(v, b) => b in n.air && Hop(g, b.src, v) && n' == n.(nodes := nodes)
      case Update(v) => !Wraps(n.nodes[v].neighbors) && n' == n.(nodes := nodes)
      case Announce(v) => n' == n.(nodes := nodes, air := n.air + {Beat(v, n.nodes[v].ring)})
  }

  ghost predicate Next(g: Graph, n: Network, n': Network) { exists e :: Step(g, n, e, n') }

  ghost predicate IsRun(g: Graph, run: seq<Network>) {
    && run != [] && Init(g, run[0])
    && forall i | 0 < i < |run| :: Next(g, run[i - 1], run[i])
  }

  /** The histogram starts at a ring that was heard from a neighbour, or is empty. */
  ghost predicate Anchored(g: Graph, v: Address, r: RingList) {
    r.counts == NO_COUNTS || (r.ringStart != UNKNOWN_RING && WithinHops(g, v, r.ringStart as nat + 1))
  }

  ghost predicate SafeNode(g: Graph, v: Address, s: RingState) {
    SoundRing(g, v, s.ring) && (v == GATEWAY_ADDR ==> s.ring == GATEWAY_RING) && Anchored(g, v, s.neighbors)
  }

  ghost predicate Safe(g: Graph, n: Network) {
    && n.nodes.Keys == g.nodes
    && (forall v | v in g.nodes :: SafeNode(g, v, n.nodes[v]))
    && forall b | b in n.air :: SoundRing(g, b.src, b.ring)
  }

  /** The lowest ring is read at or above the start of the histogram, whatever became of the counts. */
  lemma LowestIsAnchored(g: Graph, v: Address, r: RingList)
    requires Anchored(g, v, r) && !Wraps(r) && LowestHeard(r) != UNKNOWN_RING
    ensures WithinHops(g, v, LowestHeard(r) as nat + 1)
  {
    WithinHopsMonotone(g, v, r.ringStart as nat + 1, LowestHeard(r) as nat + 1);
  }

  lemma UpdateIsSafe(g: Graph, v: Address, s: RingState)
    requires SafeNode(g, v, s) && !Wraps(s.neighbors)
    ensures SafeNode(g, v, UpdateRing(v, s))
  {
    if LowestHeard(s.neighbors) != UNKNOWN_RING { LowestIsAnchored(g, v, s.neighbors); }
  }

  lemma WrappedUpdate(v: Address, s: RingState)
    requires v != GATEWAY_ADDR && Wraps(s.neighbors) && s.neighbors.ringStart != UNKNOWN_RING && s.ring > 6
    ensures UpdateRing(v, s).ring <= 6
  {
    assert LowestHeard(s.neighbors) as int == s.neighbors.ringStart as int + FirstCell(s.neighbors.counts, 0) - 256;
  }

  /** Of a node that is more than six hops away, an update keeps the ring sound if and only if it does not wrap. */
  lemma UpdateIsSoundIff(g: Graph, v: Address, s: RingState)
    requires SafeNode(g, v, s) && Distance(g, v) > 6
    ensures SoundRing(g, v, UpdateRing(v, s).ring) <==> !Wraps(s.neighbors)
  {
    assert WithinHops(g, GATEWAY_ADDR, 0);
    SoundIsAtLeastDistance(g, v, s.ring);
    if Wraps(s.neighbors) {
      WrappedUpdate(v, s);
      SoundIsAtLeastDistance(g, v, UpdateRing(v, s).ring);
    } else {
      UpdateIsSafe(g, v, s);
    }
  }

  /** It does not wrap while no 8-bit cell overflows, nor when the lowest ring counted is at most 248. */
  lemma NoWrap(r: RingList, heard: seq<Ring>)
    requires IsRecount(r, heard) || r.ringStart as int + CELLS <= 256
    ensures !Wraps(r)
  {
    if IsRecount(r, heard) {
      LowestIsHeard(heard);
      if LowestOf(heard) == UNKNOWN_RING { AllCellsEmpty(r, heard); }
      assert r.counts[0] as int == Recount(heard, 0);
    }
  }

  lemma HearIsSafe(g: Graph, v: Address, s: RingState, b: Beat)
    requires SafeNode(g, v, s) && Hop(g, b.src, v) && SoundRing(g, b.src, b.ring)
    ensures SafeNode(g, v, s.(neighbors := AddNeighbor(s.neighbors, b.ring)))
  {
    if b.ring != UNKNOWN_RING { assert WithinHops(g, v, b.ring as nat + 1); }
  }

  lemma ReplacedIsSafe(g: Graph, n: Network, v: Address, s: RingState, n': Network)
    requires Safe(g, n) && v in g.nodes && SafeNode(g, v, s)
    requires n' == n.(nodes := n.nodes[v := s])
    ensures Safe(g, n')
  {
    forall u | u in g.nodes ensures SafeNode(g, u, n'.nodes[u]) {
      if u != v { assert SafeNode(g, u, n.nodes[u]); }
    }
  }

  lemma StepIsSafe(g: Graph, n: Network, e: Event, n': Network)
    requires Safe(g, n) && Step(g, n, e, n')
    ensures Safe(g, n')
  {
    var v := e.v;
    var s := n.nodes[v];
    assert SafeNode(g, v, s);
    match e
    case Reset(_) => ReplacedIsSafe(g, n, v, Local(s, e), n');
    case Hear(_, b) =>
      HearIsSafe(g, v, s, b);
      ReplacedIsSafe(g, n, v, Local(s, e), n');
    case Update(_) =>
      UpdateIsSafe(g, v, s);
      ReplacedIsSafe(g, n, v, Local(s, e), n');
    case Announce(_) =>
      assert n.nodes[v := s] == n.nodes;
  }

  lemma {:induction false} RunIsSafe(g: Graph, run: seq<Network>, i: nat)
    requires ValidGraph(g) && IsRun(g, run) && i < |run|
    ensures Safe(g, run[i])
  {
    if i > 0 {
      RunIsSafe(g, run, i - 1);
      var n, n' := run[i - 1], run[i];
      assert Next(g, n, n');
      var e :| Step(g, n, e, n');
      StepIsSafe(g, n, e, n');
    }
  }

  /** In every run without a wrapped update no ring, stored or in flight, is below the hop distance, and only the
      gateway has ring 0; heartbeats may be lost, delayed, repeated, and counted wrongly. */
  lemma RingSafety(g: Graph, run: seq<Network>, i: nat)
    requires ValidGraph(g) && IsRun(g, run) && i < |run|
    ensures run[i].nodes.Keys == g.nodes
    ensures forall v | v in g.nodes :: Distance(g, v) <= run[i].nodes[v].ring as nat
    ensures forall v | v in g.nodes :: run[i].nodes[v].ring == GATEWAY_RING <==> v == GATEWAY_ADDR
    ensures forall b | b in run[i].air :: Distance(g, b.src) <= b.ring as nat
  {
    RunIsSafe(g, run, i);
    var n := run[i];
    forall v | v in g.nodes
      ensures Distance(g, v) <= n.nodes[v].ring as nat
      ensures n.nodes[v].ring == GATEWAY_RING <==> v == GATEWAY_ADDR
    {
      assert SafeNode(g, v, n.nodes[v]);
      SoundIsAtLeastDistance(g, v, n.nodes[v].ring);
    }
    forall b | b in n.air ensures Distance(g, b.src) <= b.ring as nat {
      SoundIsAtLeastDistance(g, b.src, b.ring);
    }
  }

  // ---- One node's part in a run ------------------------------------------------------------------------

  /** The events of a run, one per step. */
  ghost predicate IsEventRun(g: Graph, run: seq<Network>, es: seq<Event>) {
    && |run| == |es| + 1 && Init(g, run[0])
    && forall i | 0 <= i < |es| :: EventAt(g, run, es, i)
  }

  ghost predicate EventAt(g: Graph, run: seq<Network>, es: seq<Event>, i: nat)
    requires |run| == |es| + 1 && i < |es|
  {
    Step(g, run[i], es[i], run[i + 1])
  }

  lemma EventRunIsRun(g: Graph, run: seq<Network>, es: seq<Event>)
    requires IsEventRun(g, run, es)
    ensures IsRun(g, run)
  {
    forall i | 0 < i < |run| ensures Next(g, run[i - 1], run[i]) { assert EventAt(g, run, es, i - 1); }
  }

  /** The events at one node. */
  function EventsAt(es: seq<Event>, v: Address): seq<Event> {
    if es == [] then []
    else EventsAt(es[..|es| - 1], v) + if es[|es| - 1].v == v then [es[|es| - 1]] else []
  }

  /** The ring state after events at one node. */
  function LocalRun(s: RingState, es: seq<Event>): RingState {
    if es == [] then s else Local(LocalRun(s, es[..|es| - 1]), es[|es| - 1])
  }

  lemma LocalSnoc(s: RingState, es: seq<Event>, e: Event)
    ensures LocalRun(s, es + [e]) == Local(LocalRun(s, es), e)
  {
    assert (es + [e])[..|es|] == es;
  }

  lemma {:induction false} LocalRunJoins(s: RingState, a: seq<Event>, b: seq<Event>)
    ensures LocalRun(s, a + b) == LocalRun(LocalRun(s, a), b)
  {
    if b == [] {
      assert a + b == a;
    } else {
      LocalRunJoins(s, a, b[..|b| - 1]);
      assert (a + b)[..|a + b| - 1] == a + b[..|b| - 1];
    }
  }

  /** In every run, a node's ring state is what the events at that node make of it. */
  lemma {:induction false} NodeRunsLocally(g: Graph, run: seq<Network>, es: seq<Event>, v: Address, k: nat)
    requires IsEventRun(g, run, es) && v in g.nodes && k <= |es|
    ensures v in run[0].nodes && v in run[k].nodes
    ensures run[k].nodes[v] == LocalRun(run[0].nodes[v], EventsAt(es[..k], v))
  {
    if k > 0 {
      NodeRunsLocally(g, run, es, v, k - 1);
      assert EventAt(g, run, es, k - 1);
      var before := EventsAt(es[..k - 1], v);
      assert es[..k][..k - 1] == es[..k - 1];
      assert EventsAt(es[..k], v) == if es[k - 1].v == v then before + [es[k - 1]] else before;
      LocalSnoc(run[0].nodes[v], before, es[k - 1]);
    }
  }

  // ---- Lossless rounds --------------------------------------------------------------------------

  /** `order` lists every node that `v` can hear, each once. */
  ghost predicate ListsSenders(g: Graph, v: Address, order: seq<Address>) {
    && (forall i, j | 0 <= i < j < |order| :: order[i] != order[j])
    && forall u :: u in order <==> Hop(g, u, v)
  }

  ghost function RingsOf(nodes: map<Address, RingState>, order: seq<Address>): (hs: seq<Ring>)
    requires forall u | u in order :: u in nodes
    ensures |hs| == |order| && forall i | 0 <= i < |hs| :: hs[i] == nodes[order[i]].ring
  {
    seq(|order|, i requires 0 <= i < |order| => nodes[order[i]].ring)
  }

  /** `v` resets, hears the ring every neighbour had before the round, in the given order, and updates once. */
  ghost predicate HeardAll(g: Graph, v: Address, nodes: map<Address, RingState>, order: seq<Address>, s': RingState) {
    && v in nodes && ListsSenders(g, v, order) && (forall u | u in order :: u in nodes)
    && s' == UpdateRing(v, nodes[v].(neighbors := Histogram(RingsOf(nodes, order))))
  }

  ghost predicate LosslessRound(g: Graph, nodes: map<Address, RingState>, nodes': map<Address, RingState>) {
    && nodes.Keys == nodes'.Keys == g.nodes
    && forall v | v in g.nodes :: exists order :: HeardAll(g, v, nodes, order, nodes'[v])
  }

  ghost predicate SoundRings(g: Graph, nodes: map<Address, RingState>) {
    && nodes.Keys == g.nodes
    && forall v | v in g.nodes ::
         SoundRing(g, v, nodes[v].ring) && (v == GATEWAY_ADDR ==> nodes[v].ring == GATEWAY_RING)
  }

  lemma {:induction false} DistinctBelow(order: seq<Address>, n: nat)
    requires forall i, j | 0 <= i < j < |order| :: order[i] != order[j]
    requires forall i | 0 <= i < |order| :: (order[i] as int) < n
    ensures |order| <= n
  {
    if order != [] {
      assert (order[0] as int) < n;
      if i :| 0 <= i < |order| && order[i] as int == n - 1 {
        DistinctBelow(order[..i] + order[i + 1..], n - 1);
      } else {
        DistinctBelow(order, n - 1);
      }
    }
  }

  /** What one lossless round does to a node other than the gateway. */
  lemma RoundLowest(g: Graph, v: Address, nodes: map<Address, RingState>, order: seq<Address>, s': RingState)
    returns (hs: seq<Ring>)
    requires ValidGraph(g) && HeardAll(g, v, nodes, order, s') && v != GATEWAY_ADDR
    ensures forall u | Hop(g, u, v) :: u in nodes && LowestOf(hs) <= nodes[u].ring
    ensures LowestOf(hs) != UNKNOWN_RING ==> exists u :: Hop(g, u, v) && u in nodes && nodes[u].ring == LowestOf(hs)
    ensures LowestOf(hs) < nodes[v].ring ==> s'.ring as int == LowestOf(hs) as int + 1
    ensures s'.ring in {nodes[v].ring, UNKNOWN_RING} || s'.ring as int == LowestOf(hs) as int + 1
  {
    hs := RingsOf(nodes, order);
    assert UNKNOWN_ADDR !in order by {
      assert !Hop(g, UNKNOWN_ADDR, v);
    }
    DistinctBelow(order, 255);
    HistogramIsRecount(hs);
    RecountGivesLowest(Histogram(hs), hs);
    LowestIsLeast(hs);
    forall u | Hop(g, u, v) ensures u in nodes && LowestOf(hs) <= nodes[u].ring {
      var i :| 0 <= i < |order| && order[i] == u;
      assert LowestOf(hs) <= hs[i];
    }
    if LowestOf(hs) != UNKNOWN_RING {
      var i :| 0 <= i < |hs| && hs[i] == LowestOf(hs);
      assert Hop(g, order[i], v) && nodes[order[i]].ring == LowestOf(hs);
    }
  }

  lemma HeardIsSound(g: Graph, v: Address, nodes: map<Address, RingState>, order: seq<Address>, s': RingState)
    requires ValidGraph(g) && SoundRings(g, nodes) && HeardAll(g, v, nodes, order, s') && v in g.nodes
    ensures SoundRing(g, v, s'.ring) && (v == GATEWAY_ADDR ==> s'.ring == GATEWAY_RING)
  {
    if v != GATEWAY_ADDR {
      var hs := RoundLowest(g, v, nodes, order, s');
      if LowestOf(hs) != UNKNOWN_RING {
        var u :| Hop(g, u, v) && u in nodes && nodes[u].ring == LowestOf(hs);
        assert WithinHops(g, v, LowestOf(hs) as nat + 1);
      }
    }
  }

  lemma RoundKeepsSound(g: Graph, nodes: map<Address, RingState>, nodes': map<Address, RingState>)
    requires ValidGraph(g) && SoundRings(g, nodes) && LosslessRound(g, nodes, nodes')
    ensures SoundRings(g, nodes')
  {
    forall v | v in g.nodes
      ensures SoundRing(g, v, nodes'[v].ring) && (v == GATEWAY_ADDR ==> nodes'[v].ring == GATEWAY_RING)
    {
      var order :| HeardAll(g, v, nodes, order, nodes'[v]);
      HeardIsSound(g, v, nodes, order, nodes'[v]);
    }
  }

  ghost predicate ExactUpTo(g: Graph, nodes: map<Address, RingState>, k: nat) {
    && nodes.Keys == g.nodes
    && forall v | v in g.nodes && Distance(g, v) <= k && Distance(g, v) < 255 ::
         nodes[v].ring as nat == Distance(g, v)
  }

  lemma NeighborIsOneCloser(g: Graph, v: Address) returns (u: Address)
    requires ValidGraph(g) && v != GATEWAY_ADDR && Distance(g, v) < 255
    ensures Hop(g, u, v) && u in g.nodes && Distance(g, u) + 1 == Distance(g, v)
    ensures forall w | Hop(g, w, v) :: Distance(g, v) <= Distance(g, w) + 1
  {
    var d := Distance(g, v);
    assert WithinHops(g, v, d) && !WithinHops(g, v, d - 1);
    u :| Hop(g, u, v) && WithinHops(g, u, d - 1);
    DistanceAtMost(g, u, d - 1);
    forall w | Hop(g, w, v) ensures d <= Distance(g, w) + 1 {
      if Distance(g, w) < 255 {
        assert WithinHops(g, v, Distance(g, w) + 1);
        DistanceAtMost(g, v, Distance(g, w) + 1);
      }
    }
  }

  lemma RoundReachesNode(g: Graph, nodes: map<Address, RingState>, order: seq<Address>, k: nat, v: Address,
                         s': RingState)
    requires ValidGraph(g) && SoundRings(g, nodes) && ExactUpTo(g, nodes, k) && HeardAll(g, v, nodes, order, s')
    requires v != GATEWAY_ADDR && Distance(g, v) <= k + 1 && Distance(g, v) < 255
    ensures s'.ring as nat == Distance(g, v)
  {
    var u := NeighborIsOneCloser(g, v);
    assert nodes[u].ring as nat == Distance(g, u);
    SoundIsAtLeastDistance(g, v, nodes[v].ring);
    forall w | Hop(g, w, v) && w in nodes ensures Distance(g, w) <= nodes[w].ring as nat {
      SoundIsAtLeastDistance(g, w, nodes[w].ring);
    }
    var hs := RoundLowest(g, v, nodes, order, s');
  }

  lemma RoundExtendsExact(g: Graph, nodes: map<Address, RingState>, nodes': map<Address, RingState>, k: nat)
    requires ValidGraph(g) && SoundRings(g, nodes) && LosslessRound(g, nodes, nodes') && ExactUpTo(g, nodes, k)
    ensures ExactUpTo(g, nodes', k + 1)
  {
    forall v | v in g.nodes && Distance(g, v) <= k + 1 && Distance(g, v) < 255
      ensures nodes'[v].ring as nat == Distance(g, v)
    {
      var order :| HeardAll(g, v, nodes, order, nodes'[v]);
      if v == GATEWAY_ADDR {
        DistanceAtMost(g, v, 0);
      } else {
        RoundReachesNode(g, nodes, order, k, v, nodes'[v]);
      }
    }
  }

  ghost predicate LosslessRounds(g: Graph, rounds: seq<map<Address, RingState>>) {
    && rounds != [] && SoundRings(g, rounds[0])
    && forall i | 0 < i < |rounds| :: LosslessRound(g, rounds[i - 1], rounds[i])
  }

  lemma {:induction false} RoundsExact(g: Graph, rounds: seq<map<Address, RingState>>, k: nat)
    requires ValidGraph(g) && LosslessRounds(g, rounds) && k < |rounds|
    ensures SoundRings(g, rounds[k]) && ExactUpTo(g, rounds[k], k)
  {
    if k == 0 {
      forall v | v in g.nodes && Distance(g, v) <= 0 ensures rounds[0][v].ring as nat == Distance(g, v) {
        assert WithinHops(g, v, 0);
      }
    } else {
      RoundsExact(g, rounds, k - 1);
      RoundKeepsSound(g, rounds[k - 1], rounds[k]);
      RoundExtendsExact(g, rounds[k - 1], rounds[k], k - 1);
    }
  }

  /** From any sound state, after `k` lossless rounds every node within `k` hops has its hop distance as ring. */
  lemma RingConvergence(g: Graph, rounds: seq<map<Address, RingState>>, k: nat, v: Address)
    requires ValidGraph(g) && LosslessRounds(g, rounds) && k < |rounds| && v in g.nodes
    requires WithinHops(g, v, k) && Distance(g, v) <= 254
    ensures v in rounds[k] && rounds[k][v].ring as nat == Distance(g, v)
  {
    DistanceAtMost(g, v, k);
    RoundsExact(g, rounds, k);
  }

  /** Any state of a lossy run is a sound state to start lossless rounds from. */
  lemma RunsAreSound(g: Graph, run: seq<Network>, i: nat)
    requires ValidGraph(g) && IsRun(g, run) && i < |run|
    ensures SoundRings(g, run[i].nodes)
  {
    RunIsSafe(g, run, i);
    forall v | v in g.nodes ensures SoundRing(g, v, run[i].nodes[v].ring) {
      assert SafeNode(g, v, run[i].nodes[v]);
    }
  }
}
