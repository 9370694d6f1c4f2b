/** A run of the clustering protocol in which the highest announcer of a ring is unseated by a node that does not stand
    itself: one failed flush and two late messages are enough. */
module LostElection {
  import opened Bytes
  import opened Messages
  import opened Rings
  import opened SlotClock
  import opened State
  import opened Cluster
  import opened Candidates
  import opened Rounds
  import opened Advertising
  import opened Clusters

  // ---- Extending a run -----------------------------------------------------------------------------------

  ghost function Last(run: seq<Network>): Network
    requires run != []
  {
    run[|run| - 1]
  }

  /** What `v` hears was transmitted by the node that it names as its source. */
  predicate Heard(g: Network, e: Event) { e.Hear? ==> e.t.message.src in g && e.t in g[e.t.message.src].air }

  lemma Go(mac: MacParams, run: seq<Network>, v: Address, e: Event) returns (more: seq<Network>)
    requires IsRun(mac, run) && v in Last(run) && CanAccept(mac, Last(run)[v].s)
    requires Enabled(Last(run)[v], e) && Heard(Last(run), e)
    ensures IsRun(mac, more) && Last(more) == Last(run)[v := React(mac, Last(run)[v], e)]
  {
    var g := Last(run);
    var g' := g[v := React(mac, g[v], e)];
    more := run + [g'];
    assert Step(mac, g, v, e, if e.Hear? then e.t.message.src else v, g');
    forall i | 0 < i < |more| ensures Linked(mac, more, i) {
      if i < |run| { assert Linked(mac, run, i); }
    }
  }

  /** The nodes through which the events take a node. */
  ghost predicate Passes(mac: MacParams, ns: seq<Node>, es: seq<Event>) {
    && |ns| == |es| + 1
    && forall i | 0 <= i < |es| :: PassesAt(mac, ns[i], es[i], ns[i + 1])
  }

  ghost predicate PassesAt(mac: MacParams, n: Node, e: Event, n': Node) {
    CanAccept(mac, n.s) && Enabled(n, e) && n' == React(mac, n, e)
  }

  lemma {:induction false} GoOn(mac: MacParams, run: seq<Network>, v: Address, ns: seq<Node>, es: seq<Event>)
    returns (more: seq<Network>)
    requires IsRun(mac, run) && v in Last(run) && Passes(mac, ns, es) && ns[0] == Last(run)[v]
    requires forall e | e in es :: Heard(Last(run), e) && (e.Hear? ==> e.t.message.src != v)
    ensures IsRun(mac, more) && Last(more) == Last(run)[v := ns[|es|]]
  {
    if es == [] {
      more := run;
      assert Last(run)[v := ns[0]] == Last(run);
    } else {
      var k := |es| - 1;
      assert Passes(mac, ns[..k + 1], es[..k]) by {
        forall i | 0 <= i < k ensures PassesAt(mac, ns[..k + 1][i], es[..k][i], ns[..k + 1][i + 1]) {
          assert PassesAt(mac, ns[i], es[i], ns[i + 1]);
        }
      }
      assert forall e | e in es[..k] :: e in es;
      var most := GoOn(mac, run, v, ns[..k + 1], es[..k]);
      assert PassesAt(mac, ns[k], es[k], ns[k + 1]);
      assert es[k] in es;
      more := Go(mac, most, v, es[k]);
      assert Last(more) == Last(run)[v := ns[k + 1]];
    }
  }

  // ---- Three nodes ---------------------------------------------------------------------------------------

  /** One window of seven slots. */
  const MAC := MacParams(1, 8, 8, 0, 1)

  function Newcomer(v: Address, ring: Ring): Node {
    Entering(FreshNode(v, 255, 8).(rings := RingState(ring, NO_NEIGHBORS, 0)), {}, {})
  }

  function Says(phase: Phase, now: U32, v: Address, ring: Ring): Transmission {
    Transmission(phase, Message(now, v, OpenCluster(ring, v, NO_NEIGHBORS)))
  }

  function Hearing(t: Transmission): Event { Hear(t, 0, 0, false, false) }

  lemma FitsTheMac(v: Address, ring: Ring)
    ensures Slotted(MAC) && CanAccept(MAC, Newcomer(v, ring).s)
  {
  }

  /** The gateway announces itself in round 0. */
  lemma GatewayAnnounces() returns (ns: seq<Node>)
    ensures Passes(MAC, ns, [StartRound(0), AnnounceDue(1, true, true)]) && ns[0] == Newcomer(0, 0)
    ensures Says(Announcing(0), 1, 0, 0) in ns[2].air
  {
    FitsTheMac(0, 0);
    var n0 := Newcomer(0, 0);
    var n1 := React(MAC, n0, StartRound(0));
    ns := [n0, n1, React(MAC, n1, AnnounceDue(1, true, true))];
  }

  /** A node of ring 1 lets round 0 pass and stands in round 1. */
  lemma StandsInRoundOne(v: Address) returns (ns: seq<Node>)
    requires v != GATEWAY_ADDR
    ensures Passes(MAC, ns, [StartRound(0), AnnounceOver, JoinOver, StartRound(0)]) && ns[0] == Newcomer(v, 1)
    ensures var n := ns[4];
      && n.c.phase == Announcing(1) && n.c.pending && n.c.elected && !n.c.isClusterhead && !n.announced
      && n.s.address == v && n.s.role == Clusterhead && n.s.rings == RingState(1, NO_NEIGHBORS, 0)
      && n.queue == {} && n.air == {} && n.c.candidates == NO_CANDIDATES && CanAccept(MAC, n.s)
  {
    FitsTheMac(v, 1);
    var n0 := Newcomer(v, 1);
    var n1 := React(MAC, n0, StartRound(0));
    var n2 := React(MAC, n1, AnnounceOver);
    var n3 := React(MAC, n2, JoinOver);
    ns := [n0, n1, n2, n3, React(MAC, n3, StartRound(0))];
  }

  lemma Announces(n: Node, v: Address) returns (ns: seq<Node>)
    requires n.c.phase == Announcing(1) && n.c.pending && n.c.elected && n.s.address == v
    requires n.s.rings == RingState(1, NO_NEIGHBORS, 0)
    requires CanAccept(MAC, n.s) && !n.c.isClusterhead
    ensures Passes(MAC, ns, [AnnounceDue(2, true, true)]) && ns[0] == n
    ensures var n' := ns[1];
      && n'.announced && Says(Announcing(1), 2, v, 1) in n'.air && n'.c == n.c.(pending := false) && n'.s == n.s
  {
    ns := [n, React(MAC, n, AnnounceDue(2, true, true))];
  }

  /** The flush of the announcement fails. */
  lemma FailsToAnnounce(n: Node, v: Address) returns (n': Node)
    requires n.c.phase == Announcing(1) && n.c.pending && n.s.address == v && n.s.rings == RingState(1, NO_NEIGHBORS, 0)
    requires n.queue == {} && CanAccept(MAC, n.s)
    ensures PassesAt(MAC, n, AnnounceDue(3, true, false), n')
    ensures n' == n.(queue := {Says(Announcing(1), 3, v, 1).message})
  {
    n' := React(MAC, n, AnnounceDue(3, true, false));
  }

  /** The node hears the gateway late, and yields to the rival. */
  lemma YieldsWhilePending(n: Node, v: Address, rival: Address) returns (n1: Node, n2: Node)
    requires n.c.phase == Announcing(1) && n.c.pending && n.c.candidates == NO_CANDIDATES && CanAccept(MAC, n.s)
    requires n.s.address == v && n.s.rings.ring == 1 && v != rival && v != GATEWAY_ADDR && rival != GATEWAY_ADDR
    ensures PassesAt(MAC, n, Hearing(Says(Announcing(0), 1, 0, 0)), n1)
    ensures PassesAt(MAC, n1, Hearing(Says(Announcing(1), 2, rival, 1)), n2)
    ensures n2.s == n.s && n2.queue == n.queue && n2.air == n.air && n2.announced == n.announced
    ensures n2.c.phase == n.c.phase && n2.c.isClusterhead == n.c.isClusterhead && (n.c.elected ==> !n2.c.elected)
    ensures n2.c.candidates.first.address == GATEWAY_ADDR && n2.c.candidates.first.ring == GATEWAY_RING
  {
    n1 := React(MAC, n, Hearing(Says(Announcing(0), 1, 0, 0)));
    assert n1.c.candidates.first == Candidate(GATEWAY_ADDR, GATEWAY_RING, MAX_SCORE);
    n2 := React(MAC, n1, Hearing(Says(Announcing(1), 2, rival, 1)));
  }

  /** It follows the gateway: that flush transmits the announcement. */
  lemma FollowsLate(n: Node, v: Address) returns (n1: Node, n2: Node)
    requires n.c.phase == Announcing(1) && !n.c.elected && !n.c.isClusterhead && n.s.ActsAsFollower()
    requires n.s.rings.ring == 1 && CanAccept(MAC, n.s) && Says(Announcing(1), 3, v, 1).message in n.queue
    requires n.c.candidates.first.address == GATEWAY_ADDR && n.c.candidates.first.ring == GATEWAY_RING
    ensures PassesAt(MAC, n, AnnounceOver, n1) && PassesAt(MAC, n1, FollowDue(4, true, true), n2)
    ensures Says(Joining(1), 3, v, 1) in n2.air && n2.announced == n.announced && !n2.Stands() && n2.s == n.s
  {
    n1 := React(MAC, n, AnnounceOver);
    n2 := React(MAC, n1, FollowDue(4, true, true));
  }

  lemma YieldsAndFollows(n: Node, v: Address, rival: Address) returns (ns: seq<Node>)
    requires n.c.phase == Announcing(1) && n.c.pending && n.c.elected && !n.c.isClusterhead && !n.announced
    requires n.s.address == v && n.s.role == Clusterhead && n.s.rings == RingState(1, NO_NEIGHBORS, 0)
    requires n.queue == {} && n.air == {} && n.c.candidates == NO_CANDIDATES && CanAccept(MAC, n.s)
    requires v != rival && v != GATEWAY_ADDR && rival != GATEWAY_ADDR
    ensures Passes(MAC, ns, [AnnounceDue(3, true, false), Hearing(Says(Announcing(0), 1, 0, 0)),
                             Hearing(Says(Announcing(1), 2, rival, 1)), AnnounceOver, FollowDue(4, true, true)])
    ensures ns[0] == n
    ensures Says(Joining(1), 3, v, 1) in ns[5].air && !ns[5].announced && !ns[5].Stands() && ns[5].s.rings.ring == 1
  {
    var n1 := FailsToAnnounce(n, v);
    var n2, n3 := YieldsWhilePending(n1, v, rival);
    var n4, n5 := FollowsLate(n3, v);
    ns := [n, n1, n2, n3, n4, n5];
  }

  /** Hearing the announcement of a higher address, a standing node yields. */
  lemma Yields(n: Node, v: Address, higher: Address) returns (ns: seq<Node>)
    requires n.c.phase == Announcing(1) && n.c.elected && !n.c.isClusterhead && n.announced
    requires n.s.address == v < higher && n.s.rings.ring == 1 && CanAccept(MAC, n.s)
    ensures Passes(MAC, ns, [Hearing(Says(Joining(1), 3, higher, 1))]) && ns[0] == n
    ensures !ns[1].Stands() && ns[1].announced && ns[1].s.rings.ring == 1
  {
    ns := [n, React(MAC, n, Hearing(Says(Joining(1), 3, higher, 1)))];
  }

  // ---- The run -------------------------------------------------------------------------------------------

  const NEWCOMERS: Network := map[0 := Newcomer(0, 0), 2 := Newcomer(2, 1), 3 := Newcomer(3, 1)]

  lemma Begins()
    ensures IsRun(MAC, [NEWCOMERS]) && Last([NEWCOMERS]) == NEWCOMERS
  {
    FitsTheMac(0, 0);
    FitsTheMac(2, 1);
    FitsTheMac(3, 1);
    assert AtStart(MAC, 0, NEWCOMERS[0]) && AtStart(MAC, 2, NEWCOMERS[2]) && AtStart(MAC, 3, NEWCOMERS[3]);
  }

  lemma GatewayFirst(run: seq<Network>) returns (more: seq<Network>, n: Node)
    requires IsRun(MAC, run) && 0 in Last(run) && Last(run)[0] == Newcomer(0, 0)
    ensures IsRun(MAC, more) && Last(more) == Last(run)[0 := n] && n.s.rings.ring == 0
    ensures Says(Announcing(0), 1, 0, 0) in n.air
  {
    var ns := GatewayAnnounces();
    more := GoOn(MAC, run, 0, ns, [StartRound(0), AnnounceDue(1, true, true)]);
    n := ns[2];
    assert PassesAt(MAC, ns[0], StartRound(0), ns[1]) && PassesAt(MAC, ns[1], AnnounceDue(1, true, true), ns[2]);
  }

  lemma RivalNext(run: seq<Network>, v: Address) returns (more: seq<Network>, n: Node)
    requires IsRun(MAC, run) && v in Last(run) && Last(run)[v] == Newcomer(v, 1) && v != GATEWAY_ADDR
    ensures IsRun(MAC, more) && Last(more) == Last(run)[v := n]
    ensures n.c.phase == Announcing(1) && n.c.elected && !n.c.isClusterhead && n.announced
    ensures n.s.address == v && n.s.rings.ring == 1 && CanAccept(MAC, n.s) && Says(Announcing(1), 2, v, 1) in n.air
  {
    var ns := StandsInRoundOne(v);
    var stands := GoOn(MAC, run, v, ns, [StartRound(0), AnnounceOver, JoinOver, StartRound(0)]);
    ns := Announces(ns[4], v);
    more := GoOn(MAC, stands, v, ns, [AnnounceDue(2, true, true)]);
    n := ns[1];
  }

  lemma LoserThen(run: seq<Network>, v: Address, rival: Address) returns (more: seq<Network>, n: Node)
    requires IsRun(MAC, run) && v in Last(run) && Last(run)[v] == Newcomer(v, 1)
    requires v != rival && v != GATEWAY_ADDR && rival != GATEWAY_ADDR && 0 in Last(run) && rival in Last(run)
    requires Says(Announcing(0), 1, 0, 0) in Last(run)[0].air
    requires Says(Announcing(1), 2, rival, 1) in Last(run)[rival].air
    ensures IsRun(MAC, more) && Last(more) == Last(run)[v := n]
    ensures Says(Joining(1), 3, v, 1) in n.air && !n.announced && !n.Stands() && n.s.rings.ring == 1
  {
    var ns := StandsInRoundOne(v);
    var stands := GoOn(MAC, run, v, ns, [StartRound(0), AnnounceOver, JoinOver, StartRound(0)]);
    ns := YieldsAndFollows(ns[4], v, rival);
    var es := [AnnounceDue(3, true, false), Hearing(Says(Announcing(0), 1, 0, 0)),
               Hearing(Says(Announcing(1), 2, rival, 1)), AnnounceOver, FollowDue(4, true, true)];
    more := GoOn(MAC, stands, v, ns, es);
    n := ns[5];
  }

  /** Nodes 2 and 3 of ring 1 stand. The flush of node 3 fails; it yields to node 2 and follows the gateway, which
      transmits its announcement after all, and node 2, the only one of its ring that counts as announced, yields to
      it. Nobody of ring 1 is left. */
  lemma HighestAnnouncerLoses() returns (run: seq<Network>)
    ensures IsRun(MAC, run) && HighestAnnouncer(Last(run), 1, 2)
    ensures forall v | v in Last(run) && Last(run)[v].s.rings.ring == 1 :: !Last(run)[v].Stands()
  {
    Begins();
    var zero, two, three;
    run, zero := GatewayFirst([NEWCOMERS]);
    run, two := RivalNext(run, 2);
    run, three := LoserThen(run, 3, 2);
    var ns := Yields(two, 2, 3);
    run := GoOn(MAC, run, 2, ns, [Hearing(Says(Joining(1), 3, 3, 1))]);
    assert Last(run) == map[0 := zero, 2 := ns[1], 3 := three];
  }
}
