/** How long a node can stay without the clusterhead role (multihop.cpp). */
module Waiting {
  import opened Bytes
  import opened Messages
  import opened Rings
  import opened SlotClock
  import opened State
  import opened Cluster
  import opened Rounds

  /** Everything that can happen to a node in one superframe: the outcome of discovery, what it leaves queued and
      on the air, and any steps of the rounds, with any random bytes and any messages heard. */
  datatype Course = Course(rings: RingState, queue: set<Message>, air: set<Transmission>, events: seq<Event>)

  function Final(mac: MacParams, s: NodeState, c: Course): Node
    requires CanAccept(mac, s)
  {
    RunEvents(mac, Entering(Entered(s).(rings := c.rings), c.queue, c.air), c.events)
  }

  /** The state with which `do_advertise` leaves the node. */
  function AfterSuperframe(mac: MacParams, s: NodeState, c: Course): (s': NodeState)
    requires CanAccept(mac, s)
    ensures CanAccept(mac, s')
  {
    Credited(Final(mac, s, c).s)
  }

  ghost predicate Superframe(mac: MacParams, s: NodeState, s': NodeState) {
    CanAccept(mac, s) && exists c :: s' == AfterSuperframe(mac, s, c)
  }

  ghost predicate Linked(mac: MacParams, ss: seq<NodeState>, k: nat)
    requires 0 < k < |ss|
  {
    Superframe(mac, ss[k - 1], ss[k])
  }

  /** The states of a node between consecutive superframes. */
  ghost predicate IsTrace(mac: MacParams, ss: seq<NodeState>) {
    ss != [] && CanAccept(mac, ss[0]) && forall k | 0 < k < |ss| :: Linked(mac, ss, k)
  }

  predicate IsMember(s: NodeState) { s.clusterheadAddr != UNKNOWN_ADDR }

  // ---- Within one superframe -------------------------------------------------------------------------

  /** A member that did not take the role drew more than its probability. */
  predicate Waits(s0: NodeState, rings: RingState, s: NodeState) {
    && s.role in {Role.Follower, Role.Clusterhead}
    && s.clusterheadP == s0.clusterheadP && s.chCredit == s0.chCredit && s.rings == rings
    && (IsMember(s) && s.role == Role.Follower ==> EffectiveP(rings.ring, s.chCredit) < 255)
  }

  lemma JoinWaits(mac: MacParams, s0: NodeState, rings: RingState, n: Node, start: Byte, relative: Byte, draw: Byte)
    requires CanAccept(mac, n.s) && s0.clusterheadP != 0 && Waits(s0, rings, n.s)
    ensures Waits(s0, rings, Join(mac, n, start, relative, draw).s)
  {
  }

  lemma ReactWaits(mac: MacParams, s0: NodeState, rings: RingState, n: Node, e: Event)
    requires CanAccept(mac, n.s) && Enabled(n, e) && s0.clusterheadP != 0 && Waits(s0, rings, n.s)
    ensures Waits(s0, rings, React(mac, n, e).s)
  {
    match e
    case Hear(t, _, draw, _, _) =>
      if n.c.phase.Joining? && !AsksMe(n, t.message) && AnswersMe(n, t.message) && t.message.body.accepted {
        JoinWaits(mac, s0, rings, n, t.message.body.startSlot, t.message.body.relativeSlot, draw);
      }
    case _ =>
  }

  lemma {:induction false} RunWaits(mac: MacParams, s0: NodeState, rings: RingState, n: Node, es: seq<Event>)
    requires CanAccept(mac, n.s) && s0.clusterheadP != 0 && Waits(s0, rings, n.s)
    ensures Waits(s0, rings, RunEvents(mac, n, es).s)
  {
    if es != [] {
      var init, e := es[..|es| - 1], es[|es| - 1];
      RunWaits(mac, s0, rings, n, init);
      var m := RunEvents(mac, n, init);
      if Enabled(m, e) { ReactWaits(mac, s0, rings, m, e); }
    }
  }

  predicate CanWait(mac: MacParams, s: NodeState) {
    CanAccept(mac, s) && s.clusterheadP != 0 && s.role in {Role.Follower, Role.Clusterhead}
  }

  /** A superframe without the role earns a credit, and is one with acceptance only while the credit is too low. */
  lemma OneCourse(mac: MacParams, s: NodeState, c: Course)
    requires CanWait(mac, s)
    ensures CanWait(mac, AfterSuperframe(mac, s, c)) && Earns(s, AfterSuperframe(mac, s, c), c.rings.ring)
  {
    RunWaits(mac, s, c.rings, Entering(Entered(s).(rings := c.rings), c.queue, c.air), c.events);
  }

  predicate Earns(s: NodeState, s': NodeState, ring: Ring) {
    s'.role == Role.Follower ==>
      && s'.chCredit as int == Min(255, s.chCredit as nat + 1)
      && (IsMember(s') ==> EffectiveP(ring, s.chCredit) < 255)
  }

  lemma OneSuperframe(mac: MacParams, s: NodeState, s': NodeState) returns (ring: Ring)
    requires CanWait(mac, s) && Superframe(mac, s, s')
    ensures CanWait(mac, s') && Earns(s, s', ring)
  {
    var c :| s' == AfterSuperframe(mac, s, c);
    OneCourse(mac, s, c);
    ring := c.rings.ring;
  }

  // ---- Across superframes ----------------------------------------------------------------------------

  lemma {:induction false} CreditGrows(mac: MacParams, ss: seq<NodeState>, k: nat)
    requires IsTrace(mac, ss) && CanWait(mac, ss[0]) && k < |ss|
    requires forall j | 0 < j <= k :: ss[j].role != Role.Clusterhead
    ensures CanWait(mac, ss[k]) && ss[k].chCredit as nat >= Min(255, k)
  {
    if k > 0 {
      CreditGrows(mac, ss, k - 1);
      assert Linked(mac, ss, k);
      var ring := OneSuperframe(mac, ss[k - 1], ss[k]);
    }
  }

  /** Of nine superframes in a row, the last of which accepts the node, it has the role after at least one:
      for all random bytes, all rings, and whatever happened before. */
  lemma BoundedWaiting(mac: MacParams, ss: seq<NodeState>)
    requires IsTrace(mac, ss) && |ss| == 10 && CanWait(mac, ss[0]) && IsMember(ss[9])
    ensures exists k :: 0 < k <= 9 && ss[k].role == Role.Clusterhead
  {
    if forall k | 0 < k <= 8 :: ss[k].role != Role.Clusterhead {
      CreditGrows(mac, ss, 8);
      assert Linked(mac, ss, 9);
      var ring := OneSuperframe(mac, ss[8], ss[9]);
      assert ss[9].role == Role.Clusterhead;
    }
  }

  /** Credits with which a node at the given ring takes the role for certain. */
  function CreditNeeded(ring: Ring): nat {
    if ring <= 1 then 0 else if ring == 2 then 2 else if ring == 3 then 4 else if ring == UNKNOWN_RING then 8 else 6
  }

  lemma CertainIff(ring: Ring, credit: Byte)
    ensures EffectiveP(ring, credit) == 255 <==> credit as nat >= CreditNeeded(ring)
  {
  }

  /** A node at the given ring that has been without the role for as many superframes as that ring needs takes
      it in the next superframe that accepts it. */
  lemma WaitingByRing(mac: MacParams, ss: seq<NodeState>, c: Course)
    requires IsTrace(mac, ss) && CanWait(mac, ss[0]) && forall j | 0 < j < |ss| :: ss[j].role != Role.Clusterhead
    requires |ss| - 1 >= CreditNeeded(c.rings.ring)
    ensures CanAccept(mac, ss[|ss| - 1])
    ensures var s' := AfterSuperframe(mac, ss[|ss| - 1], c); IsMember(s') ==> s'.role == Role.Clusterhead
  {
    CreditGrows(mac, ss, |ss| - 1);
    OneCourse(mac, ss[|ss| - 1], c);
    CertainIff(c.rings.ring, ss[|ss| - 1].chCredit);
  }

  // ---- Nine are needed -------------------------------------------------------------------------------

  const FROM_GATEWAY :=
    Transmission(Announcing(0), Message(0, GATEWAY_ADDR, OpenCluster(GATEWAY_RING, GATEWAY_ADDR, NO_NEIGHBORS)))

  function Welcome(v: Address): Transmission {
    Transmission(Joining(0), Message(0, GATEWAY_ADDR, Accept(true, v, 1, 1, 0)))
  }

  const IDLE_ROUND: seq<Event> := [StartRound(255), AnnounceOver, JoinOver]

  /** A superframe in which a node without a ring hears the gateway, is accepted, and always draws 255. */
  function Unlucky(v: Address): Course {
    Course(RingState(UNKNOWN_RING, NO_NEIGHBORS, 0), {}, {},
           [StartRound(255), Hear(FROM_GATEWAY, 0, 255, true, true), AnnounceOver, Hear(Welcome(v), 0, 255, true, true),
            JoinOver]
           + IDLE_ROUND + IDLE_ROUND)
  }

  predicate Outsider(s: NodeState, credit: nat) {
    && s.address !in {GATEWAY_ADDR, UNKNOWN_ADDR} && s.role == Role.Follower
    && s.clusterheadP != 0 && s.chCredit as nat == credit
  }

  /** After the announcement phase of the first round the node aims at the gateway. */
  lemma UnluckyAnnouncement(mac: MacParams, n: Node) returns (n': Node)
    requires CanAccept(mac, n.s) && n.c == AT_START && Outsider(n.s, n.s.chCredit as nat)
    requires n.s.rings.ring == UNKNOWN_RING
    ensures n' == RunEvents(mac, n, Unlucky(n.s.address).events[..3])
    ensures n'.s == n.s && n'.c.phase == Joining(0) && n'.c.target == GATEWAY_ADDR
    ensures n'.c.eligible && !n'.c.joined && !n'.c.isClusterhead && !n'.c.elected
  {
    var es := Unlucky(n.s.address).events;
    var n1 := React(mac, n, es[0]);
    var n2 := React(mac, n1, es[1]);
    n' := React(mac, n2, es[2]);
    RunSnoc(mac, n, [], es[0]);
    RunSnoc(mac, n, [] + [es[0]], es[1]);
    RunSnoc(mac, n, [] + [es[0]] + [es[1]], es[2]);
    assert es[..3] == [] + [es[0]] + [es[1]] + [es[2]];
  }

  lemma Outdraws(s: NodeState)
    requires s.rings.ring == UNKNOWN_RING && s.chCredit < 8
    ensures !Volunteers(s, 255)
  {
  }

  /** In the first round the node joins the gateway and does not take the role. */
  lemma UnluckyRound(mac: MacParams, n: Node) returns (n': Node)
    requires CanAccept(mac, n.s) && n.c == AT_START && Outsider(n.s, n.s.chCredit as nat) && n.s.chCredit < 8
    requires n.s.rings.ring == UNKNOWN_RING
    ensures n' == RunEvents(mac, n, Unlucky(n.s.address).events[..5])
    ensures n'.s.rings == n.s.rings && n'.c.phase == Ready(1)
    ensures Outsider(n'.s, n.s.chCredit as nat) && n'.s.address == n.s.address && IsMember(n'.s)
  {
    var es := Unlucky(n.s.address).events;
    var n3 := UnluckyAnnouncement(mac, n);
    var n4 := React(mac, n3, es[3]);
    n' := React(mac, n4, es[4]);
    Outdraws(n.s);
    RunSnoc(mac, n, es[..3], es[3]);
    RunSnoc(mac, n, es[..3] + [es[3]], es[4]);
    assert es[..5] == es[..3] + [es[3]] + [es[4]];
  }

  /** A later round in which the node hears nobody changes nothing in its state. */
  lemma IdleRound(mac: MacParams, n0: Node, es: seq<Event>, n: Node) returns (n': Node)
    requires CanAccept(mac, n0.s) && n == RunEvents(mac, n0, es)
    requires n.c.phase.Ready? && n.c.phase.round < NUM_ADV_ROUNDS && n.s.rings.ring == UNKNOWN_RING
    ensures n' == RunEvents(mac, n0, es + IDLE_ROUND) && n'.s == n.s && n'.c.phase == Ready(n.c.phase.round + 1)
  {
    var n1 := React(mac, n, StartRound(255));
    var n2 := React(mac, n1, AnnounceOver);
    n' := React(mac, n2, JoinOver);
    RunSnoc(mac, n0, es, StartRound(255));
    RunSnoc(mac, n0, es + [StartRound(255)], AnnounceOver);
    RunSnoc(mac, n0, es + [StartRound(255)] + [AnnounceOver], JoinOver);
    assert es + IDLE_ROUND == es + [StartRound(255)] + [AnnounceOver] + [JoinOver];
  }

  lemma UnluckySuperframe(mac: MacParams, s: NodeState)
    requires CanAccept(mac, s) && Outsider(s, s.chCredit as nat) && s.chCredit < 8
    ensures var s' := AfterSuperframe(mac, s, Unlucky(s.address));
      Outsider(s', s.chCredit as nat + 1) && s'.address == s.address && IsMember(s')
    ensures Final(mac, s, Unlucky(s.address)).c.phase == Ready(NUM_ADV_ROUNDS)
  {
    var c := Unlucky(s.address);
    var n := Entering(Entered(s).(rings := c.rings), c.queue, c.air);
    var n' := UnluckyRound(mac, n);
    var n2 := IdleRound(mac, n, c.events[..5], n');
    var n3 := IdleRound(mac, n, c.events[..5] + IDLE_ROUND, n2);
    assert c.events == c.events[..5] + IDLE_ROUND + IDLE_ROUND;
  }

  /** Eight superframes are not enough: a node with no credit can be accepted in all of them without the role. */
  lemma {:induction false} EightAreNotEnough(mac: MacParams, s: NodeState, k: nat) returns (ss: seq<NodeState>)
    requires CanAccept(mac, s) && Outsider(s, 0) && k <= 8
    ensures IsTrace(mac, ss) && |ss| == k + 1 && ss[0] == s && CanAccept(mac, ss[k]) && Outsider(ss[k], k)
    ensures forall j | 0 < j <= k :: IsMember(ss[j]) && ss[j].role == Role.Follower
  {
    ss := [s];
    if k > 0 {
      var init := EightAreNotEnough(mac, s, k - 1);
      var last := AfterSuperframe(mac, init[k - 1], Unlucky(init[k - 1].address));
      UnluckySuperframe(mac, init[k - 1]);
      ss := init + [last];
      forall j | 0 < j < |ss| ensures Linked(mac, ss, j) {
        if j < k { assert Linked(mac, init, j); }
      }
    }
  }
}
