/** What holds in every run of an advertising phase: slot tables agree, clusters form a forest, and an
    election keeps the highest announcer. Loss, delay, reordering and repetition are allowed throughout. */
module Clusters {
  import opened Bytes
  import opened Messages
  import opened SlotClock
  import opened State
  import opened Cluster
  import opened Rounds
  import opened Advertising

  // ---- Slot tables -----------------------------------------------------------------------------------

  predicate Joined(g: Network, v: Address) { v in g && g[v].s.clusterheadAddr != UNKNOWN_ADDR }

  /** `v` has slot `relative` of the table of `p`, whose window starts at `start`. */
  predicate HasSlot(g: Network, v: Address, p: Address, start: Byte, relative: Byte) {
    && p in g && p != v && g[p].s.ActsAsClusterhead()
    && g[p].s.downstreamStartSlot == start
    && 1 <= relative < g[p].s.slotsAssigned && relative as nat < |g[p].s.slotAssignments|
    && g[p].s.slotAssignments[relative] == v
  }

  /** What a member believes about its slot is what its clusterhead's table says. */
  lemma SlotTableAgreement(mac: MacParams, run: seq<Network>, i: nat, v: Address)
    requires IsRun(mac, run) && i < |run| && Joined(run[i], v)
    ensures var s := run[i][v].s;
      && HasSlot(run[i], v, s.clusterheadAddr, s.upstreamStartSlot, s.upstreamRelativeSlot)
      && s.upstreamAckSlot == AckSlot(mac, s.upstreamStartSlot)
  {
    RunIsSafe(mac, run, i);
    var g := run[i];
    var n := g[v];
    assert Agrees(mac, g, v, n) && Tabled(n.s.clusterheadAddr, g[n.s.clusterheadAddr]);
    var p := g[n.s.clusterheadAddr];
    var k := n.s.upstreamRelativeSlot as nat - 1;
    assert p.s.slotAssignments[1 + k] == p.followers[k];
  }

  /** Two members of one cluster never share a slot. */
  lemma NoSharedSlot(mac: MacParams, run: seq<Network>, i: nat, u: Address, v: Address)
    requires IsRun(mac, run) && i < |run| && Joined(run[i], u) && Joined(run[i], v) && u != v
    requires run[i][u].s.clusterheadAddr == run[i][v].s.clusterheadAddr
    ensures run[i][u].s.upstreamRelativeSlot != run[i][v].s.upstreamRelativeSlot
  {
    SlotTableAgreement(mac, run, i, u);
    SlotTableAgreement(mac, run, i, v);
  }

  /** From the moment it accepts followers, a clusterhead's table only grows: nothing wipes or moves an entry. */
  lemma SlotsAreKept(mac: MacParams, run: seq<Network>, i: nat, j: nat, p: Address, k: nat)
    requires IsRun(mac, run) && i <= j < |run| && p in run[i] && run[i][p].c.isClusterhead
    requires 1 <= k < run[i][p].s.slotsAssigned as nat
    ensures p in run[j] && run[j][p].c.isClusterhead
    ensures run[j][p].s.downstreamStartSlot == run[i][p].s.downstreamStartSlot
    ensures k < run[i][p].s.slotsAssigned as nat <= run[j][p].s.slotsAssigned as nat
    ensures k < |run[i][p].s.slotAssignments| && k < |run[j][p].s.slotAssignments|
    ensures run[j][p].s.slotAssignments[k] == run[i][p].s.slotAssignments[k]
  {
    RunIsSafe(mac, run, i);
    RunIsSafe(mac, run, j);
    RunGrows(mac, run, i, j);
    var n, n' := run[i][p], run[j][p];
    assert Extends(n, n') && Tabled(p, n) && Tabled(p, n');
    assert n.s.slotAssignments[1 + (k - 1)] == n.followers[k - 1];
    assert n'.s.slotAssignments[1 + (k - 1)] == n'.followers[k - 1];
  }

  /** A slot once promised on the air is the follower's until the end of the phase, whoever hears of it. */
  lemma PromisesAreKept(mac: MacParams, run: seq<Network>, i: nat, j: nat, p: Address, t: Transmission)
    requires IsRun(mac, run) && i <= j < |run| && p in run[i] && t in run[i][p].air
    requires t.message.body.Accept? && t.message.body.accepted
    ensures p in run[j] && p == t.message.src
    ensures var m := t.message.body; HasSlot(run[j], m.follower, p, m.startSlot, m.relativeSlot) || m.follower == p
  {
    RunIsSafe(mac, run, i);
    RunIsSafe(mac, run, j);
    RunGrows(mac, run, i, j);
    var n, n', m := run[i][p], run[j][p], t.message.body;
    assert Truthful(p, n, t.message) && Extends(n, n') && Tabled(p, n');
    KeepsSlotStays(n, n', m.follower, m.startSlot, m.relativeSlot);
    var k := m.relativeSlot as nat - 1;
    assert n'.s.slotAssignments[1 + k] == n'.followers[k];
  }

  // ---- The handshake ---------------------------------------------------------------------------------

  /** A follower and the clusterhead it is about to ask, which still has a slot and has not seen the follower. */
  ghost predicate CanShake(mac: MacParams, v: Address, n: Node, p: Address, m: Node) {
    && Slotted(mac) && Sound(mac, v, n) && Sound(mac, p, m) && v != p
    && n.c.phase.Joining? && n.c.tryToFollow && !n.c.joined && n.c.target == p
    && m.c.phase.Joining? && m.c.isClusterhead && v !in m.followers && m.s.slotsAssigned < WindowSize(mac)
  }

  function Asks(n: Node, p: Address, now: U32): Transmission {
    Transmission(n.c.phase, Message(now, n.s.address, Follow(p, n.s.address)))
  }

  function Answers(m: Node, v: Address, now: U32): Transmission {
    Transmission(m.c.phase, Message(now, m.s.address, Accept(true, v, m.s.downstreamStartSlot, m.s.slotsAssigned, now)))
  }

  lemma ClusterheadAnswers(mac: MacParams, v: Address, n: Node, p: Address, m: Node, now: U32, draw: Byte)
    requires CanShake(mac, v, n, p, m)
    ensures Answers(m, v, now) in React(mac, m, Hear(Asks(n, p, now), now, draw, true, true)).air
  {
    assert forall k | 0 <= k < |m.followers| :: m.followers[k] != v;
    GrantIsFollower(mac, p, m, v);
  }

  /** When nothing is lost, one Follow and one Accept bring the follower into the clusterhead's next free slot. */
  lemma HandshakeCompletes(mac: MacParams, v: Address, n: Node, p: Address, m: Node, now: U32, draw: Byte)
    requires CanShake(mac, v, n, p, m)
    ensures Asks(n, p, now) in React(mac, n, FollowDue(now, true, true)).air
    ensures Answers(m, v, now) in React(mac, m, Hear(Asks(n, p, now), now, draw, true, true)).air
    ensures var n' :=
      React(mac, React(mac, n, FollowDue(now, true, true)), Hear(Answers(m, v, now), now, draw, true, true));
      && n'.c.joined && n'.s.clusterheadAddr == p
      && n'.s.upstreamStartSlot == m.s.downstreamStartSlot && n'.s.upstreamRelativeSlot == m.s.slotsAssigned
  {
    ClusterheadAnswers(mac, v, n, p, m, now, draw);
    var asked := React(mac, n, FollowDue(now, true, true));
    assert AnswersMe(asked, Answers(m, v, now).message);
  }

  // ---- The cluster forest ----------------------------------------------------------------------------

  /** A member's clusterhead is a real one, strictly closer to the gateway, in one of the first three rings. */
  lemma ClusterheadIsCloser(mac: MacParams, run: seq<Network>, i: nat, v: Address)
    requires IsRun(mac, run) && i < |run| && Joined(run[i], v)
    ensures var s := run[i][v].s;
      && s.clusterheadAddr in run[i]
      && run[i][s.clusterheadAddr].c.isClusterhead && run[i][s.clusterheadAddr].s.ActsAsClusterhead()
      && run[i][s.clusterheadAddr].s.rings.ring == s.clusterheadRing < s.rings.ring
      && s.clusterheadRing as nat < NUM_ADV_ROUNDS
  {
    RunIsSafe(mac, run, i);
    var g := run[i];
    assert Agrees(mac, g, v, g[v]) && Tabled(g[v].s.clusterheadAddr, g[g[v].s.clusterheadAddr]);
  }

  predicate IsMemberOf(g: Network, v: Address, p: Address) { Joined(g, v) && g[v].s.clusterheadAddr == p }

  /** Each node of the chain has joined the next one. */
  ghost predicate IsChain(g: Network, chain: seq<Address>) {
    && chain != [] && chain[0] in g
    && forall k | 0 < k < |chain| :: IsMemberOf(g, chain[k - 1], chain[k])
  }

  lemma {:induction false} ChainDescends(mac: MacParams, run: seq<Network>, i: nat, chain: seq<Address>, a: nat, b: nat)
    requires IsRun(mac, run) && i < |run| && IsChain(run[i], chain) && a <= b < |chain|
    ensures chain[a] in run[i] && chain[b] in run[i]
    ensures run[i][chain[b]].s.rings.ring as nat + (b - a) <= run[i][chain[a]].s.rings.ring as nat
    ensures b > 0 ==> run[i][chain[b]].s.rings.ring as nat < NUM_ADV_ROUNDS
  {
    if b > 0 {
      assert IsMemberOf(run[i], chain[b - 1], chain[b]);
      ClusterheadIsCloser(mac, run, i, chain[b - 1]);
      if a < b {
        ChainDescends(mac, run, i, chain, a, b - 1);
      } else {
        ChainDescends(mac, run, i, chain, b - 1, b - 1);
      }
    }
  }

  /** Chains of clusterheads never turn back, and reach their end within one hop per round. */
  lemma ClusterForest(mac: MacParams, run: seq<Network>, i: nat, chain: seq<Address>)
    requires IsRun(mac, run) && i < |run| && IsChain(run[i], chain)
    ensures |chain| - 1 <= NUM_ADV_ROUNDS
    ensures forall a, b | 0 <= a < b < |chain| :: chain[a] != chain[b]
  {
    if |chain| > 1 {
      ChainDescends(mac, run, i, chain, 1, 1);
      ChainDescends(mac, run, i, chain, 1, |chain| - 1);
    }
    forall a, b | 0 <= a < b < |chain| ensures chain[a] != chain[b] {
      ChainDescends(mac, run, i, chain, a, b);
    }
  }

  // ---- Elections -------------------------------------------------------------------------------------

  /** Whoever stands in the round of its ring volunteered, and heard no rival before its own announcement
      and none with a higher address after it; and conversely. */
  lemma StandsIff(mac: MacParams, run: seq<Network>, i: nat, v: Address)
    requires IsRun(mac, run) && i < |run| && v in run[i]
    ensures var n := run[i][v];
      n.Stands() <==>
        n.volunteered && if n.announced then forall t | t in n.rivals :: t.message.src < v else n.rivals == {}
  {
    RunIsSafe(mac, run, i);
    assert Elects(v, run[i][v]);
  }

  /** `v` heard its rivals while they were in the same phase as `v` itself. */
  ghost predicate HeardInPhase(g: Network, v: Address) {
    v in g && forall t | t in g[v].rivals :: t.phase == Announcing(g[v].s.rings.ring as nat)
  }

  predicate Announced(g: Network, ring: Ring, v: Address) {
    v in g && g[v].s.rings.ring == ring && g[v].announced
  }

  /** A rival that was heard in phase has the same ring and got its own announcement out. */
  lemma RivalAnnounced(mac: MacParams, g: Network, v: Address, t: Transmission)
    requires Safe(mac, g) && v in g && t in g[v].rivals && t.phase == Announcing(g[v].s.rings.ring as nat)
    ensures t.message.src != v && Announced(g, g[v].s.rings.ring, t.message.src)
  {
    var u := t.message.src;
    assert Informed(mac, g, v, g[v]);
    assert Rival(v, g[v], t) && HeardFrom(g, t);
    SpeakerAnnounced(mac, u, g[u], t);
  }

  lemma SpeakerAnnounced(mac: MacParams, u: Address, n: Node, t: Transmission)
    requires Sound(mac, u, n) && t in n.air && t.message.body.OpenCluster?
    requires t.phase == Announcing(t.message.body.ring as nat)
    ensures n.announced && n.s.rings.ring == t.message.body.ring
  {
    assert Truthful(u, n, t.message);
  }

  ghost predicate HighestAnnouncer(g: Network, ring: Ring, v: Address) {
    Announced(g, ring, v) && forall u: Address | Announced(g, ring, u) :: u <= v
  }

  /** The announcements that `v` heard out of phase come from lower addresses. */
  ghost predicate OnlyLowerLate(g: Network, v: Address)
    requires v in g
  {
    forall t | t in g[v].rivals && t.phase != Announcing(g[v].s.rings.ring as nat) :: t.message.src < v
  }

  /** Of all nodes of one ring that announced, the one with the highest address stands, whatever was lost, if and
      only if it heard no late announcement of a still higher address. */
  lemma HighestAnnouncerStandsIff(mac: MacParams, run: seq<Network>, i: nat, ring: Ring, v: Address)
    requires IsRun(mac, run) && i < |run| && HighestAnnouncer(run[i], ring, v)
    ensures run[i][v].Stands() <==> OnlyLowerLate(run[i], v)
  {
    RunIsSafe(mac, run, i);
    var g := run[i];
    assert Elects(v, g[v]);
    forall t | t in g[v].rivals && t.phase == Announcing(ring as nat) ensures t.message.src < v {
      RivalAnnounced(mac, g, v, t);
    }
  }

  lemma HighestAnnouncerStands(mac: MacParams, run: seq<Network>, i: nat, ring: Ring, v: Address)
    requires IsRun(mac, run) && i < |run| && HighestAnnouncer(run[i], ring, v) && HeardInPhase(run[i], v)
    ensures run[i][v].Stands()
  {
    HighestAnnouncerStandsIff(mac, run, i, ring, v);
  }

  /** Somebody who announced is left over: an announcement round never loses everyone. */
  lemma SomebodyStands(mac: MacParams, run: seq<Network>, i: nat, ring: Ring, v: Address) returns (h: Address)
    requires IsRun(mac, run) && i < |run| && Announced(run[i], ring, v)
    requires forall u: Address | Announced(run[i], ring, u) :: HeardInPhase(run[i], u)
    ensures Announced(run[i], ring, h) && run[i][h].Stands()
  {
    h := HighestFrom(run[i], ring, v);
    HighestAnnouncerStands(mac, run, i, ring, h);
  }

  lemma {:induction false} HighestFrom(g: Network, ring: Ring, v: Address) returns (h: Address)
    requires Announced(g, ring, v)
    ensures HighestAnnouncer(g, ring, h)
    decreases 255 - v as int
  {
    h := v;
    if u: Address :| Announced(g, ring, u) && u > v { h := HighestFrom(g, ring, u); }
  }

  /** `v` has heard every node of its ring that announced. */
  ghost predicate HeardEveryRival(g: Network, v: Address) {
    && v in g
    && forall u: Address | u != v && Announced(g, g[v].s.rings.ring, u) ::
         exists t :: t in g[v].rivals && t.message.src == u
  }

  /** Where the nodes of a ring hear each other, exactly the highest of those that announced stands. */
  lemma LosslessElection(mac: MacParams, run: seq<Network>, i: nat, ring: Ring, h: Address)
    requires IsRun(mac, run) && i < |run| && HighestAnnouncer(run[i], ring, h)
    requires forall v: Address | v in run[i] && run[i][v].s.rings.ring == ring ::
      HeardInPhase(run[i], v) && HeardEveryRival(run[i], v)
    ensures forall v: Address | v in run[i] && run[i][v].s.rings.ring == ring :: run[i][v].Stands() <==> v == h
  {
    var g := run[i];
    forall v: Address | v in g && g[v].s.rings.ring == ring ensures g[v].Stands() <==> v == h {
      if v == h {
        HighestAnnouncerStands(mac, run, i, ring, h);
      } else {
        StandsIff(mac, run, i, v);
        assert Announced(g, ring, h);
        var t :| t in g[v].rivals && t.message.src == h;
        if g[v].announced { assert Announced(g, ring, v); }
      }
    }
  }

  // ---- Elections when all nodes are in the same phase --------------------------------------------------

  /** Nodes hear one another while they are in the same phase of the same round, as their common clock intends. */
  ghost predicate AlignedNext(mac: MacParams, g: Network, g': Network) {
    exists v, e, from :: Step(mac, g, v, e, from, g') && InPhase(g, v, e)
  }

  predicate InPhase(g: Network, v: Address, e: Event)
    requires v in g
  {
    e.Hear? ==> e.t.phase == g[v].c.phase
  }

  ghost predicate AlignedLinked(mac: MacParams, run: seq<Network>, i: nat)
    requires 0 < i < |run|
  {
    AlignedNext(mac, run[i - 1], run[i])
  }

  ghost predicate IsAlignedRun(mac: MacParams, run: seq<Network>) {
    && run != [] && Initial(mac, run[0])
    && forall i | 0 < i < |run| :: AlignedLinked(mac, run, i)
  }

  lemma AlignedIsRun(mac: MacParams, run: seq<Network>)
    requires IsAlignedRun(mac, run)
    ensures IsRun(mac, run)
  {
    forall i | 0 < i < |run| ensures Linked(mac, run, i) {
      assert AlignedLinked(mac, run, i);
      var v, e, from :| Step(mac, run[i - 1], v, e, from, run[i]) && InPhase(run[i - 1], v, e);
    }
  }

  lemma ReactRivals(mac: MacParams, n: Node, e: Event)
    requires CanAccept(mac, n.s) && Enabled(n, e)
    ensures var n' := React(mac, n, e);
      && n'.s.rings.ring == n.s.rings.ring
      && (n'.rivals == n.rivals
          || (e.Hear? && n'.rivals == n.rivals + {e.t} && n.c.phase == Announcing(n.s.rings.ring as nat)))
  {
  }

  lemma {:induction false} AlignedHearsInPhase(mac: MacParams, run: seq<Network>, i: nat, u: Address)
    requires IsAlignedRun(mac, run) && i < |run| && u in run[i]
    ensures HeardInPhase(run[i], u)
  {
    if i == 0 {
      assert AtStart(mac, u, run[0][u]);
    } else {
      assert AlignedLinked(mac, run, i);
      var v, e, from :| Step(mac, run[i - 1], v, e, from, run[i]) && InPhase(run[i - 1], v, e);
      AlignedHearsInPhase(mac, run, i - 1, u);
      if u == v { ReactRivals(mac, run[i - 1][v], e); }
    }
  }

  /** In every aligned run, with any topology and any loss, the highest-address node of a ring that announced
      stands: an election resolves ties and never loses everyone. */
  lemma ElectionKeepsHighest(mac: MacParams, run: seq<Network>, i: nat, ring: Ring, v: Address)
    requires IsAlignedRun(mac, run) && i < |run| && HighestAnnouncer(run[i], ring, v)
    ensures run[i][v].Stands()
  {
    AlignedIsRun(mac, run);
    AlignedHearsInPhase(mac, run, i, v);
    HighestAnnouncerStands(mac, run, i, ring, v);
  }

  // ---- What a failed flush leaves behind -------------------------------------------------------------

  /** Why the elections above ask to be heard in phase: an announcement whose flush fails stays queued. If its
      author then yields to a rival and follows somebody, that flush transmits the announcement after all,
      although the author neither stands nor counts as having announced. */
  lemma LeftoverIsTransmitted(mac: MacParams, v: Address, n: Node, now: U32, rival: Transmission, later: U32)
    requires Sound(mac, v, n) && n.c.pending && n.s.role != Gateway
    requires rival.message.body.OpenCluster? && rival.message.src != v && rival.message.body.ring == n.s.rings.ring
    requires Aim(n.s.rings.ring, HearAnnouncement(n, rival).c.candidates.first).0 != UNKNOWN_ADDR
    ensures var ring := n.s.rings.ring;
      var n' := RunEvents(mac, n,
                          [AnnounceDue(now, true, false), Hear(rival, now, 0, false, false), AnnounceOver,
                           FollowDue(later, true, true)]);
      && !n'.Stands() && !n'.announced
      && Transmission(Joining(ring as nat), Message(now, v, OpenCluster(ring, v, n.s.rings.neighbors))) in n'.air
  {
    var n1 := React(mac, n, AnnounceDue(now, true, false));
    var n2 := React(mac, n1, Hear(rival, now, 0, false, false));
    var n3 := React(mac, n2, AnnounceOver);
    var e1, e2, e3 := [AnnounceDue(now, true, false)], [Hear(rival, now, 0, false, false)], [AnnounceOver];
    assert e1[..0] == [];
    RunSnoc(mac, n, [], AnnounceDue(now, true, false));
    RunSnoc(mac, n, [] + e1, Hear(rival, now, 0, false, false));
    RunSnoc(mac, n, [] + e1 + e2, AnnounceOver);
    RunSnoc(mac, n, [] + e1 + e2 + e3, FollowDue(later, true, true));
    assert [] + e1 + e2 + e3 + [FollowDue(later, true, true)]
        == [AnnounceDue(now, true, false), Hear(rival, now, 0, false, false), AnnounceOver,
            FollowDue(later, true, true)];
  }

  /** ... and a node that hears such a late announcement of a higher address in its own announcement phase is
      unseated by it, although it is the highest address of its ring to have announced. */
  lemma LateAnnouncementUnseats(mac: MacParams, g: Network, ring: Ring, v: Address, t: Transmission)
    returns (g': Network)
    requires Safe(mac, g) && HighestAnnouncer(g, ring, v) && g[v].c.phase == Announcing(ring as nat) && g[v].Stands()
    requires HeardFrom(g, t) && t.message.body.OpenCluster? && t.message.body.ring == ring && v < t.message.src
    ensures Step(mac, g, v, Hear(t, 0, 0, false, false), t.message.src, g')
    ensures HighestAnnouncer(g', ring, v) && !g'[v].Stands()
  {
    assert Sound(mac, v, g[v]);
    g' := g[v := React(mac, g[v], Hear(t, 0, 0, false, false))];
    assert forall u: Address :: Announced(g', ring, u) <==> Announced(g, ring, u);
  }

  // ---- Follow requests -------------------------------------------------------------------------------

  /** Requests that a node may still make in this joining phase. */
  function Budget(n: Node): nat { (if n.c.tryToFollow then 1 else 0) + (if n.c.triedSecond then 0 else 1) }

  /** The follow requests among the events that happen to a node. */
  function FollowsSent(mac: MacParams, n: Node, es: seq<Event>): nat
    requires CanAccept(mac, n.s)
  {
    if es == [] then 0
    else
      var init, e := es[..|es| - 1], es[|es| - 1];
      FollowsSent(mac, n, init) + if e.FollowDue? && Enabled(RunEvents(mac, n, init), e) then 1 else 0
  }

  lemma AnswerSpendsNothing(mac: MacParams, n: Node, follower: Address, now: U32, fits: bool, sent: bool)
    requires CanAccept(mac, n.s)
    ensures AnswerFollow(mac, n, follower, now, fits, sent).c == n.c
  {
  }

  lemma JoinSpendsNothing(mac: MacParams, n: Node, start: Byte, relative: Byte, draw: Byte)
    requires CanAccept(mac, n.s)
    ensures Join(mac, n, start, relative, draw).c == n.c.(joined := true)
  {
  }

  lemma HearingSpendsNothing(mac: MacParams, n: Node, m: Message, now: U32, draw: Byte, fits: bool, sent: bool)
    requires CanAccept(mac, n.s)
    ensures var n' := HearWhileJoining(mac, n, m, now, draw, fits, sent);
      n'.c.phase == n.c.phase && Budget(n') <= Budget(n)
  {
    if AsksMe(n, m) {
      AnswerSpendsNothing(mac, n, m.src, now, fits, sent);
    } else if AnswersMe(n, m) && m.body.accepted {
      JoinSpendsNothing(mac, n, m.body.startSlot, m.body.relativeSlot, draw);
    }
  }

  lemma ReactSpends(mac: MacParams, n: Node, e: Event)
    requires CanAccept(mac, n.s) && n.c.phase.Joining? && Enabled(n, e) && e != JoinOver
    ensures var n' := React(mac, n, e);
      n'.c.phase == n.c.phase && Budget(n') + (if e.FollowDue? then 1 else 0) <= Budget(n)
  {
    if e.Hear? { HearingSpendsNothing(mac, n, e.t.message, e.now, e.draw, e.fits, e.sent); }
  }

  /** In one joining phase a node asks its first candidate and, after a refusal, its second, and nobody else. */
  lemma {:induction false} AtMostTwoRequests(mac: MacParams, n: Node, es: seq<Event>)
    requires CanAccept(mac, n.s) && n.c.phase.Joining? && JoinOver !in es
    ensures RunEvents(mac, n, es).c.phase == n.c.phase
    ensures FollowsSent(mac, n, es) + Budget(RunEvents(mac, n, es)) <= Budget(n) <= 2
  {
    if es != [] {
      var init, e := es[..|es| - 1], es[|es| - 1];
      AtMostTwoRequests(mac, n, init);
      if Enabled(RunEvents(mac, n, init), e) { ReactSpends(mac, RunEvents(mac, n, init), e); }
    }
  }
}
