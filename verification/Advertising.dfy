/** All runs of one advertising phase across a network: slot tables, clusters and elections. */
module Advertising {
  import opened Bytes
  import opened Messages
  import opened SlotClock
  import opened State
  import opened Cluster
  import opened Candidates
  import opened Rounds

  // ---- Runs ------------------------------------------------------------------------------------------

  type Network = map<Address, Node>

  /** Messages of the clustering protocol; a queue may also hold others, such as forwarded datagrams. */
  predicate Clustering(b: Body) { b.OpenCluster? || b.Follow? || b.Accept? }

  /** A node behind neighbour discovery. Its ring is whatever discovery left, its table may be an old one. */
  ghost predicate AtStart(mac: MacParams, v: Address, n: Node) {
    && n.s.address == v != UNKNOWN_ADDR
    && n.s.role == (if v == GATEWAY_ADDR then Gateway else Role.Follower)
    && n.s.clusterheadAddr == UNKNOWN_ADDR
    && CanAccept(mac, n.s)
    && n.c == AT_START
    && (forall m | m in n.queue :: !Clustering(m.body))
    && (forall t | t in n.air :: !Clustering(t.message.body))
    && n.followers == [] && !n.volunteered && !n.announced && n.rivals == {}
  }

  ghost predicate Initial(mac: MacParams, g: Network) { Slotted(mac) && forall v | v in g :: AtStart(mac, v, g[v]) }

  /** A node hears only what some node transmitted; it may hear it late, in any order, repeatedly or never. */
  predicate Possible(g: Network, e: Event, from: Address) {
    e.Hear? ==> from in g && e.t in g[from].air
  }

  /** Node `v` takes step `e`; whatever it hears was transmitted by `from`. */
  ghost predicate Step(mac: MacParams, g: Network, v: Address, e: Event, from: Address, g': Network) {
    && v in g && CanAccept(mac, g[v].s) && Enabled(g[v], e) && Possible(g, e, from)
    && g' == g[v := React(mac, g[v], e)]
  }

  ghost predicate Next(mac: MacParams, g: Network, g': Network) { exists v, e, from :: Step(mac, g, v, e, from, g') }

  ghost predicate Linked(mac: MacParams, run: seq<Network>, i: nat)
    requires 0 < i < |run|
  {
    Next(mac, run[i - 1], run[i])
  }

  ghost predicate IsRun(mac: MacParams, run: seq<Network>) {
    && run != [] && Initial(mac, run[0])
    && forall i | 0 < i < |run| :: Linked(mac, run, i)
  }

  // ---- What holds of one node ------------------------------------------------------------------------

  ghost predicate Identity(mac: MacParams, v: Address, n: Node) {
    && n.s.address == v != UNKNOWN_ADDR
    && (n.s.role == Gateway <==> v == GATEWAY_ADDR)
    && n.s.role != NotInit
    && CanAccept(mac, n.s)
    && (n.c.eligible ==> v != GATEWAY_ADDR)
    && (n.c.tryToFollow ==> n.c.eligible)
  }

  /** A clusterhead's table lists its followers from entry 1 on, in the order in which they were accepted. */
  ghost predicate Tabled(v: Address, n: Node) {
    && (n.Stands() ==>
          && n.s.ActsAsClusterhead()
          && n.s.slotsAssigned as nat == 1 + |n.followers| <= |n.s.slotAssignments|
          && n.s.slotAssignments[0] in {0, v}
          && n.s.rings.ring as nat < NUM_ADV_ROUNDS
          && forall i | 0 <= i < |n.followers| :: n.s.slotAssignments[1 + i] == n.followers[i])
    && (!n.c.isClusterhead ==> n.followers == [])
  }

  /** A clusterhead's window is where its ring puts it, and it hands out no more slots than the window has. */
  ghost predicate Placed(mac: MacParams, n: Node)
    requires Slotted(mac)
  {
    n.Stands() ==>
      && n.s.downstreamStartSlot == StartSlot(mac, n.s.rings.ring)
      && (n.s.slotsAssigned <= 1 || n.s.slotsAssigned <= WindowSize(mac))
  }

  /** What a message of the protocol says is true of its sender, and stays true. */
  ghost predicate Truthful(v: Address, n: Node, m: Message) {
    && (Clustering(m.body) ==> m.src == v)
    && (m.body.OpenCluster? ==> m.body.ring == n.s.rings.ring && m.body.ring as nat < NUM_ADV_ROUNDS)
    && (m.body.Follow? ==> v != GATEWAY_ADDR && m.body.clusterhead != v)
    && (m.body.Accept? && m.body.accepted ==> KeepsSlot(n, m.body.follower, m.body.startSlot, m.body.relativeSlot))
  }

  ghost predicate KeepsSlot(n: Node, follower: Address, start: Byte, relative: Byte) {
    && n.c.isClusterhead && n.s.downstreamStartSlot == start
    && 1 <= relative as nat <= |n.followers| && n.followers[relative - 1] == follower
  }

  ghost predicate Honest(v: Address, n: Node) {
    && (forall m | m in n.queue :: Truthful(v, n, m))
    && (forall t | t in n.air :: Truthful(v, n, t.message))
  }

  ghost predicate OwnRoundBegun(n: Node) {
    var ring := n.s.rings.ring as nat;
    n.c.phase.round > ring || (n.c.phase.round == ring && !n.c.phase.Ready?)
  }

  /** The course of the election in the round of the node's own ring. */
  ghost predicate Elects(v: Address, n: Node) {
    var ring := n.s.rings.ring as nat;
    && (n.volunteered || n.announced || n.rivals != {} || n.Stands() || n.c.pending ==> OwnRoundBegun(n))
    && (n.c.pending ==> n.c.phase == Announcing(ring) && n.c.elected && !n.announced)
    && (n.announced ==> n.volunteered)
    && (n.c.phase == Announcing(ring) ==> !n.c.isClusterhead && (n.c.elected ==> n.c.pending || n.announced))
    && (n.c.elected && n.c.phase != Announcing(ring) ==> n.c.isClusterhead)
    && (n.Stands() <==>
          n.volunteered && if n.announced then forall t | t in n.rivals :: t.message.src < v else n.rivals == {})
    && (forall t | t in n.air && t.message.body.OpenCluster? && t.phase == Announcing(ring) :: n.announced)
  }

  ghost predicate Sound(mac: MacParams, v: Address, n: Node) {
    Identity(mac, v, n) && Tabled(v, n) && Placed(mac, n) && Honest(v, n) && Elects(v, n)
  }

  // ---- What a node knows of others --------------------------------------------------------------------

  /** `c` is nobody, or an announced clusterhead with its true ring. */
  ghost predicate Known(g: Network, v: Address, address: Address, ring: Ring) {
    if address == UNKNOWN_ADDR then ring == UNKNOWN_RING
    else address != v && address in g && g[address].s.rings.ring == ring && ring as nat < NUM_ADV_ROUNDS
  }

  ghost predicate Closer(n: Node, ring: Ring) { ring == UNKNOWN_RING || ring < n.s.rings.ring }

  /** The slot that `v` joined with is the slot that its clusterhead keeps for it. */
  ghost predicate Agrees(mac: MacParams, g: Network, v: Address, n: Node)
    requires Slotted(mac)
  {
    n.s.clusterheadAddr != UNKNOWN_ADDR ==>
      && Known(g, v, n.s.clusterheadAddr, n.s.clusterheadRing)
      && n.s.clusterheadRing < n.s.rings.ring
      && KeepsSlot(g[n.s.clusterheadAddr], v, n.s.upstreamStartSlot, n.s.upstreamRelativeSlot)
      && n.s.upstreamAckSlot == AckSlot(mac, n.s.upstreamStartSlot)
  }

  ghost predicate Informed(mac: MacParams, g: Network, v: Address, n: Node)
    requires Slotted(mac)
  {
    && Known(g, v, n.c.candidates.first.address, n.c.candidates.first.ring)
    && Known(g, v, n.c.candidates.second.address, n.c.candidates.second.ring)
    && Known(g, v, n.c.target, n.c.targetRing) && Closer(n, n.c.targetRing)
    && Agrees(mac, g, v, n)
    && forall t | t in n.rivals :: Rival(v, n, t) && HeardFrom(g, t)
  }

  predicate Rival(v: Address, n: Node, t: Transmission) {
    t.message.body.OpenCluster? && t.message.body.ring == n.s.rings.ring && t.message.src != v
  }

  ghost predicate HeardFrom(g: Network, t: Transmission) { t.message.src in g && t in g[t.message.src].air }

  ghost predicate Safe(mac: MacParams, g: Network) {
    Slotted(mac) && forall v | v in g :: Sound(mac, v, g[v]) && Informed(mac, g, v, g[v])
  }

  // ---- What later steps keep -------------------------------------------------------------------------

  /** What other nodes may rely on: rings stay, clusterheads stay, followers keep their slots. */
  ghost predicate Extends(n: Node, n': Node) {
    && n'.s.rings.ring == n.s.rings.ring
    && n.air <= n'.air
    && (n.announced ==> n'.announced)
    && n.followers <= n'.followers
    && (n.c.isClusterhead ==> n'.c.isClusterhead && n'.s.downstreamStartSlot == n.s.downstreamStartSlot)
  }

  lemma KeepsSlotStays(n: Node, n': Node, follower: Address, start: Byte, relative: Byte)
    requires Extends(n, n') && KeepsSlot(n, follower, start, relative)
    ensures KeepsSlot(n', follower, start, relative)
  {
  }

  // ---- Each step of one node -------------------------------------------------------------------------

  ghost predicate Keeps(mac: MacParams, v: Address, n: Node, n': Node) {
    Extends(n, n') && Identity(mac, v, n') && Tabled(v, n') && Placed(mac, n') && Elects(v, n')
  }

  lemma StartAnnouncingKeeps(mac: MacParams, v: Address, n: Node, draw: Byte)
    requires Sound(mac, v, n) && n.c.phase.Ready? && n.c.phase.round < NUM_ADV_ROUNDS
    ensures Keeps(mac, v, n, StartAnnouncing(mac, n, draw))
  {
  }

  lemma AnnounceKeeps(mac: MacParams, v: Address, n: Node, now: U32, fits: bool, sent: bool)
    requires Sound(mac, v, n) && n.c.pending
    ensures Keeps(mac, v, n, Announce(n, now, fits, sent))
  {
  }

  lemma HearAnnouncementKeeps(mac: MacParams, v: Address, n: Node, t: Transmission)
    requires Sound(mac, v, n) && n.c.phase.Announcing?
    ensures Keeps(mac, v, n, HearAnnouncement(n, t))
  {
  }

  lemma StartJoiningKeeps(mac: MacParams, v: Address, n: Node)
    requires Sound(mac, v, n) && n.c.phase.Announcing?
    ensures Keeps(mac, v, n, StartJoining(n))
  {
  }

  lemma FollowTargetKeeps(mac: MacParams, v: Address, n: Node, now: U32, fits: bool, sent: bool)
    requires Sound(mac, v, n) && n.c.phase.Joining?
    ensures Keeps(mac, v, n, FollowTarget(n, now, fits, sent))
  {
  }

  lemma FlushWhileJoiningKeeps(mac: MacParams, v: Address, n: Node, n': Node, body: Body, now: U32, fits: bool,
                               sent: bool)
    requires Keeps(mac, v, n, n') && n'.c.phase.Joining?
    ensures Keeps(mac, v, n, Flushed(Queued(n', body, now, fits), sent))
  {
  }

  /** A clusterhead's answer: who is granted a slot is, or becomes, the follower with that slot. */
  lemma GrantIsFollower(mac: MacParams, v: Address, n: Node, follower: Address)
    requires Identity(mac, v, n) && Tabled(v, n) && n.c.isClusterhead && follower !in {0, v}
    ensures var i, n' :=
      FindFrom(n.s.slotAssignments, 0, n.s.slotsAssigned as nat, follower), GrantTo(mac, n, follower);
      if i < n.s.slotsAssigned as nat then i > 0 && n.followers[i - 1] == follower && n' == n
      else if n.s.slotsAssigned >= WindowSize(mac) then n' == n
      else n'.followers == n.followers + [follower] && n'.s.slotsAssigned == n.s.slotsAssigned + 1
           && n'.s.slotAssignments == n.s.slotAssignments[i := follower]
  {
    var i := FindFrom(n.s.slotAssignments, 0, n.s.slotsAssigned as nat, follower);
    if 0 < i < n.s.slotsAssigned as nat { assert n.s.slotAssignments[1 + (i - 1)] == n.followers[i - 1]; }
  }

  lemma GrantKeeps(mac: MacParams, v: Address, n: Node, follower: Address)
    requires Sound(mac, v, n) && n.c.isClusterhead && follower !in {0, v}
    ensures Keeps(mac, v, n, GrantTo(mac, n, follower))
  {
    GrantIsFollower(mac, v, n, follower);
  }

  lemma AnswerKeepsSlot(mac: MacParams, v: Address, n: Node, follower: Address, n': Node, body: Body, now: U32)
    requires Identity(mac, v, n) && Tabled(v, n) && n.c.isClusterhead && follower !in {0, v}
    requires n' == GrantTo(mac, n, follower) && body == AcceptBody(mac, n.s, follower, now) && body.accepted
    ensures body.follower == follower && KeepsSlot(n', follower, body.startSlot, body.relativeSlot)
  {
    GrantIsFollower(mac, v, n, follower);
    var i := FindFrom(n.s.slotAssignments, 0, n.s.slotsAssigned as nat, follower);
    assert body.relativeSlot as nat == i;
  }

  lemma JoinKeeps(mac: MacParams, v: Address, n: Node, start: Byte, relative: Byte, draw: Byte)
    requires Sound(mac, v, n) && n.c.phase.Joining?
    ensures Keeps(mac, v, n, Join(mac, n, start, relative, draw))
  {
  }

  lemma TrySecondKeeps(mac: MacParams, v: Address, n: Node)
    requires Sound(mac, v, n) && n.c.eligible
    ensures Keeps(mac, v, n, TrySecond(n))
  {
  }

  lemma JoinOverKeeps(mac: MacParams, v: Address, n: Node)
    requires Sound(mac, v, n) && n.c.phase.Joining?
    ensures Keeps(mac, v, n, React(mac, n, JoinOver))
  {
  }

  /** What can be said of a message that a node hears: some node `from` transmitted it and meant it. */
  ghost predicate Meant(e: Event, from: Address, sender: Node) {
    e.Hear? ==> e.t in sender.air && Truthful(from, sender, e.t.message)
  }

  ghost predicate CanReact(mac: MacParams, v: Address, n: Node, e: Event, from: Address, sender: Node) {
    Sound(mac, v, n) && Enabled(n, e) && Meant(e, from, sender)
  }

  lemma HearWhileJoiningKeeps(mac: MacParams, v: Address, n: Node, e: Event, from: Address, sender: Node)
    requires CanReact(mac, v, n, e, from, sender) && e.Hear? && n.c.phase.Joining?
    ensures Keeps(mac, v, n, React(mac, n, e))
  {
    var m := e.t.message;
    if AsksMe(n, m) {
      GrantKeeps(mac, v, n, m.src);
      FlushWhileJoiningKeeps(mac, v, n, GrantTo(mac, n, m.src), AcceptBody(mac, n.s, m.src, e.now), e.now, e.fits,
                             e.sent);
    } else if AnswersMe(n, m) {
      if m.body.accepted {
        JoinKeeps(mac, v, n, m.body.startSlot, m.body.relativeSlot, e.draw);
      } else {
        TrySecondKeeps(mac, v, n);
      }
    }
  }

  lemma ReactKeeps(mac: MacParams, v: Address, n: Node, e: Event, from: Address, sender: Node)
    requires CanReact(mac, v, n, e, from, sender)
    ensures Keeps(mac, v, n, React(mac, n, e))
  {
    match e
    case StartRound(draw) => StartAnnouncingKeeps(mac, v, n, draw);
    case AnnounceDue(now, fits, sent) => AnnounceKeeps(mac, v, n, now, fits, sent);
    case AnnounceOver => StartJoiningKeeps(mac, v, n);
    case FollowDue(now, fits, sent) => FollowTargetKeeps(mac, v, n, now, fits, sent);
    case Hear(t, _, _, _, _) =>
      if n.c.phase.Announcing? {
        HearAnnouncementKeeps(mac, v, n, t);
      } else {
        HearWhileJoiningKeeps(mac, v, n, e, from, sender);
      }
    case JoinOver => JoinOverKeeps(mac, v, n);
  }

  // ---- Messages stay true ----------------------------------------------------------------------------

  lemma HonestStays(v: Address, n: Node, n': Node)
    requires Honest(v, n) && Extends(n, n') && n'.queue == n.queue && n'.air == n.air
    ensures Honest(v, n')
  {
  }

  lemma QueuedIsHonest(v: Address, n: Node, body: Body, now: U32, fits: bool)
    requires Honest(v, n) && Truthful(v, n, Message(now, n.s.address, body))
    ensures Honest(v, Queued(n, body, now, fits))
  {
  }

  lemma FlushedIsHonest(v: Address, n: Node, sent: bool)
    requires Honest(v, n)
    ensures Honest(v, Flushed(n, sent))
  {
    var n' := Flushed(n, sent);
    forall t | t in n'.air ensures Truthful(v, n', t.message) {
      if t in n.air { assert Truthful(v, n, t.message); } else { assert Truthful(v, n, t.message); }
    }
  }

  lemma AnswerIsHonest(mac: MacParams, v: Address, n: Node, follower: Address, now: U32, fits: bool, sent: bool)
    requires Sound(mac, v, n) && n.c.isClusterhead && follower !in {0, v}
    ensures Honest(v, AnswerFollow(mac, n, follower, now, fits, sent))
  {
    var n', body := GrantTo(mac, n, follower), AcceptBody(mac, n.s, follower, now);
    GrantKeeps(mac, v, n, follower);
    HonestStays(v, n, n');
    if body.accepted { AnswerKeepsSlot(mac, v, n, follower, n', body, now); }
    QueuedIsHonest(v, n', body, now, fits);
    FlushedIsHonest(v, Queued(n', body, now, fits), sent);
  }

  lemma FollowIsHonest(v: Address, n: Node, now: U32, fits: bool, sent: bool)
    requires Honest(v, n) && n.s.address == v && v != GATEWAY_ADDR && n.c.target != v
    ensures Honest(v, FollowTarget(n, now, fits, sent))
  {
    if n.c.target != UNKNOWN_ADDR {
      var body := Follow(n.c.target, v);
      QueuedIsHonest(v, n, body, now, fits);
      FlushedIsHonest(v, Queued(n, body, now, fits), sent);
      HonestStays(v, Flushed(Queued(n, body, now, fits), sent), FollowTarget(n, now, fits, sent));
    }
  }

  lemma AnnounceIsHonest(mac: MacParams, v: Address, n: Node, now: U32, fits: bool, sent: bool)
    requires Sound(mac, v, n) && n.c.pending
    ensures Honest(v, Announce(n, now, fits, sent))
  {
    var body := OpenCluster(n.s.rings.ring, v, n.s.rings.neighbors);
    QueuedIsHonest(v, n, body, now, fits);
    FlushedIsHonest(v, Queued(n, body, now, fits), true);
    if fits && sent { HonestStays(v, Flushed(Queued(n, body, now, fits), true), Announce(n, now, fits, sent)); }
  }

  lemma ReactHonest(mac: MacParams, v: Address, n: Node, e: Event, from: Address, sender: Node)
    requires CanReact(mac, v, n, e, from, sender) && n.c.target != v
    ensures Honest(v, React(mac, n, e))
  {
    ReactKeeps(mac, v, n, e, from, sender);
    match e
    case AnnounceDue(now, fits, sent) => AnnounceIsHonest(mac, v, n, now, fits, sent);
    case FollowDue(now, fits, sent) => FollowIsHonest(v, n, now, fits, sent);
    case Hear(t, now, _, fits, sent) =>
      if n.c.phase.Joining? && AsksMe(n, t.message) {
        AnswerIsHonest(mac, v, n, t.message.src, now, fits, sent);
      } else {
        HonestStays(v, n, React(mac, n, e));
      }
    case _ => HonestStays(v, n, React(mac, n, e));
  }

  lemma ReactSound(mac: MacParams, v: Address, n: Node, e: Event, from: Address, sender: Node)
    requires CanReact(mac, v, n, e, from, sender) && n.c.target != v
    ensures Sound(mac, v, React(mac, n, e)) && Extends(n, React(mac, n, e))
  {
    ReactKeeps(mac, v, n, e, from, sender);
    ReactHonest(mac, v, n, e, from, sender);
  }

  // ---- What nodes know stays true --------------------------------------------------------------------

  ghost predicate Grows(g: Network, g': Network) {
    g.Keys == g'.Keys && forall v | v in g :: Extends(g[v], g'[v])
  }

  /** Node `v` went from `n` to `n'` without learning anything. */
  ghost predicate LearnsNothing(n: Node, n': Node) {
    && n'.c.candidates == n.c.candidates && n'.c.target == n.c.target && n'.c.targetRing == n.c.targetRing
    && n'.rivals == n.rivals && n'.s.rings == n.s.rings
    && n'.s.clusterheadAddr == n.s.clusterheadAddr && n'.s.clusterheadRing == n.s.clusterheadRing
    && n'.s.upstreamStartSlot == n.s.upstreamStartSlot && n'.s.upstreamRelativeSlot == n.s.upstreamRelativeSlot
    && n'.s.upstreamAckSlot == n.s.upstreamAckSlot
  }

  lemma KnowledgeStays(mac: MacParams, g: Network, g': Network, v: Address, n: Node, n': Node)
    requires Slotted(mac) && Grows(g, g') && Informed(mac, g, v, n) && LearnsNothing(n, n')
    ensures Informed(mac, g', v, n')
  {
    var p := n.s.clusterheadAddr;
    if p != UNKNOWN_ADDR {
      KeepsSlotStays(g[p], g'[p], v, n.s.upstreamStartSlot, n.s.upstreamRelativeSlot);
    }
    forall t | t in n'.rivals ensures HeardFrom(g', t) {
      assert HeardFrom(g, t);
      assert Extends(g[t.message.src], g'[t.message.src]);
    }
  }

  /** What `v` can use when it hears `t` from `from`. */
  ghost predicate Hears(mac: MacParams, g: Network, v: Address, n: Node, t: Transmission, from: Address) {
    && v in g && n == g[v] && Sound(mac, v, n) && Slotted(mac) && Informed(mac, g, v, n)
    && from in g && from != UNKNOWN_ADDR && t in g[from].air && Truthful(from, g[from], t.message)
  }

  lemma AnnouncementIsKnown(mac: MacParams, g: Network, v: Address, n: Node, t: Transmission, from: Address)
    requires Hears(mac, g, v, n, t, from)
    ensures Informed(mac, g, v, HearAnnouncement(n, t))
  {
    var n', m := HearAnnouncement(n, t), t.message;
    if m.body.OpenCluster? {
      assert HeardFrom(g, t);
      assert Known(g, v, m.src, m.body.ring) || m.src == v;
    }
  }

  lemma AimIsKnown(g: Network, v: Address, n: Node, c: Candidate)
    requires v in g && n == g[v] && Known(g, v, c.address, c.ring)
    ensures var aim := Aim(n.s.rings.ring, c); Known(g, v, aim.0, aim.1) && Closer(n, aim.1)
  {
  }

  lemma JoinIsKnown(mac: MacParams, g: Network, v: Address, n: Node, t: Transmission, from: Address, draw: Byte)
    requires Hears(mac, g, v, n, t, from) && AnswersMe(n, t.message) && t.message.body.accepted
    ensures Informed(mac, g, v, Join(mac, n, t.message.body.startSlot, t.message.body.relativeSlot, draw))
  {
  }

  lemma HearingIsKnown(mac: MacParams, g: Network, v: Address, n: Node, e: Event, from: Address)
    requires e.Hear? && Enabled(n, e) && Hears(mac, g, v, n, e.t, from)
    ensures Informed(mac, g, v, React(mac, n, e))
  {
    var m := e.t.message;
    if n.c.phase.Announcing? {
      AnnouncementIsKnown(mac, g, v, n, e.t, from);
    } else if AsksMe(n, m) {
      SameKnowledge(mac, g, v, n, React(mac, n, e));
    } else if AnswersMe(n, m) {
      if m.body.accepted {
        JoinIsKnown(mac, g, v, n, e.t, from, e.draw);
      } else {
        AimIsKnown(g, v, n, n.c.candidates.second);
      }
    }
  }

  lemma SameKnowledge(mac: MacParams, g: Network, v: Address, n: Node, n': Node)
    requires Slotted(mac) && Informed(mac, g, v, n) && LearnsNothing(n, n')
    ensures Informed(mac, g, v, n')
  {
  }

  lemma StartIsKnown(mac: MacParams, g: Network, v: Address, n: Node, draw: Byte)
    requires Slotted(mac) && Informed(mac, g, v, n) && CanAccept(mac, n.s)
    ensures Informed(mac, g, v, StartAnnouncing(mac, n, draw))
  {
  }

  lemma JoiningIsKnown(mac: MacParams, g: Network, v: Address, n: Node)
    requires Slotted(mac) && v in g && n == g[v] && Informed(mac, g, v, n)
    ensures Informed(mac, g, v, StartJoining(n))
  {
    AimIsKnown(g, v, n, n.c.candidates.first);
  }

  lemma ReactInformed(mac: MacParams, g: Network, v: Address, n: Node, e: Event, from: Address)
    requires v in g && n == g[v] && Sound(mac, v, n) && Slotted(mac) && Informed(mac, g, v, n)
    requires Enabled(n, e) && (e.Hear? ==> Hears(mac, g, v, n, e.t, from))
    ensures Informed(mac, g, v, React(mac, n, e))
  {
    match e
    case StartRound(draw) => StartIsKnown(mac, g, v, n, draw);
    case AnnounceOver => JoiningIsKnown(mac, g, v, n);
    case Hear(_, _, _, _, _) => HearingIsKnown(mac, g, v, n, e, from);
    case _ => SameKnowledge(mac, g, v, n, React(mac, n, e));
  }

  lemma MoverIsSafe(mac: MacParams, g: Network, v: Address, n: Node, e: Event, from: Address, n': Node)
    requires Safe(mac, g) && v in g && n == g[v] && Enabled(n, e) && Possible(g, e, from) && n' == React(mac, n, e)
    ensures Sound(mac, v, n') && Extends(n, n') && Informed(mac, g, v, n')
  {
    if e.Hear? {
      assert Sound(mac, from, g[from]);
      assert Truthful(from, g[from], e.t.message);
    }
    ReactSound(mac, v, n, e, from, if e.Hear? then g[from] else n);
    ReactInformed(mac, g, v, n, e, from);
  }

  lemma OtherStaysSafe(mac: MacParams, g: Network, v: Address, n': Node, g': Network, u: Address)
    requires Slotted(mac) && g' == g[v := n'] && Grows(g, g') && u != v && u in g
    requires Sound(mac, u, g[u]) && Informed(mac, g, u, g[u])
    ensures Sound(mac, u, g'[u]) && Informed(mac, g', u, g'[u])
  {
    KnowledgeStays(mac, g, g', u, g[u], g[u]);
  }

  lemma OthersStaySafe(mac: MacParams, g: Network, v: Address, n': Node, g': Network)
    requires Safe(mac, g) && v in g && g' == g[v := n']
    requires Sound(mac, v, n') && Extends(g[v], n') && Informed(mac, g, v, n')
    ensures Safe(mac, g') && Grows(g, g')
  {
    assert Grows(g, g');
    KnowledgeStays(mac, g, g', v, n', n');
    forall u | u in g' ensures Sound(mac, u, g'[u]) && Informed(mac, g', u, g'[u]) {
      if u != v { OtherStaysSafe(mac, g, v, n', g', u); }
    }
  }

  lemma StepIsSafe(mac: MacParams, g: Network, v: Address, e: Event, from: Address, g': Network)
    requires Safe(mac, g) && Step(mac, g, v, e, from, g')
    ensures Safe(mac, g') && Grows(g, g')
  {
    MoverIsSafe(mac, g, v, g[v], e, from, g'[v]);
    OthersStaySafe(mac, g, v, g'[v], g');
  }

  lemma NextIsSafe(mac: MacParams, g: Network, g': Network)
    requires Safe(mac, g) && Next(mac, g, g')
    ensures Safe(mac, g') && Grows(g, g')
  {
    var v, e, from :| Step(mac, g, v, e, from, g');
    StepIsSafe(mac, g, v, e, from, g');
  }

  lemma InitialIsSafe(mac: MacParams, g: Network)
    requires Initial(mac, g)
    ensures Safe(mac, g)
  {
    forall v | v in g ensures Sound(mac, v, g[v]) && Informed(mac, g, v, g[v]) { assert AtStart(mac, v, g[v]); }
  }

  lemma {:induction false} RunIsSafe(mac: MacParams, run: seq<Network>, i: nat)
    requires IsRun(mac, run) && i < |run|
    ensures Safe(mac, run[i])
  {
    if i == 0 {
      InitialIsSafe(mac, run[0]);
    } else {
      RunIsSafe(mac, run, i - 1);
      assert Linked(mac, run, i);
      NextIsSafe(mac, run[i - 1], run[i]);
    }
  }

  lemma GrowsFurther(g: Network, g': Network, g'': Network)
    requires Grows(g, g') && Grows(g', g'')
    ensures Grows(g, g'')
  {
    forall v | v in g ensures Extends(g[v], g''[v]) {
      assert Extends(g[v], g'[v]) && Extends(g'[v], g''[v]);
    }
  }

  lemma RunStepGrows(mac: MacParams, run: seq<Network>, j: nat)
    requires IsRun(mac, run) && 0 < j < |run|
    ensures Grows(run[j - 1], run[j])
  {
    RunIsSafe(mac, run, j - 1);
    assert Linked(mac, run, j);
    NextIsSafe(mac, run[j - 1], run[j]);
  }

  lemma {:induction false} RunGrows(mac: MacParams, run: seq<Network>, i: nat, j: nat)
    requires IsRun(mac, run) && i <= j < |run|
    ensures Grows(run[i], run[j])
    decreases j - i
  {
    if i < j {
      RunStepGrows(mac, run, j);
      RunGrows(mac, run, i, j - 1);
      GrowsFurther(run[i], run[j - 1], run[j]);
    }
  }
}
