/** Which nodes take the clusterhead role, and what a node with the role holds, in every run (multihop.cpp). */
module Clusterheads {
  import opened Bytes
  import opened Messages
  import opened SlotClock
  import opened State
  import opened Cluster
  import opened Rounds
  import opened Advertising

  // ---- Who volunteers --------------------------------------------------------------------------------

  /** A node without a cluster probability never volunteers. Otherwise the drawn byte is compared with a base of 255,
      255, 195, 135 for rings 0 to 3, 64 beyond and 16 without a ring, plus 32 for every superframe waited. */
  lemma VolunteersIff(s: NodeState, draw: Byte)
    ensures Volunteers(s, draw) <==>
      && s.clusterheadP > 0
      && (draw as int - 32 * s.chCredit as int <=
            if s.rings.ring <= 1 then 255 else if s.rings.ring == 2 then 195 else if s.rings.ring == 3 then 135
            else if s.rings.ring <= 254 then 64 else 16)
  {
  }

  // ---- Taking the role -------------------------------------------------------------------------------

  /** A slot table without followers: one slot is used, the last entry is the clusterhead's own, nothing else is
      assigned, nothing is acknowledged, and the window is where the ring puts it. */
  ghost predicate HasEmptyTable(mac: MacParams, s: NodeState)
    requires Slotted(mac)
  {
    && s.slotsAssigned == 1 && s.downstreamStartSlot == StartSlot(mac, s.rings.ring)
    && (forall i | 0 <= i < |s.acks| :: s.acks[i] == 0)
    && Unassigned(s, 0)
  }

  /** From entry `used` on the table holds nobody but the node itself, in its last entry. (The index of that entry is
      an 8-bit value, so tables beyond 256 entries have it further in front.) */
  ghost predicate Unassigned(s: NodeState, used: nat) {
    forall i | used <= i < |s.slotAssignments| ::
      s.slotAssignments[i] == if i == (|s.slotAssignments| - 1) % 256 then s.address else 0
  }

  /** Whoever takes the role, at the start of a round or on joining, starts with an empty table, whatever it held
      before; so does the gateway when it first stands. */
  lemma RoleBringsEmptyTable(mac: MacParams, n: Node, e: Event)
    requires CanAccept(mac, n.s) && Enabled(n, e)
    ensures var n' := React(mac, n, e);
      && (n.s.role != Clusterhead && n'.s.role == Clusterhead ==> HasEmptyTable(mac, n'.s))
      && (e.StartRound? && n'.c.elected && !n.c.isClusterhead ==> HasEmptyTable(mac, n'.s))
  {
    match e
    case StartRound(draw) => PreparedIsEmpty(mac, n.s.(role := if n.s.role == Gateway then Gateway else Clusterhead));
    case Hear(t, _, _, _, _) =>
      if t.message.body.Accept? {
        var s := Attached(mac, n, t.message.body.startSlot, t.message.body.relativeSlot);
        PreparedIsEmpty(mac, s.(role := Clusterhead));
      }
    case _ =>
  }

  lemma PreparedIsEmpty(mac: MacParams, s: NodeState)
    requires Roomy(mac, s)
    ensures HasEmptyTable(mac, Prepared(mac, s))
  {
  }

  /** A new member takes the role if and only if it has none and volunteers; nothing else in a joining phase
      gives it. */
  lemma TakesRoleIff(mac: MacParams, n: Node, e: Event)
    requires CanAccept(mac, n.s) && Enabled(n, e) && n.c.phase.Joining? && n.s.role == Role.Follower
    ensures React(mac, n, e).s.role == Clusterhead <==>
      && e.Hear? && !AsksMe(n, e.t.message) && AnswersMe(n, e.t.message) && e.t.message.body.accepted
      && Volunteers(n.s, e.draw)
    ensures React(mac, n, e).s.role in {Role.Follower, Clusterhead}
  {
  }

  /** At the start of a round a node stands if and only if the round is that of its ring and it is the gateway or
      volunteers; it has something to announce unless it stood before. */
  lemma StandsAtStartIff(mac: MacParams, n: Node, draw: Byte)
    requires CanAccept(mac, n.s) && Enabled(n, StartRound(draw))
    ensures var n' := React(mac, n, StartRound(draw));
      && (n'.c.elected <==> n.s.rings.ring as nat == n.c.phase.round && (n.s.role == Gateway || Volunteers(n.s, draw)))
      && (n'.c.pending <==> n'.c.elected && !n.c.isClusterhead)
      && n'.c.phase == Announcing(n.c.phase.round) && n'.c.isClusterhead == n.c.isClusterhead
      && n'.s.role == (if n'.c.pending && n.s.role != Gateway then Clusterhead else n.s.role)
      && n'.queue == n.queue && n'.air == n.air
  {
  }

  // ---- Holding the role ------------------------------------------------------------------------------

  /** What a node with the role holds: its followers of this superframe and nobody else. */
  ghost predicate Equipped(mac: MacParams, v: Address, n: Node)
    requires Slotted(mac)
  {
    n.s.role == Clusterhead ==>
      && n.s.downstreamStartSlot == StartSlot(mac, n.s.rings.ring)
      && n.s.slotsAssigned as nat == 1 + |n.followers| <= |n.s.slotAssignments|
      && (n.s.slotsAssigned <= 1 || n.s.slotsAssigned <= WindowSize(mac))
      && (forall i | 0 <= i < |n.followers| :: n.s.slotAssignments[1 + i] == n.followers[i])
      && Unassigned(n.s, n.s.slotsAssigned as nat)
      && (|n.s.slotAssignments| <= 256 ==> n.s.slotAssignments[|n.s.slotAssignments| - 1] == v)
  }

  lemma EmptyTableIsEquipped(mac: MacParams, v: Address, n: Node)
    requires CanAccept(mac, n.s) && n.s.address == v && n.followers == [] && HasEmptyTable(mac, n.s)
    ensures Equipped(mac, v, n)
  {
    var k := |n.s.slotAssignments| - 1;
    if k < 256 { assert k % 256 == k; }
  }

  lemma GrantKeepsEquipped(mac: MacParams, v: Address, n: Node, follower: Address)
    requires Sound(mac, v, n) && n.c.isClusterhead && follower !in {0, v} && Equipped(mac, v, n)
    ensures Equipped(mac, v, GrantTo(mac, n, follower))
  {
    GrantIsFollower(mac, v, n, follower);
  }

  lemma AnswerKeepsEquipped(mac: MacParams, v: Address, n: Node, follower: Address, now: U32, fits: bool, sent: bool)
    requires Sound(mac, v, n) && n.c.isClusterhead && follower !in {0, v} && Equipped(mac, v, n)
    ensures Equipped(mac, v, AnswerFollow(mac, n, follower, now, fits, sent))
  {
    GrantKeepsEquipped(mac, v, n, follower);
  }

  lemma OtherwiseSameTable(mac: MacParams, n: Node, e: Event)
    requires CanAccept(mac, n.s) && Enabled(n, e)
    requires !(e.Hear? && n.c.phase.Joining? && AsksMe(n, e.t.message))
    requires n.s.role == Clusterhead && !(e.StartRound? && React(mac, n, e).c.elected && !n.c.isClusterhead)
    ensures var n' := React(mac, n, e);
      && n'.followers == n.followers && n'.s.slotAssignments == n.s.slotAssignments && n'.s.address == n.s.address
      && n'.s.slotsAssigned == n.s.slotsAssigned && n'.s.downstreamStartSlot == n.s.downstreamStartSlot
      && n'.s.rings == n.s.rings && n'.s.role == Clusterhead
  {
  }

  lemma ReactKeepsEquipped(mac: MacParams, v: Address, n: Node, e: Event, from: Address, sender: Node)
    requires Slotted(mac) && CanReact(mac, v, n, e, from, sender) && Equipped(mac, v, n)
    ensures Equipped(mac, v, React(mac, n, e))
  {
    var n' := React(mac, n, e);
    if n'.s.role == Clusterhead {
      RoleBringsEmptyTable(mac, n, e);
      if e.Hear? && n.c.phase.Joining? && AsksMe(n, e.t.message) {
        AnswerKeepsEquipped(mac, v, n, e.t.message.src, e.now, e.fits, e.sent);
      } else if n.s.role != Clusterhead || (e.StartRound? && n'.c.elected && !n.c.isClusterhead) {
        NewClusterheadHasNobody(mac, v, n, e);
        EmptyTableIsEquipped(mac, v, n');
      } else {
        OtherwiseSameTable(mac, n, e);
      }
    }
  }

  lemma NewClusterheadHasNobody(mac: MacParams, v: Address, n: Node, e: Event)
    requires Sound(mac, v, n) && Enabled(n, e) && !(e.Hear? && n.c.phase.Joining? && AsksMe(n, e.t.message))
    requires React(mac, n, e).s.role == Clusterhead
    requires n.s.role != Clusterhead || (e.StartRound? && React(mac, n, e).c.elected && !n.c.isClusterhead)
    ensures React(mac, n, e).followers == [] && React(mac, n, e).s.address == v
  {
  }

  /** In every run, whether it stands or not, a node with the clusterhead role has its window where its ring puts it,
      its own address in the last entry of its table, one slot for itself and one for each follower that it accepted
      in this superframe, in that order, and nobody else in its table. */
  lemma {:induction false} ClusterheadsAreEquipped(mac: MacParams, run: seq<Network>, i: nat, v: Address)
    requires IsRun(mac, run) && i < |run| && v in run[i]
    ensures Slotted(mac)
    ensures var n := run[i][v];
      n.s.role == Clusterhead ==>
        && n.s.downstreamStartSlot == StartSlot(mac, n.s.rings.ring)
        && n.s.slotsAssigned as nat == 1 + |n.followers| <= |n.s.slotAssignments|
        && (forall k | 0 <= k < |n.followers| :: n.s.slotAssignments[1 + k] == n.followers[k])
        && (forall k | 1 + |n.followers| <= k < |n.s.slotAssignments| - 1 && |n.s.slotAssignments| <= 256 ::
              n.s.slotAssignments[k] == 0)
        && (|n.s.slotAssignments| <= 256 ==> n.s.slotAssignments[|n.s.slotAssignments| - 1] == v)
  {
    RunIsEquipped(mac, run, i);
    assert Equipped(mac, v, run[i][v]);
  }

  lemma {:induction false} RunIsEquipped(mac: MacParams, run: seq<Network>, i: nat)
    requires IsRun(mac, run) && i < |run|
    ensures AllEquipped(mac, run[i])
  {
    if i == 0 {
      InitialIsEquipped(mac, run[0]);
    } else {
      RunIsEquipped(mac, run, i - 1);
      RunIsSafe(mac, run, i - 1);
      assert Linked(mac, run, i);
      NextKeepsAllEquipped(mac, run[i - 1], run[i]);
    }
  }

  ghost predicate AllEquipped(mac: MacParams, g: Network) {
    Slotted(mac) && forall v | v in g :: Equipped(mac, v, g[v])
  }

  lemma InitialIsEquipped(mac: MacParams, g: Network)
    requires Initial(mac, g)
    ensures AllEquipped(mac, g)
  {
    forall v | v in g ensures Equipped(mac, v, g[v]) { assert AtStart(mac, v, g[v]); }
  }

  lemma NextKeepsAllEquipped(mac: MacParams, g: Network, g': Network)
    requires Safe(mac, g) && Next(mac, g, g') && AllEquipped(mac, g)
    ensures AllEquipped(mac, g')
  {
    var u, e, from :| Step(mac, g, u, e, from, g');
    StepKeepsEquipped(mac, g, u, e, from);
    forall v | v in g' ensures Equipped(mac, v, g'[v]) {
      if v != u { assert Equipped(mac, v, g[v]) && g'[v] == g[v]; }
    }
  }

  lemma StepKeepsEquipped(mac: MacParams, g: Network, v: Address, e: Event, from: Address)
    requires Safe(mac, g) && v in g && Enabled(g[v], e) && Possible(g, e, from) && Equipped(mac, v, g[v])
    ensures CanAccept(mac, g[v].s) && Equipped(mac, v, React(mac, g[v], e))
  {
    if e.Hear? { assert Sound(mac, from, g[from]) && Truthful(from, g[from], e.t.message); }
    ReactKeepsEquipped(mac, v, g[v], e, from, if e.Hear? then g[from] else g[v]);
  }
}
