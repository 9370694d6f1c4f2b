/** What `init` sets up, field by field, and that discovery and clustering start from it (multihop.cpp). */
module SetUp {
  import opened Bytes
  import opened Messages
  import opened Rings
  import opened SlotClock
  import opened State
  import opened Cluster
  import opened Clusterheads
  import Discovery

  /** The gateway has ring 0 and its role from the start, everybody else no ring and the follower role; nobody has heard
      or joined anybody, earned credit, or accepted a follower. */
  lemma InitSetsUp(mac: MacParams, address: Address, clusterheadP: Byte, slotCount: nat)
    requires Slotted(mac) && mac.slotCount as nat <= slotCount
    ensures var s := Initialized(mac, address, clusterheadP, slotCount);
      && s.address == address && s.clusterheadP == clusterheadP && s.chCredit == 0
      && s.role == (if address == 0 then Gateway else Role.Follower)
      && s.rings.ring == (if address == 0 then 0 else 255) && s.rings.roundsWithoutLower == 0
      && s.rings.neighbors.ringStart == 0 && (forall i | 0 <= i < 8 :: s.rings.neighbors.counts[i] == 0)
      && s.clusterheadAddr == 255 && s.clusterheadRing == 255
      && s.upstreamStartSlot == 0 && s.upstreamRelativeSlot == 0 && s.upstreamAckSlot == 0
      && s.slotsAssigned == 1 && |s.slotAssignments| == slotCount && |s.acks| == slotCount
      && (forall i | 0 <= i < slotCount :: s.acks[i] == 0)
  {
  }

  /** The gateway's slot table is ready: its own last entry, nobody else, and its window where ring 0 has it. A
      follower's is empty. */
  lemma InitSetsUpTable(mac: MacParams, address: Address, clusterheadP: Byte, slotCount: nat)
    requires Slotted(mac) && mac.slotCount as nat <= slotCount
    ensures var s := Initialized(mac, address, clusterheadP, slotCount);
      if address == 0 then HasEmptyTable(mac, s) && s.downstreamStartSlot == StartSlot(mac, 0)
      else s.downstreamStartSlot == 0 && forall i | 0 <= i < slotCount :: s.slotAssignments[i] == 0
  {
  }

  /** The parameters with which the nodes of a network are set up. */
  datatype NodeParams = NodeParams(clusterheadP: Byte, slotCount: nat)

  ghost predicate CanSetUp(mac: MacParams, g: Discovery.Graph, ps: map<Address, NodeParams>) {
    Slotted(mac) && ps.Keys == g.nodes && forall v | v in ps :: mac.slotCount as nat <= ps[v].slotCount
  }

  /** The rings of all nodes that were set up, with nothing in flight. */
  ghost function Network(mac: MacParams, g: Discovery.Graph, ps: map<Address, NodeParams>): Discovery.Network
    requires CanSetUp(mac, g, ps)
  {
    Discovery.Network(map v | v in ps :: Initialized(mac, v, ps[v].clusterheadP, ps[v].slotCount).rings, {})
  }

  lemma SetUpStartsDiscovery(mac: MacParams, g: Discovery.Graph, ps: map<Address, NodeParams>)
    requires CanSetUp(mac, g, ps)
    ensures Discovery.Init(g, Network(mac, g, ps))
  {
    forall v | v in g.nodes
      ensures Network(mac, g, ps).nodes[v]
           == RingState(if v == GATEWAY_ADDR then GATEWAY_RING else UNKNOWN_RING, NO_NEIGHBORS, 0)
    {
      InitSetsUp(mac, v, ps[v].clusterheadP, ps[v].slotCount);
    }
  }

  /** Ring safety from set-up on: in whatever network the nodes are, no ring falls below the hop distance. */
  lemma SetUpIsRingSafe(mac: MacParams, g: Discovery.Graph, ps: map<Address, NodeParams>, run: seq<Discovery.Network>,
                        i: nat, v: Address)
    requires Discovery.ValidGraph(g) && CanSetUp(mac, g, ps) && i < |run| && run[0] == Network(mac, g, ps)
    requires forall j | 0 < j < |run| :: Discovery.Next(g, run[j - 1], run[j])
    requires v in g.nodes
    ensures v in run[i].nodes && Discovery.Distance(g, v) <= run[i].nodes[v].ring as nat
    ensures run[i].nodes[v].ring == GATEWAY_RING <==> v == GATEWAY_ADDR
  {
    SetUpStartsDiscovery(mac, g, ps);
    Discovery.RingSafety(g, run, i);
  }
}
