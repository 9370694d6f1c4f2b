/** After every advertising phase the slots of the cluster forest form a timetable towards the gateway. */
module Convergecast {
  import opened Bytes
  import opened Messages
  import opened SlotClock
  import opened Cluster
  import opened Advertising
  import opened Clusters
  import opened Timetable

  /** The slot with which a node joined is a slot of its clusterhead's window. */
  lemma JoinedIsMember(mac: MacParams, run: seq<Network>, i: nat, v: Address)
    requires IsRun(mac, run) && i < |run| && Joined(run[i], v)
    ensures Slotted(mac) && run[i][v].s.clusterheadAddr in run[i]
    ensures MemberOf(mac, run[i][v].s, run[i][run[i][v].s.clusterheadAddr].s)
  {
    RunIsSafe(mac, run, i);
    SlotTableAgreement(mac, run, i, v);
    ClusterheadIsCloser(mac, run, i, v);
    var p := run[i][v].s.clusterheadAddr;
    assert Sound(mac, p, run[i][p]);
  }

  /** In every run a clusterhead listens to a member exactly in the slot in which that member sends, and takes
      what it hears for that member's, unless the member was given the last slot of the window. */
  lemma Rendezvous(mac: MacParams, run: seq<Network>, i: nat, v: Address, slot: int)
    requires IsRun(mac, run) && i < |run| && Joined(run[i], v)
    ensures Slotted(mac) && run[i][v].s.clusterheadAddr in run[i]
    ensures var s, p := run[i][v].s, run[i][run[i][v].s.clusterheadAddr].s;
      && ((Listens(mac, p, slot) == Some(s.upstreamRelativeSlot)) <==>
          (slot == SendSlot(s) as int && s.upstreamRelativeSlot as int != WindowSize(mac) as int - 1))
      && (Listens(mac, p, slot) == Some(s.upstreamRelativeSlot) ==> ListensOn(mac, p, slot) == SendsOn(s, slot))
      && s.upstreamRelativeSlot as nat < |p.slotAssignments| && p.slotAssignments[s.upstreamRelativeSlot] == v
  {
    JoinedIsMember(mac, run, i, v);
    SlotTableAgreement(mac, run, i, v);
    RendezvousIff(mac, run[i][v].s, run[i][run[i][v].s.clusterheadAddr].s, slot);
  }

  /** In every run and every slot, all members that send and all clusterheads that listen to one use the same
      spreading code: the codes never tell two clusters apart that use the same slot. */
  lemma OneCodePerSlot(mac: MacParams, run: seq<Network>, i: nat, u: Address, v: Address, slot: nat)
    requires IsRun(mac, run) && i < |run| && Joined(run[i], u) && Joined(run[i], v) && slot >= ADV_SLOTS
    ensures Slotted(mac) && run[i][v].s.clusterheadAddr in run[i]
    ensures var mine, theirs, head := SendsOn(run[i][u].s, slot), SendsOn(run[i][v].s, slot),
                                      ListensOn(mac, run[i][run[i][v].s.clusterheadAddr].s, slot);
      && (mine.Some? && theirs.Some? ==> mine == theirs)
      && (mine.Some? && head.Some? ==> mine == head)
  {
    JoinedIsMember(mac, run, i, u);
    JoinedIsMember(mac, run, i, v);
    CodeIsOfSlot(mac, run[i][u].s, run[i][run[i][u].s.clusterheadAddr].s, slot);
    CodeIsOfSlot(mac, run[i][v].s, run[i][run[i][v].s.clusterheadAddr].s, slot);
  }

  /** Whatever timing calls the two nodes made before: at a time at which a member finds itself in its send slot,
      its clusterhead listens to it, if that one's clock reports a slot at all. */
  lemma HeardWhenSent(mac: MacParams, run: seq<Network>, i: nat, v: Address, mine: seq<nat>, yours: seq<nat>)
    requires IsRun(mac, run) && i < |run| && Joined(run[i], v) && mac.Valid()
    requires mine != [] && yours != [] && mine[|mine| - 1] == yours[|yours| - 1]
    requires mac.Schedule().Valid() && Answer(mac.Schedule(), mine) == SendSlot(run[i][v].s) as int
    requires Answer(mac.Schedule(), yours) >= 0
    ensures Slotted(mac) && run[i][v].s.clusterheadAddr in run[i]
    ensures run[i][v].s.upstreamRelativeSlot as int != WindowSize(mac) as int - 1 ==>
      Listens(mac, run[i][run[i][v].s.clusterheadAddr].s, Answer(mac.Schedule(), yours))
        == Some(run[i][v].s.upstreamRelativeSlot)
  {
    NodesAgreeOnSlot(mac.Schedule(), mine, yours);
    Rendezvous(mac, run, i, v, Answer(mac.Schedule(), yours));
  }

  /** One relay: it has heard and answered its member before it sends, if its ring is below the reuse distance. */
  lemma RelayInTime(mac: MacParams, run: seq<Network>, i: nat, v: Address, relay: Address, head: Address)
    requires IsRun(mac, run) && i < |run| && IsMemberOf(run[i], v, relay) && IsMemberOf(run[i], relay, head)
    requires run[i][relay].s.rings.ring < mac.reuseDistance
    ensures Slotted(mac)
    ensures SendSlot(run[i][v].s) <= AckSlot(mac, run[i][relay].s.downstreamStartSlot) < SendSlot(run[i][relay].s)
  {
    JoinedIsMember(mac, run, i, v);
    JoinedIsMember(mac, run, i, relay);
    ClusterheadIsCloser(mac, run, i, relay);
    RelayOrderIff(mac, run[i][v].s, run[i][relay].s, run[i][head].s);
    SmallRemainder(run[i][relay].s.rings.ring, mac.reuseDistance);
    SmallRemainder(run[i][head].s.rings.ring, mac.reuseDistance);
  }

  /** The relays of a chain are in rings below the reuse distance. */
  ghost predicate RelaysReused(mac: MacParams, g: Network, chain: seq<Address>) {
    forall k | 0 < k < |chain| :: chain[k] in g && g[chain[k]].s.rings.ring < mac.reuseDistance
  }

  /** Along every chain of members the send slots increase, so that data reach the end in one superframe. */
  lemma {:induction false} SendSlotsIncrease(mac: MacParams, run: seq<Network>, i: nat, chain: seq<Address>, a: nat,
                                             b: nat)
    requires IsRun(mac, run) && i < |run| && IsChain(run[i], chain) && RelaysReused(mac, run[i], chain)
    requires a < b < |chain| - 1
    ensures chain[a] in run[i] && chain[b] in run[i]
    ensures SendSlot(run[i][chain[a]].s) < SendSlot(run[i][chain[b]].s)
  {
    assert IsMemberOf(run[i], chain[b - 1], chain[b]) && IsMemberOf(run[i], chain[b], chain[b + 1]);
    RelayInTime(mac, run, i, chain[b - 1], chain[b], chain[b + 1]);
    if a < b - 1 { SendSlotsIncrease(mac, run, i, chain, a, b - 1); }
  }

  /** With a reuse distance of at least 3, all chains of all runs keep the timetable. */
  lemma ConvergecastTimetable(mac: MacParams, run: seq<Network>, i: nat, chain: seq<Address>)
    requires IsRun(mac, run) && i < |run| && IsChain(run[i], chain) && mac.reuseDistance >= 3
    ensures Slotted(mac) && forall k | 0 <= k < |chain| :: chain[k] in run[i]
    ensures forall a, b | 0 <= a < b < |chain| - 1 :: SendSlot(run[i][chain[a]].s) < SendSlot(run[i][chain[b]].s)
    ensures forall k | 0 < k < |chain| - 1 ::
      AckSlot(mac, run[i][chain[k]].s.downstreamStartSlot) < SendSlot(run[i][chain[k]].s)
    ensures forall k | 0 <= k < |chain| - 1 :: ADV_SLOTS < SendSlot(run[i][chain[k]].s) as nat < mac.slotCount as nat
  {
    var g := run[i];
    assert Slotted(mac) by { RunIsSafe(mac, run, i); }
    forall k | 0 < k < |chain| ensures chain[k] in g && g[chain[k]].s.rings.ring < mac.reuseDistance {
      ChainDescends(mac, run, i, chain, k, k);
    }
    forall a, b | 0 <= a < b < |chain| - 1 ensures SendSlot(g[chain[a]].s) < SendSlot(g[chain[b]].s) {
      SendSlotsIncrease(mac, run, i, chain, a, b);
    }
    forall k | 0 < k < |chain| - 1
      ensures AckSlot(mac, g[chain[k]].s.downstreamStartSlot) < SendSlot(g[chain[k]].s)
    {
      assert IsMemberOf(g, chain[k - 1], chain[k]) && IsMemberOf(g, chain[k], chain[k + 1]);
      RelayInTime(mac, run, i, chain[k - 1], chain[k], chain[k + 1]);
    }
    forall k | 0 <= k < |chain| - 1 ensures ADV_SLOTS < SendSlot(g[chain[k]].s) as nat < mac.slotCount as nat {
      assert IsMemberOf(g, chain[k], chain[k + 1]);
      JoinedIsMember(mac, run, i, chain[k]);
      SlotsOfMember(mac, g[chain[k]].s, g[chain[k + 1]].s);
    }
  }
}
