/** When a clusterhead's members send, when it listens, and when it answers (multihop.cpp). */
module Timetable {
  import opened Arith
  import opened Bytes
  import opened Messages
  import opened Rings
  import opened SlotClock
  import opened State
  import opened Cluster
  import Link

  // ---- Windows ---------------------------------------------------------------------------------------

  lemma WindowsFit(mac: MacParams)
    requires Slotted(mac)
    ensures mac.reuseDistance as nat * WindowSize(mac) as nat <= mac.slotCount as nat - ADV_SLOTS
  {
    QuotientAtMost(mac.slotCount as nat - ADV_SLOTS, mac.reuseDistance as nat);
  }

  /** Windows are as large as they can be, for as many as the reuse distance asks for behind the advertisement slot. */
  lemma WindowIsLargest(mac: MacParams)
    requires Slotted(mac)
    ensures var w, d := WindowSize(mac) as nat, mac.reuseDistance as nat;
      d * w <= mac.slotCount as nat - 1 < d * (w + 1)
  {
    WindowsFit(mac);
    QuotientIff(mac.slotCount as nat - 1, WindowSize(mac) as nat, mac.reuseDistance as nat);
    MulStep(WindowSize(mac) as nat, mac.reuseDistance as nat);
  }

  /** Windows lie behind the advertisement slot and inside the superframe; no 8-bit value overflows. */
  lemma WindowInSuperframe(mac: MacParams, ring: Ring)
    requires Slotted(mac)
    ensures StartSlot(mac, ring) as nat == ADV_SLOTS + Inverted(mac, ring) * WindowSize(mac) as nat
    ensures StartSlot(mac, ring) as int
         == 1 + (mac.reuseDistance as int - 1 - ring as int % mac.reuseDistance as int) * WindowSize(mac) as int
    ensures ADV_SLOTS <= StartSlot(mac, ring) as nat
    ensures StartSlot(mac, ring) as nat + WindowSize(mac) as nat <= mac.slotCount as nat
  {
    WindowsFit(mac);
    ProductFits(Inverted(mac, ring), mac.reuseDistance as nat, WindowSize(mac) as nat);
  }

  /** Which of the windows, counted from the front, the given ring uses. */
  function Inverted(mac: MacParams, ring: Ring): (k: nat)
    requires Slotted(mac)
    ensures k < mac.reuseDistance as nat
  {
    mac.reuseDistance as nat - 1 - ring as nat % mac.reuseDistance as nat
  }

  lemma ProductFits(k: nat, d: nat, w: nat)
    requires k < d
    ensures 0 <= k * w && k * w + w <= d * w
  {
    MulStep(k, w);
    MulMono(k + 1, d, w);
  }

  /** The windows of two rings: one is over before the other starts exactly when the rings say so. */
  lemma WindowsApartIff(mac: MacParams, near: Ring, far: Ring)
    requires Slotted(mac) && WindowSize(mac) > 0
    ensures StartSlot(mac, far) as nat + WindowSize(mac) as nat <= StartSlot(mac, near) as nat
       <==> near % mac.reuseDistance < far % mac.reuseDistance
    ensures near % mac.reuseDistance >= far % mac.reuseDistance ==> StartSlot(mac, near) <= StartSlot(mac, far)
  {
    WindowInSuperframe(mac, near);
    WindowInSuperframe(mac, far);
    ProductsApart(Inverted(mac, far), Inverted(mac, near), WindowSize(mac) as nat);
  }

  lemma ProductsApart(a: nat, b: nat, w: nat)
    requires w > 0
    ensures a * w + w <= b * w <==> a < b
    ensures b <= a ==> b * w <= a * w
  {
    if a < b {
      MulStep(a, w);
      MulMono(a + 1, b, w);
    } else {
      MulMono(b, a, w);
    }
  }

  // ---- The guards of the four actions ----------------------------------------------------------------

  /** The slot in which a member sends. */
  function SendSlot(s: NodeState): Byte { Wrap8(s.upstreamStartSlot as int + s.upstreamRelativeSlot as int) }

  /** Which member a clusterhead listens to in the given slot. */
  function Listens(mac: MacParams, s: NodeState, slot: int): Option<Byte>
    requires Slotted(mac)
  {
    if slot <= s.downstreamStartSlot as int || slot >= AckSlot(mac, s.downstreamStartSlot) as int then None
    else
      var relative := Wrap8(slot - s.downstreamStartSlot as int);
      if relative >= s.slotsAssigned then None else Some(relative)
  }

  /** The spreading code on which a member sends in the given slot. */
  function SendsOn(s: NodeState, slot: int): Option<Byte> {
    if slot == SendSlot(s) as int then Some(Link.HashCdmaCode(s.upstreamRelativeSlot)) else None
  }

  /** The spreading code on which a clusterhead listens in the given slot. */
  function ListensOn(mac: MacParams, s: NodeState, slot: int): Option<Byte>
    requires Slotted(mac)
  {
    match Listens(mac, s, slot)
    case None => None
    case Some(relative) => Some(Link.HashCdmaCode(relative))
  }

  /** What the accept handshake leaves behind: `relative` is a slot of the window of `p`. */
  predicate Assigned(mac: MacParams, p: NodeState, relative: Byte)
    requires Slotted(mac)
  {
    && p.downstreamStartSlot == StartSlot(mac, p.rings.ring)
    && 1 <= relative < p.slotsAssigned <= WindowSize(mac)
  }

  /** `s` is a member of `p` with that slot. */
  predicate MemberOf(mac: MacParams, s: NodeState, p: NodeState)
    requires Slotted(mac)
  {
    && Assigned(mac, p, s.upstreamRelativeSlot)
    && s.upstreamStartSlot == p.downstreamStartSlot
    && s.upstreamAckSlot == AckSlot(mac, s.upstreamStartSlot)
  }

  /** The same without saying where the window comes from. */
  predicate SeatedAt(mac: MacParams, p: NodeState, relative: Byte)
    requires Slotted(mac)
  {
    && 1 <= relative < p.slotsAssigned <= WindowSize(mac)
    && ADV_SLOTS <= p.downstreamStartSlot as nat
    && p.downstreamStartSlot as nat + WindowSize(mac) as nat <= mac.slotCount as nat
  }

  lemma AssignedIsSeated(mac: MacParams, p: NodeState, relative: Byte)
    requires Slotted(mac) && Assigned(mac, p, relative)
    ensures SeatedAt(mac, p, relative)
  {
    WindowInSuperframe(mac, p.rings.ring);
  }

  lemma SeatSlots(mac: MacParams, p: NodeState, relative: Byte, slot: int)
    requires Slotted(mac) && SeatedAt(mac, p, relative)
    ensures AckSlot(mac, p.downstreamStartSlot) as int == p.downstreamStartSlot as int + WindowSize(mac) as int - 1
    ensures Wrap8(p.downstreamStartSlot as int + relative as int) as int
         == p.downstreamStartSlot as int + relative as int
    ensures Listens(mac, p, slot) == Some(relative)
       <==> slot == p.downstreamStartSlot as int + relative as int && relative as int < WindowSize(mac) as int - 1
  {
  }

  /** All of a cluster's slots: the members send inside the window, and the clusterhead answers at its end. */
  lemma SlotsOfMember(mac: MacParams, s: NodeState, p: NodeState)
    requires Slotted(mac) && MemberOf(mac, s, p)
    ensures SendSlot(s) as int == p.downstreamStartSlot as int + s.upstreamRelativeSlot as int
    ensures s.upstreamAckSlot as int == p.downstreamStartSlot as int + WindowSize(mac) as int - 1
    ensures s.upstreamAckSlot == AckSlot(mac, p.downstreamStartSlot)
    ensures ADV_SLOTS <= p.downstreamStartSlot as nat < SendSlot(s) as nat <= s.upstreamAckSlot as nat
    ensures s.upstreamAckSlot < mac.slotCount
  {
    AssignedIsSeated(mac, p, s.upstreamRelativeSlot);
    SeatSlots(mac, p, s.upstreamRelativeSlot, 0);
  }

  /** The clusterhead listens to the member exactly in the slot in which the member sends, and to nobody else
      then; except that it never listens in the last slot of the window, in which it sends itself. */
  lemma RendezvousIff(mac: MacParams, s: NodeState, p: NodeState, slot: int)
    requires Slotted(mac) && MemberOf(mac, s, p)
    ensures Listens(mac, p, slot) == Some(s.upstreamRelativeSlot)
       <==> slot == SendSlot(s) as int && slot != s.upstreamAckSlot as int
    ensures SendSlot(s) == s.upstreamAckSlot <==> s.upstreamRelativeSlot as int == WindowSize(mac) as int - 1
  {
    SlotsOfMember(mac, s, p);
    AssignedIsSeated(mac, p, s.upstreamRelativeSlot);
    SeatSlots(mac, p, s.upstreamRelativeSlot, slot);
  }

  /** A window of two slots: its only member sends in the last one, and is never listened to. */
  lemma LastMemberIsUnheard(slot: int)
    ensures var mac := MacParams(1, 7, 7, 0, 3);
      var p := FreshNode(GATEWAY_ADDR, 0, 7).(slotsAssigned := 2, downstreamStartSlot := 5);
      var s := FreshNode(1, 0, 7).(upstreamStartSlot := 5, upstreamRelativeSlot := 1, upstreamAckSlot := 6);
      mac.Valid() && MemberOf(mac, s, p) && SendSlot(s) == 6 && Listens(mac, p, slot) == None
  {
    assert (7 - ADV_SLOTS) / 3 == 2;
  }

  /** A relay hears its members and answers them before it sends upstream itself, exactly when its own ring
      comes behind its clusterhead's ring within the reuse distance. */
  lemma RelayOrderIff(mac: MacParams, s: NodeState, relay: NodeState, head: NodeState)
    requires Slotted(mac) && MemberOf(mac, s, relay) && MemberOf(mac, relay, head)
    ensures SendSlot(s) <= s.upstreamAckSlot
    ensures s.upstreamAckSlot < SendSlot(relay)
       <==> head.rings.ring % mac.reuseDistance < relay.rings.ring % mac.reuseDistance
  {
    SlotsOfMember(mac, s, relay);
    SlotsOfMember(mac, relay, head);
    WindowsApartIff(mac, head.rings.ring, relay.rings.ring);
  }

  /** All clusterhead rings that an advertising phase can produce are in order if and only if the reuse
      distance is at least 3. */
  lemma ReuseDistanceIff(mac: MacParams)
    requires Slotted(mac)
    ensures (forall near: Ring, far: Ring | near < far <= 2 :: near % mac.reuseDistance < far % mac.reuseDistance)
       <==> mac.reuseDistance >= 3
  {
    var d := mac.reuseDistance;
    if d < 3 {
      var near: Ring, far: Ring := 1, 2;
      assert near % d >= far % d;
    } else {
      forall near: Ring, far: Ring | near < far <= 2 ensures near % d < far % d {
        SmallRemainder(near, d);
        SmallRemainder(far, d);
      }
    }
  }

  /** Reuse distance 2: the relay in ring 2 sends to its clusterhead in ring 1 before its own member sends to it. */
  lemma RelaySendsTooEarly()
    ensures var mac := MacParams(1, 7, 7, 0, 2);
      var head := FreshNode(1, 0, 7).(rings := RingState(1, NO_NEIGHBORS, 0), slotsAssigned := 2,
                                      downstreamStartSlot := 1);
      var relay := FreshNode(2, 0, 7).(rings := RingState(2, NO_NEIGHBORS, 0), slotsAssigned := 2,
                                       downstreamStartSlot := 4,
                                       upstreamStartSlot := 1, upstreamRelativeSlot := 1, upstreamAckSlot := 3);
      var s := FreshNode(3, 0, 7).(upstreamStartSlot := 4, upstreamRelativeSlot := 1, upstreamAckSlot := 6);
      mac.Valid() && MemberOf(mac, relay, head) && MemberOf(mac, s, relay) && SendSlot(relay) < SendSlot(s)
  {
    assert (7 - ADV_SLOTS) / 2 == 3 && 1 % 2 == 1 && 2 % 2 == 0;
  }

  lemma SmallRemainder(x: Byte, d: Byte)
    requires x < d
    ensures x % d == x
  {
    DivModUnique(0, x as nat, d as nat);
  }

  /** The spreading codes of a window's slots are all different if and only if it has at most seven. */
  lemma CodesDifferIff(w: nat)
    requires w <= 256
    ensures (forall a: Byte, b: Byte | a < b && b as nat < w :: Link.HashCdmaCode(a) != Link.HashCdmaCode(b))
       <==> w <= 7
  {
    if w > 7 {
      var a: Byte, b: Byte := 0, 7;
      assert Link.HashCdmaCode(a) == Link.HashCdmaCode(b);
    }
  }

  /** The code that belongs to a slot of the superframe. */
  function CodeOfSlot(mac: MacParams, slot: nat): Byte
    requires Slotted(mac) && WindowSize(mac) > 0 && slot >= ADV_SLOTS
  {
    Link.HashCdmaCode((slot - ADV_SLOTS) % WindowSize(mac) as nat)
  }

  lemma CodeBySlot(mac: MacParams, ring: Ring, start: Byte, relative: Byte, slot: nat)
    requires Slotted(mac) && relative < WindowSize(mac) && start == StartSlot(mac, ring)
    requires slot == start as nat + relative as nat
    ensures slot >= ADV_SLOTS && CodeOfSlot(mac, slot) == Link.HashCdmaCode(relative)
  {
    WindowInSuperframe(mac, ring);
    DivModUnique(Inverted(mac, ring), relative, WindowSize(mac));
  }

  lemma ListenerIsSeated(mac: MacParams, p: NodeState, slot: int)
    requires Slotted(mac) && p.slotsAssigned <= WindowSize(mac)
    requires ADV_SLOTS <= p.downstreamStartSlot as nat
    requires p.downstreamStartSlot as nat + WindowSize(mac) as nat <= mac.slotCount as nat
    ensures var relative := Listens(mac, p, slot);
      relative.Some? ==>
        relative.value < WindowSize(mac) && slot == p.downstreamStartSlot as int + relative.value as int
  {
  }

  lemma SenderCode(mac: MacParams, s: NodeState, p: NodeState, slot: nat)
    requires Slotted(mac) && MemberOf(mac, s, p) && SendsOn(s, slot).Some?
    ensures slot >= ADV_SLOTS && SendsOn(s, slot) == Some(CodeOfSlot(mac, slot))
  {
    SlotsOfMember(mac, s, p);
    CodeBySlot(mac, p.rings.ring, p.downstreamStartSlot, s.upstreamRelativeSlot, slot);
  }

  lemma ListenerCode(mac: MacParams, s: NodeState, p: NodeState, slot: nat)
    requires Slotted(mac) && MemberOf(mac, s, p) && ListensOn(mac, p, slot).Some?
    ensures slot >= ADV_SLOTS && ListensOn(mac, p, slot) == Some(CodeOfSlot(mac, slot))
  {
    AssignedIsSeated(mac, p, s.upstreamRelativeSlot);
    ListenerIsSeated(mac, p, slot);
    CodeBySlot(mac, p.rings.ring, p.downstreamStartSlot, Listens(mac, p, slot).value, slot);
  }

  /** A member sends and its clusterhead listens on the code of the slot, wherever the window lies. */
  lemma CodeIsOfSlot(mac: MacParams, s: NodeState, p: NodeState, slot: nat)
    requires Slotted(mac) && MemberOf(mac, s, p) && slot >= ADV_SLOTS
    ensures SendsOn(s, slot) in {None, Some(CodeOfSlot(mac, slot))}
    ensures ListensOn(mac, p, slot) in {None, Some(CodeOfSlot(mac, slot))}
  {
    if SendsOn(s, slot).Some? { SenderCode(mac, s, p, slot); }
    if ListensOn(mac, p, slot).Some? { ListenerCode(mac, s, p, slot); }
  }
}
