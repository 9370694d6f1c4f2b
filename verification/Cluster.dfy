/** A clusterhead's slot table: preparing it, accepting followers, and who volunteers (multihop.cpp). */
module Cluster {
  import opened Arith
  import opened Bytes
  import opened Messages
  import opened SlotClock
  import opened State

  const ADV_SLOTS := 1
  const CREDIT_SCALE := 32

  /** What `init` and the division by the reuse distance need. */
  predicate Slotted(mac: MacParams) { mac.slotCount >= 1 && mac.reuseDistance >= 1 }

  /** Slots in the window of one clusterhead. */
  function WindowSize(mac: MacParams): (w: Byte)
    requires Slotted(mac)
    ensures w < mac.slotCount
  {
    QuotientAtMost(mac.slotCount as nat - ADV_SLOTS, mac.reuseDistance);
    (mac.slotCount as nat - ADV_SLOTS) / mac.reuseDistance as nat
  }

  lemma QuotientAtMost(n: nat, d: nat)
    requires d > 0
    ensures (n / d) * d <= n && n / d <= n
  {
    QuotientIff(n, n / d, d);
    MulMono(1, d, n / d);
  }

  /** First slot of the window of a clusterhead at `ring`: deeper rings come first. */
  function StartSlot(mac: MacParams, ring: Ring): Byte
    requires Slotted(mac)
  {
    Wrap8(ADV_SLOTS + (mac.reuseDistance as int - 1 - ring as int % mac.reuseDistance as int) * WindowSize(mac) as int)
  }

  /** The last slot of the window that starts at `start`. */
  function AckSlot(mac: MacParams, start: Byte): Byte
    requires Slotted(mac)
  {
    Wrap8(start as int + WindowSize(mac) as int - 1)
  }

  // ---- The slot table ----------------------------------------------------------------------------

  /** The slot assignments, of which the first `used` are in use. */
  datatype Table = Table(slots: seq<Address>, used: nat)

  datatype Grant = Granted(relative: nat) | Refused

  /** A cleared table in which the clusterhead takes entry `own`. */
  function ClearTable(size: nat, own: nat, self: Address): Table
    requires own < size
  {
    Table(seq(size, _ => 0)[own := self], 1)
  }

  /** Index of `f` among the entries from `from` to `n`, `n` when it is not there. */
  function FindFrom(slots: seq<Address>, from: nat, n: nat, f: Address): (i: nat)
    requires from <= n <= |slots|
    ensures from <= i <= n
    ensures i < n ==> slots[i] == f
    ensures forall j | from <= j < i :: slots[j] != f
    decreases n - from
  {
    if from == n || slots[from] == f then from else FindFrom(slots, from + 1, n, f)
  }

  predicate FitsTable(t: Table, w: nat) { 1 <= t.used <= |t.slots| && w <= |t.slots| }

  /** The answer to a follower's request when the window has `w` slots. */
  function GrantOf(t: Table, w: nat, f: Address): Grant
    requires FitsTable(t, w)
  {
    var i := FindFrom(t.slots, 0, t.used, f);
    if i < t.used then Granted(i) else if t.used >= w then Refused else Granted(t.used)
  }

  /** The table after a follower's request. */
  function Request(t: Table, w: nat, f: Address): (t': Table)
    requires FitsTable(t, w)
    ensures FitsTable(t', w) && |t'.slots| == |t.slots|
  {
    if FindFrom(t.slots, 0, t.used, f) < t.used || t.used >= w then t
    else Table(t.slots[t.used := f], t.used + 1)
  }

  /** Whoever is granted a slot is listed there, and nobody who was listed is lost. */
  lemma GrantIsListed(t: Table, w: nat, f: Address)
    requires FitsTable(t, w)
    ensures var t', g := Request(t, w, f), GrantOf(t, w, f);
      && (g.Granted? ==> g.relative < t'.used && t'.slots[g.relative] == f)
      && t.used <= t'.used && (forall i | 0 <= i < t.used :: t'.slots[i] == t.slots[i])
      && (t'.used <= w || t' == t)
  {
  }

  function Requests(t: Table, w: nat, fs: seq<Address>): (t': Table)
    requires FitsTable(t, w)
    ensures FitsTable(t', w) && |t'.slots| == |t.slots|
  {
    if fs == [] then t else Request(Requests(t, w, fs[..|fs| - 1]), w, fs[|fs| - 1])
  }

  /** The followers in the order in which they first asked. */
  function FirstAppearances(fs: seq<Address>): seq<Address> {
    if fs == [] then []
    else
      var firsts, f := FirstAppearances(fs[..|fs| - 1]), fs[|fs| - 1];
      if f in firsts then firsts else firsts + [f]
  }

  predicate Distinct(d: seq<Address>) { forall i, j | 0 <= i < j < |d| :: d[i] != d[j] }

  lemma {:induction false} FirstAppearancesDistinct(fs: seq<Address>)
    ensures Distinct(FirstAppearances(fs))
    ensures forall f :: f in FirstAppearances(fs) <==> f in fs
  {
    if fs != [] {
      var init := fs[..|fs| - 1];
      FirstAppearancesDistinct(init);
      assert fs == init + [fs[|fs| - 1]];
    }
  }

  /** Followers that have a slot when `n` different ones have asked. */
  function Seated(w: nat, n: nat): nat { if w == 0 then 0 else Min(n, w - 1) }

  /** Position of `f` in `d`, or behind its end. */
  function RankIn(d: seq<Address>, f: Address): (r: nat)
    ensures r <= |d| && (r < |d| ==> d[r] == f) && (r == |d| <==> f !in d)
    ensures forall j | 0 <= j < r :: d[j] != f
  {
    if d == [] || d[0] == f then 0 else 1 + RankIn(d[1..], f)
  }

  function SlotByRank(w: nat, d: seq<Address>, f: Address): Grant {
    var rank := RankIn(d, f);
    if 1 + rank < w then Granted(1 + rank) else Refused
  }

  /** Entry 0 is taken and the entries from 1 on list those of `d` that have a seat. */
  ghost predicate Seats(t: Table, w: nat, d: seq<Address>) {
    && FitsTable(t, w) && t.used == 1 + Seated(w, |d|)
    && forall j | 1 <= j < t.used :: t.slots[j] == d[j - 1]
  }

  lemma FindByRank(t: Table, w: nat, d: seq<Address>, f: Address)
    requires Seats(t, w, d) && f != t.slots[0]
    ensures FindFrom(t.slots, 0, t.used, f) == if 1 + RankIn(d, f) < t.used then 1 + RankIn(d, f) else t.used
  {
    var i, rank := FindFrom(t.slots, 0, t.used, f), RankIn(d, f);
    if i < t.used { assert t.slots[i] == d[i - 1]; }
    if 1 + rank < t.used { assert t.slots[1 + rank] == d[rank]; }
  }

  lemma RequestByRank(t: Table, w: nat, d: seq<Address>, f: Address)
    requires Seats(t, w, d) && f != t.slots[0]
    ensures GrantOf(t, w, f) == SlotByRank(w, d, f)
    ensures Seats(Request(t, w, f), w, if f in d then d else d + [f])
    ensures Request(t, w, f).slots[0] == t.slots[0]
    ensures f in d || GrantOf(t, w, f) == Refused ==> Request(t, w, f) == t
  {
    FindByRank(t, w, d, f);
  }

  lemma {:induction false} RequestsSeats(t: Table, w: nat, fs: seq<Address>)
    requires FitsTable(t, w) && t.used == 1 && t.slots[0] !in fs
    ensures Seats(Requests(t, w, fs), w, FirstAppearances(fs)) && Requests(t, w, fs).slots[0] == t.slots[0]
  {
    if fs != [] {
      var init := fs[..|fs| - 1];
      RequestsSeats(t, w, init);
      RequestByRank(Requests(t, w, init), w, FirstAppearances(init), fs[|fs| - 1]);
    }
  }

  /** On a cleared table, after any requests, follower `f` gets slot 1 + its rank by first appearance if the
      window has that slot, and is refused otherwise; a repeated request and a refusal change nothing. */
  lemma AllocatorRefinement(size: nat, own: nat, self: Address, w: nat, fs: seq<Address>, f: Address)
    requires own < size && w <= size && 0 !in fs + [f] && self !in fs + [f]
    ensures var before := Requests(ClearTable(size, own, self), w, fs);
      && GrantOf(before, w, f) == SlotByRank(w, FirstAppearances(fs), f)
      && (f in fs || GrantOf(before, w, f) == Refused ==> Request(before, w, f) == before)
  {
    RequestsSeats(ClearTable(size, own, self), w, fs);
    FirstAppearancesDistinct(fs);
    RequestByRank(Requests(ClearTable(size, own, self), w, fs), w, FirstAppearances(fs), f);
  }

  /** A follower that asks again later is told the same slot. */
  lemma SameAnswerLater(size: nat, own: nat, self: Address, w: nat, fs: seq<Address>, f: Address, more: seq<Address>)
    requires own < size && w <= size && 0 !in fs + [f] + more && self !in fs + [f] + more
    ensures GrantOf(Requests(ClearTable(size, own, self), w, fs), w, f)
         == GrantOf(Requests(ClearTable(size, own, self), w, fs + [f] + more), w, f)
  {
    AllocatorRefinement(size, own, self, w, fs, f);
    AllocatorRefinement(size, own, self, w, fs + [f] + more, f);
    RankIsStable(fs, f, more);
  }

  lemma {:induction false} RankIsStable(fs: seq<Address>, f: Address, more: seq<Address>)
    ensures RankIn(FirstAppearances(fs + [f] + more), f) == RankIn(FirstAppearances(fs), f)
    ensures f in FirstAppearances(fs + [f] + more)
  {
    if more == [] {
      FirstsSnoc(fs, f);
      assert fs + [f] + more == fs + [f];
      RankSnoc(FirstAppearances(fs), f, f);
    } else {
      var m := |more| - 1;
      RankIsStable(fs, f, more[..m]);
      assert fs + [f] + more == (fs + [f] + more[..m]) + [more[m]];
      FirstsSnoc(fs + [f] + more[..m], more[m]);
      RankSnoc(FirstAppearances(fs + [f] + more[..m]), more[m], f);
    }
  }

  lemma FirstsSnoc(fs: seq<Address>, f: Address)
    ensures FirstAppearances(fs + [f]) == if f in FirstAppearances(fs) then FirstAppearances(fs)
      else FirstAppearances(fs) + [f]
  {
    assert (fs + [f])[..|fs + [f]| - 1] == fs;
  }

  lemma {:induction false} RankSnoc(d: seq<Address>, x: Address, f: Address)
    ensures x == f || f in d ==> RankIn(d + [x], f) == RankIn(d, f)
  {
    if d != [] && d[0] != f {
      RankSnoc(d[1..], x, f);
      assert (d + [x])[1..] == d[1..] + [x];
    }
  }

  /** The clusterhead's own entry survives all requests if and only if it lies behind the entries that they use. */
  lemma OwnEntryKeptIff(size: nat, own: nat, self: Address, w: nat, fs: seq<Address>)
    requires 0 < own < size && w <= size && 0 !in fs && self !in fs
    ensures Requests(ClearTable(size, own, self), w, fs).slots[own] == self <==>
      own >= 1 + Seated(w, |FirstAppearances(fs)|)
  {
    var t := ClearTable(size, own, self);
    RequestsSeats(t, w, fs);
    FirstAppearancesDistinct(fs);
    UnassignedUntouched(t, w, fs);
    var after, d := Requests(t, w, fs), FirstAppearances(fs);
    if own < after.used {
      assert after.slots[own] == d[own - 1];
      assert d[own - 1] in fs;
    }
  }

  /** ... which it always does when it is the last of at most 256 entries, of which a window is a proper part. */
  lemma LastEntryIsKept(size: nat, self: Address, w: nat, fs: seq<Address>)
    requires 1 < size <= 256 && w < size && 0 !in fs && self !in fs
    ensures Requests(ClearTable(size, size - 1, self), w, fs).slots[size - 1] == self
  {
    RequestsSeats(ClearTable(size, size - 1, self), w, fs);
    OwnEntryKeptIff(size, size - 1, self, w, fs);
  }

  lemma {:induction false} UnassignedUntouched(t: Table, w: nat, fs: seq<Address>)
    requires FitsTable(t, w)
    ensures var t' := Requests(t, w, fs);
      t.used <= t'.used && forall i | t'.used <= i < |t.slots| :: t'.slots[i] == t.slots[i]
  {
    if fs != [] { UnassignedUntouched(t, w, fs[..|fs| - 1]); }
  }

  /** A request from address 0 finds the zeroed entry 0 and is granted the clusterhead's own slot 0. */
  lemma AddressZeroGetsSlotZero(size: nat, own: nat, self: Address, w: nat)
    requires 0 < own < size && w <= size
    ensures GrantOf(ClearTable(size, own, self), w, 0) == Granted(0)
  {
  }

  // ---- The table within a node's state -------------------------------------------------------------

  /** The arrays fit the slots of a superframe, as `init` checks. */
  predicate Roomy(mac: MacParams, s: NodeState) {
    Slotted(mac) && |s.slotAssignments| == |s.acks| && mac.slotCount as nat <= |s.slotAssignments|
  }

  function TableOf(s: NodeState): Table { Table(s.slotAssignments, s.slotsAssigned) }

  predicate CanAccept(mac: MacParams, s: NodeState) {
    Roomy(mac, s) && 1 <= s.slotsAssigned as nat <= |s.slotAssignments|
  }

  function Prepared(mac: MacParams, s: NodeState): (s': NodeState)
    requires Roomy(mac, s)
    ensures CanAccept(mac, s')
  {
    var size := |s.slotAssignments|;
    s.(acks := seq(size, _ => 0),
       slotAssignments := ClearTable(size, Wrap8(size - 1), s.address).slots,
       slotsAssigned := 1,
       downstreamStartSlot := StartSlot(mac, s.rings.ring))
  }

  function Accepted(mac: MacParams, s: NodeState, f: Address): (s': NodeState)
    requires CanAccept(mac, s)
    ensures CanAccept(mac, s')
  {
    var t := Request(TableOf(s), WindowSize(mac), f);
    s.(slotAssignments := t.slots, slotsAssigned := Wrap8(t.used))
  }

  /** The body of the answer to a follower's request. */
  function AcceptBody(mac: MacParams, s: NodeState, f: Address, now: U32): Body
    requires CanAccept(mac, s)
  {
    match GrantOf(TableOf(s), WindowSize(mac), f)
    case Granted(relative) => Accept(true, f, s.downstreamStartSlot, Wrap8(relative), now)
    case Refused => Accept(false, f, 0, 0, now)
  }

  // ---- Volunteering --------------------------------------------------------------------------------

  function BaseP(ring: Ring): Byte {
    if ring == UNKNOWN_RING then 16
    else if ring == GATEWAY_RING then 255
    else if ring >= 4 then 64
    else 255 - (ring - 1) * 60
  }

  function EffectiveP(ring: Ring, credit: Byte): Byte {
    var p := BaseP(ring) as int + credit as int * CREDIT_SCALE;
    if p > 255 then 255 else p
  }

  /** `announce_clusterhead`, given the random byte it draws. */
  predicate Volunteers(s: NodeState, draw: Byte) {
    s.clusterheadP != 0 && EffectiveP(s.rings.ring, s.chCredit) >= draw
  }

  // ---- The object ------------------------------------------------------------------------------------

  method AnnounceClusterhead(st: MultihopState, draw: Byte) returns (volunteers: bool)
    requires st.Valid()
    ensures volunteers <==> Volunteers(st.View(), draw)
  {
    if st.clusterheadP == 0 { return false; }
    var effective: U16 := BaseP(st.ring);
    effective := effective + st.chCredit as U16 * CREDIT_SCALE;
    if effective > 255 { effective := 255; }
    volunteers := effective as int >= draw as int;
  }

  method PrepareClusterhead(mac: MacParams, st: MultihopState)
    requires st.Valid() && Roomy(mac, st.View())
    modifies st`slotsAssigned, st`downstreamStartSlot, st.acks, st.slotAssignments
    ensures st.View() == Prepared(mac, old(st.View()))
  {
    var size := st.slotAssignments.Length;
    var end := Wrap8(size - 1);
    ClearAcks(st.acks);
    TakeOnly(st.slotAssignments, end, st.address);
    st.slotsAssigned := 1;
    st.downstreamStartSlot := StartSlot(mac, st.ring);
  }

  /** The state that `init` of the multihop layer sets up; the gateway gets its slot table at once. */
  function Initialized(mac: MacParams, address: Address, clusterheadP: Byte, slotCount: nat): (s: NodeState)
    requires Slotted(mac) && mac.slotCount as nat <= slotCount
    ensures CanAccept(mac, s)
  {
    var s := FreshNode(address, clusterheadP, slotCount);
    if address == GATEWAY_ADDR then Prepared(mac, s) else s
  }

  datatype InitRC = SetUp | AcksArrayLen | LinkRefused

  /** `init`: it refuses arrays that are shorter than a superframe, and what the link layer refuses. */
  method Init(mac: MacParams, address: Address, clusterheadP: Byte, slotCount: nat)
    returns (rc: InitRC, st: MultihopState?)
    requires mac.reuseDistance >= 1
    ensures rc == AcksArrayLen <==> mac.slotCount as nat > slotCount
    ensures rc == LinkRefused <==> mac.slotCount as nat <= slotCount && (mac.slotCount < 1 || mac.slotSeconds < 1)
    ensures rc == SetUp <==> st != null
    ensures rc == SetUp ==> st.Valid() && fresh(st) && st.View() == Initialized(mac, address, clusterheadP, slotCount)
  {
    if mac.slotCount as nat > slotCount { return AcksArrayLen, null; }
    if mac.slotCount < 1 || mac.slotSeconds < 1 { return LinkRefused, null; }
    st := new MultihopState(address, clusterheadP, slotCount);
    if address == GATEWAY_ADDR { PrepareClusterhead(mac, st); }
    rc := SetUp;
  }

  /** `memset` of the ack array. */
  method ClearAcks(acks: array<U32>)
    modifies acks
    ensures acks[..] == seq(acks.Length, _ => 0)
  {
    forall i | 0 <= i < acks.Length { acks[i] := 0; }
    assert acks[..] == seq(acks.Length, _ => 0);
  }

  method TakeOnly(slots: array<Address>, own: nat, self: Address)
    requires own < slots.Length
    modifies slots
    ensures slots[..] == ClearTable(slots.Length, own, self).slots
  {
    forall i | 0 <= i < slots.Length { slots[i] := 0; }
    slots[own] := self;
    assert slots[..] == ClearTable(slots.Length, own, self).slots;
  }

  /** The duplicate guard of `accept`: where `follower` already has a slot, `used` if it has none. */
  method FindFollower(slots: array<Address>, used: nat, follower: Address) returns (i: nat)
    requires used <= slots.Length
    ensures i == FindFrom(slots[..], 0, used, follower)
  {
    i := 0;
    while i < used
      invariant 0 <= i <= used
      invariant FindFrom(slots[..], 0, used, follower) == FindFrom(slots[..], i, used, follower)
    {
      if slots[i] == follower { return; }
      i := i + 1;
    }
  }

  lemma AcceptedByTable(mac: MacParams, s: NodeState, f: Address, now: U32)
    requires CanAccept(mac, s)
    ensures var used, i := s.slotsAssigned as nat, FindFrom(s.slotAssignments, 0, s.slotsAssigned as nat, f);
      && (i < used ==>
            && Accepted(mac, s, f) == s
            && AcceptBody(mac, s, f, now) == Accept(true, f, s.downstreamStartSlot, Wrap8(i), now))
      && (i == used && used >= WindowSize(mac) as nat ==>
            Accepted(mac, s, f) == s && AcceptBody(mac, s, f, now) == Accept(false, f, 0, 0, now))
      && (i == used && used < WindowSize(mac) as nat ==>
            && Accepted(mac, s, f)
                 == s.(slotAssignments := s.slotAssignments[used := f], slotsAssigned := Wrap8(used + 1))
            && AcceptBody(mac, s, f, now) == Accept(true, f, s.downstreamStartSlot, Wrap8(used), now))
  {
  }

  /** `accept`: the body of the Accept message it sends. */
  method AcceptFollower(mac: MacParams, st: MultihopState, follower: Address, now: U32) returns (body: Body)
    requires st.Valid() && CanAccept(mac, st.View())
    modifies st`slotsAssigned, st.slotAssignments
    ensures st.View() == Accepted(mac, old(st.View()), follower)
    ensures body == AcceptBody(mac, old(st.View()), follower, now)
  {
    AcceptedByTable(mac, st.View(), follower, now);
    var window := WindowSize(mac);
    var i := FindFollower(st.slotAssignments, st.slotsAssigned as nat, follower);
    if i < st.slotsAssigned as nat { return Accept(true, follower, st.downstreamStartSlot, Wrap8(i), now); }
    if st.slotsAssigned >= window { return Accept(false, follower, 0, 0, now); }
    st.slotAssignments[st.slotsAssigned] := follower;
    var relative := st.slotsAssigned;
    st.slotsAssigned := Wrap8(st.slotsAssigned as int + 1);
    body := Accept(true, follower, st.downstreamStartSlot, relative, now);
  }
}
