/** The state of one node, and the methods of `MultihopState` that update it in place (multihop_state.cpp). */
module State {
  import opened Bytes
  import opened Messages
  import opened Rings

  datatype Role = Gateway | Clusterhead | Follower | NotInit

  /** Everything a `MultihopState` object holds. */
  datatype NodeState = NodeState(
    address: Address, role: Role,
    rings: RingState, slotAssignments: seq<Address>,
    acks: seq<U32>,
    slotsAssigned: Byte, clusterheadP: Byte,
    chCredit: Byte, clusterheadRing: Ring,
    clusterheadAddr: Address, upstreamStartSlot: Byte,
    upstreamRelativeSlot: Byte, upstreamAckSlot: Byte,
    downstreamStartSlot: Byte)
  {
    predicate ActsAsClusterhead() { role == Gateway || role == Clusterhead }

    predicate ActsAsFollower() { role == Follower || role == Clusterhead }
  }

  /** The state of a node that was just set up. */
  function FreshNode(address: Address, clusterheadP: Byte, slotCount: nat): NodeState {
    NodeState(address, if address == GATEWAY_ADDR then Gateway else Follower,
              RingState(if address == GATEWAY_ADDR then GATEWAY_RING else UNKNOWN_RING, NO_NEIGHBORS, 0),
              seq(slotCount, _ => 0), seq(slotCount, _ => 0), 1, clusterheadP, 0,
              UNKNOWN_RING, UNKNOWN_ADDR, 0, 0, 0, 0)
  }

  class MultihopState {
    var address: Address
    var role: Role
    var ring: Ring
    var ringStart: Ring
    const counts: array<Byte>
    var roundsWithoutLower: Byte
    const slotAssignments: array<Address>
    const acks: array<U32>
    var slotsAssigned: Byte
    var clusterheadP: Byte
    var chCredit: Byte
    var clusterheadRing: Ring
    var clusterheadAddr: Address
    var upstreamStartSlot: Byte
    var upstreamRelativeSlot: Byte
    var upstreamAckSlot: Byte
    var downstreamStartSlot: Byte

    ghost predicate Valid() {
      && counts.Length == CELLS && slotAssignments.Length == acks.Length
      && counts != slotAssignments && counts as object != acks && slotAssignments as object != acks
    }

    ghost function Neighbors(): RingList
      reads this, counts
      requires Valid()
    {
      RingList(ringStart, counts[..])
    }

    ghost function View(): NodeState
      reads this, counts, slotAssignments, acks
      requires Valid()
    {
      NodeState(address, role, RingState(ring, Neighbors(), roundsWithoutLower),
                slotAssignments[..], acks[..], slotsAssigned, clusterheadP, chCredit,
                clusterheadRing, clusterheadAddr, upstreamStartSlot, upstreamRelativeSlot, upstreamAckSlot,
                downstreamStartSlot)
    }

    /** A fresh node: the constructor, `with_address`, `with_acks_array` and the probability, as `init` calls them. */
    constructor (address: Address, clusterheadP: Byte, slotCount: nat)
      ensures Valid() && fresh(counts) && fresh(slotAssignments) && fresh(acks)
      ensures slotAssignments.Length == slotCount
      ensures View() == FreshNode(address, clusterheadP, slotCount)
    {
      this.address := address;
      role := if address == GATEWAY_ADDR then Gateway else Follower;
      ring := if address == GATEWAY_ADDR then GATEWAY_RING else UNKNOWN_RING;
      ringStart, roundsWithoutLower := 0, 0;
      counts := new Byte[CELLS](_ => 0);
      slotAssignments := new Address[slotCount](_ => 0);
      acks := new U32[slotCount](_ => 0);
      slotsAssigned, this.clusterheadP, chCredit := 1, clusterheadP, 0;
      clusterheadRing, clusterheadAddr := UNKNOWN_RING, UNKNOWN_ADDR;
      upstreamStartSlot, upstreamRelativeSlot, upstreamAckSlot, downstreamStartSlot := 0, 0, 0, 0;
      new;
      assert counts[..] == NO_COUNTS;
      assert slotAssignments[..] == seq(slotCount, _ => 0);
      assert acks[..] == seq(slotCount, _ => 0);
    }

    method ResetNeighbors()
      requires Valid()
      modifies this`ringStart, counts
      ensures View() == old(View()).(rings := old(View()).rings.(neighbors := NO_NEIGHBORS))
    {
      ringStart := 0;
      forall i | 0 <= i < counts.Length { counts[i] := 0; }
      assert counts[..] == NO_COUNTS;
    }

    /** Moves the cells up by `offset` in place, highest first, and clears the cells below. */
    method ShiftCells(offset: nat)
      requires Valid() && 0 < offset < CELLS
      modifies counts
      ensures counts[..] == ShiftUp(old(counts[..]), offset)
    {
      var i := counts.Length - 1;
      while i >= offset
        invariant offset - 1 <= i < CELLS
        invariant forall j | 0 <= j <= i :: counts[j] == old(counts[j])
        invariant forall j | i < j < CELLS :: counts[j] == old(counts[j - offset])
      {
        counts[i] := counts[i - offset];
        i := i - 1;
      }
      i := 0;
      while i < offset
        invariant 0 <= i <= offset
        invariant forall j | 0 <= j < i :: counts[j] == 0
        invariant forall j | offset <= j < CELLS :: counts[j] == old(counts[j - offset])
      {
        counts[i] := 0;
        i := i + 1;
      }
    }

    method AddNeighbor(neighbor: Ring)
      requires Valid()
      modifies this`ringStart, counts
      ensures Neighbors() == Rings.AddNeighbor(old(Neighbors()), neighbor)
    {
      if neighbor == UNKNOWN_RING { return; }
      if counts[0] == 0 { ringStart := neighbor; }
      var endRing := ringStart as int + counts.Length;
      if counts[0] != 0 && neighbor as int >= endRing {
        return;
      } else if neighbor < ringStart {
        var offset := ringStart - neighbor;
        if offset >= CELLS {
          forall i | 0 <= i < counts.Length { counts[i] := 0; }
          assert counts[..] == NO_COUNTS;
        } else {
          ShiftCells(offset);
        }
        ringStart := neighbor;
      }
      var index := neighbor - ringStart;
      counts[index] := Wrap8(counts[index] as int + 1);
    }

    method UpdateRingFromNeighbors()
      requires Valid()
      modifies this`ring, this`roundsWithoutLower
      ensures View() == old(View()).(rings := UpdateRing(address, old(View()).rings))
    {
      if address == GATEWAY_ADDR {
        ring := GATEWAY_RING;
        return;
      }
      var lowest := UNKNOWN_RING;
      var i := 0;
      while i < counts.Length
        invariant 0 <= i <= CELLS && lowest == UNKNOWN_RING
        invariant FirstCell(counts[..], 0) == FirstCell(counts[..], i)
      {
        if counts[i] > 0 {
          lowest := Wrap8(ringStart as int + i);
          break;
        }
        i := i + 1;
      }
      assert lowest == LowestHeard(Neighbors());
      if lowest < ring {
        ring, roundsWithoutLower := Wrap8(lowest as int + 1), 0;
      } else if lowest >= ring && lowest != UNKNOWN_RING {
        roundsWithoutLower := Wrap8(roundsWithoutLower as int + 1);
        if roundsWithoutLower >= HYSTERESIS_THRESHOLD {
          ring, roundsWithoutLower := Wrap8(lowest as int + 1), 0;
        }
      } else {
        roundsWithoutLower := Wrap8(roundsWithoutLower as int + 1);
        if roundsWithoutLower >= HYSTERESIS_THRESHOLD {
          ring, roundsWithoutLower := UNKNOWN_RING, 0;
        }
      }
    }
  }
}
