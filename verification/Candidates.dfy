/** The two best clusterhead announcements heard in a round (multihop.cpp, multihop_messages.cpp). */
module Candidates {
  import opened Bytes
  import opened Messages

  const MAX_SCORE: U32 := 0xFFFF_FFFF

  // ---- Scores ------------------------------------------------------------------------------------

  /** Contribution of the first `n` cells. */
  function ScoreOf(r: RingList, n: nat): (sum: nat)
    requires n <= CELLS
    ensures sum <= n * 255 * 255
  {
    if n == 0 then 0
    else ScoreOf(r, n - 1) + CellScore(r, n - 1)
  }

  /** What one neighbour in cell `i` counts; the multiplier is 8 bits wide. */
  function Weight(r: RingList, i: nat): Byte
    requires i < CELLS
  {
    Wrap8(r.ringStart as int + CELLS - i)
  }

  function CellScore(r: RingList, i: nat): (c: nat)
    requires i < CELLS
    ensures c <= 255 * 255
  {
    ProductBound(Weight(r, i), r.counts[i]);
    Weight(r, i) as nat * r.counts[i] as nat
  }

  lemma ProductBound(a: Byte, b: Byte)
    ensures 0 <= a as int * b as int <= 255 * 255
  {
  }

  function Score(r: RingList, nodeRing: Ring): (score: U32)
    ensures score == MAX_SCORE <==> nodeRing == GATEWAY_RING
  {
    if nodeRing == GATEWAY_RING then MAX_SCORE else ScoreOf(r, CELLS)
  }

  /** One more neighbour in cell `i` is worth 8 + `ringStart` - `i`, as an 8-bit value; that and the score of an empty
      histogram, which is 0, are all there is to the scores outside ring 0. */
  lemma OneMoreNeighbor(r: RingList, i: nat, nodeRing: Ring)
    requires i < CELLS && r.counts[i] < 255 && nodeRing != GATEWAY_RING
    ensures Score(r.(counts := r.counts[i := r.counts[i] + 1]), nodeRing) as int
         == Score(r, nodeRing) as int + (8 + r.ringStart as int - i) % 256
  {
    SumOfOneMore(r, i, CELLS);
  }

  lemma {:induction false} SumOfOneMore(r: RingList, i: nat, n: nat)
    requires i < CELLS && n <= CELLS && r.counts[i] < 255
    ensures ScoreOf(r.(counts := r.counts[i := r.counts[i] + 1]), n) as int
         == ScoreOf(r, n) + if i < n then Weight(r, i) as int else 0
  {
    if n > 0 {
      var more := r.(counts := r.counts[i := r.counts[i] + 1]);
      SumOfOneMore(r, i, n - 1);
      if i == n - 1 { ProductOfOneMore(Weight(r, i), r.counts[i]); }
    }
  }

  lemma ProductOfOneMore(a: Byte, b: Byte)
    ensures a as int * (b as int + 1) == a as int * b as int + a as int
  {
  }

  /** A sender outside ring 0 scores nothing if and only if every ring it heard has weight 0 or it heard none. */
  lemma ScoreIsZeroIff(r: RingList, nodeRing: Ring)
    ensures Score(r, nodeRing) == 0
       <==> nodeRing != GATEWAY_RING && forall i | 0 <= i < CELLS :: r.counts[i] == 0 || Weight(r, i) == 0
  {
    if nodeRing != GATEWAY_RING { SumIsZeroIff(r, CELLS); }
  }

  lemma {:induction false} SumIsZeroIff(r: RingList, n: nat)
    requires n <= CELLS
    ensures ScoreOf(r, n) == 0 <==> forall i | 0 <= i < n :: r.counts[i] == 0 || Weight(r, i) == 0
  {
    if n > 0 {
      SumIsZeroIff(r, n - 1);
      ProductIsZeroIff(Weight(r, n - 1), r.counts[n - 1]);
    }
  }

  lemma ProductIsZeroIff(a: Byte, b: Byte)
    ensures a as int * b as int == 0 <==> a == 0 || b == 0
  {
  }

  lemma ScoreStep(r: RingList, i: nat, max: Byte)
    requires i < CELLS && max == Wrap8(r.ringStart as int + CELLS)
    ensures ScoreOf(r, i + 1) == ScoreOf(r, i) + Wrap8(max as int - i) as nat * r.counts[i] as nat
  {
    assert Wrap8(max as int - i) == Wrap8(r.ringStart as int + CELLS - i);
  }

  method ComputeScore(r: RingList, nodeRing: Ring) returns (score: U32)
    ensures score == Score(r, nodeRing)
  {
    if nodeRing == GATEWAY_RING { return MAX_SCORE; }
    score := 0;
    var max := Wrap8(r.ringStart as int + CELLS);
    var i := 0;
    while i < CELLS
      invariant 0 <= i <= CELLS && score as int == ScoreOf(r, i)
    {
      var multiplier := Wrap8(max as int - i);
      var cell := multiplier as nat * r.counts[i] as nat;
      ScoreStep(r, i, max);
      score := Wrap32(score as int + cell);
      i := i + 1;
    }
  }

  // ---- The two best ------------------------------------------------------------------------------

  datatype Candidate = Candidate(address: Address, ring: Ring, score: U32)

  datatype TopTwo = TopTwo(first: Candidate, second: Candidate)

  const NOBODY := Candidate(UNKNOWN_ADDR, UNKNOWN_RING, 0)
  const NO_CANDIDATES := TopTwo(NOBODY, NOBODY)

  function Update(t: TopTwo, c: Candidate): TopTwo {
    if c.score > t.first.score then TopTwo(c, t.first)
    else if c.score > t.second.score then TopTwo(t.first, c)
    else t
  }

  function UpdateAll(cs: seq<Candidate>): TopTwo {
    if cs == [] then NO_CANDIDATES else Update(UpdateAll(cs[..|cs| - 1]), cs[|cs| - 1])
  }

  /** Among the announcements other than number `skip`, number `i` scores more than all earlier ones,
      at least as much as all later ones, and more than nothing. */
  ghost predicate IsBest(cs: seq<Candidate>, skip: int, i: int) {
    && 0 <= i < |cs| && i != skip && cs[i].score > 0
    && forall j | 0 <= j < |cs| && j != skip && j != i ::
         if j < i then cs[j].score < cs[i].score else cs[j].score <= cs[i].score
  }

  ghost predicate NoneScores(cs: seq<Candidate>, skip: int) {
    forall j | 0 <= j < |cs| && j != skip :: cs[j].score == 0
  }

  /** `c` is the best of `cs` without number `skip`, the `i`-th; `i` is -1 when none of them scores. */
  ghost predicate IsHeld(cs: seq<Candidate>, skip: int, i: int, c: Candidate) {
    if i < 0 then NoneScores(cs, skip) && c == NOBODY else IsBest(cs, skip, i) && c == cs[i]
  }

  /** The kept candidates are the first two of the stable descending order by score of the announcements
      that score at all. */
  lemma {:induction false} KeepsTopTwo(cs: seq<Candidate>) returns (i: int, k: int)
    ensures IsHeld(cs, -1, i, UpdateAll(cs).first)
    ensures IsHeld(cs, i, k, UpdateAll(cs).second)
    ensures i < 0 ==> k < 0
  {
    if cs == [] {
      i, k := -1, -1;
    } else {
      var n := |cs| - 1;
      var init := cs[..n];
      i, k := KeepsTopTwo(init);
      var t := UpdateAll(init);
      assert forall j | 0 <= j < n :: cs[j] == init[j];
      if cs[n].score > t.first.score {
        k := i;
        i := n;
      } else if cs[n].score > t.second.score {
        k := n;
      }
    }
  }

  /** When a ring-0 clusterhead was heard, the best candidate has ring 0. */
  lemma GatewayRingWins(cs: seq<Candidate>, g: nat)
    requires forall j | 0 <= j < |cs| :: cs[j].score == MAX_SCORE <==> cs[j].ring == GATEWAY_RING
    requires g < |cs| && cs[g].ring == GATEWAY_RING
    ensures UpdateAll(cs).first.ring == GATEWAY_RING
  {
    var i, k := KeepsTopTwo(cs);
  }

  /** A clusterhead outside ring 0 that has heard nobody is never a candidate: its announcement changes nothing. */
  lemma UnheardIsNoCandidate(t: TopTwo, address: Address, ring: Ring, r: RingList)
    requires ring != GATEWAY_RING && forall i | 0 <= i < CELLS :: r.counts[i] == 0
    ensures Update(t, Candidate(address, ring, Score(r, ring))) == t
  {
    ScoreIsZeroIff(r, ring);
  }

  // ---- The object --------------------------------------------------------------------------------

  class ClusterheadCandidates {
    const addresses: array<Address>
    const rings: array<Ring>
    const scores: array<U32>

    ghost predicate Valid() {
      && addresses.Length == rings.Length == scores.Length == 2
      && addresses != rings && addresses as object != scores && rings as object != scores
    }

    ghost function View(): TopTwo
      requires Valid()
      reads addresses, rings, scores
    {
      TopTwo(Candidate(addresses[0], rings[0], scores[0]), Candidate(addresses[1], rings[1], scores[1]))
    }

    constructor ()
      ensures Valid() && fresh(addresses) && fresh(rings) && fresh(scores)
    {
      addresses := new Address[2](_ => UNKNOWN_ADDR);
      rings := new Ring[2](_ => UNKNOWN_RING);
      scores := new U32[2](_ => 0);
    }

    method Reset()
      requires Valid()
      modifies addresses, rings, scores
      ensures View() == NO_CANDIDATES
    {
      var i := 0;
      while i < 2
        invariant 0 <= i <= 2
        invariant forall j | 0 <= j < i :: addresses[j] == UNKNOWN_ADDR && rings[j] == UNKNOWN_RING && scores[j] == 0
      {
        addresses[i], rings[i], scores[i] := UNKNOWN_ADDR, UNKNOWN_RING, 0;
        i := i + 1;
      }
    }

    method Top() returns (address: Address, ring: Ring)
      requires Valid()
      ensures address == View().first.address && ring == View().first.ring
    {
      address, ring := addresses[0], rings[0];
    }

    method Second() returns (address: Address, ring: Ring)
      requires Valid()
      ensures address == View().second.address && ring == View().second.ring
    {
      address, ring := addresses[1], rings[1];
    }

    method Consider(address: Address, ring: Ring, score: U32)
      requires Valid()
      modifies addresses, rings, scores
      ensures View() == Update(old(View()), Candidate(address, ring, score))
    {
      if score > scores[0] {
        addresses[1], rings[1], scores[1] := addresses[0], rings[0], scores[0];
        addresses[0], rings[0], scores[0] := address, ring, score;
      } else if score > scores[1] {
        addresses[1], rings[1], scores[1] := address, ring, score;
      }
    }
  }
}
