/** The neighbour histogram and the ring hysteresis, as functions of values (multihop_state.cpp). */
module Rings {
  import opened Bytes
  import opened Messages

  const HYSTERESIS_THRESHOLD := 3

  /** The part of a node's state that discovery reads and writes. */
  datatype RingState = RingState(ring: Ring, neighbors: RingList, roundsWithoutLower: Byte)

  const NO_COUNTS: Cells := [0, 0, 0, 0, 0, 0, 0, 0]
  const NO_NEIGHBORS := RingList(0, NO_COUNTS)

  /** One more neighbour at cell `i`; the cells are 8 bits wide. */
  function Bump(c: Cells, i: nat): Cells
    requires i < CELLS
  {
    c[i := Wrap8(c[i] as int + 1)]
  }

  /** The cells moved up by `offset`, what falls off the end is dropped. */
  function ShiftUp(c: Cells, offset: nat): (r: Cells)
    ensures forall i | 0 <= i < CELLS :: r[i] == if i < offset then 0 else c[i - offset]
  {
    if offset >= CELLS then NO_COUNTS
    else NO_COUNTS[..offset] + c[..CELLS - offset]
  }

  function AddNeighbor(r: RingList, n: Ring): RingList {
    if n == UNKNOWN_RING then r
    else if r.counts[0] != 0 && n as int >= r.ringStart as int + CELLS then r
    else
      var start := if r.counts[0] == 0 then n else r.ringStart;
      if n < start then RingList(n, Bump(ShiftUp(r.counts, start - n), 0))
      else RingList(start, Bump(r.counts, n - start))
  }

  /** Index of the first non-empty cell at or after `i`. */
  function FirstCell(c: Cells, i: nat): (k: nat)
    requires i <= CELLS
    ensures i <= k <= CELLS
    ensures forall j | i <= j < k :: c[j] == 0
    ensures k < CELLS ==> c[k] != 0
    decreases CELLS - i
  {
    if i == CELLS || c[i] != 0 then i else FirstCell(c, i + 1)
  }

  function LowestHeard(r: RingList): Ring {
    var k := FirstCell(r.counts, 0);
    if k == CELLS then UNKNOWN_RING else Wrap8(r.ringStart as int + k)
  }

  function UpdateRing(self: Address, s: RingState): RingState {
    if self == GATEWAY_ADDR then s.(ring := GATEWAY_RING)
    else
      var lowest := LowestHeard(s.neighbors);
      if lowest < s.ring then s.(ring := Wrap8(lowest as int + 1), roundsWithoutLower := 0)
      else
        var rounds := Wrap8(s.roundsWithoutLower as int + 1);
        if rounds < HYSTERESIS_THRESHOLD then s.(roundsWithoutLower := rounds)
        else s.(ring := if lowest == UNKNOWN_RING then UNKNOWN_RING else Wrap8(lowest as int + 1),
                roundsWithoutLower := 0)
  }

  // ---- What the histogram means -------------------------------------------------------------

  /** The histogram after a reset and the given heartbeats. */
  function Histogram(hs: seq<Ring>): RingList {
    if hs == [] then NO_NEIGHBORS
    else AddNeighbor(Histogram(hs[..|hs| - 1]), hs[|hs| - 1])
  }

  /** The smallest known ring heard; UNKNOWN_RING when there is none. */
  function LowestOf(hs: seq<Ring>): Ring {
    if hs == [] then UNKNOWN_RING
    else
      var n, low := hs[|hs| - 1], LowestOf(hs[..|hs| - 1]);
      if n < low then n else low
  }

  /** How often the known ring `r` was heard. */
  ghost function TimesHeard(hs: seq<Ring>, r: int): nat {
    if hs == [] then 0
    else TimesHeard(hs[..|hs| - 1], r) + if hs[|hs| - 1] as int == r != UNKNOWN_RING as int then 1 else 0
  }

  /** How often the ring `i` above the lowest one was heard, counted again from scratch. */
  ghost function Recount(hs: seq<Ring>, i: nat): nat {
    TimesHeard(hs, LowestOf(hs) as int + i)
  }

  /** The histogram holds the lowest ring and the exact count of each of the eight rings from there. */
  ghost predicate IsRecount(r: RingList, hs: seq<Ring>) {
    && r.ringStart == (if LowestOf(hs) == UNKNOWN_RING then 0 else LowestOf(hs))
    && forall i | 0 <= i < CELLS :: r.counts[i] as int == Recount(hs, i)
  }

  /** No ring of the window that starts at the lowest one was heard more than 255 times. */
  ghost predicate FitsCells(hs: seq<Ring>) {
    forall i | 0 <= i < CELLS :: Recount(hs, i) <= 255
  }

  lemma Snoc(hs: seq<Ring>, n: Ring, r: int)
    ensures LowestOf(hs + [n]) == if n < LowestOf(hs) then n else LowestOf(hs)
    ensures TimesHeard(hs + [n], r) == TimesHeard(hs, r) + if n as int == r != UNKNOWN_RING as int then 1 else 0
  {
    assert (hs + [n])[..|hs|] == hs;
  }

  lemma {:induction false} LowestIsLeast(hs: seq<Ring>)
    ensures forall i | 0 <= i < |hs| :: LowestOf(hs) <= hs[i]
    ensures LowestOf(hs) == UNKNOWN_RING || LowestOf(hs) in hs
  {
    if hs != [] {
      var init := hs[..|hs| - 1];
      LowestIsLeast(init);
      forall i | 0 <= i < |hs| ensures LowestOf(hs) <= hs[i] {
        if i < |init| { assert LowestOf(init) <= init[i]; }
      }
    }
  }

  lemma {:induction false} TimesHeardIsMultiplicity(hs: seq<Ring>, r: Ring)
    requires r != UNKNOWN_RING
    ensures TimesHeard(hs, r as int) == multiset(hs)[r]
  {
    if hs != [] {
      TimesHeardIsMultiplicity(hs[..|hs| - 1], r);
      assert hs == hs[..|hs| - 1] + [hs[|hs| - 1]];
    }
  }

  lemma {:induction false} NothingBelowLowest(hs: seq<Ring>, r: int)
    requires r < LowestOf(hs) as int
    ensures TimesHeard(hs, r) == 0
  {
    if hs != [] { NothingBelowLowest(hs[..|hs| - 1], r); }
  }

  lemma {:induction false} NothingFromUnknown(hs: seq<Ring>, r: int)
    requires UNKNOWN_RING as int <= r
    ensures TimesHeard(hs, r) == 0
  {
    if hs != [] { NothingFromUnknown(hs[..|hs| - 1], r); }
  }

  lemma {:induction false} LowestIsHeard(hs: seq<Ring>)
    ensures LowestOf(hs) != UNKNOWN_RING ==> TimesHeard(hs, LowestOf(hs) as int) > 0
  {
    if hs != [] { LowestIsHeard(hs[..|hs| - 1]); }
  }

  /** How one more heartbeat changes the recount: `hs'` is `hs` and then `n`. */
  lemma RecountSnoc(hs: seq<Ring>, n: Ring, hs': seq<Ring>, i: nat)
    requires hs' == hs + [n]
    ensures var low := LowestOf(hs);
      Recount(hs', i) ==
        if n < low then (if i == 0 then 1 else if i < low - n then 0 else Recount(hs, i - (low - n)))
        else Recount(hs, i) + if n as int == low as int + i && n != UNKNOWN_RING then 1 else 0
  {
    var low := LowestOf(hs);
    Snoc(hs, n, LowestOf(hs') as int + i);
    if n < low && i < low - n { NothingBelowLowest(hs, n as int + i); }
  }

  lemma AllCellsEmpty(r: RingList, hs: seq<Ring>)
    requires IsRecount(r, hs) && LowestOf(hs) == UNKNOWN_RING
    ensures r == NO_NEIGHBORS
    ensures forall i: nat :: Recount(hs, i) == 0
  {
    forall i: nat ensures Recount(hs, i) == 0 { NothingFromUnknown(hs, UNKNOWN_RING as int + i); }
    assert r.counts == NO_COUNTS;
  }

  lemma AddNeighborKeepsRecount(r: RingList, hs: seq<Ring>, n: Ring)
    requires IsRecount(r, hs) && FitsCells(hs + [n])
    ensures IsRecount(AddNeighbor(r, n), hs + [n])
  {
    var low, r' := LowestOf(hs), AddNeighbor(r, n);
    assert r.counts[0] as int == Recount(hs, 0);
    LowestIsHeard(hs);
    Snoc(hs, n, 0);
    if low == UNKNOWN_RING { AllCellsEmpty(r, hs); }
    forall i | 0 <= i < CELLS ensures r'.counts[i] as int == Recount(hs + [n], i) {
      RecountSnoc(hs, n, hs + [n], i);
      assert Recount(hs + [n], i) <= 255;
      assert r.counts[i] as int == Recount(hs, i);
      if n < low && i >= low - n { assert r.counts[i - (low - n)] as int == Recount(hs, i - (low - n)); }
    }
  }

  /** The in-place histogram is exact throughout a phase if and only if its 8-bit cells never overflow. */
  lemma {:induction false} HistogramExactIff(hs: seq<Ring>)
    ensures (forall k | 0 <= k <= |hs| :: IsRecount(Histogram(hs[..k]), hs[..k]))
       <==> (forall k | 0 <= k <= |hs| :: FitsCells(hs[..k]))
  {
    if forall k | 0 <= k <= |hs| :: IsRecount(Histogram(hs[..k]), hs[..k]) {
      forall k, i | 0 <= k <= |hs| && 0 <= i < CELLS ensures Recount(hs[..k], i) <= 255 {
        assert Histogram(hs[..k]).counts[i] as int == Recount(hs[..k], i);
      }
    }
    if forall k | 0 <= k <= |hs| :: FitsCells(hs[..k]) {
      forall k | 0 <= k <= |hs| ensures IsRecount(Histogram(hs[..k]), hs[..k]) {
        FittingHistogramIsRecount(hs, k);
      }
    }
  }

  lemma {:induction false} FittingHistogramIsRecount(hs: seq<Ring>, k: nat)
    requires k <= |hs|
    requires forall j | 0 <= j <= |hs| :: FitsCells(hs[..j])
    ensures IsRecount(Histogram(hs[..k]), hs[..k])
  {
    if k > 0 {
      FittingHistogramIsRecount(hs, k - 1);
      assert hs[..k][..k - 1] == hs[..k - 1];
      assert hs[..k] == hs[..k - 1] + [hs[k - 1]];
      AddNeighborKeepsRecount(Histogram(hs[..k - 1]), hs[..k - 1], hs[k - 1]);
    }
  }

  lemma {:induction false} TimesHeardAtMostLength(hs: seq<Ring>, r: int)
    ensures TimesHeard(hs, r) <= |hs|
  {
    if hs != [] { TimesHeardAtMostLength(hs[..|hs| - 1], r); }
  }

  lemma ShortPhaseFits(hs: seq<Ring>)
    requires |hs| <= 255
    ensures FitsCells(hs)
  {
    forall i | 0 <= i < CELLS ensures Recount(hs, i) <= 255 { TimesHeardAtMostLength(hs, LowestOf(hs) as int + i); }
  }

  /** A phase of at most 255 heartbeats is counted exactly. */
  lemma HistogramIsRecount(hs: seq<Ring>)
    requires |hs| <= 255
    ensures IsRecount(Histogram(hs), hs)
  {
    forall k | 0 <= k <= |hs| ensures FitsCells(hs[..k]) { ShortPhaseFits(hs[..k]); }
    FittingHistogramIsRecount(hs, |hs|);
    assert hs[..|hs|] == hs;
  }

  /** ... and then the ring update reads the lowest ring that was heard. */
  lemma RecountGivesLowest(r: RingList, hs: seq<Ring>)
    requires IsRecount(r, hs)
    ensures LowestHeard(r) == LowestOf(hs)
  {
    LowestIsHeard(hs);
    assert r.counts[0] as int == Recount(hs, 0);
    if LowestOf(hs) == UNKNOWN_RING { AllCellsEmpty(r, hs); }
  }

  lemma LowestDependsOnSet(hs: seq<Ring>, hs': seq<Ring>)
    requires multiset(hs) == multiset(hs')
    ensures LowestOf(hs) == LowestOf(hs')
  {
    LowestIsLeast(hs);
    LowestIsLeast(hs');
    var low, low' := LowestOf(hs), LowestOf(hs');
    assert low in multiset(hs) ==> low in hs';
    assert low' in multiset(hs') ==> low' in hs;
  }

  lemma RecountDependsOnSet(r: RingList, hs: seq<Ring>, r': RingList, hs': seq<Ring>)
    requires IsRecount(r, hs) && IsRecount(r', hs') && multiset(hs) == multiset(hs')
    ensures r == r'
  {
    LowestDependsOnSet(hs, hs');
    if LowestOf(hs) == UNKNOWN_RING {
      AllCellsEmpty(r, hs);
      AllCellsEmpty(r', hs');
    } else {
      forall i | 0 <= i < CELLS ensures r.counts[i] == r'.counts[i] {
        assert r.counts[i] as int == Recount(hs, i) && r'.counts[i] as int == Recount(hs', i);
        RecountAgrees(hs, hs', LowestOf(hs) as int + i);
      }
      assert r.counts == r'.counts;
    }
  }

  lemma RecountAgrees(hs: seq<Ring>, hs': seq<Ring>, x: nat)
    requires multiset(hs) == multiset(hs')
    ensures TimesHeard(hs, x) == TimesHeard(hs', x)
  {
    if x < UNKNOWN_RING as int {
      TimesHeardIsMultiplicity(hs, x);
      TimesHeardIsMultiplicity(hs', x);
    } else {
      NothingFromUnknown(hs, x);
      NothingFromUnknown(hs', x);
    }
  }

  /** The order in which heartbeats arrive does not matter. */
  lemma HistogramIgnoresOrder(hs: seq<Ring>, hs': seq<Ring>)
    requires |hs| <= 255 && multiset(hs) == multiset(hs')
    ensures Histogram(hs) == Histogram(hs')
  {
    assert |hs'| == |multiset(hs')| == |multiset(hs)| == |hs|;
    HistogramIsRecount(hs);
    HistogramIsRecount(hs');
    RecountDependsOnSet(Histogram(hs), hs, Histogram(hs'), hs');
  }

  function Repeated(r: Ring, n: nat): (hs: seq<Ring>) { if n == 0 then [] else Repeated(r, n - 1) + [r] }

  lemma HistogramSnoc(hs: seq<Ring>, n: Ring)
    ensures Histogram(hs + [n]) == AddNeighbor(Histogram(hs), n)
  {
    assert (hs + [n])[..|hs + [n]| - 1] == hs;
  }

  function Bumps(c: Cells, n: nat): Cells { if n == 0 then c else Bump(Bumps(c, n - 1), 0) }

  lemma {:induction false} BumpsAdd(c: Cells, n: nat)
    ensures Bumps(c, n)[0] == Wrap8(c[0] as int + n)
    ensures forall i | 0 < i < CELLS :: Bumps(c, n)[i] == c[i]
  {
    if n > 0 {
      BumpsAdd(c, n - 1);
      WrapNext(c[0] as int + n - 1);
    }
  }

  lemma WrapNext(x: int)
    ensures Wrap8(Wrap8(x) as int + 1) == Wrap8(x + 1)
  {
  }

  lemma StartBumps(hs: seq<Ring>, more: seq<Ring>, r: Ring, c: Cells, n: nat)
    requires n > 0 && more == hs + [r] && Histogram(hs) == RingList(r, Bumps(c, n - 1)) && r != UNKNOWN_RING
    ensures Histogram(more) == RingList(r, Bumps(c, n))
  {
    HistogramSnoc(hs, r);
  }

  /** More heartbeats of the ring that the histogram starts at only count in its first cell. */
  lemma {:induction false} FirstCellFills(hs: seq<Ring>, r: Ring, c: Cells, n: nat, more: seq<Ring>)
    requires Histogram(hs) == RingList(r, c) && r != UNKNOWN_RING && more == hs + Repeated(r, n)
    ensures Histogram(more) == RingList(r, Bumps(c, n))
  {
    if n == 0 {
      assert more == hs;
    } else {
      FirstCellFills(hs, r, c, n - 1, hs + Repeated(r, n - 1));
      StartBumps(hs + Repeated(r, n - 1), more, r, c, n);
    }
  }

  lemma {:induction false} OnlyRepeated(r: Ring, n: nat)
    ensures |Repeated(r, n)| == n && forall i | 0 <= i < n :: Repeated(r, n)[i] == r
  {
    if n > 0 { OnlyRepeated(r, n - 1); }
  }

  const ONE_HEARD: Cells := [1, 0, 0, 0, 0, 0, 0, 0]

  lemma AllEqual(hs: seq<Ring>, r: Ring)
    requires hs != [] && forall i | 0 <= i < |hs| :: hs[i] == r
    ensures hs == [r] + Repeated(r, |hs| - 1)
  {
    OnlyRepeated(r, |hs| - 1);
  }

  lemma OneHeard(r: Ring)
    requires r != UNKNOWN_RING
    ensures Histogram([r]) == RingList(r, ONE_HEARD)
  {
    assert [r][..0] == [];
    assert NO_COUNTS[0 := 1] == ONE_HEARD;
  }

  lemma EmptyCells(c: Cells)
    requires c[0] == 0 && forall i | 0 < i < CELLS :: c[i] == ONE_HEARD[i]
    ensures FirstCell(c, 0) == CELLS
  {
  }

  lemma RepeatedRing(hs: seq<Ring>, r: Ring)
    requires hs != [] && r != UNKNOWN_RING && forall i | 0 <= i < |hs| :: hs[i] == r
    ensures Histogram(hs) == RingList(r, Bumps(ONE_HEARD, |hs| - 1))
  {
    OneHeard(r);
    AllEqual(hs, r);
    FirstCellFills([r], r, ONE_HEARD, |hs| - 1, hs);
  }

  /** With 256 heartbeats the first cell wraps to zero and a node surrounded by neighbours hears nobody. */
  lemma OverfullCellForgetsNeighbors(r: Ring)
    requires r != UNKNOWN_RING
    ensures LowestHeard(Histogram(seq(256, _ => r))) == UNKNOWN_RING
    ensures LowestOf(seq(256, _ => r)) == r
  {
    var hs := seq(256, _ => r);
    RepeatedRing(hs, r);
    NothingLeft(|hs| - 1);
    LowestIsLeast(hs);
    assert hs[0] == r;
  }

  lemma NothingLeft(n: nat)
    requires n == 255
    ensures FirstCell(Bumps(ONE_HEARD, n), 0) == CELLS
  {
    BumpsAdd(ONE_HEARD, n);
    EmptyCells(Bumps(ONE_HEARD, n));
  }

  const FAR_CELLS: Cells := [1, 0, 0, 0, 0, 0, 0, 1]

  lemma FarPair()
    ensures Histogram([100, 107]) == RingList(100, FAR_CELLS)
  {
    HistogramSnoc([], 100);
    HistogramSnoc([100], 107);
    assert [] + [100] == [100] && [100] + [107] == [100, 107];
    assert NO_COUNTS[0 := 1][7 := 1] == FAR_CELLS;
  }

  /** With the first cell back at 0, the next ring counts as the lowest, and the cells stay where they are. */
  lemma EmptyFirstCell(r: Ring, c: Cells, n: Ring)
    requires c[0] == 0 && n != UNKNOWN_RING
    ensures AddNeighbor(RingList(r, c), n) == RingList(n, c[0 := 1])
  {
  }

  lemma FarCells(n: nat)
    requires n == 255
    ensures Bumps(FAR_CELLS, n)[0] == 0 && Bumps(FAR_CELLS, n)[0 := 1] == FAR_CELLS
  {
    BumpsAdd(FAR_CELLS, n);
  }

  lemma FarFirst(n: nat, hs: seq<Ring>)
    requires n == 255 && hs == ([100, 107] + Repeated(100, n)) + [250]
    ensures Histogram(hs) == RingList(250, FAR_CELLS)
  {
    var few: seq<Ring> := [100, 107];
    FarPair();
    FirstCellFills(few, 100, FAR_CELLS, n, few + Repeated(100, n));
    HistogramSnoc(few + Repeated(100, n), 250);
    FarCells(n);
    EmptyFirstCell(100, Bumps(FAR_CELLS, n), 250);
  }

  lemma FarHeartbeats(n: nat) returns (hs: seq<Ring>)
    requires n == 255
    ensures hs == ([100, 107] + Repeated(100, n) + [250]) + Repeated(250, n)
    ensures Histogram(hs) == RingList(250, Bumps(FAR_CELLS, n))
  {
    var first: seq<Ring> := ([100, 107] + Repeated(100, n)) + [250];
    FarFirst(n, first);
    hs := first + Repeated(250, n);
    FirstCellFills(first, 250, FAR_CELLS, n, hs);
  }

  lemma AllFar(n: nat)
    ensures forall r | r in ([100, 107] + Repeated(100, n) + [250]) + Repeated(250, n) :: r >= 100
  {
    OnlyRepeated(100, n);
    OnlyRepeated(250, n);
  }

  lemma SecondLowest(r: RingList)
    requires r.ringStart == 250 && r.counts[7] == 1 && forall i | 0 <= i < 7 :: r.counts[i] == 0
    ensures LowestHeard(r) == 1
  {
  }

  lemma FarLowest(n: nat)
    requires n == 255
    ensures LowestHeard(RingList(250, Bumps(FAR_CELLS, n))) == 1
  {
    BumpsAdd(FAR_CELLS, n);
    SecondLowest(RingList(250, Bumps(FAR_CELLS, n)));
  }

  /** Two cells that overflow, far out: a node that heard no ring below 100 reads 1 as the lowest ring. */
  lemma OverflowUnderstates() returns (heard: seq<Ring>)
    ensures (forall r | r in heard :: r >= 100) && LowestHeard(Histogram(heard)) == 1
  {
    heard := FarPhase(255);
  }

  lemma FarPhase(n: nat) returns (heard: seq<Ring>)
    requires n == 255
    ensures (forall r | r in heard :: r >= 100) && LowestHeard(Histogram(heard)) == 1
  {
    heard := FarHeartbeats(n);
    AllFar(n);
    FarLowest(n);
  }
}
