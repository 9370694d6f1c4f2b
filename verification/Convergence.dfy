/** Convergence of the loop of `run_neighbor_discovery`, which updates the ring in every turn of a phase, not once
    when all neighbours have been heard (multihop.cpp). */
module Convergence {
  import opened Messages
  import opened Rings
  import opened Discovery
  import opened DiscoveryLoop
  import Stations

  // ---- What one node makes of what it hears ------------------------------------------------------------

  /** The rings in the heartbeats of a turn, and of all turns. */
  function RingsIn(ars: seq<Arrived>): seq<Ring> {
    if ars == [] then []
    else
      var m := ars[|ars| - 1].m;
      RingsIn(ars[..|ars| - 1]) + if m.body.Heartbeat? then [m.body.ring] else []
  }

  function AllRings(ts: seq<FindTurn>): seq<Ring> {
    if ts == [] then [] else AllRings(ts[..|ts| - 1]) + RingsIn(ts[|ts| - 1].heard)
  }

  /** No cell of the histogram overflows on the way. */
  ghost predicate CellsFit(hs: seq<Ring>) { forall k | 0 <= k <= |hs| :: FitsCells(hs[..k]) }

  lemma {:induction false} TurnExtendsHistogram(s: RingState, hs: seq<Ring>, ars: seq<Arrived>)
    requires s.neighbors == Histogram(hs)
    ensures HeardRings(s, ars) == s.(neighbors := Histogram(hs + RingsIn(ars)))
  {
    if ars == [] {
      assert hs + RingsIn(ars) == hs;
    } else {
      var init, m := ars[..|ars| - 1], ars[|ars| - 1].m;
      TurnExtendsHistogram(s, hs, init);
      if m.body.Heartbeat? {
        HistogramSnoc(hs + RingsIn(init), m.body.ring);
        assert hs + RingsIn(ars) == (hs + RingsIn(init)) + [m.body.ring];
      } else {
        assert RingsIn(ars) == RingsIn(init);
      }
    }
  }

  /** Throughout a phase the histogram is that of all heartbeats of the phase. */
  lemma {:induction false} PhaseHistogram(v: Address, f: Finder, ts: seq<FindTurn>)
    requires f.rings.neighbors == NO_NEIGHBORS
    ensures FindTurns(v, f, ts).rings.neighbors == Histogram(AllRings(ts))
  {
    if ts != [] {
      var init := ts[..|ts| - 1];
      PhaseHistogram(v, f, init);
      TurnExtendsHistogram(FindTurns(v, f, init).rings, AllRings(init), ts[|ts| - 1].heard);
    }
  }

  lemma PrefixFits(a: seq<Ring>, b: seq<Ring>)
    requires CellsFit(a + b)
    ensures CellsFit(a)
  {
    forall k | 0 <= k <= |a| ensures FitsCells(a[..k]) { assert (a + b)[..k] == a[..k]; }
  }

  lemma FittingLowest(hs: seq<Ring>)
    requires CellsFit(hs)
    ensures LowestHeard(Histogram(hs)) == LowestOf(hs)
  {
    FittingHistogramIsRecount(hs, |hs|);
    assert hs[..|hs|] == hs;
    RecountGivesLowest(Histogram(hs), hs);
  }

  /** What a ring update with the lowest ring `low` does. */
  ghost predicate Updates(v: Address, s: RingState, low: Ring, s': RingState) {
    && (v == GATEWAY_ADDR ==> s'.ring == GATEWAY_RING && s'.roundsWithoutLower == s.roundsWithoutLower)
    && (v != GATEWAY_ADDR && low < s.ring ==> s'.ring as int == low as int + 1 && s'.roundsWithoutLower == 0)
    && (v != GATEWAY_ADDR && low >= s.ring && s.roundsWithoutLower as int + 1 < HYSTERESIS_THRESHOLD ==>
          s'.ring == s.ring && s'.roundsWithoutLower == s.roundsWithoutLower + 1)
    && (v != GATEWAY_ADDR && low >= s.ring && s.roundsWithoutLower as int + 1 == HYSTERESIS_THRESHOLD ==>
          s'.ring == (if low == UNKNOWN_RING then UNKNOWN_RING else low + 1) && s'.roundsWithoutLower == 0)
    && (v != GATEWAY_ADDR && s'.ring != s.ring ==> s'.ring == UNKNOWN_RING || s'.ring as int == low as int + 1)
  }

  lemma UpdateByLowest(v: Address, s: RingState, low: Ring)
    requires LowestHeard(s.neighbors) == low
    ensures Updates(v, s, low, UpdateRing(v, s))
  {
  }

  /** The last turn: the ring update with the lowest ring heard so far. */
  lemma LastTurn(v: Address, f: Finder, ts: seq<FindTurn>) returns (init: seq<FindTurn>, s: RingState)
    requires f.rings.neighbors == NO_NEIGHBORS && ts != [] && CellsFit(AllRings(ts))
    ensures init == ts[..|ts| - 1] && AllRings(init) <= AllRings(ts) && CellsFit(AllRings(init))
    ensures var before := FindTurns(v, f, init).rings;
      s.ring == before.ring && s.roundsWithoutLower == before.roundsWithoutLower
    ensures Updates(v, s, LowestOf(AllRings(ts)), FindTurns(v, f, ts).rings)
    ensures LowestOf(AllRings(ts)) <= LowestOf(AllRings(init))
  {
    init := ts[..|ts| - 1];
    var last := ts[|ts| - 1];
    PhaseHistogram(v, f, init);
    TurnExtendsHistogram(FindTurns(v, f, init).rings, AllRings(init), last.heard);
    s := HeardRings(FindTurns(v, f, init).rings, last.heard);
    FittingLowest(AllRings(ts));
    UpdateByLowest(v, s, LowestOf(AllRings(ts)));
    PrefixFits(AllRings(init), RingsIn(last.heard));
    LowestOfMore(AllRings(init), RingsIn(last.heard));
  }

  lemma {:induction false} LowestOfMore(a: seq<Ring>, b: seq<Ring>)
    ensures LowestOf(a + b) <= LowestOf(a)
  {
    if b == [] {
      assert a + b == a;
    } else {
      LowestOfMore(a, b[..|b| - 1]);
      Snoc(a + b[..|b| - 1], b[|b| - 1], 0);
      assert a + b == (a + b[..|b| - 1]) + [b[|b| - 1]];
    }
  }

  /** The ring never falls to the lowest ring that is heard. */
  lemma {:induction false} RingStaysAbove(v: Address, f: Finder, ts: seq<FindTurn>, low: Ring)
    requires v != GATEWAY_ADDR && f.rings.neighbors == NO_NEIGHBORS && CellsFit(AllRings(ts))
    requires low < f.rings.ring && low <= LowestOf(AllRings(ts))
    ensures low < FindTurns(v, f, ts).rings.ring
  {
    if ts != [] {
      var init, s := LastTurn(v, f, ts);
      RingStaysAbove(v, f, init, low);
    }
  }

  /** However the heartbeats fall into turns: a node that hears a ring below its own ends one above the lowest. */
  lemma PhaseFindsLowest(v: Address, f: Finder, ts: seq<FindTurn>)
    requires v != GATEWAY_ADDR && f.rings.neighbors == NO_NEIGHBORS && ts != [] && CellsFit(AllRings(ts))
    requires LowestOf(AllRings(ts)) < f.rings.ring
    ensures FindTurns(v, f, ts).rings.ring as int == LowestOf(AllRings(ts)) as int + 1
  {
    var init, s := LastTurn(v, f, ts);
    RingStaysAbove(v, f, init, LowestOf(AllRings(ts)));
  }

  /** A ring that is right survives while the hysteresis has not run out, even if nothing is heard: this is how
      long a node may wait before it announces, to announce the ring it started with. */
  lemma {:induction false} RingIsKept(v: Address, f: Finder, ts: seq<FindTurn>)
    requires v != GATEWAY_ADDR && f.rings.neighbors == NO_NEIGHBORS && CellsFit(AllRings(ts))
    requires f.rings.roundsWithoutLower as int + |ts| < HYSTERESIS_THRESHOLD
    requires f.rings.ring as int <= LowestOf(AllRings(ts)) as int + 1
    ensures FindTurns(v, f, ts).rings.ring == f.rings.ring
    ensures FindTurns(v, f, ts).rings.roundsWithoutLower as int <= f.rings.roundsWithoutLower as int + |ts|
  {
    if ts != [] {
      var init, s := LastTurn(v, f, ts);
      RingIsKept(v, f, init);
    }
  }

  /** While nothing is heard, a ring is kept exactly as long as the hysteresis has not run out. */
  lemma {:induction false} SilentTurnsForgetIff(v: Address, f: Finder, ts: seq<FindTurn>)
    requires v != GATEWAY_ADDR && f.rings.neighbors == NO_NEIGHBORS && AllRings(ts) == []
    requires f.rings.ring != UNKNOWN_RING && f.rings.roundsWithoutLower as int < HYSTERESIS_THRESHOLD
    ensures var rings, rounds := FindTurns(v, f, ts).rings, f.rings.roundsWithoutLower as int + |ts|;
      && (rings.ring == f.rings.ring <==> rounds < HYSTERESIS_THRESHOLD)
      && (rounds < HYSTERESIS_THRESHOLD ==> rings.roundsWithoutLower as int == rounds)
      && (rounds >= HYSTERESIS_THRESHOLD ==> rings.ring == UNKNOWN_RING)
  {
    if ts != [] {
      NothingOverflows();
      var init, s := LastTurn(v, f, ts);
      SilentTurnsForgetIff(v, f, init);
    }
  }

  lemma NothingOverflows()
    ensures CellsFit([])
  {
  }

  lemma SilentTurn(v: Address, f: Finder, t: FindTurn)
    requires f.rings.neighbors == NO_NEIGHBORS && t.heard == []
    ensures FindOnce(v, f, t).rings == UpdateRing(v, f.rings) && LowestHeard(f.rings.neighbors) == UNKNOWN_RING
  {
    assert HeardRings(f.rings, []) == f.rings;
  }

  /** ... and no longer: after three turns in which nothing was heard yet, any ring is forgotten. */
  lemma SilentTurnsForget(v: Address, f: Finder, t: FindTurn)
    requires v != GATEWAY_ADDR && f.rings.neighbors == NO_NEIGHBORS && f.rings.roundsWithoutLower == 0 && t.heard == []
    ensures FindTurns(v, f, [t, t]).rings.ring == f.rings.ring && FindTurns(v, f, [t, t, t]).rings.ring == UNKNOWN_RING
  {
    TurnsSnoc(v, f, [], t, [t]);
    TurnsSnoc(v, f, [t], t, [t, t]);
    TurnsSnoc(v, f, [t, t], t, [t, t, t]);
    SilentTurn(v, f, t);
    SilentTurn(v, FindTurns(v, f, [t]), t);
    SilentTurn(v, FindTurns(v, f, [t, t]), t);
  }

  // ---- When a phase ends with the right ring -------------------------------------------------------------

  /** The rings heard are sound, as in all runs that `Discovery.RingSafety` speaks of, and the cells count them. */
  ghost predicate HeardSoundly(g: Graph, v: Address, ts: seq<FindTurn>) {
    CellsFit(AllRings(ts)) && forall r | r in AllRings(ts) :: r == UNKNOWN_RING || WithinHops(g, v, r as nat + 1)
  }

  lemma LowestIsSound(g: Graph, v: Address, ts: seq<FindTurn>)
    requires HeardSoundly(g, v, ts)
    ensures var low := LowestOf(AllRings(ts)); low == UNKNOWN_RING || WithinHops(g, v, low as nat + 1)
  {
    LowestIsLeast(AllRings(ts));
  }

  lemma PrefixHeardSoundly(g: Graph, v: Address, init: seq<FindTurn>, ts: seq<FindTurn>)
    requires HeardSoundly(g, v, ts) && CellsFit(AllRings(init)) && AllRings(init) <= AllRings(ts)
    ensures HeardSoundly(g, v, init)
  {
    assert forall r | r in AllRings(init) :: r in AllRings(ts);
  }

  lemma SoundUpdate(g: Graph, v: Address, s: RingState, low: Ring, s': RingState)
    requires Updates(v, s, low, s') && (low == UNKNOWN_RING || WithinHops(g, v, low as nat + 1))
    requires SoundRing(g, v, s.ring) && (v == GATEWAY_ADDR ==> s.ring == GATEWAY_RING)
    ensures SoundRing(g, v, s'.ring) && (v == GATEWAY_ADDR ==> s'.ring == GATEWAY_RING)
  {
  }

  lemma {:induction false} PhaseIsSound(g: Graph, v: Address, f: Finder, ts: seq<FindTurn>)
    requires f.rings.neighbors == NO_NEIGHBORS && HeardSoundly(g, v, ts)
    requires SoundRing(g, v, f.rings.ring) && (v == GATEWAY_ADDR ==> f.rings.ring == GATEWAY_RING)
    ensures var ring := FindTurns(v, f, ts).rings.ring;
      SoundRing(g, v, ring) && (v == GATEWAY_ADDR ==> ring == GATEWAY_RING)
  {
    if ts != [] {
      var init, s := LastTurn(v, f, ts);
      PrefixHeardSoundly(g, v, init, ts);
      PhaseIsSound(g, v, f, init);
      LowestIsSound(g, v, ts);
      SoundUpdate(g, v, s, LowestOf(AllRings(ts)), FindTurns(v, f, ts).rings);
    }
  }

  lemma {:induction false} CounterStays(v: Address, f: Finder, ts: seq<FindTurn>)
    requires f.rings.neighbors == NO_NEIGHBORS && CellsFit(AllRings(ts))
    requires f.rings.roundsWithoutLower as int < HYSTERESIS_THRESHOLD
    ensures FindTurns(v, f, ts).rings.roundsWithoutLower as int < HYSTERESIS_THRESHOLD
  {
    if ts != [] {
      var init, s := LastTurn(v, f, ts);
      CounterStays(v, f, init);
    }
  }

  /** No sound ring is below the one before the distance. */
  lemma LowestByDistance(g: Graph, v: Address, ts: seq<FindTurn>, d: Ring)
    requires HeardSoundly(g, v, ts) && Distance(g, v) == d as nat && 0 < d < UNKNOWN_RING
    ensures d as int - 1 <= LowestOf(AllRings(ts)) as int
    ensures d - 1 in AllRings(ts) <==> LowestOf(AllRings(ts)) == d - 1
  {
    var low := LowestOf(AllRings(ts));
    LowestIsLeast(AllRings(ts));
    if low != UNKNOWN_RING {
      assert WithinHops(g, v, low as nat + 1);
      DistanceAtMost(g, v, low as nat + 1);
    }
  }

  /** A node whose right ring is `d`, with a sound ring. */
  ghost predicate SoundNode(g: Graph, v: Address, s: RingState, d: Ring) {
    && v != GATEWAY_ADDR && Distance(g, v) == d as nat && 0 < d < UNKNOWN_RING
    && SoundRing(g, v, s.ring) && s.roundsWithoutLower as int < HYSTERESIS_THRESHOLD
  }

  lemma HeardGivesExact(g: Graph, v: Address, f: Finder, ts: seq<FindTurn>, d: Ring)
    requires SoundNode(g, v, f.rings, d) && f.rings.neighbors == NO_NEIGHBORS && HeardSoundly(g, v, ts)
    requires d - 1 in AllRings(ts)
    ensures FindTurns(v, f, ts).rings.ring == d && FindTurns(v, f, ts).rings.roundsWithoutLower == 0
  {
    LowestByDistance(g, v, ts, d);
    SoundIsAtLeastDistance(g, v, f.rings.ring);
    PhaseFindsLowest(v, f, ts);
    var init, s := LastTurn(v, f, ts);
    RingStaysAbove(v, f, init, d - 1);
  }

  lemma {:induction false} UnheardIsKeptOrLost(g: Graph, v: Address, f: Finder, ts: seq<FindTurn>, d: Ring)
    requires SoundNode(g, v, f.rings, d) && f.rings.neighbors == NO_NEIGHBORS && HeardSoundly(g, v, ts)
    requires d - 1 !in AllRings(ts)
    ensures var rings, rounds := FindTurns(v, f, ts).rings, f.rings.roundsWithoutLower as int + |ts|;
      && d <= rings.ring && (rings.ring == d <==> f.rings.ring == d && rounds < HYSTERESIS_THRESHOLD)
      && (rings.ring == d ==> rings.roundsWithoutLower as int == rounds)
  {
    SoundIsAtLeastDistance(g, v, f.rings.ring);
    if ts != [] {
      var init, s := LastTurn(v, f, ts);
      PrefixHeardSoundly(g, v, init, ts);
      UnheardIsKeptOrLost(g, v, f, init, d);
      CounterStays(v, f, init);
      LowestByDistance(g, v, ts, d);
    }
  }

  /** Exactly when a phase of the loop ends with the right ring: when the node heard the ring one below it, in
      whatever turn, or had the right ring before and the hysteresis did not run out. */
  lemma PhaseExactIff(g: Graph, v: Address, f: Finder, ts: seq<FindTurn>, d: Ring)
    requires SoundNode(g, v, f.rings, d) && f.rings.neighbors == NO_NEIGHBORS && HeardSoundly(g, v, ts)
    ensures FindTurns(v, f, ts).rings.ring == d
       <==> || d - 1 in AllRings(ts)
            || (f.rings.ring == d && f.rings.roundsWithoutLower as int + |ts| < HYSTERESIS_THRESHOLD)
  {
    if d - 1 in AllRings(ts) { HeardGivesExact(g, v, f, ts, d); } else { UnheardIsKeptOrLost(g, v, f, ts, d); }
  }

  // ---- Many phases ---------------------------------------------------------------------------------------

  /** The rings after a phase, whatever else is queued and on the air. */
  function AfterPhase(v: Address, s: RingState, ts: seq<FindTurn>): RingState {
    FindTurns(v, Started(s, {}, {}), ts).rings
  }

  lemma {:induction false} RingsDependOnRings(v: Address, f: Finder, f': Finder, ts: seq<FindTurn>)
    requires f.rings == f'.rings
    ensures FindTurns(v, f, ts).rings == FindTurns(v, f', ts).rings
  {
    if ts != [] { RingsDependOnRings(v, f, f', ts[..|ts| - 1]); }
  }

  /** It is what the loop on a node's objects computes. */
  lemma LoopComputesPhase(p: Stations.Setup, v: Address, s: RingState, link: Stations.LinkView, es: seq<FindEnv>)
    requires p.tm.Valid()
    ensures FindSteps(p, v, Seeking(s, link), es).f.rings == AfterPhase(v, s, FindTurnsOf(p, v, Seeking(s, link), es))
  {
    FindStepsAreTurns(p, v, Seeking(s, link), es);
    RingsDependOnRings(v, Seeking(s, link).f, Started(s, {}, {}), FindTurnsOf(p, v, Seeking(s, link), es));
  }

  function AfterPhases(v: Address, s: RingState, phases: seq<seq<FindTurn>>): RingState {
    if phases == [] then s else AfterPhase(v, AfterPhases(v, s, phases[..|phases| - 1]), phases[|phases| - 1])
  }

  /** Turns of whole phases since the last phase in which ring `r` was heard; `start` when it never was. */
  function TurnsSince(phases: seq<seq<FindTurn>>, r: Ring, start: nat): nat {
    if phases == [] then start
    else if r in AllRings(phases[|phases| - 1]) then 0
    else TurnsSince(phases[..|phases| - 1], r, start) + |phases[|phases| - 1]|
  }

  ghost predicate AllHeardSoundly(g: Graph, v: Address, phases: seq<seq<FindTurn>>) {
    forall i | 0 <= i < |phases| :: HeardSoundly(g, v, phases[i])
  }

  /** Over any number of phases, with any loss: a node has the right ring if and only if fewer turns than the
      threshold have passed since the last phase in which it heard the ring one below. */
  lemma {:induction false} LoopExactIff(g: Graph, v: Address, s: RingState, phases: seq<seq<FindTurn>>, d: Ring)
    requires SoundNode(g, v, s, d) && AllHeardSoundly(g, v, phases)
    ensures var start: nat := if s.ring == d then s.roundsWithoutLower as nat else HYSTERESIS_THRESHOLD;
      var s', since := AfterPhases(v, s, phases), TurnsSince(phases, d - 1, start);
      && SoundNode(g, v, s', d) && (s'.ring == d <==> since < HYSTERESIS_THRESHOLD)
      && (s'.ring == d ==> s'.roundsWithoutLower as int == since)
  {
    if phases != [] {
      var init, ts := phases[..|phases| - 1], phases[|phases| - 1];
      LoopExactIff(g, v, s, init, d);
      var f := Started(AfterPhases(v, s, init), {}, {});
      assert HeardSoundly(g, v, ts);
      PhaseIsSound(g, v, f, ts);
      CounterStays(v, f, ts);
      if d - 1 in AllRings(ts) { HeardGivesExact(g, v, f, ts, d); } else { UnheardIsKeptOrLost(g, v, f, ts, d); }
    }
  }

  // ---- Rounds of the network ---------------------------------------------------------------------------

  /** What a node hears in a phase: for every neighbour, a ring that is no higher than the neighbour's before the phase,
      in any order and any turn, and any other sound rings. Of a neighbour that had no ring nothing need be heard. */
  ghost predicate HearsAll(g: Graph, v: Address, nodes: map<Address, RingState>, ts: seq<FindTurn>) {
    HeardSoundly(g, v, ts) && forall u | Hop(g, u, v) :: u in nodes && LowestOf(AllRings(ts)) <= nodes[u].ring
  }

  ghost predicate LoopRound(g: Graph, nodes: map<Address, RingState>, nodes': map<Address, RingState>) {
    && nodes.Keys == nodes'.Keys == g.nodes
    && forall v | v in g.nodes :: exists ts :: Looped(g, v, nodes, ts, nodes'[v])
  }

  /** The phase of node `v`, through the turns of its own loop. */
  ghost predicate Looped(g: Graph, v: Address, nodes: map<Address, RingState>, ts: seq<FindTurn>, s': RingState) {
    v in nodes && HearsAll(g, v, nodes, ts) && s' == AfterPhase(v, nodes[v], ts)
  }

  lemma LoopKeepsSound(g: Graph, nodes: map<Address, RingState>, nodes': map<Address, RingState>)
    requires SoundRings(g, nodes) && LoopRound(g, nodes, nodes')
    ensures SoundRings(g, nodes')
  {
    forall v | v in g.nodes
      ensures SoundRing(g, v, nodes'[v].ring) && (v == GATEWAY_ADDR ==> nodes'[v].ring == GATEWAY_RING)
    {
      var ts :| Looped(g, v, nodes, ts, nodes'[v]);
      PhaseIsSound(g, v, Started(nodes[v], {}, {}), ts);
    }
  }

  lemma LoopReachesNode(g: Graph, nodes: map<Address, RingState>, k: nat, v: Address, ts: seq<FindTurn>, s': RingState)
    requires ValidGraph(g) && SoundRings(g, nodes) && ExactUpTo(g, nodes, k) && Looped(g, v, nodes, ts, s')
    requires v != GATEWAY_ADDR && Distance(g, v) <= k + 1 && Distance(g, v) < 255
    ensures s'.ring as nat == Distance(g, v)
  {
    var u := NeighborIsOneCloser(g, v);
    assert nodes[u].ring as nat == Distance(g, u);
    LowestByDistance(g, v, ts, Distance(g, v));
    SoundIsAtLeastDistance(g, v, nodes[v].ring);
    PhaseFindsLowest(v, Started(nodes[v], {}, {}), ts);
  }

  lemma LoopExtendsExact(g: Graph, nodes: map<Address, RingState>, nodes': map<Address, RingState>, k: nat)
    requires ValidGraph(g) && SoundRings(g, nodes) && LoopRound(g, nodes, nodes') && ExactUpTo(g, nodes, k)
    ensures ExactUpTo(g, nodes', k + 1)
  {
    forall v | v in g.nodes && Distance(g, v) <= k + 1 && Distance(g, v) < 255
      ensures nodes'[v].ring as nat == Distance(g, v)
    {
      var ts :| Looped(g, v, nodes, ts, nodes'[v]);
      if v == GATEWAY_ADDR {
        DistanceAtMost(g, v, 0);
        PhaseIsSound(g, v, Started(nodes[v], {}, {}), ts);
      } else {
        LoopReachesNode(g, nodes, k, v, ts, nodes'[v]);
      }
    }
  }

  ghost predicate LoopRounds(g: Graph, rounds: seq<map<Address, RingState>>) {
    && rounds != [] && SoundRings(g, rounds[0])
    && forall i | 0 < i < |rounds| :: LoopRound(g, rounds[i - 1], rounds[i])
  }

  lemma {:induction false} LoopRoundsExact(g: Graph, rounds: seq<map<Address, RingState>>, k: nat)
    requires ValidGraph(g) && LoopRounds(g, rounds) && k < |rounds|
    ensures SoundRings(g, rounds[k]) && ExactUpTo(g, rounds[k], k)
  {
    if k == 0 {
      forall v | v in g.nodes && Distance(g, v) <= 0 ensures rounds[0][v].ring as nat == Distance(g, v) {
        assert WithinHops(g, v, 0);
      }
    } else {
      LoopRoundsExact(g, rounds, k - 1);
      LoopKeepsSound(g, rounds[k - 1], rounds[k]);
      LoopExtendsExact(g, rounds[k - 1], rounds[k], k - 1);
    }
  }

  /** From any sound state, such as the initial one, after `k` phases of the loop in which every node heard its
      neighbours so, every node within `k` hops has its hop distance as ring, and keeps it. */
  lemma LoopConvergence(g: Graph, rounds: seq<map<Address, RingState>>, k: nat, v: Address)
    requires ValidGraph(g) && LoopRounds(g, rounds) && k < |rounds| && v in g.nodes
    requires WithinHops(g, v, k) && Distance(g, v) <= 254
    ensures v in rounds[k] && rounds[k][v].ring as nat == Distance(g, v)
  {
    DistanceAtMost(g, v, k);
    LoopRoundsExact(g, rounds, k);
  }

  // ---- The first phase of a line -------------------------------------------------------------------------

  const LINE := Graph({0, 1, 2}, {(0, 1), (1, 0), (1, 2), (2, 1)})

  function FreshRings(ring: Ring): RingState { RingState(ring, NO_NEIGHBORS, 0) }

  const FRESH_LINE: map<Address, RingState> :=
    map[0 := FreshRings(GATEWAY_RING), 1 := FreshRings(UNKNOWN_RING), 2 := FreshRings(UNKNOWN_RING)]

  const SILENT_TURN := FindTurn(false, [], 0, false, false)

  /** The gateway's heartbeat is heard. */
  const GATEWAY_TURN :=
    FindTurn(false, [Arrived(Message(0, GATEWAY_ADDR, Heartbeat(GATEWAY_RING)), false)], 0, false, false)

  lemma OneTurn(v: Address, s: RingState, t: FindTurn)
    ensures AfterPhase(v, s, [t]) == UpdateRing(v, HeardRings(s.(neighbors := NO_NEIGHBORS), t.heard))
    ensures AllRings([t]) == RingsIn(t.heard)
  {
    TurnsSnoc(v, Started(s, {}, {}), [], t, [t]);
    assert [t][..0] == [];
  }

  lemma FewHeartbeats(hs: seq<Ring>)
    requires |hs| <= 255
    ensures CellsFit(hs)
  {
    forall k | 0 <= k <= |hs| ensures FitsCells(hs[..k]) { ShortPhaseFits(hs[..k]); }
  }

  lemma GatewayIsHeard()
    ensures AllRings([GATEWAY_TURN]) == [GATEWAY_RING] && AfterPhase(1, FRESH_LINE[1], [GATEWAY_TURN]).ring == 1
  {
    var ars := GATEWAY_TURN.heard;
    assert ars[..0] == [];
    OneTurn(1, FRESH_LINE[1], GATEWAY_TURN);
    TurnExtendsHistogram(FRESH_LINE[1], [], ars);
    FewHeartbeats([GATEWAY_RING]);
    FittingLowest([GATEWAY_RING]);
    Snoc([], GATEWAY_RING, 0);
    assert [] + [GATEWAY_RING] == [GATEWAY_RING];
  }

  lemma MiddleOfLine()
    ensures Looped(LINE, 1, FRESH_LINE, [GATEWAY_TURN], AfterPhase(1, FRESH_LINE[1], [GATEWAY_TURN]))
  {
    GatewayIsHeard();
    FewHeartbeats([GATEWAY_RING]);
    LowestIsLeast([GATEWAY_RING]);
    assert WithinHops(LINE, 0, 0) && Hop(LINE, 0, 1);
    assert WithinHops(LINE, 1, 1);
  }

  lemma SilentOnLine(v: Address)
    requires v in {0, 2}
    ensures Looped(LINE, v, FRESH_LINE, [SILENT_TURN], AfterPhase(v, FRESH_LINE[v], [SILENT_TURN]))
    ensures AfterPhase(v, FRESH_LINE[v], [SILENT_TURN]).ring == FRESH_LINE[v].ring
  {
    OneTurn(v, FRESH_LINE[v], SILENT_TURN);
    FewHeartbeats([]);
    FittingLowest([]);
    assert HeardRings(FRESH_LINE[v], []) == FRESH_LINE[v];
  }

  /** From the initial state of three nodes in a line, with the nodes that have no ring yet silent as they are: the
      middle node hears the gateway, and the phase is one of those that converge. */
  lemma FirstPhaseOfALine() returns (nodes: map<Address, RingState>)
    ensures ValidGraph(LINE) && SoundRings(LINE, FRESH_LINE) && LoopRound(LINE, FRESH_LINE, nodes)
    ensures nodes[1].ring == 1 && nodes[2].ring == UNKNOWN_RING
  {
    var middle := AfterPhase(1, FRESH_LINE[1], [GATEWAY_TURN]);
    nodes := map[0 := AfterPhase(0, FRESH_LINE[0], [SILENT_TURN]), 1 := middle,
                 2 := AfterPhase(2, FRESH_LINE[2], [SILENT_TURN])];
    assert WithinHops(LINE, 0, 0);
    GatewayIsHeard();
    MiddleOfLine();
    SilentOnLine(0);
    SilentOnLine(2);
  }
}
