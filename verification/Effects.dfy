/** What the steps of advertising say, whom a node asks, how far it reads while joining, and what a superframe leaves at
    a node (multihop.cpp). */
module Effects {
  import opened Bytes
  import opened Messages
  import opened SlotClock
  import opened State
  import opened Cluster
  import opened Candidates
  import opened Rounds
  import opened Stations
  import opened Loops
  import opened JoinLoop
  import opened Advertise
  import DiscoveryLoop

  // ---- The start of a superframe ---------------------------------------------------------------------

  predicate NobodysMember(s: NodeState) {
    && s.clusterheadAddr == 255 && s.clusterheadRing == 255
    && s.upstreamStartSlot == 0 && s.upstreamRelativeSlot == 0 && s.upstreamAckSlot == 0
  }

  /** Before the rounds every node is nobody's member, has no clusterhead role and no acks, and counts as no
      clusterhead; address, credit, probability and slot table are as before. */
  lemma AdvertisingForgets(s: NodeState, queue: set<Message>, air: set<Transmission>,
                           turns: seq<DiscoveryLoop.FindTurn>)
    ensures var n := Found(s, queue, air, turns);
      && NobodysMember(n.s) && n.s.role == (if s.role == Gateway then Gateway else Role.Follower)
      && |n.s.acks| == |s.acks| && (forall i | 0 <= i < |n.s.acks| :: n.s.acks[i] == 0)
      && n.c.phase == Ready(0) && !n.Stands() && n.followers == []
      && n.s.address == s.address && n.s.chCredit == s.chCredit && n.s.clusterheadP == s.clusterheadP
      && n.s.slotAssignments == s.slotAssignments && n.s.slotsAssigned == s.slotsAssigned
      && n.s.downstreamStartSlot == s.downstreamStartSlot
  {
  }

  // ---- What is said ----------------------------------------------------------------------------------

  /** From `n` to `n'` the message is queued if it fits; everything that is queued then is on the air if `sent`. */
  predicate Utters(n: Node, n': Node, m: Message, fits: bool, sent: bool) {
    var q := if fits then n.queue + {m} else n.queue;
    if sent then n'.queue == {} && n'.air == n.air + Tagged(n.c.phase, q)
    else n'.queue == q && n'.air == n.air
  }

  predicate Silent(n: Node, n': Node) { n'.queue == n.queue && n'.air == n.air }

  /** A follower's request for this node, while it counts as clusterhead. */
  predicate IsRequest(n: Node, m: Message) {
    n.c.isClusterhead && m.body.Follow? && m.body.clusterhead == n.s.address
  }

  /** A due announcement is an OpenCluster with the node's ring, address and neighbours, flushed if it fits and repeated
      until it is on the air; a due request is a Follow for the target, if there is one, flushed in any case, and made
      once; a request from somebody else is answered at once, flushed in any case. No other step says anything. */
  lemma SaysIff(mac: MacParams, n: Node, e: Event)
    requires CanAccept(mac, n.s) && Enabled(n, e)
    ensures var n' := React(mac, n, e);
      match e
      case AnnounceDue(now, fits, sent) =>
        && Utters(n, n', Message(now, n.s.address, OpenCluster(n.s.rings.ring, n.s.address, n.s.rings.neighbors)), fits,
                  fits && sent)
        && n'.c.pending == !(fits && sent) && n'.s == n.s
      case FollowDue(now, fits, sent) =>
        && (if n.c.target == 255 then Silent(n, n')
            else Utters(n, n', Message(now, n.s.address, Follow(n.c.target, n.s.address)), fits, sent))
        && !n'.c.tryToFollow && n'.s == n.s
      case Hear(t, now, _, fits, sent) =>
        if n.c.phase.Joining? && IsRequest(n, t.message) then
          Utters(n, n', Message(now, n.s.address, AcceptBody(mac, n.s, t.message.src, now)), fits, sent)
        else Silent(n, n')
      case _ => Silent(n, n')
  {
    match e
    case AnnounceDue(now, fits, sent) =>
      var m := Message(now, n.s.address, OpenCluster(n.s.rings.ring, n.s.address, n.s.rings.neighbors));
      FlushIsTagged(n.(queue := n.queue + {m}));
    case FollowDue(now, fits, sent) =>
      FlushIsTagged(n);
      FlushIsTagged(n.(queue := n.queue + {Message(now, n.s.address, Follow(n.c.target, n.s.address))}));
    case Hear(t, now, _, fits, sent) =>
      FlushIsTagged(n);
      FlushIsTagged(n.(queue := n.queue + {Message(now, n.s.address, AcceptBody(mac, n.s, t.message.src, now))}));
    case _ =>
  }

  lemma FlushIsTagged(n: Node)
    ensures Flushed(n, true).queue == {} && Flushed(n, true).air == n.air + Tagged(n.c.phase, n.queue)
  {
  }

  /** The answer names the follower and the time. It accepts if and only if the follower is listed in the table or the
      window has a free slot; then it tells the start of the window and the entry in which the follower is listed. */
  lemma AnswerIs(mac: MacParams, s: NodeState, f: Address, now: U32)
    requires CanAccept(mac, s)
    ensures var b, used, after := AcceptBody(mac, s, f, now), s.slotsAssigned as nat, Accepted(mac, s, f);
      && b.Accept? && b.follower == f && b.remoteTime == now
      && (b.accepted <==>
            f in s.slotAssignments[..used] || used < (mac.slotCount as nat - 1) / mac.reuseDistance as nat)
      && (b.accepted ==>
            b.startSlot == s.downstreamStartSlot && b.relativeSlot <= s.slotsAssigned
              && after.slotAssignments[b.relativeSlot] == f && f !in s.slotAssignments[..b.relativeSlot])
      && (!b.accepted ==> b.startSlot == 0 && b.relativeSlot == 0)
  {
    AnswerByTable(mac, s, f, now, FindFrom(s.slotAssignments, 0, s.slotsAssigned as nat, f));
    ListedIff(s.slotAssignments, s.slotsAssigned as nat, f);
    WindowOf(mac);
  }

  lemma WindowOf(mac: MacParams)
    requires Slotted(mac)
    ensures WindowSize(mac) as nat == (mac.slotCount as nat - 1) / mac.reuseDistance as nat
  {
  }

  /** `i` is where the follower is listed, or the number of used slots. */
  lemma AnswerByTable(mac: MacParams, s: NodeState, f: Address, now: U32, i: nat)
    requires CanAccept(mac, s) && i == FindFrom(s.slotAssignments, 0, s.slotsAssigned as nat, f)
    ensures i < s.slotsAssigned as nat || s.slotsAssigned < WindowSize(mac) ==>
      && AcceptBody(mac, s, f, now) == Accept(true, f, s.downstreamStartSlot, i, now)
      && i < |s.slotAssignments| && Accepted(mac, s, f).slotAssignments[i] == f
    ensures i >= s.slotsAssigned as nat && s.slotsAssigned >= WindowSize(mac) ==>
      AcceptBody(mac, s, f, now) == Accept(false, f, 0, 0, now)
  {
    AcceptedByTable(mac, s, f, now);
    if i < s.slotsAssigned as nat {
      assert Accepted(mac, s, f) == s && s.slotAssignments[i] == f;
    } else if s.slotsAssigned < WindowSize(mac) {
      assert Accepted(mac, s, f).slotAssignments == s.slotAssignments[i := f];
    }
  }

  lemma ListedIff(slots: seq<Address>, used: nat, f: Address)
    requires used <= |slots|
    ensures var i := FindFrom(slots, 0, used, f); (i < used <==> f in slots[..used]) && f !in slots[..i]
  {
    var i := FindFrom(slots, 0, used, f);
    if i < used { assert slots[..used][i] == f; }
  }

  // ---- Whom a node asks ------------------------------------------------------------------------------

  /** The announcements of others among `ts`, in order. */
  function Announced(self: Address, ts: seq<Transmission>): seq<Candidate> {
    if ts == [] then []
    else Announced(self, ts[..|ts| - 1]) + CandidateOf(self, ts[|ts| - 1].message)
  }

  function CandidateOf(self: Address, m: Message): seq<Candidate> {
    if m.body.OpenCluster? && m.src != self then [Candidate(m.src, m.body.ring, Score(m.body.neighbors, m.body.ring))]
    else []
  }

  function AnnouncedIn(self: Address, turns: seq<AnnounceTurn>): seq<Candidate> {
    if turns == [] then []
    else AnnouncedIn(self, turns[..|turns| - 1]) + Announced(self, turns[|turns| - 1].heard)
  }

  lemma HearingCollectsOne(n: Node, cs: seq<Candidate>, t: Transmission)
    requires n.c.candidates == UpdateAll(cs)
    ensures HearAnnouncement(n, t).c.candidates == UpdateAll(cs + CandidateOf(n.s.address, t.message))
  {
    var found := CandidateOf(n.s.address, t.message);
    if found == [] {
      assert cs + found == cs;
    } else {
      assert (cs + found)[..|cs|] == cs;
    }
  }

  lemma {:induction false} HearingCollects(n: Node, cs: seq<Candidate>, ts: seq<Transmission>)
    requires n.c.candidates == UpdateAll(cs)
    ensures HearAnnouncements(n, ts).c.candidates == UpdateAll(cs + Announced(n.s.address, ts))
  {
    if ts == [] {
      assert cs + [] == cs;
    } else {
      var init := ts[..|ts| - 1];
      HearingCollects(n, cs, init);
      HearingKeepsTx(n, init);
      var before, last := Announced(n.s.address, init), ts[|ts| - 1];
      HearingCollectsOne(HearAnnouncements(n, init), cs + before, last);
      Regroup(cs, before, CandidateOf(n.s.address, last.message));
    }
  }

  lemma {:induction false} TurnsCollect(n: Node, turns: seq<AnnounceTurn>)
    requires n.c.candidates == NO_CANDIDATES
    ensures var n' := AnnounceTurns(n, turns);
      n'.s == n.s && n'.c.candidates == UpdateAll(AnnouncedIn(n.s.address, turns))
        && n'.c.isClusterhead == n.c.isClusterhead
  {
    if turns != [] {
      var init, t := turns[..|turns| - 1], turns[|turns| - 1];
      TurnsCollect(n, init);
      var m := AnnounceTurns(n, init);
      var said := if m.c.pending && t.due then Announce(m, t.now, t.fits, t.sent) else m;
      HearingCollects(said, AnnouncedIn(n.s.address, init), t.heard);
      HearingKeepsTx(said, t.heard);
      HearingKeepsEarlier(said, t.heard);
    }
  }

  predicate Closer(own: Ring, c: Candidate) { own == 255 || c.ring < own }

  /** When joining begins, a node that may follow is about to ask the best of all announcements by others that it heard
      in this round, if that is closer to the gateway, and nobody otherwise. What it heard in earlier rounds is
      forgotten. The gateway asks nobody. Whoever counted as clusterhead before still does. */
  lemma AsksBestHeard(mac: MacParams, n: Node, r: RoundScript)
    requires CanAccept(mac, n.s) && n.c.phase.Ready?
    ensures var best := UpdateAll(AnnouncedIn(n.s.address, r.announcing)).first;
      var heard := AnnounceTurns(StartAnnouncing(mac, n, r.draw), r.announcing);
      var c := StartJoining(heard).c;
      && c.isClusterhead == (heard.c.elected || n.c.isClusterhead)
      && c.candidates == UpdateAll(AnnouncedIn(n.s.address, r.announcing))
      && c.target == (if Closer(n.s.rings.ring, best) then best.address else 255)
      && c.targetRing == (if Closer(n.s.rings.ring, best) then best.ring else 255)
      && (n.s.role in {Role.Follower, Clusterhead} ==> c.eligible && c.tryToFollow)
      && (n.s.role == Gateway ==> !c.eligible && !c.tryToFollow)
      && !c.joined && !c.triedSecond && !c.pending
  {
    TurnsCollect(StartAnnouncing(mac, n, r.draw), r.announcing);
  }

  /** The answer to the node's own request, from the one that it asked. */
  predicate IsAnswerTo(n: Node, m: Message) {
    n.c.eligible && !n.c.joined && m.body.Accept? && m.src == n.c.target && m.body.follower == n.s.address
  }

  /** The first refusal makes a node ask the second best, if that is closer to the gateway, and nobody otherwise; a
      later one changes nothing. */
  lemma RefusalMovesOn(mac: MacParams, n: Node, e: Event)
    requires CanAccept(mac, n.s) && Enabled(n, e) && n.c.phase.Joining? && e.Hear?
    requires IsAnswerTo(n, e.t.message) && !e.t.message.body.accepted
    ensures var n', next := React(mac, n, e), n.c.candidates.second;
      && n'.s == n.s
      && (n.c.triedSecond ==> n' == n)
      && (!n.c.triedSecond ==>
            && n'.c.triedSecond && n'.c.joined == n.c.joined
            && n'.c.target == (if Closer(n.s.rings.ring, next) then next.address else 255)
            && n'.c.targetRing == (if Closer(n.s.rings.ring, next) then next.ring else 255)
            && n'.c.tryToFollow == (n.c.tryToFollow || n'.c.target != 255))
  {
  }

  // ---- What is read of a frame -----------------------------------------------------------------------

  /** Message `i` refuses the node as it is when that message comes. */
  predicate RefusedAt(mac: MacParams, n: Node, ars: seq<Arrival>, i: nat)
    requires CanAccept(mac, n.s) && i < |ars|
  {
    var m, now := ars[i].t.message, HearArrivals(mac, n, ars[..i]);
    IsAnswerTo(now, m) && !m.body.accepted
  }

  /** The arrivals are the first of the messages `ms`, decoded; time and random byte of each are those given for it,
      from number `k` on. */
  predicate ReadFirst(phase: Phase, ms: seq<seq<Byte>>, ars: seq<Arrival>, answers: seq<AnswerEnv>, k: nat) {
    && |ars| <= |ms|
    && (forall i | 0 <= i < |ars| :: Decode(ms[i]) == Some(ars[i].t.message) && ars[i].t.phase == phase)
    && (forall i | 0 <= i < |ars| && k + i < |answers| ::
          ars[i].now == answers[k + i].now && ars[i].draw == answers[k + i].draw)
  }

  /** Reading stops at the first message that does not decode, behind the first refusal, and nowhere else. */
  predicate StopsOnly(mac: MacParams, n: Node, ms: seq<seq<Byte>>, ars: seq<Arrival>)
    requires CanAccept(mac, n.s)
  {
    && (forall i | 0 <= i < |ars| - 1 :: !RefusedAt(mac, n, ars, i))
    && (|ars| < |ms| ==> Decode(ms[|ars|]).None? || (ars != [] && RefusedAt(mac, n, ars, |ars| - 1)))
  }

  /** While joining, a node reads the messages of a frame one after the other, up to the first that does not decode or
      refuses it; if there is none, it reads them all. */
  lemma {:induction false} ReadsUntil(mac: MacParams, p: Setup, x: Party, answers: seq<AnswerEnv>, k: nat)
    requires CanAccept(mac, x.n.s) && p.tm.Valid()
    ensures ReadFirst(x.v.rxPhase, x.v.unread, ArrivalsOf(mac, p, x, answers, k), answers, k)
    ensures StopsOnly(mac, x.n, x.v.unread, ArrivalsOf(mac, p, x, answers, k))
    decreases |x.v.unread|
  {
    if x.v.unread != [] && Decode(x.v.unread[0]).Some? {
      var (next, stop) := ReadStep(mac, p, x, answers, k);
      var a := ArrivalOf(mac, p, Taken(x), Decode(x.v.unread[0]).value, AnswerAt(answers, k));
      if stop {
        assert [a][..0] == [];
      } else {
        ReadsUntil(mac, p, next, answers, k + 1);
        ReadFirstMore(x.v.rxPhase, x.v.unread, a, ArrivalsOf(mac, p, next, answers, k + 1), answers, k);
        StopsLater(mac, x.n, x.v.unread, a, ArrivalsOf(mac, p, next, answers, k + 1));
      }
    }
  }

  lemma ReadFirstMore(phase: Phase, ms: seq<seq<Byte>>, a: Arrival, rest: seq<Arrival>, answers: seq<AnswerEnv>, k: nat)
    requires ms != [] && Decode(ms[0]) == Some(a.t.message) && a.t.phase == phase
    requires k < |answers| ==> a.now == answers[k].now && a.draw == answers[k].draw
    requires ReadFirst(phase, ms[1..], rest, answers, k + 1)
    ensures ReadFirst(phase, ms, [a] + rest, answers, k)
  {
    var ars := [a] + rest;
    forall i | 0 < i < |ars| ensures Decode(ms[i]) == Some(ars[i].t.message) && ars[i].t.phase == phase {
      assert ms[i] == ms[1..][i - 1] && ars[i] == rest[i - 1];
    }
    forall i | 0 < i < |ars| && k + i < |answers|
      ensures ars[i].now == answers[k + i].now && ars[i].draw == answers[k + i].draw
    {
      assert ars[i] == rest[i - 1] && answers[k + i] == answers[k + 1 + (i - 1)];
    }
  }

  lemma RefusedLater(mac: MacParams, n: Node, a: Arrival, rest: seq<Arrival>, i: nat)
    requires CanAccept(mac, n.s) && i < |rest|
    ensures RefusedAt(mac, n, [a] + rest, i + 1) <==> RefusedAt(mac, HearArrival(mac, n, a), rest, i)
  {
    var ars := [a] + rest;
    assert ars[..i + 1][0] == a && ars[..i + 1][1..] == rest[..i];
  }

  lemma StopsLater(mac: MacParams, n: Node, ms: seq<seq<Byte>>, a: Arrival, rest: seq<Arrival>)
    requires CanAccept(mac, n.s) && ms != [] && |rest| < |ms|
    requires StopsOnly(mac, HearArrival(mac, n, a), ms[1..], rest)
    requires !(IsAnswerTo(n, a.t.message) && !a.t.message.body.accepted)
    ensures StopsOnly(mac, n, ms, [a] + rest)
  {
    var ars := [a] + rest;
    assert ars[..0] == [];
    forall i | 0 <= i < |rest|
      ensures RefusedAt(mac, n, ars, i + 1) <==> RefusedAt(mac, HearArrival(mac, n, a), rest, i)
    {
      RefusedLater(mac, n, a, rest, i);
    }
    forall i | 0 <= i < |ars| - 1 ensures !RefusedAt(mac, n, ars, i) {
      if i > 0 { assert !RefusedAt(mac, HearArrival(mac, n, a), rest, i - 1); }
    }
  }

  // ---- The end of a superframe -----------------------------------------------------------------------

  /** Event `i` accepts the node. */
  predicate JoinsAt(mac: MacParams, n: Node, es: seq<Event>, i: nat)
    requires CanAccept(mac, n.s) && i < |es|
  {
    var now := RunEvents(mac, n, es[..i]);
    now.c.phase.Joining? && es[i].Hear? && IsAnswerTo(now, es[i].t.message) && es[i].t.message.body.accepted
  }

  /** The upstream fields are those of the answer that event `i` was, from the one that was asked. */
  predicate HoldsAnswerOf(mac: MacParams, n: Node, es: seq<Event>, i: nat, s: NodeState)
    requires CanAccept(mac, n.s) && i < |es| && JoinsAt(mac, n, es, i)
  {
    var now, answer := RunEvents(mac, n, es[..i]), es[i].t.message;
    && s.clusterheadAddr == now.c.target == answer.src && s.clusterheadRing == now.c.targetRing
    && s.upstreamStartSlot == answer.body.startSlot && s.upstreamRelativeSlot == answer.body.relativeSlot
    && s.upstreamAckSlot as int
         == (answer.body.startSlot as int + (mac.slotCount as int - 1) / mac.reuseDistance as int - 1) % 256
  }

  /** Event `i` is the last that accepts the node; none does if `i` is -1. */
  ghost predicate IsLastJoin(mac: MacParams, n: Node, es: seq<Event>, i: int)
    requires CanAccept(mac, n.s)
  {
    && -1 <= i < |es| && (forall j | i < j < |es| :: !JoinsAt(mac, n, es, j))
    && (i >= 0 ==> JoinsAt(mac, n, es, i))
  }

  /** The upstream fields are those of the last answer that accepted the node, or nobody's member's. */
  ghost predicate HoldsLast(mac: MacParams, n: Node, es: seq<Event>, i: int, s: NodeState)
    requires CanAccept(mac, n.s) && IsLastJoin(mac, n, es, i)
  {
    if i < 0 then NobodysMember(s) else HoldsAnswerOf(mac, n, es, i, s)
  }

  /** Whatever happens in the rounds, a node holds the upstream fields of the last answer that accepted it, and is
      nobody's member if there was none. */
  lemma {:induction false} UpstreamIsLastAnswer(mac: MacParams, n: Node, es: seq<Event>) returns (i: int)
    requires CanAccept(mac, n.s) && NobodysMember(n.s)
    ensures IsLastJoin(mac, n, es, i) && HoldsLast(mac, n, es, i, RunEvents(mac, n, es).s)
  {
    if es == [] {
      i := -1;
    } else {
      var k := |es| - 1;
      i := UpstreamIsLastAnswer(mac, n, es[..k]);
      LastJoinGoesOn(mac, n, es, i);
      if JoinsAt(mac, n, es, k) {
        AnswerAttaches(mac, n, es, k);
        i := k;
      } else {
        NextKeepsUpstream(mac, n, es);
        if i >= 0 { UpstreamStays(mac, n, es, i, RunEvents(mac, n, es[..k]).s, RunEvents(mac, n, es).s); }
      }
    }
  }

  lemma LastJoinGoesOn(mac: MacParams, n: Node, es: seq<Event>, i: int)
    requires CanAccept(mac, n.s) && es != [] && IsLastJoin(mac, n, es[..|es| - 1], i)
    ensures IsLastJoin(mac, n, es, if JoinsAt(mac, n, es, |es| - 1) then |es| - 1 else i)
  {
    forall j | 0 <= j < |es| - 1 ensures JoinsAt(mac, n, es, j) <==> JoinsAt(mac, n, es[..|es| - 1], j) {
      assert es[..j] == es[..|es| - 1][..j];
    }
  }

  predicate SameUpstream(s: NodeState, s': NodeState) {
    && s'.clusterheadAddr == s.clusterheadAddr && s'.clusterheadRing == s.clusterheadRing
    && s'.upstreamStartSlot == s.upstreamStartSlot && s'.upstreamRelativeSlot == s.upstreamRelativeSlot
    && s'.upstreamAckSlot == s.upstreamAckSlot
  }

  lemma UpstreamStays(mac: MacParams, n: Node, es: seq<Event>, i: nat, s: NodeState, s': NodeState)
    requires CanAccept(mac, n.s) && i < |es| - 1 && JoinsAt(mac, n, es[..|es| - 1], i) && SameUpstream(s, s')
    requires HoldsAnswerOf(mac, n, es[..|es| - 1], i, s)
    ensures JoinsAt(mac, n, es, i) && HoldsAnswerOf(mac, n, es, i, s')
  {
    assert es[..i] == es[..|es| - 1][..i];
  }

  lemma NextKeepsUpstream(mac: MacParams, n: Node, es: seq<Event>)
    requires CanAccept(mac, n.s) && es != [] && !JoinsAt(mac, n, es, |es| - 1)
    ensures SameUpstream(RunEvents(mac, n, es[..|es| - 1]).s, RunEvents(mac, n, es).s)
  {
    var before, e := RunEvents(mac, n, es[..|es| - 1]), es[|es| - 1];
    if Enabled(before, e) { OnlyAnswersAttach(mac, before, e); }
  }

  lemma AnswerAttaches(mac: MacParams, n: Node, es: seq<Event>, k: nat)
    requires CanAccept(mac, n.s) && k == |es| - 1 && JoinsAt(mac, n, es, k)
    ensures HoldsAnswerOf(mac, n, es, k, RunEvents(mac, n, es).s)
  {
    JoinAttaches(mac, RunEvents(mac, n, es[..k]), es[k]);
    LastSlotOfWindow(mac, es[k].t.message.body.startSlot);
  }

  lemma JoinAttaches(mac: MacParams, n: Node, e: Event)
    requires CanAccept(mac, n.s) && n.c.phase.Joining? && e.Hear?
    requires IsAnswerTo(n, e.t.message) && e.t.message.body.accepted
    ensures var s, answer := React(mac, n, e).s, e.t.message;
      && s.clusterheadAddr == n.c.target && s.clusterheadRing == n.c.targetRing
      && s.upstreamStartSlot == answer.body.startSlot && s.upstreamRelativeSlot == answer.body.relativeSlot
      && s.upstreamAckSlot == AckSlot(mac, answer.body.startSlot)
  {
  }

  lemma LastSlotOfWindow(mac: MacParams, start: Byte)
    requires Slotted(mac)
    ensures AckSlot(mac, start) as int
         == (start as int + (mac.slotCount as int - 1) / mac.reuseDistance as int - 1) % 256
  {
  }

  lemma OnlyAnswersAttach(mac: MacParams, n: Node, e: Event)
    requires CanAccept(mac, n.s) && Enabled(n, e)
    requires !(n.c.phase.Joining? && e.Hear? && IsAnswerTo(n, e.t.message) && e.t.message.body.accepted)
    ensures SameUpstream(n.s, React(mac, n, e).s)
  {
  }

  predicate SamePerson(s: NodeState, s': NodeState) {
    && s'.address == s.address && s'.clusterheadP == s.clusterheadP && s'.chCredit == s.chCredit
    && (s'.role == Gateway <==> s.role == Gateway)
  }

  lemma {:induction false} RunIsSamePerson(mac: MacParams, n: Node, es: seq<Event>)
    requires CanAccept(mac, n.s)
    ensures SamePerson(n.s, RunEvents(mac, n, es).s)
  {
    if es != [] {
      var init, e := es[..|es| - 1], es[|es| - 1];
      RunIsSamePerson(mac, n, init);
      if Enabled(RunEvents(mac, n, init), e) { StepIsSamePerson(mac, RunEvents(mac, n, init), e); }
    }
  }

  lemma StepIsSamePerson(mac: MacParams, n: Node, e: Event)
    requires CanAccept(mac, n.s) && Enabled(n, e)
    ensures SamePerson(n.s, React(mac, n, e).s)
  {
  }

  /** After a whole superframe a node that ends as clusterhead has no credit, any other but the gateway has one more, up
      to 255; the gateway's is left alone. */
  lemma SuperframeSettlesCredit(mac: MacParams, s: NodeState, queue: set<Message>, air: set<Transmission>,
                                script: Script)
    requires CanAccept(mac, s) && |script.rounds| <= NUM_ADV_ROUNDS
    ensures var s' := Credited(AfterScript(mac, s, queue, air, script).s);
      && s'.address == s.address && s'.clusterheadP == s.clusterheadP && (s'.role == Gateway <==> s.role == Gateway)
      && s'.chCredit as int == (if s.role == Gateway then s.chCredit as int
                                else if s'.role == Clusterhead then 0
                                else if s.chCredit == 255 then 255 else s.chCredit as int + 1)
  {
    var n := Found(s, queue, air, script.finding);
    RoundsAreRun(mac, n, script.rounds);
    FoundIsSamePerson(s, queue, air, script.finding);
    RunIsSamePerson(mac, n, ScriptEvents(script.rounds));
    CreditIsSettled(s, AfterScript(mac, s, queue, air, script).s);
  }

  lemma FoundIsSamePerson(s: NodeState, queue: set<Message>, air: set<Transmission>, turns: seq<DiscoveryLoop.FindTurn>)
    ensures SamePerson(s, Found(s, queue, air, turns).s)
  {
  }

  lemma CreditIsSettled(s: NodeState, end: NodeState)
    requires SamePerson(s, end)
    ensures var s' := Credited(end);
      && s'.address == s.address && s'.clusterheadP == s.clusterheadP && (s'.role == Gateway <==> s.role == Gateway)
      && s'.chCredit as int == (if s.role == Gateway then s.chCredit as int
                                else if s'.role == Clusterhead then 0
                                else if s.chCredit == 255 then 255 else s.chCredit as int + 1)
  {
  }

  /** ... and its membership is that of the last answer that accepted it, or none. */
  lemma SuperframeSettlesMembership(mac: MacParams, s: NodeState, queue: set<Message>, air: set<Transmission>,
                                    script: Script)
    returns (i: int)
    requires CanAccept(mac, s) && |script.rounds| <= NUM_ADV_ROUNDS
    ensures var n, es := Found(s, queue, air, script.finding), ScriptEvents(script.rounds);
      var s' := Credited(AfterScript(mac, s, queue, air, script).s);
      IsLastJoin(mac, n, es, i) && HoldsLast(mac, n, es, i, s')
  {
    var n, es := Found(s, queue, air, script.finding), ScriptEvents(script.rounds);
    RoundsAreRun(mac, n, script.rounds);
    AdvertisingForgets(s, queue, air, script.finding);
    i := UpstreamIsLastAnswer(mac, n, es);
    CreditOnly(RunEvents(mac, n, es).s);
  }

  lemma CreditOnly(s: NodeState)
    ensures Credited(s) == s.(chCredit := Credited(s).chCredit)
  {
  }

  lemma {:induction false} RunKeepsRings(mac: MacParams, n: Node, es: seq<Event>)
    requires CanAccept(mac, n.s)
    ensures RunEvents(mac, n, es).s.rings == n.s.rings
  {
    if es != [] {
      var init, e := es[..|es| - 1], es[|es| - 1];
      RunKeepsRings(mac, n, init);
      if Enabled(RunEvents(mac, n, init), e) { StepKeepsRings(mac, RunEvents(mac, n, init), e); }
    }
  }

  lemma StepKeepsRings(mac: MacParams, n: Node, e: Event)
    requires CanAccept(mac, n.s) && Enabled(n, e)
    ensures React(mac, n, e).s.rings == n.s.rings
  {
  }

  /** Ring, histogram and hysteresis counter after a whole superframe are those that the discovery loop computed from
      the frames that it received, whatever happens in the rounds. */
  lemma SuperframeSettlesRing(mac: MacParams, p: Setup, s: NodeState, v: LinkView, plan: Plan)
    requires CanAccept(mac, s) && p.tm.Valid() && |plan.rounds| <= NUM_ADV_ROUNDS
    ensures Credited(AfterPlan(mac, p, s, v, plan).n.s).rings
         == DiscoveryLoop.FindSteps(p, s.address, DiscoveryLoop.Seeking(s.rings, v), plan.finding).f.rings
  {
    var script := ScriptOf(mac, p, s, v, plan);
    var n := Found(s, Decoded(v.queue), AirOf(v.frames), script.finding);
    PlanIsScript(mac, p, s, v, plan);
    RoundsAreRun(mac, n, script.rounds);
    RunKeepsRings(mac, n, ScriptEvents(script.rounds));
    DiscoveryLoop.FindStepsAreTurns(p, s.address, DiscoveryLoop.Seeking(s.rings, v), plan.finding);
    CreditOnly(AfterScript(mac, s, Decoded(v.queue), AirOf(v.frames), script).s);
  }
}
