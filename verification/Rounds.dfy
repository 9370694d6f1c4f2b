/** What one node does in the announcement and joining rounds of a superframe, step by step (multihop.cpp).
    Deadlines, random bytes, and what the link layer and the radio answer are inputs of the steps. */
module Rounds {
  import opened Bytes
  import opened Messages
  import opened SlotClock
  import opened State
  import opened Cluster
  import opened Candidates

  const NUM_ADV_ROUNDS := 3

  /** `Ready(k)` is the time before round `k`; advertising is over in `Ready(NUM_ADV_ROUNDS)`. */
  datatype Phase = Ready(round: nat) | Announcing(round: nat) | Joining(round: nat)

  /** A message on the air, and the phase in which its sender transmitted it. */
  datatype Transmission = Transmission(phase: Phase, message: Message)

  /** The local variables of `do_advertise` and of the two functions it calls in each round. */
  datatype Control = Control(
    phase: Phase, isClusterhead: bool,
    elected: bool, pending: bool,
    candidates: TopTwo, target: Address,
    targetRing: Ring, eligible: bool,
    tryToFollow: bool, joined: bool,
    triedSecond: bool)

  /** A node: its state, its control, its TX queue, and all it ever transmitted in this superframe.
      The last four fields are history: the followers it gave a slot to, whether it volunteered and got its
      announcement out in the round of its own ring, and the announcements it heard there from its own ring. */
  datatype Node = Node(
    s: NodeState, c: Control,
    queue: set<Message>, air: set<Transmission>,
    followers: seq<Address>, volunteered: bool,
    announced: bool, rivals: set<Transmission>)
  {
    /** Counts as clusterhead in this round. */
    predicate Stands() { c.elected || c.isClusterhead }
  }

  // ---- Before and after the rounds -----------------------------------------------------------------

  /** What `do_advertise` resets first. */
  function Entered(s: NodeState): NodeState {
    s.(role := if s.role == Gateway then Gateway else Role.Follower,
       clusterheadAddr := UNKNOWN_ADDR, clusterheadRing := UNKNOWN_RING,
       upstreamStartSlot := 0, upstreamRelativeSlot := 0, upstreamAckSlot := 0,
       acks := seq(|s.acks|, _ => 0))
  }

  /** The credit bookkeeping at the end of `do_advertise`. */
  function Credited(s: NodeState): NodeState {
    if s.role == Gateway then s
    else if s.ActsAsClusterhead() then s.(chCredit := 0)
    else if s.chCredit < 255 then s.(chCredit := s.chCredit + 1)
    else s
  }

  const AT_START :=
    Control(Ready(0), false, false, false, NO_CANDIDATES, UNKNOWN_ADDR, UNKNOWN_RING, false, false, false, false)

  // ---- Sending ---------------------------------------------------------------------------------------

  function Queued(n: Node, body: Body, now: U32, fits: bool): Node {
    if fits then n.(queue := n.queue + {Message(now, n.s.address, body)}) else n
  }

  /** A flush transmits all that is queued, whatever it is. */
  function Flushed(n: Node, sent: bool): Node {
    if sent then n.(queue := {}, air := n.air + set m | m in n.queue :: Transmission(n.c.phase, m)) else n
  }

  // ---- Announcement ----------------------------------------------------------------------------------

  function StartAnnouncing(mac: MacParams, n: Node, draw: Byte): Node
    requires CanAccept(mac, n.s)
  {
    var round := n.c.phase.round;
    var wins := n.s.rings.ring as nat == round && (n.s.role == Gateway || Volunteers(n.s, draw));
    var first := wins && !n.c.isClusterhead;
    n.(s := if first then Prepared(mac, n.s.(role := if n.s.role == Gateway then Gateway else Clusterhead)) else n.s,
       c := n.c.(phase := Announcing(round), elected := wins, pending := first, candidates := NO_CANDIDATES),
       volunteered := n.volunteered || wins)
  }

  function Announce(n: Node, now: U32, fits: bool, sent: bool): Node {
    var q := Queued(n, OpenCluster(n.s.rings.ring, n.s.address, n.s.rings.neighbors), now, fits);
    if !fits || !sent then q
    else
      var f := Flushed(q, true);
      f.(c := f.c.(pending := false), announced := true)
  }

  function HearAnnouncement(n: Node, t: Transmission): Node {
    var m := t.message;
    if !m.body.OpenCluster? || m.src == n.s.address then n
    else
      var rival := m.body.ring == n.s.rings.ring;
      var loses := n.c.elected && rival && (n.c.pending || n.s.address < m.src);
      var candidate := Candidate(m.src, m.body.ring, Score(m.body.neighbors, m.body.ring));
      n.(c := n.c.(candidates := Update(n.c.candidates, candidate),
                   elected := n.c.elected && !loses, pending := n.c.pending && !loses),
         rivals := if rival && n.c.phase == Announcing(m.body.ring as nat) then n.rivals + {t} else n.rivals)
  }

  // ---- Joining ---------------------------------------------------------------------------------------

  /** A candidate is worth following only if it is closer to the gateway. */
  function Aim(own: Ring, c: Candidate): (Address, Ring) {
    if own != UNKNOWN_RING && c.ring >= own then (UNKNOWN_ADDR, UNKNOWN_RING) else (c.address, c.ring)
  }

  function StartJoining(n: Node): Node {
    var aim := Aim(n.s.rings.ring, n.c.candidates.first);
    var eligible := n.s.ActsAsFollower();
    n.(c := n.c.(phase := Joining(n.c.phase.round), isClusterhead := n.c.isClusterhead || n.c.elected, pending := false,
                 target := aim.0, targetRing := aim.1,
                 eligible := eligible, tryToFollow := eligible, joined := false, triedSecond := false))
  }

  function FollowTarget(n: Node, now: U32, fits: bool, sent: bool): Node {
    var f := if n.c.target == UNKNOWN_ADDR then n
             else Flushed(Queued(n, Follow(n.c.target, n.s.address), now, fits), sent);
    f.(c := f.c.(tryToFollow := false))
  }

  function GrantTo(mac: MacParams, n: Node, follower: Address): Node
    requires CanAccept(mac, n.s)
  {
    var s := Accepted(mac, n.s, follower);
    n.(s := s, followers := if s.slotsAssigned > n.s.slotsAssigned then n.followers + [follower] else n.followers)
  }

  function AnswerFollow(mac: MacParams, n: Node, follower: Address, now: U32, fits: bool, sent: bool): Node
    requires CanAccept(mac, n.s)
  {
    Flushed(Queued(GrantTo(mac, n, follower), AcceptBody(mac, n.s, follower, now), now, fits), sent)
  }

  function Attached(mac: MacParams, n: Node, start: Byte, relative: Byte): NodeState
    requires Slotted(mac)
  {
    n.s.(clusterheadRing := n.c.targetRing, clusterheadAddr := n.c.target,
         upstreamStartSlot := start, upstreamRelativeSlot := relative, upstreamAckSlot := AckSlot(mac, start))
  }

  /** A new member may become a clusterhead itself, but only if it is none yet. */
  function Join(mac: MacParams, n: Node, start: Byte, relative: Byte, draw: Byte): Node
    requires CanAccept(mac, n.s)
  {
    var s := Attached(mac, n, start, relative);
    n.(s := if !s.ActsAsClusterhead() && Volunteers(s, draw) then Prepared(mac, s.(role := Clusterhead)) else s,
       c := n.c.(joined := true))
  }

  function TrySecond(n: Node): Node {
    if n.c.triedSecond then n
    else
      var aim := Aim(n.s.rings.ring, n.c.candidates.second);
      n.(c := n.c.(triedSecond := true, target := aim.0, targetRing := aim.1,
                   tryToFollow := n.c.tryToFollow || aim.0 != UNKNOWN_ADDR))
  }

  predicate AsksMe(n: Node, m: Message) {
    n.c.isClusterhead && m.body.Follow? && m.body.clusterhead == n.s.address
  }

  predicate AnswersMe(n: Node, m: Message) {
    !n.c.joined && n.c.eligible && m.body.Accept? && m.src == n.c.target && m.body.follower == n.s.address
  }

  function HearWhileJoining(mac: MacParams, n: Node, m: Message, now: U32, draw: Byte, fits: bool, sent: bool): Node
    requires CanAccept(mac, n.s)
  {
    if AsksMe(n, m) then AnswerFollow(mac, n, m.src, now, fits, sent)
    else if !AnswersMe(n, m) then n
    else if m.body.accepted then Join(mac, n, m.body.startSlot, m.body.relativeSlot, draw)
    else TrySecond(n)
  }

  // ---- Steps -----------------------------------------------------------------------------------------

  /** `fits` and `sent` are what `link::sendmsg` and `link::flush` report. */
  datatype Event =
    | StartRound(draw: Byte)
    | AnnounceDue(now: U32, fits: bool, sent: bool)
    | AnnounceOver
    | FollowDue(now: U32, fits: bool, sent: bool)
    | Hear(t: Transmission, now: U32, draw: Byte, fits: bool, sent: bool)
    | JoinOver

  predicate Enabled(n: Node, e: Event) {
    match e
    case StartRound(_) => n.c.phase.Ready? && n.c.phase.round < NUM_ADV_ROUNDS
    case AnnounceDue(_, _, _) => n.c.phase.Announcing? && n.c.pending
    case AnnounceOver => n.c.phase.Announcing?
    case FollowDue(_, _, _) => n.c.phase.Joining? && n.c.tryToFollow
    case Hear(_, _, _, _, _) => !n.c.phase.Ready?
    case JoinOver => n.c.phase.Joining?
  }

  function React(mac: MacParams, n: Node, e: Event): (n': Node)
    requires CanAccept(mac, n.s) && Enabled(n, e)
    ensures CanAccept(mac, n'.s)
  {
    match e
    case StartRound(draw) => StartAnnouncing(mac, n, draw)
    case AnnounceDue(now, fits, sent) => Announce(n, now, fits, sent)
    case AnnounceOver => StartJoining(n)
    case FollowDue(now, fits, sent) => FollowTarget(n, now, fits, sent)
    case Hear(t, now, draw, fits, sent) =>
      if n.c.phase.Announcing? then HearAnnouncement(n, t)
      else HearWhileJoining(mac, n, t.message, now, draw, fits, sent)
    case JoinOver => n.(c := n.c.(phase := Ready(n.c.phase.round + 1)))
  }

  /** A node after a whole sequence of events; those that cannot happen to it are passed over. */
  function RunEvents(mac: MacParams, n: Node, es: seq<Event>): (n': Node)
    requires CanAccept(mac, n.s)
    ensures CanAccept(mac, n'.s)
  {
    if es == [] then n
    else
      var m := RunEvents(mac, n, es[..|es| - 1]);
      if Enabled(m, es[|es| - 1]) then React(mac, m, es[|es| - 1]) else m
  }

  lemma RunSnoc(mac: MacParams, n: Node, es: seq<Event>, e: Event)
    requires CanAccept(mac, n.s)
    ensures var m := RunEvents(mac, n, es);
      RunEvents(mac, n, es + [e]) == if Enabled(m, e) then React(mac, m, e) else m
  {
    assert (es + [e])[..|es|] == es;
  }

  /** A node behind neighbour discovery, which left the given messages queued and on the air. */
  function Entering(s: NodeState, queue: set<Message>, air: set<Transmission>): Node {
    Node(s, AT_START, queue, air, [], false, false, {})
  }
}
