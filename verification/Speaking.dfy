/** That the loops on the objects do what is due: which frames leave a node, what it takes in of the frames that come,
    and what a round decides (multihop.cpp). */
module Speaking {
  import opened Bytes
  import opened Messages
  import opened Frames
  import opened SlotClock
  import opened State
  import opened Cluster
  import opened Rounds
  import opened Link
  import opened Stations
  import opened Loops
  import opened JoinLoop
  import opened Advertise
  import opened Effects

  // ---- The link layer --------------------------------------------------------------------------------

  /** The message fits behind what is queued, and a flush at that moment finds the superframe window active and the
      radio ready. */
  predicate CanSend(p: Setup, q: seq<seq<Byte>>, m: Message, w: Window, moment: Moment)
    requires p.tm.Valid() && WellFormed(m)
  {
    && HasRoom(p, q, m) && var w' := Refresh(p.tm, w, moment.at); w'.start <= moment.at < w'.end && moment.radioOk
  }

  /** ... in bytes. */
  predicate HasRoom(p: Setup, q: seq<seq<Byte>>, m: Message)
    requires WellFormed(m)
  {
    Short(q) && 12 + |Pack(q)| + 1 + |Encode(m)| <= p.txSize && |Encode(m)| <= p.msgMax
  }

  lemma FitsIff(p: Setup, q: seq<seq<Byte>>, m: Message)
    requires WellFormed(m) && p.txSize <= 255
    ensures Fits(p, q, m) <==> HasRoom(p, q, m)
    ensures HasRoom(p, q, m) ==> FitsFrame(q + [Encode(m)], p.txSize)
  {
    if HasRoom(p, q, m) { PackSnoc(q, Encode(m)); }
  }

  /** What a message sent and flushed at once adds to the frames on the air: one frame with all that was queued and the
      message behind it, or nothing. */
  lemma SentIff(p: Setup, v: LinkView, m: Message, phase: Phase, moment: Moment)
    requires p.tm.Valid() && WellFormed(m) && p.txSize <= 255
    ensures HasRoom(p, v.queue, m) ==> FitsFrame(v.queue + [Encode(m)], 255)
    ensures var v' := FlushAt(p, SendTo(p, v, m), phase, moment);
      && v'.unread == v.unread && v'.rxPhase == v.rxPhase
      && (CanSend(p, v.queue, m, v.window, moment) ==>
            && v'.queue == []
            && v'.frames == v.frames
                 + [SentFrame(phase, Frame(v.queue + [Encode(m)], moment.senderTime, p.address))])
      && (HasRoom(p, v.queue, m) && !CanSend(p, v.queue, m, v.window, moment) ==>
            v'.queue == v.queue + [Encode(m)] && v'.frames == v.frames)
  {
    FitsIff(p, v.queue, m);
  }

  // ---- Announcing ------------------------------------------------------------------------------------

  /** A turn in which an announcement is pending and due puts it on the air behind everything that was queued, in one
      frame, if it fits, the window is active and the radio transmits; otherwise it stays pending and no frame leaves.
      Without one, no turn sends anything. */
  lemma DueAnnouncementGoesOut(p: Setup, x: Party, e: AnnounceEnv)
    requires p.tm.Valid() && p.txSize <= 255
    ensures var m := Message(e.now, x.n.s.address, OpenCluster(x.n.s.rings.ring, x.n.s.address, x.n.s.rings.neighbors));
      var y, w := AnnounceStep(p, x, e), Refresh(p.tm, x.v.window, e.reception.at);
      && (HasRoom(p, x.v.queue, m) ==> FitsFrame(x.v.queue + [Encode(m)], 255))
      && if x.n.c.pending && e.due && CanSend(p, x.v.queue, m, w, e.moment) then
           && y.v.frames == x.v.frames + [SentFrame(x.n.c.phase, Frame(x.v.queue + [Encode(m)], e.moment.senderTime,
                                                                       p.address))]
           && y.v.queue == [] && !y.n.c.pending
         else
           y.v.frames == x.v.frames
             && y.v.queue == x.v.queue + if x.n.c.pending && e.due && HasRoom(p, x.v.queue, m) then [Encode(m)] else []
  {
    var m := Message(e.now, x.n.s.address, OpenCluster(x.n.s.rings.ring, x.n.s.address, x.n.s.rings.neighbors));
    var v := ReceiveAt(p, x.v, e.reception);
    SentIff(p, v, m, x.n.c.phase, e.moment);
    FitsIff(p, v.queue, m);
    var made := Opened(p, x, e);
    HearingKeepsSilent(made.n, ReadAs(made.v.unread, made.v.rxPhase));
  }

  /** What the radio brings in an active window is a frame with the messages `ms`. */
  predicate Brings(p: Setup, w: Window, r: Reception, ms: seq<Message>, time: U32, sender: Address) {
    && Acceptable(ms) && FitsFrame(Encodings(ms), p.rxSize)
    && w.start <= r.at < w.end && r.radio == Heard(Frame(Encodings(ms), time, sender))
  }

  /** A turn of the announcement loop takes in all messages of the frame that it receives, in order. */
  lemma AnnouncingTurnHears(p: Setup, x: Party, e: AnnounceEnv, ms: seq<Message>, time: U32, sender: Address)
    requires p.tm.Valid() && Brings(p, Refresh(p.tm, x.v.window, e.reception.at), e.reception, ms, time, sender)
    ensures AnnounceStep(p, x, e).n == HearAnnouncements(Opened(p, x, e).n, SentIn(e.reception.phase, ms))
  {
    FrameIsRead(ms, time, sender, p.rxSize, e.reception.phase);
  }

  lemma {:induction false} HearingKeepsSilent(n: Node, ts: seq<Transmission>)
    ensures !n.c.pending ==> !HearAnnouncements(n, ts).c.pending
  {
    if ts != [] { HearingKeepsSilent(n, ts[..|ts| - 1]); }
  }

  /** Whatever is heard in an announcement phase, a node that does not stand yet has the clusterhead role behind it if
      it is the round of its ring and it volunteers with the byte that it drew at the start; the gateway keeps its
      role, and nobody loses it. Before anything is heard, exactly those stand that won. */
  lemma RoleAfterAnnouncing(mac: MacParams, p: Setup, x: Party, draw: Byte, es: seq<AnnounceEnv>)
    requires CanAccept(mac, x.n.s) && p.tm.Valid() && x.n.c.phase.Ready?
    ensures var s := AnnouncementPhase(mac, p, x, draw, es).n.s;
      var wins := x.n.s.rings.ring as nat == x.n.c.phase.round && (x.n.s.role == Gateway || Volunteers(x.n.s, draw));
      && s.role == (if wins && !x.n.c.isClusterhead && x.n.s.role != Gateway then Clusterhead else x.n.s.role)
      && (es == [] ==> (AnnouncementPhase(mac, p, x, draw, es).n.c.elected <==> wins))
  {
    AnnouncingKeepsState(p, x.(n := StartAnnouncing(mac, x.n, draw)), es);
  }

  lemma {:induction false} AnnouncingKeepsState(p: Setup, x: Party, es: seq<AnnounceEnv>)
    requires p.tm.Valid()
    ensures AnnounceSteps(p, x, es).n.s == x.n.s
  {
    if es != [] {
      AnnouncingKeepsState(p, x, es[..|es| - 1]);
      var y, e := AnnounceSteps(p, x, es[..|es| - 1]), es[|es| - 1];
      var made := Opened(p, y, e);
      HearingKeepsTx(made.n, ReadAs(made.v.unread, made.v.rxPhase));
    }
  }

  // ---- Joining ---------------------------------------------------------------------------------------

  /** A turn in which a node has somebody to follow and that is due puts a Follow for its target on the air, before it
      listens, behind everything that was queued; frames that answer others can come behind it. */
  lemma DueRequestGoesOut(mac: MacParams, p: Setup, x: Party, e: JoinEnv)
    requires CanAccept(mac, x.n.s) && p.tm.Valid() && p.txSize <= 255
    requires x.n.c.tryToFollow && e.due && x.n.c.target != UNKNOWN_ADDR
    requires CanSend(p, x.v.queue, Message(e.now, x.n.s.address, Follow(x.n.c.target, x.n.s.address)), x.v.window,
                     e.moment)
    ensures var m := Message(e.now, x.n.s.address, Follow(x.n.c.target, x.n.s.address));
      && FitsFrame(x.v.queue + [Encode(m)], 255)
      && x.v.frames + [SentFrame(x.n.c.phase, Frame(x.v.queue + [Encode(m)], e.moment.senderTime, p.address))]
           <= JoinStep(mac, p, x, e).v.frames
  {
    var m := Message(e.now, x.n.s.address, Follow(x.n.c.target, x.n.s.address));
    SentIff(p, x.v, m, x.n.c.phase, e.moment);
    ReadingAddsFrames(mac, p, Asked(p, x, e), e.answers, 0);
  }

  /** A turn in which that is not so, or there is nobody to follow, sends nothing unless it hears something. */
  lemma NoRequestUnlessDue(mac: MacParams, p: Setup, x: Party, e: JoinEnv)
    requires CanAccept(mac, x.n.s) && p.tm.Valid()
    requires !(x.n.c.tryToFollow && e.due && x.n.c.target != UNKNOWN_ADDR)
    requires !e.reception.radio.Heard? && x.v.unread == []
    ensures var y := JoinStep(mac, p, x, e);
      y.v.frames == x.v.frames && y.v.queue == x.v.queue && y.n.queue == x.n.queue && y.n.air == x.n.air
  {
  }

  lemma {:induction false} ReadingAddsFrames(mac: MacParams, p: Setup, x: Party, answers: seq<AnswerEnv>, k: nat)
    requires CanAccept(mac, x.n.s) && p.tm.Valid()
    ensures x.v.frames <= ReadSteps(mac, p, x, answers, k).v.frames
    decreases |x.v.unread|
  {
    if x.v.unread != [] {
      var (next, stop) := ReadStep(mac, p, x, answers, k);
      if !stop { ReadingAddsFrames(mac, p, next, answers, k + 1); }
    }
  }

  /** A turn of the joining loop takes in the messages of the frame that it receives, in order, up to the first that
      refuses the node. */
  lemma JoiningTurnHears(mac: MacParams, p: Setup, x: Party, e: JoinEnv, ms: seq<Message>, time: U32, sender: Address)
    returns (ars: seq<Arrival>)
    requires CanAccept(mac, x.n.s) && p.tm.Valid()
    requires Brings(p, Asked(p, x, e).v.window, e.reception, ms, time, sender)
    ensures JoinStep(mac, p, x, e).n == HearArrivals(mac, Asked(p, x, e).n, ars)
    ensures |ars| <= |ms| && forall i | 0 <= i < |ars| :: ars[i].t == Transmission(e.reception.phase, ms[i])
    ensures forall i | 0 <= i < |ars| && i < |e.answers| ::
      ars[i].now == e.answers[i].now && ars[i].draw == e.answers[i].draw
    ensures forall i | 0 <= i < |ars| - 1 :: !RefusedAt(mac, Asked(p, x, e).n, ars, i)
    ensures |ars| < |ms| ==> ars != [] && RefusedAt(mac, Asked(p, x, e).n, ars, |ars| - 1)
  {
    var y := Asked(p, x, e);
    ars := ArrivalsOf(mac, p, y, e.answers, 0);
    ReadStepsAreArrivals(mac, p, y, e.answers, 0);
    ReadsUntil(mac, p, y, e.answers, 0);
    FrameIsReceived(Encodings(ms), time, sender, p.rxSize);
    assert y.v.unread == Encodings(ms) && y.v.rxPhase == e.reception.phase;
    FrameArrives(mac, y.n, e.reception.phase, ms, ars, e.answers);
  }

  lemma FrameArrives(mac: MacParams, n: Node, phase: Phase, ms: seq<Message>, ars: seq<Arrival>,
                     answers: seq<AnswerEnv>)
    requires CanAccept(mac, n.s) && Acceptable(ms)
    requires ReadFirst(phase, Encodings(ms), ars, answers, 0) && StopsOnly(mac, n, Encodings(ms), ars)
    ensures |ars| <= |ms| && forall i | 0 <= i < |ars| :: ars[i].t == Transmission(phase, ms[i])
    ensures forall i | 0 <= i < |ars| && i < |answers| :: ars[i].now == answers[i].now && ars[i].draw == answers[i].draw
    ensures forall i | 0 <= i < |ars| - 1 :: !RefusedAt(mac, n, ars, i)
    ensures |ars| < |ms| ==> ars != [] && RefusedAt(mac, n, ars, |ars| - 1)
  {
    EncodingsDecode(ms);
    forall i | 0 <= i < |ars| ensures ars[i].t == Transmission(phase, ms[i]) {
      assert Decode(Encodings(ms)[i]) == Some(ms[i]);
    }
    forall i | 0 <= i < |ars| && i < |answers|
      ensures ars[i].now == answers[i].now && ars[i].draw == answers[i].draw
    {
      assert answers[0 + i] == answers[i];
    }
  }

  /** A request for this node, while it counts as clusterhead, is answered at once by one frame that ends with the
      answer, if that fits, the window is active and the radio transmits. */
  lemma RequestIsAnswered(mac: MacParams, p: Setup, x: Party, m: Message, a: AnswerEnv)
    requires CanAccept(mac, x.n.s) && p.tm.Valid() && p.txSize <= 255
    requires x.n.c.isClusterhead && m.body.Follow? && m.body.clusterhead == x.n.s.address
    ensures var reply := Message(a.now, x.n.s.address, AcceptBody(mac, x.n.s, m.src, a.now));
      && (CanSend(p, x.v.queue, reply, x.v.window, a.moment) ==> FitsFrame(x.v.queue + [Encode(reply)], 255))
      && (CanSend(p, x.v.queue, reply, x.v.window, a.moment) ==>
            ArrivalStep(mac, p, x, m, a).v.frames == x.v.frames
              + [SentFrame(x.n.c.phase, Frame(x.v.queue + [Encode(reply)], a.moment.senderTime, p.address))])
  {
    SentIff(p, x.v, Message(a.now, x.n.s.address, AcceptBody(mac, x.n.s, m.src, a.now)), x.n.c.phase, a.moment);
  }

  // ---- A whole round ---------------------------------------------------------------------------------

  lemma {:induction false} AnnouncingAddsFrames(p: Setup, x: Party, es: seq<AnnounceEnv>, k: nat)
    requires p.tm.Valid() && k <= |es|
    ensures AnnounceSteps(p, x, es[..k]).v.frames <= AnnounceSteps(p, x, es).v.frames
  {
    if k == |es| {
      assert es[..k] == es;
    } else {
      var init, e := es[..|es| - 1], es[|es| - 1];
      assert init[..k] == es[..k];
      AnnouncingAddsFrames(p, x, init, k);
      TurnAddsFrames(p, AnnounceSteps(p, x, init), e);
    }
  }

  lemma TurnAddsFrames(p: Setup, x: Party, e: AnnounceEnv)
    requires p.tm.Valid()
    ensures x.v.frames <= AnnounceStep(p, x, e).v.frames
  {
  }

  lemma {:induction false} JoiningAddsFrames(mac: MacParams, p: Setup, x: Party, es: seq<JoinEnv>, k: nat)
    requires CanAccept(mac, x.n.s) && p.tm.Valid() && k <= |es|
    ensures JoinSteps(mac, p, x, es[..k]).v.frames <= JoinSteps(mac, p, x, es).v.frames
  {
    if k == |es| {
      assert es[..k] == es;
    } else {
      var init, e := es[..|es| - 1], es[|es| - 1];
      assert init[..k] == es[..k];
      JoiningAddsFrames(mac, p, x, init, k);
      ReadingAddsFrames(mac, p, Asked(p, JoinSteps(mac, p, x, init), e), e.answers, 0);
    }
  }

  lemma StaysOnAir(frames: seq<SentFrame>, f: SentFrame, later: seq<SentFrame>)
    requires frames + [f] <= later
    ensures f in later
  {
    assert later[|frames|] == f;
  }

  lemma ArrivalKeepsRole(mac: MacParams, n: Node, a: Arrival)
    requires CanAccept(mac, n.s) && n.s.role == Clusterhead
    ensures HearArrival(mac, n, a).s.role == Clusterhead
  {
  }

  lemma {:induction false} ReadingKeepsRole(mac: MacParams, p: Setup, x: Party, answers: seq<AnswerEnv>, k: nat)
    requires CanAccept(mac, x.n.s) && p.tm.Valid() && x.n.s.role == Clusterhead
    ensures ReadSteps(mac, p, x, answers, k).n.s.role == Clusterhead
    decreases |x.v.unread|
  {
    if x.v.unread != [] {
      var (next, stop) := ReadStep(mac, p, x, answers, k);
      match Decode(x.v.unread[0])
      case None =>
      case Some(m) =>
        ArrivalKeepsRole(mac, x.n, ArrivalOf(mac, p, Taken(x), m, AnswerAt(answers, k)));
        if !stop { ReadingKeepsRole(mac, p, next, answers, k + 1); }
    }
  }

  lemma {:induction false} JoiningKeepsRole(mac: MacParams, p: Setup, x: Party, es: seq<JoinEnv>)
    requires CanAccept(mac, x.n.s) && p.tm.Valid() && x.n.s.role == Clusterhead
    ensures JoinSteps(mac, p, x, es).n.s.role == Clusterhead
  {
    if es != [] {
      var init, e := es[..|es| - 1], es[|es| - 1];
      JoiningKeepsRole(mac, p, x, init);
      ReadingKeepsRole(mac, p, Asked(p, JoinSteps(mac, p, x, init), e), e.answers, 0);
    }
  }

  /** The party when the joining phase of a round begins. */
  function BeforeJoining(mac: MacParams, p: Setup, x: Party, r: RoundPlan): (y: Party)
    requires CanAccept(mac, x.n.s) && p.tm.Valid()
    ensures CanAccept(mac, y.n.s)
  {
    StepsCanAccept(mac, p, x.(n := StartAnnouncing(mac, x.n, r.draw)), r.announcing);
    var announced := AnnouncementPhase(mac, p, x, r.draw, r.announcing);
    announced.(n := StartJoining(announced.n))
  }

  /** What a node is about to announce, and to request. */
  function OwnAnnouncement(n: Node, now: U32): (m: Message)
    ensures WellFormed(m)
  {
    Message(now, n.s.address, OpenCluster(n.s.rings.ring, n.s.address, n.s.rings.neighbors))
  }

  function OwnRequest(n: Node, now: U32): (m: Message)
    ensures WellFormed(m)
  {
    Message(now, n.s.address, Follow(n.c.target, n.s.address))
  }

  /** An announcement that is pending and due in some turn of a round, and can be sent then, is on the air when the
      round is over. */
  lemma AnnouncementIsOnAir(mac: MacParams, p: Setup, x: Party, r: RoundPlan, k: nat)
    requires CanAccept(mac, x.n.s) && p.tm.Valid() && p.txSize <= 255 && k < |r.announcing| && r.announcing[k].due
    requires var e := r.announcing[k];
      var y := AnnounceSteps(p, x.(n := StartAnnouncing(mac, x.n, r.draw)), r.announcing[..k]);
      y.n.c.pending
        && CanSend(p, y.v.queue, OwnAnnouncement(y.n, e.now), Refresh(p.tm, y.v.window, e.reception.at), e.moment)
    ensures var e := r.announcing[k];
      var y := AnnounceSteps(p, x.(n := StartAnnouncing(mac, x.n, r.draw)), r.announcing[..k]);
      var q := y.v.queue + [Encode(OwnAnnouncement(y.n, e.now))];
      FitsFrame(q, 255)
        && SentFrame(y.n.c.phase, Frame(q, e.moment.senderTime, p.address)) in RoundStep(mac, p, x, r).v.frames
  {
    var start := x.(n := StartAnnouncing(mac, x.n, r.draw));
    AnnouncementStaysOnAir(p, start, r.announcing, k);
    JoiningAddsFrames(mac, p, BeforeJoining(mac, p, x, r), r.joining, 0);
    assert r.joining[..0] == [];
  }

  lemma AnnouncementIsSent(p: Setup, x: Party, e: AnnounceEnv)
    requires p.tm.Valid() && p.txSize <= 255 && x.n.c.pending && e.due
    requires CanSend(p, x.v.queue, OwnAnnouncement(x.n, e.now), Refresh(p.tm, x.v.window, e.reception.at), e.moment)
    ensures var q := x.v.queue + [Encode(OwnAnnouncement(x.n, e.now))];
      FitsFrame(q, 255)
        && x.v.frames + [SentFrame(x.n.c.phase, Frame(q, e.moment.senderTime, p.address))]
             <= AnnounceStep(p, x, e).v.frames
  {
    DueAnnouncementGoesOut(p, x, e);
  }

  lemma AnnouncementStaysOnAir(p: Setup, x: Party, es: seq<AnnounceEnv>, k: nat)
    requires p.tm.Valid() && p.txSize <= 255 && k < |es| && es[k].due
    requires var y, e := AnnounceSteps(p, x, es[..k]), es[k];
      y.n.c.pending
        && CanSend(p, y.v.queue, OwnAnnouncement(y.n, e.now), Refresh(p.tm, y.v.window, e.reception.at), e.moment)
    ensures var y, e := AnnounceSteps(p, x, es[..k]), es[k];
      var q := y.v.queue + [Encode(OwnAnnouncement(y.n, e.now))];
      FitsFrame(q, 255)
        && SentFrame(y.n.c.phase, Frame(q, e.moment.senderTime, p.address)) in AnnounceSteps(p, x, es).v.frames
  {
    var y, e := AnnounceSteps(p, x, es[..k]), es[k];
    AnnouncementIsSent(p, y, e);
    AnnouncingGoesOn(p, x, es, k, y);
    StaysOnAir(y.v.frames, SentFrame(y.n.c.phase, Frame(y.v.queue + [Encode(OwnAnnouncement(y.n, e.now))],
                                                        e.moment.senderTime, p.address)),
               AnnounceSteps(p, x, es).v.frames);
  }

  lemma AnnouncingGoesOn(p: Setup, x: Party, es: seq<AnnounceEnv>, k: nat, y: Party)
    requires p.tm.Valid() && k < |es| && y == AnnounceSteps(p, x, es[..k])
    ensures AnnounceStep(p, y, es[k]).v.frames <= AnnounceSteps(p, x, es).v.frames
  {
    assert es[..k + 1][..k] == es[..k];
    AnnouncingAddsFrames(p, x, es, k + 1);
  }

  /** So is a request. */
  lemma RequestIsOnAir(mac: MacParams, p: Setup, x: Party, r: RoundPlan, k: nat)
    requires CanAccept(mac, x.n.s) && p.tm.Valid() && p.txSize <= 255 && k < |r.joining| && r.joining[k].due
    requires var y, e := JoinSteps(mac, p, BeforeJoining(mac, p, x, r), r.joining[..k]), r.joining[k];
      y.n.c.tryToFollow && y.n.c.target != UNKNOWN_ADDR
        && CanSend(p, y.v.queue, OwnRequest(y.n, e.now), y.v.window, e.moment)
    ensures var y, e := JoinSteps(mac, p, BeforeJoining(mac, p, x, r), r.joining[..k]), r.joining[k];
      var q := y.v.queue + [Encode(OwnRequest(y.n, e.now))];
      FitsFrame(q, 255)
        && SentFrame(y.n.c.phase, Frame(q, e.moment.senderTime, p.address)) in RoundStep(mac, p, x, r).v.frames
  {
    RequestStaysOnAir(mac, p, BeforeJoining(mac, p, x, r), r.joining, k);
  }

  lemma RequestStaysOnAir(mac: MacParams, p: Setup, x: Party, es: seq<JoinEnv>, k: nat)
    requires CanAccept(mac, x.n.s) && p.tm.Valid() && p.txSize <= 255 && k < |es| && es[k].due
    requires var y, e := JoinSteps(mac, p, x, es[..k]), es[k];
      y.n.c.tryToFollow && y.n.c.target != UNKNOWN_ADDR
        && CanSend(p, y.v.queue, OwnRequest(y.n, e.now), y.v.window, e.moment)
    ensures var y, e := JoinSteps(mac, p, x, es[..k]), es[k];
      var q := y.v.queue + [Encode(OwnRequest(y.n, e.now))];
      FitsFrame(q, 255)
        && SentFrame(y.n.c.phase, Frame(q, e.moment.senderTime, p.address)) in JoinSteps(mac, p, x, es).v.frames
  {
    var y, e := JoinSteps(mac, p, x, es[..k]), es[k];
    assert es[..k + 1][..k] == es[..k];
    DueRequestGoesOut(mac, p, y, e);
    JoiningAddsFrames(mac, p, x, es, k + 1);
    StaysOnAir(y.v.frames, SentFrame(y.n.c.phase, Frame(y.v.queue + [Encode(OwnRequest(y.n, e.now))],
                                                        e.moment.senderTime, p.address)),
               JoinSteps(mac, p, x, es).v.frames);
  }

  /** A follower in the round of its ring has the clusterhead role when the round is over if it volunteers with the byte
      that it drew at its start, whatever it hears; without that, it does not have it if the joining phase is over at
      once. */
  lemma RoundDecides(mac: MacParams, p: Setup, x: Party, r: RoundPlan)
    requires CanAccept(mac, x.n.s) && p.tm.Valid() && x.n.c.phase.Ready? && x.n.s.role == Role.Follower
    requires !x.n.c.isClusterhead
    ensures var role := RoundStep(mac, p, x, r).n.s.role;
      if x.n.s.rings.ring as nat == x.n.c.phase.round && Volunteers(x.n.s, r.draw) then role == Clusterhead
      else r.joining == [] ==> role == Role.Follower
  {
    RoleAfterAnnouncing(mac, p, x, r.draw, r.announcing);
    var y := BeforeJoining(mac, p, x, r);
    if y.n.s.role == Clusterhead { JoiningKeepsRole(mac, p, y, r.joining); }
  }
}
