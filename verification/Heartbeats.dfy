/** When a node speaks in neighbour discovery, what it says, and what it hears (multihop.cpp). */
module Heartbeats {
  import opened Bytes
  import opened Messages
  import opened Rings
  import opened SlotClock
  import opened Frames
  import opened Link
  import opened Rounds
  import opened Stations
  import opened DiscoveryLoop

  predicate NoHeartbeat(ars: seq<Arrived>) { forall i | 0 <= i < |ars| :: !ars[i].m.body.Heartbeat? }

  /** Message `i` is the last heartbeat of the turn. */
  predicate IsLastHeartbeat(ars: seq<Arrived>, i: nat) {
    i < |ars| && ars[i].m.body.Heartbeat? && forall j | i < j < |ars| :: !ars[j].m.body.Heartbeat?
  }

  ghost predicate DueAtLast(ars: seq<Arrived>) { exists i: nat :: IsLastHeartbeat(ars, i) && ars[i].due }

  lemma {:induction false} DueMeans(start: bool, ars: seq<Arrived>)
    ensures DueAfter(start, ars) <==> (NoHeartbeat(ars) && start) || DueAtLast(ars)
  {
    if ars != [] {
      var k := |ars| - 1;
      var init := ars[..k];
      DueMeans(start, init);
      if ars[k].m.body.Heartbeat? {
        assert IsLastHeartbeat(ars, k);
        assert forall i: nat | IsLastHeartbeat(ars, i) :: i == k;
      } else {
        assert forall i: nat :: IsLastHeartbeat(ars, i) <==> IsLastHeartbeat(init, i);
      }
    }
  }

  lemma {:induction false} HeardAnyMeans(ars: seq<Arrived>)
    ensures HeardAny(ars) <==> !NoHeartbeat(ars)
  {
    if !NoHeartbeat(ars) {
      var i :| 0 <= i < |ars| && ars[i].m.body.Heartbeat?;
      assert ars[i] in ars;
    }
  }

  /** A node that has not announced does so in a turn if and only if it has a ring or heard a heartbeat before and the
      announcement is due, when it hears no heartbeat in the turn; and when it hears some, if and only if the
      announcement is due at the last of them. It has announced then, fits or not. */
  lemma AnnouncesIff(v: Address, f: Finder, t: FindTurn)
    requires !f.announced
    ensures FindOnce(v, f, t).announced <==> (NoHeartbeat(t.heard) && f.informed && t.due) || DueAtLast(t.heard)
    ensures FindOnce(v, f, t).informed <==> f.informed || !NoHeartbeat(t.heard)
  {
    DueMeans(f.informed && t.due, t.heard);
    HeardAnyMeans(t.heard);
  }

  /** A node that announces queues one heartbeat with its updated ring, if it fits, and that and everything else that
      is queued is on the air if the frame is transmitted. Otherwise a turn sends nothing. */
  lemma SaysItsRing(v: Address, f: Finder, t: FindTurn)
    ensures var f', m := FindOnce(v, f, t), Message(t.now, v, Heartbeat(FindOnce(v, f, t).rings.ring));
      if f'.announced && !f.announced && t.fits then
        if t.sent then
          f'.queue == {} && f'.air == f.air + Tagged(Ready(0), f.queue + {m})
        else
          f'.queue == f.queue + {m} && f'.air == f.air
      else
        f'.queue == f.queue && f'.air == f.air
    ensures f.announced ==> FindOnce(v, f, t).announced
  {
    var f', m := FindOnce(v, f, t), Message(t.now, v, Heartbeat(FindOnce(v, f, t).rings.ring));
    if f'.announced && !f.announced && t.fits && t.sent {
      assert (set x | x in f.queue + {m} :: Transmission(Ready(0), x)) == Tagged(Ready(0), f.queue + {m});
    }
  }

  /** A deadline that has passed when the turn begins has passed when its messages are processed. */
  predicate DeadlinesPass(t: FindTurn) { t.due ==> forall i | 0 <= i < |t.heard| :: t.heard[i].due }

  lemma {:induction false} LastHeartbeatExists(ars: seq<Arrived>) returns (i: nat)
    requires !NoHeartbeat(ars)
    ensures IsLastHeartbeat(ars, i)
    decreases |ars|
  {
    var k := |ars| - 1;
    if ars[k].m.body.Heartbeat? {
      i := k;
    } else {
      assert !NoHeartbeat(ars[..k]) by {
        var j :| 0 <= j < |ars| && ars[j].m.body.Heartbeat?;
        assert ars[..k][j] == ars[j];
      }
      i := LastHeartbeatExists(ars[..k]);
    }
  }

  lemma DueTurnAnnounces(v: Address, f: Finder, t: FindTurn)
    requires t.due && DeadlinesPass(t) && (f.informed || !NoHeartbeat(t.heard))
    ensures FindOnce(v, f, t).announced
  {
    SaysItsRing(v, f, t);
    if !f.announced {
      AnnouncesIff(v, f, t);
      if !NoHeartbeat(t.heard) {
        var i := LastHeartbeatExists(t.heard);
        assert t.heard[i].due;
      }
    }
  }

  lemma {:induction false} StaysInformed(v: Address, f: Finder, ts: seq<FindTurn>)
    requires f.informed
    ensures FindTurns(v, f, ts).informed
  {
    if ts != [] { StaysInformed(v, f, ts[..|ts| - 1]); }
  }

  /** A node with a ring that finds its announcement due in some turn has announced when the phase is over, whether it
      hears anybody or not. */
  lemma {:induction false} InformedNodeAnnounces(v: Address, f: Finder, ts: seq<FindTurn>, k: nat)
    requires f.informed && k < |ts| && ts[k].due && DeadlinesPass(ts[k])
    ensures FindTurns(v, f, ts).announced
  {
    var init, last := ts[..|ts| - 1], ts[|ts| - 1];
    StaysInformed(v, f, init);
    if k == |ts| - 1 {
      DueTurnAnnounces(v, FindTurns(v, f, init), last);
    } else {
      InformedNodeAnnounces(v, f, init, k);
      SaysItsRing(v, FindTurns(v, f, init), last);
    }
  }

  /** So discovery starts: from its set-up on, the gateway, which has ring 0, puts it on the air in the first turn in
      which that is due, fits and is transmitted, although it has heard nobody. */
  lemma GatewaySpeaks(s: RingState, queue: set<Message>, air: set<Transmission>, t: FindTurn)
    requires s.ring == GATEWAY_RING && t.due && DeadlinesPass(t) && t.fits && t.sent
    ensures var f' := FindTurns(GATEWAY_ADDR, Started(s, queue, air), [t]);
      Transmission(Ready(0), Message(t.now, GATEWAY_ADDR, Heartbeat(GATEWAY_RING))) in f'.air
  {
    var f := Started(s, queue, air);
    TurnsSnoc(GATEWAY_ADDR, f, [], t, [t]);
    DueTurnAnnounces(GATEWAY_ADDR, f, t);
    SaysItsRing(GATEWAY_ADDR, f, t);
  }

  // ---- On the link layer -----------------------------------------------------------------------------

  lemma {:induction false} ArrivedAreDue(ms: seq<seq<Byte>>, due: bool, dueFrom: nat)
    ensures due ==> forall i | 0 <= i < |ArrivedIn(ms, due, dueFrom)| :: ArrivedIn(ms, due, dueFrom)[i].due
  {
    if ms != [] { ArrivedAreDue(ms[..|ms| - 1], due, dueFrom); }
  }

  /** A turn hears all messages of the frame that it receives in an active window, in order; the announcement counts as
      due at those from number `dueFrom` on, or at all. */
  lemma TurnHearsFrame(p: Setup, self: Address, x: Seeker, e: FindEnv, ms: seq<Message>, time: U32, sender: Address)
    requires p.tm.Valid() && Acceptable(ms) && FitsFrame(Encodings(ms), p.rxSize)
    requires var w := Refresh(p.tm, x.v.window, e.reception.at); w.start <= e.reception.at < w.end
    requires e.reception.radio == Heard(Frame(Encodings(ms), time, sender))
    ensures var heard := FindTurnOf(p, self, x, e).heard;
      |heard| == |ms| && forall i | 0 <= i < |ms| :: heard[i] == Arrived(ms[i], e.due || e.dueFrom <= i)
  {
    FrameIsReceived(Encodings(ms), time, sender, p.rxSize);
    EncodingsDecode(ms);
    AllArrive(ms, Encodings(ms), e.due, e.dueFrom);
  }

  lemma {:induction false} AllArrive(ms: seq<Message>, q: seq<seq<Byte>>, due: bool, dueFrom: nat)
    requires |q| == |ms| && forall i | 0 <= i < |ms| :: Decode(q[i]) == Some(ms[i])
    ensures var ars := ArrivedIn(q, due, dueFrom);
      |ars| == |ms| && forall i | 0 <= i < |ms| :: ars[i] == Arrived(ms[i], due || dueFrom <= i)
  {
    if ms != [] { AllArrive(ms[..|ms| - 1], q[..|q| - 1], due, dueFrom); }
  }

  /** The loop on the objects: a node with a ring that finds its announcement due in some turn has announced. */
  lemma {:induction false} LoopAnnounces(p: Setup, self: Address, x: Seeker, es: seq<FindEnv>, k: nat)
    requires p.tm.Valid() && x.f.informed && k < |es| && es[k].due
    ensures FindSteps(p, self, x, es).f.announced
  {
    var ts := FindTurnsOf(p, self, x, es);
    FindStepsAreTurns(p, self, x, es);
    TurnOfEnv(p, self, x, es, k);
    InformedNodeAnnounces(self, x.f, ts, k);
  }

  /** So a node that begins the phase with a ring, the gateway or any other, has announced by its end. */
  lemma KnownRingIsAnnounced(p: Setup, self: Address, s: RingState, v: LinkView, es: seq<FindEnv>, k: nat)
    requires p.tm.Valid() && s.ring != UNKNOWN_RING && k < |es| && es[k].due
    ensures FindSteps(p, self, Seeking(s, v), es).f.announced
  {
    LoopAnnounces(p, self, Seeking(s, v), es, k);
  }

  lemma {:induction false} TurnOfEnv(p: Setup, self: Address, x: Seeker, es: seq<FindEnv>, k: nat)
    requires p.tm.Valid() && k < |es|
    ensures var t := FindTurnsOf(p, self, x, es)[k]; t.due == es[k].due && DeadlinesPass(t)
  {
    var init := es[..|es| - 1];
    if k == |es| - 1 {
      ArrivedAreDue(Reads(p, FindSteps(p, self, x, init), es[k]), es[k].due, es[k].dueFrom);
    } else {
      TurnOfEnv(p, self, x, init, k);
    }
  }
}
