/** When a member goes on waiting and when it stops, and what a clusterhead makes of a frame (multihop.cpp). */
module Listening {
  import opened Bytes
  import opened LinkCodes
  import opened Messages
  import opened SlotClock
  import opened Frames
  import opened Link
  import opened State
  import opened Acks
  import opened Actions

  // ---- A member waits --------------------------------------------------------------------------------

  /** Acks, for whatever slots, and closing messages end the waiting, and nothing else does. */
  predicate IsAnswer(bytes: seq<Byte>) {
    Decode(bytes).Some? && (Decode(bytes).value.body.SendAcks? || Decode(bytes).value.body.CloseCluster?)
  }

  lemma HearsAnswer(s: NodeState, bytes: seq<Byte>)
    requires |s.acks| > 0
    ensures Hear(s, bytes).1 <==> IsAnswer(bytes)
  {
  }

  lemma {:induction false} DoneIffAnswered(s: NodeState, ms: seq<seq<Byte>>)
    requires |s.acks| > 0
    ensures HearAll(s, ms).1 <==> exists m :: m in ms && IsAnswer(m)
  {
    if ms != [] {
      var init, last := ms[..|ms| - 1], ms[|ms| - 1];
      DoneIffAnswered(s, init);
      HearsAnswer(HearAll(s, init).0, last);
      assert ms == init + [last];
    }
  }

  /** The cached window behind the first `i` turns, in each of which the clock was asked twice. */
  function WindowBehind(tm: Timing, w: Window, turns: seq<Turn>, i: nat): Window
    requires tm.Valid() && i <= |turns|
  {
    if i == 0 then w
    else Refresh(tm, Refresh(tm, WindowBehind(tm, w, turns, i - 1), turns[i - 1].at), turns[i - 1].after)
  }

  /** The radio gets a frame in turn `i`, within the superframe window, that passes the checks. */
  predicate GetsFrame(tm: Timing, size: nat, w: Window, turns: seq<Turn>, i: nat)
    requires tm.Valid() && i < |turns|
  {
    && InWindow(Refresh(tm, WindowBehind(tm, w, turns, i), turns[i].at), turns[i].at)
    && turns[i].radio.Heard? && Admission(turns[i].radio.bytes, size) == Ok
  }

  ghost predicate HoldsAnswer(size: nat, turn: Turn)
    requires turn.radio.Heard?
  {
    exists m :: m in Received(turn.radio.bytes, size) && IsAnswer(m)
  }

  /** After turn `i` there is another one: a frame without an answer came, and the slot is not over. */
  ghost predicate GoesOn(tm: Timing, size: nat, slot: Byte, w: Window, turns: seq<Turn>, i: nat)
    requires tm.Valid() && i < |turns|
  {
    && GetsFrame(tm, size, w, turns, i) && !HoldsAnswer(size, turns[i])
    && SlotIn(tm, WindowBehind(tm, w, turns, i + 1), turns[i].after) == slot as int
  }

  ghost predicate AllGoOn(tm: Timing, size: nat, slot: Byte, w: Window, turns: seq<Turn>, i: nat)
    requires tm.Valid()
  {
    i <= |turns| && forall j | 0 <= j < i :: GoesOn(tm, size, slot, w, turns, j)
  }

  /** What the waiting reports when turn `i` was the last. */
  ghost function Outcome(tm: Timing, size: nat, w: Window, turns: seq<Turn>, i: nat): (ActionRC, nat)
    requires tm.Valid() && i <= |turns|
  {
    if i == |turns| then (NothingHeard, i)
    else if GetsFrame(tm, size, w, turns, i) then (if HoldsAnswer(size, turns[i]) then Done else NothingHeard, i + 1)
    else if InWindow(Refresh(tm, WindowBehind(tm, w, turns, i), turns[i].at), turns[i].at)
            && turns[i].radio == RadioTimedOut then (NothingHeard, i)
    else (Failed, i)
  }

  /** A member waits through exactly the turns in which a frame without an answer comes while the slot lasts; the first
      other turn ends the waiting. Its state is what all frames up to there say. */
  lemma WaitingEnds(tm: Timing, size: nat, slot: Byte, s: NodeState, w: Window, turns: seq<Turn>) returns (i: nat)
    requires tm.Valid() && |s.acks| > 0
    ensures AllGoOn(tm, size, slot, w, turns, i) && (i < |turns| ==> !GoesOn(tm, size, slot, w, turns, i))
    ensures var r := Waits(tm, size, slot, s, w, turns, 0);
      && (r.rc, r.k) == Outcome(tm, size, w, turns, i) && r.k <= |turns|
      && r.s == HearAll(s, HeardIn(turns[..r.k], size)).0
  {
    assert AfterTurns(s, s, false, turns, 0, size) by { assert turns[..0] == []; }
    i := EndsFrom(tm, size, slot, s, s, w, turns, 0, Waits(tm, size, slot, s, w, turns, 0));
  }

  /** The same from turn `i` on. */
  lemma {:induction false} EndsFrom(tm: Timing, size: nat, slot: Byte, s0: NodeState, s: NodeState, w: Window,
                                    turns: seq<Turn>, i: nat, r: Waited)
    returns (last: nat)
    requires tm.Valid() && |s0.acks| > 0 && |s.acks| > 0 && AfterTurns(s0, s, false, turns, i, size)
    requires r == Waits(tm, size, slot, s, WindowBehind(tm, w, turns, i), turns, i)
    requires AllGoOn(tm, size, slot, w, turns, i)
    ensures AllGoOn(tm, size, slot, w, turns, last) && (last < |turns| ==> !GoesOn(tm, size, slot, w, turns, last))
    ensures EndsAt(tm, size, s0, w, turns, last, r)
    decreases |turns| - i
  {
    if i < |turns| && GoesOn(tm, size, slot, w, turns, i) {
      var s' := OneMoreTurn(tm, size, slot, s0, s, w, turns, i);
      MoreGoOn(tm, size, slot, w, turns, i);
      last := EndsFrom(tm, size, slot, s0, s', w, turns, i + 1, r);
    } else {
      LastTurn(tm, size, slot, s0, s, w, turns, i);
      last := i;
    }
  }

  lemma MoreGoOn(tm: Timing, size: nat, slot: Byte, w: Window, turns: seq<Turn>, i: nat)
    requires tm.Valid() && AllGoOn(tm, size, slot, w, turns, i) && i < |turns| && GoesOn(tm, size, slot, w, turns, i)
    ensures AllGoOn(tm, size, slot, w, turns, i + 1)
  {
  }

  /** `r` is the result of waiting of which turn `i` was the last. */
  ghost predicate EndsAt(tm: Timing, size: nat, s0: NodeState, w: Window, turns: seq<Turn>, i: nat, r: Waited)
    requires tm.Valid() && |s0.acks| > 0 && i <= |turns|
  {
    && (r.rc, r.k) == Outcome(tm, size, w, turns, i) && r.k <= |turns|
    && r.s == HearAll(s0, HeardIn(turns[..r.k], size)).0
  }

  lemma OneMoreTurn(tm: Timing, size: nat, slot: Byte, s0: NodeState, s: NodeState, w: Window, turns: seq<Turn>, i: nat)
    returns (s': NodeState)
    requires tm.Valid() && |s0.acks| > 0 && |s.acks| > 0 && i < |turns| && AfterTurns(s0, s, false, turns, i, size)
    requires GoesOn(tm, size, slot, w, turns, i)
    ensures |s'.acks| > 0 && AfterTurns(s0, s', false, turns, i + 1, size)
    ensures Waits(tm, size, slot, s, WindowBehind(tm, w, turns, i), turns, i)
         == Waits(tm, size, slot, s', WindowBehind(tm, w, turns, i + 1), turns, i + 1)
  {
    var before := WindowBehind(tm, w, turns, i);
    TurnTaken(tm, size, slot, s0, s, before, turns, i);
    DoneIffAnswered(s, Received(turns[i].radio.bytes, size));
    s' := TakeTurn(tm, size, slot, s, before, turns[i]).s;
  }

  lemma LastTurn(tm: Timing, size: nat, slot: Byte, s0: NodeState, s: NodeState, w: Window, turns: seq<Turn>, i: nat)
    requires tm.Valid() && |s0.acks| > 0 && |s.acks| > 0 && AfterTurns(s0, s, false, turns, i, size)
    requires i < |turns| ==> !GoesOn(tm, size, slot, w, turns, i)
    ensures EndsAt(tm, size, s0, w, turns, i, Waits(tm, size, slot, s, WindowBehind(tm, w, turns, i), turns, i))
  {
    var before := WindowBehind(tm, w, turns, i);
    if i < |turns| {
      TurnTaken(tm, size, slot, s0, s, before, turns, i);
      if turns[i].radio.Heard? { DoneIffAnswered(s, Received(turns[i].radio.bytes, size)); }
    }
  }

  // ---- A clusterhead forwards ------------------------------------------------------------------------

  /** Of a frame, each datagram is queued behind what is queued by then if and only if it fits there with its length
      byte and is not longer than messages may be; no other message is, and a refused one stops nothing. */
  lemma ForwardsWhatFits(q: seq<seq<Byte>>, size: nat, msgMax: nat, ms: seq<seq<Byte>>, i: nat)
    requires FitsFrame(q, size) && i < |ms|
    ensures var before, after := Forwarded(q, size, msgMax, ms[..i]), Forwarded(q, size, msgMax, ms[..i + 1]);
      && Short(before)
      && after ==
         if Decode(ms[i]).Some? && Decode(ms[i]).value.body.Datagram?
            && 12 + |Pack(before)| + 1 + |ms[i]| <= size && |ms[i]| <= msgMax
         then before + [ms[i]] else before
  {
    assert ms[..i + 1][..i] == ms[..i];
    ForwardedBounds(q, size, msgMax, ms[..i]);
  }

  /** The sender of a frame is acknowledged the last datagram in it, whether that is forwarded or not; without one its
      ack stays as it was. */
  lemma {:induction false} AcksLastDatagram(before: U32, ms: seq<seq<Byte>>, i: int)
    requires -1 <= i < |ms| && (i >= 0 ==> IsDatagram(ms[i])) && forall j | i < j < |ms| :: !IsDatagram(ms[j])
    ensures LastSequence(before, ms) == if i < 0 then before else Decode(ms[i]).value.sequence
  {
    if i < |ms| - 1 { AcksLastDatagram(before, ms[..|ms| - 1], i); }
  }
}
