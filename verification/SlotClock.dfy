/** The cached superframe window and the slot arithmetic on it (link_layer.cpp, net.cpp). */
module SlotClock {
  import opened Arith
  import opened Bytes
  import opened LinkCodes

  /** `reuseDistance` counts the distinct virtual TDMA windows of a superframe. */
  datatype MacParams = MacParams(slotSeconds: U32, frequency: U32, slotCount: Byte, guardPeriod: Byte,
                                 reuseDistance: Byte)
  {
    /** What `init` checks, and the deployment rules: a superframe is at least as long as its window. */
    predicate Valid() {
      && slotSeconds >= 1 && slotCount >= 1 && reuseDistance >= 1
      && (slotSeconds as int + guardPeriod as int) * slotCount as int <= frequency as int
    }

    function Schedule(): Timing {
      var duration := slotSeconds as nat + guardPeriod as nat;
      Timing(frequency, duration * slotCount as nat, duration)
    }
  }

  /** Seconds between superframes, seconds of slots in each, and seconds in a slot. */
  datatype Timing = Timing(frequency: nat, length: nat, duration: nat) {
    predicate Valid() { 1 <= duration <= length <= frequency }
  }

  lemma TimingValid(mac: MacParams)
    requires mac.Valid()
    ensures mac.Schedule().Valid()
  {
    MulMono(1, mac.slotCount, mac.slotSeconds as nat + mac.guardPeriod as nat);
  }

  // ---- Superframes -------------------------------------------------------------------------------

  /** When the superframe that contains `t` started. */
  function SuperframeStart(t: nat, f: nat): (b: nat)
    requires f > 0
    ensures b <= t < b + f
  {
    if t < f then 0 else f + SuperframeStart(t - f, f)
  }

  /** The first superframe start at or after `t`. */
  function NextStart(t: nat, f: nat): (b: nat)
    requires f > 0
    ensures t <= b < t + f
  {
    if SuperframeStart(t, f) == t then t else SuperframeStart(t, f) + f
  }

  predicate IsStart(b: nat, f: nat)
    requires f > 0
  {
    SuperframeStart(b, f) == b
  }

  lemma {:induction false} StartIsStart(t: nat, f: nat)
    requires f > 0
    ensures IsStart(SuperframeStart(t, f), f) && IsStart(SuperframeStart(t, f) + f, f) && IsStart(NextStart(t, f), f)
  {
    if t >= f { StartIsStart(t - f, f); }
  }

  lemma {:induction false} StartIsUnique(b: nat, t: nat, f: nat)
    requires f > 0 && IsStart(b, f) && b <= t < b + f
    ensures SuperframeStart(t, f) == b
  {
    if b >= f { StartIsUnique(b - f, t - f, f); }
  }

  lemma {:induction false} StartsApart(a: nat, b: nat, f: nat)
    requires f > 0 && IsStart(a, f) && IsStart(b, f) && a < b
    ensures a + f <= b
  {
    if a >= f { StartsApart(a - f, b - f, f); }
  }

  lemma {:induction false} StartByRemainder(t: nat, f: nat)
    requires f > 0
    ensures SuperframeStart(t, f) == t - t % f
  {
    if t >= f {
      StartByRemainder(t - f, f);
      MulStep((t - f) / f, f);
      DivModUnique((t - f) / f + 1, (t - f) % f, f);
    }
  }

  /** `next_time_interval`, by remainder. */
  function NextTimeInterval(now: U32, interval: U32): U32 {
    if interval == 0 then 0
    else if now % interval == 0 then now
    else Wrap32(now as int - (now % interval) as int + interval as int)
  }

  lemma NextTimeIntervalIsNextStart(now: U32, f: U32)
    requires f > 0 && now as int + f as int < 0x1_0000_0000
    ensures NextTimeInterval(now, f) as nat == NextStart(now, f)
  {
    StartByRemainder(now, f);
  }

  // ---- The cached window -------------------------------------------------------------------------

  datatype Window = Window(start: nat, end: nat)

  const NO_WINDOW := Window(0, 0)

  /** Every timing call starts with this: a window that is over is replaced by the next one. */
  function Refresh(tm: Timing, w: Window, now: nat): Window
    requires tm.Valid()
  {
    if now < w.end then w
    else Window(NextStart(now, tm.frequency), NextStart(now, tm.frequency) + tm.length)
  }

  predicate InWindow(w: Window, now: nat) { w.start <= now < w.end }

  function SlotAt(tm: Timing, into: nat): nat
    requires tm.Valid()
  {
    into / tm.duration
  }

  /** The slot read off a window that was just refreshed, -1 outside it. */
  function SlotIn(tm: Timing, w: Window, now: nat): int
    requires tm.Valid()
  {
    if InWindow(w, now) then SlotAt(tm, now - w.start) else -1
  }

  /** What the slot number is meant to be: a function of the time alone. */
  function StatelessSlot(tm: Timing, now: nat): (slot: int)
    requires tm.Valid()
    ensures slot >= 0 <==> now - SuperframeStart(now, tm.frequency) < tm.length
  {
    var into := now - SuperframeStart(now, tm.frequency);
    if into < tm.length then SlotAt(tm, into) else -1
  }

  lemma StatelessSlotByRemainder(tm: Timing, now: nat)
    requires tm.Valid()
    ensures StatelessSlot(tm, now) ==
      if now % tm.frequency < tm.length then (now % tm.frequency) / tm.duration else -1
  {
    StartByRemainder(now, tm.frequency);
  }

  // ---- The clock is never wrong ------------------------------------------------------------------

  /** What every window that the clock ever caches satisfies. */
  predicate Aligned(tm: Timing, w: Window)
    requires tm.Valid()
  {
    IsStart(w.start, tm.frequency) && w.end == w.start + tm.length
  }

  lemma RefreshAligned(tm: Timing, w: Window, now: nat)
    requires tm.Valid() && (w == NO_WINDOW || Aligned(tm, w))
    ensures Aligned(tm, Refresh(tm, w, now)) && now < Refresh(tm, w, now).end
  {
    StartIsStart(now, tm.frequency);
  }

  lemma AlignedSlot(tm: Timing, w: Window, now: nat)
    requires tm.Valid() && Aligned(tm, w)
    ensures SlotIn(tm, w, now) in {-1, StatelessSlot(tm, now)}
    ensures InWindow(w, now) ==>
      SuperframeStart(now, tm.frequency) == w.start && 0 <= SlotIn(tm, w, now) == StatelessSlot(tm, now)
  {
    if InWindow(w, now) { StartIsUnique(w.start, now, tm.frequency); }
  }

  /** The window after timing calls at the given times, first to last, from start-up. */
  function After(tm: Timing, times: seq<nat>): Window
    requires tm.Valid()
  {
    if times == [] then NO_WINDOW
    else Refresh(tm, After(tm, times[..|times| - 1]), times[|times| - 1])
  }

  /** The slot that `current_slot` answers at the last of the given calls. */
  function Answer(tm: Timing, times: seq<nat>): int
    requires tm.Valid() && times != []
  {
    SlotIn(tm, After(tm, times), times[|times| - 1])
  }

  lemma {:induction false} AfterAligned(tm: Timing, times: seq<nat>)
    requires tm.Valid()
    ensures if times == [] then After(tm, times) == NO_WINDOW
            else Aligned(tm, After(tm, times)) && times[|times| - 1] < After(tm, times).end
  {
    if times != [] {
      AfterAligned(tm, times[..|times| - 1]);
      RefreshAligned(tm, After(tm, times[..|times| - 1]), times[|times| - 1]);
    }
  }

  /** Whatever calls came before, in whatever order of times, an answer is -1 or the true slot. */
  lemma ClockNeverWrong(tm: Timing, times: seq<nat>)
    requires tm.Valid() && times != []
    ensures Answer(tm, times) in {-1, StatelessSlot(tm, times[|times| - 1])}
  {
    AfterAligned(tm, times);
    AlignedSlot(tm, After(tm, times), times[|times| - 1]);
  }

  /** Two nodes with different histories that both report a slot at the same time report the same one. */
  lemma NodesAgreeOnSlot(tm: Timing, mine: seq<nat>, yours: seq<nat>)
    requires tm.Valid() && mine != [] && yours != [] && mine[|mine| - 1] == yours[|yours| - 1]
    requires Answer(tm, mine) >= 0 && Answer(tm, yours) >= 0
    ensures Answer(tm, mine) == Answer(tm, yours)
  {
    ClockNeverWrong(tm, mine);
    ClockNeverWrong(tm, yours);
  }

  // ---- When the clock is complete ----------------------------------------------------------------

  /** `t` is after the first instant of a window and before its end. */
  predicate StrictlyInside(tm: Timing, t: nat)
    requires tm.Valid()
  {
    0 < t - SuperframeStart(t, tm.frequency) < tm.length
  }

  /** End of the last window before the superframe of `t` (zero or less in the first superframe). */
  function PreviousEnd(tm: Timing, t: nat): int
    requires tm.Valid()
  {
    SuperframeStart(t, tm.frequency) - tm.frequency + tm.length
  }

  /** Call `i` is not the first call since the previous window's end to fall strictly inside a window. */
  predicate NotSkipped(tm: Timing, times: seq<nat>, i: nat)
    requires tm.Valid() && i < |times|
  {
    StrictlyInside(tm, times[i]) ==> i > 0 && times[i - 1] >= PreviousEnd(tm, times[i])
  }

  /** `w` is the running window at `t`, or the next one while no window runs. */
  predicate Current(tm: Timing, w: Window, t: nat)
    requires tm.Valid()
  {
    Aligned(tm, w) && t < w.end && w.start < t + tm.frequency && SlotIn(tm, w, t) == StatelessSlot(tm, t)
  }

  lemma FirstCall(tm: Timing, t: nat)
    requires tm.Valid()
    ensures var w := Refresh(tm, NO_WINDOW, t);
      && (SlotIn(tm, w, t) == StatelessSlot(tm, t) <==> !StrictlyInside(tm, t))
      && (!StrictlyInside(tm, t) ==> Current(tm, w, t))
  {
    RefreshAligned(tm, NO_WINDOW, t);
  }

  /** A call that finds its window still running or still to come. */
  lemma NextCallCached(tm: Timing, w: Window, t0: nat, t: nat)
    requires tm.Valid() && t0 <= t < w.end && Current(tm, w, t0)
    ensures Current(tm, w, t) && (StrictlyInside(tm, t) ==> t0 >= PreviousEnd(tm, t))
  {
    var f := tm.frequency;
    AlignedSlot(tm, w, t);
    AlignedSlot(tm, w, t0);
    StartIsStart(t0, f);
    if t0 < w.start {
      var base := SuperframeStart(t0, f);
      StartsApart(base, w.start, f);
      if base + f < w.start { StartsApart(base + f, w.start, f); }
      if t < w.start { StartIsUnique(base, t, f); }
    }
  }

  /** A call that finds its window over. */
  lemma NextCallRefreshed(tm: Timing, w: Window, t0: nat, t: nat)
    requires tm.Valid() && t0 < w.end <= t && Current(tm, w, t0)
    ensures var w' := Refresh(tm, w, t);
      && (SlotIn(tm, w', t) == StatelessSlot(tm, t) <==> !StrictlyInside(tm, t))
      && (!StrictlyInside(tm, t) ==> Current(tm, w', t))
      && (StrictlyInside(tm, t) ==> t0 < PreviousEnd(tm, t))
  {
    RefreshAligned(tm, w, t);
    if StrictlyInside(tm, t) {
      StartIsStart(t, tm.frequency);
      var base := SuperframeStart(t, tm.frequency);
      if w.start < base { StartsApart(w.start, base, tm.frequency); }
    }
  }

  predicate NonDecreasing(times: seq<nat>) { forall i | 0 < i < |times| :: times[i - 1] <= times[i] }

  lemma {:induction false} CurrentAfter(tm: Timing, times: seq<nat>, i: nat)
    requires tm.Valid() && NonDecreasing(times) && i < |times|
    requires forall j | 0 <= j < i :: Answer(tm, times[..j + 1]) == StatelessSlot(tm, times[j])
    ensures Answer(tm, times[..i + 1]) == StatelessSlot(tm, times[i]) <==> NotSkipped(tm, times, i)
    ensures NotSkipped(tm, times, i) ==> Current(tm, After(tm, times[..i + 1]), times[i])
  {
    assert times[..i + 1][..i] == times[..i];
    if i == 0 {
      FirstCall(tm, times[0]);
    } else {
      CurrentAfter(tm, times, i - 1);
      var w := After(tm, times[..i]);
      assert Answer(tm, times[..(i - 1) + 1]) == StatelessSlot(tm, times[i - 1]);
      if times[i] < w.end {
        NextCallCached(tm, w, times[i - 1], times[i]);
      } else {
        NextCallRefreshed(tm, w, times[i - 1], times[i]);
      }
    }
  }

  /** With a clock that never runs backwards, every answer is the true slot if and only if no call
      enters a window late without a call since the previous window's end. */
  lemma ClockCompleteIff(tm: Timing, times: seq<nat>)
    requires tm.Valid() && NonDecreasing(times)
    ensures (forall i | 0 <= i < |times| :: Answer(tm, times[..i + 1]) == StatelessSlot(tm, times[i]))
       <==> (forall i | 0 <= i < |times| :: NotSkipped(tm, times, i))
  {
    if forall i | 0 <= i < |times| :: Answer(tm, times[..i + 1]) == StatelessSlot(tm, times[i]) {
      forall i | 0 <= i < |times| ensures NotSkipped(tm, times, i) { CurrentAfter(tm, times, i); }
    }
    if forall i | 0 <= i < |times| :: NotSkipped(tm, times, i) {
      AllAnswersTrue(tm, times, |times|);
    }
  }

  lemma AfterFirst(tm: Timing, now: nat)
    requires tm.Valid()
    ensures After(tm, [now]) == Refresh(tm, NO_WINDOW, now)
  {
    assert [now][..0] == [];
  }

  /** The first slot of the second superframe goes unnoticed when the call before it found the first window open. */
  lemma LateCallMissesSlot()
    ensures var tm := Timing(100, 60, 10);
      tm.Valid() && Answer(tm, [0]) == 0 && Answer(tm, [0, 105]) == -1 && StatelessSlot(tm, 105) == 0
  {
    var tm := Timing(100, 60, 10);
    AfterFirst(tm, 0);
    var times: seq<nat> := [0, 105];
    assert times[..1] == [0];
    assert After(tm, times) == Window(200, 260);
  }

  lemma {:induction false} AllAnswersTrue(tm: Timing, times: seq<nat>, n: nat)
    requires tm.Valid() && NonDecreasing(times) && n <= |times|
    requires forall i | 0 <= i < |times| :: NotSkipped(tm, times, i)
    ensures forall i | 0 <= i < n :: Answer(tm, times[..i + 1]) == StatelessSlot(tm, times[i])
  {
    if n > 0 {
      AllAnswersTrue(tm, times, n - 1);
      CurrentAfter(tm, times, n - 1);
    }
  }

  // ---- Looking up a slot -------------------------------------------------------------------------

  /** Seconds until slot `n`, as `epoch_and_offset` computes them on a window refreshed at `now`. */
  function OffsetTo(tm: Timing, w: Window, n: nat, now: nat): int
    requires tm.Valid()
  {
    var current := SlotIn(tm, w, now);
    if current < 0 || n < current then NextStart(now, tm.frequency) - now + n * tm.duration
    else if n == current then 0
    else tm.duration - (now - w.start) % tm.duration + (n - current - 1) * tm.duration
  }

  /** Slot `n` is one of the superframe's slots. */
  predicate IsSlot(tm: Timing, n: nat) { n * tm.duration + tm.duration <= tm.length }

  lemma SlotExists(mac: MacParams, n: Byte)
    requires mac.Valid() && n < mac.slotCount
    ensures IsSlot(mac.Schedule(), n)
  {
    var d := mac.Schedule().duration;
    MulStep(n, d);
    MulMono(n as nat + 1, mac.slotCount, d);
  }

  lemma SlotRange(tm: Timing, t: nat, n: nat)
    requires tm.Valid() && IsSlot(tm, n)
    ensures var into := t - SuperframeStart(t, tm.frequency);
      StatelessSlot(tm, t) == n <==> n * tm.duration <= into < n * tm.duration + tm.duration
  {
    QuotientIff(t - SuperframeStart(t, tm.frequency), n, tm.duration);
  }

  lemma SlotOrder(tm: Timing, t: nat, n: nat)
    requires tm.Valid() && IsSlot(tm, n) && StatelessSlot(tm, t) >= 0
    ensures var into := t - SuperframeStart(t, tm.frequency);
      && (n < StatelessSlot(tm, t) <==> n * tm.duration + tm.duration <= into)
      && (n > StatelessSlot(tm, t) <==> into < n * tm.duration)
  {
    var d, into := tm.duration, t - SuperframeStart(t, tm.frequency);
    QuotientOrder(into, n, d);
  }

  lemma QuotientOrder(x: nat, n: nat, d: nat)
    requires d > 0
    ensures n < x / d <==> n * d + d <= x
    ensures x / d < n <==> x < n * d
  {
    var q := x / d;
    QuotientIff(x, q, d);
    if n < q {
      MulMono(n + 1, q, d);
      MulStep(n, d);
    } else if q < n {
      MulMono(q + 1, n, d);
      MulStep(q, d);
    }
  }

  /** Distance from inside a window to a later slot of it. */
  lemma LaterSlotOffset(into: nat, n: nat, d: nat)
    requires d > 0 && into / d < n
    ensures into + (d - into % d + (n - into / d - 1) * d) == n * d
  {
    var q := into / d;
    MulStep(n - q - 1, d);
    MulSplit(q, n - q, d);
  }

  lemma MulSplit(a: nat, b: nat, d: nat)
    ensures (a + b) * d == a * d + b * d
  {
  }

  /** Where the looked-up slot starts, unless it is running now. */
  function LookupStart(tm: Timing, w: Window, n: nat, now: nat): nat
    requires tm.Valid()
  {
    if SlotIn(tm, w, now) < 0 || n < SlotIn(tm, w, now) then NextStart(now, tm.frequency) else w.start
  }

  lemma LookupEpoch(tm: Timing, w: Window, n: nat, now: nat)
    requires tm.Valid() && Aligned(tm, w) && IsSlot(tm, n)
    ensures IsStart(LookupStart(tm, w, n, now), tm.frequency)
    ensures now + OffsetTo(tm, w, n, now)
         == if SlotIn(tm, w, now) == n then now else LookupStart(tm, w, n, now) + n * tm.duration
  {
    StartIsStart(now, tm.frequency);
    var current := SlotIn(tm, w, now);
    if 0 <= current < n { LaterSlotOffset(now - w.start, n, tm.duration); }
  }

  lemma LookupBounds(tm: Timing, w: Window, n: nat, now: nat)
    requires tm.Valid() && Aligned(tm, w) && IsSlot(tm, n)
    ensures 0 <= OffsetTo(tm, w, n, now) < 2 * tm.frequency
  {
    LookupEpoch(tm, w, n, now);
    AlignedSlot(tm, w, now);
    if SlotIn(tm, w, now) >= 0 { SlotOrder(tm, now, n); }
  }

  lemma SlotFromStart(tm: Timing, start: nat, n: nat, t: nat)
    requires tm.Valid() && IsStart(start, tm.frequency) && IsSlot(tm, n) && t == start + n * tm.duration
    ensures StatelessSlot(tm, t) == n
  {
    StartIsUnique(start, t, tm.frequency);
    SlotRange(tm, t, n);
  }

  /** From every reachable clock the looked-up epoch lies in the slot asked for. */
  lemma LookupIsExact(tm: Timing, w: Window, n: nat, now: nat)
    requires tm.Valid() && Aligned(tm, w) && IsSlot(tm, n)
    ensures 0 <= OffsetTo(tm, w, n, now)
    ensures StatelessSlot(tm, now + OffsetTo(tm, w, n, now)) == n
  {
    LookupBounds(tm, w, n, now);
    LookupEpoch(tm, w, n, now);
    if SlotIn(tm, w, now) == n {
      AlignedSlot(tm, w, now);
    } else {
      SlotFromStart(tm, LookupStart(tm, w, n, now), n, now + OffsetTo(tm, w, n, now));
    }
  }

  /** No time from `now` up to (not including) `epoch` lies in slot `n`. */
  ghost predicate NoneBefore(tm: Timing, n: nat, now: nat, epoch: int)
    requires tm.Valid()
  {
    forall t: nat | now <= t < epoch :: StatelessSlot(tm, t) != n
  }

  /** The cached window did not skip slot `n`: the cache agrees with the true slot, or the slot is
      behind already, or a superframe just begins. */
  predicate NotMissed(tm: Timing, w: Window, n: nat, now: nat)
    requires tm.Valid()
  {
    || SlotIn(tm, w, now) == StatelessSlot(tm, now)
    || n < StatelessSlot(tm, now)
    || IsStart(now, tm.frequency)
  }

  /** The epoch is the first time in slot `n` if and only if the cached window did not skip that time. */
  lemma LookupIsLeastIff(tm: Timing, w: Window, n: nat, now: nat)
    requires tm.Valid() && Aligned(tm, w) && IsSlot(tm, n)
    ensures NoneBefore(tm, n, now, now + OffsetTo(tm, w, n, now)) <==> NotMissed(tm, w, n, now)
    ensures NotMissed(tm, w, n, now) ==> OffsetTo(tm, w, n, now) < tm.frequency
  {
    if NotMissed(tm, w, n, now) {
      LookupIsLeast(tm, w, n, now);
    } else {
      var t := MissedTime(tm, w, n, now);
    }
  }

  lemma LookupIsLeast(tm: Timing, w: Window, n: nat, now: nat)
    requires tm.Valid() && Aligned(tm, w) && IsSlot(tm, n) && NotMissed(tm, w, n, now)
    ensures NoneBefore(tm, n, now, now + OffsetTo(tm, w, n, now))
    ensures OffsetTo(tm, w, n, now) < tm.frequency
  {
    LookupEpoch(tm, w, n, now);
    AlignedSlot(tm, w, now);
    var base, f, epoch := SuperframeStart(now, tm.frequency), tm.frequency, now + OffsetTo(tm, w, n, now);
    if StatelessSlot(tm, now) >= 0 { SlotOrder(tm, now, n); }
    assert epoch <= base + n * tm.duration || epoch == now
        || (base + n * tm.duration + tm.duration <= now && epoch == base + f + n * tm.duration);
    forall t: nat | now <= t < epoch ensures StatelessSlot(tm, t) != n {
      SlotRange(tm, t, n);
      StartIsStart(now, f);
      if t < base + f { StartIsUnique(base, t, f); } else { StartIsUnique(base + f, t, f); }
    }
  }

  /** A time in slot `n` that the lookup passes over. */
  lemma MissedTime(tm: Timing, w: Window, n: nat, now: nat) returns (t: nat)
    requires tm.Valid() && Aligned(tm, w) && IsSlot(tm, n) && !NotMissed(tm, w, n, now)
    ensures now <= t < now + OffsetTo(tm, w, n, now) && StatelessSlot(tm, t) == n
  {
    LookupEpoch(tm, w, n, now);
    AlignedSlot(tm, w, now);
    var base, f := SuperframeStart(now, tm.frequency), tm.frequency;
    SlotOrder(tm, now, n);
    if StatelessSlot(tm, now) == n {
      t := now;
    } else {
      t := base + n * tm.duration;
      StartIsStart(now, f);
      StartIsUnique(base, t, f);
      SlotRange(tm, t, n);
    }
  }

  /** The clock of `LateCallMissesSlot` looks up slot 3 of the third superframe, with slot 3 of the second ahead. */
  lemma LateLookupWaitsTooLong()
    ensures var tm, w := Timing(100, 60, 10), Window(200, 260);
      && tm.Valid() && Aligned(tm, w) && IsSlot(tm, 3) && w == After(tm, [0, 105])
      && 105 + OffsetTo(tm, w, 3, 105) == 230 && StatelessSlot(tm, 130) == 3
  {
    var tm := Timing(100, 60, 10);
    AfterFirst(tm, 0);
    var times: seq<nat> := [0, 105];
    assert times[..1] == [0];
  }

  // ---- In terms of the deployment's parameters -----------------------------------------------------

  /** A slot and its guard period, and the slots of a superframe, in seconds. */
  lemma SecondsOf(mac: MacParams)
    requires mac.Valid()
    ensures mac.slotSeconds as nat + mac.guardPeriod as nat > 0 && mac.frequency > 0
    ensures mac.Schedule().Valid() && mac.Schedule().frequency == mac.frequency as nat
    ensures mac.Schedule().duration == mac.slotSeconds as nat + mac.guardPeriod as nat
    ensures mac.Schedule().length == (mac.slotSeconds as nat + mac.guardPeriod as nat) * mac.slotCount as nat
  {
    TimingValid(mac);
  }

  /** Seconds into the superframe divided by seconds of a slot and its guard period, while slots last. */
  lemma SlotOfFields(mac: MacParams, now: nat)
    requires mac.Valid()
    ensures mac.Schedule().Valid() && mac.slotSeconds as nat + mac.guardPeriod as nat > 0 && mac.frequency > 0
    ensures var d, into := mac.slotSeconds as nat + mac.guardPeriod as nat, now % mac.frequency as nat;
      StatelessSlot(mac.Schedule(), now) == if into < d * mac.slotCount as nat then into / d else -1
  {
    SecondsOf(mac);
    StatelessSlotByRemainder(mac.Schedule(), now);
  }

  /** `slot` is the slot at time `t`. */
  predicate IsSlotAt(mac: MacParams, t: nat, slot: nat) {
    var d, f := mac.slotSeconds as nat + mac.guardPeriod as nat, mac.frequency as nat;
    d > 0 && f > 0 && t % f < d * mac.slotCount as nat && slot == (t % f) / d
  }

  /** Whatever window is cached, a slot that is read off it is the one at that time. */
  lemma CachedSlotOfFields(mac: MacParams, w: Window, now: nat)
    requires mac.Valid() && mac.Schedule().Valid() && Aligned(mac.Schedule(), w) && SlotIn(mac.Schedule(), w, now) >= 0
    ensures IsSlotAt(mac, now, SlotIn(mac.Schedule(), w, now))
  {
    AlignedSlot(mac.Schedule(), w, now);
    SlotOfFields(mac, now);
  }

  /** ... and the epoch that is looked up is in the slot asked for. */
  lemma LookupOfFields(mac: MacParams, w: Window, n: Byte, now: nat)
    requires mac.Valid() && mac.Schedule().Valid() && Aligned(mac.Schedule(), w) && n < mac.slotCount
    ensures 0 <= OffsetTo(mac.Schedule(), w, n, now) && IsSlotAt(mac, now + OffsetTo(mac.Schedule(), w, n, now), n)
  {
    SlotExists(mac, n);
    LookupIsExact(mac.Schedule(), w, n, now);
    SlotOfFields(mac, now + OffsetTo(mac.Schedule(), w, n, now));
  }

  /** Cached windows begin with a superframe and are as long as its slots. */
  lemma WindowOfFields(mac: MacParams, w: Window)
    requires mac.Valid() && mac.Schedule().Valid() && Aligned(mac.Schedule(), w)
    ensures mac.frequency > 0 && w.start % mac.frequency as nat == 0
    ensures w.end == w.start + (mac.slotSeconds as nat + mac.guardPeriod as nat) * mac.slotCount as nat
  {
    SecondsOf(mac);
    StartByRemainder(w.start, mac.frequency as nat);
  }

  /** Slots of 10 seconds with a guard period of 2: 11 seconds into the superframe is still slot 0, 55 is slot 4. */
  lemma GuardPeriodsCount()
    ensures var mac := MacParams(10, 120, 5, 2, 1);
      && mac.Valid() && mac.Schedule().Valid()
      && StatelessSlot(mac.Schedule(), 11) == 0 && StatelessSlot(mac.Schedule(), 55) == 4
      && StatelessSlot(mac.Schedule(), 60) == -1
  {
    var mac := MacParams(10, 120, 5, 2, 1);
    SlotOfFields(mac, 11);
    SlotOfFields(mac, 55);
    SlotOfFields(mac, 60);
  }

  // ---- The object --------------------------------------------------------------------------------

  /** No 32-bit overflow in what is computed at time `now`. */
  predicate InRange(mac: MacParams, now: U32) { now as int + 2 * mac.frequency as int < 0x1_0000_0000 }

  lemma WaitFits(mac: MacParams, w: Window, n: Byte, now: U32)
    requires mac.Valid() && mac.Schedule().Valid() && Aligned(mac.Schedule(), w)
    requires n < mac.slotCount && InRange(mac, now)
    ensures var wait := OffsetTo(mac.Schedule(), w, n as nat, now as nat);
      0 <= wait && now as int + wait < 0x1_0000_0000
  {
    SlotExists(mac, n);
    LookupBounds(mac.Schedule(), w, n, now);
  }

  class Clock {
    const mac: MacParams
    var windowStart: U32
    var windowEnd: U32

    ghost function View(): Window
      reads this
    {
      Window(windowStart, windowEnd)
    }

    /** The window is one that timing calls produce. */
    ghost predicate Valid()
      reads this
    {
      mac.Valid() && mac.Schedule().Valid() && Aligned(mac.Schedule(), View())
    }

    constructor (mac: MacParams, now: U32)
      requires mac.Valid() && InRange(mac, now)
      ensures this.mac == mac && Valid() && View() == After(mac.Schedule(), [now])
    {
      TimingValid(mac);
      AfterFirst(mac.Schedule(), now);
      var start, end := NextWindow(mac, now);
      this.mac, windowStart, windowEnd := mac, start, end;
    }

    /** The window that begins at `now` or next after it. */
    static method NextWindow(mac: MacParams, now: U32) returns (start: U32, end: U32)
      requires mac.Valid() && mac.Schedule().Valid() && InRange(mac, now)
      ensures Window(start, end) == Refresh(mac.Schedule(), NO_WINDOW, now)
      ensures Aligned(mac.Schedule(), Window(start, end))
    {
      NextTimeIntervalIsNextStart(now, mac.frequency);
      RefreshAligned(mac.Schedule(), NO_WINDOW, now);
      start := NextTimeInterval(now, mac.frequency);
      end := Wrap32(start as int + mac.Schedule().length);
    }

    method Update(now: U32)
      requires Valid() && InRange(mac, now)
      modifies this
      ensures Valid() && View() == Refresh(mac.Schedule(), old(View()), now)
    {
      if now >= windowEnd { windowStart, windowEnd := NextWindow(mac, now); }
    }

    method CurrentSlot(now: U32) returns (slot: int)
      requires Valid() && InRange(mac, now)
      modifies this
      ensures Valid() && View() == Refresh(mac.Schedule(), old(View()), now)
      ensures slot == SlotIn(mac.Schedule(), View(), now)
      ensures slot == -1 || (slot >= 0 && IsSlotAt(mac, now as nat, slot))
    {
      Update(now);
      if !(windowStart <= now < windowEnd) { return -1; }
      slot := (now as int - windowStart as int) / mac.Schedule().duration;
      CachedSlotOfFields(mac, View(), now as nat);
    }

    method EpochAndOffset(n: Byte, now: U32) returns (rc: LinkRC, epoch: U32, offset: U32)
      requires Valid() && InRange(mac, now)
      modifies this
      ensures Valid()
      ensures rc == if n >= mac.slotCount then InvalidSlot
                    else if SlotIn(mac.Schedule(), View(), now) < 0 then NotInWindow else Ok
      ensures rc == InvalidSlot ==> View() == old(View())
      ensures rc != InvalidSlot ==>
        && View() == Refresh(mac.Schedule(), old(View()), now)
        && offset as int == OffsetTo(mac.Schedule(), View(), n, now) && epoch as int == now as int + offset as int
        && IsSlotAt(mac, epoch as nat, n as nat)
    {
      if n >= mac.slotCount { return InvalidSlot, 0, 0; }
      var current := CurrentSlot(now);
      offset := WaitFor(n, current, now);
      epoch := Wrap32(now as int + offset as int);
      LookupOfFields(mac, View(), n, now as nat);
      rc := if current < 0 then NotInWindow else Ok;
    }

    /** The offset, by the slot that is running. */
    method WaitFor(n: Byte, current: int, now: U32) returns (offset: U32)
      requires Valid() && InRange(mac, now) && n < mac.slotCount && current == SlotIn(mac.Schedule(), View(), now)
      ensures offset as int == OffsetTo(mac.Schedule(), View(), n, now) && now as int + offset as int < 0x1_0000_0000
    {
      WaitFits(mac, View(), n, now);
      var wait := OffsetFrom(n, current, now);
      offset := Wrap32(wait);
    }

    method OffsetFrom(n: nat, current: int, now: U32) returns (wait: int)
      requires Valid() && InRange(mac, now) && current == SlotIn(mac.Schedule(), View(), now)
      ensures wait == OffsetTo(mac.Schedule(), View(), n, now)
    {
      var d := mac.Schedule().duration;
      if current < 0 || n < current {
        NextTimeIntervalIsNextStart(now, mac.frequency);
        wait := NextTimeInterval(now, mac.frequency) as int - now as int + n * d;
      } else if n == current {
        wait := 0;
      } else {
        wait := d - (now as int - windowStart as int) % d + (n - current - 1) * d;
      }
    }
  }
}
