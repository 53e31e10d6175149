/**
 The monitoring loop of runLoop with its clock: when does it conclude that frames have
 stopped? Times are milliseconds; the source compares whole seconds, and a difference of
 at least 5 whole seconds is a difference of at least 5000 ms.
 */
module StallWatchdog {
  const STALL_MS: int := 5000
  const WAKE_MS: int := 1000

  /**
   One round of the loop: whether a stop or restart was already requested at its test, then
   what is read after waking up.
   */
  datatype Wake = Wake(requested: bool, now: int, frames: nat, capturing: bool, stop: bool, restart: bool, error: bool)

  datatype Outcome = Stalled(at: nat) | Left(at: nat) | StillWatching

  predicate DueForCheck(check: int, w: Wake) { w.now - check >= STALL_MS }

  /** The loop from round i on, with the time and frame count of its last check. */
  function Watch(wakes: seq<Wake>, i: nat, check: int, count: nat): Outcome
    requires i <= |wakes|
    decreases |wakes| - i
  {
    if i == |wakes| then StillWatching
    else if wakes[i].requested then Left(i)
    else if DueForCheck(check, wakes[i]) && wakes[i].frames == count && wakes[i].capturing then Stalled(i)
    else if wakes[i].stop || wakes[i].restart || wakes[i].error then Left(i)
    else if DueForCheck(check, wakes[i]) then Watch(wakes, i + 1, wakes[i].now, wakes[i].frames)
    else Watch(wakes, i + 1, check, count)
  }

  /** The loop as written; `restart` is what it leaves in restart_requested_ itself. */
  method MonitorLoop(wakes: seq<Wake>, start: int, startFrames: nat) returns (outcome: Outcome, restart: bool)
    ensures outcome == Watch(wakes, 0, start, startFrames)
    ensures restart <==> outcome.Stalled?
  {
    var lastCheck, lastCount := start, startFrames;
    var i := 0;
    while i < |wakes|
      invariant i <= |wakes|
      invariant Watch(wakes, 0, start, startFrames) == Watch(wakes, i, lastCheck, lastCount)
    {
      var w := wakes[i];
      if w.requested { return Left(i), false; }
      if w.now - lastCheck >= STALL_MS {
        if w.frames == lastCount && w.capturing { return Stalled(i), true; }
        lastCheck := w.now;
        lastCount := w.frames;
      }
      if w.stop { return Left(i), false; }
      if w.restart { return Left(i), false; }
      if w.error { return Left(i), false; }
      i := i + 1;
    }
    return StillWatching, false;
  }

  /** The clock does not run backwards and the frame counter only grows. */
  predicate Ordered(wakes: seq<Wake>) {
    forall j, k :: 0 <= j < k < |wakes| ==> wakes[j].now <= wakes[k].now && wakes[j].frames <= wakes[k].frames
  }

  predicate After(wakes: seq<Wake>, i: nat, check: int, count: nat) {
    forall j :: i <= j < |wakes| ==> check <= wakes[j].now && count <= wakes[j].frames
  }

  /**
   No false alarm: a stall is only reported while capturing, at least 5 s after the loop
   began, and when every count read during the last 5 s was the same.
   */
  lemma {:induction false} StallMeansFiveQuietSeconds(wakes: seq<Wake>, i: nat, check: int, count: nat)
    requires i <= |wakes| && Ordered(wakes) && After(wakes, i, check, count)
    requires Watch(wakes, i, check, count).Stalled?
    ensures var k := Watch(wakes, i, check, count).at;
            && i <= k < |wakes| && wakes[k].capturing
            && wakes[k].now - check >= STALL_MS
            && (wakes[k].frames == count || wakes[i].now <= wakes[k].now - STALL_MS)
            && (forall j :: i <= j <= k && wakes[j].now > wakes[k].now - STALL_MS ==>
                  wakes[j].frames == wakes[k].frames)
    decreases |wakes| - i
  {
    var k := Watch(wakes, i, check, count).at;
    var w := wakes[i];
    if DueForCheck(check, w) && w.frames == count && w.capturing {
      assert k == i;
    } else if DueForCheck(check, w) {
      StallMeansFiveQuietSeconds(wakes, i + 1, w.now, w.frames);
    } else {
      StallMeansFiveQuietSeconds(wakes, i + 1, check, count);
    }
  }

  // ---------------------------------------------------------------- leaving for another reason

  /** Something other than a stall ends the loop in this round. */
  predicate Asks(w: Wake) { w.requested || w.stop || w.restart || w.error }

  predicate NoneAsks(wakes: seq<Wake>, from: nat, to: nat) {
    forall j :: from <= j < to && j < |wakes| ==> !Asks(wakes[j])
  }

  /**
   The loop is left for another reason exactly in the first round that has one, unless a stall has
   been reported by then, and goes on exactly as long as there is neither.
   */
  lemma {:induction false} LeftAtTheFirstReason(wakes: seq<Wake>, i: nat, check: int, count: nat)
    requires i <= |wakes|
    ensures var o := Watch(wakes, i, check, count);
            && (o.Left? ==> i <= o.at < |wakes| && Asks(wakes[o.at]) && NoneAsks(wakes, i, o.at))
            && (o.Stalled? ==> i <= o.at < |wakes| && !wakes[o.at].requested && NoneAsks(wakes, i, o.at))
            && (o.StillWatching? <==> NoneAsks(wakes, i, |wakes|) && !o.Stalled?)
    decreases |wakes| - i
  {
    if i == |wakes| {
    } else if DueForCheck(check, wakes[i]) {
      LeftAtTheFirstReason(wakes, i + 1, wakes[i].now, wakes[i].frames);
    } else {
      LeftAtTheFirstReason(wakes, i + 1, check, count);
    }
  }

  // ---------------------------------------------------------------- detection in time

  /** A round in which nothing but a stall can end the loop. */
  predicate Quiet(w: Wake) {
    w.capturing && !w.requested && !w.stop && !w.restart && !w.error
  }

  /** The time of the wake-up before round i. */
  function Before(wakes: seq<Wake>, i: nat, start: int): int
    requires i <= |wakes|
  {
    if i == 0 then start else wakes[i - 1].now
  }

  /** The loop wakes up at least once a second, and nothing else ends it. */
  predicate Undisturbed(wakes: seq<Wake>, start: int) {
    && (forall j :: 0 <= j < |wakes| ==> Quiet(wakes[j]))
    && (forall j :: 0 <= j < |wakes| ==> Before(wakes, j, start) <= wakes[j].now <= Before(wakes, j, start) + WAKE_MS)
  }

  /** From round q on the counter reads c. */
  predicate FramesStop(wakes: seq<Wake>, q: nat, c: nat) {
    forall j :: q <= j < |wakes| ==> wakes[j].frames == c
  }

  /**
   Frames have stopped by round i. Either the check under way began before the last frame,
   or it already carries the final count and began less than 6 s after it.
   */
  lemma {:induction false} QuietPhase(wakes: seq<Wake>, start: int, i: nat, check: int, count: nat,
                                      c: nat, last: int)
    requires i <= |wakes| && Undisturbed(wakes, start) && FramesStop(wakes, i, c)
    requires Before(wakes, i, start) - check < STALL_MS
    requires check <= last || (count == c && check < last + STALL_MS + WAKE_MS)
    ensures var o := Watch(wakes, i, check, count);
            && !o.Left?
            && (o.Stalled? ==> i <= o.at < |wakes| && wakes[o.at].now < last + 12000)
            && (o.StillWatching? ==> Before(wakes, |wakes|, start) < last + 11000)
    decreases |wakes| - i
  {
    if i == |wakes| {
    } else {
      var w := wakes[i];
      assert Quiet(w) && w.now <= Before(wakes, i, start) + WAKE_MS;
      if DueForCheck(check, w) {
        if count != c { QuietPhase(wakes, start, i + 1, w.now, c, c, last); }
      } else {
        QuietPhase(wakes, start, i + 1, check, count, c, last);
      }
    }
  }

  lemma BusyRound(wakes: seq<Wake>, start: int, i: nat, q: nat)
    requires i < q <= |wakes| && Undisturbed(wakes, start)
    ensures Quiet(wakes[i]) && Before(wakes, i + 1, start) == wakes[i].now <= Before(wakes, q, start)
    ensures Before(wakes, i, start) <= wakes[i].now <= Before(wakes, i, start) + WAKE_MS
  {
    TimesRise(wakes, start, i + 1, q);
  }

  /** The rounds up to the last frame either report a stall or hand over to the quiet phase. */
  lemma {:induction false} BusyPhase(wakes: seq<Wake>, start: int, i: nat, check: int, count: nat,
                                     q: nat, c: nat, last: int)
    requires i <= q <= |wakes| && Undisturbed(wakes, start) && FramesStop(wakes, q, c)
    requires Before(wakes, q, start) <= last
    requires Before(wakes, i, start) - check < STALL_MS && check <= Before(wakes, i, start) <= last
    ensures var o := Watch(wakes, i, check, count);
            && !o.Left?
            && (o.Stalled? ==> i <= o.at < |wakes| && wakes[o.at].now < last + 12000)
            && (o.StillWatching? ==> Before(wakes, |wakes|, start) < last + 11000)
    decreases q - i
  {
    if i == q {
      QuietPhase(wakes, start, i, check, count, c, last);
    } else {
      var w := wakes[i];
      BusyRound(wakes, start, i, q);
      if !DueForCheck(check, w) {
        BusyPhase(wakes, start, i + 1, check, count, q, c, last);
      } else if w.frames != count {
        BusyPhase(wakes, start, i + 1, w.now, w.frames, q, c, last);
      }
    }
  }

  lemma {:induction false} TimesRise(wakes: seq<Wake>, start: int, i: nat, q: nat)
    requires i <= q <= |wakes| && Undisturbed(wakes, start)
    ensures Before(wakes, i, start) <= Before(wakes, q, start)
    decreases q
  {
    if i == q {
    } else {
      TimesRise(wakes, start, i, q - 1);
      assert Before(wakes, q - 1, start) <= wakes[q - 1].now;
    }
  }

  /**
   Timely detection: frames stop at time `last` (every round from q on reads the final
   count, and the rounds before q woke up by then), nothing else ends the loop, and it
   runs on for 11 s: then the stall is reported less than 12 s after the last frame.
   */
  lemma StallDetectedWithinTwelveSeconds(wakes: seq<Wake>, start: int, startFrames: nat, q: nat, c: nat, last: int)
    requires q <= |wakes| && Undisturbed(wakes, start) && FramesStop(wakes, q, c)
    requires start <= last && Before(wakes, q, start) <= last
    requires Before(wakes, |wakes|, start) >= last + 11000
    ensures var o := Watch(wakes, 0, start, startFrames);
            o.Stalled? && o.at < |wakes| && wakes[o.at].now < last + 12000
  {
    BusyPhase(wakes, start, 0, start, startFrames, q, c, last);
  }
}
