/**
 V4L2Capture: acquisition and release of the device, ownership of its buffers, and the
 60 fps pacing of the capture loop. What the kernel answers is a parameter: every call may
 fail, and it is only assumed to hand out fresh descriptors and addresses and to dequeue
 buffers that were queued.
 */
module V4L2Capture {
  // ---------------------------------------------------------------- pacing

  /** Microseconds of one frame at 60 fps. */
  const FRAME_DURATION: int := 16667

  /** The loop's schedule: when the next frame is due, and what was counted so far. */
  datatype Pace = Pace(next: int, frames: nat, drops: nat)

  /** What one turn of the loop observes; times are the clock readings of that turn. */
  datatype Turn =
    | Interrupted(now: int)
    | PollFailed(now: int)
    | Timeout(now: int)
    | NothingQueued(now: int)
    | DequeueFailed(now: int)
    | RequeueFailed(now: int, index: nat)
    | Frame(now: int, index: nat, done: int)

  function AfterTimeout(p: Pace, now: int): Pace {
    if now > p.next + FRAME_DURATION then Pace(now, p.frames, p.drops + 1) else p
  }

  function AfterFrame(p: Pace, done: int): Pace {
    var due := p.next + FRAME_DURATION;
    Pace(if done > due + FRAME_DURATION * 2 then done else due, p.frames + 1, p.drops)
  }

  /** A turn that ends the loop on an error. */
  predicate Fatal(t: Turn) { t.PollFailed? || t.DequeueFailed? || t.RequeueFailed? }

  function PaceStep(p: Pace, t: Turn): Pace {
    match t
    case Timeout(now) => AfterTimeout(p, now)
    case Frame(_, _, done) => AfterFrame(p, done)
    case DequeueFailed(_) => p.(drops := p.drops + 1)
    case _ => p
  }

  function RunPace(start: int, turns: seq<Turn>): Pace {
    if turns == [] then Pace(start, 0, 0)
    else PaceStep(RunPace(start, turns[..|turns| - 1]), turns[|turns| - 1])
  }

  predicate NoneFatal(turns: seq<Turn>) { forall t :: t in turns ==> !Fatal(t) }

  /** At every loop head, what was counted fits into the frame slots up to the next due time. */
  lemma {:induction false} CountsFitSchedule(start: int, turns: seq<Turn>)
    requires NoneFatal(turns)
    ensures var p := RunPace(start, turns);
            (p.frames + p.drops) * FRAME_DURATION <= p.next - start
  {
    if turns == [] {
    } else {
      var before, t := turns[..|turns| - 1], turns[|turns| - 1];
      CountsFitSchedule(start, before);
      assert t in turns;
      var p := RunPace(start, before);
      assert (p.frames + p.drops + 1) * FRAME_DURATION == (p.frames + p.drops) * FRAME_DURATION + FRAME_DURATION;
    }
  }

  /**
   When a timeout is counted as a drop, frames and drops together do not exceed the frame
   slots that have elapsed on the clock.
   */
  lemma DropsWithinElapsedSlots(start: int, turns: seq<Turn>, now: int)
    requires NoneFatal(turns)
    requires var p := RunPace(start, turns); AfterTimeout(p, now).drops > p.drops
    ensures var p := RunPace(start, turns + [Timeout(now)]);
            (p.frames + p.drops) * FRAME_DURATION <= now - start
  {
    var all := turns + [Timeout(now)];
    assert all[..|all| - 1] == turns;
    assert forall t :: t in all ==> t in turns || t == Timeout(now);
    CountsFitSchedule(start, all);
  }

  /** After a processed frame the schedule lags the clock by at most two frames. */
  lemma ScheduleLagBounded(start: int, turns: seq<Turn>)
    requires turns != [] && turns[|turns| - 1].Frame?
    ensures turns[|turns| - 1].done - RunPace(start, turns).next <= 2 * FRAME_DURATION
  {
  }

  // ---------------------------------------------------------------- the 60 fps grid

  /** The clock reading of this turn is too far behind the schedule: one slot for a timeout, three for a frame. */
  predicate Late(p: Pace, t: Turn) {
    match t
    case Timeout(now) => now - p.next > FRAME_DURATION
    case Frame(_, _, done) => done - p.next > 3 * FRAME_DURATION
    case _ => false
  }

  predicate NeverLate(start: int, turns: seq<Turn>) {
    turns == [] ||
    (NeverLate(start, turns[..|turns| - 1]) && !Late(RunPace(start, turns[..|turns| - 1]), turns[|turns| - 1]))
  }

  /** How many timeouts came late, and how many frames there were. */
  ghost function LateTimeouts(start: int, turns: seq<Turn>): nat {
    if turns == [] then 0
    else
      var before, t := turns[..|turns| - 1], turns[|turns| - 1];
      LateTimeouts(start, before) + if t.Timeout? && Late(RunPace(start, before), t) then 1 else 0
  }

  ghost function FramesAmong(turns: seq<Turn>): nat {
    if turns == [] then 0 else FramesAmong(turns[..|turns| - 1]) + if turns[|turns| - 1].Frame? then 1 else 0
  }

  ghost function FailedDequeues(turns: seq<Turn>): nat {
    if turns == [] then 0
    else FailedDequeues(turns[..|turns| - 1]) + if turns[|turns| - 1].DequeueFailed? then 1 else 0
  }

  /** A drop is counted for every late timeout and failed dequeue and for nothing else, a frame for every frame. */
  lemma {:induction false} DropsAreLateTimeouts(start: int, turns: seq<Turn>)
    ensures RunPace(start, turns).drops == LateTimeouts(start, turns) + FailedDequeues(turns)
    ensures RunPace(start, turns).frames == FramesAmong(turns)
  {
    if turns == [] {
    } else {
      DropsAreLateTimeouts(start, turns[..|turns| - 1]);
    }
  }

  /**
   As long as no turn is late, and only so long, the schedule is exactly one slot per frame from the
   start; once a turn was late it stays ahead of what was counted.
   */
  lemma {:induction false} OnTheGridIffNeverLate(start: int, turns: seq<Turn>)
    requires NoneFatal(turns)
    ensures var p := RunPace(start, turns);
            && (p.next == start + (p.frames + p.drops) * FRAME_DURATION <==> NeverLate(start, turns))
            && p.next >= start + (p.frames + p.drops) * FRAME_DURATION
            && (NeverLate(start, turns) ==> p.drops == 0)
  {
    if turns == [] {
    } else {
      var before, t := turns[..|turns| - 1], turns[|turns| - 1];
      assert t in turns;
      OnTheGridIffNeverLate(start, before);
      var p := RunPace(start, before);
      assert (p.frames + p.drops + 1) * FRAME_DURATION == (p.frames + p.drops) * FRAME_DURATION + FRAME_DURATION;
    }
  }

  /** A late turn sets the schedule to its clock reading. */
  lemma LateMeetsTheClock(start: int, turns: seq<Turn>, t: Turn)
    requires Late(RunPace(start, turns), t)
    ensures RunPace(start, turns + [t]).next == if t.Timeout? then t.now else t.done
  {
    assert (turns + [t])[..|turns|] == turns;
  }

  // ---------------------------------------------------------------- the kernel

  /** What the kernel answers for one buffer: its query with the length, the mapping, the queueing. */
  datatype BufferAnswer = BufferAnswer(query: bool, length: nat, mapped: bool, queue: bool)

  /** What device and kernel answer to a start; `buffers` has an entry for every buffer granted. */
  datatype Answers = Answers(found: bool, opens: bool, suits: bool, dmabuf: bool, grants: bool,
                             buffers: seq<BufferAnswer>, streams: bool)

  predicate GoodBuffer(b: BufferAnswer) { b.query && b.mapped && b.queue }

  /** The buffers can be set up: the request is granted, for two at least, and each works. */
  predicate SetsUp(a: Answers) { a.grants && |a.buffers| >= 2 && forall b :: b in a.buffers ==> GoodBuffer(b) }

  predicate Starts(a: Answers) { a.found && a.opens && a.suits && SetsUp(a) && a.streams }

  datatype Address = Null | MapFailed | At(address: nat)

  datatype Buffer = Buffer(start: Address, length: nat)

  /** The descriptors, mappings and queued buffers that the kernel holds for this capture. */
  class Kernel {
    var fds: set<int>
    var mappings: set<(nat, nat)>
    var queued: set<nat>
    var nextFd: nat
    var nextAddress: nat

    ghost predicate Valid()
      reads this
    {
      && (forall f :: f in fds ==> 0 <= f < nextFd)
      && (forall m :: m in mappings ==> m.0 < nextAddress)
    }

    constructor ()
      ensures Valid() && fds == {} && mappings == {} && queued == {}
    {
      fds, mappings, queued, nextFd, nextAddress := {}, {}, {}, 3, 0;
    }

    method Open(granted: bool) returns (fd: int)
      requires Valid()
      modifies this`fds, this`nextFd, this`queued
      ensures Valid() && (fd >= 0 <==> granted)
      ensures fd < 0 ==> fd == -1 && fds == old(fds) && queued == old(queued)
      ensures fd >= 0 ==> fd !in old(fds) && fds == old(fds) + {fd} && queued == {}
    {
      if !granted { return -1; }
      queued := {};
      fd := nextFd;
      fds, nextFd := fds + {fd}, nextFd + 1;
    }

    /** Closing a descriptor that is not open would be a double release. */
    method Close(fd: int)
      requires Valid() && fd in fds
      modifies this`fds, this`queued
      ensures Valid() && fds == old(fds) - {fd} && queued == {}
    {
      fds := fds - {fd};
      queued := {};
    }

    method Mmap(length: nat, granted: bool) returns (a: Address)
      requires Valid()
      modifies this`mappings, this`nextAddress
      ensures Valid()
      ensures if granted then a.At? else a.MapFailed?
      ensures !granted ==> mappings == old(mappings)
      ensures granted ==> mappings == old(mappings) + {(a.address, length)}
      ensures granted ==> forall m :: m in old(mappings) ==> m.0 != a.address
    {
      if !granted { return MapFailed; }
      a := At(nextAddress);
      mappings, nextAddress := mappings + {(nextAddress, length)}, nextAddress + 1;
    }

    /** Unmapping needs the very address and length of a live mapping. */
    method Munmap(address: nat, length: nat)
      requires Valid() && (address, length) in mappings
      modifies this`mappings
      ensures Valid() && mappings == old(mappings) - {(address, length)}
    {
      mappings := mappings - {(address, length)};
    }

    method QueueBuffer(index: nat, granted: bool)
      modifies this`queued
      ensures queued == if granted then old(queued) + {index} else old(queued)
    {
      if granted { queued := queued + {index}; }
    }
  }

  // ---------------------------------------------------------------- the capture object

  function MappingOf(b: Buffer): (nat, nat)
    requires b.start.At?
  {
    (b.start.address, b.length)
  }

  /** The mappings recorded in the buffer vector. */
  ghost function Recorded(buffers: seq<Buffer>): set<(nat, nat)> {
    set b | b in buffers && b.start.At? :: MappingOf(b)
  }

  predicate Distinct(buffers: seq<Buffer>) {
    forall i, j :: 0 <= i < j < |buffers| && buffers[i].start.At? && buffers[j].start.At? ==>
      buffers[i].start.address != buffers[j].start.address
  }

  function AllIndices(n: nat): (s: set<nat>)
    ensures forall i :: i in s <==> 0 <= i < n
  {
    if n == 0 then {} else AllIndices(n - 1) + {n - 1}
  }

  lemma RecordedStep(buffers: seq<Buffer>, i: nat, b: Buffer)
    requires i < |buffers| && !buffers[i].start.At?
    ensures Recorded(buffers[i := b]) == Recorded(buffers) + (if b.start.At? then {(b.start.address, b.length)} else {})
  {
    var after := buffers[i := b];
    forall c | c in buffers && c.start.At? ensures c in after {
      var k :| 0 <= k < |buffers| && buffers[k] == c;
      assert after[k] == c;
    }
    assert after[i] == b;
  }

  lemma RecordedSplit(buffers: seq<Buffer>, i: nat)
    requires i < |buffers| && Distinct(buffers)
    ensures Recorded(buffers[i..]) ==
            Recorded(buffers[i + 1..]) + (if buffers[i].start.At? then {MappingOf(buffers[i])} else {})
    ensures buffers[i].start.At? ==> MappingOf(buffers[i]) !in Recorded(buffers[i + 1..])
  {
    assert buffers[i..] == [buffers[i]] + buffers[i + 1..];
    forall c | c in buffers[i + 1..] && c.start.At? && buffers[i].start.At?
      ensures c.start.address != buffers[i].start.address
    {
      var k :| 0 <= k < |buffers[i + 1..]| && buffers[i + 1..][k] == c;
      assert buffers[i + 1 + k] == c;
    }
  }

  class V4L2Capture {
    const kernel: Kernel
    var fd: int
    var buffers: seq<Buffer>
    var capturing: bool
    var shouldStop: bool
    var hasError: bool
    var dmabufSupported: bool
    var frameCallback: bool
    var framesCaptured: nat
    var framesDropped: nat

    /** Exactly what is recorded is live: nothing leaked, nothing released twice. */
    ghost predicate Holds()
      reads this, kernel
    {
      && kernel.Valid()
      && Distinct(buffers)
      && kernel.mappings == Recorded(buffers)
      && kernel.fds == (if fd >= 0 then {fd} else {})
      && fd >= -1
    }

    ghost predicate Valid()
      reads this, kernel
    {
      && Holds()
      && (!capturing ==> fd == -1 && buffers == [])
      && (capturing ==> fd >= 0 && |buffers| >= 2 && kernel.queued <= AllIndices(|buffers|))
    }

    constructor (kernel: Kernel)
      requires kernel.Valid() && kernel.fds == {} && kernel.mappings == {}
      ensures Valid() && !capturing && this.kernel == kernel
    {
      this.kernel := kernel;
      fd, buffers := -1, [];
      capturing, shouldStop, hasError, dmabufSupported, frameCallback := false, false, false, false, false;
      framesCaptured, framesDropped := 0, 0;
    }

    method SetFrameCallback()
      modifies this`frameCallback
      ensures frameCallback
    {
      frameCallback := true;
    }

    method SetError()
      modifies this`hasError
      ensures hasError
    {
      hasError := true;
    }

    method InitializeDevice(opens: bool) returns (ok: bool)
      requires Holds() && fd == -1
      modifies this`fd, this`hasError, kernel
      ensures Holds() && ok == (fd >= 0) == opens && (!ok ==> hasError) && (ok ==> kernel.queued == {})
    {
      fd := kernel.Open(opens);
      if fd < 0 { SetError(); return false; }
      ok := true;
    }

    method ShutdownDevice()
      requires Holds()
      modifies this`fd, kernel
      ensures Holds() && fd == -1
    {
      if fd >= 0 {
        kernel.Close(fd);
        fd := -1;
      }
    }

    /** Asking for DMABUF only probes: the request is taken back and MMAP is used. */
    method TrySetupDmabuf(granted: bool) returns (ok: bool)
      modifies this`dmabufSupported
      ensures !ok && dmabufSupported == (old(dmabufSupported) || granted)
    {
      if !granted { return false; }
      dmabufSupported := true;
      ok := false;
    }

    method CleanupBuffers()
      requires Holds()
      modifies this`buffers, kernel`mappings
      ensures Holds() && buffers == []
    {
      var i := 0;
      while i < |buffers|
        invariant i <= |buffers|
        invariant buffers == old(buffers) && kernel.Valid() && kernel.mappings == Recorded(buffers[i..])
      {
        RecordedSplit(buffers, i);
        if buffers[i].start.At? {
          kernel.Munmap(buffers[i].start.address, buffers[i].length);
        }
        i := i + 1;
      }
      buffers := [];
    }

    /** One buffer: query, map, queue; each call may fail. */
    method MapBuffer(i: nat, a: BufferAnswer) returns (ok: bool)
      requires Holds() && i < |buffers| && buffers[i].start == Null
      modifies this`buffers, this`hasError, kernel
      ensures Holds() && |buffers| == |old(buffers)| && fd == old(fd) && ok == GoodBuffer(a)
      ensures forall j :: 0 <= j < |buffers| && j != i ==> buffers[j] == old(buffers[j])
      ensures ok ==> kernel.queued == old(kernel.queued) + {i} && buffers[i].start.At? && buffers[i].length == a.length
      ensures !ok ==> hasError && kernel.queued == old(kernel.queued)
      ensures ok ==> hasError == old(hasError)
    {
      if !a.query { SetError(); return false; }
      var start := kernel.Mmap(a.length, a.mapped);
      RecordedStep(buffers, i, Buffer(start, a.length));
      buffers := buffers[i := Buffer(start, a.length)];
      if start == MapFailed { SetError(); return false; }
      kernel.QueueBuffer(i, a.queue);
      ok := a.queue;
      if !ok { SetError(); }
    }

    /** Every buffer granted is mapped, at the length the kernel says. */
    ghost predicate MapsAll(answers: seq<BufferAnswer>)
      reads this
    {
      |buffers| == |answers| && forall i :: 0 <= i < |buffers| ==>
        buffers[i].start.At? && buffers[i].length == answers[i].length
    }

    method SetupBuffers(a: Answers) returns (ok: bool)
      requires Holds() && fd >= 0 && buffers == [] && kernel.queued == {}
      modifies this`buffers, this`hasError, this`dmabufSupported, kernel
      ensures Holds() && fd == old(fd) && ok == SetsUp(a)
      ensures ok ==> kernel.queued == AllIndices(|buffers|) && MapsAll(a.buffers) && hasError == old(hasError)
      ensures !ok ==> buffers == [] && hasError
    {
      var dmabuf := TrySetupDmabuf(a.dmabuf);
      if !a.grants { SetError(); return false; }
      var granted := |a.buffers|;
      if granted < 2 { SetError(); return false; }
      buffers := seq(granted, _ => Buffer(Null, 0));
      var i := 0;
      while i < granted
        invariant i <= granted == |buffers| && Holds() && fd == old(fd)
        invariant kernel.queued == AllIndices(i) && hasError == old(hasError)
        invariant forall j :: 0 <= j < i ==> GoodBuffer(a.buffers[j])
        invariant forall j :: 0 <= j < i ==> buffers[j].start.At? && buffers[j].length == a.buffers[j].length
        invariant forall j :: i <= j < granted ==> buffers[j].start == Null
      {
        var mapped := MapBuffer(i, a.buffers[i]);
        if !mapped {
          assert a.buffers[i] in a.buffers;
          CleanupBuffers();
          return false;
        }
        i := i + 1;
      }
      ok := true;
    }

    /**
     Whatever fails on the way, a start either ends with every buffer mapped and queued or
     gives everything back.
     */
    method StartCapture(a: Answers) returns (ok: bool)
      requires Valid()
      modifies this, kernel
      ensures Valid() && capturing == ok
      ensures ok <==> old(capturing) || Starts(a)
      ensures old(capturing) ==> unchanged(this) && unchanged(kernel)
      ensures ok && !old(capturing) ==>
                kernel.queued == AllIndices(|buffers|) && MapsAll(a.buffers) && !shouldStop && !hasError
                && framesCaptured == 0 && framesDropped == 0 && frameCallback == old(frameCallback)
      ensures !ok ==> kernel.fds == {} && kernel.mappings == {} && hasError
    {
      if capturing { return true; }
      if !a.found { SetError(); return false; }
      ok := InitializeDevice(a.opens);
      if !ok { return false; }
      if !a.suits { SetError(); ShutdownDevice(); return false; }
      ok := SetupBuffers(a);
      if !ok { ShutdownDevice(); return false; }
      if !a.streams {
        SetError();
        CleanupBuffers();
        ShutdownDevice();
        return false;
      }
      framesCaptured, framesDropped := 0, 0;
      hasError := false;
      shouldStop := false;
      capturing := true;
    }

    method StopCapture()
      requires Valid()
      modifies this, kernel
      ensures Valid() && !capturing
      ensures kernel.fds == {} && kernel.mappings == {} && hasError == old(hasError)
      ensures framesCaptured == old(framesCaptured) && framesDropped == old(framesDropped)
      ensures shouldStop == (old(shouldStop) || old(capturing))
    {
      if !capturing { return; }
      shouldStop := true;
      capturing := false;
      CleanupBuffers();
      ShutdownDevice();
    }

    /** Runs the callback; it is only ever given the one buffer the application owns. */
    method SendFrame(index: nat)
      requires index < |buffers| && kernel.queued == AllIndices(|buffers|) - {index}
      modifies this`framesCaptured
      ensures framesCaptured == old(framesCaptured) + if frameCallback then 1 else 0
    {
      if frameCallback { framesCaptured := framesCaptured + 1; }
    }

    /** One dequeued frame: callback, requeue, and the schedule moved on. */
    method ProcessFrame(pace: Pace, index: nat, done: int) returns (after: Pace)
      requires index < |buffers| && kernel.queued == AllIndices(|buffers|)
      modifies this`framesCaptured, kernel`queued
      ensures kernel.queued == old(kernel.queued)
      ensures framesCaptured == old(framesCaptured) + if frameCallback then 1 else 0
      ensures after == AfterFrame(pace, done)
    {
      kernel.queued := kernel.queued - {index};
      SendFrame(index);
      kernel.queued := kernel.queued + {index};
      var next := pace.next + FRAME_DURATION;
      if done > next + FRAME_DURATION * 2 { next := done; }
      after := Pace(next, pace.frames + 1, pace.drops);
    }

    /** A turn names a buffer the driver does not hold: the dequeue finds nothing. */
    static function Possible(t: Turn, queued: set<nat>): (r: Turn)
      ensures r == t <==> (Delivers(t) ==> t.index in queued)
      ensures Delivers(r) ==> r.index in queued
    {
      if t.Frame? && t.index !in queued then NothingQueued(t.now)
      else if t.RequeueFailed? && t.index !in queued then NothingQueued(t.now)
      else t
    }

    /** The buffer a turn leaves with the application. */
    static function LeftBy(t: Turn): set<nat> { if t.RequeueFailed? then {t.index} else {} }

    /** Whether the turn ran the callback. */
    static predicate Delivers(t: Turn) { t.Frame? || t.RequeueFailed? }

    /** A timeout, counted as a drop when the due frame is a whole frame late. */
    method TimeOut(pace: Pace, now: int) returns (after: Pace)
      modifies this`framesDropped
      ensures after == AfterTimeout(pace, now)
      ensures framesDropped == old(framesDropped) + (after.drops - pace.drops)
    {
      after := pace;
      if now > pace.next + FRAME_DURATION {
        framesDropped := framesDropped + 1;
        after := Pace(now, pace.frames, pace.drops + 1);
      }
    }

    /** A frame whose buffer cannot be given back. */
    method LoseBuffer(index: nat)
      requires index < |buffers| && kernel.queued == AllIndices(|buffers|)
      modifies this`framesCaptured, this`hasError, kernel`queued
      ensures kernel.queued == AllIndices(|buffers|) - {index} && hasError
      ensures framesCaptured == old(framesCaptured) + if frameCallback then 1 else 0
    {
      kernel.queued := kernel.queued - {index};
      SendFrame(index);
      SetError();
    }

    /** One turn of the loop; `go` says that the loop goes on. */
    method TakeTurn(t: Turn, pace: Pace) returns (after: Pace, go: bool)
      requires kernel.queued == AllIndices(|buffers|) && Possible(t, kernel.queued) == t
      modifies this`framesCaptured, this`framesDropped, this`hasError, kernel`queued
      ensures after == PaceStep(pace, t) && go == !Fatal(t)
      ensures hasError == (old(hasError) || Fatal(t))
      ensures kernel.queued == AllIndices(|buffers|) - LeftBy(t)
      ensures framesDropped == old(framesDropped) + (after.drops - pace.drops)
      ensures framesCaptured == old(framesCaptured) + if frameCallback && Delivers(t) then 1 else 0
    {
      after, go := pace, !Fatal(t);
      match t {
        case Interrupted(_) =>
        case NothingQueued(_) =>
        case PollFailed(_) => SetError();
        case Timeout(now) => after := TimeOut(pace, now);
        case DequeueFailed(_) =>
          framesDropped := framesDropped + 1;
          after := pace.(drops := pace.drops + 1);
          SetError();
        case RequeueFailed(_, index) => LoseBuffer(index);
        case Frame(_, index, done) => after := ProcessFrame(pace, index, done);
      }
    }

    /** The turns follow the script, and none before the last is fatal. */
    static ghost predicate Follows(turns: seq<Turn>, script: seq<Turn>, n: nat) {
      |turns| <= |script| &&
      forall k :: 0 <= k < |turns| ==>
        turns[k] == Possible(script[k], AllIndices(n)) && (k < |turns| - 1 ==> !Fatal(turns[k]))
    }

    /** The loop ends with the script or at a fatal turn. */
    static predicate Ended(turns: seq<Turn>, script: seq<Turn>) {
      |turns| == |script| || (turns != [] && Fatal(turns[|turns| - 1]))
    }

    /** The turn that ended the loop left this buffer behind. */
    static ghost function Left(turns: seq<Turn>): set<nat> {
      if turns == [] then {} else LeftBy(turns[|turns| - 1])
    }

    static ghost function Deliveries(turns: seq<Turn>): nat {
      if turns == [] then 0
      else Deliveries(turns[..|turns| - 1]) + if Delivers(turns[|turns| - 1]) then 1 else 0
    }

    static lemma OneMoreTurn(start: int, turns: seq<Turn>, t: Turn)
      ensures var longer := turns + [t];
              && RunPace(start, longer) == PaceStep(RunPace(start, turns), t)
              && Deliveries(longer) == Deliveries(turns) + (if Delivers(t) then 1 else 0)
              && Left(longer) == LeftBy(t)
    {
      assert (turns + [t])[..|turns|] == turns;
    }

    static lemma FollowsOn(turns: seq<Turn>, script: seq<Turn>, n: nat)
      requires Follows(turns, script, n) && !Ended(turns, script)
      ensures Follows(turns + [Possible(script[|turns|], AllIndices(n))], script, n) && Left(turns) == {}
    {
    }

    /** The callback ran for every frame counted by the schedule, and once more for a buffer that was lost. */
    static lemma {:induction false} DeliveriesAreFrames(start: int, turns: seq<Turn>)
      requires forall k :: 0 <= k < |turns| - 1 ==> !Fatal(turns[k])
      ensures Deliveries(turns) == RunPace(start, turns).frames + |Left(turns)|
    {
      if turns == [] {
      } else {
        var before := turns[..|turns| - 1];
        DeliveriesAreFrames(start, before);
        assert before != [] ==> before[|before| - 1] == turns[|turns| - 2];
      }
    }

    /**
     The capture loop over any sequence of turns; it ends with the script (a stop request)
     or at the first fatal turn. At every loop head the driver owns every buffer.
     */
    method CaptureThread(start: int, script: seq<Turn>) returns (pace: Pace, ghost turns: seq<Turn>)
      requires Valid() && capturing && kernel.queued == AllIndices(|buffers|)
      modifies this`framesCaptured, this`framesDropped, this`hasError, kernel`queued
      ensures Valid() && capturing
      ensures Follows(turns, script, |buffers|) && Ended(turns, script) && pace == RunPace(start, turns)
      ensures turns != [] && Fatal(turns[|turns| - 1]) ==> hasError
      ensures kernel.queued == AllIndices(|buffers|) - Left(turns)
      ensures framesDropped == old(framesDropped) + pace.drops
      ensures framesCaptured == old(framesCaptured) + if frameCallback then Deliveries(turns) else 0
    {
      pace := Pace(start, 0, 0);
      turns := [];
      var i, go := 0, true;
      while i < |script| && go
        invariant i == |turns| && Follows(turns, script, |buffers|) && pace == RunPace(start, turns)
        invariant go <==> turns == [] || !Fatal(turns[|turns| - 1])
        invariant go || hasError
        invariant kernel.queued == AllIndices(|buffers|) - Left(turns)
        invariant framesDropped == old(framesDropped) + pace.drops
        invariant framesCaptured == old(framesCaptured) + if frameCallback then Deliveries(turns) else 0
      {
        FollowsOn(turns, script, |buffers|);
        var t := Possible(script[i], kernel.queued);
        OneMoreTurn(start, turns, t);
        pace, go := TakeTurn(t, pace);
        turns := turns + [t];
        i := i + 1;
      }
    }
  }
}
