/**
 Opening the audio device again while the device callback already runs. openDevice connects the
 stream, releases the loop, and only then resets the two ring positions, without the mutex that
 the callback holds. Every access to a position is a step of its own here. The writer takes no
 part: writeAudio and openDevice are taken to be called from one thread, so that no write that
 passed its test of the open device is still under way.
 */
module AudioReopen {
  import opened Common
  import P = PipeWireAudioOutput

  /** What openDevice does after connecting. */
  datatype Opener = ResetWrite | ResetRead | SetOpen | Opened

  /** Where the callback is: comparing the positions, loading them again, or in its read loop. */
  datatype Callback =
    | Quiet
    | CompareWrite(needed: nat)
    | CompareRead(needed: nat, w: nat)
    | LoadWrite(needed: nat, ahead: bool)
    | LoadRead(needed: nat, ahead: bool, w: nat)
    | Reading(n: nat, i: nat)
    | Advancing(n: nat, i: nat, r: nat)

  /** `overlapped` records that a callback was under way at a reset or between the two. */
  datatype State = State(writePos: nat, readPos: nat, opener: Opener, callback: Callback, overlapped: bool)

  datatype Event = OpenerStep | CallbackStep | CallbackCall(needed: nat)

  /** The ring is left from the session before with these positions; the stream is connected. */
  function Connected(w: nat, r: nat): State { State(w, r, ResetWrite, Quiet, false) }

  /** size_t arithmetic wraps around below zero. */
  function Unsigned(x: int): int { if x < 0 then x + 0x1_0000_0000_0000_0000 else x }

  function Available(size: nat, ahead: bool, w: nat, r: nat): int {
    Unsigned(if ahead then w - r else size - r + w)
  }

  /**
   Read in one piece the positions give the number of samples held; a write position that was reset
   after the comparison gives more than the ring has.
   */
  lemma AvailableIsHeld(size: nat, w: nat, r: nat)
    requires w < size && r < size <= 0x8000_0000_0000_0000
    ensures Available(size, w >= r, w, r) == P.Distance(size, w, r)
    ensures w < r ==> Available(size, true, w, r) > size
  {
  }

  function OpenerNext(s: State): State {
    match s.opener
    case ResetWrite => s.(writePos := 0, opener := ResetRead, overlapped := s.overlapped || !s.callback.Quiet?)
    case ResetRead => s.(readPos := 0, opener := SetOpen, overlapped := s.overlapped || !s.callback.Quiet?)
    case SetOpen => s.(opener := Opened)
    case Opened => s
  }

  function CallbackNext(size: nat, s: State): State
    requires size > 0
  {
    match s.callback
    case Quiet => s
    case CompareWrite(needed) => s.(callback := CompareRead(needed, s.writePos))
    case CompareRead(needed, w) => s.(callback := LoadWrite(needed, w >= s.readPos))
    case LoadWrite(needed, ahead) => s.(callback := LoadRead(needed, ahead, s.writePos))
    case LoadRead(needed, ahead, w) =>
      s.(callback := Reading(Max(0, Min(needed, Available(size, ahead, w, s.readPos))), 0))
    case Reading(n, i) => s.(callback := if i < n then Advancing(n, i, s.readPos) else Quiet)
    case Advancing(n, i, r) =>
      s.(readPos := if r < size then P.Succ(r, size) else 0, callback := Reading(n, i + 1))
  }

  function Apply(size: nat, s: State, e: Event): State
    requires size > 0
  {
    match e
    case OpenerStep => OpenerNext(s)
    case CallbackStep => CallbackNext(size, s)
    case CallbackCall(needed) =>
      if s.callback.Quiet?
      then s.(callback := CompareWrite(needed), overlapped := s.overlapped || s.opener.ResetRead?)
      else s
  }

  function Run(size: nat, start: State, schedule: seq<Event>): State
    requires size > 0
  {
    if schedule == [] then start
    else Apply(size, Run(size, start, schedule[..|schedule| - 1]), schedule[|schedule| - 1])
  }

  // ---------------------------------------------------------------- when it is safe

  /** Both positions are zero and a callback under way has seen nothing else: it will read nothing. */
  predicate Empty(s: State) {
    s.writePos == 0 && s.readPos == 0 &&
    match s.callback
    case Quiet => true
    case CompareWrite(_) => true
    case CompareRead(_, w) => w == 0
    case LoadWrite(_, ahead) => ahead
    case LoadRead(_, ahead, w) => ahead && w == 0
    case Reading(n, i) => n == 0
    case Advancing(_, _, _) => false
  }

  lemma EmptyStaysEmpty(size: nat, s: State, e: Event)
    requires size > 0 && Empty(s)
    ensures Empty(Apply(size, s, e))
  {
    match e {
      case OpenerStep =>
      case CallbackStep =>
      case CallbackCall(needed) =>
    }
  }

  predicate ResetDone(s: State) { s.opener.SetOpen? || s.opener.Opened? }

  /** As long as nothing overlaps, the resets find no callback, and leave the ring empty. */
  predicate ApartOk(s: State) {
    !s.overlapped ==>
      && (s.opener.ResetRead? ==> s.callback.Quiet? && s.writePos == 0)
      && (ResetDone(s) ==> Empty(s))
  }

  lemma {:induction false} ApartRun(size: nat, w: nat, r: nat, schedule: seq<Event>)
    requires size > 0
    ensures ApartOk(Run(size, Connected(w, r), schedule))
  {
    if schedule == [] {
    } else {
      ApartRun(size, w, r, schedule[..|schedule| - 1]);
      var s, e := Run(size, Connected(w, r), schedule[..|schedule| - 1]), schedule[|schedule| - 1];
      if ResetDone(s) && Empty(s) { EmptyStaysEmpty(size, s, e); }
    }
  }

  /** Unless a callback overlaps the reset, every new session starts with an empty ring. */
  lemma WithoutOverlapStartsEmpty(size: nat, w: nat, r: nat, schedule: seq<Event>)
    requires size > 0
    ensures var s := Run(size, Connected(w, r), schedule);
            ResetDone(s) && !s.overlapped ==> s.writePos == 0 && s.readPos == 0
  {
    ApartRun(size, w, r, schedule);
  }

  lemma {:induction false} FromZeroEmpty(size: nat, schedule: seq<Event>)
    requires size > 0
    ensures Empty(Run(size, Connected(0, 0), schedule))
  {
    if schedule == [] {
    } else {
      FromZeroEmpty(size, schedule[..|schedule| - 1]);
      EmptyStaysEmpty(size, Run(size, Connected(0, 0), schedule[..|schedule| - 1]), schedule[|schedule| - 1]);
    }
  }

  // ---------------------------------------------------------------- when it is not

  lemma Then(size: nat, start: State, schedule: seq<Event>, e: Event) returns (longer: seq<Event>)
    requires size > 0
    ensures longer == schedule + [e] && Run(size, start, longer) == Apply(size, Run(size, start, schedule), e)
  {
    longer := schedule + [e];
    assert longer[..|longer| - 1] == schedule;
  }

  /** A callback for one frame loads two different positions and is about to read one or two samples. */
  lemma CallbackSeesSamples(size: nat, start: State, before: seq<Event>) returns (schedule: seq<Event>)
    requires size > 0
    requires var s := Run(size, start, before);
             && s.callback.Quiet? && s.writePos != s.readPos && s.writePos < size && s.readPos < size
    ensures var s, s' := Run(size, start, before), Run(size, start, schedule);
            && s'.writePos == s.writePos && s'.readPos == s.readPos && s'.opener == s.opener
            && (s'.callback == Reading(1, 0) || s'.callback == Reading(2, 0))
  {
    schedule := Then(size, start, before, CallbackCall(2));
    schedule := Then(size, start, schedule, CallbackStep);
    schedule := Then(size, start, schedule, CallbackStep);
    schedule := Then(size, start, schedule, CallbackStep);
    schedule := Then(size, start, schedule, CallbackStep);
  }

  lemma OneSample(size: nat, start: State, before: seq<Event>) returns (schedule: seq<Event>)
    requires size > 0 && Run(size, start, before).callback.Reading?
    requires Run(size, start, before).callback.i < Run(size, start, before).callback.n
    requires Run(size, start, before).readPos < size
    ensures var s, s' := Run(size, start, before), Run(size, start, schedule);
            && s'.writePos == s.writePos && s'.opener == s.opener
            && s'.callback == Reading(s.callback.n, s.callback.i + 1)
            && s'.readPos == P.Succ(s.readPos, size)
  {
    schedule := Then(size, start, before, CallbackStep);
    schedule := Then(size, start, schedule, CallbackStep);
  }

  lemma FinishReset(size: nat, start: State, before: seq<Event>) returns (schedule: seq<Event>)
    requires size > 0
    ensures var s, s' := Run(size, start, before), Run(size, start, schedule);
            s'.callback == s.callback && (s.opener.ResetWrite? || s.opener.ResetRead? ==>
              s'.opener == SetOpen && s'.readPos == 0 && (s.opener.ResetWrite? || s.writePos == 0 ==> s'.writePos == 0))
  {
    schedule := before;
    if Run(size, start, schedule).opener.ResetWrite? { schedule := Then(size, start, schedule, OpenerStep); }
    if Run(size, start, schedule).opener.ResetRead? { schedule := Then(size, start, schedule, OpenerStep); }
  }

  /** The last sample of a read loop, read after the reset, leaves an odd position in a ring thought to be empty. */
  lemma LastSampleAfterReset(size: nat, start: State, before: seq<Event>) returns (schedule: seq<Event>)
    requires size >= 2
    requires var s := Run(size, start, before);
             && (s.opener.ResetWrite? || (s.opener.ResetRead? && s.writePos == 0))
             && s.callback.Reading? && s.callback.i + 1 == s.callback.n
    ensures var s := Run(size, start, schedule);
            s.opener.Opened? && s.callback.Quiet? && s.writePos == 0 && s.readPos == 1
  {
    schedule := FinishReset(size, start, before);
    schedule := OneSample(size, start, schedule);
    schedule := Then(size, start, schedule, CallbackStep);
    schedule := Then(size, start, schedule, OpenerStep);
  }

  /** From different positions some interleaving starts the new session out of phase. */
  lemma OutOfPhaseFrom(size: nat, start: State, before: seq<Event>) returns (schedule: seq<Event>)
    requires size >= 2
    requires var s := Run(size, start, before);
             && s.callback.Quiet? && s.writePos != s.readPos && s.writePos < size && s.readPos < size
             && (s.opener.ResetWrite? || (s.opener.ResetRead? && s.writePos == 0))
    ensures var s := Run(size, start, schedule);
            s.opener.Opened? && s.callback.Quiet? && s.writePos == 0 && s.readPos == 1
  {
    schedule := CallbackSeesSamples(size, start, before);
    if Run(size, start, schedule).callback.n == 2 { schedule := OneSample(size, start, schedule); }
    schedule := LastSampleAfterReset(size, start, schedule);
  }

  /** So does one from equal positions other than zero: between the two resets the ring looks filled. */
  lemma OutOfPhase(size: nat, w: nat, r: nat) returns (schedule: seq<Event>)
    requires size >= 2 && w < size && r < size && !(w == 0 && r == 0)
    ensures var s := Run(size, Connected(w, r), schedule);
            s.opener.Opened? && s.callback.Quiet? && s.writePos == 0 && s.readPos == 1
  {
    schedule := [];
    if w == r { schedule := Then(size, Connected(w, r), [], OpenerStep); }
    schedule := OutOfPhaseFrom(size, Connected(w, r), schedule);
  }

  /** A finished opening with no callback under way has the write position even and the read position even. */
  predicate InPhase(s: State) {
    s.opener.Opened? && s.callback.Quiet? ==> s.writePos % 2 == 0 && s.readPos % 2 == 0
  }

  /**
   Exactly when is opening safe whatever the callback does? When both positions were already
   zero, as they are on the first opening.
   */
  lemma OpeningAlwaysInPhaseIff(size: nat, w: nat, r: nat)
    requires size >= 2 && w < size && r < size
    ensures (forall schedule :: InPhase(Run(size, Connected(w, r), schedule))) <==> w == 0 && r == 0
  {
    if w == 0 && r == 0 {
      forall schedule ensures InPhase(Run(size, Connected(w, r), schedule)) { FromZeroEmpty(size, schedule); }
    } else {
      var schedule := OutOfPhase(size, w, r);
      assert !InPhase(Run(size, Connected(w, r), schedule));
    }
  }
}
