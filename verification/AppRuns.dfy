/**
 What the controller's runs achieve: when a run ends, that a restart builds the pipeline again,
 and what becomes of every frame.
 */
module AppRuns {
  import opened Common
  import opened AppController

  // ---------------------------------------------------------------- when does a run end

  /** A run is under way between start and the end of the loop; the loop ends for a reason. */
  predicate LifeOk(s: State) {
    && (s.running <==> !s.worker.NotStarted? && !s.worker.Done?)
    && (Ending(s.worker) ==> s.stop || s.gaveUp)
  }

  /** A frame is under way. */
  predicate Busy(s: State) { s.capture.FrameArrived? || InCallback(s) }

  /** No frame is counted or under way differently. */
  predicate SameFrames(s: State, s': State) {
    && s'.captured == s.captured && s'.sent == s.sent && s'.dropped == s.dropped
    && (s'.capture == s.capture || (!Busy(s) && !Busy(s')))
  }

  /** What a worker step keeps besides the safety invariants. */
  predicate Kept(s: State, s': State) {
    && (LifeOk(s) ==> LifeOk(s')) && SameFrames(s, s')
    && (Live(s) ==> s'.capture == s.capture && (s.restart ==> s'.restart))
  }

  lemma BuildSenderKeeps(s: State, ok: bool)
    requires SafetyInv(s) && BuildsSender(s.worker)
    ensures Kept(s, BuildSenderNext(s, ok))
  {
  }

  lemma StartDeviceKeeps(s: State, ok: bool)
    requires SafetyInv(s) && StartsDevice(s.worker)
    ensures Kept(s, StartDeviceNext(s, ok))
  {
  }

  lemma RecoverKeeps(cfg: Config, s: State)
    requires SafetyInv(s) && Recovers(s.worker)
    ensures Kept(s, RecoverNext(cfg, s))
  {
  }

  lemma MonitorKeeps(s: State, ok: bool)
    requires SafetyInv(s) && Monitors(s.worker)
    ensures Kept(s, MonitorNext(s, ok))
  {
    assert Monitors(MonitorTarget(s, ok)) || MonitorTarget(s, ok) == ShutStop(s.stop);
  }

  lemma StopDeviceKeeps(s: State)
    requires SafetyInv(s) && StopsDevice(s.worker)
    ensures Kept(s, StopDeviceNext(s))
  {
  }

  lemma ShutSenderKeeps(s: State)
    requires SafetyInv(s) && ShutsSender(s.worker)
    ensures Kept(s, ShutSenderNext(s))
  {
  }

  lemma EndRoundKeeps(s: State)
    requires SafetyInv(s) && EndsRound(s.worker)
    ensures Kept(s, EndRoundNext(s))
  {
  }

  lemma WorkerKeeps(cfg: Config, s: State, ok: bool)
    requires SafetyInv(s)
    ensures Kept(s, WorkerNext(cfg, s, ok))
  {
    if BuildsSender(s.worker) { BuildSenderKeeps(s, ok); }
    else if StartsDevice(s.worker) { StartDeviceKeeps(s, ok); }
    else if Recovers(s.worker) { RecoverKeeps(cfg, s); }
    else if Monitors(s.worker) { MonitorKeeps(s, ok); }
    else if StopsDevice(s.worker) { StopDeviceKeeps(s); }
    else if ShutsSender(s.worker) { ShutSenderKeeps(s); }
    else if EndsRound(s.worker) { EndRoundKeeps(s); }
  }

  lemma CaptureKeepsLife(s: State, choice: CaptureChoice, ok: bool)
    requires LifeOk(s)
    ensures LifeOk(CaptureNext(s, choice, ok))
  {
    if InCallback(s) { } else { }
  }

  lemma {:induction false} RunKeepsLife(cfg: Config, schedule: seq<Event>)
    ensures LifeOk(Run(cfg, schedule))
  {
    if schedule == [] {
    } else {
      var s, e := Run(cfg, schedule[..|schedule| - 1]), schedule[|schedule| - 1];
      RunKeepsLife(cfg, schedule[..|schedule| - 1]);
      RunIsSafe(cfg, schedule[..|schedule| - 1]);
      match e {
        case WorkerStep(ok) => WorkerKeeps(cfg, s, ok);
        case CaptureStep(choice, ok) => CaptureKeepsLife(s, choice, ok);
        case StartCall =>
        case StopCall =>
        case RestartCall =>
      }
    }
  }

  /** The loop ends only on a stop request or after the last failed initialization. */
  lemma EndsOnlyForAReason(cfg: Config, schedule: seq<Event>)
    ensures var s := Run(cfg, schedule);
            && (Ending(s.worker) ==> s.stop || s.gaveUp)
            && (s.running <==> !s.worker.NotStarted? && !s.worker.Done?)
  {
    RunKeepsLife(cfg, schedule);
  }

  // ---------------------------------------------------------------- one round of monitoring

  /** Worker steps up to the end of the round; `stalled` is what the clock says at the stall check. */
  function Walk(cfg: Config, s: State, stalled: bool, steps: nat): State
    decreases steps
  {
    if steps == 0 || s.worker.AfterMonitor? then s
    else Walk(cfg, WorkerNext(cfg, s, stalled), stalled, steps - 1)
  }

  /**
   Left to itself for one round, the worker leaves the monitoring loop exactly for a stop, a
   restart, a stall or a device error, and only a stall asks for a restart.
   */
  lemma MonitoringRound(cfg: Config, s: State, stalled: bool)
    requires s.worker.MonitorTest?
    ensures var asked := s.stop || s.restart;
            var stall := !asked && stalled && s.device.capturing;
            Walk(cfg, s, stalled, 5) ==
            s.(worker := if asked || stall || s.device.hasError then AfterMonitor else MonitorTest,
               restart := s.restart || stall)
  {
    var s1 := WorkerNext(cfg, s, stalled);
    assert Walk(cfg, s, stalled, 5) == Walk(cfg, s1, stalled, 4);
    if !s.stop && !s.restart {
      assert s1 == s.(worker := CheckStall);
      ChecksInOrder(cfg, s, stalled);
    }
  }

  /** The four checks of a round that nobody has asked to end. */
  lemma ChecksInOrder(cfg: Config, s: State, stalled: bool)
    requires !s.stop && !s.restart
    ensures var stall := stalled && s.device.capturing;
            Walk(cfg, s.(worker := CheckStall), stalled, 4) ==
            s.(worker := if stall || s.device.hasError then AfterMonitor else MonitorTest, restart := stall)
  {
    var s1, s2 := s.(worker := CheckStall), s.(worker := CheckStop);
    StallCheck(cfg, s, stalled);
    if stalled && s.device.capturing {
      assert Walk(cfg, s1, stalled, 4) == Walk(cfg, s.(worker := AfterMonitor, restart := true), stalled, 3);
    } else {
      assert Walk(cfg, s1, stalled, 4) == Walk(cfg, s2, stalled, 3);
      LastChecks(cfg, s, stalled);
    }
  }

  lemma StallCheck(cfg: Config, s: State, stalled: bool)
    requires !s.stop && !s.restart
    ensures WorkerNext(cfg, s.(worker := CheckStall), stalled) ==
            if stalled && s.device.capturing then s.(worker := AfterMonitor, restart := true)
            else s.(worker := CheckStop)
  {
  }

  lemma LastChecks(cfg: Config, s: State, ok: bool)
    requires !s.stop && !s.restart
    ensures Walk(cfg, s.(worker := CheckStop), ok, 3) ==
            s.(worker := if s.device.hasError then AfterMonitor else MonitorTest)
  {
    var s2, s3, s4 := s.(worker := CheckStop), s.(worker := CheckRestart), s.(worker := CheckError);
    assert Walk(cfg, s2, ok, 3) == Walk(cfg, s3, ok, 2) by { assert WorkerNext(cfg, s2, ok) == s3; }
    assert Walk(cfg, s3, ok, 2) == Walk(cfg, s4, ok, 1) by { assert WorkerNext(cfg, s3, ok) == s4; }
    ErrorCheck(cfg, s, ok);
  }

  lemma ErrorCheck(cfg: Config, s: State, ok: bool)
    ensures Walk(cfg, s.(worker := CheckError), ok, 1) ==
            s.(worker := if s.device.hasError then AfterMonitor else MonitorTest)
  {
    var s4 := s.(worker := CheckError);
    assert Walk(cfg, s4, ok, 1) == Walk(cfg, WorkerNext(cfg, s4, ok), ok, 0);
  }

  // ---------------------------------------------------------------- a restart builds the pipeline again

  /** Worker steps left at most until a new sender stands; waiting for the capture thread does not count. */
  function RebuildRank(w: Worker): nat {
    match w
    case CheckStall => 12
    case CheckStop => 11
    case ResetRetry => 11
    case CheckError => 11
    case CheckRestart => 10
    case MonitorTest => 10
    case AfterMonitor => 9
    case ShutStop(_) => 8
    case ShutJoin(_) => 7
    case ShutDevice(_) => 6
    case ShutSender(_) => 5
    case DropSender(_) => 4
    case ClearRestart => 3
    case LoopTest => 2
    case CreateSender => 1
    case _ => 0
  }

  function RebuildMeasure(s: State): nat {
    7 * RebuildRank(s.worker) + (if s.worker.ShutJoin? then CaptureRank(s.capture) else 6)
  }

  /** Leaving the monitoring loop, or between it and the next sender. */
  predicate Headed(s: State) {
    match s.worker
    case AfterMonitor => true
    case ShutStop(last) => !last
    case ShutJoin(last) => !last
    case ShutDevice(last) => !last
    case ShutSender(last) => !last
    case DropSender(last) => !last
    case ClearRestart => true
    case LoopTest => true
    case CreateSender => true
    case _ => Monitors(s.worker) && s.restart
  }

  /**
   On the way to the sender of generation g, with no stop requested. `quiet` says that nobody else
   asks for a restart; then the request is gone once the worker is back at the test of its loop.
   */
  predicate Rebuilding(s: State, g: nat, quiet: bool) {
    && SafetyInv(s) && CountInv(s) && LifeOk(s) && !s.stop && Headed(s) && s.nextGeneration == g
    && (quiet && (s.worker.LoopTest? || s.worker.CreateSender?) ==> !s.restart)
  }

  /** The sender of generation g has just been created, in a run that goes on. */
  predicate Rebuilt(s: State, g: nat, quiet: bool) {
    && s.worker.InitSender? && s.running && !s.stop && s.capture == NoThread
    && s.sender == Some(Sender(g, false, 0)) && s.nextGeneration == g + 1 && (quiet ==> !s.restart)
  }

  /** Some state on the way through the schedule, the first and the last included, is such a state. */
  predicate Rebuilds(cfg: Config, s: State, events: seq<Event>, g: nat, quiet: bool)
    decreases |events|
  {
    Rebuilt(s, g, quiet) || (events != [] && Rebuilds(cfg, Apply(cfg, s, events[0]), events[1..], g, quiet))
  }

  /** What the way keeps, apart from the invariants of all runs. */
  predicate OnTheWay(s: State, g: nat, quiet: bool) {
    && !s.stop && Headed(s) && s.nextGeneration == g
    && (quiet && (s.worker.LoopTest? || s.worker.CreateSender?) ==> !s.restart)
  }

  /** A worker step gets there, or nearer. */
  predicate Advances(s: State, s': State, g: nat, quiet: bool) {
    || (s'.worker.InitSender? && s'.sender == Some(Sender(g, false, 0)) && s'.nextGeneration == g + 1
        && !s'.stop && (quiet ==> !s'.restart))
    || (OnTheWay(s', g, quiet) && RebuildRank(s'.worker) < RebuildRank(s.worker))
  }

  lemma MonitorAdvances(s: State, g: nat, quiet: bool, ok: bool)
    requires OnTheWay(s, g, quiet) && Monitors(s.worker)
    ensures Advances(s, MonitorNext(s, ok), g, quiet)
  {
    assert MonitorNext(s, ok).worker == MonitorTarget(s, ok);
  }

  lemma StopDeviceAdvances(s: State, g: nat, quiet: bool)
    requires OnTheWay(s, g, quiet) && StopsDevice(s.worker)
    ensures if s.worker.ShutJoin? && s.capture != Exited then OnTheWay(StopDeviceNext(s), g, quiet)
            else Advances(s, StopDeviceNext(s), g, quiet)
  {
  }

  lemma ShutSenderAdvances(s: State, g: nat, quiet: bool)
    requires OnTheWay(s, g, quiet) && ShutsSender(s.worker)
    ensures Advances(s, ShutSenderNext(s), g, quiet)
  {
  }

  lemma EndRoundAdvances(s: State, g: nat, quiet: bool)
    requires OnTheWay(s, g, quiet) && EndsRound(s.worker)
    ensures Advances(s, EndRoundNext(s), g, quiet)
  {
  }

  lemma BuildSenderAdvances(s: State, g: nat, quiet: bool, ok: bool)
    requires OnTheWay(s, g, quiet) && BuildsSender(s.worker)
    ensures Advances(s, BuildSenderNext(s, ok), g, quiet)
  {
  }

  lemma WorkerAdvances(cfg: Config, s: State, g: nat, quiet: bool, ok: bool)
    requires OnTheWay(s, g, quiet) && SafetyInv(s)
    ensures if Joining(s) then WorkerNext(cfg, s, ok) == s else Advances(s, WorkerNext(cfg, s, ok), g, quiet)
  {
    if Monitors(s.worker) { MonitorAdvances(s, g, quiet, ok); }
    else if StopsDevice(s.worker) { StopDeviceAdvances(s, g, quiet); if Joining(s) { JoiningWaits(s); } }
    else if ShutsSender(s.worker) { ShutSenderAdvances(s, g, quiet); }
    else if EndsRound(s.worker) { EndRoundAdvances(s, g, quiet); }
    else if BuildsSender(s.worker) { BuildSenderAdvances(s, g, quiet, ok); }
  }

  /** Joining a capture thread that still runs changes nothing. */
  lemma JoiningWaits(s: State)
    requires SafetyInv(s) && Joining(s)
    ensures StopDeviceNext(s) == s
  {
  }

  lemma LowerRank(s: State, s': State)
    requires RebuildRank(s'.worker) < RebuildRank(s.worker)
    ensures RebuildMeasure(s') < RebuildMeasure(s)
  {
    assert CaptureRank(s'.capture) <= 5 && 7 * RebuildRank(s'.worker) + 7 <= 7 * RebuildRank(s.worker);
  }

  lemma WorkerRebuilds(cfg: Config, s: State, g: nat, quiet: bool, ok: bool)
    requires Rebuilding(s, g, quiet)
    ensures var s' := WorkerNext(cfg, s, ok);
            if Joining(s) then s' == s
            else Rebuilt(s', g, quiet) || (Rebuilding(s', g, quiet) && RebuildMeasure(s') < RebuildMeasure(s))
  {
    var s' := WorkerNext(cfg, s, ok);
    WorkerAdvances(cfg, s, g, quiet, ok);
    WorkerIsSafe(cfg, s, ok);
    WorkerKeeps(cfg, s, ok);
    if !s'.worker.InitSender? && !Joining(s) { LowerRank(s, s'); }
  }

  lemma CaptureRebuilds(s: State, g: nat, quiet: bool, choice: CaptureChoice, ok: bool)
    requires Rebuilding(s, g, quiet)
    ensures var s' := CaptureNext(s, choice, ok);
            && Rebuilding(s', g, quiet) && RebuildMeasure(s') <= RebuildMeasure(s) && s'.worker == s.worker
            && (Joining(s) ==> RebuildMeasure(s') < RebuildMeasure(s))
            && (!Joining(s) ==> !Joining(s'))
  {
    CaptureIsSafe(s, choice, ok);
    CaptureKeepsLife(s, choice, ok);
    CaptureKeepsGeneration(s, choice, ok);
    if s.worker.ShutJoin? { CaptureTowardsStop(s, choice, ok); }
  }

  lemma CaptureKeepsGeneration(s: State, choice: CaptureChoice, ok: bool)
    ensures CaptureNext(s, choice, ok).nextGeneration == s.nextGeneration
  {
    if InCallback(s) { } else { }
  }

  /** No stop is requested, and in a quiet schedule no restart either. */
  predicate Allowed(events: seq<Event>, quiet: bool) {
    forall e :: e in events ==> !e.StopCall? && (quiet ==> !e.RestartCall?)
  }

  /** No event leads away, and the one that is waited for leads on. */
  lemma StepRebuilds(cfg: Config, s: State, e: Event, g: nat, quiet: bool)
    requires Rebuilding(s, g, quiet) && !e.StopCall? && (quiet ==> !e.RestartCall?)
    ensures var s' := Apply(cfg, s, e);
            Rebuilt(s', g, quiet) ||
            (&& Rebuilding(s', g, quiet) && RebuildMeasure(s') <= RebuildMeasure(s)
             && (Awaited(s, e) ==> RebuildMeasure(s') < RebuildMeasure(s))
             && (!Awaited(s, e) ==> s'.worker == s.worker && Joining(s') == Joining(s)))
  {
    match e {
      case WorkerStep(ok) => WorkerRebuilds(cfg, s, g, quiet, ok);
      case CaptureStep(choice, ok) => CaptureRebuilds(s, g, quiet, choice, ok);
      case StartCall => assert Apply(cfg, s, e) == s;
      case RestartCall => StepIsSafe(cfg, s, e);
    }
  }

  /** The events of a schedule get there, or to a state no farther away. */
  lemma {:induction false} EventsRebuild(cfg: Config, s: State, events: seq<Event>, g: nat, quiet: bool)
    requires Rebuilding(s, g, quiet) && Allowed(events, quiet)
    ensures var s' := RunFrom(cfg, s, events);
            Rebuilds(cfg, s, events, g, quiet) ||
            (Rebuilding(s', g, quiet) && RebuildMeasure(s') <= RebuildMeasure(s))
    decreases |events|
  {
    if events == [] {
    } else {
      var s1 := Apply(cfg, s, events[0]);
      StepRebuilds(cfg, s, events[0], g, quiet);
      if Rebuilt(s1, g, quiet) {
        assert Rebuilds(cfg, s1, events[1..], g, quiet);
      } else {
        EventsRebuild(cfg, s1, events[1..], g, quiet);
      }
    }
  }

  lemma {:induction false} RoundRebuilds(cfg: Config, s: State, round: seq<Event>, g: nat, quiet: bool)
    requires Rebuilding(s, g, quiet) && Allowed(round, quiet) && Contains(round, Joining(s))
    ensures var s' := RunFrom(cfg, s, round);
            Rebuilds(cfg, s, round, g, quiet) ||
            (Rebuilding(s', g, quiet) && RebuildMeasure(s') < RebuildMeasure(s))
    decreases |round|
  {
    var s1 := Apply(cfg, s, round[0]);
    StepRebuilds(cfg, s, round[0], g, quiet);
    if Rebuilt(s1, g, quiet) {
      assert Rebuilds(cfg, s1, round[1..], g, quiet);
    } else if Awaited(s, round[0]) {
      EventsRebuild(cfg, s1, round[1..], g, quiet);
    } else {
      RoundRebuilds(cfg, s1, round[1..], g, quiet);
    }
  }

  /** The events of all rounds, one after the other. */
  function Flat(rounds: seq<seq<Event>>): seq<Event> { if rounds == [] then [] else rounds[0] + Flat(rounds[1..]) }

  lemma {:induction false} RebuildsLater(cfg: Config, s: State, a: seq<Event>, b: seq<Event>, g: nat, quiet: bool)
    requires Rebuilds(cfg, s, a, g, quiet) || Rebuilds(cfg, RunFrom(cfg, s, a), b, g, quiet)
    ensures Rebuilds(cfg, s, a + b, g, quiet)
    decreases |a|
  {
    if a == [] {
      assert a + b == b;
    } else if !Rebuilt(s, g, quiet) {
      assert (a + b)[1..] == a[1..] + b;
      RebuildsLater(cfg, Apply(cfg, s, a[0]), a[1..], b, g, quiet);
    }
  }

  /** Enough rounds in which both threads run reach the next sender. */
  lemma {:induction false} RoundsRebuild(cfg: Config, s: State, rounds: seq<seq<Event>>, g: nat, quiet: bool)
    requires Rebuilding(s, g, quiet) && |rounds| > RebuildMeasure(s)
    requires forall r :: r in rounds ==> FairRound(r) && Allowed(r, quiet)
    ensures Rebuilds(cfg, s, Flat(rounds), g, quiet)
    decreases |rounds|
  {
    var round := rounds[0];
    assert FairRound(round) && Allowed(round, quiet);
    if Joining(s) { RoundRebuilds(cfg, s, round, g, quiet); } else { RoundRebuilds(cfg, s, round, g, quiet); }
    if !Rebuilds(cfg, s, round, g, quiet) {
      RoundsRebuild(cfg, RunFrom(cfg, s, round), rounds[1..], g, quiet);
    }
    RebuildsLater(cfg, s, round, Flat(rounds[1..]), g, quiet);
  }

  /**
   A restart is served: from every reachable state of the monitoring loop with a restart pending,
   or just outside it, without a stop, any 92 rounds in which both threads run pass a state in
   which the run goes on and a new sender has been created; unless somebody asks again, the request
   is gone by then.
   */
  lemma RestartBuildsAgain(cfg: Config, schedule: seq<Event>, rounds: seq<seq<Event>>, quiet: bool)
    requires var s := Run(cfg, schedule); !s.stop && (s.worker.AfterMonitor? || (Monitors(s.worker) && s.restart))
    requires |rounds| >= 92 && forall r :: r in rounds ==> FairRound(r) && Allowed(r, quiet)
    ensures var s := Run(cfg, schedule); Rebuilds(cfg, s, Flat(rounds), s.nextGeneration, quiet)
  {
    var s := Run(cfg, schedule);
    RunIsSafe(cfg, schedule);
    RunKeepsLife(cfg, schedule);
    assert RebuildMeasure(s) <= 91;
    RoundsRebuild(cfg, s, rounds, s.nextGeneration, quiet);
  }

  /** requestRestart on a run that monitors its capture is such a state. */
  lemma RestartCallIsServed(cfg: Config, schedule: seq<Event>, rounds: seq<seq<Event>>)
    requires Monitors(Run(cfg, schedule).worker) && !Run(cfg, schedule).stop
    requires |rounds| >= 92 && forall r :: r in rounds ==> FairRound(r) && Allowed(r, true)
    ensures var s := Run(cfg, schedule + [RestartCall]);
            s.restart && Rebuilds(cfg, s, Flat(rounds), Run(cfg, schedule).nextGeneration, true)
  {
    var longer := schedule + [RestartCall];
    assert longer[..|longer| - 1] == schedule;
    RunKeepsLife(cfg, schedule);
    RestartBuildsAgain(cfg, longer, rounds, true);
  }

  // ---------------------------------------------------------------- what becomes of a frame

  /** The capture steps that got a frame from the device, since the run began. */
  ghost function Arrivals(cfg: Config, schedule: seq<Event>): nat {
    if schedule == [] then 0
    else
      var before, e := schedule[..|schedule| - 1], schedule[|schedule| - 1];
      var s := Run(cfg, before);
      if e.StartCall? && !s.running then 0
      else Arrivals(cfg, before) + if e.CaptureStep? && Gets(s, e.choice) then 1 else 0
  }

  /** The capture steps at a send, with this outcome, since the run began. */
  ghost function Sends(cfg: Config, schedule: seq<Event>, ok: bool): nat {
    if schedule == [] then 0
    else
      var before, e := schedule[..|schedule| - 1], schedule[|schedule| - 1];
      var s := Run(cfg, before);
      if e.StartCall? && !s.running then 0
      else Sends(cfg, before, ok) + if e.CaptureStep? && e.ok == ok && s.capture.Send? then 1 else 0
  }

  /** The capture thread goes on and the device has a frame. */
  predicate Gets(s: State, choice: CaptureChoice) { s.capture.Idle? && !s.device.shouldStop && choice.GetFrame? }

  predicate CountedSo(s: State, arrived: nat, sent: nat, failed: nat) {
    && s.captured + (if s.capture.FrameArrived? then 1 else 0) == arrived
    && s.sent + (if s.capture.CountSent? then 1 else 0) == sent
    && s.dropped + (if s.capture.CountDropped? then 1 else 0) == failed
  }

  lemma CallbackCounts(s: State, ok: bool, sent: nat, failed: nat)
    requires SafetyInv(s) && InCallback(s) && CountedSo(s, s.captured, sent, failed)
    ensures CountedSo(CallbackNext(s, ok), s.captured,
                      sent + (if s.capture.Send? && ok then 1 else 0),
                      failed + (if s.capture.Send? && !ok then 1 else 0))
  {
  }

  lemma CaptureCounts(s: State, choice: CaptureChoice, ok: bool, arrived: nat, sent: nat, failed: nat)
    requires SafetyInv(s) && CountedSo(s, arrived, sent, failed)
    ensures CountedSo(CaptureNext(s, choice, ok),
                      arrived + (if Gets(s, choice) then 1 else 0),
                      sent + (if s.capture.Send? && ok then 1 else 0),
                      failed + (if s.capture.Send? && !ok then 1 else 0))
  {
    if InCallback(s) {
      CallbackCounts(s, ok, sent, failed);
    } else {
      var s' := ThreadNext(s, choice);
      assert s'.sent == s.sent && s'.dropped == s.dropped && !s'.capture.CountSent? && !s'.capture.CountDropped?;
    }
  }

  /**
   Over every schedule: captured counts the frames that arrived, sent the sends that succeeded and
   dropped those that failed, each up to the one being recorded. Nothing else drops a frame.
   */
  lemma {:induction false} CountsAreSends(cfg: Config, schedule: seq<Event>)
    ensures CountedSo(Run(cfg, schedule), Arrivals(cfg, schedule),
                      Sends(cfg, schedule, true), Sends(cfg, schedule, false))
  {
    if schedule == [] {
    } else {
      var before, e := schedule[..|schedule| - 1], schedule[|schedule| - 1];
      var s := Run(cfg, before);
      CountsAreSends(cfg, before);
      RunIsSafe(cfg, before);
      RunKeepsLife(cfg, before);
      StepCounts(cfg, s, e, Arrivals(cfg, before), Sends(cfg, before, true), Sends(cfg, before, false));
    }
  }

  lemma StepCounts(cfg: Config, s: State, e: Event, arrived: nat, sent: nat, failed: nat)
    requires SafetyInv(s) && LifeOk(s) && CountedSo(s, arrived, sent, failed)
    ensures var s' := Apply(cfg, s, e);
            if e.StartCall? && !s.running then CountedSo(s', 0, 0, 0)
            else if e.CaptureStep? then
              CountedSo(s', arrived + (if Gets(s, e.choice) then 1 else 0),
                        sent + (if s.capture.Send? && e.ok then 1 else 0),
                        failed + (if s.capture.Send? && !e.ok then 1 else 0))
            else CountedSo(s', arrived, sent, failed)
  {
    match e {
      case WorkerStep(ok) => WorkerKeeps(cfg, s, ok);
      case CaptureStep(choice, ok) => CaptureCounts(s, choice, ok, arrived, sent, failed);
      case _ => CallCounts(cfg, s, e, arrived, sent, failed);
    }
  }

  lemma CallCounts(cfg: Config, s: State, e: Event, arrived: nat, sent: nat, failed: nat)
    requires SafetyInv(s) && LifeOk(s) && CountedSo(s, arrived, sent, failed) && !e.WorkerStep? && !e.CaptureStep?
    ensures if e.StartCall? && !s.running then CountedSo(Apply(cfg, s, e), 0, 0, 0)
            else CountedSo(Apply(cfg, s, e), arrived, sent, failed)
  {
  }

  predicate NoCaptureStep(events: seq<Event>) { forall e :: e in events ==> !e.CaptureStep? }

  /** What the other threads leave alone while the capture thread can run. */
  predicate Untouched(s: State, s': State) {
    && SafetyInv(s') && CountInv(s') && LifeOk(s')
    && s'.capture == s.capture && (s.restart ==> s'.restart)
    && s'.captured == s.captured && s'.sent == s.sent && s'.dropped == s.dropped
  }

  lemma CallLeavesCapture(cfg: Config, s: State, e: Event)
    requires SafetyInv(s) && LifeOk(s) && Live(s) && !e.CaptureStep? && !e.WorkerStep?
    ensures var s' := Apply(cfg, s, e); Kept(s, s') && LifeOk(s')
  {
  }

  lemma OtherLeavesCapture(cfg: Config, s: State, e: Event)
    requires SafetyInv(s) && CountInv(s) && LifeOk(s) && Live(s) && !e.CaptureStep?
    ensures Untouched(s, Apply(cfg, s, e))
  {
    StepIsSafe(cfg, s, e);
    match e {
      case WorkerStep(ok) => WorkerKeeps(cfg, s, ok);
      case _ => CallLeavesCapture(cfg, s, e);
    }
  }

  lemma {:induction false} OthersLeaveCapture(cfg: Config, s: State, events: seq<Event>)
    requires SafetyInv(s) && CountInv(s) && LifeOk(s) && Live(s) && NoCaptureStep(events)
    ensures Untouched(s, RunFrom(cfg, s, events))
    decreases |events|
  {
    if events == [] {
    } else {
      OtherLeavesCapture(cfg, s, events[0]);
      OthersLeaveCapture(cfg, Apply(cfg, s, events[0]), events[1..]);
    }
  }

  /** One capture step, then other threads' events. */
  function Turn(cfg: Config, s: State, choice: CaptureChoice, ok: bool, others: seq<Event>): State {
    RunFrom(cfg, CaptureNext(s, choice, ok), others)
  }

  predicate Sound(s: State) { SafetyInv(s) && CountInv(s) && LifeOk(s) }

  lemma TurnIs(cfg: Config, s: State, choice: CaptureChoice, ok: bool, others: seq<Event>)
    requires Sound(s) && NoCaptureStep(others) && Live(CaptureNext(s, choice, ok))
    ensures Untouched(CaptureNext(s, choice, ok), Turn(cfg, s, choice, ok, others))
  {
    CaptureIsSafe(s, choice, ok);
    CaptureKeepsLife(s, choice, ok);
    OthersLeaveCapture(cfg, CaptureNext(s, choice, ok), others);
  }

  /** A frame that the device has is got, unless the thread is to stop. */
  lemma FrameIsGot(s: State, choice: CaptureChoice, ok: bool)
    requires Gets(s, choice)
    ensures CaptureNext(s, choice, ok).capture.FrameArrived?
  {
  }

  lemma FrameIsCounted(s: State, choice: CaptureChoice, ok: bool)
    requires SafetyInv(s) && s.capture.FrameArrived?
    ensures CaptureNext(s, choice, ok) == s.(capture := CheckReady, captured := s.captured + 1)
  {
  }

  lemma ArrivalTurn(cfg: Config, s: State, choice: CaptureChoice, ok: bool, others: seq<Event>)
    requires Sound(s) && s.capture.FrameArrived? && NoCaptureStep(others)
    ensures var s' := Turn(cfg, s, choice, ok, others);
            && Sound(s') && s'.capture.CheckReady? && s'.captured == s.captured + 1
            && s'.sent == s.sent && s'.dropped == s.dropped
  {
    FrameIsCounted(s, choice, ok);
    TurnIs(cfg, s, choice, ok, others);
  }

  lemma ReadyTurn(cfg: Config, s: State, choice: CaptureChoice, ok: bool, others: seq<Event>)
    requires Sound(s) && s.capture.CheckReady? && NoCaptureStep(others)
    ensures var s' := Turn(cfg, s, choice, ok, others);
            && Sound(s') && s'.capture.Send? && s'.captured == s.captured
            && s'.sent == s.sent && s'.dropped == s.dropped
  {
    TurnIs(cfg, s, choice, ok, others);
  }

  lemma SendTurn(cfg: Config, s: State, choice: CaptureChoice, ok: bool, others: seq<Event>)
    requires Sound(s) && s.capture.Send? && NoCaptureStep(others)
    ensures var s' := Turn(cfg, s, choice, ok, others);
            && Sound(s') && s'.capture == (if ok then CountSent else CountDropped) && s'.captured == s.captured
            && s'.sent == s.sent && s'.dropped == s.dropped && (!ok ==> s'.restart)
  {
    TurnIs(cfg, s, choice, ok, others);
  }

  lemma Recorded(s: State, choice: CaptureChoice, ok: bool)
    requires s.capture.CountSent? || s.capture.CountDropped?
    ensures var s' := CaptureNext(s, choice, ok);
            && s'.capture.Idle? && s'.captured == s.captured && s'.restart == s.restart
            && s'.sent == s.sent + (if s.capture.CountSent? then 1 else 0)
            && s'.dropped == s.dropped + (if s.capture.CountDropped? then 1 else 0)
  {
  }

  /**
   In every reachable state, whatever the other threads do in between: a frame that was got is
   counted and handed to the sender; a send that succeeds is counted as sent and nothing is
   dropped; one that fails is counted as dropped and asks for a restart.
   */
  lemma FrameIsSentOrReported(cfg: Config, schedule: seq<Event>, choice: CaptureChoice, ok: bool,
                              a: seq<Event>, b: seq<Event>, c: seq<Event>)
    requires Run(cfg, schedule).capture.FrameArrived? && NoCaptureStep(a) && NoCaptureStep(b) && NoCaptureStep(c)
    ensures var s := Run(cfg, schedule);
            var s3 := Turn(cfg, Turn(cfg, Turn(cfg, s, choice, ok, a), choice, ok, b), choice, ok, c);
            var s' := CaptureNext(s3, choice, ok);
            && s'.capture.Idle? && s'.captured == s.captured + 1
            && s'.sent == s.sent + (if ok then 1 else 0) && s'.dropped == s.dropped + (if ok then 0 else 1)
            && (!ok ==> s'.restart)
  {
    var s := Run(cfg, schedule);
    RunIsSafe(cfg, schedule);
    RunKeepsLife(cfg, schedule);
    var s1 := Turn(cfg, s, choice, ok, a);
    var s2 := Turn(cfg, s1, choice, ok, b);
    ArrivalTurn(cfg, s, choice, ok, a);
    ReadyTurn(cfg, s1, choice, ok, b);
    SendTurn(cfg, s2, choice, ok, c);
    Recorded(Turn(cfg, s2, choice, ok, c), choice, ok);
  }

  /** An error of the capture device ends its thread, is recorded, and asks for a restart. */
  lemma CaptureErrorAsksForRestart(cfg: Config, schedule: seq<Event>, choice: CaptureChoice, ok: bool, a: seq<Event>)
    requires var s := Run(cfg, schedule); s.capture.Idle? && !s.device.shouldStop && NoCaptureStep(a)
    ensures var s' := CaptureNext(Turn(cfg, Run(cfg, schedule), GetError, ok, a), choice, ok);
            s'.capture.Exited? && s'.restart
  {
    RunIsSafe(cfg, schedule);
    RunKeepsLife(cfg, schedule);
    TurnIs(cfg, Run(cfg, schedule), GetError, ok, a);
  }

  // ---------------------------------------------------------------- the capture thread and its device

  /**
   The capture thread is told to stop only by shutdown, which joins it; an error is recorded exactly
   when it breaks off; a failed start is recorded.
   */
  predicate ThreadOk(s: State) {
    && (s.device.capturing && s.device.shouldStop ==> s.worker.ShutJoin?)
    && (s.capture == Failing ==> s.device.hasError)
    && (s.capture == Exited ==> s.device.hasError || s.worker.ShutJoin?)
    && (Live(s) && s.device.hasError ==> s.capture == Failing)
    && (s.worker.InitFailed? && s.sender.Some? && s.sender.value.initialized ==> s.device.hasError)
  }

  /** A sender is initialized after it was created, and shut down before it is dropped. */
  predicate SenderOk(s: State) {
    s.worker.InitSender? || s.worker.DropSender? ==> s.sender.Some? ==> !s.sender.value.initialized
  }

  /** The retry counter still tells the failed calls while the run ends. */
  predicate EndingOk(cfg: Config, s: State) { Ending(s.worker) && cfg.autoRetry ==> s.failures == s.retry }

  predicate DeviceOk(cfg: Config, s: State) { ThreadOk(s) && SenderOk(s) && EndingOk(cfg, s) }

  lemma BuildSenderKeepsDevice(cfg: Config, s: State, ok: bool)
    requires SafetyInv(s) && RetryInv(cfg, s) && DeviceOk(cfg, s) && BuildsSender(s.worker)
    ensures DeviceOk(cfg, BuildSenderNext(s, ok))
  {
  }

  lemma StartDeviceKeepsDevice(cfg: Config, s: State, ok: bool)
    requires SafetyInv(s) && RetryInv(cfg, s) && DeviceOk(cfg, s) && StartsDevice(s.worker)
    ensures DeviceOk(cfg, StartDeviceNext(s, ok))
  {
  }

  lemma RecoverKeepsDevice(cfg: Config, s: State)
    requires SafetyInv(s) && RetryInv(cfg, s) && DeviceOk(cfg, s) && Recovers(s.worker)
    ensures DeviceOk(cfg, RecoverNext(cfg, s))
  {
  }

  lemma MonitorKeepsDevice(cfg: Config, s: State, ok: bool)
    requires SafetyInv(s) && RetryInv(cfg, s) && DeviceOk(cfg, s) && Monitors(s.worker)
    ensures DeviceOk(cfg, MonitorNext(s, ok))
  {
    assert Monitors(MonitorTarget(s, ok)) || MonitorTarget(s, ok) == ShutStop(s.stop);
  }

  lemma StopDeviceKeepsDevice(cfg: Config, s: State)
    requires SafetyInv(s) && RetryInv(cfg, s) && DeviceOk(cfg, s) && StopsDevice(s.worker)
    ensures DeviceOk(cfg, StopDeviceNext(s))
  {
  }

  lemma ShutSenderKeepsDevice(cfg: Config, s: State)
    requires SafetyInv(s) && RetryInv(cfg, s) && DeviceOk(cfg, s) && ShutsSender(s.worker)
    ensures DeviceOk(cfg, ShutSenderNext(s))
  {
  }

  lemma EndRoundKeepsDevice(cfg: Config, s: State)
    requires SafetyInv(s) && RetryInv(cfg, s) && DeviceOk(cfg, s) && EndsRound(s.worker)
    ensures DeviceOk(cfg, EndRoundNext(s))
  {
  }

  lemma WorkerKeepsDevice(cfg: Config, s: State, ok: bool)
    requires SafetyInv(s) && RetryInv(cfg, s) && DeviceOk(cfg, s)
    ensures DeviceOk(cfg, WorkerNext(cfg, s, ok))
  {
    if BuildsSender(s.worker) { BuildSenderKeepsDevice(cfg, s, ok); }
    else if StartsDevice(s.worker) { StartDeviceKeepsDevice(cfg, s, ok); }
    else if Recovers(s.worker) { RecoverKeepsDevice(cfg, s); }
    else if Monitors(s.worker) { MonitorKeepsDevice(cfg, s, ok); }
    else if StopsDevice(s.worker) { StopDeviceKeepsDevice(cfg, s); }
    else if ShutsSender(s.worker) { ShutSenderKeepsDevice(cfg, s); }
    else if EndsRound(s.worker) { EndRoundKeepsDevice(cfg, s); }
  }

  lemma CaptureKeepsDevice(cfg: Config, s: State, choice: CaptureChoice, ok: bool)
    requires SafetyInv(s) && DeviceOk(cfg, s)
    ensures DeviceOk(cfg, CaptureNext(s, choice, ok))
  {
    CaptureIsSafe(s, choice, ok);
    if InCallback(s) { CallbackKeepsThread(s, ok); } else { ThreadKeepsThread(s, choice); }
  }

  lemma CallbackKeepsThread(s: State, ok: bool)
    requires SafetyInv(s) && InCallback(s) && ThreadOk(s)
    ensures ThreadOk(CallbackNext(s, ok))
  {
    assert !CallbackTarget(s, ok).Failing? && !CallbackTarget(s, ok).Exited?;
  }

  lemma ThreadKeepsThread(s: State, choice: CaptureChoice)
    requires SafetyInv(s) && !InCallback(s) && ThreadOk(s)
    ensures ThreadOk(ThreadNext(s, choice))
  {
    match s.capture {
      case Idle =>
      case FrameArrived =>
      case Failing =>
      case _ =>
    }
  }

  lemma {:induction false} RunKeepsDevice(cfg: Config, schedule: seq<Event>)
    ensures DeviceOk(cfg, Run(cfg, schedule))
  {
    if schedule == [] {
    } else {
      var before, e := schedule[..|schedule| - 1], schedule[|schedule| - 1];
      RunKeepsDevice(cfg, before);
      RunIsSafe(cfg, before);
      RunKeepsRetry(cfg, before);
      match e {
        case WorkerStep(ok) => WorkerKeepsDevice(cfg, Run(cfg, before), ok);
        case CaptureStep(choice, ok) => CaptureKeepsDevice(cfg, Run(cfg, before), choice, ok);
        case _ => CallKeepsDevice(cfg, Run(cfg, before), e);
      }
    }
  }

  lemma CallKeepsDevice(cfg: Config, s: State, e: Event)
    requires SafetyInv(s) && DeviceOk(cfg, s) && !e.WorkerStep? && !e.CaptureStep?
    ensures DeviceOk(cfg, Apply(cfg, s, e))
  {
  }

  /**
   In every reachable state: the capture thread has ended only after an error or because shutdown is
   waiting for it, and while it runs it has no error and has not been told to stop by anyone else.
   */
  lemma CaptureRunsUntilStoppedOrBroken(cfg: Config, schedule: seq<Event>)
    ensures ThreadOk(Run(cfg, schedule))
  {
    RunKeepsDevice(cfg, schedule);
  }

  /**
   The device is created anew in a shutdown exactly when, with automatic retries, initializations
   have failed since the last success, and that is only ever the last shutdown of a run.
   */
  lemma DeviceRecreatedOnlyAtTheEnd(cfg: Config, schedule: seq<Event>, ok: bool)
    requires Run(cfg, schedule).worker.ShutDevice?
    ensures var s := Run(cfg, schedule);
            && WorkerNext(cfg, s, ok).device == (if cfg.autoRetry && s.failures > 0 then NEW_DEVICE else s.device)
            && (s.failures > 0 ==> s.worker.last)
  {
    RunKeepsDevice(cfg, schedule);
    RunKeepsRetry(cfg, schedule);
  }

  /** A sender is always shut down before it is destroyed, whether or not it could be initialized. */
  lemma SenderShutDownBeforeDropped(cfg: Config, schedule: seq<Event>)
    requires Run(cfg, schedule).worker.DropSender? && Run(cfg, schedule).sender.Some?
    ensures !Run(cfg, schedule).sender.value.initialized
  {
    RunKeepsDevice(cfg, schedule);
  }
}
