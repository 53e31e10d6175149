/**
 The application's life cycle as one state machine: the worker thread of AppController
 inside runLoop, the capture thread inside its callback, and the other threads that may
 request a stop or a restart at any moment. Every access that another thread can see is a
 step of its own; outcomes of NDI, V4L2 and timing are the events' choices, so a schedule
 (any sequence of events) covers every interleaving and every pattern of failures.
 */
module AppController {
  import opened Common

  datatype Config = Config(autoRetry: bool, maxRetries: int)

  /** An NdiSender object; its generation tells one object from the next. */
  datatype Sender = Sender(generation: nat, initialized: bool, framesSent: nat)

  /** What the worker sees of its capture device. */
  datatype Device = Device(capturing: bool, shouldStop: bool, hasError: bool, frameCallback: bool, errorCallback: bool)

  const NEW_DEVICE := Device(false, false, false, false, false)

  datatype Worker =
    | NotStarted
    | LoopTest
    // initialize()
    | CreateSender | InitSender | SetFrameCallback | SetErrorCallback | StartCapture
    // attemptRecovery()
    | InitFailed | RecoveryWait
    // monitoring
    | ResetRetry | MonitorTest | CheckStall | CheckStop | CheckRestart | CheckError | AfterMonitor
    // shutdown(), final or before another round
    | ShutStop(last: bool) | ShutJoin(last: bool) | ShutDevice(last: bool)
    | ShutSender(last: bool) | DropSender(last: bool)
    | ClearRestart
    | Done

  predicate BuildsSender(w: Worker) { w.LoopTest? || w.CreateSender? || w.InitSender? }

  predicate StartsDevice(w: Worker) { w.SetFrameCallback? || w.SetErrorCallback? || w.StartCapture? }

  predicate Recovers(w: Worker) { w.InitFailed? || w.RecoveryWait? }

  predicate Monitors(w: Worker) {
    || w.ResetRetry? || w.MonitorTest? || w.CheckStall? || w.CheckStop?
    || w.CheckRestart? || w.CheckError? || w.AfterMonitor?
  }

  predicate StopsDevice(w: Worker) { w.ShutStop? || w.ShutJoin? }

  predicate ShutsSender(w: Worker) { w.ShutDevice? || w.ShutSender? }

  predicate EndsRound(w: Worker) { w.DropSender? || w.ClearRestart? }

  /** The capture thread: none, at its loop head, inside the frame callback, or finished but not joined. */
  datatype Capture = NoThread | Idle | FrameArrived | CheckReady | Send | CountSent | CountDropped | Failing | Exited

  /**
   The controller's fields, then auxiliary records: frames counted by senders that are
   gone, consecutive failed initializations, whether the loop gave up, and whether a
   failed initialization's restart request is still set.
   */
  datatype State = State(
    worker: Worker, capture: Capture, device: Device, sender: Option<Sender>,
    running: bool, stop: bool, restart: bool, retry: nat,
    captured: nat, sent: nat, dropped: nat,
    nextGeneration: nat, retired: nat, failures: nat, gaveUp: bool, stale: bool)

  function Initial(): State {
    State(NotStarted, NoThread, NEW_DEVICE, None, false, false, false, 0, 0, 0, 0, 0, 0, 0, false, false)
  }

  datatype CaptureChoice = GetFrame | GetError | GetNothing

  datatype Event =
    | StartCall
    | StopCall
    | RestartCall
    | WorkerStep(ok: bool)
    | CaptureStep(choice: CaptureChoice, ok: bool)

  /** The frames counted by the current sender. */
  function CurrentSent(s: State): nat { if s.sender.Some? then s.sender.value.framesSent else 0 }

  function Fail(s: State): State {
    s.(worker := InitFailed, restart := true, stale := true, failures := s.failures + 1)
  }

  /** The test of the outer loop, and initialize() up to the NDI sender. */
  function BuildSenderNext(s: State, ok: bool): State {
    match s.worker
    case LoopTest => s.(worker := if s.stop then ShutStop(true) else CreateSender)
    case CreateSender =>
      s.(worker := InitSender, sender := Some(Sender(s.nextGeneration, false, 0)),
         nextGeneration := s.nextGeneration + 1, retired := s.retired + CurrentSent(s))
    case InitSender =>
      if ok && s.sender.Some?
      then s.(worker := SetFrameCallback, sender := Some(s.sender.value.(initialized := true)))
      else Fail(s)
    case _ => s
  }

  /** The rest of initialize(): callbacks, then the capture thread. */
  function StartDeviceNext(s: State, ok: bool): State {
    match s.worker
    case SetFrameCallback => s.(worker := SetErrorCallback, device := s.device.(frameCallback := true))
    case SetErrorCallback => s.(worker := StartCapture, device := s.device.(errorCallback := true))
    case StartCapture =>
      if s.device.capturing then s.(worker := ResetRetry)
      else if ok
      then s.(worker := ResetRetry, capture := Idle,
              device := s.device.(capturing := true, shouldStop := false, hasError := false))
      else Fail(s.(device := s.device.(hasError := true)))
    case _ => s
  }

  /** attemptRecovery(). */
  function RecoverNext(cfg: Config, s: State): State {
    match s.worker
    case InitFailed =>
      var quits := !cfg.autoRetry || (cfg.maxRetries >= 0 && s.retry + 1 > cfg.maxRetries);
      s.(worker := if quits then ShutStop(true) else RecoveryWait,
         retry := if cfg.autoRetry then s.retry + 1 else s.retry, gaveUp := s.gaveUp || quits)
    case RecoveryWait => s.(worker := if s.stop then ShutStop(true) else LoopTest)
    case _ => s
  }

  /** The stall check: `ok` says that five seconds passed without a frame. */
  predicate StallSeen(s: State, ok: bool) { s.worker.CheckStall? && ok && s.device.capturing }

  /** Where the inner loop goes next. */
  function MonitorTarget(s: State, ok: bool): Worker {
    match s.worker
    case ResetRetry => MonitorTest
    case MonitorTest => if s.stop || s.restart then AfterMonitor else CheckStall
    case CheckStall => if StallSeen(s, ok) then AfterMonitor else CheckStop
    case CheckStop => if s.stop then AfterMonitor else CheckRestart
    case CheckRestart => if s.restart then AfterMonitor else CheckError
    case CheckError => if s.device.hasError then AfterMonitor else MonitorTest
    case AfterMonitor => ShutStop(s.stop)
    case w => w
  }

  /** The inner loop, entered by resetting the retry counter; a stall requests a restart. */
  function MonitorNext(s: State, ok: bool): State {
    var reset := s.worker.ResetRetry?;
    s.(worker := MonitorTarget(s, ok), restart := s.restart || StallSeen(s, ok),
       retry := if reset then 0 else s.retry, failures := if reset then 0 else s.failures)
  }

  /** shutdown(), the capture device. */
  function StopDeviceNext(s: State): State {
    match s.worker
    case ShutStop(last) =>
      s.(worker := if s.device.capturing then ShutJoin(last) else ShutDevice(last),
         device := s.device.(shouldStop := s.device.shouldStop || s.device.capturing))
    case ShutJoin(last) =>
      var joined := s.capture == Exited;
      s.(worker := if joined then ShutDevice(last) else ShutJoin(last),
         capture := if joined then NoThread else s.capture,
         device := s.device.(capturing := s.device.capturing && !joined))
    case _ => s
  }

  /** shutdown(), the recreated device and the sender. */
  function ShutSenderNext(s: State): State {
    match s.worker
    case ShutDevice(last) =>
      s.(worker := ShutSender(last), device := if s.retry > 0 then NEW_DEVICE else s.device)
    case ShutSender(last) =>
      s.(worker := DropSender(last),
         sender := if s.sender.Some? then Some(s.sender.value.(initialized := false)) else None)
    case _ => s
  }

  /** The sender is gone; another round, or the end of the loop. */
  function EndRoundNext(s: State): State {
    match s.worker
    case DropSender(last) =>
      s.(worker := if last then Done else ClearRestart, sender := None, retired := s.retired + CurrentSent(s),
         running := if last then false else s.running)
    case ClearRestart => s.(worker := LoopTest, restart := false, stale := false)
    case _ => s
  }

  function WorkerNext(cfg: Config, s: State, ok: bool): State {
    if BuildsSender(s.worker) then BuildSenderNext(s, ok)
    else if StartsDevice(s.worker) then StartDeviceNext(s, ok)
    else if Recovers(s.worker) then RecoverNext(cfg, s)
    else if Monitors(s.worker) then MonitorNext(s, ok)
    else if StopsDevice(s.worker) then StopDeviceNext(s)
    else if ShutsSender(s.worker) then ShutSenderNext(s)
    else if EndsRound(s.worker) then EndRoundNext(s)
    else s
  }

  /** A fatal error ends the capture thread's loop. */
  predicate Breaks(s: State, choice: CaptureChoice) { s.capture.Idle? && !s.device.shouldStop && choice.GetError? }

  /** onFrameReceived() is called and counts the frame. */
  predicate CountsFrame(s: State) { s.capture.FrameArrived? && s.device.frameCallback }

  function ThreadTarget(s: State, choice: CaptureChoice): Capture {
    match s.capture
    case Idle =>
      if s.device.shouldStop then Exited
      else if Breaks(s, choice) then Failing
      else if choice.GetFrame? then FrameArrived
      else Idle
    case FrameArrived => if CountsFrame(s) then CheckReady else Idle
    case Failing => Exited
    case c => c
  }

  /** The capture thread outside the frame callback; its error callback requests a restart. */
  function ThreadNext(s: State, choice: CaptureChoice): State {
    s.(capture := ThreadTarget(s, choice),
       captured := s.captured + (if CountsFrame(s) then 1 else 0),
       device := s.device.(hasError := s.device.hasError || Breaks(s, choice)),
       restart := s.restart || (s.capture.Failing? && s.device.errorCallback))
  }

  function CallbackTarget(s: State, ok: bool): Capture {
    match s.capture
    case CheckReady => if s.sender.Some? && s.sender.value.initialized then Send else CountDropped
    case Send => if s.sender.None? then Send else if ok then CountSent else CountDropped
    case CountSent => Idle
    case CountDropped => Idle
    case c => c
  }

  /** onFrameReceived() after it has counted the frame; a failed send requests a restart. */
  function CallbackNext(s: State, ok: bool): State {
    var sends := s.capture.Send? && s.sender.Some?;
    s.(capture := CallbackTarget(s, ok),
       sender := if sends && ok then Some(s.sender.value.(framesSent := s.sender.value.framesSent + 1)) else s.sender,
       sent := s.sent + (if s.capture.CountSent? then 1 else 0),
       dropped := s.dropped + (if s.capture.CountDropped? then 1 else 0),
       restart := s.restart || (sends && !ok))
  }

  function CaptureNext(s: State, choice: CaptureChoice, ok: bool): State {
    if InCallback(s) then CallbackNext(s, ok) else ThreadNext(s, choice)
  }

  /** start(), once the previous run, if any, has been stopped and joined. */
  function StartNext(s: State): State {
    if s.worker == NotStarted || s.worker == Done
    then s.(worker := LoopTest, running := true, stop := false, restart := false, retry := 0,
            captured := 0, sent := 0, dropped := 0, retired := 0, failures := 0, gaveUp := false, stale := false)
    else s
  }

  function Apply(cfg: Config, s: State, e: Event): State {
    match e
    case StartCall => StartNext(s)
    case StopCall => if s.worker != NotStarted then s.(stop := true) else s
    case RestartCall => if s.running then s.(restart := true) else s
    case WorkerStep(ok) => WorkerNext(cfg, s, ok)
    case CaptureStep(choice, ok) => CaptureNext(s, choice, ok)
  }

  function Run(cfg: Config, schedule: seq<Event>): State {
    if schedule == [] then Initial()
    else Apply(cfg, Run(cfg, schedule[..|schedule| - 1]), schedule[|schedule| - 1])
  }

  // ---------------------------------------------------------------- who may touch what

  /** A capture thread that can still run code. */
  predicate Live(s: State) { s.capture != NoThread && s.capture != Exited }

  predicate InCallback(s: State) {
    s.capture == CheckReady || s.capture == Send || s.capture == CountSent || s.capture == CountDropped
  }

  /** The worker's positions at which a capture thread can exist. */
  predicate MayCapture(w: Worker) {
    Monitors(w) || w.ShutStop? || w.ShutJoin?
  }

  /** What each worker position guarantees about the sender and the callbacks. */
  predicate PositionOk(s: State) {
    match s.worker
    case NotStarted => s.sender.None? && !s.stop
    case Done => s.sender.None?
    case InitSender => s.sender.Some?
    case SetFrameCallback => s.sender.Some? && s.sender.value.initialized
    case SetErrorCallback => s.sender.Some? && s.sender.value.initialized && s.device.frameCallback
    case StartCapture =>
      s.sender.Some? && s.sender.value.initialized && s.device.frameCallback && s.device.errorCallback
    case ShutJoin(_) => s.device.capturing && s.device.shouldStop
    case _ => true
  }

  predicate SafetyInv(s: State) {
    && (s.device.capturing <==> s.capture != NoThread)
    && (s.device.capturing ==>
         && MayCapture(s.worker) && s.device.frameCallback && s.device.errorCallback
         && s.sender.Some? && s.sender.value.initialized)
    && PositionOk(s)
  }

  predicate CountInv(s: State) {
    && s.captured == s.sent + s.dropped + (if InCallback(s) then 1 else 0)
    && s.retired + CurrentSent(s) == s.sent + (if s.capture == CountSent then 1 else 0)
  }

  /** The same sender object in the same condition: only its frame counter may differ. */
  predicate SameSender(a: Option<Sender>, b: Option<Sender>) {
    a.Some? == b.Some? &&
    (a.Some? ==> a.value.generation == b.value.generation && a.value.initialized == b.value.initialized)
  }

  /**
   A safe worker step: the invariants hold again; the sender changes only while no capture
   thread exists; a capture thread appears only from starting the capture.
   */
  predicate SafeStep(s: State, s': State) {
    && SafetyInv(s') && CountInv(s')
    && (!SameSender(s.sender, s'.sender) ==> s.capture == NoThread && s'.capture == NoThread)
    && (s.capture == NoThread && s'.capture != NoThread ==> s.worker.StartCapture? && s'.capture == Idle)
  }

  lemma BuildSenderIsSafe(s: State, ok: bool)
    requires SafetyInv(s) && CountInv(s) && BuildsSender(s.worker)
    ensures SafeStep(s, BuildSenderNext(s, ok))
  {
    assert s.capture == NoThread;
    match s.worker {
      case LoopTest =>
      case CreateSender =>
      case InitSender =>
      case _ =>
    }
  }

  lemma StartDeviceIsSafe(s: State, ok: bool)
    requires SafetyInv(s) && CountInv(s) && StartsDevice(s.worker)
    ensures SafeStep(s, StartDeviceNext(s, ok))
  {
    assert s.capture == NoThread;
    match s.worker {
      case SetFrameCallback =>
      case SetErrorCallback =>
      case StartCapture =>
      case _ =>
    }
  }

  lemma RecoverIsSafe(cfg: Config, s: State)
    requires SafetyInv(s) && CountInv(s) && Recovers(s.worker)
    ensures SafeStep(s, RecoverNext(cfg, s))
  {
    assert s.capture == NoThread;
    match s.worker {
      case InitFailed =>
      case RecoveryWait =>
      case _ =>
    }
  }

  lemma MonitorIsSafe(s: State, ok: bool)
    requires SafetyInv(s) && CountInv(s) && Monitors(s.worker)
    ensures SafeStep(s, MonitorNext(s, ok))
  {
    assert Monitors(MonitorTarget(s, ok)) || MonitorTarget(s, ok) == ShutStop(s.stop);
  }

  lemma ShutStopIsSafe(s: State)
    requires SafetyInv(s) && CountInv(s) && s.worker.ShutStop?
    ensures SafeStep(s, StopDeviceNext(s))
  {
  }

  lemma ShutJoinIsSafe(s: State)
    requires SafetyInv(s) && CountInv(s) && s.worker.ShutJoin?
    ensures SafeStep(s, StopDeviceNext(s))
  {
  }

  lemma StopDeviceIsSafe(s: State)
    requires SafetyInv(s) && CountInv(s) && StopsDevice(s.worker)
    ensures SafeStep(s, StopDeviceNext(s))
  {
    if s.worker.ShutStop? { ShutStopIsSafe(s); } else { ShutJoinIsSafe(s); }
  }

  lemma ShutSenderIsSafe(s: State)
    requires SafetyInv(s) && CountInv(s) && ShutsSender(s.worker)
    ensures SafeStep(s, ShutSenderNext(s))
  {
    if s.worker.ShutDevice? { ShutDeviceIsSafe(s); } else { DropIsReady(s); }
  }

  lemma ShutDeviceIsSafe(s: State)
    requires SafetyInv(s) && CountInv(s) && s.worker.ShutDevice?
    ensures SafeStep(s, ShutSenderNext(s))
  {
  }

  /** The sender is shut down but keeps its count. */
  lemma DropIsReady(s: State)
    requires SafetyInv(s) && CountInv(s) && s.worker.ShutSender?
    ensures SafeStep(s, ShutSenderNext(s))
  {
    assert CurrentSent(ShutSenderNext(s)) == CurrentSent(s);
  }

  lemma EndRoundIsSafe(s: State)
    requires SafetyInv(s) && CountInv(s) && EndsRound(s.worker)
    ensures SafeStep(s, EndRoundNext(s))
  {
    assert s.capture == NoThread;
    match s.worker {
      case DropSender(last) =>
      case ClearRestart =>
      case _ =>
    }
  }

  lemma WorkerIsSafe(cfg: Config, s: State, ok: bool)
    requires SafetyInv(s) && CountInv(s)
    ensures SafeStep(s, WorkerNext(cfg, s, ok))
  {
    if BuildsSender(s.worker) { BuildSenderIsSafe(s, ok); }
    else if StartsDevice(s.worker) { StartDeviceIsSafe(s, ok); }
    else if Recovers(s.worker) { RecoverIsSafe(cfg, s); }
    else if Monitors(s.worker) { MonitorIsSafe(s, ok); }
    else if StopsDevice(s.worker) { StopDeviceIsSafe(s); }
    else if ShutsSender(s.worker) { ShutSenderIsSafe(s); }
    else if EndsRound(s.worker) { EndRoundIsSafe(s); }
  }

  /** What a step of the capture thread leaves alone. */
  predicate CaptureFrame(s: State, s': State) {
    && s'.worker == s.worker && s'.device == s.device.(hasError := s'.device.hasError)
    && SameSender(s.sender, s'.sender) && (s.restart ==> s'.restart)
    && (s.capture == NoThread ==> s' == s) && (s.capture != NoThread ==> s'.capture != NoThread)
    && s'.retry == s.retry && s'.failures == s.failures && s'.gaveUp == s.gaveUp
    && s'.stale == s.stale && s'.stop == s.stop
  }

  lemma CallbackKeepsFrame(s: State, ok: bool)
    requires InCallback(s)
    ensures CaptureFrame(s, CallbackNext(s, ok))
  {
    assert CallbackTarget(s, ok) != NoThread;
  }

  lemma ThreadKeepsFrame(s: State, choice: CaptureChoice)
    requires !InCallback(s)
    ensures CaptureFrame(s, ThreadNext(s, choice))
  {
    assert s.capture != NoThread ==> ThreadTarget(s, choice) != NoThread;
  }

  lemma ThreadKeepsCounts(s: State, choice: CaptureChoice)
    requires CountInv(s) && !InCallback(s)
    ensures CountInv(ThreadNext(s, choice))
  {
    var s' := ThreadNext(s, choice);
    assert s'.sender == s.sender && s'.sent == s.sent && s'.dropped == s.dropped && s'.retired == s.retired;
    assert s'.capture != CountSent && (InCallback(s') <==> CountsFrame(s));
  }

  lemma CallbackKeepsCounts(s: State, ok: bool)
    requires CountInv(s) && InCallback(s)
    ensures CountInv(CallbackNext(s, ok))
  {
    match s.capture {
      case CheckReady =>
      case Send =>
      case CountSent =>
      case CountDropped =>
      case _ =>
    }
  }

  /** The capture thread changes neither the worker, nor the sender's condition, nor the callbacks. */
  lemma CaptureIsSafe(s: State, choice: CaptureChoice, ok: bool)
    ensures CaptureFrame(s, CaptureNext(s, choice, ok))
    ensures SafetyInv(s) && CountInv(s) ==>
              SafetyInv(CaptureNext(s, choice, ok)) && CountInv(CaptureNext(s, choice, ok))
  {
    if InCallback(s) { CallbackKeepsFrame(s, ok); } else { ThreadKeepsFrame(s, choice); }
    FrameKeepsSafety(s, CaptureNext(s, choice, ok));
    if CountInv(s) {
      if InCallback(s) { CallbackKeepsCounts(s, ok); } else { ThreadKeepsCounts(s, choice); }
    }
  }

  lemma FrameKeepsSafety(s: State, s': State)
    requires CaptureFrame(s, s')
    ensures SafetyInv(s) ==> SafetyInv(s')
  {
  }

  lemma StepIsSafe(cfg: Config, s: State, e: Event)
    requires SafetyInv(s) && CountInv(s)
    ensures SafetyInv(Apply(cfg, s, e)) && CountInv(Apply(cfg, s, e))
  {
    match e {
      case WorkerStep(ok) => WorkerIsSafe(cfg, s, ok);
      case CaptureStep(choice, ok) => CaptureIsSafe(s, choice, ok);
      case _ => CallIsSafe(cfg, s, e);
    }
  }

  /** start, stop and requestRestart touch neither the sender nor the device. */
  lemma CallIsSafe(cfg: Config, s: State, e: Event)
    requires SafetyInv(s) && CountInv(s) && !e.WorkerStep? && !e.CaptureStep?
    ensures SafetyInv(Apply(cfg, s, e)) && CountInv(Apply(cfg, s, e))
  {
    if e.StartCall? { StartIsSafe(s); }
  }

  lemma StartIsSafe(s: State)
    requires SafetyInv(s) && CountInv(s)
    ensures SafetyInv(StartNext(s)) && CountInv(StartNext(s))
  {
    if StartNext(s) != s { assert s.capture == NoThread && s.sender == None; }
  }

  lemma {:induction false} RunIsSafe(cfg: Config, schedule: seq<Event>)
    ensures SafetyInv(Run(cfg, schedule)) && CountInv(Run(cfg, schedule))
  {
    if schedule == [] {
    } else {
      RunIsSafe(cfg, schedule[..|schedule| - 1]);
      StepIsSafe(cfg, Run(cfg, schedule[..|schedule| - 1]), schedule[|schedule| - 1]);
    }
  }

  /**
   Whatever happened before, a step that creates, replaces, initializes, shuts down or
   destroys the sender finds no live capture thread and leaves none.
   */
  lemma SenderChangesOnlyWithoutCapture(cfg: Config, schedule: seq<Event>, e: Event)
    ensures var s := Run(cfg, schedule);
            var s' := Apply(cfg, s, e);
            !SameSender(s.sender, s'.sender) ==> !Live(s) && !Live(s') && s.capture == NoThread
  {
    RunIsSafe(cfg, schedule);
    var s := Run(cfg, schedule);
    match e
    case WorkerStep(ok) => WorkerIsSafe(cfg, s, ok);
    case CaptureStep(choice, ok) => CaptureIsSafe(s, choice, ok);
    case StartCall => assert StartNext(s).sender == s.sender;
    case StopCall =>
    case RestartCall =>
  }

  /** Both callbacks are installed, and an initialized sender stands, whenever a capture thread exists. */
  lemma CallbacksBeforeCapture(cfg: Config, schedule: seq<Event>)
    ensures var s := Run(cfg, schedule);
            s.capture != NoThread ==>
              && s.device.frameCallback && s.device.errorCallback && s.device.capturing
              && s.sender.Some? && s.sender.value.initialized
  {
    RunIsSafe(cfg, schedule);
  }

  /** A capture thread starts only where none exists, and the application ends without one. */
  lemma AtMostOneCapture(cfg: Config, schedule: seq<Event>, e: Event)
    ensures var s := Run(cfg, schedule);
            var s' := Apply(cfg, s, e);
            && (s.worker.StartCapture? ==> s.capture == NoThread)
            && (s.capture == NoThread && s'.capture != NoThread ==>
                 e.WorkerStep? && s.worker.StartCapture? && s'.capture == Idle)
            && (s.worker == Done ==> s.capture == NoThread && s.sender.None?)
  {
    RunIsSafe(cfg, schedule);
    var s := Run(cfg, schedule);
    match e
    case WorkerStep(ok) => WorkerIsSafe(cfg, s, ok);
    case CaptureStep(choice, ok) => CaptureIsSafe(s, choice, ok);
    case StartCall => assert StartNext(s).capture == s.capture;
    case StopCall =>
    case RestartCall =>
  }

  /**
   Frame conservation at every step: captured frames are sent, dropped, or the one in the
   callback; and what the controller counted as sent is what its senders counted, over all
   their generations, up to the one send being recorded.
   */
  lemma FramesConserved(cfg: Config, schedule: seq<Event>)
    ensures var s := Run(cfg, schedule);
            && s.sent + s.dropped <= s.captured <= s.sent + s.dropped + 1
            && (!InCallback(s) ==> s.captured == s.sent + s.dropped)
            && s.sent <= s.retired + CurrentSent(s) <= s.sent + 1
            && (s.capture != CountSent ==> s.sent == s.retired + CurrentSent(s))
  {
    RunIsSafe(cfg, schedule);
  }

  // ---------------------------------------------------------------- retries

  /** Before the outcome of an initialize call is known. */
  predicate Initializing(w: Worker) { BuildsSender(w) || StartsDevice(w) }

  predicate Bounded(cfg: Config) { cfg.autoRetry && cfg.maxRetries >= 0 }

  /** The failed calls that the retry counter stands for. */
  function Tried(cfg: Config, s: State): nat { if cfg.autoRetry then s.retry else 0 }

  /** The retry counter counts the failed calls, and both start again after a success. */
  predicate AttemptsOk(cfg: Config, s: State) {
    && (!cfg.autoRetry ==> s.retry == 0 && s.failures <= 1)
    && (Bounded(cfg) ==> s.failures <= cfg.maxRetries + 1)
    && (Trying(s.worker) && !s.worker.InitFailed? ==>
          s.failures == Tried(cfg, s) && (Bounded(cfg) ==> s.failures <= cfg.maxRetries))
    && (s.worker.InitFailed? ==> s.failures == Tried(cfg, s) + 1)
    && (AfterSuccess(s.worker) ==> s.failures == 0 && s.retry == 0)
  }

  /** Giving up means that the allowed calls have all failed, and the loop is ending. */
  predicate GiveUpOk(cfg: Config, s: State) {
    s.gaveUp ==>
      && Ending(s.worker) && (cfg.autoRetry ==> cfg.maxRetries >= 0)
      && s.failures == (if cfg.autoRetry then cfg.maxRetries + 1 else 1)
  }

  /** From the test of the outer loop up to the reset of the retry counter. */
  predicate Trying(w: Worker) { Initializing(w) || Recovers(w) || w.ResetRetry? }

  /**
   The restart request of a failed initialization stays set until the next round of the outer
   loop clears it: up to the reset of the counter it is set exactly if a call has failed. No
   position inside the monitoring loop is reached with it.
   */
  predicate StaleOk(s: State) {
    && (s.stale ==> s.restart) && (Waiting(s.worker) ==> !s.stale)
    && (Trying(s.worker) ==> (s.stale <==> s.failures > 0))
  }

  predicate RetryInv(cfg: Config, s: State) {
    AttemptsOk(cfg, s) && GiveUpOk(cfg, s) && StaleOk(s)
  }

  predicate Ending(w: Worker) {
    match w
    case Done => true
    case ShutStop(last) => last
    case ShutJoin(last) => last
    case ShutDevice(last) => last
    case ShutSender(last) => last
    case DropSender(last) => last
    case _ => false
  }

  /** Positions reached only after a successful initialization, up to the next round. */
  predicate AfterSuccess(w: Worker) {
    match w
    case ShutStop(last) => !last
    case ShutJoin(last) => !last
    case ShutDevice(last) => !last
    case ShutSender(last) => !last
    case DropSender(last) => !last
    case ClearRestart => true
    case _ => Monitors(w) && !w.ResetRetry?
  }

  /** Inside the monitoring loop, past its test. */
  predicate Waiting(w: Worker) { w.CheckStall? || w.CheckStop? || w.CheckRestart? || w.CheckError? }

  lemma BuildSenderKeepsRetry(cfg: Config, s: State, ok: bool)
    requires RetryInv(cfg, s) && BuildsSender(s.worker)
    ensures RetryInv(cfg, BuildSenderNext(s, ok))
  {
    match s.worker {
      case LoopTest =>
      case CreateSender =>
      case InitSender =>
      case _ =>
    }
  }

  lemma StartDeviceKeepsRetry(cfg: Config, s: State, ok: bool)
    requires RetryInv(cfg, s) && StartsDevice(s.worker)
    ensures RetryInv(cfg, StartDeviceNext(s, ok))
  {
    match s.worker {
      case SetFrameCallback =>
      case SetErrorCallback =>
      case StartCapture =>
      case _ =>
    }
  }

  lemma RecoverKeepsRetry(cfg: Config, s: State)
    requires RetryInv(cfg, s) && Recovers(s.worker)
    ensures RetryInv(cfg, RecoverNext(cfg, s))
  {
    match s.worker {
      case InitFailed =>
      case RecoveryWait =>
      case _ =>
    }
  }

  lemma MonitorKeepsRetry(cfg: Config, s: State, ok: bool)
    requires RetryInv(cfg, s) && Monitors(s.worker)
    ensures RetryInv(cfg, MonitorNext(s, ok))
  {
    var w := MonitorTarget(s, ok);
    assert (Monitors(w) && !w.ResetRetry?) || (w == ShutStop(s.stop) && s.worker.AfterMonitor?);
  }

  lemma StopDeviceKeepsRetry(cfg: Config, s: State)
    requires RetryInv(cfg, s) && StopsDevice(s.worker)
    ensures RetryInv(cfg, StopDeviceNext(s))
  {
    match s.worker {
      case ShutStop(last) =>
      case ShutJoin(last) =>
      case _ =>
    }
  }

  lemma ShutSenderKeepsRetry(cfg: Config, s: State)
    requires RetryInv(cfg, s) && ShutsSender(s.worker)
    ensures RetryInv(cfg, ShutSenderNext(s))
  {
    match s.worker {
      case ShutDevice(last) =>
      case ShutSender(last) =>
      case _ =>
    }
  }

  lemma EndRoundKeepsRetry(cfg: Config, s: State)
    requires RetryInv(cfg, s) && EndsRound(s.worker)
    ensures RetryInv(cfg, EndRoundNext(s))
  {
    match s.worker {
      case DropSender(last) =>
      case ClearRestart =>
      case _ =>
    }
  }

  lemma WorkerKeepsRetry(cfg: Config, s: State, ok: bool)
    requires RetryInv(cfg, s)
    ensures RetryInv(cfg, WorkerNext(cfg, s, ok))
  {
    if BuildsSender(s.worker) { BuildSenderKeepsRetry(cfg, s, ok); }
    else if StartsDevice(s.worker) { StartDeviceKeepsRetry(cfg, s, ok); }
    else if Recovers(s.worker) { RecoverKeepsRetry(cfg, s); }
    else if Monitors(s.worker) { MonitorKeepsRetry(cfg, s, ok); }
    else if StopsDevice(s.worker) { StopDeviceKeepsRetry(cfg, s); }
    else if ShutsSender(s.worker) { ShutSenderKeepsRetry(cfg, s); }
    else if EndsRound(s.worker) { EndRoundKeepsRetry(cfg, s); }
  }

  lemma StepKeepsRetry(cfg: Config, s: State, e: Event)
    requires RetryInv(cfg, s)
    ensures RetryInv(cfg, Apply(cfg, s, e))
  {
    match e
    case WorkerStep(ok) => WorkerKeepsRetry(cfg, s, ok);
    case CaptureStep(choice, ok) => CaptureIsSafe(s, choice, ok);
    case StartCall =>
    case StopCall =>
    case RestartCall =>
  }

  lemma {:induction false} RunKeepsRetry(cfg: Config, schedule: seq<Event>)
    ensures RetryInv(cfg, Run(cfg, schedule))
  {
    if schedule == [] {
    } else {
      RunKeepsRetry(cfg, schedule[..|schedule| - 1]);
      StepKeepsRetry(cfg, Run(cfg, schedule[..|schedule| - 1]), schedule[|schedule| - 1]);
    }
  }

  /**
   With automatic retries bounded by m, no run makes more than m + 1 consecutive failing
   initialize calls, and the loop gives up after exactly that many; without automatic
   retries it gives up after the first.
   */
  lemma RetriesBounded(cfg: Config, schedule: seq<Event>)
    ensures var s := Run(cfg, schedule);
            && (cfg.autoRetry && cfg.maxRetries >= 0 ==> s.failures <= cfg.maxRetries + 1)
            && (!cfg.autoRetry ==> s.failures <= 1)
            && (s.gaveUp ==> s.failures == (if cfg.autoRetry then cfg.maxRetries + 1 else 1))
            && (cfg.autoRetry && cfg.maxRetries < 0 ==> !s.gaveUp)
  {
    RunKeepsRetry(cfg, schedule);
  }

  /**
   The request a failed initialization leaves behind is pending from the failure to the next
   success, and only then; no position inside the monitoring loop is reached while it is. After
   a success the retry counter tells, until it is reset.
   */
  lemma StaleRestartPending(cfg: Config, schedule: seq<Event>)
    ensures var s := Run(cfg, schedule);
            && (Trying(s.worker) ==> (s.stale <==> s.failures > 0) && (s.failures > 0 ==> s.restart))
            && (s.worker.ResetRetry? ==> (s.stale <==> s.retry > 0))
            && (Waiting(s.worker) ==> !s.stale)
  {
    RunKeepsRetry(cfg, schedule);
  }

  // ---------------------------------------------------------------- is a success monitored

  /** Nobody asks for a stop or a restart. */
  predicate NoRequests(schedule: seq<Event>) { forall e :: e in schedule ==> !e.StopCall? && !e.RestartCall? }

  /** In such a run the only request pending while the worker initializes is a failed call's. */
  predicate RequestOk(s: State) {
    && !s.stop
    && (Initializing(s.worker) || Recovers(s.worker) ==> (s.restart <==> s.stale))
  }

  lemma BuildSenderKeepsRequest(s: State, ok: bool)
    requires RequestOk(s) && BuildsSender(s.worker)
    ensures RequestOk(BuildSenderNext(s, ok))
  {
  }

  lemma StartDeviceKeepsRequest(s: State, ok: bool)
    requires RequestOk(s) && StartsDevice(s.worker)
    ensures RequestOk(StartDeviceNext(s, ok))
  {
  }

  lemma RecoverKeepsRequest(cfg: Config, s: State)
    requires RequestOk(s) && Recovers(s.worker)
    ensures RequestOk(RecoverNext(cfg, s))
  {
  }

  lemma MonitorKeepsRequest(s: State, ok: bool)
    requires RequestOk(s) && Monitors(s.worker)
    ensures RequestOk(MonitorNext(s, ok))
  {
    assert !Trying(MonitorTarget(s, ok));
  }

  lemma StopDeviceKeepsRequest(s: State)
    requires RequestOk(s) && StopsDevice(s.worker)
    ensures RequestOk(StopDeviceNext(s))
  {
  }

  lemma ShutSenderKeepsRequest(s: State)
    requires RequestOk(s) && ShutsSender(s.worker)
    ensures RequestOk(ShutSenderNext(s))
  {
  }

  lemma EndRoundKeepsRequest(s: State)
    requires RequestOk(s) && EndsRound(s.worker)
    ensures RequestOk(EndRoundNext(s))
  {
  }

  lemma WorkerKeepsRequest(cfg: Config, s: State, ok: bool)
    requires RequestOk(s)
    ensures RequestOk(WorkerNext(cfg, s, ok))
  {
    if BuildsSender(s.worker) { BuildSenderKeepsRequest(s, ok); }
    else if StartsDevice(s.worker) { StartDeviceKeepsRequest(s, ok); }
    else if Recovers(s.worker) { RecoverKeepsRequest(cfg, s); }
    else if Monitors(s.worker) { MonitorKeepsRequest(s, ok); }
    else if StopsDevice(s.worker) { StopDeviceKeepsRequest(s); }
    else if ShutsSender(s.worker) { ShutSenderKeepsRequest(s); }
    else if EndsRound(s.worker) { EndRoundKeepsRequest(s); }
  }

  lemma {:induction false} OnlyFailuresRequest(cfg: Config, schedule: seq<Event>)
    requires NoRequests(schedule)
    ensures RequestOk(Run(cfg, schedule))
  {
    if schedule == [] {
    } else {
      var s, e := Run(cfg, schedule[..|schedule| - 1]), schedule[|schedule| - 1];
      OnlyFailuresRequest(cfg, schedule[..|schedule| - 1]);
      RunIsSafe(cfg, schedule[..|schedule| - 1]);
      assert e in schedule;
      match e {
        case WorkerStep(ok) => WorkerKeepsRequest(cfg, s, ok);
        case CaptureStep(choice, ok) => CaptureIsSafe(s, choice, ok);
        case StartCall =>
        case _ =>
      }
    }
  }

  /** After a success without a pending request, two steps of the worker reach the monitoring loop's body. */
  lemma MonitoredUnlessRequested(cfg: Config, s: State, ok: bool, ok': bool)
    requires s.worker.ResetRetry?
    ensures var s2 := WorkerNext(cfg, WorkerNext(cfg, s, ok), ok');
            s2.worker == if s.stop || s.restart then AfterMonitor else CheckStall
  {
    assert WorkerNext(cfg, s, ok) == s.(worker := MonitorTest, retry := 0, failures := 0);
  }

  /**
   When nobody asks for a stop or a restart, a successful initialization is monitored exactly if
   the retry counter, as it is before the success resets it, is zero; otherwise it is torn down.
   */
  lemma SuccessIsMonitoredIff(cfg: Config, schedule: seq<Event>, ok: bool, ok': bool)
    requires NoRequests(schedule) && Run(cfg, schedule).worker.StartCapture?
    ensures var s := Run(cfg, schedule);
            var s1 := WorkerNext(cfg, s, true);
            var s3 := WorkerNext(cfg, WorkerNext(cfg, s1, ok), ok');
            s1.worker.ResetRetry? && s3.worker == if s.retry == 0 then CheckStall else AfterMonitor
  {
    OnlyFailuresRequest(cfg, schedule);
    RunKeepsRetry(cfg, schedule);
    MonitoredUnlessRequested(cfg, WorkerNext(cfg, Run(cfg, schedule), true), ok, ok');
  }

  /** The state at SetFrameCallback when the first sender has been initialized. */
  function FirstSender(): State {
    Initial().(worker := SetFrameCallback, sender := Some(Sender(0, true, 0)), running := true, nextGeneration := 1)
  }

  lemma FirstSenderStands(cfg: Config) returns (schedule: seq<Event>)
    ensures Run(cfg, schedule) == FirstSender() && NoRequests(schedule)
  {
    schedule := Then(cfg, [], StartCall);
    schedule := Then(cfg, schedule, WorkerStep(true));
    schedule := Then(cfg, schedule, WorkerStep(true));
    schedule := Then(cfg, schedule, WorkerStep(true));
  }

  lemma FirstCallSucceeds(cfg: Config) returns (schedule: seq<Event>)
    ensures var s := Run(cfg, schedule); s.worker.StartCapture? && s.retry == 0 && NoRequests(schedule)
  {
    schedule := FirstSenderStands(cfg);
    schedule := Then(cfg, schedule, WorkerStep(true));
    schedule := Then(cfg, schedule, WorkerStep(true));
  }

  /** The monitoring loop is reached: everything works at the first call. */
  lemma MonitoringHappens(cfg: Config) returns (schedule: seq<Event>)
    ensures Run(cfg, schedule).worker.CheckStall?
  {
    schedule := FirstCallSucceeds(cfg);
    SuccessIsMonitoredIff(cfg, schedule, true, true);
    schedule := Then(cfg, schedule, WorkerStep(true));
    schedule := Then(cfg, schedule, WorkerStep(true));
    schedule := Then(cfg, schedule, WorkerStep(true));
  }

  // ---------------------------------------------------------------- a success after failures

  predicate NoWorkerStep(events: seq<Event>) { forall e :: e in events ==> !e.WorkerStep? }

  /** Whatever the other threads do, the worker stays at its test and the request stays set. */
  lemma {:induction false} OthersKeepRequest(cfg: Config, s: State, events: seq<Event>)
    requires NoWorkerStep(events) && s.worker.MonitorTest? && s.restart
    ensures var s' := RunFrom(cfg, s, events); s'.worker.MonitorTest? && s'.restart
    decreases |events|
  {
    if events == [] {
    } else {
      match events[0] {
        case CaptureStep(choice, ok) => CaptureIsSafe(s, choice, ok);
        case _ =>
      }
      OthersKeepRequest(cfg, Apply(cfg, s, events[0]), events[1..]);
    }
  }

  /**
   A success after failed calls is torn down at once: whatever the other threads do in between,
   the worker goes from ResetRetry to MonitorTest to AfterMonitor, and the pipeline is built
   once more before any frame is waited for.
   */
  lemma StaleRestartTearsDown(cfg: Config, schedule: seq<Event>, ok: bool, between: seq<Event>, ok': bool)
    requires NoWorkerStep(between)
    requires Run(cfg, schedule).worker.ResetRetry? && Run(cfg, schedule).failures > 0
    ensures var s1 := WorkerNext(cfg, Run(cfg, schedule), ok);
            var s2 := RunFrom(cfg, s1, between);
            && s1.worker.MonitorTest? && s1.stale && s2.worker.MonitorTest?
            && WorkerNext(cfg, s2, ok').worker == AfterMonitor
  {
    RunKeepsRetry(cfg, schedule);
    OthersKeepRequest(cfg, WorkerNext(cfg, Run(cfg, schedule), ok), between);
  }

  lemma Then(cfg: Config, schedule: seq<Event>, e: Event) returns (longer: seq<Event>)
    ensures longer == schedule + [e] && Run(cfg, longer) == Apply(cfg, Run(cfg, schedule), e)
  {
    longer := schedule + [e];
    assert longer[..|longer| - 1] == schedule;
  }

  /** The state in which the first call has failed, and the one in which the outer loop tries again. */
  function FailedOnce(): State {
    State(InitFailed, NoThread, NEW_DEVICE, Some(Sender(0, false, 0)), true, false, true, 0,
          0, 0, 0, 1, 0, 1, false, true)
  }

  function TryingAgain(): State { FailedOnce().(worker := LoopTest, retry := 1) }

  lemma FirstCallFails(cfg: Config) returns (schedule: seq<Event>)
    ensures Run(cfg, schedule) == FailedOnce()
  {
    schedule := Then(cfg, [], StartCall);
    schedule := Then(cfg, schedule, WorkerStep(true));
    schedule := Then(cfg, schedule, WorkerStep(true));
    schedule := Then(cfg, schedule, WorkerStep(false));
  }

  lemma LoopTriesAgain(cfg: Config) returns (schedule: seq<Event>)
    requires cfg.autoRetry && (cfg.maxRetries < 0 || cfg.maxRetries >= 1)
    ensures Run(cfg, schedule) == TryingAgain()
  {
    schedule := FirstCallFails(cfg);
    schedule := Then(cfg, schedule, WorkerStep(true));
    schedule := Then(cfg, schedule, WorkerStep(true));
  }

  lemma SecondSenderCreated(cfg: Config) returns (schedule: seq<Event>)
    requires cfg.autoRetry && (cfg.maxRetries < 0 || cfg.maxRetries >= 1)
    ensures Run(cfg, schedule) ==
            TryingAgain().(worker := InitSender, sender := Some(Sender(1, false, 0)), nextGeneration := 2)
  {
    schedule := LoopTriesAgain(cfg);
    schedule := Then(cfg, schedule, WorkerStep(true));
    schedule := Then(cfg, schedule, WorkerStep(true));
  }

  lemma SecondSenderStands(cfg: Config) returns (schedule: seq<Event>)
    requires cfg.autoRetry && (cfg.maxRetries < 0 || cfg.maxRetries >= 1)
    ensures Run(cfg, schedule) ==
            TryingAgain().(worker := SetFrameCallback, sender := Some(Sender(1, true, 0)), nextGeneration := 2)
  {
    schedule := SecondSenderCreated(cfg);
    schedule := Then(cfg, schedule, WorkerStep(true));
  }

  /** Such a success exists: the first sender fails to initialize, everything after that works. */
  lemma SuccessAfterFailureHappens(cfg: Config) returns (schedule: seq<Event>)
    requires cfg.autoRetry && (cfg.maxRetries < 0 || cfg.maxRetries >= 1)
    ensures var s := Run(cfg, schedule); s.worker.ResetRetry? && s.failures == 1 && s.capture == Idle
  {
    schedule := SecondSenderStands(cfg);
    schedule := Then(cfg, schedule, WorkerStep(true));
    schedule := Then(cfg, schedule, WorkerStep(true));
    schedule := Then(cfg, schedule, WorkerStep(true));
  }

  /** The state after a schedule, from a given state. */
  function RunFrom(cfg: Config, s: State, schedule: seq<Event>): State
    decreases |schedule|
  {
    if schedule == [] then s else RunFrom(cfg, Apply(cfg, s, schedule[0]), schedule[1..])
  }

  // ---------------------------------------------------------------- termination when nothing succeeds

  /** No stop is requested, and no capture start succeeds. */
  predicate KeepsFailing(s: State, e: Event) {
    && !e.StopCall? && !e.StartCall?
    && (s.worker.StartCapture? && e.WorkerStep? ==> !e.ok)
  }

  /** How far each position is from the end of a failing round. */
  function Rank(w: Worker): nat {
    match w
    case LoopTest => 12
    case CreateSender => 11
    case InitSender => 10
    case SetFrameCallback => 9
    case SetErrorCallback => 8
    case StartCapture => 7
    case InitFailed => 6
    case RecoveryWait => 13
    case ShutStop(_) => 5
    case ShutDevice(_) => 4
    case ShutSender(_) => 3
    case DropSender(_) => 2
    case _ => 0
  }

  /** Worker steps left at most: whole rounds still allowed, then the rest of this one. */
  function StepsLeft(cfg: Config, s: State): nat
    requires cfg.maxRetries >= 0
  {
    (if s.retry <= cfg.maxRetries then (cfg.maxRetries - s.retry) * 20 else 0) + Rank(s.worker)
  }

  /** A worker that has never had a capture thread in this run. */
  predicate FailingRun(cfg: Config, s: State) {
    SafetyInv(s) && CountInv(s) && RetryInv(cfg, s) && !s.stop && s.capture == NoThread && FailingPosition(s)
  }

  predicate FailingPosition(s: State) {
    Initializing(s.worker) || Recovers(s.worker) || (s.gaveUp && Ending(s.worker) && !s.worker.ShutJoin?)
  }

  /** The worker goes on inside a failing run, and gets nearer to its end. */
  predicate Progress(cfg: Config, s: State, s': State)
    requires cfg.maxRetries >= 0
  {
    && !s'.stop && s'.capture == NoThread && FailingPosition(s') && StepsLeft(cfg, s') < StepsLeft(cfg, s)
  }

  lemma FailingInitialize(cfg: Config, s: State, ok: bool)
    requires cfg.maxRetries >= 0 && FailingRun(cfg, s) && Initializing(s.worker) && (s.worker.StartCapture? ==> !ok)
    ensures Progress(cfg, s, if BuildsSender(s.worker) then BuildSenderNext(s, ok) else StartDeviceNext(s, ok))
  {
    if BuildsSender(s.worker) {
    } else {
      assert !s.device.capturing;
    }
  }

  lemma FailingRecovery(cfg: Config, s: State)
    requires cfg.autoRetry && cfg.maxRetries >= 0 && FailingRun(cfg, s) && Recovers(s.worker)
    ensures Progress(cfg, s, RecoverNext(cfg, s))
  {
  }

  lemma FailingStop(cfg: Config, s: State)
    requires cfg.maxRetries >= 0 && FailingRun(cfg, s) && StopsDevice(s.worker)
    ensures Progress(cfg, s, StopDeviceNext(s))
  {
    assert !s.device.capturing && !s.worker.ShutJoin?;
  }

  lemma FailingShut(cfg: Config, s: State)
    requires cfg.maxRetries >= 0 && FailingRun(cfg, s) && ShutsSender(s.worker)
    ensures Progress(cfg, s, ShutSenderNext(s))
  {
  }

  lemma FailingEnd(cfg: Config, s: State)
    requires cfg.maxRetries >= 0 && FailingRun(cfg, s) && EndsRound(s.worker)
    ensures Progress(cfg, s, EndRoundNext(s))
  {
    assert !s.worker.ClearRestart?;
  }

  lemma FailingWorkerStep(cfg: Config, s: State, ok: bool)
    requires cfg.autoRetry && cfg.maxRetries >= 0 && FailingRun(cfg, s) && (s.worker.StartCapture? ==> !ok)
    ensures FailingRun(cfg, WorkerNext(cfg, s, ok))
    ensures s.worker != Done ==> StepsLeft(cfg, WorkerNext(cfg, s, ok)) < StepsLeft(cfg, s)
    ensures s.worker == Done ==> WorkerNext(cfg, s, ok) == s
  {
    WorkerIsSafe(cfg, s, ok);
    WorkerKeepsRetry(cfg, s, ok);
    if Initializing(s.worker) { FailingInitialize(cfg, s, ok); }
    else if Recovers(s.worker) { FailingRecovery(cfg, s); }
    else if StopsDevice(s.worker) { FailingStop(cfg, s); }
    else if ShutsSender(s.worker) { FailingShut(cfg, s); }
    else if EndsRound(s.worker) { FailingEnd(cfg, s); }
  }

  lemma FailingStep(cfg: Config, s: State, e: Event)
    requires cfg.autoRetry && cfg.maxRetries >= 0 && FailingRun(cfg, s) && KeepsFailing(s, e)
    ensures FailingRun(cfg, Apply(cfg, s, e))
    ensures e.WorkerStep? && s.worker != Done ==> StepsLeft(cfg, Apply(cfg, s, e)) < StepsLeft(cfg, s)
    ensures !e.WorkerStep? || s.worker == Done ==> StepsLeft(cfg, Apply(cfg, s, e)) == StepsLeft(cfg, s)
                                                   && Apply(cfg, s, e).worker == s.worker
  {
    match e
    case WorkerStep(ok) => FailingWorkerStep(cfg, s, ok);
    case CaptureStep(choice, ok) => assert CaptureNext(s, choice, ok) == s;
    case RestartCall => StepKeepsRetry(cfg, s, e);
  }

  function WorkerSteps(schedule: seq<Event>): nat {
    if schedule == [] then 0 else (if schedule[0].WorkerStep? then 1 else 0) + WorkerSteps(schedule[1..])
  }

  predicate AllFail(cfg: Config, s: State, schedule: seq<Event>)
    decreases |schedule|
  {
    schedule == [] || (KeepsFailing(s, schedule[0]) && AllFail(cfg, Apply(cfg, s, schedule[0]), schedule[1..]))
  }

  /**
   When no initialization succeeds and nobody asks to stop, the loop ends after exactly
   m + 1 failing calls: any schedule that lets the worker run long enough reaches the end,
   having given up.
   */
  lemma {:induction false} GivesUpWhenNothingSucceeds(cfg: Config, s: State, schedule: seq<Event>)
    requires cfg.autoRetry && cfg.maxRetries >= 0 && FailingRun(cfg, s) && AllFail(cfg, s, schedule)
    requires WorkerSteps(schedule) >= StepsLeft(cfg, s)
    ensures var last := RunFrom(cfg, s, schedule);
            last.worker == Done && last.gaveUp && last.failures == cfg.maxRetries + 1
    decreases |schedule|
  {
    if s.worker == Done {
      StaysDone(cfg, s, schedule);
    } else {
      FailingStep(cfg, s, schedule[0]);
      GivesUpWhenNothingSucceeds(cfg, Apply(cfg, s, schedule[0]), schedule[1..]);
    }
  }

  lemma {:induction false} StaysDone(cfg: Config, s: State, schedule: seq<Event>)
    requires cfg.autoRetry && cfg.maxRetries >= 0 && FailingRun(cfg, s) && AllFail(cfg, s, schedule) && s.worker == Done
    ensures var last := RunFrom(cfg, s, schedule);
            last.worker == Done && last.gaveUp && last.failures == cfg.maxRetries + 1
    decreases |schedule|
  {
    if schedule == [] {
    } else {
      FailingStep(cfg, s, schedule[0]);
      StaysDone(cfg, Apply(cfg, s, schedule[0]), schedule[1..]);
    }
  }

  /** Such a run begins with start(), in any state an earlier run can have left behind. */
  lemma StartBeginsFailingRun(cfg: Config, schedule: seq<Event>)
    requires cfg.autoRetry && cfg.maxRetries >= 0
    requires var w := Run(cfg, schedule).worker; w == NotStarted || w == Done
    ensures FailingRun(cfg, Apply(cfg, Run(cfg, schedule), StartCall))
    ensures StepsLeft(cfg, Apply(cfg, Run(cfg, schedule), StartCall)) == 20 * cfg.maxRetries + 12
  {
    RunIsSafe(cfg, schedule);
    RunKeepsRetry(cfg, schedule);
  }

  // ---------------------------------------------------------------- stop ends the run

  /** Worker steps left at most once a stop is requested; waiting for the capture thread does not count. */
  function StopRank(w: Worker): nat {
    match w
    case NotStarted => 0
    case Done => 0
    case DropSender(last) => if last then 1 else 8
    case ShutSender(last) => if last then 2 else 9
    case ShutDevice(last) => if last then 3 else 10
    case ShutJoin(last) => if last then 4 else 11
    case ShutStop(last) => if last then 5 else 12
    case LoopTest => 6
    case RecoveryWait => 6
    case AfterMonitor => 6
    case ClearRestart => 7
    case InitFailed => 7
    case MonitorTest => 7
    case CheckError => 8
    case ResetRetry => 8
    case CheckRestart => 9
    case StartCapture => 9
    case CheckStop => 10
    case SetErrorCallback => 10
    case CheckStall => 11
    case SetFrameCallback => 11
    case InitSender => 12
    case CreateSender => 13
  }

  /** Steps left for a capture thread that has been told to stop. */
  function CaptureRank(c: Capture): nat {
    match c
    case NoThread => 0
    case Exited => 0
    case Idle => 1
    case Failing => 1
    case CountSent => 2
    case CountDropped => 2
    case Send => 3
    case CheckReady => 4
    case FrameArrived => 5
  }

  function StopMeasure(s: State): nat {
    7 * StopRank(s.worker) + (if s.worker.ShutJoin? then CaptureRank(s.capture) else 6)
  }

  /** The worker is joining a capture thread that still runs. */
  predicate Joining(s: State) { s.worker.ShutJoin? && s.capture != Exited }

  predicate Stopping(s: State) { SafetyInv(s) && CountInv(s) && s.stop }

  /** One step nearer to the end of a run that is to stop. */
  predicate Nearer(s: State, s': State) { s'.stop && StopRank(s'.worker) < StopRank(s.worker) }

  lemma BuildNearer(s: State, ok: bool)
    requires s.stop && BuildsSender(s.worker)
    ensures Nearer(s, BuildSenderNext(s, ok))
  {
  }

  lemma StartNearer(s: State, ok: bool)
    requires s.stop && StartsDevice(s.worker)
    ensures Nearer(s, StartDeviceNext(s, ok))
  {
  }

  lemma RecoverNearer(cfg: Config, s: State)
    requires s.stop && Recovers(s.worker)
    ensures Nearer(s, RecoverNext(cfg, s))
  {
  }

  lemma MonitorNearer(s: State, ok: bool)
    requires s.stop && Monitors(s.worker)
    ensures Nearer(s, MonitorNext(s, ok))
  {
  }

  lemma StopDeviceNearer(s: State)
    requires s.stop && StopsDevice(s.worker) && SafetyInv(s)
    ensures if Joining(s) then StopDeviceNext(s) == s else Nearer(s, StopDeviceNext(s))
  {
    match s.worker {
      case ShutStop(last) =>
      case ShutJoin(last) =>
      case _ =>
    }
  }

  lemma ShutNearer(s: State)
    requires s.stop && ShutsSender(s.worker)
    ensures Nearer(s, ShutSenderNext(s))
  {
  }

  lemma EndNearer(s: State)
    requires s.stop && EndsRound(s.worker)
    ensures Nearer(s, EndRoundNext(s))
  {
  }

  lemma WorkerTowardsStop(cfg: Config, s: State, ok: bool)
    requires SafetyInv(s) && s.stop
    ensures if Joining(s) || s.worker.Done? then WorkerNext(cfg, s, ok) == s else Nearer(s, WorkerNext(cfg, s, ok))
  {
    if BuildsSender(s.worker) { BuildNearer(s, ok); }
    else if StartsDevice(s.worker) { StartNearer(s, ok); }
    else if Recovers(s.worker) { RecoverNearer(cfg, s); }
    else if Monitors(s.worker) { MonitorNearer(s, ok); }
    else if StopsDevice(s.worker) { StopDeviceNearer(s); }
    else if ShutsSender(s.worker) { ShutNearer(s); }
    else if EndsRound(s.worker) { EndNearer(s); }
  }

  lemma CaptureTowardsStop(s: State, choice: CaptureChoice, ok: bool)
    requires SafetyInv(s) && s.worker.ShutJoin?
    ensures var s' := CaptureNext(s, choice, ok);
            && (Joining(s) ==> CaptureRank(s'.capture) < CaptureRank(s.capture))
            && (!Joining(s) ==> s'.capture == s.capture)
  {
    if InCallback(s) {
    } else {
    }
  }

  lemma NearerMeasure(s: State, s': State)
    requires Nearer(s, s')
    ensures StopMeasure(s') < StopMeasure(s)
  {
    assert 7 * StopRank(s'.worker) + 7 <= 7 * StopRank(s.worker);
  }

  lemma StopWorkerStep(cfg: Config, s: State, ok: bool)
    requires SafetyInv(s) && s.stop
    ensures var s' := WorkerNext(cfg, s, ok);
            && s'.stop && StopMeasure(s') <= StopMeasure(s)
            && (s.worker.Done? ==> s'.worker.Done?)
            && (!s.worker.Done? && !Joining(s) ==> StopMeasure(s') < StopMeasure(s))
            && (Joining(s) ==> s' == s)
  {
    WorkerTowardsStop(cfg, s, ok);
    if !Joining(s) && !s.worker.Done? { NearerMeasure(s, WorkerNext(cfg, s, ok)); }
  }

  lemma StopCaptureStep(s: State, choice: CaptureChoice, ok: bool)
    requires SafetyInv(s) && s.stop
    ensures var s' := CaptureNext(s, choice, ok);
            && s'.stop && StopMeasure(s') <= StopMeasure(s) && s'.worker == s.worker
            && (Joining(s) ==> StopMeasure(s') < StopMeasure(s))
            && (!Joining(s) ==> !Joining(s'))
  {
    CaptureIsSafe(s, choice, ok);
    if s.worker.ShutJoin? { CaptureTowardsStop(s, choice, ok); }
  }

  /** What the end of the run waits for in this state. */
  predicate Awaited(s: State, e: Event) { if Joining(s) then e.CaptureStep? else e.WorkerStep? }

  /** With a stop requested no event moves away from the end, and the one that is waited for moves towards it. */
  lemma StopStep(cfg: Config, s: State, e: Event)
    requires Stopping(s) && !e.StartCall?
    ensures var s' := Apply(cfg, s, e);
            && Stopping(s') && StopMeasure(s') <= StopMeasure(s)
            && (s.worker.Done? ==> s'.worker.Done?)
            && (!s.worker.Done? && Awaited(s, e) ==> StopMeasure(s') < StopMeasure(s))
            && (!Awaited(s, e) ==> s'.worker == s.worker && Joining(s') == Joining(s))
  {
    StepIsSafe(cfg, s, e);
    match e {
      case WorkerStep(ok) => StopWorkerStep(cfg, s, ok);
      case CaptureStep(choice, ok) => StopCaptureStep(s, choice, ok);
      case StopCall =>
      case RestartCall =>
    }
  }

  /** Some event of the round is a step of the capture thread, or of the worker. */
  predicate Contains(round: seq<Event>, ofCapture: bool) {
    round != [] &&
    ((if ofCapture then round[0].CaptureStep? else round[0].WorkerStep?) || Contains(round[1..], ofCapture))
  }

  predicate NoStart(round: seq<Event>) { forall e :: e in round ==> !e.StartCall? }

  /** Both threads run at least once in a round, in any order, among any other calls but start. */
  predicate FairRound(round: seq<Event>) { NoStart(round) && Contains(round, false) && Contains(round, true) }

  lemma {:induction false} NeverAway(cfg: Config, s: State, events: seq<Event>)
    requires Stopping(s) && NoStart(events)
    ensures var s' := RunFrom(cfg, s, events);
            Stopping(s') && StopMeasure(s') <= StopMeasure(s) && (s.worker.Done? ==> s'.worker.Done?)
    decreases |events|
  {
    if events == [] {
    } else {
      StopStep(cfg, s, events[0]);
      NeverAway(cfg, Apply(cfg, s, events[0]), events[1..]);
    }
  }

  lemma {:induction false} RoundMakesProgress(cfg: Config, s: State, round: seq<Event>)
    requires Stopping(s) && !s.worker.Done? && NoStart(round) && Contains(round, Joining(s))
    ensures StopMeasure(RunFrom(cfg, s, round)) < StopMeasure(s)
    decreases |round|
  {
    var s' := Apply(cfg, s, round[0]);
    StopStep(cfg, s, round[0]);
    if Awaited(s, round[0]) {
      NeverAway(cfg, s', round[1..]);
    } else {
      RoundMakesProgress(cfg, s', round[1..]);
    }
  }

  function RunRounds(cfg: Config, s: State, rounds: seq<seq<Event>>): State
    decreases |rounds|
  {
    if rounds == [] then s else RunRounds(cfg, RunFrom(cfg, s, rounds[0]), rounds[1..])
  }

  /** Once a stop is requested, enough rounds in which both threads run end the worker. */
  lemma {:induction false} StopEndsTheRun(cfg: Config, s: State, rounds: seq<seq<Event>>)
    requires Stopping(s) && (forall r :: r in rounds ==> FairRound(r))
    requires s.worker.Done? || |rounds| >= StopMeasure(s)
    ensures RunRounds(cfg, s, rounds).worker == Done
    decreases |rounds|
  {
    if rounds == [] {
      assert s.worker.Done? || StopMeasure(s) == 0;
    } else {
      assert FairRound(rounds[0]);
      NeverAway(cfg, s, rounds[0]);
      if s.worker.Done? {
      } else if Joining(s) {
        RoundMakesProgress(cfg, s, rounds[0]);
      } else {
        RoundMakesProgress(cfg, s, rounds[0]);
      }
      StopEndsTheRun(cfg, RunFrom(cfg, s, rounds[0]), rounds[1..]);
    }
  }

  /** That covers every reachable state with a stop request, with at most 97 rounds to go. */
  lemma StopRequestIsStopping(cfg: Config, schedule: seq<Event>)
    ensures var s := Run(cfg, schedule);
            && (s.stop ==> Stopping(s) && StopMeasure(s) <= 97)
            && (s.worker != NotStarted ==> Stopping(Apply(cfg, s, StopCall)))
  {
    RunIsSafe(cfg, schedule);
    StepIsSafe(cfg, Run(cfg, schedule), StopCall);
    AtMost97(Run(cfg, schedule));
  }

  lemma AtMost97(s: State)
    ensures StopMeasure(s) <= 97
  {
    assert StopRank(s.worker) <= 13 && CaptureRank(s.capture) <= 5;
  }
}
