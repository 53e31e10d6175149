# ndi-bridge verification

A Dafny model of the parts of ndi-bridge that carry media: the lock-free frame queues, the
PipeWire audio ring, the capture life cycle, buffer ownership and pacing of the V4L2 capture,
the resources of the DRM display, the NDI sender, and the pixel transformations. The kernel,
NDI and PipeWire are an environment whose calls may fail or succeed at will.

* **Queues.** `FrameQueueProtocol` interleaves one producer and one consumer, every shared
  access (and every copied byte) a step of its own, and proves that each step of each
  interleaving is a step of a bounded FIFO. Every index has one writer and is released and
  acquired, so sequentially consistent steps describe the memory order. `FrameQueueObject` is
  the class; its calls are shown to be uninterrupted runs of the protocol.
  `BufferIndexQueueProtocol` is simulated by the frame queue.
* **Audio.** `AudioStream` says as a value what the ring is for; the class in
  `PipeWireAudioOutput` updates the 9600-place array and is proved to carry that value. The
  usable capacity is odd, so an overflow swaps the channels until the ring drains:
  `AudioStream.InPhaseIffNoOverflowSinceEmpty` is the exact condition under which it does not.
  `AudioReopen` interleaves the device callback with the unlocked reset at the end of openDevice:
  a callback that overlaps it can start the new session with swapped channels, and
  `AudioReopen.OpeningAlwaysInPhaseIff` says that only a ring whose positions are both zero
  already is safe from that.
* **Life cycle.** `AppController` is a state machine of the worker thread, the capture thread and
  the callers of start, stop and requestRestart; a schedule is any sequence of events. A failed
  initialization leaves its restart request set, so that the first success after it is torn down
  and built again: unless someone asks for a stop or a restart, a successful initialize is
  monitored exactly if retry_count_, as it is before src/common/app_controller.cpp:194 resets it,
  is zero (`AppController.SuccessIsMonitoredIff`). `AppRuns` says what the runs achieve: they end
  only for a stop or after the last failed attempt, a restart builds the pipeline again, and every
  frame is sent or reported. `StallWatchdog` is the monitoring loop with its clock.
* **Resources.** `V4L2Capture`, `DrmDisplayOutput` and `NdiSender` are classes over a kernel or
  library whose answers are parameters, so that success is an equivalence on them. Releasing
  something that is not live violates a precondition, so that these methods verify already says
  that nothing is released twice.
  createSourceFramebuffer takes a recorded size for a created buffer: after a creation that
  failed late, or after closing and opening again, a frame is written through a null pointer,
  unless its format and stride make the blit write nothing.
  `DrmDisplayOutput.DrmDisplay.DisplayFrame` says exactly when.
* **Pixels.** `PixelLayouts` names the sample and pixel layouts, `LineConversion` holds the inner
  loops that the converters share (the colour conversion is a parameter there), and
  `V4L2FormatConverter`, `BasicFormatConverter`, `YuyvConversion` and `DisplayScaling` are the
  components. `PixelPipeline` composes them. `ColourStandard` encodes colours as ITU-R BT.601 and
  BT.709 define it, from their luma weights alone, and `ColourAccuracy` proves that every decoder
  gives the colours back to within a few levels. The sender's YUYV path takes no notice of the
  stride: `PixelPipeline.SentAsCapturedIff` says when the picture survives that.

In specifications the ghost function `Common.Times(k, n)` stands for the product k * n of slot and
row offsets (`Common.TimesIsProduct`) and `AudioStream.Even` for divisibility by two
(`AudioStream.EvenMeansDivisible`); the methods compute with `*` and `%`. Integers are unbounded:
sizes are taken not to overflow 32 bits.

Assumptions about the environment: a dequeue hands out a queued buffer; kernel calls that succeed
return fresh ids and addresses; a framebuffer holds at least pitch * height bytes with
pitch >= 4 * width; callers of the queues push from one thread and pop from another; source and
destination buffers do not overlap and are as large as the stated sizes and strides need; packed
4:2:2 lines have even widths; a queue has capacity of at least one. In the life cycle, `stop` joins
the previous run before a second `start`. In `PipeWireAudioOutput` no callback runs while openDevice
resets the positions; `AudioReopen` does without that assumption. Both take openDevice, closeDevice
and writeAudio to be called from one thread, as src/display/main.cpp does: writeAudio tests is_open_
without a lock, and a write that is past its test would go on while another thread reopens the device.

## Model

| member | source | states |
|---|---|---|
| FrameQueueProtocol.StepRefinesFifo | src/common/frame_queue.cpp:26-70 | in every reachable state, a step of either thread is a step of a FIFO of at most capacity - 1 items: a push takes effect at its tail store, a pop at its head store, a push fails exactly when the queue is full at its load of head, a pop exactly when it is empty at its load of tail |
| FrameQueueProtocol.NothingLostOrReordered | src/common/frame_queue.cpp:26-70 | under every interleaving popped frames followed by queued frames are the pushed frames in order, and attempts = popped + queued + dropped + the one under way |
| FrameQueueProtocol.PoppedBytesStayPut | src/common/frame_queue.cpp:28-67 | the pointer of a popped frame leads to the first min(size, frame_size) bytes that were pushed, at the pop and after any later steps of both threads until the next pop commits |
| FrameQueueProtocol.HeldUntilNextPop | src/common/frame_queue.cpp:54-70 | only a committing pop changes which frame the consumer holds |
| FrameQueueProtocol.TailWriteKeepsOthers | src/common/frame_queue.cpp:37-47 | whatever is written into the tail slot and its part of the pool, no other slot's frame changes |
| FrameQueueProtocol.SlotsDisjoint | src/common/frame_queue.h:116-118 | the pool parts of different slots share no byte and lie inside the pool |
| FrameQueueProtocol.FullIffOneSlotLeft | src/common/frame_queue.cpp:72-92 | the next slot after the tail is the head exactly when capacity - 1 frames are queued, and head equals tail exactly when none is |
| FrameQueueProtocol.TailAdvances | src/common/frame_queue.cpp:49-51 | storing the next tail appends the frame in the tail slot to the contents |
| FrameQueueProtocol.HeadAdvances | src/common/frame_queue.cpp:62-69 | storing the next head removes the first frame from the contents |
| FrameQueueProtocol.NextIsRemainder | src/common/frame_queue.cpp:28-29 | the step around the ring is the remainder by the capacity |
| FrameQueueObject.FrameQueue.constructor | src/common/frame_queue.cpp:9-20 | a new queue is valid, empty and has dropped nothing |
| FrameQueueObject.FrameQueue.GetDataPtr | src/common/frame_queue.h:116-118 | the slot's offset, apart from every other slot's bytes and inside the pool |
| FrameQueueObject.FrameQueue.TryPush | src/common/frame_queue.cpp:26-52 | fails exactly on a full queue and counts a drop; otherwise the contents grow by the record with the first min(size, frame_size) bytes, and nothing but the tail slot changes |
| FrameQueueObject.FrameQueue.TryPop | src/common/frame_queue.cpp:54-70 | empty queue: nothing; otherwise the oldest frame with its bytes, and its slot becomes the one just before head |
| FrameQueueObject.FrameQueue.Empty | src/common/frame_queue.cpp:72-75 | true exactly when nothing is queued |
| FrameQueueObject.FrameQueue.Full | src/common/frame_queue.cpp:77-81 | true exactly when capacity - 1 frames are queued |
| FrameQueueObject.FrameQueue.Size | src/common/frame_queue.cpp:83-92 | the number of queued frames |
| FrameQueueObject.TryPushIsProtocolRun | src/common/frame_queue.cpp:26-52 | the object's push is the protocol's push without a step of the consumer in between |
| FrameQueueObject.TryPopIsProtocolRun | src/common/frame_queue.cpp:54-70 | the object's pop is the protocol's pop without a step of the producer in between |
| FrameQueueObject.CopyAlone | src/common/frame_queue.cpp:40-46 | copying byte by byte leaves the pool as one copy of the whole stretch does |
| BufferIndexQueueProtocol.StepIsFrameQueueSteps | src/common/frame_queue.cpp:101-125 | every step of the index queue is one or two steps of the frame queue on embedded states |
| BufferIndexQueueProtocol.IndicesComeOutInOrder | src/common/frame_queue.cpp:96-125 | under every interleaving popped indices followed by waiting ones are the pushed ones in order, fewer than the capacity waiting, and attempts = popped + waiting + refused + the one under way |
| BufferIndexQueueProtocol.RefusedExactlyWhenFull | src/common/frame_queue.cpp:101-125 | in every reachable state a push is refused exactly when capacity - 1 indices wait as it loads head, a pop finds nothing exactly when none wait as it loads tail, and refusals are counted exactly then |
| AudioStream.SamplesAreConserved | src/display/pipewire_audio_output.cpp:41-60 | over every run of whole-frame writes and callbacks: written = played + overwritten + held, the held samples are the newest of the input, and every callback plays a piece of the input |
| AudioStream.InPhaseIffNoOverflowSinceEmpty | src/display/pipewire_audio_output.cpp:41-59 | a callback starts with a left sample exactly when no write has found too little room since the ring was last empty |
| AudioStream.WithoutOverflowPlaysTheInput | src/display/pipewire_audio_output.cpp:189-220 | a run in which every write finds room plays the input in order, in whole frames, the rest still in the ring |
| AudioStream.LosesNothingIffAllFit | src/display/pipewire_audio_output.cpp:212-219 | nothing is overwritten exactly when at every write held and new samples together fit, which can be checked before the write |
| AudioStream.OverflowedMeans | src/display/pipewire_audio_output.cpp:41-59 | the ring is marked as overflowed exactly when some write found too little room and the ring has not been empty since |
| AudioStream.OverflowHappens | src/display/pipewire_audio_output.cpp:212-219 | one write of one sample more than the ring holds, a whole number of frames, puts the channels out of phase |
| AudioStream.SilenceOnlyWhenDry | src/display/pipewire_audio_output.cpp:41-60 | silence fills up the frames asked for and only after the ring was emptied |
| AudioStream.RunInv | src/display/pipewire_audio_output.cpp:41-60 | the counts, parities and order facts hold after every run |
| PipeWireAudioOutput.PutOne | src/display/pipewire_audio_output.cpp:212-219 | writing one sample appends it and, in a full ring, drops the oldest |
| PipeWireAudioOutput.TakeOne | src/display/pipewire_audio_output.cpp:47-52 | reading one sample gives the oldest and leaves the rest |
| PipeWireAudioOutput.PhaseOfPositions | src/display/pipewire_audio_output.cpp:10-11 | with an even ring and write position the read position is odd exactly when an odd number of samples is held |
| PipeWireAudioOutput.StereoFrames | src/display/pipewire_audio_output.cpp:192-210 | frame i of the mix is the doubled mono sample, the first two of many channels, or the stereo pair of input frame i |
| PipeWireAudioOutput.PipeWireAudioOutput.ReadPositionTellsPhase | src/display/pipewire_audio_output.cpp:10-11 | whenever the lock is free, provided that no callback overlapped the reset in openDevice, the write position is even, and the read position is odd exactly after an overflow since the ring was empty |
| PipeWireAudioOutput.PipeWireAudioOutput.OpenDevice | src/display/pipewire_audio_output.cpp:69-157 | without a callback between connecting and the reset: succeeds exactly when the loop, the stream and the connection do, and only then empties the ring |
| PipeWireAudioOutput.PipeWireAudioOutput.WriteSamples | src/display/pipewire_audio_output.cpp:212-220 | the ring then holds the last N - 1 of old samples followed by new ones |
| PipeWireAudioOutput.PipeWireAudioOutput.WriteAudio | src/display/pipewire_audio_output.cpp:183-223 | false and no change on a closed device; otherwise the mixed input is written to the bounded stream |
| PipeWireAudioOutput.PipeWireAudioOutput.OnProcess | src/display/pipewire_audio_output.cpp:25-67 | fills min(requested, room) frames with the oldest samples and then zeros, touches nothing behind them, and does nothing without a buffer |
| PipeWireAudioOutput.PipeWireAudioOutput.Deliver | src/display/pipewire_audio_output.cpp:41-60 | takes min(needed, held) samples off the front of the ring |
| PipeWireAudioOutput.Session | src/display/pipewire_audio_output.cpp:41-60 | any sequence of writes (any channel count) and callbacks (any request, any room, or no buffer) on the object is a run of the stream, so conservation and, while every write fits, order hold of the array-backed ring |
| PipeWireAudioOutput.CallIsStep | src/display/pipewire_audio_output.cpp:183-223 | each call on the object adds one step, or none, to the stream's run |
| AudioReopen.AvailableIsHeld | src/display/pipewire_audio_output.cpp:41-46 | positions read in one piece give the number of held samples; a write position reset after the comparison wraps below zero and gives more than the ring has |
| AudioReopen.WithoutOverlapStartsEmpty | src/display/pipewire_audio_output.cpp:130-156 | whatever the positions were, if no callback is under way at or between the two resets the new session starts with an empty ring |
| AudioReopen.OutOfPhase | src/display/pipewire_audio_output.cpp:41-59 | from any positions but (0, 0) an interleaving of one callback with the reset ends with the device open, write position 0 and read position 1 |
| AudioReopen.OpeningAlwaysInPhaseIff | src/display/pipewire_audio_output.cpp:130-156 | opening leaves both positions even under every interleaving exactly when both were zero before |
| AppController.RunIsSafe | src/common/app_controller.cpp:180-356 | the ownership, callback and counting invariants hold after every schedule |
| AppController.SenderChangesOnlyWithoutCapture | src/common/app_controller.cpp:265-329 | a step that creates, replaces, initializes, shuts down or destroys the sender finds and leaves no live capture thread |
| AppController.CallbacksBeforeCapture | src/common/app_controller.cpp:280-300 | while a capture thread exists both callbacks are installed and an initialized sender stands |
| AppController.AtMostOneCapture | src/common/app_controller.cpp:180-263 | a capture thread starts only where none exists, and a finished run has none |
| AppController.FramesConserved | src/common/app_controller.cpp:331-356 | captured = sent + dropped up to the frame in the callback, and sent = the counters of all sender generations up to the send being recorded (what makes a frame sent or dropped is AppRuns.CountsAreSends) |
| AppController.RetriesBounded | src/common/app_controller.cpp:184-194 | at most max_retries + 1 consecutive failing initialize calls, exactly that many when the loop gives up, one without automatic retry, and no giving up when retries are unlimited |
| AppController.GivesUpWhenNothingSucceeds | src/common/app_controller.cpp:411-436 | if no initialization succeeds and nobody stops the run, enough worker steps end the loop after exactly max_retries + 1 failing calls |
| AppController.StartBeginsFailingRun | src/common/app_controller.cpp:67-98 | start establishes the hypothesis of that theorem, with at most 20 * max_retries + 12 worker steps to go |
| AppController.StaleRestartTearsDown | src/common/app_controller.cpp:196-262 | a success after failed calls goes from ResetRetry to the first test of the monitoring loop and, whatever the other threads do in between, straight out of it: no waiting position is reached |
| AppController.StaleRestartPending | src/common/app_controller.cpp:184-262 | in every reachable state up to the reset of the retry counter the request of a failed call is pending exactly if a call has failed, after a success exactly if the counter is above zero, and at no waiting position of the monitoring loop |
| AppController.SuccessIsMonitoredIff | src/common/app_controller.cpp:184-202 | in a run without stop and restart calls, a successful initialization reaches the body of the monitoring loop when the retry counter before its reset is zero, and otherwise leaves the loop at its first test |
| AppController.OnlyFailuresRequest | src/common/app_controller.cpp:184-262 | in such a run no restart request but a failed call's is pending while the worker initializes or recovers |
| AppController.MonitoredUnlessRequested | src/common/app_controller.cpp:194-202 | two worker steps after a success the worker is in the monitoring loop's body, unless a stop or restart is requested |
| AppController.MonitoringHappens | src/common/app_controller.cpp:184-202 | a schedule in which everything works reaches the body of the monitoring loop |
| AppController.SuccessAfterFailureHappens | src/common/app_controller.cpp:184-195 | with a retry allowed there is a schedule in which the first call fails and the second succeeds |
| AppController.StopEndsTheRun | src/common/app_controller.cpp:100-116 | with a stop requested, enough rounds in which the worker and the capture thread both run, in any order, end the worker, so that stop's join returns |
| AppController.StopRequestIsStopping | src/common/app_controller.cpp:100-116 | every reachable state with a stop requested meets that theorem's hypothesis, with at most 97 rounds to go |
| AppController.StopStep | src/common/app_controller.cpp:245-329 | with a stop requested no event but start leads away from the end, and a step of the thread that is waited for leads towards it |
| AppRuns.EndsOnlyForAReason | src/common/app_controller.cpp:180-263 | in every reachable state the final shutdown is under way or done only if a stop was requested or the loop gave up, and a run counts as running from start to its end |
| AppRuns.MonitoringRound | src/common/app_controller.cpp:202-243 | left to itself for a round, the worker leaves the monitoring loop exactly for a stop, a restart, a stall or a device error, goes on otherwise, and only a stall requests a restart |
| AppRuns.RestartBuildsAgain | src/common/app_controller.cpp:245-275 | from every reachable state with a restart pending in the monitoring loop, or just after it, and no stop, any 92 rounds in which both threads run pass a state in which the run still runs and a sender of a new generation has been created, the request gone unless somebody asks again |
| AppRuns.RestartCallIsServed | src/common/app_controller.cpp:152-162 | requestRestart on a monitored run sets the request and leads there |
| AppRuns.CountsAreSends | src/common/app_controller.cpp:331-356 | over every schedule captured counts the frames that arrived since start, sent the sends that succeeded and dropped those that failed, each up to the one being recorded: nothing else drops a frame |
| AppRuns.FrameIsSentOrReported | src/common/app_controller.cpp:331-374 | in every reachable state, whatever other threads do in between, a frame that arrives is counted and handed to the sender; a successful send raises sent by one and leaves dropped alone, a failed one raises dropped and requests a restart |
| AppRuns.CaptureErrorAsksForRestart | src/common/app_controller.cpp:364-368 | a capture error ends the capture thread and requests a restart |
| AppRuns.CaptureRunsUntilStoppedOrBroken | src/common/app_controller.cpp:303-329 | in every reachable state a capture thread that is told to stop is being joined by shutdown, one that has ended had an error or was told to stop, and one that runs has no error; a failed start is recorded as an error |
| AppRuns.DeviceRecreatedOnlyAtTheEnd | src/common/app_controller.cpp:309-319 | the device is created anew in a shutdown exactly when, with automatic retry, calls have failed since the last success, and that is only ever the last shutdown of a run |
| AppRuns.SenderShutDownBeforeDropped | src/common/app_controller.cpp:322-326 | a sender is shut down before it is destroyed |
| AppController.FailingWorkerStep | src/common/app_controller.cpp:184-194 | each worker step of a failing run stays in a failing run and strictly reduces the steps left |
| AppController.StepIsSafe | src/common/app_controller.cpp:67-98 | every event, whoever causes it, keeps the ownership, callback and counting invariants |
| AppController.WorkerIsSafe | src/common/app_controller.cpp:180-329 | a worker step keeps the invariants, changes the sender only without a capture thread, and creates a thread only by starting the capture |
| AppController.CaptureIsSafe | src/common/app_controller.cpp:331-374 | a step of the capture thread keeps the invariants and changes neither the worker, the sender's condition nor the callbacks |
| StallWatchdog.MonitorLoop | src/common/app_controller.cpp:196-243 | the loop's outcome is that of the recursive description, and it requests a restart exactly on a stall |
| StallWatchdog.StallMeansFiveQuietSeconds | src/common/app_controller.cpp:196-225 | a stall is reported only while capturing, at least 5 s after the loop began, and with one unchanged frame count throughout the last 5 s |
| StallWatchdog.StallDetectedWithinTwelveSeconds | src/common/app_controller.cpp:196-225 | if the loop wakes at most 1 s apart, frames stop and nothing else ends it, the stall is reported less than 12 s after the last frame |
| StallWatchdog.LeftAtTheFirstReason | src/common/app_controller.cpp:202-243 | the loop is left for another reason exactly in the first round with a stop, a restart or an error, unless a stall was reported by then, and goes on exactly while there is neither |
| V4L2Capture.CountsFitSchedule | src/linux/v4l2/v4l2_capture.cpp:422-536 | at every loop head (frames + drops) * 16667 us <= next frame time - start |
| V4L2Capture.DropsWithinElapsedSlots | src/linux/v4l2/v4l2_capture.cpp:446-457 | when a timeout counts as a drop, frames + drops fit into the 60 fps slots elapsed |
| V4L2Capture.ScheduleLagBounded | src/linux/v4l2/v4l2_capture.cpp:529-536 | after a processed frame the schedule lags the clock by at most two frames |
| V4L2Capture.OnTheGridIffNeverLate | src/linux/v4l2/v4l2_capture.cpp:422-536 | the next frame time is exactly one 16667 us slot per counted frame after the start as long as no turn was late, a timeout by more than one slot or a frame by more than three, and ahead of what was counted ever after |
| V4L2Capture.DropsAreLateTimeouts | src/linux/v4l2/v4l2_capture.cpp:446-457 | a drop is counted for every late timeout and every failed dequeue and for nothing else, a frame for every processed frame |
| V4L2Capture.LateMeetsTheClock | src/linux/v4l2/v4l2_capture.cpp:446-536 | a late turn sets the schedule to its clock reading |
| V4L2Capture.V4L2Capture.SetupBuffers | src/linux/v4l2/v4l2_capture.cpp:262-327 | succeeds exactly when the request is granted for two buffers at least and every one can be queried, mapped and queued; then each is mapped at its length and queued, otherwise no buffer and no mapping is left |
| V4L2Capture.V4L2Capture.CleanupBuffers | src/linux/v4l2/v4l2_capture.cpp:354-361 | unmaps exactly the recorded mappings, each once |
| V4L2Capture.V4L2Capture.StartCapture | src/linux/v4l2/v4l2_capture.cpp:79-165 | succeeds exactly when already capturing, which changes nothing, or the device is found, opened and suitable, the buffers set up and the stream starts; success leaves all buffers driver-owned, every failure no descriptor and no mapping |
| V4L2Capture.V4L2Capture.StopCapture | src/linux/v4l2/v4l2_capture.cpp:167-210 | afterwards no descriptor and no mapping is left |
| V4L2Capture.V4L2Capture.SendFrame | src/linux/v4l2/v4l2_capture.cpp:598-663 | the callback runs only while its buffer is the one buffer the driver does not own |
| V4L2Capture.V4L2Capture.ProcessFrame | src/linux/v4l2/v4l2_capture.cpp:471-536 | one frame: the callback once, the buffer back with the driver, the schedule one frame on or caught up with the clock |
| V4L2Capture.V4L2Capture.TakeTurn | src/linux/v4l2/v4l2_capture.cpp:422-536 | one turn of the loop: the pacing state makes one step, and all buffers are driver-owned again unless this requeue failed |
| V4L2Capture.V4L2Capture.DeliveriesAreFrames | src/linux/v4l2/v4l2_capture.cpp:471-500 | the callback runs once for every frame that the pacing run counts, and once more for a buffer that could not be requeued |
| V4L2Capture.V4L2Capture.CaptureThread | src/linux/v4l2/v4l2_capture.cpp:385-596 | for any sequence of turns: all buffers are driver-owned at every loop head, at most the buffer of a failed requeue is not at exit, errors are recorded, and the counters are those of the pacing run |
| DrmDisplayOutput.DrmDisplay.CreateFramebuffers | src/display/drm_display_output.cpp:432-524 | both display buffers of the mode's size exactly when every call succeeds; otherwise no handle is left, the second buffer is empty, and the first keeps its framebuffer id or its mapping exactly when it was complete and the second failed before its own was had; whatever is still live is still recorded |
| DrmDisplayOutput.DrmDisplay.CreateSourceFramebuffer | src/display/drm_display_output.cpp:526-592 | a recorded size counts as created and changes nothing, mapped or not; otherwise success, exactly when every call succeeds, means a mapped buffer, and the size is recorded as soon as the buffer itself is granted; the other buffers stay |
| DrmDisplayOutput.DrmDisplay.SourceTarget | src/display/drm_display_output.cpp:594-606 | the hardware path's blit target: null exactly when the size is recorded and the buffer is not mapped, otherwise a live mapping or none |
| DrmDisplayOutput.DrmDisplay.ShowOnPlane | src/display/drm_display_output.cpp:594-635 | the hardware path blits into the source buffer exactly when there is a plane and the buffer can be had, that is into null exactly when the size is recorded for an unmapped buffer; the plane shows it exactly when it can also be set |
| DrmDisplayOutput.DrmDisplay.Cleanup | src/display/drm_display_output.cpp:744-803 | nothing is live and every field says none, each object released once |
| DrmDisplayOutput.DrmDisplay.AcquireOutput | src/display/drm_display_output.cpp:141-192 | connector, encoder and CRTC exactly when all can be had, or at most a recorded connector |
| DrmDisplayOutput.DrmDisplay.PrepareScreen | src/display/drm_display_output.cpp:194-240 | success, exactly when mode, both buffers and mode setting succeed, means two mapped buffers of the mode's size; on failure whatever is live is recorded |
| DrmDisplayOutput.DrmDisplay.OpenDisplay | src/display/drm_display_output.cpp:130-241 | succeeds exactly when the id is in range and every needed answer is good, with two mapped buffers of the mode's size; whatever fails, every live object is in exactly one field; an id out of range changes nothing |
| DrmDisplayOutput.DrmDisplay.CloseDisplay | src/display/drm_display_output.cpp:243-246 | no kernel object is live |
| DrmDisplayOutput.DrmDisplay.DisplayFrame | src/display/drm_display_output.cpp:259-281 | refuses exactly without connector, mode or mapped display buffer; writes through a null pointer exactly when the hardware path finds the frame's size recorded for an unmapped source buffer and the frame's format, stride and size let the blit draw; otherwise the display buffer is painted exactly when there is no source buffer or the plane cannot be set, the source buffer exactly when there is one, and the one put on display is the last one painted |
| DrmDisplayOutput.SizeOutlivesFailure | src/display/drm_display_output.cpp:526-606 | any failure of a first source buffer creation after the buffer was granted leads, two frames later, to the null pointer write for every frame that draws anything |
| DrmDisplayOutput.SizeOutlivesClose | src/display/drm_display_output.cpp:744-803 | opening again after frames were shown, with no failure at all, leads to the null pointer write for every frame that draws anything |
| DrmDisplayOutput.AnySession | src/display/drm_display_output.cpp:130-281 | after any sequence of open, display and close with any failures, a final close leaves nothing live |
| NdiSender.NdiSender.LoadNdiLibrary | src/common/ndi_sender.cpp:334-353 | succeeds exactly when the library is up or starts; only the first user starts it, and the count follows success |
| NdiSender.AcquiredConsistent | src/common/ndi_sender.cpp:84-115 | a new instance for an idle sender keeps the ledger: the count is the number of active senders, each the owner of a live instance of its own |
| NdiSender.ReleasedConsistent | src/common/ndi_sender.cpp:117-127 | destroying an active sender's instance keeps the ledger |
| NdiSender.MovedConsistent | src/common/ndi_sender.cpp:56-82 | handing an instance to an idle sender keeps the ledger |
| NdiSender.NdiSender.Cleanup | src/common/ndi_sender.cpp:373-389 | destroys the live instance, and the last user takes the library down |
| NdiSender.NdiSender.Initialize | src/common/ndi_sender.cpp:84-115 | succeeds exactly when already initialized, or the library is up or starts and an instance can be created; on success one more initialized sender with an instance of its own; on failure nothing is kept; the library invariant holds |
| NdiSender.NdiSender.Shutdown | src/common/ndi_sender.cpp:117-127 | gives back exactly what this sender owned |
| NdiSender.NdiSender.TakeOver | src/common/ndi_sender.cpp:56-82 | the instance changes owner, the count does not change |
| NdiSender.NdiSender.MoveFrom | src/common/ndi_sender.cpp:56-65 | the new sender is initialized exactly if the old one was, which no longer is |
| NdiSender.NdiSender.MoveAssign | src/common/ndi_sender.cpp:67-82 | self-assignment changes nothing; otherwise the old instance is given back first |
| NdiSender.NdiSender.Destroy | src/common/ndi_sender.cpp:52-54 | a destroyed sender no longer counts |
| NdiSender.AnySession | src/common/ndi_sender.cpp:52-127 | after any calls on any senders and the destruction of all, the count is zero, the library is down and no instance is live |
| PixelLayouts.PaintedDetermines | src/linux/v4l2/v4l2_format_converter.cpp:161-264 | two destinations that started equal and had the same picture painted, and nothing else written, are equal byte for byte |
| LineConversion.YuyvRow | src/linux/v4l2/v4l2_format_converter.cpp:170-193 | one line: the pixels of its YUYV samples in place, nothing else written |
| LineConversion.UyvyRow | src/linux/v4l2/v4l2_format_converter.cpp:208-231 | one line: the pixels of its UYVY samples in place, nothing else written |
| LineConversion.Nv12Row | src/linux/v4l2/v4l2_format_converter.cpp:248-260 | one line: luma and shared chroma pairs, nothing else written |
| LineConversion.Yuv420Row | src/capture/BasicFormatConverter.cpp:145-171 | one line from three planes, nothing else written |
| V4L2FormatConverter.GreyStaysGrey | src/linux/v4l2/v4l2_format_converter.cpp:308-322 | neutral chroma gives grey, monotone in luma, studio black and white become 0 and 255 |
| V4L2FormatConverter.ConvertYuyvToBgra | src/linux/v4l2/v4l2_format_converter.cpp:161-197 | the destination shows exactly the converted picture and is otherwise unchanged |
| V4L2FormatConverter.ConvertUyvyToBgra | src/linux/v4l2/v4l2_format_converter.cpp:199-235 | the same for UYVY |
| V4L2FormatConverter.ConvertNv12ToBgra | src/linux/v4l2/v4l2_format_converter.cpp:237-264 | the same for NV12, any width |
| YuyvConversion.SwapTwice | src/common/ndi_sender.cpp:237-258 | exchanging the bytes twice restores the input |
| YuyvConversion.ShuffleSwaps | src/common/ndi_sender.cpp:268-271 | the 256-bit lane shuffle with the source's mask exchanges neighbouring bytes |
| YuyvConversion.ConvertScalar | src/common/ndi_sender.cpp:237-258 | the words of the whole pixel pairs exchanged, the rest of the destination unchanged |
| YuyvConversion.ConvertAvx2 | src/common/ndi_sender.cpp:260-300 | every word of the frame exchanged, the rest of the destination unchanged |
| YuyvConversion.WholePairs | src/common/ndi_sender.cpp:163-169 | a width divisible by 16 makes both loops cover the same bytes |
| YuyvConversion.PathsAgree | src/common/ndi_sender.cpp:163-169 | whenever the vector path may be taken, for every frame size, both paths leave the same bytes |
| YuyvConversion.Yuy2ToUyvy | docs/reference/media-foundation-ndi-reference.cpp:80-92 | the reference exchanges the words of all pixels, a last odd pixel rounded up to a pair |
| YuyvConversion.VideoSender.Grow | src/common/ndi_sender.cpp:152-154 | the buffer never shrinks and keeps its bytes |
| YuyvConversion.VideoSender.SendFrame | src/common/ndi_sender.cpp:129-235 | sends exactly when initialized with data, a size and a known format; YUYV goes out as UYVY with exchanged bytes, everything else untouched; the counter follows |
| PixelPipeline.ExchangeKeepsPicture | src/common/ndi_sender.cpp:237-258 | the exchanged bytes read as UYVY are the picture of the original read as YUYV |
| PixelPipeline.SendThenDecode | src/linux/v4l2/v4l2_format_converter.cpp:161-235 | decoding after the sender's exchange, on either path, gives byte for byte the direct decoding |
| PixelPipeline.SentAsCapturedIff | src/common/ndi_sender.cpp:146-185 | what the sender makes of a YUYV frame shows the captured picture, for every content, exactly when the stride is twice the width or there is at most one line |
| PixelPipeline.PaddedIsSheared | src/common/ndi_sender.cpp:146-185 | for every other stride there is a frame whose picture does not survive |
| PixelPipeline.Nv12ToUyvy | docs/reference/media-foundation-ndi-reference.cpp:96-117 | what the repacking stores, read as UYVY, is the NV12 picture, and nothing behind it is written |
| PixelPipeline.RepackThenDecode | src/linux/v4l2/v4l2_format_converter.cpp:199-264 | decoding the repacked frame gives byte for byte the direct NV12 decoding |
| BasicFormatConverter.TruncDiv | src/capture/BasicFormatConverter.cpp:66-72 | division that rounds toward zero |
| BasicFormatConverter.GreyStaysGrey | src/capture/BasicFormatConverter.cpp:65-118 | in every matrix and range neutral chroma gives grey, monotone in luma, and the ends of the range become 0 and 255 |
| BasicFormatConverter.ConvertUyvyToBgra | src/capture/BasicFormatConverter.cpp:18-124 | false and no change on a null or empty argument; otherwise exactly the picture in the chosen matrix and range |
| BasicFormatConverter.ConvertYuv420ToBgra | src/capture/BasicFormatConverter.cpp:126-175 | the same for three planes with strides |
| BasicFormatConverter.ConvertNv12ToBgra | src/capture/BasicFormatConverter.cpp:177-226 | the same for NV12 with strides |
| BasicFormatConverter.UyvyShowsPicture | src/capture/BasicFormatConverter.cpp:54-63 | a 4:2:0 picture row-expanded to UYVY at any stride reads back as the picture |
| BasicFormatConverter.Nv12ShowsPicture | src/capture/BasicFormatConverter.cpp:189-200 | the same stored as NV12 at any strides |
| BasicFormatConverter.Yuv420ShowsPicture | src/capture/BasicFormatConverter.cpp:138-148 | the same stored in three planes at any strides |
| BasicFormatConverter.DecodersAgree | src/capture/BasicFormatConverter.cpp:18-226 | one picture stored in the three ways decodes to the same bytes, for every even width, height and adequate strides |
| BasicFormatConverter.ModesTellApart | src/capture/BasicFormatConverter.cpp:65-106 | every two different matrix and range choices decode one sample differently |
| BasicFormatConverter.ExplicitInfoAgreesWithAuto | src/capture/BasicFormatConverter.cpp:29-50 | explicit colour information decodes as the 4:2:0 decoders do exactly when it is not full range and names the matrix the height selects |
| ColourStandard.EveryColourEncodes | src/capture/BasicFormatConverter.cpp:65-106 | every colour has a sample in BT.601 and BT.709, limited and full range |
| ColourAccuracy.ColoursComeBack | src/capture/BasicFormatConverter.cpp:29-106 | a colour encoded by the standard the caller names, or by height BT.601 below 720 lines and BT.709 from there on, in the named range, decodes to within 2 levels per channel in the full range and 4 in the limited one |
| ColourAccuracy.CaptureColoursComeBack | src/linux/v4l2/v4l2_format_converter.cpp:308-322 | a limited-range BT.601 colour decodes to within 2 levels per channel in the capture converter and in the display blit |
| ColourAccuracy.EncodedUyvyComesBack | src/capture/BasicFormatConverter.cpp:18-124 | a UYVY frame of encoded colours decodes to destination bytes that carry those colours |
| ColourAccuracy.FrameComesBack | src/capture/BasicFormatConverter.cpp:18-226 | so does every frame in any of the layouts, pixel by pixel |
| ColourAccuracy.DisplayColoursComeBack | src/display/drm_display_output.cpp:706-738 | a UYVY frame of limited-range BT.601 colours is shown with those colours, scaled |
| DisplayScaling.LetterboxFits | src/display/drm_display_output.cpp:641-660 | the window is inside the display, fills one direction, is centred up to a pixel, and is the largest of the source's aspect ratio in whole pixels |
| DisplayScaling.LetterboxEmptyIff | src/display/drm_display_output.cpp:641-660 | nothing is drawn exactly when the source is too flat or too narrow for one whole pixel |
| DisplayScaling.IndexIsQuotient | src/display/drm_display_output.cpp:696-704 | the index map is in range and its bound check never applies inside the window |
| DisplayScaling.IndexMonotone | src/display/drm_display_output.cpp:696-704 | the index map is monotone |
| DisplayScaling.CoversAllIffEnlarging | src/display/drm_display_output.cpp:696-704 | every source line or column is shown exactly when the picture is not shrunk |
| DisplayScaling.RepeatsNothingIffShrinking | src/display/drm_display_output.cpp:696-704 | no source line or column is repeated exactly when the picture is not enlarged |
| DisplayScaling.IndexUnscaled | src/display/drm_display_output.cpp:696-704 | at equal sizes the index map is the identity |
| DisplayScaling.BlitRow | src/display/drm_display_output.cpp:703-740 | one line of the blit, pixels that are skipped left as they were, nothing else written |
| DisplayScaling.ConvertToFramebuffer | src/display/drm_display_output.cpp:691-742 | every write is inside the window of the buffer, and the window shows the scaled picture |
| DisplayScaling.WindowInFramebuffer | src/display/drm_display_output.cpp:662-665 | a window inside the display lies inside a buffer of pitch * height bytes, its lines apart |
| DisplayScaling.DisplayFrameScaled | src/display/drm_display_output.cpp:637-665 | the letterbox window shows the scaled frame, a BGRA frame byte for byte at the quotient of each row and column, and every other byte of the buffer is zero |
| DisplayScaling.BgraBytes | src/display/drm_display_output.cpp:691-714 | the bytes of the window pixel at row and column are those of the source pixel at the row and column quotients, the fourth is full |
| DisplayScaling.OtherFormatsShowNothing | src/display/drm_display_output.cpp:706-738 | RGB24 and NV12 frames leave the window as it was |
| DisplayScaling.DrawsIff | src/display/drm_display_output.cpp:706-719 | a one-to-one blit writes some pixel, whatever the content, exactly when the frame is not empty and is BGRA, or is UYVY with a stride of at least four |
| DisplayScaling.NothingSkippedIff | src/display/drm_display_output.cpp:717-719 | the guard skips no pair of an even-width line exactly when the stride holds the line |
| DisplayScaling.SameMatrix | src/display/drm_display_output.cpp:726-737 | the matrix in the blit is the capture converter's |
| DisplayScaling.UnscaledBlitIsCaptureDecoding | src/display/drm_display_output.cpp:691-742 | at one to one and any adequate stride the UYVY blit shows what the capture converter makes of the frame |

## Left out

- The AVX2 YUV to BGRA converters: their 16-bit products wrap and they store 128 bytes per 16 pixels, so they do not refine the scalar code.
- convertToBGRA's RGB24 and BGR24 cases copy three bytes a pixel in either order and set alpha to 255; MJPEG is always refused.
- Float rounding of the aspect ratios: they are exact fractions, so a window can differ from the program's by one pixel.
- Timing averages, real-time scheduling, CPU affinity, memory locking, logging, status files.
- Device enumeration, format negotiation and plane search: their results are arbitrary values here.
- The wake-up of waitForCompletion: nothing notifies it after the loop has ended.
- Readers on other threads (getFrameStats, getNdiConnectionCount): they do not take consistent snapshots.
- Calls of reportError with the mutex already held, and a second start without stop: taken not to happen.
- Opening and closing the DRM device file itself, its resource lists and the atomic mode setting calls.
- PipelineThreadPool creates, pins and joins threads by name, and nothing calls it; v4l2_capture_optimized.cpp is not compiled; captureThreadSingle is never called.
- 32-bit overflow of sizes, negative strides and odd widths of packed 4:2:2.
- V4L2Capture.V4L2Capture.CaptureThread: runs without the other threads; their interleavings are the subject of AppController.
- The AppController object: its fields are components of a state value, because other threads interleave at every access; update in place is not captured.
- AppController.GivesUpWhenNothingSucceeds: assumes that each initialize call returns, as every step does in the model.
- AppController.StopEndsTheRun: assumes the same of the calls into the capture device and NDI, and that both threads are scheduled again and again.
- AppRuns.RestartBuildsAgain: assumes what AppController.StopEndsTheRun does.
- DrmDisplayOutput.DrmDisplay.DisplayFrame: the plane's position and size on the screen are not part of it.
- FrameQueueObject.FrameQueue.TryPop: as an object method it runs without interruption; the interleaved pop is in FrameQueueProtocol.
- DisplayScaling.DisplayFrameScaled: page flipping is not part of it; the hardware-scaled path uses ConvertToFramebuffer at one to one.
