/** The playback-sync state machine of the video screen
    (ViewModels/VideoViewModel.swift), driven by explicit events: a video is
    selected, a detached processing run finishes, the player reports a new
    time, the 10 Hz timer fires, or the screen is torn down. */
module VideoViewModel {
  import opened Wrappers
  import opened PoseModels
  import opened PoseErrors
  import opened VideoPoseProcessor

  /** What the view model reads of its `VideoPlayerManager`: whether a player
      is loaded, and the playback time its periodic observer last published. */
  datatype Player = Player(loaded: bool, currentTime: real)

  /** `VideoPlayerManager` after `cleanup()`. */
  const UnloadedPlayer: Player := Player(false, 0.0)

  /** How loading a picked item ends: `loadTransferable` gives nothing or
      throws, the player fails to load the file, or everything loads. */
  datatype LoadResult =
    | NoTransferable
    | TransferableThrew
    | PlayerLoadFailed
    | Loaded(asset: Asset)

  /** The view model's state. `activeTimers` counts repeating timers that are
      scheduled and not invalidated; `pendingRuns` are the assets of detached
      processing tasks launched and not yet finished. */
  datatype ViewModel = ViewModel(
    detectedPose: Option<Pose>,
    error: Option<PoseEstimationError>,
    isLoadingVideo: bool,
    processor: Processor,
    player: Player,
    currentAsset: Option<Asset>,
    activeTimers: nat,
    pendingRuns: seq<Asset>)

  const InitialViewModel: ViewModel :=
    ViewModel(None, None, false, InitialProcessor, UnloadedPlayer, None, 0, [])

  datatype Event =
    | SelectVideo(selection: Option<LoadResult>)   // `handleVideoSelection()`; None: no picked item
    | RunFinished(task: nat, cancelAt: Option<nat>)  // pending run number `task` runs to its end
    | PlayerTimeChanged(time: real)                 // the player's periodic time observer
    | TimerFired                                    // the 10 Hz frame-update timer
    | Cleanup                                       // `cleanup()`

  /** `stopFrameUpdates()`: no timer is left, and nothing else changes. */
  function StopFrameUpdates(vm: ViewModel): (r: ViewModel)
    ensures r.activeTimers == 0
    ensures r.(activeTimers := vm.activeTimers) == vm
  {
    vm.(activeTimers := 0)
  }

  /** `startFrameUpdates()`: the stored timer is invalidated before a new one
      is scheduled, so exactly one timer runs afterwards (at most one is ever
      running, see `AtMostOneTimer`). */
  function StartFrameUpdates(vm: ViewModel): (r: ViewModel)
    ensures r.activeTimers == 1
    ensures r.(activeTimers := vm.activeTimers) == vm
  {
    var stopped := StopFrameUpdates(vm);
    stopped.(activeTimers := stopped.activeTimers + 1)
  }

  /** `updatePoseFromCache()`: the published pose becomes exactly what the
      cache gives for the player's current time. */
  function UpdatePoseFromCache(vm: ViewModel): (r: ViewModel)
    ensures r.detectedPose == GetPose(vm.processor, vm.player.currentTime)
    ensures r.(detectedPose := vm.detectedPose) == vm
  {
    vm.(detectedPose := GetPose(vm.processor, vm.player.currentTime))
  }

  /** `cleanup()`: stop the timer, cancel then clear the processor, unload the
      player and forget the asset. The published pose is kept, and a run
      already launched is not withdrawn. */
  function CleanupViewModel(vm: ViewModel): (r: ViewModel)
    ensures r.activeTimers == 0 && r.currentAsset.None? && r.player == UnloadedPlayer
    ensures r.processor.processedFrames == [] && !r.processor.isProcessing && !r.processor.isComplete
    ensures r.processor.processingProgress == 0.0
    ensures r.detectedPose == vm.detectedPose && r.pendingRuns == vm.pendingRuns
    ensures r.error == vm.error && r.isLoadingVideo == vm.isLoadingVideo
  {
    var stopped := StopFrameUpdates(vm);
    stopped.(processor := Clear(Cancel(stopped.processor)), player := UnloadedPlayer, currentAsset := None)
  }

  /** `handleVideoSelection()`. Without a picked item nothing happens.
      Otherwise the previous video's state is torn down first; a failed load
      reports `videoLoadFailed`; a successful one keeps the asset and launches
      a detached processing run. Cancelling the processor does not stop runs
      launched earlier, and a successful load does not clear an earlier error. */
  function HandleVideoSelection(vm: ViewModel, selection: Option<LoadResult>): (r: ViewModel)
    ensures selection.None? ==> r == vm
    ensures selection.Some? ==>
              && r.activeTimers == 0 && r.detectedPose.None? && !r.isLoadingVideo
              && r.processor.processedFrames == [] && !r.processor.isProcessing
              && !r.processor.isComplete && r.processor.processingProgress == 0.0
    ensures selection.Some? && !selection.value.Loaded? ==>
              && r.error == Some(VideoLoadFailed)
              && r.currentAsset == vm.currentAsset && r.pendingRuns == vm.pendingRuns
              && r.player == UnloadedPlayer
    ensures selection.Some? && selection.value.Loaded? ==>
              && r.error == vm.error
              && r.currentAsset == Some(selection.value.asset)
              && r.pendingRuns == vm.pendingRuns + [selection.value.asset]
              && r.player == Player(true, 0.0)
    ensures vm.pendingRuns <= r.pendingRuns
  {
    match selection
    case None => vm
    case Some(result) =>
      var stopped := StopFrameUpdates(vm.(isLoadingVideo := true));
      var torn := stopped.(processor := Clear(Cancel(stopped.processor)), player := UnloadedPlayer, detectedPose := None);
      match result
      case Loaded(asset) =>
        torn.(player := Player(true, 0.0), isLoadingVideo := false, currentAsset := Some(asset),
              pendingRuns := torn.pendingRuns + [asset])
      case _ =>
        torn.(error := Some(VideoLoadFailed), isLoadingVideo := false)
  }

  /** The detached task of pending run `task` finishes: the processor is what
      the run left, and frame updates start only if the run did not throw. */
  function FinishRun(vm: ViewModel, task: nat, cancelAt: Option<nat>): (r: ViewModel)
    ensures task >= |vm.pendingRuns| ==> r == vm
    ensures task < |vm.pendingRuns| ==>
              && r.processor == RunProcessing(vm.pendingRuns[task], cancelAt).processor
              && r.pendingRuns == vm.pendingRuns[..task] + vm.pendingRuns[task + 1..]
              && (RunProcessing(vm.pendingRuns[task], cancelAt).outcome.Pass? ==> r.activeTimers == 1)
              && (RunProcessing(vm.pendingRuns[task], cancelAt).outcome.Fail? ==> r.activeTimers == vm.activeTimers)
    ensures r.(processor := vm.processor, pendingRuns := vm.pendingRuns, activeTimers := vm.activeTimers) == vm
  {
    if task >= |vm.pendingRuns| then vm
    else
      var run := RunProcessing(vm.pendingRuns[task], cancelAt);
      var finished := vm.(processor := run.processor,
                          pendingRuns := vm.pendingRuns[..task] + vm.pendingRuns[task + 1..]);
      if run.outcome.Pass? then StartFrameUpdates(finished) else finished
  }

  /** One event. */
  function Step(vm: ViewModel, e: Event): (r: ViewModel)
    ensures vm.activeTimers <= 1 ==> r.activeTimers <= 1
  {
    match e
    case SelectVideo(selection) => HandleVideoSelection(vm, selection)
    case RunFinished(task, cancelAt) => FinishRun(vm, task, cancelAt)
    case PlayerTimeChanged(time) =>
      if vm.player.loaded then vm.(player := vm.player.(currentTime := time)) else vm
    case TimerFired => if vm.activeTimers > 0 then UpdatePoseFromCache(vm) else vm
    case Cleanup => CleanupViewModel(vm)
  }

  /** A sequence of events, in order. */
  function RunEvents(vm: ViewModel, events: seq<Event>): ViewModel
    decreases |events|
  {
    if events == [] then vm else RunEvents(Step(vm, events[0]), events[1..])
  }

  /** At most one frame-update timer is ever active. */
  lemma {:induction false} AtMostOneTimer(vm: ViewModel, events: seq<Event>)
    requires vm.activeTimers <= 1
    ensures RunEvents(vm, events).activeTimers <= 1
    decreases |events|
  {
    if events != [] {
      AtMostOneTimer(Step(vm, events[0]), events[1..]);
    }
  }

  /** The timer goes from stopped to running only when a launched run
      finishes without throwing. */
  lemma TimerStartsOnlyAfterCleanRun(vm: ViewModel, e: Event)
    requires vm.activeTimers == 0 && Step(vm, e).activeTimers > 0
    ensures e.RunFinished? && e.task < |vm.pendingRuns|
    ensures RunProcessing(vm.pendingRuns[e.task], e.cancelAt).outcome.Pass?
  {
  }

  /** A tick with the timer running publishes exactly the cached pose for the
      current playback time; without a timer there are no ticks. */
  lemma TickPublishesCachedPose(vm: ViewModel)
    ensures vm.activeTimers > 0 ==>
              Step(vm, TimerFired).detectedPose == GetPose(vm.processor, vm.player.currentTime)
    ensures vm.activeTimers == 0 ==> Step(vm, TimerFired) == vm
  {
  }

  /** Stopping frame updates twice is stopping them once. */
  lemma StopFrameUpdatesIdempotent(vm: ViewModel)
    ensures StopFrameUpdates(StopFrameUpdates(vm)) == StopFrameUpdates(vm)
  {
  }

  /** Because cancelling does not stop a run already launched, selecting
      video `a` and then video `b` leaves `a`'s run pending; when it finishes
      it fills the cache with `a`'s poses while `b` is the current asset. */
  lemma StaleRunOutlivesReselection(vm: ViewModel, a: Asset, b: Asset)
    requires a.Readable?
    ensures var after := RunEvents(vm, [SelectVideo(Some(Loaded(a))), SelectVideo(Some(Loaded(b))),
                                        RunFinished(|vm.pendingRuns|, None)]);
            && after.currentAsset == Some(b)
            && after.processor.processedFrames == SampleAll(a.samples).frames
            && after.activeTimers == 1
  {
    var e1, e2, e3 := SelectVideo(Some(Loaded(a))), SelectVideo(Some(Loaded(b))),
                      RunFinished(|vm.pendingRuns|, None);
    var v1 := Step(vm, e1);
    var v2 := Step(v1, e2);
    assert v2.pendingRuns == vm.pendingRuns + [a] + [b];
    assert v2.pendingRuns[|vm.pendingRuns|] == a;
    var v3 := Step(v2, e3);
    assert a.samples[..FramesRead(a.samples, None)] == a.samples;
    assert RunProcessing(a, None).outcome.Pass?;
    assert v3.currentAsset == v2.currentAsset == Some(b);
    assert [e1, e2, e3][1..] == [e2, e3];
    assert [e2, e3][1..] == [e3];
    assert RunEvents(vm, [e1, e2, e3]) == RunEvents(v1, [e2, e3]) == RunEvents(v2, [e3]) == v3;
  }
}
