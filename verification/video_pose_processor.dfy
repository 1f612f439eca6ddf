/** The offline pass over a video: frames are sampled at most ten per second
    of presentation time, each sampled frame goes through pose detection, and
    the results are cached for nearest-time lookup during playback
    (Services/VideoPoseProcessor.swift).

    Times are exact reals in seconds: `CMTime` is an exact rational. */
module VideoPoseProcessor {
  import opened Wrappers
  import opened PoseModels
  import opened PoseErrors
  import opened PoseEstimator

  /** `CMTime(seconds: 1.0 / 10, preferredTimescale: 600)`: 60 ticks at
      timescale 600. */
  const FrameDuration: real := 60.0 / 600.0

  /** One decoded `CMSampleBuffer`: its presentation time and, when it
      carries one, its image buffer. */
  datatype SampleBuffer = SampleBuffer(presentationTime: real, imageBuffer: Option<PixelBuffer>)

  /** `ProcessedFrame`: a sampled time and what detection made of it. */
  datatype ProcessedFrame = ProcessedFrame(time: real, pose: Option<Pose>)

  // ---------------------------------------------------------------------
  // Sampling
  // ---------------------------------------------------------------------

  /** The state the sampling loop carries from frame to frame. */
  datatype Sampler = Sampler(frames: seq<ProcessedFrame>, lastProcessTime: real)

  /** Before the first frame: nothing cached, `lastProcessTime` at zero. */
  const InitialSampler: Sampler := Sampler([], 0.0)

  /** Cache entries are at least one frame duration apart, and the first is
      at least one frame duration after time zero. */
  predicate WellSpaced(frames: seq<ProcessedFrame>)
  {
    && (|frames| > 0 ==> frames[0].time >= FrameDuration)
    && forall i :: 0 < i < |frames| ==> frames[i].time >= frames[i - 1].time + FrameDuration
  }

  /** What the loop keeps true: the cache is well spaced and
      `lastProcessTime` is the time of its last entry, or zero. */
  predicate SamplerInvariant(s: Sampler)
  {
    && WellSpaced(s.frames)
    && (s.frames == [] ==> s.lastProcessTime == 0.0)
    && (s.frames != [] ==> s.lastProcessTime == s.frames[|s.frames| - 1].time)
  }

  /** The sampling rule: a frame is taken iff it is at least one frame
      duration after the last one taken and it carries an image. */
  predicate Accepts(s: Sampler, sample: SampleBuffer)
  {
    sample.presentationTime >= s.lastProcessTime + FrameDuration && sample.imageBuffer.Some?
  }

  /** The entry a taken frame adds to the cache; a failed detection is
      recorded as "no pose". */
  function EntryFor(sample: SampleBuffer): ProcessedFrame
    requires sample.imageBuffer.Some?
  {
    ProcessedFrame(sample.presentationTime, InferPose(sample.imageBuffer.value))
  }

  /** One iteration of the loop of `processVideo` on one decoded frame. */
  function Offer(s: Sampler, sample: SampleBuffer): (r: Sampler)
    ensures Accepts(s, sample) ==> r == Sampler(s.frames + [EntryFor(sample)], sample.presentationTime)
    ensures !Accepts(s, sample) ==> r == s
  {
    if sample.presentationTime < s.lastProcessTime + FrameDuration then s
    else if sample.imageBuffer.None? then s
    else Sampler(s.frames + [EntryFor(sample)], sample.presentationTime)
  }

  /** The loop run over a whole stream of decoded frames. */
  function SampleAll(samples: seq<SampleBuffer>): (r: Sampler)
    ensures |r.frames| <= |samples|
    decreases |samples|
  {
    if samples == [] then InitialSampler
    else Offer(SampleAll(samples[..|samples| - 1]), samples[|samples| - 1])
  }

  /** One iteration keeps the loop's invariant. */
  lemma OfferKeepsInvariant(s: Sampler, sample: SampleBuffer)
    requires SamplerInvariant(s)
    ensures SamplerInvariant(Offer(s, sample))
  {
    if Accepts(s, sample) {
      var r := Offer(s, sample);
      assert r.frames[|r.frames| - 1] == EntryFor(sample);
    }
  }

  /** So the whole pass keeps it: the cache is well spaced, whatever the
      order in which frames arrive. */
  lemma {:induction false} SampleAllKeepsInvariant(samples: seq<SampleBuffer>)
    ensures SamplerInvariant(SampleAll(samples))
    decreases |samples|
  {
    if samples != [] {
      var prefix := samples[..|samples| - 1];
      SampleAllKeepsInvariant(prefix);
      OfferKeepsInvariant(SampleAll(prefix), samples[|samples| - 1]);
    }
  }

  /** Reading one more frame is one more iteration of the loop. */
  lemma SampleAllExtend(samples: seq<SampleBuffer>, i: nat)
    requires i < |samples|
    ensures SampleAll(samples[..i + 1]) == Offer(SampleAll(samples[..i]), samples[i])
  {
    assert samples[..i + 1][..i] == samples[..i];
  }

  /** Entries of a well-spaced cache are at least one frame duration apart
      per step between them. */
  lemma {:induction false} SpacingAccumulates(frames: seq<ProcessedFrame>, i: nat, j: nat)
    requires WellSpaced(frames)
    requires i <= j < |frames|
    ensures frames[j].time >= frames[i].time + (j - i) as real * FrameDuration
    decreases j - i
  {
    if i < j {
      SpacingAccumulates(frames, i, j - 1);
    }
  }

  /** Whatever order the frames arrive in, cached times strictly increase and
      none is earlier than one frame duration: a frame at time zero is never
      cached. */
  lemma SampledTimesIncrease(samples: seq<SampleBuffer>)
    ensures forall i, j :: 0 <= i < j < |SampleAll(samples).frames| ==>
              SampleAll(samples).frames[i].time < SampleAll(samples).frames[j].time
    ensures forall f :: f in SampleAll(samples).frames ==> f.time >= FrameDuration
  {
    SampleAllKeepsInvariant(samples);
    var frames := SampleAll(samples).frames;
    forall i, j | 0 <= i < j < |frames|
      ensures frames[i].time < frames[j].time
    {
      SpacingAccumulates(frames, i, j);
    }
    forall f | f in frames
      ensures f.time >= FrameDuration
    {
      var k :| 0 <= k < |frames| && frames[k] == f;
      SpacingAccumulates(frames, 0, k);
    }
  }

  /** `f` is the entry `sample` produces when it is taken. */
  predicate Produces(sample: SampleBuffer, f: ProcessedFrame)
  {
    sample.imageBuffer.Some? && f == EntryFor(sample)
  }

  /** Every cached entry is the entry of some decoded frame that carried an
      image, with the time copied and the pose detection gave (or none). */
  lemma {:induction false} SampledEntriesComeFromInput(samples: seq<SampleBuffer>)
    ensures forall f :: f in SampleAll(samples).frames ==>
              exists k :: 0 <= k < |samples| && Produces(samples[k], f)
    decreases |samples|
  {
    if samples != [] {
      var prefix := samples[..|samples| - 1];
      SampledEntriesComeFromInput(prefix);
      forall f | f in SampleAll(samples).frames
        ensures exists k :: 0 <= k < |samples| && Produces(samples[k], f)
      {
        if f in SampleAll(prefix).frames {
          var k :| 0 <= k < |prefix| && Produces(prefix[k], f);
          assert samples[k] == prefix[k];
        } else {
          assert Produces(samples[|samples| - 1], f);
        }
      }
    }
  }

  /** Frames without an image, and frames too close to the last one taken,
      change nothing: not the cache and not `lastProcessTime`. A frame that
      is taken but whose detection throws still adds an entry, with no pose. */
  lemma SkippedAndFailedFrames(s: Sampler, sample: SampleBuffer)
    ensures sample.imageBuffer.None? ==> Offer(s, sample) == s
    ensures sample.presentationTime < s.lastProcessTime + FrameDuration ==> Offer(s, sample) == s
    ensures && sample.presentationTime >= s.lastProcessTime + FrameDuration
            && sample.imageBuffer == Some(PixelBuffer(PerformFailed))
            ==> Offer(s, sample) == Sampler(s.frames + [ProcessedFrame(sample.presentationTime, None)],
                                            sample.presentationTime)
  {
  }

  /** A stream that already respects the sampling rate, with an image in
      every frame, is cached in full and in order. */
  lemma {:induction false} RegularStreamFullyCached(samples: seq<SampleBuffer>)
    requires forall k :: 0 <= k < |samples| ==> samples[k].imageBuffer.Some?
    requires |samples| > 0 ==> samples[0].presentationTime >= FrameDuration
    requires forall k :: 0 < k < |samples| ==>
               samples[k].presentationTime >= samples[k - 1].presentationTime + FrameDuration
    ensures |SampleAll(samples).frames| == |samples|
    ensures forall k :: 0 <= k < |samples| ==> SampleAll(samples).frames[k] == EntryFor(samples[k])
    decreases |samples|
  {
    if samples != [] {
      var prefix := samples[..|samples| - 1];
      RegularStreamFullyCached(prefix);
      SampleAllKeepsInvariant(prefix);
      var s := SampleAll(prefix);
      if prefix != [] {
        assert s.lastProcessTime == samples[|samples| - 2].presentationTime;
      }
      assert Accepts(s, samples[|samples| - 1]);
    }
  }

  /** A 30 frames-per-second stream keeps every third frame, starting with
      the frame at 0.1 s. */
  lemma ThirtyFpsExample(b: PixelBuffer)
    ensures SampleAll(ThirtyFps(b)).frames
            == [ProcessedFrame(0.1, InferPose(b)), ProcessedFrame(0.2, InferPose(b))]
  {
    var samples := ThirtyFps(b);
    var s1 := Sampler([ProcessedFrame(0.1, InferPose(b))], 0.1);
    var s2 := Sampler([ProcessedFrame(0.1, InferPose(b)), ProcessedFrame(0.2, InferPose(b))], 0.2);
    var states := [InitialSampler, InitialSampler, InitialSampler, InitialSampler, s1, s1, s1, s2];
    forall i | 0 <= i < 7
      ensures Offer(states[i], samples[i]) == states[i + 1]
    {
    }
    assert samples[..0] == [];
    for i := 0 to 7
      invariant SampleAll(samples[..i]) == states[i]
    {
      SampleAllExtend(samples, i);
    }
    assert samples[..7] == samples;
  }

  /** Seven frames of a 30 frames-per-second video, from time zero. */
  function ThirtyFps(b: PixelBuffer): seq<SampleBuffer>
  {
    [ SampleBuffer(0.0, Some(b)), SampleBuffer(1.0 / 30.0, Some(b)), SampleBuffer(2.0 / 30.0, Some(b)),
      SampleBuffer(3.0 / 30.0, Some(b)), SampleBuffer(4.0 / 30.0, Some(b)), SampleBuffer(5.0 / 30.0, Some(b)),
      SampleBuffer(6.0 / 30.0, Some(b)) ]
  }

  // ---------------------------------------------------------------------
  // Progress and the processing run
  // ---------------------------------------------------------------------

  /** `min(Double(processedCount) / Double(totalFrames), 1.0)`, evaluated only
      once at least one frame has been taken. Swift's `min(x, y)` is
      `y < x ? y : x`; when `totalFrames` is zero the division gives
      +infinity and the result is 1. */
  function Progress(processedCount: nat, totalFrames: nat): (r: real)
    requires processedCount > 0
    ensures 0.0 < r <= 1.0
    ensures r == 1.0 <==> processedCount >= totalFrames
    ensures processedCount < totalFrames ==> r * totalFrames as real == processedCount as real
  {
    if totalFrames == 0 then 1.0
    else
      var ratio := processedCount as real / totalFrames as real;
      if 1.0 < ratio then 1.0 else ratio
  }

  /** The published progress once `processedCount` frames were taken: the
      initial 0 until the first one. */
  function ProgressAfter(processedCount: nat, totalFrames: nat): (r: real)
    ensures 0.0 <= r <= 1.0
    ensures r == 0.0 <==> processedCount == 0
  {
    if processedCount == 0 then 0.0 else Progress(processedCount, totalFrames)
  }

  /** The observable state of a `VideoPoseProcessor` and its private cache. */
  datatype Processor = Processor(
    processingProgress: real,
    isProcessing: bool,
    isComplete: bool,
    processedFrames: seq<ProcessedFrame>)

  /** A freshly created processor. */
  const InitialProcessor: Processor := Processor(0.0, false, false, [])

  /** The video as `processVideo` sees it. Loading its tracks or its duration,
      or creating the reader, can throw; the asset can lack a video track;
      otherwise the reader delivers decoded frames until it stops, and the
      estimate `Int(seconds * 10)` of the number of sampled frames is known. */
  datatype Asset =
    | LoadFailed
    | NoVideoTrack
    | Readable(totalFrames: nat, samples: seq<SampleBuffer>)

  /** What a run of `processVideo` can throw. */
  datatype ProcessError =
    | Estimation(error: PoseEstimationError)   // thrown by the code itself
    | FrameworkError                          // thrown by the asset or the reader
    | CancellationError                       // thrown by `Task.checkCancellation()`

  /** The processor after a run, and how the run ended. */
  datatype Run = Run(processor: Processor, outcome: Outcome<ProcessError>)

  /** Whether the cancellation check at the head of loop iteration `cancelAt`
      (0-based, counting the final iteration that finds no more frames) is
      reached and throws. */
  predicate CancelledDuring(samples: seq<SampleBuffer>, cancelAt: Option<nat>)
  {
    cancelAt.Some? && cancelAt.value <= |samples|
  }

  /** How many decoded frames the loop reads before it stops. */
  function FramesRead(samples: seq<SampleBuffer>, cancelAt: Option<nat>): (n: nat)
    ensures n <= |samples|
  {
    if CancelledDuring(samples, cancelAt) then cancelAt.value else |samples|
  }

  /** `processVideo(asset:)` as a function of the asset and of the iteration
      (if any) at which the processing `Task` is found cancelled. The run starts by
      resetting the processor; a run that throws leaves `isProcessing` set,
      `isComplete` clear and the entries taken so far in the cache; a run that
      finishes reports completion with progress 1. */
  function RunProcessing(asset: Asset, cancelAt: Option<nat>): (r: Run)
    ensures r.outcome.Pass? <==> asset.Readable? && !CancelledDuring(asset.samples, cancelAt)
    ensures r.outcome == Fail(Estimation(VideoLoadFailed)) <==> asset.NoVideoTrack?
    ensures asset.LoadFailed? ==> r.outcome == Fail(FrameworkError)
    ensures r.outcome == Fail(CancellationError) <==>
              asset.Readable? && CancelledDuring(asset.samples, cancelAt)
    ensures r.outcome.Pass? ==>
              !r.processor.isProcessing && r.processor.isComplete && r.processor.processingProgress == 1.0
    ensures r.outcome.Fail? ==> r.processor.isProcessing && !r.processor.isComplete
    ensures 0.0 <= r.processor.processingProgress <= 1.0
    ensures !asset.Readable? ==> r.processor.processingProgress == 0.0
    ensures asset.Readable? && CancelledDuring(asset.samples, cancelAt) ==>
              r.processor.processingProgress == ProgressAfter(|r.processor.processedFrames|, asset.totalFrames)
    ensures !asset.Readable? ==> r.processor.processedFrames == []
    ensures asset.Readable? ==>
              r.processor.processedFrames
              == SampleAll(asset.samples[..FramesRead(asset.samples, cancelAt)]).frames
  {
    var started := Processor(0.0, true, false, []);
    match asset
    case LoadFailed => Run(started, Fail(FrameworkError))
    case NoVideoTrack => Run(started, Fail(Estimation(VideoLoadFailed)))
    case Readable(totalFrames, samples) =>
      var n := FramesRead(samples, cancelAt);
      var cached := SampleAll(samples[..n]).frames;
      if CancelledDuring(samples, cancelAt) then
        Run(Processor(ProgressAfter(|cached|, totalFrames), true, false, cached), Fail(CancellationError))
      else
        assert samples[..n] == samples;
        Run(Processor(1.0, false, true, cached), Pass)
  }

  /** Whatever way a run ends, the cache it leaves is well spaced. */
  lemma RunCacheWellSpaced(asset: Asset, cancelAt: Option<nat>)
    ensures WellSpaced(RunProcessing(asset, cancelAt).processor.processedFrames)
  {
    if asset.Readable? {
      SampleAllKeepsInvariant(asset.samples[..FramesRead(asset.samples, cancelAt)]);
    }
  }

  /** `processVideo(asset:)` as the loop the app runs: read a frame, skip
      it if it is too early or has no image, otherwise detect, append, move
      `lastProcessTime` and publish the progress. */
  method ProcessVideo(asset: Asset, cancelAt: Option<nat>) returns (r: Run)
    ensures r == RunProcessing(asset, cancelAt)
  {
    if asset.LoadFailed? {
      return Run(Processor(0.0, true, false, []), Fail(FrameworkError));
    }
    if asset.NoVideoTrack? {
      return Run(Processor(0.0, true, false, []), Fail(Estimation(VideoLoadFailed)));
    }
    var samples, totalFrames := asset.samples, asset.totalFrames;
    var processedFrames: seq<ProcessedFrame> := [];
    var processingProgress := 0.0;
    var processedCount := 0;
    var lastProcessTime := 0.0;
    var i := 0;
    assert samples[..0] == [];
    while true
      invariant i <= |samples|
      invariant cancelAt.Some? ==> i <= cancelAt.value
      invariant SampleAll(samples[..i]) == Sampler(processedFrames, lastProcessTime)
      invariant processedCount == |processedFrames|
      invariant processingProgress == ProgressAfter(processedCount, totalFrames)
      decreases |samples| - i
    {
      if cancelAt == Some(i) {
        assert FramesRead(samples, cancelAt) == i;
        return Run(Processor(processingProgress, true, false, processedFrames), Fail(CancellationError));
      }
      if i == |samples| {
        break;
      }
      var sample := samples[i];
      SampleAllExtend(samples, i);
      i := i + 1;
      if sample.presentationTime < lastProcessTime + FrameDuration {
        continue;
      }
      if sample.imageBuffer.None? {
        continue;
      }
      var pose := InferPose(sample.imageBuffer.value);
      processedFrames := processedFrames + [ProcessedFrame(sample.presentationTime, pose)];
      lastProcessTime := sample.presentationTime;
      processedCount := processedCount + 1;
      processingProgress := Progress(processedCount, totalFrames);
    }
    assert samples[..i] == samples;
    assert FramesRead(samples, cancelAt) == i;
    r := Run(Processor(1.0, false, true, processedFrames), Pass);
  }

  // ---------------------------------------------------------------------
  // Lookup, cancel and clear
  // ---------------------------------------------------------------------

  /** `CMTimeAbsoluteValue(CMTimeSubtract(frame.time, time))` */
  function Distance(f: ProcessedFrame, time: real): real
  {
    if f.time >= time then f.time - time else time - f.time
  }

  /** Entry `k` is at least as near to `time` as every entry, and strictly
      nearer than every entry before it. */
  predicate IsEarliestNearest(frames: seq<ProcessedFrame>, time: real, k: int)
  {
    && 0 <= k < |frames|
    && (forall j :: 0 <= j < |frames| ==> Distance(frames[k], time) <= Distance(frames[j], time))
    && (forall j :: 0 <= j < k ==> Distance(frames[j], time) > Distance(frames[k], time))
  }

  /** The scan of `getPose(at:)` from entry `i` on, with `closest` the entry
      chosen so far (none before the first entry, when `minDiff` is still
      +infinity). An entry replaces the choice only if strictly nearer. */
  function ScanClosest(frames: seq<ProcessedFrame>, time: real, i: nat, closest: Option<nat>)
    : (k: Option<nat>)
    requires i <= |frames|
    requires closest.None? <==> i == 0
    requires closest.Some? ==> IsEarliestNearest(frames[..i], time, closest.value)
    ensures frames == [] <==> k.None?
    ensures k.Some? ==> IsEarliestNearest(frames, time, k.value)
    decreases |frames| - i
  {
    if i == |frames| then
      assert frames[..i] == frames;
      closest
    else
      var closer := closest.None? || Distance(frames[i], time) < Distance(frames[closest.value], time);
      ScanClosest(frames, time, i + 1, if closer then Some(i) else closest)
  }

  /** `getPose(at:)`: nothing from an empty cache; otherwise the pose of the
      earliest entry nearest to `time` (which is itself absent when detection
      found nobody or failed). */
  function GetPose(p: Processor, time: real): (r: Option<Pose>)
    ensures p.processedFrames == [] ==> r.None?
    ensures p.processedFrames != [] ==>
              exists k :: IsEarliestNearest(p.processedFrames, time, k) && r == p.processedFrames[k].pose
  {
    if p.processedFrames == [] then None
    else
      var k := ScanClosest(p.processedFrames, time, 0, None);
      p.processedFrames[k.value].pose
  }

  /** Ties have only one winner, so `GetPose` is determined by the cache. */
  lemma EarliestNearestIsUnique(frames: seq<ProcessedFrame>, time: real, k: int, k': int)
    requires IsEarliestNearest(frames, time, k) && IsEarliestNearest(frames, time, k')
    ensures k == k'
  {
    var d, d' := Distance(frames[k], time), Distance(frames[k'], time);
    assert k < k' ==> d > d';
    assert k' < k ==> d' > d;
  }

  /** With entries at 0 s and 1 s, 0.4 s resolves to the first, 0.6 s to the
      second, and the tie at 0.5 s to the first. */
  lemma GetPoseExamples(a: Option<Pose>, b: Option<Pose>)
    ensures var p := Processor(1.0, false, true, [ProcessedFrame(0.0, a), ProcessedFrame(1.0, b)]);
            GetPose(p, 0.4) == a && GetPose(p, 0.6) == b && GetPose(p, 0.5) == a
  {
    var frames := [ProcessedFrame(0.0, a), ProcessedFrame(1.0, b)];
    assert IsEarliestNearest(frames, 0.4, 0);
    assert IsEarliestNearest(frames, 0.6, 1);
    assert IsEarliestNearest(frames, 0.5, 0);
  }

  /** `cancel()`: only `isProcessing` is cleared. The running task is not
      stopped, since `processingTask` is never assigned. */
  function Cancel(p: Processor): (r: Processor)
    ensures !r.isProcessing
    ensures r.processedFrames == p.processedFrames && r.isComplete == p.isComplete
    ensures r.processingProgress == p.processingProgress
    ensures forall time :: GetPose(r, time) == GetPose(p, time)
  {
    p.(isProcessing := false)
  }

  /** `clear()`: the cache is emptied, progress is reset and completion
      cleared; `isProcessing` is left alone. */
  function Clear(p: Processor): (r: Processor)
    ensures r.processedFrames == [] && r.processingProgress == 0.0 && !r.isComplete
    ensures r.isProcessing == p.isProcessing
    ensures forall time :: GetPose(r, time).None?
  {
    p.(processedFrames := [], processingProgress := 0.0, isComplete := false)
  }

  /** Clearing twice is clearing once; cancelling twice is cancelling once. */
  lemma ClearAndCancelIdempotent(p: Processor)
    ensures Clear(Clear(p)) == Clear(p)
    ensures Cancel(Cancel(p)) == Cancel(p)
  {
  }

  /** A cancelled run keeps what it had cached, and `cancel()` afterwards
      keeps it queryable; `isComplete` stays false. */
  lemma CancelledRunKeepsPartialResults(asset: Asset, cancelAt: Option<nat>, time: real)
    requires asset.Readable? && CancelledDuring(asset.samples, cancelAt)
    ensures var p := Cancel(RunProcessing(asset, cancelAt).processor);
            && p.processedFrames == SampleAll(asset.samples[..cancelAt.value]).frames
            && !p.isProcessing && !p.isComplete
            && GetPose(p, time) == GetPose(RunProcessing(asset, cancelAt).processor, time)
  {
  }
}
