# PoseEstimate video core, modelled in Dafny

This project models the video side of the PoseEstimate iOS app. The app runs
Apple's Vision body-pose detector over a video and draws a skeleton over it
in sync with playback. The model covers these parts:

- **Frame sampler and pose cache** (`VideoPoseProcessor`).
  - `processVideo` reads decoded frames in order. It keeps a frame only if
    it is at least 0.1 s (60/600 of a second) after the last kept frame and
    carries an image.
  - Each kept frame is run through pose detection. A failed detection still
    adds an entry, with no pose.
  - The run publishes progress. It checks for cancellation before each
    frame. Nothing in the app ever cancels the detached task, so the
    `cancelAt` parameter covers more runs than the app can produce.
  - `getPose(at:)` returns the pose of the earliest cache entry nearest to
    a time.
  - `cancel()` and `clear()` reset the processor's flags and cache.
- **Inference adapter** (`PoseEstimator`).
  - `detectPose(in:)` maps a Vision request outcome to
    "error / no pose / a pose".
  - `parsePose(from:)` copies every tabled joint Vision located into a
    `Pose`.
- **Data model** (`Keypoints`, `PoseModels`, `PoseErrors`).
  - The reliability threshold (confidence strictly above 0.1).
  - The 19-joint table and the 18-bone skeleton table.
  - Keypoint lookup.
  - The six error cases and their messages.
- **Orientation** (`Orientation`).
  - Recognising a track's display orientation from its preferred transform.
  - The four maps from Vision's normalized, bottom-left-origin points into a
    view.
- **Renderer** (`SkeletonRenderer`). What `render(pose:in:size:)` puts on
  the canvas, as an ordered list of draw commands. The default style is
  3-point green lines and 6-point yellow joints with a 1-point white border.
- **Playback sync** (`VideoViewModel`). The video screen's view model as a
  state machine over events: a video is selected, a detached processing
  run finishes, the player reports a time, the 10 Hz timer fires, or the
  screen is cleaned up.

Time is exact (`real` seconds), because `CMTime` is an exact rational.
Dictionaries are Dafny maps. A pixel buffer is represented by the outcome
the Vision request has on it.

## Model

| member | source | states |
|---|---|---|
| Keypoints.ReliabilityIsStrict | PoseEstimate/PoseEstimate/Models/Keypoint.swift:18-20 | a keypoint is reliable iff its confidence exceeds 0.1; exactly 0.1 is not reliable |
| Keypoints.ReliabilityIsMonotone | PoseEstimate/PoseEstimate/Models/Keypoint.swift:18-20 | raising a reliable keypoint's confidence keeps it reliable |
| Keypoints.AllJointsTable | PoseEstimate/PoseEstimate/Models/Keypoint.swift:25-37 | the joint table has 19 entries, includes the root, and lists only named body joints |
| Keypoints.AllJointsDistinct | PoseEstimate/PoseEstimate/Models/Keypoint.swift:25-37 | no joint appears twice in the table |
| Keypoints.AllJointsComplete | PoseEstimate/PoseEstimate/Models/Keypoint.swift:25-37 | every named body joint is in the table |
| PoseModels.Pose.KeypointFor | PoseEstimate/PoseEstimate/Models/PoseModel.swift:23-25 | lookup finds nothing exactly when the joint is absent, otherwise the stored keypoint |
| PoseModels.HasReliableKeypointMeaning | PoseEstimate/PoseEstimate/Models/PoseModel.swift:23-31 | "has a reliable keypoint" means lookup succeeds and the found keypoint is reliable |
| PoseModels.AllConnectionsTable | PoseEstimate/PoseEstimate/Models/PoseModel.swift:39-69 | 18 bones; none joins a joint to itself; both ends are tabled joints; none touches the root |
| PoseModels.AllConnectionsUnrepeated | PoseEstimate/PoseEstimate/Models/PoseModel.swift:39-69 | no bone is listed twice, in the same or the opposite direction |
| PoseErrors.ErrorDescription | PoseEstimate/PoseEstimate/Models/PoseEstimationError.swift:18-33 | every case has a message; the video-load and frame-processing messages are the exact texts |
| PoseErrors.AllErrorsListed | PoseEstimate/PoseEstimate/Models/PoseEstimationError.swift:10-16 | there are exactly six cases, each listed once |
| PoseErrors.DescriptionLength | PoseEstimate/PoseEstimate/Models/PoseEstimationError.swift:18-33 | the length of each case's message |
| PoseErrors.ErrorDescriptionsDistinct | PoseEstimate/PoseEstimate/Models/PoseEstimationError.swift:18-33 | different cases have different messages |
| Orientation.FromTransform | PoseEstimate/PoseEstimate/Models/VideoOrientation.swift:19-41 | each of upside-down, landscape-right and landscape-left is returned iff the matrix is exactly its table entry; portrait is returned for every other matrix |
| Orientation.FromTransformIgnoresTranslation | PoseEstimate/PoseEstimate/Models/VideoOrientation.swift:19-41 | the translation of the transform never changes the orientation |
| Orientation.TransformPoint | PoseEstimate/PoseEstimate/Models/VideoOrientation.swift:44-85 | a point of the unit square lands inside the view |
| Orientation.Reorient | PoseEstimate/PoseEstimate/Models/VideoOrientation.swift:52-82 | each orientation's symmetry maps the unit square into itself |
| Orientation.Restore | PoseEstimate/PoseEstimate/Models/VideoOrientation.swift:52-82 | undoes each orientation's symmetry and keeps the unit square, so each symmetry maps the unit square onto itself |
| Orientation.TransformFormulas | PoseEstimate/PoseEstimate/Models/VideoOrientation.swift:52-82 | the view coordinates each orientation gives, in terms of the point and the view size |
| Orientation.TransformFlipsOrigin | PoseEstimate/PoseEstimate/Models/VideoOrientation.swift:52-82 | Vision's bottom-left origin and top-left corner land on the expected view corners |
| Orientation.TransformRoundTrip | PoseEstimate/PoseEstimate/Models/VideoOrientation.swift:44-85 | for a non-empty view, mapping a point back out of the view recovers it |
| Orientation.TransformInjective | PoseEstimate/PoseEstimate/Models/VideoOrientation.swift:44-85 | for a non-empty view, distinct points never land on the same view point |
| PoseEstimator.ParseJoints | PoseEstimate/PoseEstimate/Services/PoseEstimator.swift:80-93 | the loop adds exactly the listed joints Vision located, each with Vision's data |
| PoseEstimator.ParseOver | PoseEstimate/PoseEstimate/Services/PoseEstimator.swift:77-96 | a joint is in the pose iff it is listed and Vision located it |
| PoseEstimator.ParsePose | PoseEstimate/PoseEstimate/Services/PoseEstimator.swift:77-96 | keys are exactly the tabled joints Vision located; id, location and confidence are copied with no filtering |
| PoseEstimator.ParsePoseKeys | PoseEstimate/PoseEstimate/Services/PoseEstimator.swift:77-96 | a parsed pose names only tabled joints, and misses a tabled joint iff Vision did not locate it |
| PoseEstimator.DetectPose | PoseEstimate/PoseEstimate/Services/PoseEstimator.swift:31-49 | fails, always with frame-processing-failed, iff the request throws; "no pose" iff there are no results; otherwise the first result parsed |
| PoseEstimator.DetectPoseUsesFirstObservation | PoseEstimate/PoseEstimate/Services/PoseEstimator.swift:38-44 | results after the first never affect the answer |
| PoseEstimator.InferPose | PoseEstimate/PoseEstimate/Services/VideoPoseProcessor.swift:101 | `try?` gives a pose exactly when Vision produced at least one result, and then it is the first one parsed; a thrown error becomes "no pose" |
| VideoPoseProcessor.Offer | PoseEstimate/PoseEstimate/Services/VideoPoseProcessor.swift:89-107 | a frame that passes the rate and image checks appends exactly its own entry and becomes the last-processed time; any other frame changes nothing |
| VideoPoseProcessor.OfferKeepsInvariant | PoseEstimate/PoseEstimate/Services/VideoPoseProcessor.swift:92-106 | one iteration keeps the cache well spaced, with the last-processed time equal to the last entry's time |
| VideoPoseProcessor.SampleAll | PoseEstimate/PoseEstimate/Services/VideoPoseProcessor.swift:81-114 | the cache never has more entries than frames were read |
| VideoPoseProcessor.SampleAllKeepsInvariant | PoseEstimate/PoseEstimate/Services/VideoPoseProcessor.swift:81-114 | after any frame sequence the cache is well spaced and the last-processed time is consistent |
| VideoPoseProcessor.SampleAllExtend | PoseEstimate/PoseEstimate/Services/VideoPoseProcessor.swift:81-114 | reading one more frame is exactly one more loop iteration |
| VideoPoseProcessor.SpacingAccumulates | PoseEstimate/PoseEstimate/Services/VideoPoseProcessor.swift:92-106 | entries k apart are at least k frame durations apart |
| VideoPoseProcessor.SampledTimesIncrease | PoseEstimate/PoseEstimate/Services/VideoPoseProcessor.swift:77-106 | cached times strictly increase, and none is before 0.1 s, whatever order frames arrive in |
| VideoPoseProcessor.SampledEntriesComeFromInput | PoseEstimate/PoseEstimate/Services/VideoPoseProcessor.swift:89-106 | every cache entry is the entry of some frame read that carried an image |
| VideoPoseProcessor.SkippedAndFailedFrames | PoseEstimate/PoseEstimate/Services/VideoPoseProcessor.swift:91-106 | imageless and too-early frames change nothing; a taken frame whose detection throws adds an entry with no pose |
| VideoPoseProcessor.RegularStreamFullyCached | PoseEstimate/PoseEstimate/Services/VideoPoseProcessor.swift:81-114 | a stream already at or below 10 fps, with images, is cached in full and in order |
| VideoPoseProcessor.ThirtyFpsExample | PoseEstimate/PoseEstimate/Services/VideoPoseProcessor.swift:61-106 | 30 fps frames from time 0 keep only the frames at 0.1 s and 0.2 s |
| VideoPoseProcessor.Progress | PoseEstimate/PoseEstimate/Services/VideoPoseProcessor.swift:110 | progress is in (0, 1]; it is 1 iff the count reached the estimate (including an estimate of 0); otherwise it is count / estimate |
| VideoPoseProcessor.ProgressAfter | PoseEstimate/PoseEstimate/Services/VideoPoseProcessor.swift:41 | published progress is in [0, 1], and 0 iff no frame has been taken |
| VideoPoseProcessor.RunProcessing | PoseEstimate/PoseEstimate/Services/VideoPoseProcessor.swift:37-125 | completes iff the asset is readable and no cancellation check fires; a missing video track throws video-load-failed and an unloadable asset a framework error, both with progress 0; a thrown run keeps processing set, completion clear and its partial cache; a cancelled run's progress is the last one published for the frames it took; a completed run has progress 1; the cache is the sampling of the frames read |
| VideoPoseProcessor.RunCacheWellSpaced | PoseEstimate/PoseEstimate/Services/VideoPoseProcessor.swift:37-125 | however a run ends, its cache is well spaced |
| VideoPoseProcessor.ProcessVideo | PoseEstimate/PoseEstimate/Services/VideoPoseProcessor.swift:37-125 | the app's loop, with its early exits, computes exactly the run described above |
| VideoPoseProcessor.ScanClosest | PoseEstimate/PoseEstimate/Services/VideoPoseProcessor.swift:132-143 | the strict-less-than scan picks the earliest of the entries nearest to the time, and picks nothing only from an empty cache |
| VideoPoseProcessor.GetPose | PoseEstimate/PoseEstimate/Services/VideoPoseProcessor.swift:128-144 | nothing from an empty cache; otherwise the pose of the earliest nearest entry |
| VideoPoseProcessor.EarliestNearestIsUnique | PoseEstimate/PoseEstimate/Services/VideoPoseProcessor.swift:135-141 | only one entry is the earliest nearest, so ties are resolved deterministically |
| VideoPoseProcessor.GetPoseExamples | PoseEstimate/PoseEstimate/Services/VideoPoseProcessor.swift:128-144 | with entries at 0 s and 1 s, 0.4 s and the tie at 0.5 s give the first, 0.6 s the second |
| VideoPoseProcessor.Cancel | PoseEstimate/PoseEstimate/Services/VideoPoseProcessor.swift:147-155 | only the processing flag is cleared; cache, progress and every lookup are unchanged |
| VideoPoseProcessor.Clear | PoseEstimate/PoseEstimate/Services/VideoPoseProcessor.swift:158-166 | the cache is emptied, progress reset, completion cleared, the processing flag kept; every lookup then gives nothing |
| VideoPoseProcessor.ClearAndCancelIdempotent | PoseEstimate/PoseEstimate/Services/VideoPoseProcessor.swift:147-166 | clearing twice is clearing once; cancelling twice is cancelling once |
| VideoPoseProcessor.CancelledRunKeepsPartialResults | PoseEstimate/PoseEstimate/Services/VideoPoseProcessor.swift:83-113 | a cancelled run followed by `cancel()` keeps the frames sampled so far, queryable as before, with processing and completion both false |
| VideoViewModel.StopFrameUpdates | PoseEstimate/PoseEstimate/ViewModels/VideoViewModel.swift:105-108 | no timer remains and nothing else changes |
| VideoViewModel.StartFrameUpdates | PoseEstimate/PoseEstimate/ViewModels/VideoViewModel.swift:95-102 | the stored timer is invalidated before a new one is scheduled, so exactly one timer runs afterwards; nothing else changes |
| VideoViewModel.UpdatePoseFromCache | PoseEstimate/PoseEstimate/ViewModels/VideoViewModel.swift:121-124 | the published pose becomes the cache's answer for the player's time; nothing else changes |
| VideoViewModel.CleanupViewModel | PoseEstimate/PoseEstimate/ViewModels/VideoViewModel.swift:111-117 | no timer, no asset, player unloaded, cache empty, progress 0, not processing, not complete; the published pose, the error, the loading flag and launched runs are kept |
| VideoViewModel.HandleVideoSelection | PoseEstimate/PoseEstimate/ViewModels/VideoViewModel.swift:41-92 | without a picked item nothing changes; otherwise the old state is torn down; a failed load sets video-load-failed and leaves the player unloaded at time 0; a successful one stores the asset and launches a run; earlier runs stay pending |
| VideoViewModel.FinishRun | PoseEstimate/PoseEstimate/ViewModels/VideoViewModel.swift:75-86 | the processor is what the run left; exactly that run leaves the pending list; frame updates start if the run completed and are left as they were if it threw; nothing else changes |
| VideoViewModel.Step | PoseEstimate/PoseEstimate/ViewModels/VideoViewModel.swift:41-124 | no event takes the number of timers above one |
| VideoViewModel.AtMostOneTimer | PoseEstimate/PoseEstimate/ViewModels/VideoViewModel.swift:95-108 | over any event sequence, at most one frame-update timer is ever active |
| VideoViewModel.TimerStartsOnlyAfterCleanRun | PoseEstimate/PoseEstimate/ViewModels/VideoViewModel.swift:75-86 | the timer goes from stopped to running only when a launched run completes without throwing |
| VideoViewModel.TickPublishesCachedPose | PoseEstimate/PoseEstimate/ViewModels/VideoViewModel.swift:99-124 | a tick publishes exactly the cached pose for the current time; without a timer there is no tick |
| VideoViewModel.StopFrameUpdatesIdempotent | PoseEstimate/PoseEstimate/ViewModels/VideoViewModel.swift:105-108 | stopping twice is stopping once |
| VideoViewModel.StaleRunOutlivesReselection | PoseEstimate/PoseEstimate/ViewModels/VideoViewModel.swift:41-92 | select a, then b: when a's run finishes, b is the current asset while the cache holds a's poses and the timer runs |
| SkeletonRenderer.DrawableMeansBothReliable | PoseEstimate/PoseEstimate/Views/SkeletonOverlayView.swift:66-70 | a bone is drawn iff both of its joints have reliable keypoints |
| SkeletonRenderer.DrawConnection | PoseEstimate/PoseEstimate/Views/SkeletonOverlayView.swift:60-84 | one stroke between the transformed endpoints iff the bone is drawable, otherwise nothing |
| SkeletonRenderer.JointRect | PoseEstimate/PoseEstimate/Views/SkeletonOverlayView.swift:92-98 | the joint's circle is centred on the transformed point, with a side of twice the radius |
| SkeletonRenderer.DrawConnections | PoseEstimate/PoseEstimate/Views/SkeletonOverlayView.swift:41-43 | only lines; every drawable bone's line, and nothing but drawable bones' lines |
| SkeletonRenderer.DrawJoints | PoseEstimate/PoseEstimate/Views/SkeletonOverlayView.swift:46-48 | no lines; both circles of every reliable visited joint, and only such joints' circles |
| SkeletonRenderer.LinesThenCircles | PoseEstimate/PoseEstimate/Views/SkeletonOverlayView.swift:40-48 | putting lines before circles leaves every line ahead of every circle |
| SkeletonRenderer.Render | PoseEstimate/PoseEstimate/Views/SkeletonOverlayView.swift:39-49 | all bones before any joint; lines are exactly those of the drawable bones; every reliable keypoint gets its fill and its white border, and every circle belongs to a reliable keypoint, in any dictionary order |
| SkeletonRenderer.PairsConcat | PoseEstimate/PoseEstimate/Views/SkeletonOverlayView.swift:46-48 | joining two command lists that each draw every border right after its own fill keeps that pairing |
| SkeletonRenderer.DrawJointsPairs | PoseEstimate/PoseEstimate/Views/SkeletonOverlayView.swift:87-111 | for every visited joint the fill comes first and the white border of the same circle immediately after it |
| SkeletonRenderer.RenderBordersFollowFills | PoseEstimate/PoseEstimate/Views/SkeletonOverlayView.swift:39-49 | on the whole canvas, every fill is immediately followed by its border and every border immediately preceded by its fill |
| SkeletonRenderer.DrawableConnections | PoseEstimate/PoseEstimate/Views/SkeletonOverlayView.swift:41-43 | the bones that get a line: exactly the listed bones whose two joints are reliable |
| SkeletonRenderer.ReliableJoints | PoseEstimate/PoseEstimate/Views/SkeletonOverlayView.swift:46 | the visited joints that get circles: exactly those with reliable keypoints, each once when the keys are listed once |
| SkeletonRenderer.ConnectionsCount | PoseEstimate/PoseEstimate/Views/SkeletonOverlayView.swift:41-43 | one line per drawable bone, no more |
| SkeletonRenderer.JointsCount | PoseEstimate/PoseEstimate/Views/SkeletonOverlayView.swift:46-48 | two circles per reliable visited joint, no more |
| SkeletonRenderer.RenderCommandCount | PoseEstimate/PoseEstimate/Views/SkeletonOverlayView.swift:39-49 | the canvas receives one line per drawable bone plus two circles per reliable keypoint, so nothing is drawn twice |
| SkeletonRenderer.OverlayCommands | PoseEstimate/PoseEstimate/Views/SkeletonOverlayView.swift:140-143 | nothing is drawn without a pose; otherwise the pose is rendered |

## Behaviour of the code worth noting

- A run that throws never resets `isProcessing`, whether by cancellation
  or by any other error. Only a later `cancel()`, or another run that
  completes, clears it.
  `CancelledRunKeepsPartialResults` states what holds after that cancel.
- `cancel()` is documented as cancelling processing, and it calls
  `processingTask?.cancel()` (VideoPoseProcessor.swift:146-150). But
  `processingTask` is never assigned, and the view model launches each run
  as a detached task it keeps no handle to. So `cancel()` does not stop a
  launched run, and selecting a new video does not stop the previous one.
  `StaleRunOutlivesReselection` shows the consequence: the old run fills
  the cache while the new video is current, and it starts the timer.
- `cleanup()` keeps the published pose.
- A successful load keeps an earlier error.

## Left out

- AVFoundation I/O is a parameter of the model. Loading tracks and the
  duration, creating the reader, and decoding all become the `Asset`
  value. A reader failure cannot be told apart from the end of the stream.
- The `totalFrames` estimate is an input, not computed from the duration.
  The float arithmetic of `Int(seconds * 10)`, and invalid or indefinite
  `CMTime` values, are not modelled.
- CMTime's timescale rounding is not modelled; 0.1 s is exact at timescale
  600.
- The Vision request itself is represented by its outcome on each frame.
  A nil result list is treated as empty, as `first` treats both alike.
- The `CIImage` overload of `detectPose` is identical to the pixel-buffer
  one and is not modelled separately.
- Concurrency:
  - Each event of the view model is atomic.
  - The `MainActor` hops and the `Task` that `cancel()` and `clear()`
    schedule are treated as immediate.
  - A detached run's writes happen when its `RunFinished` event is
    processed.
- `PoseModel.id` (a UUID) and `timestamp` (the clock) are not modelled.
- `Float` confidences and `CGFloat`/`Double` coordinates and progress are
  modelled as exact reals.
- SwiftUI views, colours (only their names), paths and the canvas are out
  of scope. Draw commands stand for the canvas calls.
- `VideoPlayerManager` is reduced to "loaded" and the last published
  playback time. Its own playback logic is not modelled.
- The camera path is not modelled: `CameraManager` and `CameraViewModel`.
- Console logging (`print`) is not modelled.
- SkeletonRenderer.Render: a Swift dictionary's iteration order is
  unspecified, so it is an input listing the pose's keys once each.
  Therefore the contract leaves free only the order between different
  joints; each joint's fill and border are adjacent
  (`RenderBordersFollowFills`) and nothing is drawn twice
  (`RenderCommandCount`).
- VideoViewModel.StopFrameUpdates: the model counts running timers and
  sets the count to zero. The app invalidates only the one timer it stores.
  The two agree because at most one timer is ever running (`AtMostOneTimer`).
- SkeletonRenderer.DrawJoint carries no contract of its own. Its geometry is
  stated by `JointRect` and its use by `DrawJoints` and `Render`.
- PoseErrors.ErrorDescription states two messages verbatim. The others are
  pinned by `DescriptionLength` and `ErrorDescriptionsDistinct`, not
  quoted in the contract.
