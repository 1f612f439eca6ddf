/** Turning one Vision body-pose result into a `Pose`
    (Services/PoseEstimator.swift). The Vision request is not modelled: a
    pixel buffer is represented by the outcome the request has on it. */
module PoseEstimator {
  import opened Wrappers
  import opened Geometry
  import opened Keypoints
  import opened PoseModels
  import opened PoseErrors

  /** `VNRecognizedPoint`: a normalized location and a confidence. */
  datatype RecognizedPoint = RecognizedPoint(location: Point, confidence: real)

  /** `VNHumanBodyPoseObservation`, as the joints `recognizedPoint(_:)`
      answers for: a lookup succeeds exactly for the joints in the map. */
  type Observation = map<JointName, RecognizedPoint>

  /** What `VNImageRequestHandler.perform` does with one frame: it throws, or
      it leaves the request with its result list (a nil list reads as empty). */
  datatype VisionOutcome = PerformFailed | Performed(results: seq<Observation>)

  /** `CVPixelBuffer`, known only by what Vision makes of it. */
  datatype PixelBuffer = PixelBuffer(vision: VisionOutcome)

  /** The keypoint `parsePose` builds for a joint Vision located. */
  function KeypointFrom(joint: JointName, rp: RecognizedPoint): Keypoint
  {
    Keypoint(joint, rp.location, rp.confidence)
  }

  /** Every entry of `m` is the keypoint Vision's point for that joint gives. */
  predicate FaithfulTo(m: map<JointName, Keypoint>, obs: Observation)
  {
    forall j :: j in m ==> j in obs && m[j] == KeypointFrom(j, obs[j])
  }

  /** The loop of `parsePose` over `joints`, starting from `acc`: each joint
      Vision located is stored under its own name, the others are skipped. */
  function ParseJoints(joints: seq<JointName>, obs: Observation, acc: map<JointName, Keypoint>)
    : (r: map<JointName, Keypoint>)
    requires FaithfulTo(acc, obs)
    ensures r.Keys == acc.Keys + (set j | j in joints && j in obs)
    ensures FaithfulTo(r, obs)
    decreases |joints|
  {
    if joints == [] then acc
    else
      var j := joints[0];
      var acc' := if j in obs then acc[j := KeypointFrom(j, obs[j])] else acc;
      ParseJoints(joints[1..], obs, acc')
  }

  /** `parsePose(from:)` over a given joint table. */
  function ParseOver(joints: seq<JointName>, obs: Observation): (p: Pose)
    ensures forall j :: j in p.keypoints <==> j in joints && j in obs
    ensures FaithfulTo(p.keypoints, obs)
  {
    var empty: map<JointName, Keypoint> := map[];
    assert empty.Keys == {};
    Pose(ParseJoints(joints, obs, empty))
  }

  /** `parsePose(from:)`: every tabled joint Vision located becomes a keypoint
      keyed by its own name, with location and confidence copied unchanged;
      no confidence filtering happens here. */
  function ParsePose(obs: Observation): (p: Pose)
    ensures forall j :: j in p.keypoints <==> j in AllJoints && j in obs
    ensures forall j :: j in p.keypoints ==>
              && p.keypoints[j].id == j
              && p.keypoints[j].point == obs[j].location
              && p.keypoints[j].confidence == obs[j].confidence
  {
    ParseOver(AllJoints, obs)
  }

  /** A parsed pose only ever names joints of the table, and a tabled joint
      is missing from it exactly when Vision could not locate it. */
  lemma ParsePoseKeys(obs: Observation, j: JointName)
    ensures j in ParsePose(obs).keypoints ==> j in AllJoints
    ensures j in AllJoints ==> (j in ParsePose(obs).keypoints <==> j in obs)
    ensures j.Other? ==> j !in ParsePose(obs).keypoints
  {
    AllJointsTable();
  }

  /** `detectPose(in:)`: a request that throws is reported as
      `frameProcessingFailed`; an empty result list is "no pose"; otherwise
      the first observation is parsed. */
  function DetectPose(buffer: PixelBuffer): (r: Result<Option<Pose>, PoseEstimationError>)
    ensures r.Failure? <==> buffer.vision.PerformFailed?
    ensures r.Failure? ==> r.error == FrameProcessingFailed
    ensures r == Success(None) <==> buffer.vision == Performed([])
    ensures r.Success? && r.value.Some? ==> r.value.value == ParsePose(buffer.vision.results[0])
  {
    match buffer.vision
    case PerformFailed => Failure(FrameProcessingFailed)
    case Performed(results) =>
      if |results| == 0 then Success(None) else Success(Some(ParsePose(results[0])))
  }

  /** Only the first observation matters: results that agree on it give the
      same answer, whatever follows. */
  lemma DetectPoseUsesFirstObservation(first: Observation, rest: seq<Observation>, rest': seq<Observation>)
    ensures DetectPose(PixelBuffer(Performed([first] + rest)))
         == DetectPose(PixelBuffer(Performed([first] + rest')))
         == Success(Some(ParsePose(first)))
  {
  }

  /** `try? detectPose(in:)`: a thrown error and "no pose" both become nil,
      so a pose comes back exactly when Vision produced a result. */
  function InferPose(buffer: PixelBuffer): (r: Option<Pose>)
    ensures r.Some? <==> buffer.vision.Performed? && buffer.vision.results != []
    ensures r.Some? ==> r.value == ParsePose(buffer.vision.results[0])
  {
    match DetectPose(buffer)
    case Success(pose) => pose
    case Failure(_) => None
  }
}
