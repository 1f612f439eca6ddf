/** Keypoints and the fixed table of body joints (Models/Keypoint.swift). */
module Keypoints {
  import opened Geometry

  /** `VNHumanBodyPoseObservation.JointName`. The nineteen named constants
      are the joints of Vision's body-pose model; `Other` stands for any
      other raw value the string-backed joint-name type can carry. */
  datatype JointName =
    | Nose
    | LeftEye | RightEye
    | LeftEar | RightEar
    | Neck
    | LeftShoulder | RightShoulder
    | LeftElbow | RightElbow
    | LeftWrist | RightWrist
    | Root
    | LeftHip | RightHip
    | LeftKnee | RightKnee
    | LeftAnkle | RightAnkle
    | Other(rawValue: string)

  /** One detected joint: its name, its normalized position (origin at the
      bottom left) and the model's confidence. */
  datatype Keypoint = Keypoint(id: JointName, point: Point, confidence: real)
  {
    /** Whether the keypoint is drawn: the threshold is strict. */
    predicate IsReliable()
    {
      confidence > ReliabilityThreshold
    }
  }

  /** The confidence a keypoint must exceed to be reliable. */
  const ReliabilityThreshold: real := 0.1

  /** `JointName.allJoints`, in the app's order. */
  const AllJoints: seq<JointName> := [
    Nose,
    LeftEye, RightEye,
    LeftEar, RightEar,
    Neck,
    LeftShoulder, RightShoulder,
    LeftElbow, RightElbow,
    LeftWrist, RightWrist,
    Root,
    LeftHip, RightHip,
    LeftKnee, RightKnee,
    LeftAnkle, RightAnkle
  ]

  /** No element of `s` occurs twice. */
  predicate Distinct<T(==)>(s: seq<T>)
  {
    forall i, j :: 0 <= i < j < |s| ==> s[i] != s[j]
  }

  /** Confidence exactly at the threshold is not reliable; anything above it is. */
  lemma ReliabilityIsStrict(id: JointName, p: Point, c: real)
    ensures !Keypoint(id, p, 0.1).IsReliable()
    ensures Keypoint(id, p, 0.1001).IsReliable()
    ensures Keypoint(id, p, c).IsReliable() <==> c > 0.1
  {
  }

  /** Raising the confidence of a reliable keypoint keeps it reliable. */
  lemma ReliabilityIsMonotone(k: Keypoint, c: real)
    requires k.IsReliable() && k.confidence <= c
    ensures k.(confidence := c).IsReliable()
  {
  }

  /** The joint table has nineteen entries, `Root` among them, and only
      named joints. */
  lemma AllJointsTable()
    ensures |AllJoints| == 19
    ensures Root in AllJoints
    ensures forall i :: 0 <= i < |AllJoints| ==> !AllJoints[i].Other?
    ensures forall j :: j in AllJoints ==> !j.Other?
  {
  }

  /** The position of a named joint in `AllJoints`; -1 for any other name. */
  function JointIndex(j: JointName): int
  {
    match j
    case Nose => 0
    case LeftEye => 1
    case RightEye => 2
    case LeftEar => 3
    case RightEar => 4
    case Neck => 5
    case LeftShoulder => 6
    case RightShoulder => 7
    case LeftElbow => 8
    case RightElbow => 9
    case LeftWrist => 10
    case RightWrist => 11
    case Root => 12
    case LeftHip => 13
    case RightHip => 14
    case LeftKnee => 15
    case RightKnee => 16
    case LeftAnkle => 17
    case RightAnkle => 18
    case Other(_) => -1
  }

  /** No joint is listed twice: each entry's position is determined by the
      entry itself. */
  lemma AllJointsDistinct()
    ensures Distinct(AllJoints)
  {
    forall i | 0 <= i < |AllJoints|
      ensures JointIndex(AllJoints[i]) == i
    {
    }
  }

  /** Every joint of the body-pose model is listed. */
  lemma AllJointsComplete(j: JointName)
    ensures !j.Other? ==> j in AllJoints
  {
    match j
    case Nose => assert AllJoints[0] == j;
    case LeftEye => assert AllJoints[1] == j;
    case RightEye => assert AllJoints[2] == j;
    case LeftEar => assert AllJoints[3] == j;
    case RightEar => assert AllJoints[4] == j;
    case Neck => assert AllJoints[5] == j;
    case LeftShoulder => assert AllJoints[6] == j;
    case RightShoulder => assert AllJoints[7] == j;
    case LeftElbow => assert AllJoints[8] == j;
    case RightElbow => assert AllJoints[9] == j;
    case LeftWrist => assert AllJoints[10] == j;
    case RightWrist => assert AllJoints[11] == j;
    case Root => assert AllJoints[12] == j;
    case LeftHip => assert AllJoints[13] == j;
    case RightHip => assert AllJoints[14] == j;
    case LeftKnee => assert AllJoints[15] == j;
    case RightKnee => assert AllJoints[16] == j;
    case LeftAnkle => assert AllJoints[17] == j;
    case RightAnkle => assert AllJoints[18] == j;
    case Other(_) =>
  }
}
