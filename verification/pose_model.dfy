/** A detected pose and the static skeleton (Models/PoseModel.swift). */
module PoseModels {
  import opened Wrappers
  import opened Keypoints

  /** `PoseModel`: the keypoints a detection reported, keyed by joint. A joint
      absent from the map was not detected, which is different from a joint
      detected with low confidence. */
  datatype Pose = Pose(keypoints: map<JointName, Keypoint>)
  {
    /** `keypoint(for:)` */
    function KeypointFor(joint: JointName): (r: Option<Keypoint>)
      ensures r.None? <==> joint !in keypoints
      ensures r.Some? ==> joint in keypoints && r.value == keypoints[joint]
    {
      if joint in keypoints then Some(keypoints[joint]) else None
    }

    /** `hasReliableKeypoint(for:)` */
    predicate HasReliableKeypoint(joint: JointName)
    {
      joint in keypoints && keypoints[joint].IsReliable()
    }
  }

  /** A pair of joints joined by a bone when drawn. */
  datatype SkeletonConnection = SkeletonConnection(from: JointName, to: JointName)

  /** `SkeletonConnection.allConnections`, in the app's order. */
  const AllConnections: seq<SkeletonConnection> := [
    // Head
    SkeletonConnection(Nose, Neck),
    SkeletonConnection(LeftEye, Nose),
    SkeletonConnection(RightEye, Nose),
    SkeletonConnection(LeftEar, LeftEye),
    SkeletonConnection(RightEar, RightEye),
    // Torso
    SkeletonConnection(Neck, LeftShoulder),
    SkeletonConnection(Neck, RightShoulder),
    SkeletonConnection(LeftShoulder, LeftHip),
    SkeletonConnection(RightShoulder, RightHip),
    SkeletonConnection(LeftHip, RightHip),
    // Left arm
    SkeletonConnection(LeftShoulder, LeftElbow),
    SkeletonConnection(LeftElbow, LeftWrist),
    // Right arm
    SkeletonConnection(RightShoulder, RightElbow),
    SkeletonConnection(RightElbow, RightWrist),
    // Left leg
    SkeletonConnection(LeftHip, LeftKnee),
    SkeletonConnection(LeftKnee, LeftAnkle),
    // Right leg
    SkeletonConnection(RightHip, RightKnee),
    SkeletonConnection(RightKnee, RightAnkle)
  ]

  /** A reliable keypoint is always one that `keypoint(for:)` finds, and a
      found keypoint counts as reliable exactly when its own test says so. */
  lemma HasReliableKeypointMeaning(p: Pose, joint: JointName)
    ensures p.HasReliableKeypoint(joint) ==> p.KeypointFor(joint).Some?
    ensures p.KeypointFor(joint).None? ==> !p.HasReliableKeypoint(joint)
    ensures p.KeypointFor(joint).Some? ==>
              (p.HasReliableKeypoint(joint) <==> p.KeypointFor(joint).value.IsReliable())
  {
  }

  /** The connection table has eighteen entries, none a self-loop, all
      between tabled joints, none at `Root`. */
  lemma AllConnectionsTable()
    ensures |AllConnections| == 18
    ensures forall i :: 0 <= i < |AllConnections| ==> AllConnections[i].from != AllConnections[i].to
    ensures forall i :: 0 <= i < |AllConnections| ==>
              AllConnections[i].from in AllJoints && AllConnections[i].to in AllJoints
    ensures forall i :: 0 <= i < |AllConnections| ==>
              AllConnections[i].from != Root && AllConnections[i].to != Root
  {
    forall i | 0 <= i < |AllConnections|
      ensures !AllConnections[i].from.Other? && !AllConnections[i].to.Other?
    {
    }
    AllJointsTable();
  }

  /** A number that identifies an ordered pair of tabled joints. */
  function ConnectionCode(c: SkeletonConnection): int
  {
    JointIndex(c.from) * 19 + JointIndex(c.to)
  }

  /** The position in `AllConnections` of the connection with this code, or -1. */
  function ConnectionAt(code: int): int
  {
    if code == 5 then 0 else if code == 19 then 1 else if code == 38 then 2
    else if code == 58 then 3 else if code == 78 then 4 else if code == 101 then 5
    else if code == 102 then 6 else if code == 127 then 7 else if code == 147 then 8
    else if code == 261 then 9 else if code == 122 then 10 else if code == 162 then 11
    else if code == 142 then 12 else if code == 182 then 13 else if code == 262 then 14
    else if code == 302 then 15 else if code == 282 then 16 else if code == 322 then 17
    else -1
  }

  /** No pair of joints is connected twice, in the same or the opposite direction. */
  lemma AllConnectionsUnrepeated()
    ensures Distinct(AllConnections)
    ensures forall i, j :: 0 <= i < |AllConnections| && 0 <= j < |AllConnections| ==>
              AllConnections[i].from != AllConnections[j].to || AllConnections[i].to != AllConnections[j].from
  {
    ConnectionPositions();
    ReversedConnectionsAbsent();
    forall i, j | 0 <= i < |AllConnections| && 0 <= j < |AllConnections|
      ensures AllConnections[j] != Reversed(AllConnections[i])
    {
      assert ConnectionAt(ConnectionCode(AllConnections[j])) == j;
    }
  }

  /** The same two joints, joined the other way round. */
  function Reversed(c: SkeletonConnection): SkeletonConnection
  {
    SkeletonConnection(c.to, c.from)
  }

  /** No tabled connection read backwards has a position in the table. */
  lemma ReversedConnectionsAbsent()
    ensures forall i :: 0 <= i < |AllConnections| ==> ConnectionAt(ConnectionCode(Reversed(AllConnections[i]))) == -1
  {
    assert ConnectionAt(ConnectionCode(Reversed(AllConnections[0]))) == -1;
    assert ConnectionAt(ConnectionCode(Reversed(AllConnections[1]))) == -1;
    assert ConnectionAt(ConnectionCode(Reversed(AllConnections[2]))) == -1;
    assert ConnectionAt(ConnectionCode(Reversed(AllConnections[3]))) == -1;
    assert ConnectionAt(ConnectionCode(Reversed(AllConnections[4]))) == -1;
    assert ConnectionAt(ConnectionCode(Reversed(AllConnections[5]))) == -1;
    assert ConnectionAt(ConnectionCode(Reversed(AllConnections[6]))) == -1;
    assert ConnectionAt(ConnectionCode(Reversed(AllConnections[7]))) == -1;
    assert ConnectionAt(ConnectionCode(Reversed(AllConnections[8]))) == -1;
    assert ConnectionAt(ConnectionCode(Reversed(AllConnections[9]))) == -1;
    assert ConnectionAt(ConnectionCode(Reversed(AllConnections[10]))) == -1;
    assert ConnectionAt(ConnectionCode(Reversed(AllConnections[11]))) == -1;
    assert ConnectionAt(ConnectionCode(Reversed(AllConnections[12]))) == -1;
    assert ConnectionAt(ConnectionCode(Reversed(AllConnections[13]))) == -1;
    assert ConnectionAt(ConnectionCode(Reversed(AllConnections[14]))) == -1;
    assert ConnectionAt(ConnectionCode(Reversed(AllConnections[15]))) == -1;
    assert ConnectionAt(ConnectionCode(Reversed(AllConnections[16]))) == -1;
    assert ConnectionAt(ConnectionCode(Reversed(AllConnections[17]))) == -1;
  }

  /** Each tabled connection sits at the position its code names. */
  lemma ConnectionPositions()
    ensures forall i :: 0 <= i < |AllConnections| ==> ConnectionAt(ConnectionCode(AllConnections[i])) == i
  {
    assert ConnectionAt(ConnectionCode(AllConnections[0])) == 0;
    assert ConnectionAt(ConnectionCode(AllConnections[1])) == 1;
    assert ConnectionAt(ConnectionCode(AllConnections[2])) == 2;
    assert ConnectionAt(ConnectionCode(AllConnections[3])) == 3;
    assert ConnectionAt(ConnectionCode(AllConnections[4])) == 4;
    assert ConnectionAt(ConnectionCode(AllConnections[5])) == 5;
    assert ConnectionAt(ConnectionCode(AllConnections[6])) == 6;
    assert ConnectionAt(ConnectionCode(AllConnections[7])) == 7;
    assert ConnectionAt(ConnectionCode(AllConnections[8])) == 8;
    assert ConnectionAt(ConnectionCode(AllConnections[9])) == 9;
    assert ConnectionAt(ConnectionCode(AllConnections[10])) == 10;
    assert ConnectionAt(ConnectionCode(AllConnections[11])) == 11;
    assert ConnectionAt(ConnectionCode(AllConnections[12])) == 12;
    assert ConnectionAt(ConnectionCode(AllConnections[13])) == 13;
    assert ConnectionAt(ConnectionCode(AllConnections[14])) == 14;
    assert ConnectionAt(ConnectionCode(AllConnections[15])) == 15;
    assert ConnectionAt(ConnectionCode(AllConnections[16])) == 16;
    assert ConnectionAt(ConnectionCode(AllConnections[17])) == 17;
  }
}
