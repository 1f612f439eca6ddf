/** What the skeleton overlay draws for a pose
    (Views/SkeletonOverlayView.swift), as a list of draw commands in the
    order they reach the canvas. */
module SkeletonRenderer {
  import opened Wrappers
  import opened Geometry
  import opened Keypoints
  import opened PoseModels
  import opened Orientation

  /** A SwiftUI colour, by name. */
  datatype Color = Color(name: string)

  const Green: Color := Color("green")
  const Yellow: Color := Color("yellow")
  const White: Color := Color("white")

  /** `SkeletonRenderer`'s drawing parameters. */
  datatype Renderer = Renderer(
    lineWidth: real,
    jointRadius: real,
    lineColor: Color,
    jointColor: Color,
    orientation: VideoOrientation)

  /** The renderer with the default parameters of `SkeletonRenderer.init`. */
  function DefaultRenderer(orientation: VideoOrientation): Renderer
  {
    Renderer(3.0, 6.0, Green, Yellow, orientation)
  }

  /** One call on the `GraphicsContext`. */
  datatype DrawCommand =
    | StrokeLine(from: Point, to: Point, color: Color, lineWidth: real)
    | FillCircle(rect: Rect, color: Color)
    | StrokeCircle(rect: Rect, color: Color, lineWidth: real)

  /** The guard of `drawConnection`: both joints were found and both are reliable. */
  predicate Drawable(pose: Pose, c: SkeletonConnection)
  {
    && pose.KeypointFor(c.from).Some? && pose.KeypointFor(c.to).Some?
    && pose.KeypointFor(c.from).value.IsReliable() && pose.KeypointFor(c.to).value.IsReliable()
  }

  /** A bone is drawn exactly when the pose has a reliable keypoint at both ends. */
  lemma DrawableMeansBothReliable(pose: Pose, c: SkeletonConnection)
    ensures Drawable(pose, c) <==> pose.HasReliableKeypoint(c.from) && pose.HasReliableKeypoint(c.to)
  {
  }

  /** The stroke of a drawable connection, between its transformed endpoints. */
  function ConnectionLine(r: Renderer, pose: Pose, c: SkeletonConnection, size: Size): DrawCommand
    requires Drawable(pose, c)
  {
    StrokeLine(TransformPoint(r.orientation, pose.keypoints[c.from].point, size),
               TransformPoint(r.orientation, pose.keypoints[c.to].point, size),
               r.lineColor, r.lineWidth)
  }

  /** `drawConnection`: one stroke for a drawable connection, nothing otherwise. */
  function DrawConnection(r: Renderer, c: SkeletonConnection, pose: Pose, size: Size)
    : (cmds: seq<DrawCommand>)
    ensures cmds != [] <==> Drawable(pose, c)
    ensures cmds != [] ==> cmds == [ConnectionLine(r, pose, c, size)]
  {
    match (pose.KeypointFor(c.from), pose.KeypointFor(c.to))
    case (Some(fromKeypoint), Some(toKeypoint)) =>
      if fromKeypoint.IsReliable() && toKeypoint.IsReliable() then
        [StrokeLine(TransformPoint(r.orientation, fromKeypoint.point, size),
                    TransformPoint(r.orientation, toKeypoint.point, size),
                    r.lineColor, r.lineWidth)]
      else []
    case _ => []
  }

  /** The circle a joint is drawn in: centred on the transformed point, with
      the joint radius as its radius. */
  function JointRect(r: Renderer, keypoint: Keypoint, size: Size): (rect: Rect)
    ensures Center(rect) == TransformPoint(r.orientation, keypoint.point, size)
    ensures rect.width == 2.0 * r.jointRadius && rect.height == 2.0 * r.jointRadius
  {
    var point := TransformPoint(r.orientation, keypoint.point, size);
    Rect(point.x - r.jointRadius, point.y - r.jointRadius, r.jointRadius * 2.0, r.jointRadius * 2.0)
  }

  /** `drawJoint`: a filled circle in the joint colour, then a thin white
      border around the same circle, centred on the transformed point. */
  function DrawJoint(r: Renderer, keypoint: Keypoint, size: Size): (cmds: seq<DrawCommand>)
  {
    var rect := JointRect(r, keypoint, size);
    [FillCircle(rect, r.jointColor), StrokeCircle(rect, White, 1.0)]
  }

  /** The first loop of `render`, over `conns`. */
  function DrawConnections(r: Renderer, conns: seq<SkeletonConnection>, pose: Pose, size: Size)
    : (cmds: seq<DrawCommand>)
    ensures forall cmd :: cmd in cmds ==> cmd.StrokeLine?
    ensures forall c :: c in conns && Drawable(pose, c) ==> ConnectionLine(r, pose, c, size) in cmds
    ensures forall cmd :: cmd in cmds ==>
              exists c :: c in conns && Drawable(pose, c) && cmd == ConnectionLine(r, pose, c, size)
    decreases |conns|
  {
    if conns == [] then []
    else DrawConnection(r, conns[0], pose, size) + DrawConnections(r, conns[1..], pose, size)
  }

  /** The second loop of `render`, visiting the pose's joints in `order`. */
  function DrawJoints(r: Renderer, order: seq<JointName>, pose: Pose, size: Size)
    : (cmds: seq<DrawCommand>)
    ensures forall cmd :: cmd in cmds ==> !cmd.StrokeLine?
    ensures forall j :: j in order && pose.HasReliableKeypoint(j) ==>
              && FillCircle(JointRect(r, pose.keypoints[j], size), r.jointColor) in cmds
              && StrokeCircle(JointRect(r, pose.keypoints[j], size), White, 1.0) in cmds
    ensures forall cmd :: cmd in cmds ==>
              exists j :: j in order && pose.HasReliableKeypoint(j) && cmd in DrawJoint(r, pose.keypoints[j], size)
    decreases |order|
  {
    if order == [] then []
    else
      var j := order[0];
      var here := if j in pose.keypoints && pose.keypoints[j].IsReliable()
                  then DrawJoint(r, pose.keypoints[j], size) else [];
      here + DrawJoints(r, order[1..], pose, size)
  }

  /** Every stroked line comes before every joint circle. */
  predicate StrokesFirst(cmds: seq<DrawCommand>)
  {
    forall i, k :: 0 <= i < k < |cmds| && cmds[k].StrokeLine? ==> cmds[i].StrokeLine?
  }

  /** Appending circles after lines keeps the lines first. */
  lemma LinesThenCircles(lines: seq<DrawCommand>, circles: seq<DrawCommand>)
    requires forall cmd :: cmd in lines ==> cmd.StrokeLine?
    requires forall cmd :: cmd in circles ==> !cmd.StrokeLine?
    ensures StrokesFirst(lines + circles)
  {
    var cmds := lines + circles;
    forall m | |lines| <= m < |cmds|
      ensures !cmds[m].StrokeLine?
    {
      assert cmds[m] == circles[m - |lines|];
    }
    forall m | 0 <= m < |lines|
      ensures cmds[m].StrokeLine?
    {
      assert cmds[m] == lines[m];
    }
  }

  /** `render(pose:in:size:)`. A Swift dictionary is iterated in an order of
      its own choosing, so that order is a parameter: any listing of the
      pose's joints, each once. All bones are stroked before any joint is
      drawn; the bones drawn are exactly the connections with reliable
      keypoints at both ends; the joints drawn are exactly the reliable
      keypoints. */
  function Render(r: Renderer, pose: Pose, keyOrder: seq<JointName>, size: Size)
    : (cmds: seq<DrawCommand>)
    requires Distinct(keyOrder)
    requires forall j :: j in keyOrder <==> j in pose.keypoints
    ensures StrokesFirst(cmds)
    ensures forall c :: c in AllConnections && Drawable(pose, c) ==> ConnectionLine(r, pose, c, size) in cmds
    ensures forall cmd :: cmd in cmds && cmd.StrokeLine? ==>
              exists c :: c in AllConnections && Drawable(pose, c) && cmd == ConnectionLine(r, pose, c, size)
    ensures forall j :: pose.HasReliableKeypoint(j) ==>
              && FillCircle(JointRect(r, pose.keypoints[j], size), r.jointColor) in cmds
              && StrokeCircle(JointRect(r, pose.keypoints[j], size), White, 1.0) in cmds
    ensures forall cmd :: cmd in cmds && !cmd.StrokeLine? ==>
              exists j :: pose.HasReliableKeypoint(j) && cmd in DrawJoint(r, pose.keypoints[j], size)
  {
    var lines := DrawConnections(r, AllConnections, pose, size);
    var joints := DrawJoints(r, keyOrder, pose, size);
    LinesThenCircles(lines, joints);
    lines + joints
  }

  /** Each joint circle is a fill immediately followed by its white border:
      every fill has its border right after it, and every border has its
      fill right before it. */
  predicate BordersFollowFills(cmds: seq<DrawCommand>, jointColor: Color)
  {
    && (forall i :: 0 <= i < |cmds| && cmds[i].FillCircle? ==>
          i + 1 < |cmds| && cmds[i + 1] == StrokeCircle(cmds[i].rect, White, 1.0))
    && (forall i :: 0 <= i < |cmds| && cmds[i].StrokeCircle? ==>
          0 < i && cmds[i - 1] == FillCircle(cmds[i].rect, jointColor))
  }

  /** Joining two lists that each pair fills with borders keeps the pairing. */
  lemma PairsConcat(a: seq<DrawCommand>, b: seq<DrawCommand>, jointColor: Color)
    requires BordersFollowFills(a, jointColor) && BordersFollowFills(b, jointColor)
    ensures BordersFollowFills(a + b, jointColor)
  {
    var cmds := a + b;
    forall i | 0 <= i < |a|
      ensures cmds[i] == a[i]
    {
    }
    forall i | |a| <= i < |cmds|
      ensures cmds[i] == b[i - |a|]
    {
    }
  }

  /** `drawJoint` fills, then strokes the border of the same circle, for
      every reliable joint, in whatever order the joints are visited. */
  lemma {:induction false} DrawJointsPairs(r: Renderer, order: seq<JointName>, pose: Pose, size: Size)
    ensures BordersFollowFills(DrawJoints(r, order, pose, size), r.jointColor)
    decreases |order|
  {
    if order != [] {
      var j := order[0];
      var here := if j in pose.keypoints && pose.keypoints[j].IsReliable()
                  then DrawJoint(r, pose.keypoints[j], size) else [];
      DrawJointsPairs(r, order[1..], pose, size);
      PairsConcat(here, DrawJoints(r, order[1..], pose, size), r.jointColor);
    }
  }

  /** On the whole canvas too, every border is drawn right after its own fill. */
  lemma RenderBordersFollowFills(r: Renderer, pose: Pose, keyOrder: seq<JointName>, size: Size)
    requires Distinct(keyOrder)
    requires forall j :: j in keyOrder <==> j in pose.keypoints
    ensures BordersFollowFills(Render(r, pose, keyOrder, size), r.jointColor)
  {
    var lines := DrawConnections(r, AllConnections, pose, size);
    var joints := DrawJoints(r, keyOrder, pose, size);
    assert forall i :: 0 <= i < |lines| ==> lines[i] in lines;
    LinesHaveNoCircles(lines, r.jointColor);
    DrawJointsPairs(r, keyOrder, pose, size);
    PairsConcat(lines, joints, r.jointColor);
    assert Render(r, pose, keyOrder, size) == lines + joints;
  }

  lemma LinesHaveNoCircles(lines: seq<DrawCommand>, jointColor: Color)
    requires forall i :: 0 <= i < |lines| ==> lines[i].StrokeLine?
    ensures BordersFollowFills(lines, jointColor)
  {
  }

  /** The connections of `conns` that are drawn, in order. */
  function DrawableConnections(pose: Pose, conns: seq<SkeletonConnection>): (ds: seq<SkeletonConnection>)
    ensures forall c :: c in ds <==> c in conns && Drawable(pose, c)
    decreases |conns|
  {
    if conns == [] then []
    else (if Drawable(pose, conns[0]) then [conns[0]] else []) + DrawableConnections(pose, conns[1..])
  }

  /** The joints of `order` that have reliable keypoints, in order. */
  function ReliableJoints(pose: Pose, order: seq<JointName>): (js: seq<JointName>)
    ensures forall j :: j in js <==> j in order && pose.HasReliableKeypoint(j)
    ensures Distinct(order) ==> Distinct(js)
    decreases |order|
  {
    if order == [] then []
    else
      var rest := ReliableJoints(pose, order[1..]);
      if pose.HasReliableKeypoint(order[0]) then
        assert order[0] !in order[1..] ==> order[0] !in rest;
        [order[0]] + rest
      else rest
  }

  /** One line per drawable bone and two circles per reliable joint: with a
      listing of the keys that names each once, nothing is drawn twice. */
  lemma RenderCommandCount(r: Renderer, pose: Pose, keyOrder: seq<JointName>, size: Size)
    requires Distinct(keyOrder)
    requires forall j :: j in keyOrder <==> j in pose.keypoints
    ensures |Render(r, pose, keyOrder, size)|
            == |DrawableConnections(pose, AllConnections)| + 2 * |ReliableJoints(pose, keyOrder)|
  {
    ConnectionsCount(r, AllConnections, pose, size);
    JointsCount(r, keyOrder, pose, size);
    assert Render(r, pose, keyOrder, size)
        == DrawConnections(r, AllConnections, pose, size) + DrawJoints(r, keyOrder, pose, size);
  }

  lemma {:induction false} ConnectionsCount(r: Renderer, conns: seq<SkeletonConnection>, pose: Pose, size: Size)
    ensures |DrawConnections(r, conns, pose, size)| == |DrawableConnections(pose, conns)|
    decreases |conns|
  {
    if conns != [] {
      ConnectionsCount(r, conns[1..], pose, size);
    }
  }

  lemma {:induction false} JointsCount(r: Renderer, order: seq<JointName>, pose: Pose, size: Size)
    ensures |DrawJoints(r, order, pose, size)| == 2 * |ReliableJoints(pose, order)|
    decreases |order|
  {
    if order != [] {
      JointsCount(r, order[1..], pose, size);
    }
  }

  /** The overlay's canvas: nothing without a pose. */
  function OverlayCommands(r: Renderer, pose: Option<Pose>, keyOrder: seq<JointName>, size: Size)
    : (cmds: seq<DrawCommand>)
    requires pose.Some? ==> Distinct(keyOrder) && forall j :: j in keyOrder <==> j in pose.value.keypoints
    ensures pose.None? ==> cmds == []
    ensures pose.Some? ==> cmds == Render(r, pose.value, keyOrder, size)
  {
    match pose
    case None => []
    case Some(p) => Render(r, p, keyOrder, size)
  }
}
