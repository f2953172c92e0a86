/**
 * The skeleton overlay: normalised key points are mapped onto the canvas (letterboxed by the
 * longer side), bones are drawn between present joints, and joints flagged in `errors` get the
 * error colour. Drawing is modelled as the list of draw commands issued, in order.
 */
module SkeletonOverlay {
  import opened Wrappers
  import opened SkeletonData

  datatype Point = Point(x: real, y: real)
  datatype JointColor = NormalColor | ErrorColor
  datatype DrawCommand = Line(start: Point, end: Point) | Circle(center: Point, color: JointColor)

  function MaxDim(width: real, height: real): (m: real)
    ensures m >= width && m >= height && (m == width || m == height)
  {
    if width >= height then width else height
  }

  /** The letterbox offsets `(W - maxDim) / 2` and `(H - maxDim) / 2`. */
  function Offset(side: real, width: real, height: real): real {
    (side - MaxDim(width, height)) / 2.0
  }

  /** Both offsets are at most 0, and the one on the longer axis is exactly 0. */
  lemma OffsetsNonPositive(width: real, height: real)
    ensures Offset(width, width, height) <= 0.0 && Offset(height, width, height) <= 0.0
    ensures width >= height ==> Offset(width, width, height) == 0.0
    ensures height >= width ==> Offset(height, width, height) == 0.0
  {
  }

  /** Canvas position of a normalised point: scaled by the longer side, shifted by the offsets. */
  function Denormalize(kp: KeyPoint, width: real, height: real): Point {
    var maxDim := MaxDim(width, height);
    Point(kp.x * maxDim + Offset(width, width, height), kp.y * maxDim + Offset(height, width, height))
  }

  /** The normalised centre (0.5, 0.5) lands on the canvas centre. */
  lemma CentreMapsToCentre(p: BodyPart, width: real, height: real)
    ensures Denormalize(KeyPoint(p, 0.5, 0.5), width, height) == Point(width / 2.0, height / 2.0)
  {
  }

  /** `keyPoints.associate { it.type to position }`: entries are added in list order. */
  function PointMap(kps: seq<KeyPoint>, width: real, height: real): map<BodyPart, Point> {
    if kps == [] then map[]
    else PointMap(kps[..|kps| - 1], width, height)[kps[|kps| - 1].bodyPart := Denormalize(kps[|kps| - 1], width, height)]
  }

  /** The point map holds exactly the parts that occur among the key points. */
  lemma {:induction false} PointMapDomain(kps: seq<KeyPoint>, width: real, height: real)
    ensures forall p :: p in PointMap(kps, width, height) <==> exists k :: 0 <= k < |kps| && kps[k].bodyPart == p
  {
    if kps != [] {
      var init := kps[..|kps| - 1];
      var last := kps[|kps| - 1];
      PointMapDomain(init, width, height);
      var m0 := PointMap(init, width, height);
      var m := PointMap(kps, width, height);
      forall p ensures p in m <==> exists k :: 0 <= k < |kps| && kps[k].bodyPart == p {
        if p in m0 {
          var k :| 0 <= k < |init| && init[k].bodyPart == p;
          assert kps[k] == init[k];
        }
        if p != last.bodyPart && exists k :: 0 <= k < |kps| && kps[k].bodyPart == p {
          var k :| 0 <= k < |kps| && kps[k].bodyPart == p;
          assert k < |init| && init[k].bodyPart == p;
        }
      }
    }
  }

  /**
   * Each part is mapped to the canvas position of its LAST occurrence: a later key point of the
   * same part overwrites an earlier one.
   */
  lemma {:induction false} PointMapLaterWins(kps: seq<KeyPoint>, width: real, height: real, k: nat)
    requires k < |kps| && IsLastOfPart(kps, k)
    ensures kps[k].bodyPart in PointMap(kps, width, height)
    ensures PointMap(kps, width, height)[kps[k].bodyPart] == Denormalize(kps[k], width, height)
  {
    var init := kps[..|kps| - 1];
    if k < |init| {
      assert kps[k] == init[k];
      assert kps[|kps| - 1].bodyPart != kps[k].bodyPart;
      assert IsLastOfPart(init, k) by {
        forall j | k < j < |init| ensures init[j].bodyPart != init[k].bodyPart {
          assert init[j] == kps[j];
        }
      }
      PointMapLaterWins(init, width, height, k);
    }
  }

  /** No later key point has the same part as key point `k`. */
  predicate IsLastOfPart(kps: seq<KeyPoint>, k: int)
    requires 0 <= k < |kps|
  {
    forall j :: k < j < |kps| ==> kps[j].bodyPart != kps[k].bodyPart
  }

  /** The bones whose two endpoints are both in the point map, in table order. */
  function DrawnBones(pointMap: map<BodyPart, Point>, bones: seq<(BodyPart, BodyPart)>): (r: seq<(BodyPart, BodyPart)>)
    ensures forall b :: b in r <==> b in bones && b.0 in pointMap && b.1 in pointMap
  {
    if bones == [] then []
    else
      var b := bones[0];
      (if b.0 in pointMap && b.1 in pointMap then [b] else []) + DrawnBones(pointMap, bones[1..])
  }

  /** The bone pass: a line for each table bone with both endpoints present, in table order. */
  function BoneLines(pointMap: map<BodyPart, Point>, table: seq<(BodyPart, BodyPart)>): (r: seq<DrawCommand>)
    ensures |r| == |DrawnBones(pointMap, table)|
  {
    var bones := DrawnBones(pointMap, table);
    seq(|bones|, i requires 0 <= i < |bones| =>
      assert bones[i] in bones;
      Line(pointMap[bones[i].0], pointMap[bones[i].1]))
  }

  /** A joint is error-coloured when `errors` is given, covers the part's ordinal and holds 1 there. */
  predicate IsErrorJoint(errors: Option<seq<int>>, p: BodyPart) {
    if errors.Some? && Ordinal(p) < |errors.value| then errors.value[Ordinal(p)] == 1 else false
  }

  /** The joint pass: one circle per key point present in the map, at the mapped position. */
  function JointCircles(kps: seq<KeyPoint>, pointMap: map<BodyPart, Point>, errors: Option<seq<int>>): seq<DrawCommand> {
    if kps == [] then []
    else
      var p := kps[0].bodyPart;
      (if p in pointMap
       then [Circle(pointMap[p], if IsErrorJoint(errors, p) then ErrorColor else NormalColor)]
       else [])
      + JointCircles(kps[1..], pointMap, errors)
  }

  /** Everything the overlay draws for one frame on a `width` x `height` canvas: bones, then joints. */
  function DrawCommands(kps: seq<KeyPoint>, errors: Option<seq<int>>, width: real, height: real): seq<DrawCommand> {
    DrawCommandsWith(BodyConnections, kps, errors, width, height)
  }

  /** The overlay drawn with the bone table `table` (`DrawCommands` uses the skeleton's own table). */
  function DrawCommandsWith(table: seq<(BodyPart, BodyPart)>, kps: seq<KeyPoint>, errors: Option<seq<int>>,
                            width: real, height: real): seq<DrawCommand> {
    var pointMap := PointMap(kps, width, height);
    BoneLines(pointMap, table) + JointCircles(kps, pointMap, errors)
  }

  /** With every part of `kps` in the map, each key point gets exactly one circle, in order. */
  lemma {:induction false} JointCirclesAt(kps: seq<KeyPoint>, pointMap: map<BodyPart, Point>, errors: Option<seq<int>>)
    requires forall k :: 0 <= k < |kps| ==> kps[k].bodyPart in pointMap
    ensures var r := JointCircles(kps, pointMap, errors);
      |r| == |kps| &&
      forall k :: 0 <= k < |kps| ==>
        r[k] == Circle(pointMap[kps[k].bodyPart], if IsErrorJoint(errors, kps[k].bodyPart) then ErrorColor else NormalColor)
  {
    if kps != [] {
      JointCirclesAt(kps[1..], pointMap, errors);
    }
  }

  /**
   * The overlay for one frame: first one line for exactly the table bones whose two endpoints both
   * occur among the key points, then one circle per key point at its part's mapped position,
   * error-coloured exactly when `IsErrorJoint` holds.
   */
  lemma DrawCommandsMeaning(table: seq<(BodyPart, BodyPart)>, kps: seq<KeyPoint>, errors: Option<seq<int>>,
                            width: real, height: real)
    ensures var pointMap := PointMap(kps, width, height);
      var bones := DrawnBones(pointMap, table);
      var cmds := DrawCommandsWith(table, kps, errors, width, height);
      && |cmds| == |bones| + |kps|
      && (forall k :: 0 <= k < |kps| ==> kps[k].bodyPart in pointMap)
      && (forall i :: 0 <= i < |bones| ==> cmds[i] == Line(pointMap[bones[i].0], pointMap[bones[i].1]))
      && (forall k :: 0 <= k < |kps| ==>
            cmds[|bones| + k] == Circle(pointMap[kps[k].bodyPart],
              if IsErrorJoint(errors, kps[k].bodyPart) then ErrorColor else NormalColor))
  {
    var pointMap := PointMap(kps, width, height);
    assert forall k :: 0 <= k < |kps| ==> kps[k].bodyPart in pointMap by {
      PointMapDomain(kps, width, height);
      forall k | 0 <= k < |kps| ensures kps[k].bodyPart in pointMap {
        assert exists j :: 0 <= j < |kps| && kps[j].bodyPart == kps[k].bodyPart;
      }
    }
    BonesThenJoints(table, kps, pointMap, errors);
  }

  /** Bones then joints over any point map holding every key point's part. */
  lemma BonesThenJoints(table: seq<(BodyPart, BodyPart)>, kps: seq<KeyPoint>, pointMap: map<BodyPart, Point>,
                        errors: Option<seq<int>>)
    requires forall k :: 0 <= k < |kps| ==> kps[k].bodyPart in pointMap
    ensures var bones := DrawnBones(pointMap, table);
      var cmds := BoneLines(pointMap, table) + JointCircles(kps, pointMap, errors);
      && |cmds| == |bones| + |kps|
      && (forall i :: 0 <= i < |bones| ==> cmds[i] == Line(pointMap[bones[i].0], pointMap[bones[i].1]))
      && (forall k :: 0 <= k < |kps| ==>
            cmds[|bones| + k] == Circle(pointMap[kps[k].bodyPart],
              if IsErrorJoint(errors, kps[k].bodyPart) then ErrorColor else NormalColor))
  {
    var bones := DrawnBones(pointMap, table);
    var lines := BoneLines(pointMap, table);
    var circles := JointCircles(kps, pointMap, errors);
    assert forall i :: 0 <= i < |bones| ==> lines[i] == Line(pointMap[bones[i].0], pointMap[bones[i].1]);
    assert |circles| == |kps| && forall k :: 0 <= k < |kps| ==>
      circles[k] == Circle(pointMap[kps[k].bodyPart],
        if IsErrorJoint(errors, kps[k].bodyPart) then ErrorColor else NormalColor) by {
      JointCirclesAt(kps, pointMap, errors);
    }
    AppendParts(lines, circles);
  }

  /** The first part of a concatenation, then the second. */
  lemma AppendParts(a: seq<DrawCommand>, b: seq<DrawCommand>)
    ensures |a + b| == |a| + |b|
    ensures forall i :: 0 <= i < |a| ==> (a + b)[i] == a[i]
    ensures forall k :: 0 <= k < |b| ==> (a + b)[|a| + k] == b[k]
  {
  }

  /** Without an error list every drawn joint has the normal colour. */
  lemma {:induction false} NoErrorsAllNormal(kps: seq<KeyPoint>, pointMap: map<BodyPart, Point>)
    ensures forall c :: c in JointCircles(kps, pointMap, None) ==> c.Circle? && c.color == NormalColor
  {
    if kps != [] {
      NoErrorsAllNormal(kps[1..], pointMap);
    }
  }
}
