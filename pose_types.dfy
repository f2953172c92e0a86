/**
 * What the three pose-extraction scripts share: a detector's boxes (centre, width, height) and
 * keypoints, the two scans that pick a person from a frame (largest box; nearest centre, optionally
 * within a radius), keypoint normalisation with the added neck point, and the per-frame record.
 * Distances are compared squared: both sides are non-negative, so `sqrt(d) < r` is `d < r * r`
 * for `r >= 0`, and `sqrt(d1) < sqrt(d2)` is `d1 < d2`.
 */
module PoseTypes {
  import opened Wrappers

  /** A detection box in pixels: centre, width and height (`xywh`). */
  datatype Box = Box(cx: real, cy: real, w: real, h: real)

  /** A keypoint: position and confidence. */
  datatype Keypoint = Keypoint(x: real, y: real, conf: real)

  /** The detector's COCO keypoints per person; the neck is added after them. */
  const CocoKeypoints := 17
  const LeftShoulder := 5
  const RightShoulder := 6

  /** One entry of the output JSON's `frames` list. */
  datatype FrameRecord = FrameRecord(frameIndex: nat, timestamp: real, isValid: bool, keypoints: seq<Keypoint>)

  function Area(b: Box): real {
    b.w * b.h
  }

  /** The squared distance from a box's centre to `(x, y)`. */
  function SqDist(b: Box, x: real, y: real): (d: real)
    ensures d >= 0.0
  {
    (b.cx - x) * (b.cx - x) + (b.cy - y) * (b.cy - y)
  }

  /** `frame_index / fps`, or 0 for a stream without a frame rate. */
  // ---------------------------------------------------------------- decimal rounding

  /** Decimal places kept by `:.5f` (coordinates) and `:.4f` (confidences and timestamps), as powers of ten. */
  const CoordScale: nat := 100000
  const ConfScale: nat := 10000

  /**
   * The whole number of units of `1 / scale` nearest to `v`, a tie going to the even one: how
   * Python's `f"{v:.Nf}"` rounds the exact value of a float.
   */
  function RoundedUnits(v: real, scale: nat): (n: int)
    requires scale > 0
    ensures -0.5 <= n as real - v * scale as real <= 0.5
    ensures n as real - v * scale as real == 0.5 || n as real - v * scale as real == -0.5 ==> n % 2 == 0
  {
    var q := v * scale as real;
    var f := q.Floor;
    var frac := q - f as real;
    if frac > 0.5 then f + 1
    else if frac < 0.5 then f
    else if f % 2 == 0 then f else f + 1
  }

  /** `float(f"{v:.Nf}")` with `scale == 10^N`: `v` rounded to `N` decimals. */
  function Round(v: real, scale: nat): (r: real)
    requires scale > 0
    ensures r * scale as real == RoundedUnits(v, scale) as real
    ensures -0.5 <= (r - v) * scale as real <= 0.5
  {
    RoundedUnits(v, scale) as real / scale as real
  }

  /** A rounded value is positive exactly when `v` is more than half a unit: `:.4f` turns 0.00005 and less into 0. */
  lemma RoundPositive(v: real, scale: nat)
    requires scale > 0
    ensures Round(v, scale) > 0.0 <==> v * scale as real > 0.5
    ensures Round(v, scale) > 0.0 ==> Round(v, scale) * scale as real >= 1.0
  {
  }

  /** Rounding keeps a value of the unit interval inside it. */
  lemma RoundInUnit(v: real, scale: nat)
    requires scale > 0 && 0.0 <= v <= 1.0
    ensures 0.0 <= Round(v, scale) <= 1.0
  {
    var n := RoundedUnits(v, scale);
    var s := scale as real;
    var q := v * s;
    assert (1.0 - v) * s >= 0.0;
    assert s - q == (1.0 - v) * s;
    assert n as real <= s + 0.5;
    assert 0 <= n <= scale;
    UnitFraction(n as real, s);
  }

  /** The timestamp of a frame, in seconds to four decimals; 0 when the frame rate is unknown. */
  function Timestamp(frameIndex: nat, fps: real): (t: real)
    ensures fps > 0.0 ==> -0.5 <= (t - frameIndex as real / fps) * ConfScale as real <= 0.5
    ensures fps <= 0.0 ==> t == 0.0
  {
    if fps > 0.0 then Round(frameIndex as real / fps, ConfScale) else Round(0.0, ConfScale)
  }

  // ---------------------------------------------------------------- the largest box

  /** The largest-area scan from index `n` on, with the best index and area found so far (-1, 0 to start). */
  function LargestAfter(boxes: seq<Box>, n: nat, best: int, maxArea: real): (i: int)
    requires n <= |boxes| && -1 <= best < |boxes|
    ensures -1 <= i < |boxes|
    decreases |boxes| - n
  {
    if n == |boxes| then best
    else if Area(boxes[n]) > maxArea then LargestAfter(boxes, n + 1, n, Area(boxes[n]))
    else LargestAfter(boxes, n + 1, best, maxArea)
  }

  /** The index the largest-box scan settles on, or -1. */
  function Largest(boxes: seq<Box>): (i: int)
    ensures -1 <= i < |boxes|
  {
    LargestAfter(boxes, 0, -1, 0.0)
  }

  /** `i` holds the largest positive area, and every earlier box is strictly smaller. */
  ghost predicate IsFirstLargest(boxes: seq<Box>, i: int) {
    && 0 <= i < |boxes|
    && Area(boxes[i]) > 0.0
    && (forall j :: 0 <= j < |boxes| ==> Area(boxes[j]) <= Area(boxes[i]))
    && (forall j :: 0 <= j < i ==> Area(boxes[j]) < Area(boxes[i]))
  }

  /** The scan's state describes the prefix it has seen. */
  ghost predicate LargestSoFar(boxes: seq<Box>, n: nat, best: int, maxArea: real)
    requires n <= |boxes|
  {
    && (best == -1 ==> maxArea == 0.0 && forall j :: 0 <= j < n ==> Area(boxes[j]) <= 0.0)
    && (best != -1 ==>
          && 0 <= best < n && maxArea == Area(boxes[best]) && maxArea > 0.0
          && (forall j :: 0 <= j < n ==> Area(boxes[j]) <= maxArea)
          && (forall j :: 0 <= j < best ==> Area(boxes[j]) < maxArea))
  }

  lemma {:induction false} LargestAfterSpec(boxes: seq<Box>, n: nat, best: int, maxArea: real)
    requires n <= |boxes| && LargestSoFar(boxes, n, best, maxArea)
    ensures var i := LargestAfter(boxes, n, best, maxArea);
      && (i == -1 <==> forall j :: 0 <= j < |boxes| ==> Area(boxes[j]) <= 0.0)
      && (i != -1 ==> IsFirstLargest(boxes, i))
    decreases |boxes| - n
  {
    if n < |boxes| {
      if Area(boxes[n]) > maxArea {
        LargestAfterSpec(boxes, n + 1, n, Area(boxes[n]));
      } else {
        LargestAfterSpec(boxes, n + 1, best, maxArea);
      }
    }
  }

  /**
   * The scan finds the first box of largest positive area, and nothing exactly when no box has a
   * positive area.
   */
  lemma LargestIsFirstLargest(boxes: seq<Box>)
    ensures var i := Largest(boxes);
      && (i == -1 <==> forall j :: 0 <= j < |boxes| ==> Area(boxes[j]) <= 0.0)
      && (i != -1 ==> IsFirstLargest(boxes, i))
  {
    LargestAfterSpec(boxes, 0, -1, 0.0);
  }

  /** The `max_area` loop of the initial target selection. */
  method SelectLargest(boxes: seq<Box>) returns (best: int)
    ensures best == Largest(boxes)
    ensures best == -1 <==> forall j :: 0 <= j < |boxes| ==> Area(boxes[j]) <= 0.0
    ensures best != -1 ==> IsFirstLargest(boxes, best)
  {
    var maxArea := 0.0;
    best := -1;
    var n := 0;
    ghost var goal := Largest(boxes);
    while n < |boxes|
      invariant 0 <= n <= |boxes|
      invariant -1 <= best < n
      invariant LargestAfter(boxes, n, best, maxArea) == goal
    {
      var area := boxes[n].w * boxes[n].h;
      if area > maxArea {
        maxArea := area;
        best := n;
      }
      n := n + 1;
    }
    LargestIsFirstLargest(boxes);
  }

  // ---------------------------------------------------------------- the nearest box

  /** Whether a box at squared distance `d` passes the radius test (`None`: no limit). */
  predicate InRadius(d: real, radius: Option<real>) {
    radius.None? || d < radius.value * radius.value
  }

  /**
   * The nearest-centre scan from index `n` on: a box is taken when it is within the radius and
   * strictly nearer than the best so far (none yet when `best` is -1).
   */
  function NearestAfter(boxes: seq<Box>, x: real, y: real, radius: Option<real>, n: nat, best: int, minSq: real): (i: int)
    requires n <= |boxes| && -1 <= best < |boxes|
    ensures -1 <= i < |boxes|
    decreases |boxes| - n
  {
    if n == |boxes| then best
    else
      var d := SqDist(boxes[n], x, y);
      if InRadius(d, radius) && (best == -1 || d < minSq) then NearestAfter(boxes, x, y, radius, n + 1, n, d)
      else NearestAfter(boxes, x, y, radius, n + 1, best, minSq)
  }

  /** The index the nearest-centre scan settles on, or -1. */
  function Nearest(boxes: seq<Box>, x: real, y: real, radius: Option<real>): (i: int)
    ensures -1 <= i < |boxes|
  {
    NearestAfter(boxes, x, y, radius, 0, -1, 0.0)
  }

  /** `i` is within the radius, no box is nearer, and every earlier box is strictly farther. */
  ghost predicate IsFirstNearest(boxes: seq<Box>, x: real, y: real, radius: Option<real>, i: int) {
    && 0 <= i < |boxes|
    && InRadius(SqDist(boxes[i], x, y), radius)
    && (forall j :: 0 <= j < |boxes| ==> SqDist(boxes[j], x, y) >= SqDist(boxes[i], x, y))
    && (forall j :: 0 <= j < i ==> SqDist(boxes[j], x, y) > SqDist(boxes[i], x, y))
  }

  ghost predicate NearestSoFar(boxes: seq<Box>, x: real, y: real, radius: Option<real>, n: nat, best: int, minSq: real)
    requires n <= |boxes|
  {
    && (best == -1 ==> forall j :: 0 <= j < n ==> !InRadius(SqDist(boxes[j], x, y), radius))
    && (best != -1 ==>
          && 0 <= best < n && minSq == SqDist(boxes[best], x, y) && InRadius(minSq, radius)
          && (forall j :: 0 <= j < n ==> SqDist(boxes[j], x, y) >= minSq)
          && (forall j :: 0 <= j < best ==> SqDist(boxes[j], x, y) > minSq))
  }

  lemma {:induction false} NearestAfterSpec(boxes: seq<Box>, x: real, y: real, radius: Option<real>,
                                            n: nat, best: int, minSq: real)
    requires n <= |boxes| && NearestSoFar(boxes, x, y, radius, n, best, minSq)
    requires radius.Some? ==> radius.value >= 0.0
    ensures var i := NearestAfter(boxes, x, y, radius, n, best, minSq);
      && (i == -1 <==> forall j :: 0 <= j < |boxes| ==> !InRadius(SqDist(boxes[j], x, y), radius))
      && (i != -1 ==> IsFirstNearest(boxes, x, y, radius, i))
    decreases |boxes| - n
  {
    if n < |boxes| {
      var d := SqDist(boxes[n], x, y);
      if InRadius(d, radius) && (best == -1 || d < minSq) {
        NearestAfterSpec(boxes, x, y, radius, n + 1, n, d);
      } else {
        NearestAfterSpec(boxes, x, y, radius, n + 1, best, minSq);
      }
    }
  }

  /**
   * The scan finds the first of the nearest boxes within the radius, and nothing exactly when no
   * box is within it.
   */
  lemma NearestIsFirstNearest(boxes: seq<Box>, x: real, y: real, radius: Option<real>)
    requires radius.Some? ==> radius.value >= 0.0
    ensures var i := Nearest(boxes, x, y, radius);
      && (i == -1 <==> forall j :: 0 <= j < |boxes| ==> !InRadius(SqDist(boxes[j], x, y), radius))
      && (i != -1 ==> IsFirstNearest(boxes, x, y, radius, i))
  {
    NearestAfterSpec(boxes, x, y, radius, 0, -1, 0.0);
  }

  /**
   * Taking the nearest box overall and then testing it against the radius picks the same box as
   * scanning only the boxes within the radius.
   */
  lemma NearestThenTest(boxes: seq<Box>, x: real, y: real, r: real)
    requires r >= 0.0
    ensures var i := Nearest(boxes, x, y, None);
      (if i != -1 && InRadius(SqDist(boxes[i], x, y), Some(r)) then i else -1) == Nearest(boxes, x, y, Some(r))
  {
    NearestIsFirstNearest(boxes, x, y, None);
    NearestIsFirstNearest(boxes, x, y, Some(r));
    var i, k := Nearest(boxes, x, y, None), Nearest(boxes, x, y, Some(r));
    if k != -1 {
      assert i != -1;
    }
  }

  /** The nearest-centre loop of a re-identification. */
  method SelectNearest(boxes: seq<Box>, x: real, y: real, radius: Option<real>) returns (best: int)
    requires radius.Some? ==> radius.value >= 0.0
    ensures best == Nearest(boxes, x, y, radius)
    ensures best == -1 <==> forall j :: 0 <= j < |boxes| ==> !InRadius(SqDist(boxes[j], x, y), radius)
    ensures best != -1 ==> IsFirstNearest(boxes, x, y, radius, best)
  {
    var minSq := 0.0;
    best := -1;
    var n := 0;
    ghost var goal := Nearest(boxes, x, y, radius);
    while n < |boxes|
      invariant 0 <= n <= |boxes|
      invariant -1 <= best < n
      invariant NearestAfter(boxes, x, y, radius, n, best, minSq) == goal
    {
      var d := (boxes[n].cx - x) * (boxes[n].cx - x) + (boxes[n].cy - y) * (boxes[n].cy - y);
      if InRadius(d, radius) && (best == -1 || d < minSq) {
        minSq := d;
        best := n;
      }
      n := n + 1;
    }
    NearestIsFirstNearest(boxes, x, y, radius);
  }

  // ---------------------------------------------------------------- keypoints

  /**
   * One keypoint divided by the frame's longer side (a degenerate frame gives 0), the coordinates
   * rounded to five decimals and the confidence to four.
   */
  function Normalize(kp: Keypoint, maxDim: real): (r: Keypoint)
    ensures -0.5 <= (r.conf - kp.conf) * ConfScale as real <= 0.5
    ensures r.conf > 0.0 <==> kp.conf * ConfScale as real > 0.5
    ensures r.conf > 0.0 ==> r.conf * ConfScale as real >= 1.0
    ensures maxDim > 0.0 ==> -0.5 <= (r.x - kp.x / maxDim) * CoordScale as real <= 0.5
    ensures maxDim > 0.0 ==> -0.5 <= (r.y - kp.y / maxDim) * CoordScale as real <= 0.5
    ensures maxDim <= 0.0 ==> r.x == 0.0 && r.y == 0.0
  {
    RoundPositive(kp.conf, ConfScale);
    var nx := if maxDim > 0.0 then kp.x / maxDim else 0.0;
    var ny := if maxDim > 0.0 then kp.y / maxDim else 0.0;
    Keypoint(Round(nx, CoordScale), Round(ny, CoordScale), Round(kp.conf, ConfScale))
  }

  lemma UnitFraction(a: real, m: real)
    requires m > 0.0 && 0.0 <= a <= m
    ensures 0.0 <= a / m <= 1.0
  {
    var q := a / m;
    assert q * m == a;
  }

  /** A point inside the frame normalises into the unit square. */
  lemma NormalizeInUnitSquare(kp: Keypoint, width: real, height: real)
    requires width > 0.0 && height > 0.0
    requires 0.0 <= kp.x <= width && 0.0 <= kp.y <= height
    ensures var r := Normalize(kp, if width >= height then width else height);
      0.0 <= r.x <= 1.0 && 0.0 <= r.y <= 1.0
  {
    var maxDim := if width >= height then width else height;
    UnitFraction(kp.x, maxDim);
    UnitFraction(kp.y, maxDim);
    RoundInUnit(kp.x / maxDim, CoordScale);
    RoundInUnit(kp.y / maxDim, CoordScale);
  }

  /**
   * The neck: the shoulders' midpoint and mean confidence, rounded like every other point, when
   * both confidences are positive; else all zero.
   */
  function Neck(left: Keypoint, right: Keypoint): (n: Keypoint)
    ensures left.conf > 0.0 && right.conf > 0.0 ==>
      && -0.5 <= (n.x - (left.x + right.x) / 2.0) * CoordScale as real <= 0.5
      && -0.5 <= (n.y - (left.y + right.y) / 2.0) * CoordScale as real <= 0.5
      && -0.5 <= (n.conf - (left.conf + right.conf) / 2.0) * ConfScale as real <= 0.5
    ensures !(left.conf > 0.0 && right.conf > 0.0) ==> n == Keypoint(0.0, 0.0, 0.0)
  {
    if left.conf > 0.0 && right.conf > 0.0 then
      Keypoint(Round((left.x + right.x) / 2.0, CoordScale), Round((left.y + right.y) / 2.0, CoordScale),
               Round((left.conf + right.conf) / 2.0, ConfScale))
    else
      var zero := Round(0.0, ConfScale);
      Keypoint(zero, zero, zero)
  }

  /** The normalised keypoints of one person with the neck appended. */
  function NormalizedWithNeck(kps: seq<Keypoint>, width: real, height: real): (r: seq<Keypoint>)
    requires |kps| > RightShoulder
    ensures |r| == |kps| + 1
    ensures forall i :: 0 <= i < |kps| ==> r[i] == Normalize(kps[i], if width >= height then width else height)
    ensures r[|kps|] == Neck(r[LeftShoulder], r[RightShoulder])
  {
    var maxDim := if width >= height then width else height;
    var normalized := seq(|kps|, i requires 0 <= i < |kps| => Normalize(kps[i], maxDim));
    normalized + [Neck(normalized[LeftShoulder], normalized[RightShoulder])]
  }

  /**
   * The neck test reads the rounded confidences: the neck is seen (positive confidence) exactly
   * when both raw shoulder confidences exceed 0.00005, and is all zero otherwise.
   */
  lemma NeckThreshold(kps: seq<Keypoint>, width: real, height: real)
    requires |kps| > RightShoulder
    ensures var n := NormalizedWithNeck(kps, width, height)[|kps|];
      var seen := kps[LeftShoulder].conf * ConfScale as real > 0.5 && kps[RightShoulder].conf * ConfScale as real > 0.5;
      (n.conf > 0.0 <==> seen) && (!seen ==> n == Keypoint(0.0, 0.0, 0.0))
  {
    var r := NormalizedWithNeck(kps, width, height);
    var maxDim := if width >= height then width else height;
    var left, right := r[LeftShoulder], r[RightShoulder];
    ShoulderSeen(kps[LeftShoulder], maxDim, left);
    ShoulderSeen(kps[RightShoulder], maxDim, right);
    NeckOfRounded(left, right);
  }

  /** A normalised shoulder is seen exactly when its raw confidence exceeds half a unit, and then by at least one unit. */
  lemma ShoulderSeen(kp: Keypoint, maxDim: real, n: Keypoint)
    requires n == Normalize(kp, maxDim)
    ensures n.conf > 0.0 <==> kp.conf * ConfScale as real > 0.5
    ensures n.conf > 0.0 ==> n.conf * ConfScale as real >= 1.0
  {
  }

  /** Two confidences of at least one unit each give a neck confidence that stays positive after rounding. */
  lemma NeckOfRounded(left: Keypoint, right: Keypoint)
    requires left.conf > 0.0 ==> left.conf * ConfScale as real >= 1.0
    requires right.conf > 0.0 ==> right.conf * ConfScale as real >= 1.0
    ensures Neck(left, right).conf > 0.0 <==> left.conf > 0.0 && right.conf > 0.0
  {
  }

  /** The normalisation loop and the neck, as the scripts write them. */
  method NormalizeKeypoints(kps: seq<Keypoint>, width: real, height: real) returns (r: seq<Keypoint>)
    requires |kps| > RightShoulder
    ensures r == NormalizedWithNeck(kps, width, height)
  {
    var maxDim := if width >= height then width else height;
    r := [];
    for i := 0 to |kps|
      invariant |r| == i
      invariant forall k :: 0 <= k < i ==> r[k] == Normalize(kps[k], maxDim)
    {
      var kp := kps[i];
      var nx := if maxDim > 0.0 then kp.x / maxDim else 0.0;
      var ny := if maxDim > 0.0 then kp.y / maxDim else 0.0;
      r := r + [Keypoint(Round(nx, CoordScale), Round(ny, CoordScale), Round(kp.conf, ConfScale))];
    }
    r := r + [Neck(r[LeftShoulder], r[RightShoulder])];
  }

  /** The record of a frame with its person's keypoints, or an invalid one with none. */
  function Record(frameIndex: nat, fps: real, kps: Option<seq<Keypoint>>): FrameRecord {
    if kps.Some? then FrameRecord(frameIndex, Timestamp(frameIndex, fps), true, kps.value)
    else FrameRecord(frameIndex, Timestamp(frameIndex, fps), false, [])
  }

  /** `list.index(id)`: the first position holding `id`. */
  function IndexOf<T(==)>(ids: seq<T>, id: T): (i: nat)
    requires id in ids
    ensures i < |ids| && ids[i] == id && id !in ids[..i]
  {
    if ids[0] == id then 0
    else
      assert ids[1..][..|ids| - 1] == ids[1..];
      var j := IndexOf(ids[1..], id);
      assert ids[..j + 1] == [ids[0]] + ids[1..][..j];
      j + 1
  }
}
