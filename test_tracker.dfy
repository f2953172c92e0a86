/**
 * The test extractor's frame loop: a user video first matches the person nearest the centre of a
 * region the operator draws, falling back for good to the largest person when that finds nobody;
 * tracking then follows the id, and when the id is gone hands over to the overall nearest box if it
 * is within 20% of the width, adopting its id unless the box has none. The drawn region is an
 * input; the window, inference and files are not modelled.
 */
module TestTracker {
  import opened Wrappers
  import opened PoseTypes

  /** One frame's people; `ids` is `None` when the detector ran without tracking. */
  datatype Detections = Detections(ids: Option<seq<nat>>, boxes: seq<Box>, keypoints: seq<seq<Keypoint>>)

  predicate WellFormed(d: Detections) {
    && (d.ids.Some? ==> |d.ids.value| == |d.boxes|)
    && |d.keypoints| == |d.boxes|
    && forall i :: 0 <= i < |d.keypoints| ==> |d.keypoints[i]| == CocoKeypoints
  }

  predicate AllWellFormed(frames: seq<Option<Detections>>) {
    forall i :: 0 <= i < |frames| ==> frames[i].Some? ==> WellFormed(frames[i].value)
  }

  /** The ids of a frame as the loop sees them: missing ids become a list of `None`. */
  function TrackIds(d: Detections): (ids: seq<Option<nat>>)
    requires WellFormed(d)
    ensures |ids| == |d.boxes|
    ensures d.ids.None? ==> forall i :: 0 <= i < |ids| ==> ids[i].None?
    ensures d.ids.Some? ==> forall i :: 0 <= i < |ids| ==> ids[i] == Some(d.ids.value[i])
  {
    if d.ids.Some? then seq(|d.boxes|, i requires 0 <= i < |d.boxes| => Some(d.ids.value[i]))
    else seq(|d.boxes|, _ => None)
  }

  /** A region drawn by the operator: top-left corner, width and height. */
  datatype Roi = Roi(x: real, y: real, w: real, h: real)

  /** The loop's state across frames. */
  datatype Tracker = Tracker(target: Option<nat>, lastCenter: Option<(real, real)>, trackingStarted: bool, isUserVideo: bool)

  /** Handover radius as a fraction of the frame width. */
  const ReidFraction := 0.20

  function Center(b: Box): (real, real) {
    (b.cx, b.cy)
  }

  /**
   * The initial selection, run only before tracking starts and while no target is set: the
   * region's nearest box for a user video (any distance), else or on failure the largest box.
   */
  function Select(t: Tracker, d: Detections, roi: Roi): (r: Tracker)
    requires WellFormed(d)
    ensures t.trackingStarted ==> r.trackingStarted
    ensures !t.isUserVideo ==> !r.isUserVideo
    ensures t.trackingStarted || t.target.Some? ==> r == t
  {
    if t.trackingStarted || t.target.Some? then t
    else
      var ids := TrackIds(d);
      var afterRoi :=
        if t.isUserVideo then
          var m := Nearest(d.boxes, roi.x + roi.w / 2.0, roi.y + roi.h / 2.0, None);
          if m != -1 then Tracker(ids[m], Some(Center(d.boxes[m])), true, true)
          else t.(isUserVideo := false)
        else t;
      if afterRoi.trackingStarted then afterRoi
      else
        var best := Largest(d.boxes);
        if best != -1 then afterRoi.(target := ids[best], lastCenter := Some(Center(d.boxes[best])), trackingStarted := true)
        else afterRoi
  }

  /** The hybrid match: the target's id if present, else the nearest box when within the radius. */
  function Match(t: Tracker, d: Detections, width: nat): (r: (int, Tracker))
    requires WellFormed(d)
    ensures -1 <= r.0 < |d.boxes|
    ensures r.1.trackingStarted == t.trackingStarted && r.1.isUserVideo == t.isUserVideo
    ensures r.1.lastCenter == t.lastCenter
  {
    var ids := TrackIds(d);
    if !(t.trackingStarted && t.lastCenter.Some?) then (-1, t)
    else if t.target.Some? && t.target in ids then (IndexOf(ids, t.target), t)
    else
      var (cx, cy) := t.lastCenter.value;
      var nearest := Nearest(d.boxes, cx, cy, None);
      if nearest != -1 && InRadius(SqDist(d.boxes[nearest], cx, cy), Some(ReidFraction * width as real)) then
        (nearest, if ids[nearest].Some? then t.(target := ids[nearest]) else t)
      else (-1, t)
  }

  /** One frame: selection, matching, and the matched person's keypoints. */
  function Step(t: Tracker, frame: Option<Detections>, roi: Roi, width: nat, height: nat): (r: (Tracker, Option<seq<Keypoint>>))
    requires frame.Some? ==> WellFormed(frame.value)
    ensures t.trackingStarted ==> r.0.trackingStarted
    ensures !t.isUserVideo ==> !r.0.isUserVideo
    ensures r.1.Some? ==> |r.1.value| == CocoKeypoints + 1 && r.0.trackingStarted
  {
    if frame.None? then (t, None)
    else
      var d := frame.value;
      var selected := Select(t, d, roi);
      var (m, matched) := Match(selected, d, width);
      if m == -1 then (matched, None)
      else (matched.(lastCenter := Some(Center(d.boxes[m]))),
            Some(NormalizedWithNeck(d.keypoints[m], width as real, height as real)))
  }

  /**
   * A user video whose first frame has people matches the one nearest the region's centre,
   * however far, and starts tracking it; a first frame with nobody turns region mode off for good
   * and leaves the largest-box rule for later frames.
   */
  lemma RegionSelection(t: Tracker, d: Detections, roi: Roi)
    requires WellFormed(d) && !t.trackingStarted && t.target.None? && t.isUserVideo
    ensures var r := Select(t, d, roi);
      var m := Nearest(d.boxes, roi.x + roi.w / 2.0, roi.y + roi.h / 2.0, None);
      && (|d.boxes| > 0 ==> m != -1 && r == Tracker(TrackIds(d)[m], Some(Center(d.boxes[m])), true, true))
      && (|d.boxes| == 0 ==> r == t.(isUserVideo := false))
  {
    NearestIsFirstNearest(d.boxes, roi.x + roi.w / 2.0, roi.y + roi.h / 2.0, None);
  }

  /**
   * Outside region mode, selection takes the largest box, adopting its id (which is `None` when
   * the detector gave no ids) and its centre.
   */
  lemma LargestSelection(t: Tracker, d: Detections, roi: Roi)
    requires WellFormed(d) && !t.trackingStarted && t.target.None? && !t.isUserVideo
    ensures var r := Select(t, d, roi);
      var best := Largest(d.boxes);
      && (best != -1 ==> r == t.(target := TrackIds(d)[best], lastCenter := Some(Center(d.boxes[best])), trackingStarted := true))
      && (best == -1 ==> r == t)
  {
  }

  /**
   * Once the id is gone, the handover takes the nearest box overall and keeps it only within 20%
   * of the width: the same box a scan restricted to that radius finds. The target changes only to
   * a real id.
   */
  lemma HandoverIsNearestWithin(t: Tracker, d: Detections, width: nat)
    requires WellFormed(d) && t.trackingStarted && t.lastCenter.Some?
    requires !(t.target.Some? && t.target in TrackIds(d))
    ensures var (cx, cy) := t.lastCenter.value;
      var r := Match(t, d, width);
      && r.0 == Nearest(d.boxes, cx, cy, Some(ReidFraction * width as real))
      && (r.0 != -1 && TrackIds(d)[r.0].Some? ==> r.1.target == TrackIds(d)[r.0])
      && (r.0 == -1 || TrackIds(d)[r.0].None? ==> r.1.target == t.target)
  {
    var (cx, cy) := t.lastCenter.value;
    NearestThenTest(d.boxes, cx, cy, ReidFraction * width as real);
  }

  /** A present id is matched by id, never by distance, and the target is kept. */
  lemma IdMatchFirst(t: Tracker, d: Detections, width: nat)
    requires WellFormed(d) && t.trackingStarted && t.lastCenter.Some?
    requires t.target.Some? && t.target in TrackIds(d)
    ensures Match(t, d, width) == (IndexOf(TrackIds(d), t.target), t)
  {
  }

  function RecordsAfter(frames: seq<Option<Detections>>, i: nat, t: Tracker, acc: seq<FrameRecord>,
                        roi: Roi, width: nat, height: nat, fps: real): (r: (seq<FrameRecord>, Tracker))
    requires i <= |frames| && AllWellFormed(frames)
    decreases |frames| - i
  {
    if i == |frames| then (acc, t)
    else
      var (t', kps) := Step(t, frames[i], roi, width, height);
      RecordsAfter(frames, i + 1, t', acc + [Record(i, fps, kps)], roi, width, height, fps)
  }

  function Run(frames: seq<Option<Detections>>, isUserVideo: bool, roi: Roi, width: nat, height: nat, fps: real)
    : (seq<FrameRecord>, Tracker)
    requires AllWellFormed(frames)
  {
    RecordsAfter(frames, 0, Tracker(None, None, false, isUserVideo), [], roi, width, height, fps)
  }

  lemma {:induction false} StartedStays(frames: seq<Option<Detections>>, i: nat, t: Tracker, acc: seq<FrameRecord>,
                                        roi: Roi, width: nat, height: nat, fps: real)
    requires i <= |frames| && AllWellFormed(frames)
    ensures var r := RecordsAfter(frames, i, t, acc, roi, width, height, fps);
      && (t.trackingStarted ==> r.1.trackingStarted)
      && (!t.isUserVideo ==> !r.1.isUserVideo)
      && |r.0| == |acc| + |frames| - i
    decreases |frames| - i
  {
    if i < |frames| {
      var (t', kps) := Step(t, frames[i], roi, width, height);
      StartedStays(frames, i + 1, t', acc + [Record(i, fps, kps)], roi, width, height, fps);
    }
  }

  /**
   * Over a whole video: one record per frame, and a started track or a dropped region mode never
   * comes back.
   */
  lemma NeverReverts(frames: seq<Option<Detections>>, i: nat, t: Tracker, roi: Roi, width: nat, height: nat, fps: real)
    requires i <= |frames| && AllWellFormed(frames)
    ensures var r := RecordsAfter(frames, i, t, [], roi, width, height, fps);
      && |r.0| == |frames| - i
      && (t.trackingStarted ==> r.1.trackingStarted)
      && (!t.isUserVideo ==> !r.1.isUserVideo)
  {
    StartedStays(frames, i, t, [], roi, width, height, fps);
  }

  /** The selection half of the loop body. */
  method SelectFrame(t: Tracker, d: Detections, roi: Roi) returns (r: Tracker)
    requires WellFormed(d)
    ensures r == Select(t, d, roi)
  {
    r := t;
    if t.trackingStarted || t.target.Some? {
      return;
    }
    var ids := TrackIds(d);
    if t.isUserVideo {
      var m := SelectNearest(d.boxes, roi.x + roi.w / 2.0, roi.y + roi.h / 2.0, None);
      if m != -1 {
        r := Tracker(ids[m], Some(Center(d.boxes[m])), true, true);
        return;
      }
      r := t.(isUserVideo := false);
    }
    var best := SelectLargest(d.boxes);
    if best != -1 {
      r := r.(target := ids[best], lastCenter := Some(Center(d.boxes[best])), trackingStarted := true);
    }
  }

  /** The matching half of the loop body. */
  method MatchFrame(t: Tracker, d: Detections, width: nat) returns (m: int, r: Tracker)
    requires WellFormed(d)
    ensures (m, r) == Match(t, d, width)
  {
    var ids := TrackIds(d);
    m, r := -1, t;
    if !(t.trackingStarted && t.lastCenter.Some?) {
      return;
    }
    if t.target.Some? && t.target in ids {
      m := IndexOf(ids, t.target);
      return;
    }
    var (cx, cy) := t.lastCenter.value;
    var nearest := SelectNearest(d.boxes, cx, cy, None);
    var limit := ReidFraction * width as real;
    if nearest != -1 && InRadius(SqDist(d.boxes[nearest], cx, cy), Some(limit)) {
      m := nearest;
      if ids[nearest].Some? {
        r := t.(target := ids[nearest]);
      }
    }
  }

  /** The loop body on a frame with detections. */
  method TrackFrame(t: Tracker, d: Detections, roi: Roi, width: nat, height: nat)
    returns (t': Tracker, kps: Option<seq<Keypoint>>)
    requires WellFormed(d)
    ensures (t', kps) == Step(t, Some(d), roi, width, height)
  {
    var selected := SelectFrame(t, d, roi);
    var m, matched := MatchFrame(selected, d, width);
    if m != -1 {
      var normalized := NormalizeKeypoints(d.keypoints[m], width as real, height as real);
      t', kps := matched.(lastCenter := Some(Center(d.boxes[m]))), Some(normalized);
    } else {
      t', kps := matched, None;
    }
  }

  /** `process_video` of the test extractor. */
  method ProcessVideo(frames: seq<Option<Detections>>, isUserVideo: bool, roi: Roi, width: nat, height: nat, fps: real)
    returns (records: seq<FrameRecord>, tracker: Tracker)
    requires AllWellFormed(frames)
    ensures (records, tracker) == Run(frames, isUserVideo, roi, width, height, fps)
  {
    records := [];
    tracker := Tracker(None, None, false, isUserVideo);
    var count := 0;
    while count < |frames|
      invariant 0 <= count <= |frames|
      invariant RecordsAfter(frames, count, tracker, records, roi, width, height, fps)
        == Run(frames, isUserVideo, roi, width, height, fps)
    {
      var kps: Option<seq<Keypoint>> := None;
      if frames[count].Some? {
        tracker, kps := TrackFrame(tracker, frames[count].value, roi, width, height);
      }
      records := records + [Record(count, fps, kps)];
      count := count + 1;
    }
  }
}
