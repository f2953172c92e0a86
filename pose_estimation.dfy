/**
 * The production pose extractor's frame loop: pick the largest person once, follow that track id,
 * re-identify by the nearest centre within 15% of the frame width when the id disappears, and
 * write one record per decoded frame. The detector's output for each frame is an input; decoding,
 * inference, rounding of the written numbers and the JSON file are not modelled.
 */
module PoseEstimation {
  import opened Wrappers
  import opened PoseTypes

  /** One frame's tracked people: track ids, boxes and keypoints, index for index. */
  datatype Detections = Detections(ids: seq<nat>, boxes: seq<Box>, keypoints: seq<seq<Keypoint>>)

  /** The detector's output has one box and one set of 17 keypoints per track id. */
  predicate WellFormed(d: Detections) {
    && |d.ids| == |d.boxes| == |d.keypoints|
    && forall i :: 0 <= i < |d.keypoints| ==> |d.keypoints[i]| == CocoKeypoints
  }

  /** A frame is `None` when the tracker gave no boxes, no ids or no keypoints. */
  predicate AllWellFormed(frames: seq<Option<Detections>>) {
    forall i :: 0 <= i < |frames| ==> frames[i].Some? ==> WellFormed(frames[i].value)
  }

  /** What the loop carries from frame to frame. */
  datatype Tracker = Tracker(target: Option<nat>, lastCenter: Option<(real, real)>)

  const InitialTracker := Tracker(None, None)

  /** The re-identification radius as a fraction of the frame width. */
  const ReidFraction := 0.15

  /** The target after the selection step: kept if set, else the largest person's id when there is one. */
  function SelectTarget(target: Option<nat>, d: Detections): (r: Option<nat>)
    requires |d.ids| == |d.boxes|
    ensures target.Some? ==> r == target
    ensures target.None? && Largest(d.boxes) != -1 ==> r == Some(d.ids[Largest(d.boxes)])
    ensures target.None? && Largest(d.boxes) == -1 ==> r == None
  {
    if target.Some? then target
    else
      var best := Largest(d.boxes);
      if best != -1 then Some(d.ids[best]) else None
  }

  /** The matched index (-1 for none) and the target after matching. */
  function Match(target: Option<nat>, lastCenter: Option<(real, real)>, d: Detections, width: nat): (r: (int, Option<nat>))
    requires |d.ids| == |d.boxes|
    ensures -1 <= r.0 < |d.ids|
  {
    if target.Some? && target.value in d.ids then (IndexOf(d.ids, target.value), target)
    else if lastCenter.Some? then
      var m := Nearest(d.boxes, lastCenter.value.0, lastCenter.value.1, Some(ReidFraction * width as real));
      (m, if m != -1 then Some(d.ids[m]) else target)
    else (-1, target)
  }

  /** One frame of the loop: the next tracker state and the matched person's keypoints, if any. */
  function Step(t: Tracker, frame: Option<Detections>, width: nat, height: nat): (r: (Tracker, Option<seq<Keypoint>>))
    requires frame.Some? ==> WellFormed(frame.value)
    ensures r.1.Some? ==> |r.1.value| == CocoKeypoints + 1
  {
    if frame.None? then (t, None)
    else
      var d := frame.value;
      var target := SelectTarget(t.target, d);
      var (m, newTarget) := Match(target, t.lastCenter, d, width);
      if m == -1 then (Tracker(newTarget, t.lastCenter), None)
      else
        (Tracker(newTarget, Some((d.boxes[m].cx, d.boxes[m].cy))),
         Some(NormalizedWithNeck(d.keypoints[m], width as real, height as real)))
  }

  /**
   * The first frame with a person of positive area fixes the target to the largest person's id and
   * matches that person; with no such person and no previous position nothing is matched.
   */
  lemma InitialSelection(d: Detections, width: nat, height: nat)
    requires WellFormed(d)
    ensures var best := Largest(d.boxes);
      var r := Step(InitialTracker, Some(d), width, height);
      && (best != -1 ==>
            && r.0.target == Some(d.ids[best])
            && r.1 == Some(NormalizedWithNeck(d.keypoints[IndexOf(d.ids, d.ids[best])], width as real, height as real)))
      && (best == -1 ==> r == (InitialTracker, None))
  {
  }

  /**
   * A target whose id is in the frame is matched by id (first position holding it) and kept; the
   * last centre moves to that box. Re-identification is not consulted.
   */
  lemma IdMatchTakesPrecedence(t: Tracker, d: Detections, width: nat, height: nat)
    requires WellFormed(d) && t.target.Some? && t.target.value in d.ids
    ensures var i := IndexOf(d.ids, t.target.value);
      Step(t, Some(d), width, height)
        == (Tracker(t.target, Some((d.boxes[i].cx, d.boxes[i].cy))),
            Some(NormalizedWithNeck(d.keypoints[i], width as real, height as real)))
  {
  }

  /**
   * When the target's id is gone and a previous centre exists, the frame matches exactly when some
   * box centre lies strictly within 15% of the width; the match is the first nearest such box, and
   * the target takes over its id.
   */
  lemma ReidentifiesNearest(t: Tracker, d: Detections, width: nat, height: nat)
    requires WellFormed(d) && t.target.Some? && t.target.value !in d.ids && t.lastCenter.Some?
    ensures var (cx, cy) := t.lastCenter.value;
      var radius := Some(ReidFraction * width as real);
      var r := Step(t, Some(d), width, height);
      && (r.1.None? <==> forall j :: 0 <= j < |d.boxes| ==> !InRadius(SqDist(d.boxes[j], cx, cy), radius))
      && (r.1.None? ==> r.0 == t)
      && (r.1.Some? ==>
            exists m :: IsFirstNearest(d.boxes, cx, cy, radius, m)
              && r.0 == Tracker(Some(d.ids[m]), Some((d.boxes[m].cx, d.boxes[m].cy))))
  {
    var (cx, cy) := t.lastCenter.value;
    var radius := Some(ReidFraction * width as real);
    NearestIsFirstNearest(d.boxes, cx, cy, radius);
  }

  /**
   * The last centre changes only on a frame that matches someone; a frame without tracked people
   * changes nothing and matches nobody.
   */
  lemma CenterMovesOnlyOnMatch(t: Tracker, frame: Option<Detections>, width: nat, height: nat)
    requires frame.Some? ==> WellFormed(frame.value)
    ensures var r := Step(t, frame, width, height);
      && (r.1.None? ==> r.0.lastCenter == t.lastCenter)
      && (frame.None? ==> r == (t, None))
      && (t.target.Some? ==> r.0.target.Some?)
  {
  }

  /** The records written from frame `i` on, after the records `acc`, in the shape of the loop. */
  function RecordsAfter(frames: seq<Option<Detections>>, i: nat, t: Tracker, acc: seq<FrameRecord>,
                        width: nat, height: nat, fps: real): (r: (seq<FrameRecord>, Tracker))
    requires i <= |frames| && AllWellFormed(frames)
    decreases |frames| - i
  {
    if i == |frames| then (acc, t)
    else
      var (t', kps) := Step(t, frames[i], width, height);
      RecordsAfter(frames, i + 1, t', acc + [Record(i, fps, kps)], width, height, fps)
  }

  /** The whole video: every record and the final tracker. */
  function Run(frames: seq<Option<Detections>>, width: nat, height: nat, fps: real): (seq<FrameRecord>, Tracker)
    requires AllWellFormed(frames)
  {
    RecordsAfter(frames, 0, InitialTracker, [], width, height, fps)
  }

  lemma {:induction false} RecordsAfterShape(frames: seq<Option<Detections>>, i: nat, t: Tracker, acc: seq<FrameRecord>,
                                             width: nat, height: nat, fps: real)
    requires i <= |frames| && AllWellFormed(frames) && |acc| == i
    requires forall k :: 0 <= k < i ==> acc[k].frameIndex == k && acc[k].timestamp == Timestamp(k, fps)
    requires forall k :: 0 <= k < i ==> (acc[k].isValid <==> |acc[k].keypoints| == CocoKeypoints + 1)
    requires forall k :: 0 <= k < i ==> (!acc[k].isValid <==> acc[k].keypoints == [])
    ensures var r := RecordsAfter(frames, i, t, acc, width, height, fps).0;
      && |r| == |frames|
      && (forall k :: 0 <= k < |r| ==> r[k].frameIndex == k && r[k].timestamp == Timestamp(k, fps))
      && (forall k :: 0 <= k < |r| ==> (r[k].isValid <==> |r[k].keypoints| == CocoKeypoints + 1))
      && (forall k :: 0 <= k < |r| ==> (!r[k].isValid <==> r[k].keypoints == []))
    decreases |frames| - i
  {
    if i < |frames| {
      var (t', kps) := Step(t, frames[i], width, height);
      RecordsAfterShape(frames, i + 1, t', acc + [Record(i, fps, kps)], width, height, fps);
    }
  }

  /**
   * Exactly one record per decoded frame, numbered from 0 with the frame's time; a valid record
   * holds the 17 keypoints and the neck, an invalid one holds none.
   */
  lemma OneRecordPerFrame(frames: seq<Option<Detections>>, width: nat, height: nat, fps: real)
    requires AllWellFormed(frames)
    ensures var r := Run(frames, width, height, fps).0;
      && |r| == |frames|
      && (forall k :: 0 <= k < |r| ==> r[k].frameIndex == k && r[k].timestamp == Timestamp(k, fps))
      && (forall k :: 0 <= k < |r| ==> (r[k].isValid <==> |r[k].keypoints| == CocoKeypoints + 1))
      && (forall k :: 0 <= k < |r| ==> (!r[k].isValid <==> r[k].keypoints == []))
  {
    RecordsAfterShape(frames, 0, InitialTracker, [], width, height, fps);
  }

  /** The selection, matching and extraction of one frame, as the loop body writes them. */
  method TrackFrame(t: Tracker, d: Detections, width: nat, height: nat) returns (t': Tracker, kps: Option<seq<Keypoint>>)
    requires WellFormed(d)
    ensures (t', kps) == Step(t, Some(d), width, height)
  {
    var target := t.target;
    if target.None? {
      var best := SelectLargest(d.boxes);
      if best != -1 {
        target := Some(d.ids[best]);
      }
    }
    var bestMatch := -1;
    if target.Some? && target.value in d.ids {
      bestMatch := IndexOf(d.ids, target.value);
    } else if t.lastCenter.Some? {
      bestMatch := SelectNearest(d.boxes, t.lastCenter.value.0, t.lastCenter.value.1, Some(ReidFraction * width as real));
      if bestMatch != -1 {
        target := Some(d.ids[bestMatch]);
      }
    }
    if bestMatch != -1 {
      var normalized := NormalizeKeypoints(d.keypoints[bestMatch], width as real, height as real);
      t' := Tracker(target, Some((d.boxes[bestMatch].cx, d.boxes[bestMatch].cy)));
      kps := Some(normalized);
    } else {
      t' := Tracker(target, t.lastCenter);
      kps := None;
    }
  }

  /** `process_video`: one record per decoded frame, in order. */
  method ProcessVideo(frames: seq<Option<Detections>>, width: nat, height: nat, fps: real)
    returns (records: seq<FrameRecord>, tracker: Tracker)
    requires AllWellFormed(frames)
    ensures (records, tracker) == Run(frames, width, height, fps)
  {
    records := [];
    tracker := InitialTracker;
    var count := 0;
    ghost var goal := Run(frames, width, height, fps);
    while count < |frames|
      invariant 0 <= count <= |frames|
      invariant RecordsAfter(frames, count, tracker, records, width, height, fps) == goal
    {
      var kps: Option<seq<Keypoint>> := None;
      if frames[count].Some? {
        tracker, kps := TrackFrame(tracker, frames[count].value, width, height);
      }
      records := records + [Record(count, fps, kps)];
      count := count + 1;
    }
  }
}
