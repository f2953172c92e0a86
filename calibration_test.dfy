/**
 * The calibration script: its grade with the visibility demotion, the operator's choice of whom to
 * follow (the first early frame with tracked people, then typed answers until one names a shown
 * id), and the frame loop that follows that id and hands over to the nearest person within 15% of
 * the width when the id disappears. Typed answers are a given sequence (`None` for text that is
 * not a number); the preview window and the files are not modelled.
 */
module CalibrationTest {
  import opened Wrappers
  import opened PoseTypes
  import Scoring
  import PoseEstimation

  /** `calculate_grade`'s thresholds, before any demotion. */
  function BaseGrade(score: real): (g: Scoring.Grade)
    ensures g == Scoring.S <==> score >= 90.0
    ensures g == Scoring.A <==> 80.0 <= score < 90.0
    ensures g == Scoring.B <==> 70.0 <= score < 80.0
    ensures g == Scoring.C <==> score < 70.0
  {
    if score >= 90.0 then Scoring.S
    else if score >= 80.0 then Scoring.A
    else if score >= 70.0 then Scoring.B
    else Scoring.C
  }

  /** Below this share of visible frames the grade drops a step. */
  const VisibilityFloor := 0.7

  /** `grades_order[min(index + 1, 3)]`: one step down, C staying C. */
  function Demote(g: Scoring.Grade): (r: Scoring.Grade)
    requires g != Scoring.D
    ensures r != Scoring.D
    ensures g != Scoring.C ==> Scoring.Rank(r) == Scoring.Rank(g) + 1
    ensures g == Scoring.C ==> r == Scoring.C
  {
    match g
    case S => Scoring.A
    case A => Scoring.B
    case B => Scoring.C
    case C => Scoring.C
  }

  /** `calculate_grade(score, visibility_ratio)`. */
  function CalculateGrade(score: real, visibilityRatio: real): (g: Scoring.Grade)
    ensures g != Scoring.D
    ensures visibilityRatio >= VisibilityFloor ==> g == BaseGrade(score)
    ensures visibilityRatio < VisibilityFloor ==> g == Demote(BaseGrade(score))
  {
    var g := BaseGrade(score);
    if visibilityRatio < VisibilityFloor then Demote(g) else g
  }

  /**
   * Agreement with the production grading: without demotion the grades coincide from 60 up,
   * and the calibration grade is never worse than the production one.
   */
  lemma GradeAgreesWithScoring(score: real)
    ensures score >= 60.0 ==> CalculateGrade(score, 1.0) == Scoring.GetGrade(score)
    ensures Scoring.Rank(CalculateGrade(score, 1.0)) <= Scoring.Rank(Scoring.GetGrade(score))
  {
  }

  /** A higher score or a higher visibility never earns a worse grade. */
  lemma CalculateGradeMonotone(lo: real, hi: real, ratioLo: real, ratioHi: real)
    requires lo <= hi && ratioLo <= ratioHi
    ensures Scoring.Rank(CalculateGrade(hi, ratioHi)) <= Scoring.Rank(CalculateGrade(lo, ratioLo))
  {
  }

  /** How many frames the operator's preview searches. */
  const MaxSearchFrames := 150

  /**
   * The first frame, among the first 150 decoded, that has tracked people; -1 when there is none.
   * `frames[k]` holds the track ids of frame `k`, empty when it had no boxes or no ids.
   */
  function FirstPersonFrom(frames: seq<seq<nat>>, k: nat): (i: int)
    requires k <= |frames|
    ensures i == -1 || (k <= i < |frames| && i < MaxSearchFrames && frames[i] != [])
    ensures i == -1 <==> forall j :: k <= j < |frames| && j < MaxSearchFrames ==> frames[j] == []
    ensures i != -1 ==> forall j :: k <= j < i ==> frames[j] == []
    decreases |frames| - k
  {
    if k == |frames| || k >= MaxSearchFrames then -1
    else if frames[k] != [] then k
    else FirstPersonFrom(frames, k + 1)
  }

  /** The search loop of `select_target_id`. */
  method FindPersonFrame(frames: seq<seq<nat>>) returns (found: int)
    ensures found == FirstPersonFrom(frames, 0)
  {
    found := -1;
    var frameIdx := 0;
    ghost var goal := FirstPersonFrom(frames, 0);
    while frameIdx < MaxSearchFrames
      invariant 0 <= frameIdx <= MaxSearchFrames
      invariant goal == if frameIdx <= |frames| then FirstPersonFrom(frames, frameIdx) else -1
      decreases MaxSearchFrames - frameIdx
    {
      if frameIdx >= |frames| {
        break;
      }
      if frames[frameIdx] != [] {
        found := frameIdx;
        break;
      }
      frameIdx := frameIdx + 1;
    }
  }

  /** An answer the prompt accepts: a number that is one of the shown ids. */
  predicate Accepts(detected: seq<nat>, answer: Option<int>) {
    answer.Some? && answer.value >= 0 && answer.value as nat in detected
  }

  /** The first accepted answer, `None` when the answers run out first. */
  function FirstAccepted(detected: seq<nat>, answers: seq<Option<int>>): (r: Option<nat>)
    ensures r.Some? ==> r.value in detected
    ensures r.None? <==> forall k :: 0 <= k < |answers| ==> !Accepts(detected, answers[k])
    ensures r.Some? ==>
      exists k :: 0 <= k < |answers| && answers[k] == Some(r.value as int)
        && forall j :: 0 <= j < k ==> !Accepts(detected, answers[j])
  {
    if answers == [] then None
    else if Accepts(detected, answers[0]) then Some(answers[0].value as nat)
    else
      var r := FirstAccepted(detected, answers[1..]);
      assert forall k :: 1 <= k < |answers| ==> answers[k] == answers[1..][k - 1];
      if r.Some? then
        ghost var k :| 0 <= k < |answers[1..]| && answers[1..][k] == Some(r.value as int)
          && forall j :: 0 <= j < k ==> !Accepts(detected, answers[1..][j]);
        assert answers[k + 1] == Some(r.value as int);
        r
      else r
  }

  /** The prompt loop: asks again after text that is not a number or an id not shown. */
  method AskForId(detected: seq<nat>, answers: seq<Option<int>>) returns (r: Option<nat>)
    ensures r == FirstAccepted(detected, answers)
  {
    var n := 0;
    ghost var goal := FirstAccepted(detected, answers);
    while n < |answers|
      invariant 0 <= n <= |answers|
      invariant FirstAccepted(detected, answers[n..]) == goal
    {
      assert answers[n..][1..] == answers[n + 1..];
      var answer := answers[n];
      if answer.Some? && answer.value >= 0 && answer.value as nat in detected {
        return Some(answer.value as nat);
      }
      n := n + 1;
    }
    return None;
  }

  /** Why no id was chosen, or the chosen one. */
  datatype Selection = NoVideo | NoPerson | Selected(id: nat) | AnswersEnded

  /** `select_target_id`. */
  method SelectTargetId(videoExists: bool, frames: seq<seq<nat>>, answers: seq<Option<int>>) returns (s: Selection)
    ensures !videoExists ==> s == NoVideo
    ensures videoExists && FirstPersonFrom(frames, 0) == -1 ==> s == NoPerson
    ensures videoExists && FirstPersonFrom(frames, 0) != -1 ==>
      var detected := frames[FirstPersonFrom(frames, 0)];
      s == if FirstAccepted(detected, answers).Some? then Selected(FirstAccepted(detected, answers).value) else AnswersEnded
    ensures s.Selected? ==> FirstPersonFrom(frames, 0) != -1 && s.id in frames[FirstPersonFrom(frames, 0)]
  {
    if !videoExists {
      return NoVideo;
    }
    var found := FindPersonFrame(frames);
    if found == -1 {
      return NoPerson;
    }
    var choice := AskForId(frames[found], answers);
    s := if choice.Some? then Selected(choice.value) else AnswersEnded;
  }

  /** The calibration loop's state: the id being followed and the last matched centre. */
  datatype Follow = Follow(target: nat, lastCenter: Option<(real, real)>)

  /** One frame of `process_video_specific_id`. */
  function Step(f: Follow, frame: Option<PoseEstimation.Detections>, width: nat, height: nat): (r: (Follow, Option<seq<Keypoint>>))
    requires frame.Some? ==> PoseEstimation.WellFormed(frame.value)
    ensures r.1.None? ==> r.0.lastCenter == f.lastCenter
    ensures r.1.Some? ==> |r.1.value| == CocoKeypoints + 1 && r.0.lastCenter.Some?
  {
    if frame.None? then (f, None)
    else
      var d := frame.value;
      var m :=
        if f.target in d.ids then IndexOf(d.ids, f.target)
        else if f.lastCenter.Some? then
          Nearest(d.boxes, f.lastCenter.value.0, f.lastCenter.value.1, Some(PoseEstimation.ReidFraction * width as real))
        else -1;
      if m == -1 then (f, None)
      else
        (Follow(d.ids[m], Some((d.boxes[m].cx, d.boxes[m].cy))),
         Some(NormalizedWithNeck(d.keypoints[m], width as real, height as real)))
  }

  /**
   * A calibration frame does what a production frame does once its target is set: same match,
   * same target afterwards, same last centre, same keypoints.
   */
  lemma StepIsProductionStep(f: Follow, frame: Option<PoseEstimation.Detections>, width: nat, height: nat)
    requires frame.Some? ==> PoseEstimation.WellFormed(frame.value)
    ensures var (f', kps) := Step(f, frame, width, height);
      PoseEstimation.Step(PoseEstimation.Tracker(Some(f.target), f.lastCenter), frame, width, height)
        == (PoseEstimation.Tracker(Some(f'.target), f'.lastCenter), kps)
  {
  }

  function RecordsAfter(frames: seq<Option<PoseEstimation.Detections>>, i: nat, f: Follow, acc: seq<FrameRecord>,
                        width: nat, height: nat, fps: real): (r: (seq<FrameRecord>, Follow))
    requires i <= |frames| && PoseEstimation.AllWellFormed(frames)
    decreases |frames| - i
  {
    if i == |frames| then (acc, f)
    else
      var (f', kps) := Step(f, frames[i], width, height);
      RecordsAfter(frames, i + 1, f', acc + [Record(i, fps, kps)], width, height, fps)
  }

  function Run(frames: seq<Option<PoseEstimation.Detections>>, initialId: nat, width: nat, height: nat, fps: real)
    : (seq<FrameRecord>, Follow)
    requires PoseEstimation.AllWellFormed(frames)
  {
    RecordsAfter(frames, 0, Follow(initialId, None), [], width, height, fps)
  }

  lemma {:induction false} RecordsAfterIsProduction(frames: seq<Option<PoseEstimation.Detections>>, i: nat, f: Follow,
                                                    acc: seq<FrameRecord>, width: nat, height: nat, fps: real)
    requires i <= |frames| && PoseEstimation.AllWellFormed(frames)
    ensures var (records, f') := RecordsAfter(frames, i, f, acc, width, height, fps);
      PoseEstimation.RecordsAfter(frames, i, PoseEstimation.Tracker(Some(f.target), f.lastCenter), acc, width, height, fps)
        == (records, PoseEstimation.Tracker(Some(f'.target), f'.lastCenter))
    decreases |frames| - i
  {
    if i < |frames| {
      StepIsProductionStep(f, frames[i], width, height);
      var (f', kps) := Step(f, frames[i], width, height);
      RecordsAfterIsProduction(frames, i + 1, f', acc + [Record(i, fps, kps)], width, height, fps);
    }
  }

  /**
   * Following a chosen id writes exactly the records the production extractor would write had it
   * picked that id itself; so one record per frame, numbered and timed as there.
   */
  lemma RunIsProductionRun(frames: seq<Option<PoseEstimation.Detections>>, initialId: nat, width: nat, height: nat, fps: real)
    requires PoseEstimation.AllWellFormed(frames)
    ensures Run(frames, initialId, width, height, fps).0
      == PoseEstimation.RecordsAfter(frames, 0, PoseEstimation.Tracker(Some(initialId), None), [], width, height, fps).0
  {
    RecordsAfterIsProduction(frames, 0, Follow(initialId, None), [], width, height, fps);
  }

  /** How many records are valid. */
  function ValidCount(records: seq<FrameRecord>): (n: nat)
    ensures n <= |records|
  {
    if records == [] then 0 else (if records[|records| - 1].isValid then 1 else 0) + ValidCount(records[..|records| - 1])
  }

  /** The match half of the loop body: by id first, else the nearest centre within the radius. */
  method MatchFrame(f: Follow, d: PoseEstimation.Detections, width: nat) returns (m: int)
    requires PoseEstimation.WellFormed(d)
    ensures -1 <= m < |d.ids|
    ensures m != -1 && f.target in d.ids ==> m == IndexOf(d.ids, f.target)
    ensures f.target !in d.ids && f.lastCenter.Some? ==>
      m == Nearest(d.boxes, f.lastCenter.value.0, f.lastCenter.value.1, Some(PoseEstimation.ReidFraction * width as real))
    ensures f.target !in d.ids && f.lastCenter.None? ==> m == -1
    ensures f.target in d.ids ==> m == IndexOf(d.ids, f.target)
  {
    m := -1;
    if f.target in d.ids {
      m := IndexOf(d.ids, f.target);
    } else if f.lastCenter.Some? {
      m := SelectNearest(d.boxes, f.lastCenter.value.0, f.lastCenter.value.1, Some(PoseEstimation.ReidFraction * width as real));
    }
  }

  /** The loop body for a decoded frame: match the followed person, then follow and normalise them. */
  method FollowFrame(f: Follow, d: PoseEstimation.Detections, width: nat, height: nat)
    returns (f': Follow, kps: Option<seq<Keypoint>>)
    requires PoseEstimation.WellFormed(d)
    ensures (f', kps) == Step(f, Some(d), width, height)
  {
    kps := None;
    f' := f;
    var m := MatchFrame(f, d, width);
    if m != -1 {
      var normalized := NormalizeKeypoints(d.keypoints[m], width as real, height as real);
      f' := Follow(d.ids[m], Some((d.boxes[m].cx, d.boxes[m].cy)));
      kps := Some(normalized);
    }
  }

  /** One turn of the frame loop is one step of `RecordsAfter`. */
  lemma RecordsStep(frames: seq<Option<PoseEstimation.Detections>>, i: nat, f: Follow, f': Follow,
                    kps: Option<seq<Keypoint>>, acc: seq<FrameRecord>, width: nat, height: nat, fps: real)
    requires i < |frames| && PoseEstimation.AllWellFormed(frames)
    requires (f', kps) == Step(f, frames[i], width, height)
    ensures RecordsAfter(frames, i, f, acc, width, height, fps)
      == RecordsAfter(frames, i + 1, f', acc + [Record(i, fps, kps)], width, height, fps)
  {
  }

  /** `process_video_specific_id`: the records, the final state and the count of valid frames. */
  method ProcessVideoSpecificId(frames: seq<Option<PoseEstimation.Detections>>, initialId: nat, width: nat, height: nat, fps: real)
    returns (records: seq<FrameRecord>, follow: Follow, validFrames: nat)
    requires PoseEstimation.AllWellFormed(frames)
    ensures (records, follow) == Run(frames, initialId, width, height, fps)
    ensures validFrames == ValidCount(records)
  {
    records, follow, validFrames := [], Follow(initialId, None), 0;
    var frameIdx := 0;
    ghost var goal := Run(frames, initialId, width, height, fps);
    while frameIdx < |frames|
      invariant 0 <= frameIdx <= |frames|
      invariant RecordsAfter(frames, frameIdx, follow, records, width, height, fps) == goal
      invariant validFrames == ValidCount(records)
    {
      ghost var follow0 := follow;
      var kps: Option<seq<Keypoint>> := None;
      if frames[frameIdx].Some? {
        follow, kps := FollowFrame(follow, frames[frameIdx].value, width, height);
      }
      RecordsStep(frames, frameIdx, follow0, follow, kps, records, width, height, fps);
      var record := Record(frameIdx, fps, kps);
      assert (records + [record])[..|records|] == records;
      records := records + [record];
      if kps.Some? {
        validFrames := validFrames + 1;
      }
      frameIdx := frameIdx + 1;
    }
  }
}
