/**
 * The scoring diagnosis tool: two transforms of a user's pose file that overwrite its keypoints
 * frame by frame (a left-right mirror that also swaps left and right joints, and a quarter turn),
 * the score of each variant with its fallback to 0, and the choice of the best variant. The
 * comparison video is drawing only and is not modelled.
 */
module DebugAnalysis {
  import opened Wrappers
  import opened PoseTypes
  import Scoring

  /** The left/right joint pairs the mirror exchanges: eyes, ears, shoulders, ..., ankles. */
  const SwapPairs: seq<(nat, nat)> := [(1, 2), (3, 4), (5, 6), (7, 8), (9, 10), (11, 12), (13, 14), (15, 16)]

  /** Where the mirror takes each joint from: its partner for 1..16, itself otherwise. */
  function Partner(i: nat): (j: nat)
    ensures (i == 0 || i >= CocoKeypoints) ==> j == i
    ensures 1 <= i < CocoKeypoints ==> 1 <= j < CocoKeypoints && j != i
  {
    if 1 <= i < CocoKeypoints then (if i % 2 == 1 then i + 1 else i - 1) else i
  }

  /** `Partner` is the table of swap pairs read both ways. */
  lemma PartnerIsSwapPairs()
    ensures forall p :: p in SwapPairs ==> Partner(p.0) == p.1 && Partner(p.1) == p.0
    ensures forall i: nat :: (forall p :: p in SwapPairs ==> i != p.0 && i != p.1) ==> Partner(i) == i
  {
  }

  /** Taking a joint's partner twice gives the joint back. */
  lemma PartnerTwice(i: nat)
    ensures Partner(Partner(i)) == i
  {
  }

  /** `x = 1 - x` for a point the detector saw (confidence above 0). */
  function FlipX(k: Keypoint): (r: Keypoint)
    ensures r.y == k.y && r.conf == k.conf
    ensures k.conf > 0.0 ==> r.x == 1.0 - k.x
    ensures k.conf <= 0.0 ==> r == k
  {
    if k.conf > 0.0 then k.(x := 1.0 - k.x) else k
  }

  /** The mirrored keypoints of one frame: flipped, then each joint taken from its partner. */
  function MirrorKeypoints(kps: seq<Keypoint>): (r: seq<Keypoint>)
    requires |kps| >= CocoKeypoints
    ensures |r| == |kps|
    ensures forall i :: 0 <= i < |kps| ==> Partner(i) < |kps| && r[i] == FlipX(kps[Partner(i)])
  {
    seq(|kps|, i requires 0 <= i < |kps| => FlipX(kps[Partner(i)]))
  }

  /** The frames the mirror can handle: every valid frame has the 17 joints it swaps. */
  predicate Mirrorable(frames: seq<FrameRecord>) {
    forall k :: 0 <= k < |frames| ==> frames[k].isValid ==> |frames[k].keypoints| >= CocoKeypoints
  }

  function MirrorFrame(f: FrameRecord): (r: FrameRecord)
    requires f.isValid ==> |f.keypoints| >= CocoKeypoints
    ensures !f.isValid ==> r == f
    ensures r.frameIndex == f.frameIndex && r.timestamp == f.timestamp && r.isValid == f.isValid
    ensures |r.keypoints| == |f.keypoints|
  {
    if f.isValid then f.(keypoints := MirrorKeypoints(f.keypoints)) else f
  }

  /** Mirroring a frame twice gives it back. */
  lemma MirrorTwice(f: FrameRecord)
    requires f.isValid ==> |f.keypoints| >= CocoKeypoints
    ensures MirrorFrame(MirrorFrame(f)) == f
  {
    if f.isValid {
      var once := MirrorKeypoints(f.keypoints);
      var twice := MirrorKeypoints(once);
      forall i | 0 <= i < |f.keypoints|
        ensures twice[i] == f.keypoints[i]
      {
        assert twice[i] == FlipX(once[Partner(i)]);
        PartnerTwice(i);
        assert once[Partner(i)] == FlipX(f.keypoints[Partner(Partner(i))]);
      }
    }
  }

  /** A quarter turn about the centre of the unit square: `(x, y)` to `(y, 1 - x)`. */
  function Rotate(k: Keypoint): (r: Keypoint)
    ensures r.conf == k.conf
    ensures (r.x - 0.5) == (k.y - 0.5) && (r.y - 0.5) == -(k.x - 0.5)
  {
    Keypoint(k.y, 1.0 - k.x, k.conf)
  }

  function RotateFrame(f: FrameRecord): (r: FrameRecord)
    ensures !f.isValid ==> r == f
    ensures r.frameIndex == f.frameIndex && r.timestamp == f.timestamp && r.isValid == f.isValid
    ensures |r.keypoints| == |f.keypoints|
    ensures f.isValid ==> forall i :: 0 <= i < |f.keypoints| ==> r.keypoints[i] == Rotate(f.keypoints[i])
  {
    if f.isValid then f.(keypoints := seq(|f.keypoints|, i requires 0 <= i < |f.keypoints| => Rotate(f.keypoints[i])))
    else f
  }

  /** Four quarter turns give the frame back; two are the half turn `(1 - x, 1 - y)`. */
  lemma RotateFourTimes(f: FrameRecord)
    ensures RotateFrame(RotateFrame(RotateFrame(RotateFrame(f)))) == f
    ensures f.isValid ==> forall i :: 0 <= i < |f.keypoints| ==>
      RotateFrame(RotateFrame(f)).keypoints[i] == Keypoint(1.0 - f.keypoints[i].x, 1.0 - f.keypoints[i].y, f.keypoints[i].conf)
  {
    var r4 := RotateFrame(RotateFrame(RotateFrame(RotateFrame(f))));
    if f.isValid {
      assert r4.keypoints == f.keypoints;
    }
  }

  /** Flips, in place, the points the detector saw. */
  method FlipPoints(kp: array<Keypoint>)
    modifies kp
    ensures forall i :: 0 <= i < kp.Length ==> kp[i] == FlipX(old(kp[i]))
  {
    for i := 0 to kp.Length
      invariant forall j :: 0 <= j < i ==> kp[j] == FlipX(old(kp[j]))
      invariant forall j :: i <= j < kp.Length ==> kp[j] == old(kp[j])
    {
      if kp[i].conf > 0.0 {
        kp[i] := kp[i].(x := 1.0 - kp[i].x);
      }
    }
  }

  /** A copy of `kp` with every swap pair exchanged. */
  method SwapJoints(kp: array<Keypoint>) returns (swapped: seq<Keypoint>)
    requires kp.Length >= CocoKeypoints
    ensures |swapped| == kp.Length
    ensures forall i :: 0 <= i < kp.Length ==> Partner(i) < kp.Length && swapped[i] == kp[Partner(i)]
  {
    var newKp := new Keypoint[kp.Length](i reads kp requires 0 <= i < kp.Length => kp[i]);
    for p := 0 to |SwapPairs|
      invariant forall i :: 0 <= i < kp.Length ==> newKp[i] == if 1 <= i <= 2 * p then kp[Partner(i)] else kp[i]
    {
      var (i, j) := SwapPairs[p];
      assert i == 2 * p + 1 && j == 2 * p + 2;
      newKp[i] := kp[j];
      newKp[j] := kp[i];
    }
    swapped := newKp[..];
  }

  /** `_apply_mirror`: every valid frame's keypoints are flipped and their sides swapped. */
  method ApplyMirror(frames: array<FrameRecord>)
    requires Mirrorable(frames[..])
    modifies frames
    ensures forall k :: 0 <= k < frames.Length ==> frames[k] == MirrorFrame(old(frames[k]))
  {
    for k := 0 to frames.Length
      invariant forall m :: 0 <= m < k ==> frames[m] == MirrorFrame(old(frames[m]))
      invariant forall m :: k <= m < frames.Length ==> frames[m] == old(frames[m])
    {
      var frame := frames[k];
      if !frame.isValid {
        continue;
      }
      var kp := new Keypoint[|frame.keypoints|](i requires 0 <= i < |frame.keypoints| => frame.keypoints[i]);
      FlipPoints(kp);
      var newKp := SwapJoints(kp);
      assert newKp == MirrorKeypoints(frame.keypoints);
      frames[k] := frame.(keypoints := newKp);
    }
  }

  /** `_apply_rotation`: every valid frame's points are turned in place. */
  method ApplyRotation(frames: array<FrameRecord>)
    modifies frames
    ensures forall k :: 0 <= k < frames.Length ==> frames[k] == RotateFrame(old(frames[k]))
  {
    for k := 0 to frames.Length
      invariant forall m :: 0 <= m < k ==> frames[m] == RotateFrame(old(frames[m]))
      invariant forall m :: k <= m < frames.Length ==> frames[m] == old(frames[m])
    {
      var frame := frames[k];
      if !frame.isValid {
        continue;
      }
      var kp := frame.keypoints;
      for i := 0 to |kp|
        invariant |kp| == |frame.keypoints|
        invariant forall j :: 0 <= j < i ==> kp[j] == Rotate(frame.keypoints[j])
        invariant forall j :: i <= j < |kp| ==> kp[j] == frame.keypoints[j]
      {
        var (x, y, c) := (kp[i].x, kp[i].y, kp[i].conf);
        kp := kp[i := Keypoint(y, 1.0 - x, c)];
      }
      frames[k] := frame.(keypoints := kp);
    }
  }

  /** What the scorer call ends in. */
  datatype ScorerOutcome =
    | Raised                               // any exception, caught by the bare `except`
    | Returned(result: Option<real>)       // a truthy result, with its score when it has one

  /** `_calculate_score`: the score, or 0 after an exception, a falsy result or a missing score. */
  function ScoreOrZero(outcome: ScorerOutcome): (score: real)
    ensures outcome.Returned? && outcome.result.Some? ==> score == outcome.result.value
    ensures !(outcome.Returned? && outcome.result.Some?) ==> score == 0.0
  {
    if outcome.Returned? && outcome.result.Some? then outcome.result.value else 0.0
  }

  /**
   * The call as written: it asks the scorer for `compare` and reads `total_score`, and the
   * scorer defines neither, so every call ends in an exception.
   */
  function CompareAsWritten(user: seq<FrameRecord>, expert: seq<FrameRecord>): ScorerOutcome {
    Raised
  }

  /**
   * The call as intended: `calculate_score`, whose result is `None` for an empty side and
   * otherwise carries the clamped score.
   */
  function CompareIntended(result: Option<Scoring.ScoringResult>): (outcome: ScorerOutcome)
    ensures result.None? ==> ScoreOrZero(outcome) == 0.0
    ensures result.Some? ==> ScoreOrZero(outcome) == result.value.score
  {
    if result.Some? then Returned(Some(result.value.score)) else Returned(None)
  }

  datatype Variant = Original | Mirrored | Rotated

  /** The variant with the best score; on a tie the mirror wins, then the rotation. */
  function BestVariant(original: real, mirrored: real, rotated: real): (v: Variant)
    ensures v == Mirrored <==> mirrored >= original && mirrored >= rotated
    ensures v == Rotated <==> rotated >= original && rotated > mirrored
    ensures v == Original <==> original > mirrored && original > rotated
  {
    var best := if original >= mirrored && original >= rotated then original
                else if mirrored >= rotated then mirrored else rotated;
    if best == mirrored then Mirrored
    else if best == rotated then Rotated
    else Original
  }

  /** The diagnosis as written: every score is 0, so the mirror is always reported. */
  lemma DiagnosisAsWrittenIsAlwaysMirror(user: seq<FrameRecord>, mirrored: seq<FrameRecord>, rotated: seq<FrameRecord>,
                                         expert: seq<FrameRecord>)
    ensures BestVariant(ScoreOrZero(CompareAsWritten(user, expert)),
                        ScoreOrZero(CompareAsWritten(mirrored, expert)),
                        ScoreOrZero(CompareAsWritten(rotated, expert))) == Mirrored
  {
  }

  /**
   * The diagnosis with the scorer's real results: the chosen variant scores at least as well as
   * the other two.
   */
  function Diagnose(original: Option<Scoring.ScoringResult>, mirrored: Option<Scoring.ScoringResult>,
                    rotated: Option<Scoring.ScoringResult>): (v: Variant)
    ensures var (o, m, r) := (ScoreOrZero(CompareIntended(original)), ScoreOrZero(CompareIntended(mirrored)),
                              ScoreOrZero(CompareIntended(rotated)));
      var s := if v == Original then o else if v == Mirrored then m else r;
      s >= o && s >= m && s >= r
  {
    BestVariant(ScoreOrZero(CompareIntended(original)), ScoreOrZero(CompareIntended(mirrored)),
                ScoreOrZero(CompareIntended(rotated)))
  }

  /** With a real score for each variant, a strictly better original is kept. */
  lemma DiagnoseKeepsBetterOriginal(original: Scoring.ScoringResult, mirrored: Scoring.ScoringResult,
                                    rotated: Scoring.ScoringResult)
    requires original.score > mirrored.score && original.score > rotated.score
    ensures Diagnose(Some(original), Some(mirrored), Some(rotated)) == Original
  {
  }

  /**
   * `run_debug_analysis` after loading: mirrored and rotated copies of the user's frames, the
   * three scores (given as the scorer's results) and the frames of the chosen variant.
   */
  method RunDebugAnalysis(user: seq<FrameRecord>, original: Option<Scoring.ScoringResult>,
                          mirrored: Option<Scoring.ScoringResult>, rotated: Option<Scoring.ScoringResult>)
    returns (v: Variant, chosen: seq<FrameRecord>)
    requires Mirrorable(user)
    ensures v == Diagnose(original, mirrored, rotated)
    ensures v == Original ==> chosen == user
    ensures v == Mirrored ==> |chosen| == |user| && forall k :: 0 <= k < |user| ==> chosen[k] == MirrorFrame(user[k])
    ensures v == Rotated ==> |chosen| == |user| && forall k :: 0 <= k < |user| ==> chosen[k] == RotateFrame(user[k])
  {
    var userMirror := new FrameRecord[|user|](k requires 0 <= k < |user| => user[k]);
    ApplyMirror(userMirror);
    var userRotate := new FrameRecord[|user|](k requires 0 <= k < |user| => user[k]);
    ApplyRotation(userRotate);
    var scoreOriginal := ScoreOrZero(CompareIntended(original));
    var scoreMirror := ScoreOrZero(CompareIntended(mirrored));
    var scoreRotate := ScoreOrZero(CompareIntended(rotated));
    v := BestVariant(scoreOriginal, scoreMirror, scoreRotate);
    if v == Mirrored {
      chosen := userMirror[..];
    } else if v == Rotated {
      chosen := userRotate[..];
    } else {
      chosen := user;
    }
  }
}
