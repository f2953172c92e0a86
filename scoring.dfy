/**
 * The scorer's bookkeeping around dynamic time warping: frames without keypoints are skipped, an
 * empty side gives no result, the score is clamped to [0, 100] and graded, and every fifth pair of
 * the warping path votes for its worst body part and, when its error is large, adds a timeline
 * entry. The warping itself, the exponential score mapping, pose normalisation and the per-part
 * bone distances are numerical library work and enter as inputs.
 */
module Scoring {
  import opened Wrappers
  import opened PoseTypes

  datatype Grade = S | A | B | C | D

  /** Position of a grade from the best (0) to the worst (4). */
  function Rank(g: Grade): nat {
    match g
    case S => 0
    case A => 1
    case B => 2
    case C => 3
    case D => 4
  }

  /** `get_grade`: S from 90, A from 80, B from 70, C from 60, D below. */
  function GetGrade(score: real): (g: Grade)
    ensures g == S <==> score >= 90.0
    ensures g == A <==> 80.0 <= score < 90.0
    ensures g == B <==> 70.0 <= score < 80.0
    ensures g == C <==> 60.0 <= score < 70.0
    ensures g == D <==> score < 60.0
  {
    if score >= 90.0 then S
    else if score >= 80.0 then A
    else if score >= 70.0 then B
    else if score >= 60.0 then C
    else D
  }

  /** A higher score never earns a worse grade. */
  lemma GradeMonotone(lo: real, hi: real)
    requires lo <= hi
    ensures Rank(GetGrade(hi)) <= Rank(GetGrade(lo))
  {
  }

  /** `max(0, min(100, score))`. */
  function ClampScore(x: real): (r: real)
    ensures 0.0 <= r <= 100.0
    ensures 0.0 <= x <= 100.0 ==> r == x
    ensures x < 0.0 ==> r == 0.0
    ensures x > 100.0 ==> r == 100.0
  {
    if x < 0.0 then 0.0 else if x > 100.0 then 100.0 else x
  }

  /** The x and y of every frame that has keypoints, confidences dropped, in order. */
  function Loaded(frames: seq<seq<Keypoint>>): (r: seq<seq<(real, real)>>)
    ensures |r| <= |frames|
    ensures forall k :: 0 <= k < |r| ==> r[k] != []
  {
    if frames == [] then []
    else
      var rest := Loaded(frames[1..]);
      if frames[0] == [] then rest
      else [seq(|frames[0]|, i requires 0 <= i < |frames[0]| => (frames[0][i].x, frames[0][i].y))] + rest
  }

  /** Nothing is loaded exactly when no frame has keypoints. */
  lemma {:induction false} LoadedEmpty(frames: seq<seq<Keypoint>>)
    ensures Loaded(frames) == [] <==> forall k :: 0 <= k < |frames| ==> frames[k] == []
  {
    if frames != [] {
      LoadedEmpty(frames[1..]);
      if frames[0] == [] {
        forall k | 1 <= k < |frames|
          ensures frames[k] == frames[1..][k - 1]
        {
        }
      }
    }
  }

  /** `load_keypoints`: the frame loop that skips frames whose keypoint list is empty. */
  method LoadKeypoints(frames: seq<seq<Keypoint>>) returns (kps: seq<seq<(real, real)>>)
    ensures kps == Loaded(frames)
  {
    kps := [];
    var n := |frames|;
    while n > 0
      invariant 0 <= n <= |frames|
      invariant kps == Loaded(frames[n..])
    {
      n := n - 1;
      assert frames[n..][1..] == frames[n + 1..];
      if frames[n] != [] {
        kps := [seq(|frames[n]|, i requires 0 <= i < |frames[n]| => (frames[n][i].x, frames[n][i].y))] + kps;
      }
    }
    assert frames[0..] == frames;
  }

  /** `path[::5]`: the pairs at positions 0, 5, 10, ... */
  function EveryFifth<T>(path: seq<T>): (r: seq<T>)
    ensures |r| == (|path| + 4) / 5
    ensures forall k :: 0 <= k < |r| ==> 5 * k < |path| && r[k] == path[5 * k]
    decreases |path|
  {
    if |path| <= 5 then (if path == [] then [] else [path[0]])
    else
      var rest := EveryFifth(path[5..]);
      EveryFifthCons(path, rest);
      [path[0]] + rest
  }

  /** Putting the first pair in front of every fifth pair after the first five. */
  lemma EveryFifthCons<T>(path: seq<T>, rest: seq<T>)
    requires |path| > 5 && |rest| == (|path| - 5 + 4) / 5
    requires forall k :: 0 <= k < |rest| ==> 5 * k < |path| - 5 && rest[k] == path[5..][5 * k]
    ensures var r := [path[0]] + rest;
      |r| == (|path| + 4) / 5 && forall k :: 0 <= k < |r| ==> 5 * k < |path| && r[k] == path[5 * k]
  {
    var r := [path[0]] + rest;
    forall k | 0 <= k < |r|
      ensures 5 * k < |path| && r[k] == path[5 * k]
    {
      if k > 0 {
        assert r[k] == rest[k - 1];
        assert 5 * k == 5 * (k - 1) + 5;
      }
    }
  }

  /** The body parts in the order their errors are computed. */
  const PartNames := ["Left Arm", "Right Arm", "Left Leg", "Right Leg", "Torso"]

  /** The index of the first largest value, as `max` with a key picks it. */
  function FirstMaxAfter(xs: seq<real>, n: nat, best: nat): (i: nat)
    requires best < n <= |xs|
    requires forall j :: 0 <= j < n ==> xs[j] <= xs[best]
    requires forall j :: 0 <= j < best ==> xs[j] < xs[best]
    ensures i < |xs|
    ensures forall j :: 0 <= j < |xs| ==> xs[j] <= xs[i]
    ensures forall j :: 0 <= j < i ==> xs[j] < xs[i]
    decreases |xs| - n
  {
    if n == |xs| then best
    else if xs[n] > xs[best] then FirstMaxAfter(xs, n + 1, n)
    else FirstMaxAfter(xs, n + 1, best)
  }

  function FirstMax(xs: seq<real>): (i: nat)
    requires xs != []
    ensures i < |xs|
    ensures forall j :: 0 <= j < |xs| ==> xs[j] <= xs[i]
    ensures forall j :: 0 <= j < i ==> xs[j] < xs[i]
  {
    FirstMaxAfter(xs, 1, 0)
  }

  /** Only one position is both a maximum and ahead of every other maximum. */
  lemma FirstMaxUnique(xs: seq<real>, i: nat)
    requires i < |xs|
    requires forall j :: 0 <= j < |xs| ==> xs[j] <= xs[i]
    requires forall j :: 0 <= j < i ==> xs[j] < xs[i]
    ensures FirstMax(xs) == i
  {
  }

  function Sum(xs: seq<real>): real {
    if xs == [] then 0.0 else xs[0] + Sum(xs[1..])
  }

  /** One body part's tally of pairs where it was the worst. */
  datatype Tally = Tally(part: nat, count: nat)

  function Parts(c: seq<Tally>): (r: seq<nat>)
    ensures |r| == |c| && forall k :: 0 <= k < |c| ==> r[k] == c[k].part
  {
    if c == [] then [] else [c[0].part] + Parts(c[1..])
  }

  function Total(c: seq<Tally>): nat {
    if c == [] then 0 else c[0].count + Total(c[1..])
  }

  /** `counter[part] = counter.get(part, 0) + 1` on an insertion-ordered dictionary. */
  function Bump(c: seq<Tally>, part: nat): (r: seq<Tally>)
    ensures Parts(r) == if part in Parts(c) then Parts(c) else Parts(c) + [part]
    ensures Total(r) == Total(c) + 1
  {
    if c == [] then [Tally(part, 1)]
    else if c[0].part == part then [Tally(part, c[0].count + 1)] + c[1..]
    else
      var rest := Bump(c[1..], part);
      assert part in Parts(c) <==> part in Parts(c[1..]);
      [c[0]] + rest
  }

  function Counts(c: seq<Tally>): (r: seq<real>)
    ensures |r| == |c|
    ensures forall k :: 0 <= k < |c| ==> r[k] == c[k].count as real
  {
    seq(|c|, k requires 0 <= k < |c| => c[k].count as real)
  }

  /**
   * The most often worst part: the first of the most frequent in insertion order, "None" when no
   * pair was analysed.
   */
  function MostWrongPart(c: seq<Tally>): (name: string)
    requires forall k :: 0 <= k < |c| ==> c[k].part < |PartNames|
    ensures c == [] <==> name == "None"
    ensures c != [] ==>
      exists i :: 0 <= i < |c| && name == PartNames[c[i].part]
        && (forall j :: 0 <= j < |c| ==> c[j].count <= c[i].count)
        && (forall j :: 0 <= j < i ==> c[j].count < c[i].count)
  {
    if c == [] then "None"
    else
      var i := FirstMax(Counts(c));
      assert PartNames[c[i].part] != "None";
      PartNames[c[i].part]
  }

  /** A timeline entry: the time of the user's frame, its worst part and its total error. */
  datatype TimelineEntry = TimelineEntry(time: real, worstPart: string, errorVal: real)

  /** Total error above which a sampled pair goes on the timeline. */
  const TimelineThreshold := 0.5

  /** The per-part errors of each sampled pair, one value per name in `PartNames`. */
  predicate ErrorsShaped(samples: seq<(nat, nat)>, errors: seq<seq<real>>) {
    && |errors| == |samples|
    && forall k :: 0 <= k < |errors| ==> |errors[k]| == |PartNames|
  }

  function Entry(pair: (nat, nat), errs: seq<real>): TimelineEntry
    requires |errs| == |PartNames|
  {
    TimelineEntry(pair.0 as real / 30.0, PartNames[FirstMax(errs)], Sum(errs))
  }

  /** One pair's vote: its worst part, the first of the largest errors, gains one. */
  function Vote(counter: seq<Tally>, errs: seq<real>): (r: seq<Tally>)
    requires |errs| == |PartNames|
    ensures Total(r) == Total(counter) + 1
    ensures (forall p :: p in Parts(counter) ==> p < |PartNames|) ==> forall p :: p in Parts(r) ==> p < |PartNames|
  {
    Bump(counter, FirstMax(errs))
  }

  /** One pair's timeline step: an entry when its total error exceeds the threshold. */
  function Note(timeline: seq<TimelineEntry>, pair: (nat, nat), errs: seq<real>): seq<TimelineEntry>
    requires |errs| == |PartNames|
  {
    if Sum(errs) > TimelineThreshold then timeline + [Entry(pair, errs)] else timeline
  }

  /** The counter and the timeline after the pairs from `n` on, in the shape of the loop. */
  function AnalysisAfter(samples: seq<(nat, nat)>, errors: seq<seq<real>>, n: nat,
                         counter: seq<Tally>, timeline: seq<TimelineEntry>): (seq<Tally>, seq<TimelineEntry>)
    requires n <= |samples| && ErrorsShaped(samples, errors)
    decreases |samples| - n
  {
    if n == |samples| then (counter, timeline)
    else AnalysisAfter(samples, errors, n + 1, Vote(counter, errors[n]), Note(timeline, samples[n], errors[n]))
  }

  function Analysis(samples: seq<(nat, nat)>, errors: seq<seq<real>>): (seq<Tally>, seq<TimelineEntry>)
    requires ErrorsShaped(samples, errors)
  {
    AnalysisAfter(samples, errors, 0, [], [])
  }

  /** The timeline as a filter: the entries of the pairs whose total error exceeds the threshold. */
  function LargeErrors(samples: seq<(nat, nat)>, errors: seq<seq<real>>, n: nat): (r: seq<TimelineEntry>)
    requires n <= |samples| && ErrorsShaped(samples, errors)
    ensures |r| <= |samples| - n
    decreases |samples| - n
  {
    if n == |samples| then []
    else
      var rest := LargeErrors(samples, errors, n + 1);
      if Sum(errors[n]) > TimelineThreshold then [Entry(samples[n], errors[n])] + rest else rest
  }

  lemma {:induction false} AnalysisAfterCounter(samples: seq<(nat, nat)>, errors: seq<seq<real>>, n: nat,
                                                counter: seq<Tally>, timeline: seq<TimelineEntry>)
    requires n <= |samples| && ErrorsShaped(samples, errors)
    requires forall p :: p in Parts(counter) ==> p < |PartNames|
    ensures var c := AnalysisAfter(samples, errors, n, counter, timeline).0;
      && Total(c) == Total(counter) + |samples| - n
      && (forall p :: p in Parts(c) ==> p < |PartNames|)
    decreases |samples[n..]|
  {
    if n < |samples| {
      AnalysisAfterCounter(samples, errors, n + 1, Vote(counter, errors[n]), Note(timeline, samples[n], errors[n]));
    } else {
      assert AnalysisAfter(samples, errors, n, counter, timeline).0 == counter;
    }
  }

  lemma {:induction false} AnalysisAfterTimeline(samples: seq<(nat, nat)>, errors: seq<seq<real>>, n: nat,
                                                 counter: seq<Tally>, timeline: seq<TimelineEntry>)
    requires n <= |samples| && ErrorsShaped(samples, errors)
    ensures AnalysisAfter(samples, errors, n, counter, timeline).1 == timeline + LargeErrors(samples, errors, n)
    decreases |samples| - n
  {
    if n < |samples| {
      var counter' := Vote(counter, errors[n]);
      var timeline' := Note(timeline, samples[n], errors[n]);
      assert AnalysisAfter(samples, errors, n + 1, counter', timeline').1
        == timeline' + LargeErrors(samples, errors, n + 1) by {
        AnalysisAfterTimeline(samples, errors, n + 1, counter', timeline');
      }
      AnalysisAfterStep(samples, errors, n, counter, timeline);
      NoteThenLarge(samples, errors, n, timeline);
    } else {
      assert LargeErrors(samples, errors, n) == [];
      assert timeline + [] == timeline;
    }
  }

  /** One step of the loop: pair `n` votes and is noted, then the rest follows. */
  lemma AnalysisAfterStep(samples: seq<(nat, nat)>, errors: seq<seq<real>>, n: nat,
                          counter: seq<Tally>, timeline: seq<TimelineEntry>)
    requires n < |samples| && ErrorsShaped(samples, errors)
    ensures AnalysisAfter(samples, errors, n, counter, timeline)
      == AnalysisAfter(samples, errors, n + 1, Vote(counter, errors[n]), Note(timeline, samples[n], errors[n]))
  {
  }

  /** Noting pair `n` and then the large errors after it is the large errors from `n` on. */
  lemma NoteThenLarge(samples: seq<(nat, nat)>, errors: seq<seq<real>>, n: nat, timeline: seq<TimelineEntry>)
    requires n < |samples| && ErrorsShaped(samples, errors)
    ensures Note(timeline, samples[n], errors[n]) + LargeErrors(samples, errors, n + 1)
      == timeline + LargeErrors(samples, errors, n)
  {
    var rest := LargeErrors(samples, errors, n + 1);
    if Sum(errors[n]) > TimelineThreshold {
      var e := Entry(samples[n], errors[n]);
      assert LargeErrors(samples, errors, n) == [e] + rest;
      assert (timeline + [e]) + rest == timeline + ([e] + rest);
    }
  }

  /**
   * Every analysed pair adds one vote, so the tallies sum to the number of sampled pairs; the
   * timeline holds, in order, exactly the pairs whose total error exceeds 0.5; every tallied part
   * is one of the five.
   */
  lemma AnalysisCounts(samples: seq<(nat, nat)>, errors: seq<seq<real>>)
    requires ErrorsShaped(samples, errors)
    ensures var (c, t) := Analysis(samples, errors);
      && Total(c) == |samples|
      && t == LargeErrors(samples, errors, 0)
      && (forall k :: 0 <= k < |c| ==> c[k].part < |PartNames|)
  {
    AnalysisAfterCounter(samples, errors, 0, [], []);
    AnalysisAfterTimeline(samples, errors, 0, [], []);
    var c := Analysis(samples, errors).0;
    assert forall k :: 0 <= k < |c| ==> Parts(c)[k] in Parts(c);
  }

  /** Every timeline entry's error exceeds the threshold. */
  lemma {:induction false} LargeErrorsAboveThreshold(samples: seq<(nat, nat)>, errors: seq<seq<real>>, n: nat)
    requires n <= |samples| && ErrorsShaped(samples, errors)
    ensures forall k :: 0 <= k < |LargeErrors(samples, errors, n)| ==> LargeErrors(samples, errors, n)[k].errorVal > TimelineThreshold
    decreases |samples| - n
  {
    if n < |samples| {
      LargeErrorsAboveThreshold(samples, errors, n + 1);
    }
  }

  /** The per-pair loop of `calculate_score`. */
  method AnalysePairs(samples: seq<(nat, nat)>, errors: seq<seq<real>>) returns (counter: seq<Tally>, timeline: seq<TimelineEntry>)
    requires ErrorsShaped(samples, errors)
    ensures (counter, timeline) == Analysis(samples, errors)
  {
    counter, timeline := [], [];
    ghost var goal := Analysis(samples, errors);
    for n := 0 to |samples|
      invariant AnalysisAfter(samples, errors, n, counter, timeline) == goal
    {
      AnalysisAfterStep(samples, errors, n, counter, timeline);
      counter := Vote(counter, errors[n]);
      timeline := Note(timeline, samples[n], errors[n]);
    }
  }

  /** The warping library's answer: total distance and the matched (user, expert) frame pairs. */
  datatype Warping = Warping(distance: real, path: seq<(nat, nat)>)

  datatype ScoringResult = ScoringResult(score: real, grade: Grade, worstPart: string, timeline: seq<TimelineEntry>)

  /**
   * `calculate_score` after loading: no result when either side has no frame with keypoints;
   * otherwise the clamped score, its grade, the most often worst part and the timeline.
   * `rawScore` is the exponential mapping of the warping's mean distance.
   */
  method CalculateScore(userFrames: seq<seq<Keypoint>>, expertFrames: seq<seq<Keypoint>>, warping: Warping,
                        rawScore: real, errors: seq<seq<real>>) returns (r: Option<ScoringResult>)
    requires ErrorsShaped(EveryFifth(warping.path), errors)
    ensures r.None? <==> Loaded(userFrames) == [] || Loaded(expertFrames) == []
    ensures r.Some? ==>
      var (c, t) := Analysis(EveryFifth(warping.path), errors);
      && r.value.score == ClampScore(rawScore)
      && 0.0 <= r.value.score <= 100.0
      && r.value.grade == GetGrade(r.value.score)
      && (0.0 <= rawScore <= 100.0 ==> r.value.score == rawScore)
      && r.value.timeline == t
      && (forall k :: 0 <= k < |c| ==> c[k].part < |PartNames|)
      && r.value.worstPart == MostWrongPart(c)
  {
    var user := LoadKeypoints(userFrames);
    var expert := LoadKeypoints(expertFrames);
    if |user| == 0 || |expert| == 0 {
      return None;
    }
    var score := ClampScore(rawScore);
    var samples := EveryFifth(warping.path);
    var counter, timeline := AnalysePairs(samples, errors);
    AnalysisCounts(samples, errors);
    var worst := MostWrongPart(counter);
    r := Some(ScoringResult(score, GetGrade(score), worst, timeline));
  }
}
