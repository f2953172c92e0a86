/**
 * The analysis waiting screen: the five stages with their progress, the scripted walk through
 * them that ends in exactly one `onAnalysisComplete`, and the rotating tips. The delays between
 * steps are not modelled; the endless tip loop runs for a given number of ticks.
 */
module AnalysisLoading {

  datatype Stage = Uploading | SkeletonExtract | Comparing | Scoring | Completed

  /** The stages in declaration order. */
  const Stages := [Uploading, SkeletonExtract, Comparing, Scoring, Completed]

  /** Each stage's share of the work done, as the decimal the source writes. */
  function Progress(s: Stage): (p: real)
    ensures 0.0 < p <= 1.0
    ensures p == 1.0 <==> s == Completed
  {
    match s
    case Uploading => 0.2
    case SkeletonExtract => 0.5
    case Comparing => 0.8
    case Scoring => 0.95
    case Completed => 1.0
  }

  /** The percentage shown in the ring: `(progress * 100).toInt()`, truncating. */
  function DisplayedPercent(s: Stage): (n: int)
    ensures n as real <= Progress(s) * 100.0 < n as real + 1.0
  {
    (Progress(s) * 100.0).Floor
  }

  /**
   * Progress rises strictly in declaration order, every stage is listed once, and the ring shows
   * 20, 50, 80, 95 and 100 percent.
   */
  lemma StagesInOrder()
    ensures forall i, j :: 0 <= i < j < |Stages| ==> Progress(Stages[i]) < Progress(Stages[j])
    ensures forall s: Stage :: s in Stages
    ensures |Stages| == 5
    ensures forall i :: 0 <= i < |Stages| ==> DisplayedPercent(Stages[i]) == [20, 50, 80, 95, 100][i]
  {
    forall s: Stage
      ensures s in Stages
    {
      match s
      case Uploading => assert Stages[0] == s;
      case SkeletonExtract => assert Stages[1] == s;
      case Comparing => assert Stages[2] == s;
      case Scoring => assert Stages[3] == s;
      case Completed => assert Stages[4] == s;
    }
  }

  /** What the screen shows over time: a stage, or the call that leaves for the results. */
  datatype ScreenEvent = Shown(stage: Stage) | AnalysisComplete

  /**
   * A well-formed run: it starts at the first stage, each stage shown is followed by the next one,
   * and the run ends with one `AnalysisComplete` right after `Completed`.
   */
  ghost predicate CompletesOnce(events: seq<ScreenEvent>) {
    && |events| == |Stages| + 1
    && (forall i :: 0 <= i < |Stages| ==> events[i] == Shown(Stages[i]))
    && events[|Stages|] == AnalysisComplete
  }

  /** In a well-formed run `AnalysisComplete` appears exactly once, last, and after `Completed`. */
  lemma CompleteIsLastAndOnce(events: seq<ScreenEvent>)
    requires CompletesOnce(events)
    ensures events[|events| - 1] == AnalysisComplete && events[|events| - 2] == Shown(Completed)
    ensures forall i :: 0 <= i < |events| - 1 ==> events[i] != AnalysisComplete
    ensures forall i, j :: 0 <= i < j < |events| - 1 ==> Progress(events[i].stage) < Progress(events[j].stage)
  {
    StagesInOrder();
  }

  const TipCount := 3

  class AnalysisWaitingScreen {
    var currentStage: Stage
    /** Everything the screen has shown or called so far. */
    var events: seq<ScreenEvent>
    var currentTipIndex: int

    ghost predicate Valid()
      reads this
    {
      0 <= currentTipIndex < TipCount
    }

    constructor()
      ensures Valid()
      ensures currentStage == Uploading && events == [Shown(Uploading)] && currentTipIndex == 0
    {
      currentStage := Uploading;
      events := [Shown(Uploading)];
      currentTipIndex := 0;
    }

    /** Moves to `s` and records that it is shown. */
    method Show(s: Stage)
      modifies this`currentStage, this`events
      ensures currentStage == s && events == old(events) + [Shown(s)]
    {
      currentStage := s;
      events := events + [Shown(s)];
    }

    /** The scripted effect: the four later stages in turn, then `onAnalysisComplete`. */
    method RunScript()
      requires events == [Shown(Uploading)]
      modifies this`currentStage, this`events
      ensures currentStage == Completed
      ensures CompletesOnce(events)
    {
      Show(SkeletonExtract);
      Show(Comparing);
      Show(Scoring);
      Show(Completed);
      events := events + [AnalysisComplete];
    }

    /** `ticks` turns of the tip loop: each advances the index by one, wrapping after the last tip. */
    method RotateTips(ticks: nat)
      requires Valid()
      modifies this`currentTipIndex
      ensures Valid()
      ensures currentTipIndex == (old(currentTipIndex) + ticks) % TipCount
    {
      var n := 0;
      while n < ticks
        invariant 0 <= n <= ticks
        invariant Valid()
        invariant currentTipIndex == (old(currentTipIndex) + n) % TipCount
      {
        NextTip(old(currentTipIndex) + n);
        currentTipIndex := (currentTipIndex + 1) % TipCount;
        n := n + 1;
      }
    }
  }

  /** Advancing a wrapped index by one wraps the advanced count. */
  lemma NextTip(k: nat)
    ensures (k % TipCount + 1) % TipCount == (k + 1) % TipCount
  {
  }
}
