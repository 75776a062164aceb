/** Adaptive learning: a proportional controller that nudges a target
    difficulty from the learner's recent accuracy, and a stable ranking of
    candidate content by fit to that difficulty and to the learner's
    weak areas. */
module Adaptive {
  import opened Prelude
  import opened Ranking

  const InitialDifficulty: real := 0.5
  const MinDifficulty: real := 0.1
  const MaxDifficulty: real := 0.9
  /** Proportional gain applied to the accuracy error. */
  const Gain: real := 0.5

  /** The controller's state: every difficulty it produced and every
      accuracy it was given, oldest first.  Both only grow. */
  datatype Controller = Controller(difficultyHistory: seq<real>, accuracyHistory: seq<real>)

  function NewController(): Controller {
    Controller([], [])
  }

  /** The difficulty of the previous step, or the initial one. */
  function LastDifficulty(ctl: Controller): real {
    if |ctl.difficultyHistory| > 0 then ctl.difficultyHistory[|ctl.difficultyHistory| - 1]
    else InitialDifficulty
  }

  datatype Adjustment = Adjustment(controller: Controller, difficulty: real)

  /** One control step: move the last difficulty by half the accuracy error
      `targetAccuracy - recentAccuracy`, clamp it to [0.1, 0.9], and record
      both the new difficulty and the observed accuracy. */
  function CalculateOptimalDifficulty(ctl: Controller, recentAccuracy: real, targetAccuracy: real): (a: Adjustment)
    ensures MinDifficulty <= a.difficulty <= MaxDifficulty
    ensures a.controller.difficultyHistory == ctl.difficultyHistory + [a.difficulty]
    ensures a.controller.accuracyHistory == ctl.accuracyHistory + [recentAccuracy]
    ensures var moved := LastDifficulty(ctl) + (targetAccuracy - recentAccuracy) * Gain;
      MinDifficulty <= moved <= MaxDifficulty ==> a.difficulty == moved
    ensures var moved := LastDifficulty(ctl) + (targetAccuracy - recentAccuracy) * Gain;
      && (moved < MinDifficulty ==> a.difficulty == MinDifficulty)
      && (MaxDifficulty < moved ==> a.difficulty == MaxDifficulty)
    ensures a.difficulty == Clamp(LastDifficulty(ctl) + (targetAccuracy - recentAccuracy) * Gain, MinDifficulty, MaxDifficulty)
    ensures |ctl.difficultyHistory| == 0 ==>
      a.difficulty == Clamp(InitialDifficulty + (targetAccuracy - recentAccuracy) * Gain, MinDifficulty, MaxDifficulty)
  {
    var error := targetAccuracy - recentAccuracy;
    var difficulty := Clamp(LastDifficulty(ctl) + error * Gain, MinDifficulty, MaxDifficulty);
    Adjustment(Controller(ctl.difficultyHistory + [difficulty], ctl.accuracyHistory + [recentAccuracy]), difficulty)
  }

  /** Every recorded difficulty is in range, and the two histories have
      one entry per step. */
  predicate WellFormed(ctl: Controller) {
    && |ctl.difficultyHistory| == |ctl.accuracyHistory|
    && forall i :: 0 <= i < |ctl.difficultyHistory| ==> MinDifficulty <= ctl.difficultyHistory[i] <= MaxDifficulty
  }

  lemma NewControllerWellFormed()
    ensures WellFormed(NewController())
  {
  }

  /** Each step keeps the controller well formed, so the difficulty it
      steps from is always in range. */
  lemma StepPreservesWellFormed(ctl: Controller, recentAccuracy: real, targetAccuracy: real)
    requires WellFormed(ctl)
    ensures WellFormed(CalculateOptimalDifficulty(ctl, recentAccuracy, targetAccuracy).controller)
    ensures MinDifficulty <= LastDifficulty(ctl) <= MaxDifficulty
  {
  }

  /** The direction of a step, as written: accuracy below target raises
      the difficulty, accuracy above target lowers it, and accuracy on
      target leaves it unchanged. */
  lemma StepDirection(ctl: Controller, recentAccuracy: real, targetAccuracy: real)
    requires WellFormed(ctl)
    ensures var d := CalculateOptimalDifficulty(ctl, recentAccuracy, targetAccuracy).difficulty;
      && (recentAccuracy <= targetAccuracy ==> LastDifficulty(ctl) <= d)
      && (targetAccuracy <= recentAccuracy ==> d <= LastDifficulty(ctl))
      && (recentAccuracy == targetAccuracy ==> d == LastDifficulty(ctl))
  {
    StepPreservesWellFormed(ctl, recentAccuracy, targetAccuracy);
  }

  /** A candidate item.  Each field may be missing from the dictionary it
      models; `id` stands for the rest of its payload. */
  datatype Content = Content(id: string, difficulty: Option<real>, tags: Option<seq<string>>, completed: Option<bool>)

  /** The number of distinct tags the item shares with the weak areas. */
  function WeaknessOverlap(c: Content, weaknesses: seq<string>): nat {
    var tags := c.tags.GetOr([]);
    |(set t | t in tags) * (set w | w in weaknesses)|
  }

  function Abs(x: real): real { if x < 0.0 then -x else x }

  /** 50 points for difficulty fit, 30 per shared weak tag, 20 if not yet
      completed.  A missing difficulty counts as 0.5. */
  function ContentScore(c: Content, target: real, weaknesses: seq<string>): real {
    var fit := 1.0 - Abs(c.difficulty.GetOr(0.5) - target);
    var unseen := if !c.completed.GetOr(false) then 20.0 else 0.0;
    fit * 50.0 + WeaknessOverlap(c, weaknesses) as real * 30.0 + unseen
  }

  /** With difficulties in [0, 1], the fit and freshness parts together
      contribute between 0 and 70 points on top of the weakness bonus. */
  lemma ContentScoreBounds(c: Content, target: real, weaknesses: seq<string>)
    requires 0.0 <= c.difficulty.GetOr(0.5) <= 1.0 && 0.0 <= target <= 1.0
    ensures var bonus := WeaknessOverlap(c, weaknesses) as real * 30.0;
      bonus <= ContentScore(c, target, weaknesses) <= bonus + 70.0
  {
  }

  /** Between two items alike but for difficulty, the one closer to the
      target never scores lower; an item not yet completed scores exactly
      20 more than the same item completed. */
  lemma ContentScorePreferences(c: Content, d1: real, d2: real, target: real, weaknesses: seq<string>)
    requires Abs(d1 - target) <= Abs(d2 - target)
    ensures ContentScore(c.(difficulty := Some(d2)), target, weaknesses)
         <= ContentScore(c.(difficulty := Some(d1)), target, weaknesses)
    ensures ContentScore(c.(completed := Some(true)), target, weaknesses) + 20.0
         == ContentScore(c.(completed := Some(false)), target, weaknesses)
  {
  }

  function ContentKey(target: real, weaknesses: seq<string>): Content -> Rank {
    (c: Content) => Rank(ContentScore(c, target, weaknesses), 0.0)
  }

  /** The whole pool, best score first; items with equal scores keep their
      pool order. */
  function SelectContent(pool: seq<Content>, target: real, weaknesses: seq<string>): (r: seq<Content>)
    ensures multiset(r) == multiset(pool)
    ensures forall i, j :: 0 <= i < j < |r| ==>
      ContentScore(r[j], target, weaknesses) <= ContentScore(r[i], target, weaknesses)
    ensures forall score: real ::
      WithRank(r, ContentKey(target, weaknesses), Rank(score, 0.0))
        == WithRank(pool, ContentKey(target, weaknesses), Rank(score, 0.0))
  {
    SortByRank(pool, ContentKey(target, weaknesses))
  }
}
