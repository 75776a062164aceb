/** The review step of the spaced-repetition engine: an SM-2 variant in
    which a recall grade of 0..5 and the response latency produce the next
    state of one card (ease factor, interval, repetitions, counters and the
    next review time) together with a log of what changed. */
module SrsReview {
  import opened Prelude

  /** The recall grade of one review, 0 (complete blackout) .. 5 (perfect). */
  type Quality = q: int | 0 <= q <= 5

  /** The lowest passing grade; grades below it reset the card. */
  const CorrectDifficult: Quality := 3
  /** The grade that earns the interval bonus. */
  const CorrectPerfect: Quality := 5

  const MinEase: real := 1.3
  const MaxEase: real := 2.5
  const InitialEase: real := 2.5
  /** Interval after the first pass, in days. */
  const GraduatingInterval: int := 1
  /** Interval after the second consecutive pass, in days. */
  const SecondStepInterval: int := 6
  const MaxInterval: int := 365
  /** Interval multiplier for a perfect grade. */
  const PerfectBonus: real := 1.3
  /** Response latency, in milliseconds, at which the time factor is neutral. */
  const BaselineMs: int := 3000

  /** The scheduling state of one card.  `word` and `meaning` are payload. */
  datatype Card = Card(
    id: string,
    word: string,
    meaning: string,
    ease: real,
    interval: int,
    repetitions: nat,
    nextReview: Option<Instant>,
    lastReviewed: Option<Instant>,
    totalReviews: nat,
    correctCount: nat,
    incorrectCount: nat,
    averageResponseTime: real)

  /** The invariants every review re-establishes. */
  predicate ValidCard(c: Card) {
    && MinEase <= c.ease <= MaxEase
    && 1 <= c.interval <= MaxInterval
    && c.totalReviews == c.correctCount + c.incorrectCount
  }

  /** A card as first created: never scheduled, never reviewed. */
  function NewCard(id: string, word: string, meaning: string): (c: Card)
    ensures ValidCard(c)
    ensures c.ease == InitialEase && c.interval == 1 && c.repetitions == 0
    ensures c.nextReview.None? && c.lastReviewed.None? && c.totalReviews == 0
  {
    Card(id, word, meaning, InitialEase, 1, 0, None, None, 0, 0, 0, 0.0)
  }

  datatype Action = Reset | Advance

  /** The explanation surfaced to the learner after a review. */
  datatype ReviewLog = ReviewLog(
    previousInterval: int,
    previousEase: real,
    quality: Quality,
    timeFactor: real,
    action: Action,
    newInterval: int,
    newEase: real,
    nextReview: Instant)

  datatype Reviewed = Reviewed(card: Card, log: ReviewLog)

  /** Latency correction of the ease change: linear from 1.2 at 0 ms to
      1.0 at the baseline, then down to 0.8 at three times the baseline,
      where it saturates. */
  function TimeFactor(responseMs: int): (tf: real)
    ensures 0.8 <= tf
    ensures 0 <= responseMs ==> tf <= 1.2
    ensures tf > 1.0 <==> responseMs < BaselineMs
    ensures responseMs == BaselineMs ==> tf == 1.0
    ensures responseMs == 0 ==> tf == 1.2
    ensures 3 * BaselineMs <= responseMs ==> tf == 0.8
  {
    if responseMs < BaselineMs then
      1.0 + (BaselineMs - responseMs) as real / BaselineMs as real * 0.2
    else
      var excess := Min(responseMs - BaselineMs, BaselineMs * 2);
      1.0 - excess as real / (BaselineMs * 2) as real * 0.2
  }

  /** Slower answers never earn a larger factor. */
  lemma TimeFactorNonIncreasing(fast: int, slow: int)
    requires fast <= slow
    ensures TimeFactor(slow) <= TimeFactor(fast)
  {
  }

  /** The SM-2 ease change for a grade, before the latency correction. */
  function EaseDelta(q: Quality): (d: real)
    ensures d <= 0.1
    ensures d > 0.0 <==> q == CorrectPerfect
    ensures d == 0.0 <==> q == 4
    ensures q < CorrectDifficult ==> d <= -0.32
  {
    var miss := (5 - q) as real;
    EaseDeltaTable(q);
    0.1 - miss * (0.08 + miss * 0.02)
  }

  /** The values of the SM-2 delta formula, grade by grade. */
  lemma EaseDeltaTable(q: Quality)
    ensures var miss := (5 - q) as real;
      0.1 - miss * (0.08 + miss * 0.02) == [-0.8, -0.54, -0.32, -0.14, 0.0, 0.1][q]
  {
    if q == 0 {
    } else if q == 1 {
    } else if q == 2 {
    } else if q == 3 {
    } else if q == 4 {
    }
  }

  /** A better grade always means a larger ease change. */
  lemma EaseDeltaIncreasing(q1: Quality, q2: Quality)
    requires q1 < q2
    ensures EaseDelta(q1) < EaseDelta(q2)
  {
    EaseDeltaTable(q1);
    EaseDeltaTable(q2);
  }

  /** The ease after a review: the latency-weighted SM-2 change, kept
      within [MinEase, MaxEase] whatever the starting ease. */
  function NewEase(ease: real, q: Quality, tf: real): (e: real)
    ensures MinEase <= e <= MaxEase
    ensures MinEase <= ease + EaseDelta(q) * tf <= MaxEase ==> e == ease + EaseDelta(q) * tf
    ensures ease + EaseDelta(q) * tf < MinEase ==> e == MinEase
    ensures MaxEase < ease + EaseDelta(q) * tf ==> e == MaxEase
  {
    Clamp(ease + EaseDelta(q) * tf, MinEase, MaxEase)
  }

  /** With a positive time factor, a better grade never lowers the ease. */
  lemma {:induction false} NewEaseMonotoneInQuality(ease: real, q1: Quality, q2: Quality, tf: real)
    requires q1 <= q2 && 0.0 < tf
    ensures NewEase(ease, q1, tf) <= NewEase(ease, q2, tf)
  {
    if q1 < q2 {
      EaseDeltaIncreasing(q1, q2);
      assert 0.0 <= (EaseDelta(q2) - EaseDelta(q1)) * tf;
    }
  }

  /** The interval clamp applied on both branches. */
  function ClampInterval(n: int): (r: int)
    ensures 1 <= r <= MaxInterval
    ensures 1 <= n <= MaxInterval ==> r == n
    ensures n < 1 ==> r == 1
    ensures MaxInterval < n ==> r == MaxInterval
  {
    Max(Min(n, MaxInterval), 1)
  }

  /** The interval after a pass, before clamping: the fixed graduation
      steps for the first two passes, then the previous interval times the
      new ease, and the perfect-grade bonus on top. */
  function PassingInterval(repetitions: nat, interval: int, q: Quality, newEase: real): (n: int)
    ensures repetitions == 0 ==> n == GraduatingInterval
    ensures repetitions == 1 ==> n == (if q == CorrectPerfect then 7 else SecondStepInterval)
    ensures 2 <= repetitions && q != CorrectPerfect ==> n == Trunc(interval as real * newEase)
    ensures 2 <= repetitions && q == CorrectPerfect ==>
      n == Trunc(Trunc(interval as real * newEase) as real * PerfectBonus)
  {
    var grown :=
      if repetitions == 0 then GraduatingInterval
      else if repetitions == 1 then SecondStepInterval
      else Trunc(interval as real * newEase);
    if q == CorrectPerfect then Trunc(grown as real * PerfectBonus) else grown
  }

  /** Past the graduation steps, a pass never shortens a positive interval:
      both multipliers are at least 1. */
  lemma PassingIntervalGrows(repetitions: nat, interval: int, q: Quality, newEase: real)
    requires 2 <= repetitions && 1 <= interval && 1.0 <= newEase
    ensures interval <= PassingInterval(repetitions, interval, q, newEase)
  {
    WholeScaledGrows(interval, newEase);
    var grown := Trunc(interval as real * newEase);
    if q == CorrectPerfect {
      WholeScaledGrows(grown, PerfectBonus);
    }
  }

  /** A whole number scaled by a factor of at least 1 and truncated is no
      smaller. */
  lemma WholeScaledGrows(n: int, f: real)
    requires 0 <= n && 1.0 <= f
    ensures n <= Trunc(n as real * f)
  {
    TruncScaledGrows(n as real, f);
  }

  /** Python's incremental mean: `(average * (n - 1) + x) / n` for the
      post-increment count `n`. */
  function RunningMean(average: real, n: nat, x: real): (r: real)
    requires 1 <= n
    ensures r * n as real == average * (n - 1) as real + x
  {
    (average * (n - 1) as real + x) / n as real
  }

  /** One review of `card` with grade `q`, answered in `responseMs`
      milliseconds, at instant `now`. */
  function Review(card: Card, q: Quality, responseMs: int, now: Instant): (res: Reviewed)
    // both branches: clamped ease and interval, counters, timestamps
    ensures res.card.ease == NewEase(card.ease, q, TimeFactor(responseMs))
    ensures MinEase <= res.card.ease <= MaxEase
    ensures 1 <= res.card.interval <= MaxInterval
    ensures res.card.totalReviews == card.totalReviews + 1
    ensures res.card.nextReview == Some(now + res.card.interval * SecondsPerDay)
    ensures res.card.lastReviewed == Some(now)
    ensures res.card.id == card.id && res.card.word == card.word && res.card.meaning == card.meaning
    ensures res.card.averageResponseTime * res.card.totalReviews as real
         == card.averageResponseTime * card.totalReviews as real + responseMs as real
    // a failing grade resets the card
    ensures q < CorrectDifficult ==>
      && res.card.repetitions == 0
      && res.card.interval == 1
      && res.card.incorrectCount == card.incorrectCount + 1
      && res.card.correctCount == card.correctCount
      && res.log.action == Reset
    // a passing grade advances it
    ensures CorrectDifficult <= q ==>
      && res.card.repetitions == card.repetitions + 1
      && res.card.correctCount == card.correctCount + 1
      && res.card.incorrectCount == card.incorrectCount
      && res.log.action == Advance
    ensures CorrectDifficult <= q ==>
      res.card.interval == ClampInterval(PassingInterval(card.repetitions, card.interval, q, res.card.ease))
    // the log reports the transition
    ensures res.log.previousInterval == card.interval && res.log.previousEase == card.ease
    ensures res.log.quality == q && res.log.timeFactor == TimeFactor(responseMs)
    ensures res.log.newInterval == res.card.interval && res.log.newEase == res.card.ease
    ensures Some(res.log.nextReview) == res.card.nextReview
  {
    var tf := TimeFactor(responseMs);
    var ease := NewEase(card.ease, q, tf);
    var passed := CorrectDifficult <= q;
    var interval := ClampInterval(if passed then PassingInterval(card.repetitions, card.interval, q, ease) else 1);
    var total := card.totalReviews + 1;
    var average := RunningMean(card.averageResponseTime, total, responseMs as real);
    var next := now + interval * SecondsPerDay;
    var updated := card.(
      ease := ease,
      interval := interval,
      repetitions := if passed then card.repetitions + 1 else 0,
      nextReview := Some(next),
      lastReviewed := Some(now),
      totalReviews := total,
      correctCount := if passed then card.correctCount + 1 else card.correctCount,
      incorrectCount := if passed then card.incorrectCount else card.incorrectCount + 1,
      averageResponseTime := average);
    Reviewed(updated, ReviewLog(card.interval, card.ease, q, tf, if passed then Advance else Reset,
                                interval, ease, next))
  }

  /** Every review keeps the card invariants, whatever the grade and latency. */
  lemma ReviewPreservesValidity(card: Card, q: Quality, responseMs: int, now: Instant)
    requires ValidCard(card)
    ensures ValidCard(Review(card, q, responseMs, now).card)
  {
  }

  /** For one card and one latency, a better grade never yields a lower ease. */
  lemma {:induction false} ReviewEaseMonotoneInQuality(card: Card, q1: Quality, q2: Quality, responseMs: int, now: Instant)
    requires q1 <= q2
    ensures Review(card, q1, responseMs, now).card.ease <= Review(card, q2, responseMs, now).card.ease
  {
    NewEaseMonotoneInQuality(card.ease, q1, q2, TimeFactor(responseMs));
  }

  /** A passing review of a card past its graduation steps never shortens
      its interval: the ease is at least 1.3, so the product grows. */
  lemma {:induction false} MatureIntervalNeverShrinks(card: Card, q: Quality, responseMs: int, now: Instant)
    requires ValidCard(card) && CorrectDifficult <= q && 2 <= card.repetitions
    ensures card.interval <= Review(card, q, responseMs, now).card.interval
  {
    var e := Review(card, q, responseMs, now).card.ease;
    PassingIntervalGrows(card.repetitions, card.interval, q, e);
  }

  /** The arithmetic mean of a history, 0 when empty (a new card's average). */
  function Mean(s: seq<real>): real {
    if |s| == 0 then 0.0 else Sum(s) / |s| as real
  }

  /** The incremental update keeps `averageResponseTime` equal to the mean
      of every response time the card has seen. */
  lemma {:induction false} ReviewKeepsMeanResponseTime(card: Card, q: Quality, responseMs: int, now: Instant, history: seq<real>)
    requires card.totalReviews == |history|
    requires card.averageResponseTime == Mean(history)
    ensures Review(card, q, responseMs, now).card.averageResponseTime == Mean(history + [responseMs as real])
  {
    var h := history + [responseMs as real];
    assert h[..|h| - 1] == history;
    assert Sum(h) == Sum(history) + responseMs as real;
    MeanTimesCount(history);
    var updated := Review(card, q, responseMs, now).card;
    assert updated.averageResponseTime * |h| as real == Sum(h);
    QuotientOfProduct(updated.averageResponseTime, |h| as real, Sum(h));
  }

  /** The mean times the number of entries is the total. */
  lemma MeanTimesCount(s: seq<real>)
    ensures Mean(s) * |s| as real == Sum(s)
  {
    if 0 < |s| {
      var n := |s| as real;
      assert Sum(s) / n * n == Sum(s);
    }
  }

  /** A new card answered correctly with slight hesitation graduates to a
      one-day interval; its ease stays at the maximum. */
  lemma ScenarioFirstPass(id: string, word: string, meaning: string, now: Instant)
    ensures var r := Review(NewCard(id, word, meaning), 4, 2000, now);
      && r.log.action == Advance && r.card.repetitions == 1
      && r.card.interval == 1 && r.card.ease == 2.5
  {
    var r := Review(NewCard(id, word, meaning), 4, 2000, now);
    assert EaseDelta(4) == 0.0;
    assert r.card.ease == 2.5;
  }

  /** The second consecutive pass takes the fixed six-day step; a perfect
      grade turns it into floor(6 * 1.3) = 7, and the ease stays clamped
      at the maximum. */
  lemma ScenarioSecondPerfectPass(card: Card, now: Instant)
    requires card.repetitions == 1 && card.interval == 1 && card.ease == 2.5
    ensures var r := Review(card, 5, 1000, now);
      && r.card.repetitions == 2 && r.card.interval == 7 && r.card.ease == 2.5
  {
    var r := Review(card, 5, 1000, now);
    assert 2.5 < card.ease + EaseDelta(5) * TimeFactor(1000);
  }

  /** A failed review of a mature card resets it and lowers its ease. */
  lemma ScenarioLapse(card: Card, now: Instant)
    requires card.repetitions == 3 && card.interval == 10 && card.ease == 2.0
    ensures var r := Review(card, 1, 3000, now);
      && r.card.repetitions == 0 && r.card.interval == 1
      && r.card.incorrectCount == card.incorrectCount + 1 && r.card.ease < 2.0
  {
    var r := Review(card, 1, 3000, now);
    assert TimeFactor(3000) == 1.0;
    assert r.card.ease == Clamp(2.0 + EaseDelta(1), MinEase, MaxEase);
  }
}
