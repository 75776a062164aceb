/** The read-only queries of the spaced-repetition engine: which cards to
    review now and in what order, a cumulative forecast of upcoming
    reviews, the retention estimate's inputs, and mastery classification. */
module SrsQueries {
  import opened Prelude
  import opened Ranking
  import opened SrsReview

  /** Scheduled, and its review time has come. */
  predicate IsDue(c: Card, now: Instant) {
    c.nextReview.Some? && c.nextReview.value <= now
  }

  /** Never passed and never scheduled. */
  predicate IsNew(c: Card) {
    c.repetitions == 0 && c.nextReview.None?
  }

  /** A due card has a review time and a new card has none, so no card is
      in both pools. */
  lemma DueAndNewDisjoint(c: Card, now: Instant)
    ensures !(IsDue(c, now) && IsNew(c))
  {
  }

  /** Whole days since the card fell due (`timedelta.days`, which rounds down). */
  function DaysOverdue(c: Card, now: Instant): (d: int)
    requires c.nextReview.Some?
    ensures d * SecondsPerDay <= now - c.nextReview.value < (d + 1) * SecondsPerDay
    ensures IsDue(c, now) <==> 0 <= d
  {
    (now - c.nextReview.value) / SecondsPerDay
  }

  /** The review-order key: more days overdue first, then lower ease. */
  function UrgencyRank(c: Card, now: Instant): Rank {
    Rank(if c.nextReview.Some? then DaysOverdue(c, now) as real else 0.0, -c.ease)
  }

  function UrgencyKey(now: Instant): Card -> Rank {
    (c: Card) => UrgencyRank(c, now)
  }

  /** The due pool, in the order of `cards`. */
  function DuePool(cards: seq<Card>, now: Instant): (pool: seq<Card>)
    ensures forall i :: 0 <= i < |pool| ==> pool[i] in cards && IsDue(pool[i], now)
    ensures forall i :: 0 <= i < |cards| && IsDue(cards[i], now) ==> cards[i] in pool
  {
    Filter(cards, c => IsDue(c, now))
  }

  /** The new pool, in the order of `cards`. */
  function NewPool(cards: seq<Card>): (pool: seq<Card>)
    ensures forall i :: 0 <= i < |pool| ==> pool[i] in cards && IsNew(pool[i])
    ensures forall i :: 0 <= i < |cards| && IsNew(cards[i]) ==> cards[i] in pool
  {
    Filter(cards, IsNew)
  }

  /** The whole due pool in review order: a stable sort by urgency, so
      cards that tie on both days overdue and ease keep their input order. */
  function ReviewQueue(cards: seq<Card>, now: Instant): (queue: seq<Card>)
    ensures multiset(queue) == multiset(DuePool(cards, now))
    ensures forall k :: WithRank(queue, UrgencyKey(now), k) == WithRank(DuePool(cards, now), UrgencyKey(now), k)
    ensures forall i, j :: 0 <= i < j < |queue| ==>
      && queue[i].nextReview.Some? && queue[j].nextReview.Some?
      && (|| DaysOverdue(queue[i], now) > DaysOverdue(queue[j], now)
          || (DaysOverdue(queue[i], now) == DaysOverdue(queue[j], now) && queue[i].ease <= queue[j].ease))
  {
    var pool := DuePool(cards, now);
    var queue := SortByRank(pool, UrgencyKey(now));
    forall i | 0 <= i < |queue|
      ensures queue[i].nextReview.Some?
    {
      assert queue[i] in multiset(pool);
    }
    queue
  }

  datatype DueCards = DueCards(review: seq<Card>, newCards: seq<Card>, totalDue: nat, totalNew: nat)

  /** The cards to study now: at most `limit` due cards, most urgent first,
      and at most `includeNew` new cards in input order; the totals count
      the whole pools, not the returned slices.  Slicing follows Python, so
      a negative bound drops cards from the end. */
  function GetDueCards(cards: seq<Card>, limit: int, includeNew: int, now: Instant): (r: DueCards)
    ensures forall i :: 0 <= i < |r.review| ==> r.review[i] in cards && IsDue(r.review[i], now)
    ensures forall i :: 0 <= i < |r.newCards| ==> r.newCards[i] in cards && IsNew(r.newCards[i])
    ensures r.totalDue == |DuePool(cards, now)| && r.totalNew == |NewPool(cards)|
    ensures 0 <= limit ==> |r.review| == Min(limit, r.totalDue)
    ensures 0 <= includeNew ==> |r.newCards| == Min(includeNew, r.totalNew)
    ensures limit < 0 ==> |r.review| == Max(r.totalDue + limit, 0)
    ensures includeNew < 0 ==> |r.newCards| == Max(r.totalNew + includeNew, 0)
    ensures r.review <= ReviewQueue(cards, now)
    ensures r.newCards <= NewPool(cards)
  {
    var queue := ReviewQueue(cards, now);
    var pool := NewPool(cards);
    assert |queue| == |DuePool(cards, now)| by {
      assert |multiset(queue)| == |multiset(DuePool(cards, now))|;
    }
    forall i | 0 <= i < |queue|
      ensures queue[i] in cards && IsDue(queue[i], now)
    {
      assert queue[i] in multiset(DuePool(cards, now));
    }
    DueCards(Prefix(queue, limit), Prefix(pool, includeNew), |queue|, |pool|)
  }

  /** Scheduled for a calendar day no later than `lastDay`. */
  function ScheduledBy(lastDay: int): Card -> bool {
    (c: Card) => c.nextReview.Some? && DayOf(c.nextReview.value) <= lastDay
  }

  /** The number of cards scheduled for `day` or earlier. */
  function DueBy(cards: seq<Card>, day: int): (n: nat)
    ensures n <= |cards|
  {
    Count(cards, ScheduledBy(day))
  }

  /** A later day never has fewer cards scheduled by it. */
  lemma DueByMonotone(cards: seq<Card>, day1: int, day2: int)
    requires day1 <= day2
    ensures DueBy(cards, day1) <= DueBy(cards, day2)
  {
    assert forall i :: 0 <= i < |cards| && ScheduledBy(day1)(cards[i]) ==> ScheduledBy(day2)(cards[i]);
    CountMonotone(cards, ScheduledBy(day1), ScheduledBy(day2));
  }

  /** One entry of the forecast: the day and how many cards are due by then. */
  datatype WorkloadDay = WorkloadDay(day: int, dueCount: nat)

  /** The forecast for the next `daysAhead` days, starting today: each entry
      counts every card scheduled on or before its day, so the curve is
      cumulative.  A non-positive horizon gives no entries. */
  function EstimateWorkload(cards: seq<Card>, daysAhead: int, now: Instant): (w: seq<WorkloadDay>)
    ensures |w| == Max(daysAhead, 0)
    ensures forall d :: 0 <= d < |w| ==> w[d].day == DayOf(now) + d
    ensures forall d :: 0 <= d < |w| ==> w[d].dueCount == DueBy(cards, DayOf(now) + d)
    ensures forall d :: 0 <= d < |w| ==> w[d].dueCount <= |cards|
  {
    var today := DayOf(now);
    seq(Max(daysAhead, 0), d => WorkloadDay(today + d, DueBy(cards, today + d)))
  }

  /** The forecast never decreases from one day to a later one. */
  lemma WorkloadNonDecreasing(cards: seq<Card>, daysAhead: int, now: Instant, d: int, e: int)
    requires 0 <= d <= e < daysAhead
    ensures EstimateWorkload(cards, daysAhead, now)[d].dueCount <= EstimateWorkload(cards, daysAhead, now)[e].dueCount
  {
    DueByMonotone(cards, DayOf(now) + d, DayOf(now) + e);
  }

  /** Every card due now is already counted in the first day of the
      forecast, so the forecast starts at no less than the due total. */
  lemma WorkloadStartsWithDueCards(cards: seq<Card>, daysAhead: int, now: Instant)
    requires 0 < daysAhead
    ensures GetDueCards(cards, 0, 0, now).totalDue <= EstimateWorkload(cards, daysAhead, now)[0].dueCount
  {
    assert |Filter(cards, c => IsDue(c, now))| == Count(cards, c => IsDue(c, now));
    CountMonotone(cards, c => IsDue(c, now), ScheduledBy(DayOf(now)));
  }

  /** The inputs of the forgetting curve `100 * exp(-elapsedDays / stability)`. */
  datatype Retention = NeverReviewed | ForgettingCurve(elapsedDays: int, stability: real)

  /** The retention estimate `daysFromNow` days ahead: zero for a card never
      reviewed, otherwise the curve with the whole days elapsed since the
      last review and stability `interval * ease`. */
  function PredictRetention(c: Card, daysFromNow: int, now: Instant): (r: Retention)
    ensures r.NeverReviewed? <==> c.lastReviewed.None?
    ensures r.ForgettingCurve? ==>
      && r.elapsedDays == DayOf(now + daysFromNow * SecondsPerDay - c.lastReviewed.value)
      && r.stability == c.interval as real * c.ease
  {
    match c.lastReviewed
    case None => NeverReviewed
    case Some(last) =>
      ForgettingCurve(DayOf(now + daysFromNow * SecondsPerDay - last), c.interval as real * c.ease)
  }

  /** For a card within its invariants the curve's stability is at least
      the minimum ease, so the exponent `-elapsedDays / stability` is defined. */
  lemma ValidCardHasPositiveStability(c: Card, daysFromNow: int, now: Instant)
    requires ValidCard(c) && c.lastReviewed.Some?
    ensures MinEase <= PredictRetention(c, daysFromNow, now).stability
  {
    assert 1.0 * c.ease <= c.interval as real * c.ease;
  }

  /** The retention percentage where it does not need the exponential:
      0 for a card never reviewed, 100 when no whole day has elapsed. */
  function RetentionPercent(r: Retention): (p: Option<real>)
    ensures p.Some? <==> r.NeverReviewed? || r.elapsedDays == 0
    ensures r.NeverReviewed? ==> p == Some(0.0)
    ensures r.ForgettingCurve? && r.elapsedDays == 0 ==> p == Some(100.0)
  {
    match r
    case NeverReviewed => Some(0.0)
    case ForgettingCurve(elapsed, _) => if elapsed == 0 then Some(100.0) else None
  }

  /** Right after a review the card is on the curve, at its starting point. */
  lemma JustReviewedIsFullyRetained(card: Card, q: Quality, responseMs: int, now: Instant)
    ensures var c := Review(card, q, responseMs, now).card;
      RetentionPercent(PredictRetention(c, 0, now)) == Some(100.0)
  {
  }

  datatype MasteryLevel = New | Learning | Familiar | Mastered
  datatype Colour = Gray | Blue | Green | Gold

  function LevelColour(level: MasteryLevel): Colour {
    match level
    case New => Gray
    case Learning => Blue
    case Familiar => Green
    case Mastered => Gold
  }

  /** The position of a level in New < Learning < Familiar < Mastered. */
  function LevelOrder(level: MasteryLevel): nat {
    match level
    case New => 0
    case Learning => 1
    case Familiar => 2
    case Mastered => 3
  }

  datatype Mastery = Mastery(
    percent: real,
    level: MasteryLevel,
    colour: Colour,
    accuracyPercent: real,
    intervalDays: int,
    reviewsCount: nat,
    isMastered: bool)

  /** The bucket of a mastery percentage. */
  function LevelFor(percent: real): (level: MasteryLevel)
    ensures level == Mastered <==> 90.0 <= percent
    ensures level == Familiar <==> 70.0 <= percent < 90.0
    ensures level == Learning <==> 40.0 <= percent < 70.0
    ensures level == New <==> percent < 40.0
  {
    if 90.0 <= percent then Mastered
    else if 70.0 <= percent then Familiar
    else if 40.0 <= percent then Learning
    else New
  }

  lemma LevelForMonotone(p1: real, p2: real)
    requires p1 <= p2
    ensures LevelOrder(LevelFor(p1)) <= LevelOrder(LevelFor(p2))
  {
  }

  /** Share of correct answers, 0 before any review. */
  function Accuracy(c: Card): (a: real)
    ensures 0.0 <= a <= 1.0
    ensures c.correctCount + c.incorrectCount == 0 ==> a == 0.0
  {
    var total := c.correctCount + c.incorrectCount;
    if total > 0 then c.correctCount as real / total as real else 0.0
  }

  /** Interval credit, full at 90 days. */
  function IntervalScore(interval: int): (s: real)
    ensures s <= 1.0
    ensures 0 <= interval ==> 0.0 <= s
  {
    var ratio := interval as real / 90.0;
    if ratio < 1.0 then ratio else 1.0
  }

  /** A card's mastery: 30% accuracy, 50% interval (capped at 90 days) and
      20% ease within its range, as a percentage, with its level. */
  function MasteryOf(c: Card): (m: Mastery)
    ensures c.correctCount + c.incorrectCount == 0 ==> m.accuracyPercent == 0.0
    ensures 0.0 <= m.accuracyPercent <= 100.0
    ensures MinEase <= c.ease <= MaxEase && 0 <= c.interval ==> 0.0 <= m.percent <= 100.0
    ensures m.level == LevelFor(m.percent)
    ensures m.isMastered <==> m.level == Mastered
    ensures m.colour == LevelColour(m.level)
    ensures m.intervalDays == c.interval && m.reviewsCount == c.totalReviews
    ensures m.accuracyPercent == Accuracy(c) * 100.0
    ensures m.percent
         == 30.0 * Accuracy(c) + 50.0 * IntervalScore(c.interval) + 20.0 * (c.ease - MinEase) / (MaxEase - MinEase)
  {
    var accuracy := Accuracy(c);
    var easeScore := (c.ease - MinEase) / (MaxEase - MinEase);
    var percent := (accuracy * 0.3 + IntervalScore(c.interval) * 0.5 + easeScore * 0.2) * 100.0;
    var level := LevelFor(percent);
    Mastery(percent, level, LevelColour(level), accuracy * 100.0, c.interval, c.totalReviews, 90.0 <= percent)
  }

  /** Holding everything else fixed, a longer interval never lowers mastery. */
  lemma MasteryMonotoneInInterval(c: Card, longer: int)
    requires c.interval <= longer
    ensures MasteryOf(c).percent <= MasteryOf(c.(interval := longer)).percent
    ensures LevelOrder(MasteryOf(c).level) <= LevelOrder(MasteryOf(c.(interval := longer)).level)
  {
    LevelForMonotone(MasteryOf(c).percent, MasteryOf(c.(interval := longer)).percent);
  }

  /** Holding everything else fixed, a higher ease never lowers mastery. */
  lemma MasteryMonotoneInEase(c: Card, higher: real)
    requires c.ease <= higher
    ensures MasteryOf(c).percent <= MasteryOf(c.(ease := higher)).percent
    ensures LevelOrder(MasteryOf(c).level) <= LevelOrder(MasteryOf(c.(ease := higher)).level)
  {
    LevelForMonotone(MasteryOf(c).percent, MasteryOf(c.(ease := higher)).percent);
  }

  /** One more correct answer never lowers accuracy, and so never lowers
      mastery. */
  lemma MasteryMonotoneInCorrectAnswers(c: Card)
    ensures Accuracy(c) <= Accuracy(c.(correctCount := c.correctCount + 1))
    ensures MasteryOf(c).percent <= MasteryOf(c.(correctCount := c.correctCount + 1)).percent
  {
    var k, t := c.correctCount, c.correctCount + c.incorrectCount;
    if t > 0 {
      QuotientGrowsByOne(k, t);
    }
  }

  /** `k / t <= (k + 1) / (t + 1)` whenever `k <= t`. */
  lemma QuotientGrowsByOne(k: nat, t: nat)
    requires 0 < t && k <= t
    ensures (k as real) / (t as real) <= (k + 1) as real / (t + 1) as real
  {
    var a, b := k as real, t as real;
    assert a * (b + 1.0) <= (a + 1.0) * b;
    DivCrossMultiply(a, b, a + 1.0, b + 1.0);
  }

  /** Comparing quotients with positive denominators by cross-multiplying. */
  lemma DivCrossMultiply(a: real, b: real, c: real, d: real)
    requires 0.0 < b && 0.0 < d && a * d <= c * b
    ensures a / b <= c / d
  {
    assert a / b == (a * d) / (b * d);
    assert c / d == (c * b) / (b * d);
  }

  /** A card always answered correctly, with an interval of at least 90 days
      and the maximum ease, is fully mastered. */
  lemma PerfectCardIsMastered(c: Card)
    requires c.correctCount > 0 && c.incorrectCount == 0
    requires 90 <= c.interval && c.ease == MaxEase
    ensures MasteryOf(c).percent == 100.0
    ensures MasteryOf(c).level == Mastered && MasteryOf(c).isMastered
  {
    assert Accuracy(c) == 1.0;
    assert IntervalScore(c.interval) == 1.0;
  }

  /** A freshly created card is classified New. */
  lemma NewCardIsNew(id: string, word: string, meaning: string)
    ensures MasteryOf(NewCard(id, word, meaning)).level == New
  {
  }
}
