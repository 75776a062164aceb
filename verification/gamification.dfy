/** The gamification rules: experience points with a streak multiplier,
    levels from an ascending XP threshold table, achievements unlocked by
    user statistics, daily study streaks, daily challenges, league points
    and leaderboard tiers.  "Now" is a parameter. */
module Gamification {
  import opened Prelude

  // ---------------------------------------------------------------- XP

  /** XP per event type. */
  const XpValues: map<string, nat> := map[
    "lesson_complete" := 20,
    "conversation_message" := 5,
    "word_learned" := 3,
    "word_mastered" := 10,
    "pronunciation_practice" := 8,
    "daily_goal_met" := 30,
    "streak_bonus" := 5,
    "perfect_score" := 25,
    "first_lesson_of_day" := 15,
    "challenge_complete" := 50
  ]

  /** The XP of an event type; unknown types are worth nothing. */
  function BaseXp(eventType: string): (xp: nat)
    ensures eventType !in XpValues ==> xp == 0
    ensures eventType in XpValues ==> xp == XpValues[eventType]
  {
    if eventType in XpValues then XpValues[eventType] else 0
  }

  /** The bonuses for the first event of the day and for a perfect score,
      which are also entries of the XP table. */
  const FirstOfDayXp: nat := 15
  const PerfectScoreXp: nat := 25

  lemma BonusesAgreeWithTable()
    ensures XpValues["first_lesson_of_day"] == FirstOfDayXp
    ensures XpValues["perfect_score"] == PerfectScoreXp
  {
  }

  /** The XP before the multiplier: the event's own value plus the
      first-of-day and perfect-score bonuses. */
  function RawXp(eventType: string, isFirstOfDay: bool, isPerfect: bool): (xp: nat)
    ensures BaseXp(eventType) <= xp <= BaseXp(eventType) + FirstOfDayXp + PerfectScoreXp
    ensures eventType !in XpValues ==>
      xp == (if isFirstOfDay then FirstOfDayXp else 0) + (if isPerfect then PerfectScoreXp else 0)
  {
    BaseXp(eventType)
      + (if isFirstOfDay then FirstOfDayXp else 0)
      + (if isPerfect then PerfectScoreXp else 0)
  }

  /** 2% more per streak day, capped at +50%. */
  function StreakMultiplier(streakDays: int): (m: real)
    ensures m <= 1.5
    ensures 0 <= streakDays ==> 1.0 <= m
    ensures 1.0 < m <==> 0 < streakDays
    ensures 25 <= streakDays ==> m == 1.5
  {
    var bonus := streakDays as real * 0.02;
    1.0 + (if bonus < 0.5 then bonus else 0.5)
  }

  /** The streak bonus attached to an award: the streak and the percentage. */
  datatype StreakBonus = StreakBonus(streakDays: int, percent: int)

  datatype XpEvent = XpEvent(eventType: string, xpAmount: int, multiplier: real, bonus: Option<StreakBonus>)

  /** The percentage shown for a streak bonus: the multiplier's excess
      over 1, in whole percent. */
  function BonusPercent(streakDays: int): (p: int)
    requires 0 < streakDays
    ensures p == Min(2 * streakDays, 50)
  {
    var m := StreakMultiplier(streakDays);
    assert streakDays < 25 ==> (m - 1.0) * 100.0 == (2 * streakDays) as real;
    Trunc((m - 1.0) * 100.0)
  }

  /** `raw` XP scaled by a multiplier and truncated toward zero.  For a
      multiplier in [1, 1.5] the award is never less than `raw` and never
      more than half again as much. */
  function ScaledXp(raw: nat, multiplier: real): (xp: int)
    ensures 1.0 <= multiplier ==> raw <= xp
    ensures 0.0 <= multiplier <= 1.5 ==> xp as real <= raw as real * 1.5
    ensures multiplier == 1.0 ==> xp == raw
  {
    var x := raw as real;
    TruncScaledAtLeast(x, multiplier);
    TruncScaledAtMost(x, multiplier);
    assert Trunc(x) == raw;
    Trunc(x * multiplier)
  }

  lemma TruncScaledAtLeast(x: real, m: real)
    requires 0.0 <= x
    ensures 1.0 <= m ==> Trunc(x) <= Trunc(x * m)
  {
    if 1.0 <= m {
      ScaleGrows(x, m);
      TruncMonotone(x, x * m);
    }
  }

  lemma TruncScaledAtMost(x: real, m: real)
    requires 0.0 <= x
    ensures 0.0 <= m <= 1.5 ==> Trunc(x * m) as real <= x * 1.5
  {
    if 0.0 <= m <= 1.5 {
      ScaleMonotone(x, m, 1.5);
      TruncAtMost(x * m, x * 1.5);
    }
  }

  lemma TruncAtMost(y: real, c: real)
    requires 0.0 <= c && y <= c
    ensures Trunc(y) as real <= c
  {
  }

  lemma ScaleMonotone(x: real, m1: real, m2: real)
    requires 0.0 <= x && m1 <= m2
    ensures x * m1 <= x * m2
  {
    assert x * m2 - x * m1 == x * (m2 - m1);
  }

  /** A larger multiplier never awards less. */
  lemma ScaledXpMonotone(raw: nat, m1: real, m2: real)
    requires m1 <= m2
    ensures ScaledXp(raw, m1) <= ScaledXp(raw, m2)
  {
    var x := raw as real;
    TruncScaleMonotone(x, m1, m2);
    assert ScaledXp(raw, m1) == Trunc(x * m1);
    assert ScaledXp(raw, m2) == Trunc(x * m2);
  }

  lemma TruncScaleMonotone(x: real, m1: real, m2: real)
    requires 0.0 <= x && m1 <= m2
    ensures Trunc(x * m1) <= Trunc(x * m2)
  {
    var low, high := x * m1, x * m2;
    ScaleMonotone(x, m1, m2);
    assert low <= high;
    TruncMonotone(low, high);
  }

  /** The award for one event: the raw XP times the streak multiplier,
      truncated to an integer, with the streak bonus reported whenever the
      multiplier adds anything. */
  function CalculateXp(eventType: string, streakDays: int, isFirstOfDay: bool, isPerfect: bool): (e: XpEvent)
    ensures e.eventType == eventType && e.multiplier == StreakMultiplier(streakDays)
    ensures e.xpAmount == ScaledXp(RawXp(eventType, isFirstOfDay, isPerfect), e.multiplier)
    ensures 0 <= streakDays ==>
      && RawXp(eventType, isFirstOfDay, isPerfect) <= e.xpAmount
      && e.xpAmount as real <= RawXp(eventType, isFirstOfDay, isPerfect) as real * 1.5
    ensures streakDays == 0 ==> e.xpAmount == RawXp(eventType, isFirstOfDay, isPerfect)
    ensures e.bonus.Some? <==> 0 < streakDays
    ensures e.bonus.Some? ==> e.bonus.value == StreakBonus(streakDays, Min(2 * streakDays, 50))
  {
    var m := StreakMultiplier(streakDays);
    var bonus := if 1.0 < m then Some(StreakBonus(streakDays, BonusPercent(streakDays))) else None;
    XpEvent(eventType, ScaledXp(RawXp(eventType, isFirstOfDay, isPerfect), m), m, bonus)
  }

  lemma StreakMultiplierMonotone(s1: int, s2: int)
    requires s1 <= s2
    ensures StreakMultiplier(s1) <= StreakMultiplier(s2)
  {
  }

  /** A longer streak never earns less for the same event. */
  lemma XpMonotoneInStreak(eventType: string, s1: int, s2: int, isFirstOfDay: bool, isPerfect: bool)
    requires s1 <= s2
    ensures CalculateXp(eventType, s1, isFirstOfDay, isPerfect).xpAmount
         <= CalculateXp(eventType, s2, isFirstOfDay, isPerfect).xpAmount
  {
    StreakMultiplierMonotone(s1, s2);
    ScaledXpMonotone(RawXp(eventType, isFirstOfDay, isPerfect), StreakMultiplier(s1), StreakMultiplier(s2));
  }

  // ------------------------------------------------------------- levels

  /** XP needed for levels 1, 2, ..., 20. */
  const LevelThresholds: seq<int> :=
    [0, 100, 300, 600, 1000, 1500, 2100, 2800, 3600, 4500,
     5500, 6600, 7800, 9100, 10500, 12000, 13600, 15300, 17100, 19000]

  const MaxLevel: int := 20
  /** XP per level shown beyond the table's last threshold. */
  const XpPerLevelBeyondMax: int := 2000

  lemma ThresholdsStepUp()
    ensures |LevelThresholds| == MaxLevel && LevelThresholds[0] == 0
    ensures forall i :: 0 < i < |LevelThresholds| ==> LevelThresholds[i - 1] < LevelThresholds[i]
  {
  }

  lemma {:induction false} ThresholdsAscending(i: int, j: int)
    requires 0 <= i < j < |LevelThresholds|
    ensures LevelThresholds[i] < LevelThresholds[j]
    decreases j - i
  {
    ThresholdsStepUp();
    if i + 1 < j {
      ThresholdsAscending(i + 1, j);
    }
  }

  /** Threshold order and index order agree. */
  lemma ThresholdsOrder(i: int, j: int)
    requires 0 <= i < |LevelThresholds| && 0 <= j < |LevelThresholds|
    ensures i < j <==> LevelThresholds[i] < LevelThresholds[j]
  {
    if i < j {
      ThresholdsAscending(i, j);
    } else if j < i {
      ThresholdsAscending(j, i);
    }
  }

  /** The threshold scan from index `i`, where `level` is the level found
      so far: the last index whose threshold `xp` reaches, stopping at the
      first threshold it does not. */
  function ScanLevels(xp: int, i: nat, level: int): (r: int)
    requires i <= |LevelThresholds|
    requires level == (if i == 0 then 1 else i)
    requires 0 < i ==> LevelThresholds[i - 1] <= xp
    decreases |LevelThresholds| - i
    ensures 1 <= r <= MaxLevel
    ensures LevelThresholds[0] <= xp ==> LevelThresholds[r - 1] <= xp
    ensures r < MaxLevel ==> xp < LevelThresholds[r]
    ensures i == 0 && xp < LevelThresholds[0] ==> r == 1
  {
    if i == |LevelThresholds| then level
    else if xp >= LevelThresholds[i] then ScanLevels(xp, i + 1, i + 1)
    else level
  }

  datatype LevelInfo = LevelInfo(
    level: int,
    currentXp: int,
    xpInLevel: int,
    xpForNextLevel: int,
    progressPercent: real,
    xpUntilNext: int)

  /** A part of a positive whole, as a percentage below 100. */
  lemma PercentBelowHundred(part: int, whole: int)
    requires 0 <= part < whole
    ensures 0.0 <= part as real / whole as real * 100.0 < 100.0
  {
    var q := part as real / whole as real;
    assert q * whole as real == part as real;
    assert q < 1.0;
  }

  /** The level reached with `xp` and the progress towards the next one. */
  function LevelFromXp(xp: int): (info: LevelInfo)
    ensures 1 <= info.level <= MaxLevel
    ensures 0 <= xp ==> LevelThresholds[info.level - 1] <= xp
    ensures info.level < MaxLevel ==> xp < LevelThresholds[info.level]
    ensures xp < 0 ==> info.level == 1
    ensures info.currentXp == xp
    ensures info.level == ScanLevels(xp, 0, 1)
    ensures info.xpInLevel == xp - LevelThresholds[info.level - 1]
    ensures info.level < MaxLevel ==>
      info.xpForNextLevel == LevelThresholds[info.level] - LevelThresholds[info.level - 1]
    ensures info.xpInLevel + info.xpUntilNext == info.xpForNextLevel
    ensures 0 < info.xpForNextLevel
    ensures info.progressPercent == info.xpInLevel as real / info.xpForNextLevel as real * 100.0
    ensures info.level == MaxLevel ==> info.xpForNextLevel == XpPerLevelBeyondMax
    ensures 0 <= xp && info.level < MaxLevel ==>
      0 <= info.xpInLevel < info.xpForNextLevel && 0.0 <= info.progressPercent < 100.0
  {
    ThresholdsStepUp();
    var level := ScanLevels(xp, 0, 1);
    var current := LevelThresholds[level - 1];
    var next := if level < |LevelThresholds| then LevelThresholds[level] else current + XpPerLevelBeyondMax;
    var inLevel := xp - current;
    var needed := next - current;
    var progress := if needed > 0 then inLevel as real / needed as real * 100.0 else 100.0;
    assert 0 <= xp && level < MaxLevel ==> 0.0 <= progress < 100.0 by {
      if 0 <= xp && level < MaxLevel {
        PercentBelowHundred(inLevel, needed);
      }
    }
    LevelInfo(level, xp, inLevel, needed, progress, needed - inLevel)
  }

  /** More XP never means a lower level. */
  lemma LevelMonotone(xp1: int, xp2: int)
    requires xp1 <= xp2
    ensures LevelFromXp(xp1).level <= LevelFromXp(xp2).level
  {
    ScanLevelsMonotone(xp1, xp2);
  }

  /** The threshold scan never finds a lower level for more XP. */
  lemma ScanLevelsMonotone(xp1: int, xp2: int)
    requires xp1 <= xp2
    ensures ScanLevels(xp1, 0, 1) <= ScanLevels(xp2, 0, 1)
  {
    var l1 := ScanLevels(xp1, 0, 1);
    var l2 := ScanLevels(xp2, 0, 1);
    ThresholdsStepUp();
    if 0 <= xp1 && l2 < MaxLevel {
      ThresholdsOrder(l1 - 1, l2);
    }
  }

  // -------------------------------------------------------- achievements

  /** What unlocks an achievement: a statistic reaching a value, or a
      named special event having happened. */
  datatype Condition =
    | Streak(atLeast: int)
    | Words(atLeast: int)
    | Lessons(atLeast: int)
    | Conversations(atLeast: int)
    | Level(atLeast: int)
    | PronunciationPerfect(atLeast: int)
    | PronunciationCount(atLeast: int)
    | Special(tag: string)

  datatype Achievement = Achievement(id: string, condition: Condition, xpReward: nat)

  /** The achievement table, in its declaration order. */
  const Achievements: seq<Achievement> := [
    Achievement("streak_3", Streak(3), 50),
    Achievement("streak_7", Streak(7), 100),
    Achievement("streak_30", Streak(30), 500),
    Achievement("streak_100", Streak(100), 1000),
    Achievement("streak_365", Streak(365), 5000),
    Achievement("words_50", Words(50), 50),
    Achievement("words_200", Words(200), 150),
    Achievement("words_500", Words(500), 300),
    Achievement("words_1000", Words(1000), 500),
    Achievement("lessons_10", Lessons(10), 50),
    Achievement("lessons_50", Lessons(50), 200),
    Achievement("lessons_100", Lessons(100), 400),
    Achievement("conversations_10", Conversations(10), 50),
    Achievement("conversations_100", Conversations(100), 300),
    Achievement("pronunciation_perfect", PronunciationPerfect(1), 100),
    Achievement("pronunciation_10", PronunciationCount(10), 50),
    Achievement("level_5", Level(5), 100),
    Achievement("level_10", Level(10), 250),
    Achievement("level_20", Level(20), 500),
    Achievement("first_lesson", Lessons(1), 20),
    Achievement("night_owl", Special("night_owl"), 30),
    Achievement("early_bird", Special("early_bird"), 30),
    Achievement("weekend_warrior", Special("weekend_warrior"), 50)
  ]

  /** A user's statistics; every entry may be missing. */
  datatype UserStats = UserStats(
    currentStreak: Option<int>,
    totalWords: Option<int>,
    totalLessons: Option<int>,
    totalConversations: Option<int>,
    level: Option<int>,
    pronunciationPerfects: Option<int>,
    pronunciationCount: Option<int>,
    specialAchievements: Option<seq<string>>)

  /** Whether `stats` meet a condition; missing counts are 0, a missing
      level is 1 and missing special events are none. */
  predicate Holds(cond: Condition, stats: UserStats) {
    match cond
    case Streak(n) => stats.currentStreak.GetOr(0) >= n
    case Words(n) => stats.totalWords.GetOr(0) >= n
    case Lessons(n) => stats.totalLessons.GetOr(0) >= n
    case Conversations(n) => stats.totalConversations.GetOr(0) >= n
    case Level(n) => stats.level.GetOr(1) >= n
    case PronunciationPerfect(n) => stats.pronunciationPerfects.GetOr(0) >= n
    case PronunciationCount(n) => stats.pronunciationCount.GetOr(0) >= n
    case Special(tag) => tag in stats.specialAchievements.GetOr([])
  }

  /** The entries of `table` newly earned: those not yet in `earned` whose
      condition the statistics meet, in table order.  The service checks
      its own table, `Achievements`. */
  function CheckAchievements(table: seq<Achievement>, stats: UserStats, earned: seq<string>): (r: seq<Achievement>)
    ensures |r| == Count(table, (a: Achievement) => NewlyEarned(a, stats, earned))
    ensures forall i :: 0 <= i < |r| ==> r[i] in table
    ensures forall i :: 0 <= i < |r| ==> r[i].id !in earned && Holds(r[i].condition, stats)
    ensures forall i :: 0 <= i < |table| ==>
      (table[i] in r <==> table[i].id !in earned && Holds(table[i].condition, stats))
    ensures (forall i :: 0 <= i < |table| ==> table[i].id in earned || !Holds(table[i].condition, stats)) ==> r == []
  {
    Filter(table, (a: Achievement) => NewlyEarned(a, stats, earned))
  }

  /** An achievement not yet held whose condition the statistics meet. */
  predicate NewlyEarned(a: Achievement, stats: UserStats, earned: seq<string>) {
    a.id !in earned && Holds(a.condition, stats)
  }

  /** The awards come out in table order: checking a table split in two
      awards the first part's achievements before the second part's. */
  lemma CheckAchievementsInTableOrder(first: seq<Achievement>, second: seq<Achievement>, stats: UserStats, earned: seq<string>)
    ensures CheckAchievements(first + second, stats, earned)
         == CheckAchievements(first, stats, earned) + CheckAchievements(second, stats, earned)
  {
    FilterAppend(first, second, (a: Achievement) => NewlyEarned(a, stats, earned));
  }

  /** The service's check, against its own 23-entry table. */
  function CheckAllAchievements(stats: UserStats, earned: seq<string>): (r: seq<Achievement>)
    ensures |r| <= |Achievements|
    ensures forall i :: 0 <= i < |Achievements| ==>
      (Achievements[i] in r <==> Achievements[i].id !in earned && Holds(Achievements[i].condition, stats))
  {
    CheckAchievements(Achievements, stats, earned)
  }

  function Ids(r: seq<Achievement>): (ids: seq<string>)
    ensures |ids| == |r| && forall i :: 0 <= i < |r| ==> ids[i] == r[i].id
  {
    seq(|r|, i requires 0 <= i < |r| => r[i].id)
  }

  /** Recording what was just earned and checking again awards nothing. */
  lemma {:induction false} RecheckAwardsNothing(table: seq<Achievement>, stats: UserStats, earned: seq<string>)
    ensures var r := CheckAchievements(table, stats, earned);
      CheckAchievements(table, stats, earned + Ids(r)) == []
  {
    var r := CheckAchievements(table, stats, earned);
    forall k | 0 <= k < |r|
      ensures r[k].id in earned + Ids(r)
    {
      assert (earned + Ids(r))[|earned| + k] == r[k].id;
    }
    forall j | 0 <= j < |table| && Holds(table[j].condition, stats)
      ensures table[j].id in earned + Ids(r)
    {
      if table[j].id !in earned {
        assert table[j] in r;
      }
    }
  }

  // ------------------------------------------------------------- streaks

  datatype StreakUpdate = StreakUpdate(streak: int, continued: bool, broken: bool, previousStreak: Option<int>)

  /** The streak after studying at `now`, given the last study time: the
      first study starts a streak of 1; a second study on the same day
      changes nothing; a study on the next day extends the streak; any
      other gap restarts it at 1 and reports the streak that was lost. */
  function UpdateStreak(lastStudy: Option<Instant>, currentStreak: int, now: Instant): (u: StreakUpdate)
    ensures lastStudy.None? ==> u == StreakUpdate(1, true, false, None)
    ensures lastStudy.Some? ==>
      var gap := DayOf(now) - DayOf(lastStudy.value);
      && (gap == 0 ==> u == StreakUpdate(currentStreak, false, false, None))
      && (gap == 1 ==> u == StreakUpdate(currentStreak + 1, true, false, None))
      && (gap != 0 && gap != 1 ==> u == StreakUpdate(1, false, true, Some(currentStreak)))
  {
    match lastStudy
    case None => StreakUpdate(1, true, false, None)
    case Some(last) =>
      var gap := DayOf(now) - DayOf(last);
      if gap == 0 then StreakUpdate(currentStreak, false, false, None)
      else if gap == 1 then StreakUpdate(currentStreak + 1, true, false, None)
      else StreakUpdate(1, false, true, Some(currentStreak))
  }

  /** Studying again on the same day leaves the streak as the first study
      of the day set it, so a day is never counted twice. */
  lemma SecondStudySameDayKeepsStreak(lastStudy: Option<Instant>, currentStreak: int, now: Instant, later: Instant)
    requires now <= later && DayOf(later) == DayOf(now)
    ensures var first := UpdateStreak(lastStudy, currentStreak, now);
      var second := UpdateStreak(Some(now), first.streak, later);
      second.streak == first.streak && !second.continued && !second.broken
  {
  }

  /** The streak after studying once a day, exactly one day apart, for
      `days` more days after a study at `last`. */
  function StreakAfterDailyStudy(last: Instant, streak: int, days: nat): int
    decreases days
  {
    if days == 0 then streak
    else
      var next := last + SecondsPerDay;
      StreakAfterDailyStudy(next, UpdateStreak(Some(last), streak, next).streak, days - 1)
  }

  /** Studying on each of `days` consecutive days extends the streak by
      exactly that many days. */
  lemma {:induction false} DailyStudyExtendsStreak(last: Instant, streak: int, days: nat)
    decreases days
    ensures StreakAfterDailyStudy(last, streak, days) == streak + days
  {
    if days > 0 {
      var next := last + SecondsPerDay;
      assert DayOf(next) == DayOf(last) + 1;
      DailyStudyExtendsStreak(next, streak + 1, days - 1);
    }
  }

  // ---------------------------------------------------- daily challenges

  datatype ChallengeKind = ConversationChallenge | VocabularyChallenge | PronunciationChallenge | LessonChallenge | ReviewChallenge

  datatype Challenge = Challenge(id: string, kind: ChallengeKind, target: nat, xpReward: nat)

  /** The fixed challenge list, in offering order. */
  const DailyChallenges: seq<Challenge> := [
    Challenge("daily_conversation", ConversationChallenge, 3, 30),
    Challenge("daily_vocabulary", VocabularyChallenge, 10, 25),
    Challenge("daily_pronunciation", PronunciationChallenge, 5, 25),
    Challenge("daily_lesson", LessonChallenge, 1, 20),
    Challenge("daily_review", ReviewChallenge, 20, 20)
  ]

  const ChallengesPerDay: int := 3

  /** The bonus for completing every challenge of the day. */
  datatype Bonus = Bonus(id: string, xpReward: nat)

  datatype DailyPlan = DailyPlan(day: int, challenges: seq<Challenge>, bonus: Bonus)

  /** The plan drawn from a challenge list: the first three not completed
      today, in list order, and the bonus for finishing them all. */
  function PlanFrom(challenges: seq<Challenge>, completedToday: seq<string>, now: Instant): (p: DailyPlan)
    ensures p.day == DayOf(now)
    ensures |p.challenges| <= ChallengesPerDay
    ensures forall i :: 0 <= i < |p.challenges| ==>
      p.challenges[i] in challenges && p.challenges[i].id !in completedToday
    ensures |p.challenges| < ChallengesPerDay ==>
      forall i :: 0 <= i < |challenges| && challenges[i].id !in completedToday ==>
        challenges[i] in p.challenges
    ensures p.challenges <= Filter(challenges, (c: Challenge) => c.id !in completedToday)
    ensures p.bonus == Bonus("daily_all", 50)
  {
    var open := Filter(challenges, (c: Challenge) => c.id !in completedToday);
    var chosen := Prefix(open, ChallengesPerDay);
    assert forall i :: 0 <= i < |chosen| ==> chosen[i] == open[i];
    DailyPlan(DayOf(now), chosen, Bonus("daily_all", 50))
  }

  /** Today's plan from the fixed list.  The user's level and language do
      not influence it. */
  function GenerateDailyChallenge(userLevel: int, language: string, completedToday: seq<string>, now: Instant): (p: DailyPlan)
    ensures p.day == DayOf(now)
    ensures |p.challenges| <= ChallengesPerDay
    ensures forall i :: 0 <= i < |p.challenges| ==>
      p.challenges[i] in DailyChallenges && p.challenges[i].id !in completedToday
    ensures |p.challenges| < ChallengesPerDay ==>
      forall i :: 0 <= i < |DailyChallenges| && DailyChallenges[i].id !in completedToday ==>
        DailyChallenges[i] in p.challenges
    ensures p.challenges <= Filter(DailyChallenges, (c: Challenge) => c.id !in completedToday)
    ensures p.bonus == Bonus("daily_all", 50)
  {
    PlanFrom(DailyChallenges, completedToday, now)
  }

  /** A challenge completed today is never offered again that day. */
  lemma CompletedChallengesLeaveThePlan(
    challenges: seq<Challenge>, completedToday: seq<string>, now: Instant, done: Challenge)
    ensures done !in PlanFrom(challenges, completedToday + [done.id], now).challenges
  {
    var p := PlanFrom(challenges, completedToday + [done.id], now);
    assert done.id in completedToday + [done.id];
    assert forall i :: 0 <= i < |p.challenges| ==> p.challenges[i] != done;
  }

  /** With nothing completed yet, the day offers the conversation,
      vocabulary and pronunciation challenges. */
  lemma FreshDayOffersFirstThree(userLevel: int, language: string, now: Instant)
    ensures GenerateDailyChallenge(userLevel, language, [], now).challenges == DailyChallenges[..3]
  {
    FilterKeepsAll(DailyChallenges, (c: Challenge) => c.id !in []);
  }

  // -------------------------------------------------- league and tiers

  /** League points: the week's XP, 10 per streak day, 50 per achievement. */
  function LeaguePoints(weeklyXp: int, streak: int, achievementsThisWeek: int): (points: int)
    ensures 0 <= streak && 0 <= achievementsThisWeek ==> weeklyXp <= points
    ensures streak == 0 && achievementsThisWeek == 0 ==> points == weeklyXp
    ensures points - weeklyXp == 10 * (streak + 5 * achievementsThisWeek)
  {
    weeklyXp + streak * 10 + achievementsThisWeek * 50
  }

  /** More of any activity never lowers the league points, and each extra
      achievement is worth exactly five streak days. */
  lemma LeaguePointsMonotone(weeklyXp: int, streak: int, achievements: int, moreXp: nat, moreStreak: nat, moreAchievements: nat)
    ensures LeaguePoints(weeklyXp, streak, achievements)
         <= LeaguePoints(weeklyXp + moreXp, streak + moreStreak, achievements + moreAchievements)
    ensures LeaguePoints(weeklyXp, streak, achievements + 1) == LeaguePoints(weeklyXp, streak + 5, achievements)
  {
  }

  datatype Tier = Diamond | Platinum | Gold | Silver | Bronze

  /** 0 for the best tier, 4 for the lowest. */
  function TierOrder(t: Tier): nat {
    match t
    case Diamond => 0
    case Platinum => 1
    case Gold => 2
    case Silver => 3
    case Bronze => 4
  }

  datatype TierError = NoUsers

  /** A rank's percentile is at most `c` exactly when `100 * rank` is at
      most `c` times the population. */
  lemma PercentileAtMost(rank: int, totalUsers: int, c: int)
    requires 0 < totalUsers
    ensures (rank as real / totalUsers as real * 100.0 <= c as real) <==> 100 * rank <= c * totalUsers
  {
    var t := totalUsers as real;
    var p := rank as real / t * 100.0;
    assert p * t == (100 * rank) as real;
    if p <= c as real {
      assert p * t <= c as real * t;
    } else {
      assert c as real * t < p * t;
    }
  }

  /** The tier of a rank by its percentile among `totalUsers`: top 1%
      Diamond, 5% Platinum, 15% Gold, 35% Silver, the rest Bronze.  With
      no users the percentile is a division by zero. */
  function LeaderboardTier(rank: int, totalUsers: int): (r: Result<Tier, TierError>)
    ensures r.Failure? <==> totalUsers == 0
    ensures 0 < totalUsers ==>
      && (r == Success(Diamond) <==> 100 * rank <= totalUsers)
      && (r == Success(Platinum) <==> totalUsers < 100 * rank <= 5 * totalUsers)
      && (r == Success(Gold) <==> 5 * totalUsers < 100 * rank <= 15 * totalUsers)
      && (r == Success(Silver) <==> 15 * totalUsers < 100 * rank <= 35 * totalUsers)
      && (r == Success(Bronze) <==> 35 * totalUsers < 100 * rank)
  {
    if totalUsers == 0 then Failure(NoUsers)
    else
      var percentile := rank as real / totalUsers as real * 100.0;
      assert 0 < totalUsers ==>
        && (percentile <= 1.0 <==> 100 * rank <= totalUsers)
        && (percentile <= 5.0 <==> 100 * rank <= 5 * totalUsers)
        && (percentile <= 15.0 <==> 100 * rank <= 15 * totalUsers)
        && (percentile <= 35.0 <==> 100 * rank <= 35 * totalUsers) by {
        if 0 < totalUsers {
          PercentileAtMost(rank, totalUsers, 1);
          PercentileAtMost(rank, totalUsers, 5);
          PercentileAtMost(rank, totalUsers, 15);
          PercentileAtMost(rank, totalUsers, 35);
        }
      }
      if percentile <= 1.0 then Success(Diamond)
      else if percentile <= 5.0 then Success(Platinum)
      else if percentile <= 15.0 then Success(Gold)
      else if percentile <= 35.0 then Success(Silver)
      else Success(Bronze)
  }

  /** For a fixed population, a worse rank never gives a better tier. */
  lemma TierMonotoneInRank(rank1: int, rank2: int, totalUsers: int)
    requires rank1 <= rank2 && 0 < totalUsers
    ensures TierOrder(LeaderboardTier(rank1, totalUsers).value) <= TierOrder(LeaderboardTier(rank2, totalUsers).value)
  {
  }
}
