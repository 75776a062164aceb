/** Pronunciation scoring once the speech has been transcribed: word-by-word
    comparison of the expected and the spoken words, accuracy and
    completeness percentages, a fluency estimate from word timings, the
    first wrong sound of each badly pronounced word, and the feedback
    message with its suggestions. */
module Pronunciation {
  import opened Prelude
  import opened Levenshtein

  /** A spoken word counts as correct above this similarity. */
  const CorrectSimilarity: real := 0.8
  /** A word pair is analysed for a wrong sound below this similarity. */
  const ErrorSimilarity: real := 0.9
  /** At most this many sound errors are reported. */
  const MaxReportedErrors: int := 5

  // ------------------------------------------------------ word scores

  /** One expected word, what was said in its place ("" when nothing was),
      the similarity as a percentage, and whether it counts as correct. */
  datatype WordScore = WordScore(expected: string, spoken: string, score: real, isCorrect: bool)

  /** The score of the `i`-th expected word against the `i`-th spoken one. */
  function ScoreWord(expectedWords: seq<string>, spokenWords: seq<string>, i: nat): (w: WordScore)
    requires i < |expectedWords|
    ensures w.expected == expectedWords[i]
    ensures 0.0 <= w.score <= 100.0
    ensures w.isCorrect ==> i < |spokenWords| && w.score > 80.0
    ensures i < |spokenWords| ==>
      && w.spoken == spokenWords[i]
      && w.score == Similarity(expectedWords[i], spokenWords[i]) * 100.0
      && (w.isCorrect <==> Similarity(expectedWords[i], spokenWords[i]) > CorrectSimilarity)
    ensures i < |spokenWords| && spokenWords[i] == expectedWords[i] ==> w.isCorrect && w.score == 100.0
    ensures |spokenWords| <= i ==> w == WordScore(expectedWords[i], "", 0.0, false)
  {
    if i < |spokenWords| then
      var similarity := Similarity(expectedWords[i], spokenWords[i]);
      WordScore(expectedWords[i], spokenWords[i], similarity * 100.0, similarity > CorrectSimilarity)
    else WordScore(expectedWords[i], "", 0.0, false)
  }

  /** One score per expected word, in order. */
  function ScoreWords(expectedWords: seq<string>, spokenWords: seq<string>): (r: seq<WordScore>)
    ensures |r| == |expectedWords|
    ensures forall i :: 0 <= i < |r| ==> r[i] == ScoreWord(expectedWords, spokenWords, i)
  {
    seq(|expectedWords|, i requires 0 <= i < |expectedWords| => ScoreWord(expectedWords, spokenWords, i))
  }

  /** The number of scores marked correct. */
  function CountCorrect(scores: seq<WordScore>): (n: nat)
    ensures n <= |scores|
  {
    if |scores| == 0 then 0
    else CountCorrect(scores[..|scores| - 1]) + (if scores[|scores| - 1].isCorrect then 1 else 0)
  }

  lemma {:induction false} CountCorrectAll(scores: seq<WordScore>)
    requires forall i :: 0 <= i < |scores| ==> scores[i].isCorrect
    ensures CountCorrect(scores) == |scores|
  {
    if |scores| > 0 {
      CountCorrectAll(scores[..|scores| - 1]);
    }
  }

  lemma {:induction false} CountCorrectNone(scores: seq<WordScore>)
    requires forall i :: 0 <= i < |scores| ==> !scores[i].isCorrect
    ensures CountCorrect(scores) == 0
  {
    if |scores| > 0 {
      CountCorrectNone(scores[..|scores| - 1]);
    }
  }

  /** The source's scoring loop: one pass over the expected words, building
      the scores and counting the correct ones. */
  method ComputeWordScores(expectedWords: seq<string>, spokenWords: seq<string>)
    returns (scores: seq<WordScore>, correctCount: nat)
    ensures scores == ScoreWords(expectedWords, spokenWords)
    ensures correctCount == CountCorrect(scores)
  {
    scores, correctCount := [], 0;
    var i := 0;
    while i < |expectedWords|
      invariant 0 <= i <= |expectedWords|
      invariant |scores| == i
      invariant forall k :: 0 <= k < i ==> scores[k] == ScoreWord(expectedWords, spokenWords, k)
      invariant correctCount == CountCorrect(scores)
    {
      var w: WordScore;
      if i < |spokenWords| {
        var similarity := ComputeSimilarity(expectedWords[i], spokenWords[i]);
        var isCorrect := similarity > CorrectSimilarity;
        if isCorrect {
          correctCount := correctCount + 1;
        }
        w := WordScore(expectedWords[i], spokenWords[i], similarity * 100.0, isCorrect);
      } else {
        w := WordScore(expectedWords[i], "", 0.0, false);
      }
      assert (scores + [w])[..|scores|] == scores;
      scores := scores + [w];
      i := i + 1;
    }
  }

  // ---------------------------------------------- accuracy, completeness

  /** `part / whole * 100`, and 0 for an empty whole. */
  function Percent(part: nat, whole: nat): (p: real)
    ensures 0.0 <= p
    ensures whole == 0 ==> p == 0.0
    ensures 0 < whole ==> p * whole as real == part as real * 100.0
    ensures part <= whole ==> p <= 100.0
    ensures 0 < whole ==> (p == 100.0 <==> part == whole)
    ensures p == 0.0 <==> part == 0 || whole == 0
  {
    if whole == 0 then 0.0
    else
      PercentOf(part as real, whole as real);
      part as real / whole as real * 100.0
  }

  lemma PercentOf(x: real, n: real)
    requires 0.0 <= x && 0.0 < n
    ensures 0.0 <= x / n * 100.0
    ensures x / n * 100.0 * n == x * 100.0
    ensures x <= n ==> x / n * 100.0 <= 100.0
    ensures x / n * 100.0 == 100.0 <==> x == n
    ensures x / n * 100.0 == 0.0 <==> x == 0.0
  {
    var q := x / n;
    assert q * n == x;
    if x <= n {
      QuotientAtMostOne(x, n);
    }
  }

  lemma QuotientAtMostOne(x: real, n: real)
    requires 0.0 <= x <= n && 0.0 < n
    ensures x / n <= 1.0
  {
    var q := x / n;
    assert q * n == x;
    assert (1.0 - q) * n >= 0.0;
  }

  /** The percentage of the scored expected words marked correct; 0 with
      no words. */
  function Accuracy(scores: seq<WordScore>): (a: real)
    ensures 0.0 <= a <= 100.0
    ensures |scores| == 0 ==> a == 0.0
    ensures 0 < |scores| ==> a * |scores| as real == CountCorrect(scores) as real * 100.0
    ensures 0 < |scores| ==> (a == 100.0 <==> CountCorrect(scores) == |scores|)
    ensures a == 0.0 <==> CountCorrect(scores) == 0
  {
    Percent(CountCorrect(scores), |scores|)
  }

  /** The percentage of the expected word count that was spoken, capped
      at 100; 0 with no words.  Capping the ratio at 1 and capping the
      spoken count at the expected one give the same value. */
  function Completeness(expectedWords: seq<string>, spokenWords: seq<string>): (c: real)
    ensures 0.0 <= c <= 100.0
    ensures |expectedWords| == 0 ==> c == 0.0
    ensures 0 < |expectedWords| ==> (c == 100.0 <==> |expectedWords| <= |spokenWords|)
    ensures 0 < |expectedWords| && |spokenWords| < |expectedWords| ==>
      c * |expectedWords| as real == |spokenWords| as real * 100.0
    ensures c == 0.0 <==> |expectedWords| == 0 || |spokenWords| == 0
  {
    Percent(Min(|spokenWords|, |expectedWords|), |expectedWords|)
  }

  /** Reading every expected word exactly scores full accuracy and
      completeness. */
  lemma PerfectReading(words: seq<string>)
    requires 0 < |words|
    ensures Accuracy(ScoreWords(words, words)) == 100.0
    ensures Completeness(words, words) == 100.0
  {
    CountCorrectAll(ScoreWords(words, words));
  }

  /** Saying nothing scores zero accuracy and completeness. */
  lemma Silence(expectedWords: seq<string>)
    ensures Accuracy(ScoreWords(expectedWords, [])) == 0.0
    ensures Completeness(expectedWords, []) == 0.0
  {
    CountCorrectNone(ScoreWords(expectedWords, []));
  }

  /** Accuracy weighs one half, completeness and fluency one quarter each. */
  function Overall(accuracy: real, completeness: real, fluency: real): (o: real)
    ensures 0.0 <= accuracy <= 100.0 && 0.0 <= completeness <= 100.0 && 0.0 <= fluency <= 100.0 ==>
      0.0 <= o <= 100.0
    ensures accuracy == completeness == fluency ==> o == accuracy
  {
    accuracy * 0.5 + completeness * 0.25 + fluency * 0.25
  }

  // ------------------------------------------------------------ fluency

  /** Start and end of a spoken word in seconds; either may be missing. */
  datatype WordTiming = WordTiming(start: Option<real>, end: Option<real>)

  const DefaultFluency: real := 80.0

  /** The pause before each word after the first: its start minus the
      previous word's end, a missing time counting as 0. */
  function Gaps(timings: seq<WordTiming>): (g: seq<real>)
    requires 0 < |timings|
    ensures |g| == |timings| - 1
    ensures forall i :: 0 <= i < |g| ==> g[i] == timings[i + 1].start.GetOr(0.0) - timings[i].end.GetOr(0.0)
  {
    seq(|timings| - 1, i requires 0 <= i < |timings| - 1 => timings[i + 1].start.GetOr(0.0) - timings[i].end.GetOr(0.0))
  }

  /** Shorter average pauses mean more fluent speech. */
  function FluencyBand(averageGap: real): (f: real)
    ensures f == 95.0 <==> averageGap < 0.3
    ensures f == 85.0 <==> 0.3 <= averageGap < 0.5
    ensures f == 70.0 <==> 0.5 <= averageGap < 0.8
    ensures f == 55.0 <==> 0.8 <= averageGap
  {
    if averageGap < 0.3 then 95.0
    else if averageGap < 0.5 then 85.0
    else if averageGap < 0.8 then 70.0
    else 55.0
  }

  lemma FluencyBandNonIncreasing(g1: real, g2: real)
    requires g1 <= g2
    ensures FluencyBand(g2) <= FluencyBand(g1)
  {
  }

  /** The fluency estimate: 80 with fewer than two timed words, otherwise
      the band of the mean pause. */
  function EstimateFluency(timings: seq<WordTiming>): (f: real)
    ensures 55.0 <= f <= 95.0
    ensures |timings| < 2 ==> f == DefaultFluency
    ensures 2 <= |timings| ==> f == FluencyBand(Sum(Gaps(timings)) / (|timings| - 1) as real)
  {
    if |timings| < 2 then DefaultFluency
    else
      var gaps := Gaps(timings);
      FluencyBand(Sum(gaps) / |gaps| as real)
  }

  /** Pauses all shorter than 0.3 s give the top fluency score. */
  lemma ShortPausesAreFluent(timings: seq<WordTiming>)
    requires 2 <= |timings|
    requires forall i :: 0 <= i < |timings| - 1 ==> timings[i + 1].start.GetOr(0.0) - timings[i].end.GetOr(0.0) < 0.3
    ensures EstimateFluency(timings) == 95.0
  {
    var gaps := Gaps(timings);
    SumBelow(gaps, 0.3);
    QuotientBelow(Sum(gaps), |gaps| as real, 0.3);
  }

  /** Pauses all at least 0.8 s long give the lowest fluency score. */
  lemma LongPausesAreHalting(timings: seq<WordTiming>)
    requires 2 <= |timings|
    requires forall i :: 0 <= i < |timings| - 1 ==> 0.8 <= timings[i + 1].start.GetOr(0.0) - timings[i].end.GetOr(0.0)
    ensures EstimateFluency(timings) == 55.0
  {
    var gaps := Gaps(timings);
    SumAtLeast(gaps, 0.8);
    QuotientAtLeast(Sum(gaps), |gaps| as real, 0.8);
  }

  // ----------------------------------------------------- phoneme errors

  /** The first character where a pronounced word went wrong. */
  datatype PhonemeError = PhonemeError(word: string, expectedSound: char, spokenSound: char, position: nat)

  /** The first index from `i` at which `a` and `b` differ, looking only
      as far as the shorter of the two. */
  function FirstMismatchFrom(a: string, b: string, i: nat): (r: Option<nat>)
    requires i <= |a| && i <= |b|
    decreases |a| - i
    ensures r.Some? ==>
      && i <= r.value < |a| && r.value < |b| && a[r.value] != b[r.value]
      && forall k :: i <= k < r.value ==> a[k] == b[k]
    ensures r.None? ==> forall k :: i <= k < |a| && k < |b| ==> a[k] == b[k]
  {
    if i == |a| || i == |b| then None
    else if a[i] != b[i] then Some(i)
    else FirstMismatchFrom(a, b, i + 1)
  }

  function FirstMismatch(a: string, b: string): (r: Option<nat>)
    ensures r.Some? ==>
      && r.value < |a| && r.value < |b| && a[r.value] != b[r.value]
      && a[..r.value] == b[..r.value]
    ensures r.None? <==> forall k :: 0 <= k < |a| && k < |b| ==> a[k] == b[k]
  {
    var r := FirstMismatchFrom(a, b, 0);
    assert r.Some? ==> a[..r.value] == b[..r.value];
    r
  }

  /** The error reported for one pair of words: only for a word said
      differently and with similarity below 0.9, and only when the two
      words differ within the shorter one's length. */
  function PairError(expected: string, spoken: string): (e: Option<PhonemeError>)
    ensures e.Some? <==>
      expected != spoken && Similarity(expected, spoken) < ErrorSimilarity && FirstMismatch(expected, spoken).Some?
    ensures e.Some? ==>
      && e.value.word == expected
      && e.value.position < |expected| && e.value.position < |spoken|
      && e.value.expectedSound == expected[e.value.position]
      && e.value.spokenSound == spoken[e.value.position]
      && e.value.expectedSound != e.value.spokenSound
    ensures e.Some? ==> e.value.position == FirstMismatch(expected, spoken).value
  {
    if expected != spoken && Similarity(expected, spoken) < ErrorSimilarity then
      match FirstMismatch(expected, spoken)
      case Some(i) => Some(PhonemeError(expected, expected[i], spoken[i], i))
      case None => None
    else None
  }

  /** A mispronounced word that is a prefix of what was said, or the other
      way round, yields no error: the two never differ within the shorter
      length. */
  lemma PrefixPairsReportNothing(expected: string, spoken: string)
    requires expected <= spoken || spoken <= expected
    ensures PairError(expected, spoken).None?
  {
  }

  function AsSeq<T>(o: Option<T>): (s: seq<T>)
    ensures |s| <= 1 && (o.Some? <==> |s| == 1) && (o.Some? ==> s[0] == o.value)
  {
    match o
    case Some(x) => [x]
    case None => []
  }

  /** The values present in a list of options, in order. */
  function Present<T>(options: seq<Option<T>>): seq<T> {
    if |options| == 0 then [] else AsSeq(options[0]) + Present(options[1..])
  }

  /** The outcome of each word pair `zip(expectedWords, spokenWords)`, in order. */
  function PairErrors(expectedWords: seq<string>, spokenWords: seq<string>): (outcomes: seq<Option<PhonemeError>>)
    ensures |outcomes| == Min(|expectedWords|, |spokenWords|)
  {
    seq(Min(|expectedWords|, |spokenWords|), k requires 0 <= k < Min(|expectedWords|, |spokenWords|) =>
      PairError(expectedWords[k], spokenWords[k]))
  }

  /** Whether the `k`-th word pair reports an error. */
  predicate PairHasError(expectedWords: seq<string>, spokenWords: seq<string>, k: int)
    requires 0 <= k < |expectedWords| && k < |spokenWords|
  {
    PairError(expectedWords[k], spokenWords[k]).Some?
  }

  /** The number of word pairs, among the first `n`, that report an error. */
  function ErrorPairCount(expectedWords: seq<string>, spokenWords: seq<string>, n: nat): nat
    requires n <= |expectedWords| && n <= |spokenWords|
  {
    if n == 0 then 0
    else ErrorPairCount(expectedWords, spokenWords, n - 1) + (if PairHasError(expectedWords, spokenWords, n - 1) then 1 else 0)
  }

  /** The errors of the word pairs formed position by position, as far as
      the shorter list goes: the first pair's error, if any, followed by
      the errors of the remaining pairs. */
  function AllPhonemeErrors(expectedWords: seq<string>, spokenWords: seq<string>): (r: seq<PhonemeError>)
    decreases |expectedWords|
    ensures |expectedWords| == 0 || |spokenWords| == 0 ==> r == []
    ensures r == Present(PairErrors(expectedWords, spokenWords))
    ensures |r| <= Min(|expectedWords|, |spokenWords|)
    ensures forall i :: 0 <= i < |r| ==> r[i].word in expectedWords && r[i].expectedSound != r[i].spokenSound
  {
    if |expectedWords| == 0 || |spokenWords| == 0 then []
    else
      var rest := AllPhonemeErrors(expectedWords[1..], spokenWords[1..]);
      assert forall i :: 0 <= i < |rest| ==> rest[i].word in expectedWords by {
        forall i | 0 <= i < |rest|
          ensures rest[i].word in expectedWords
        {
          var k :| 0 <= k < |expectedWords[1..]| && expectedWords[1..][k] == rest[i].word;
          assert expectedWords[k + 1] == rest[i].word;
        }
      }
      var pairs := PairErrors(expectedWords, spokenWords);
      assert pairs[1..] == PairErrors(expectedWords[1..], spokenWords[1..]);
      AsSeq(PairError(expectedWords[0], spokenWords[0])) + rest
  }

  /** The list has one entry per word pair that reports an error. */
  lemma {:induction false} AllPhonemeErrorsCount(expectedWords: seq<string>, spokenWords: seq<string>)
    decreases |expectedWords|
    ensures |AllPhonemeErrors(expectedWords, spokenWords)|
         == ErrorPairCount(expectedWords, spokenWords, Min(|expectedWords|, |spokenWords|))
  {
    if 0 < |expectedWords| && 0 < |spokenWords| {
      AllPhonemeErrorsCount(expectedWords[1..], spokenWords[1..]);
      ErrorPairCountShift(expectedWords, spokenWords, Min(|expectedWords|, |spokenWords|));
    }
  }

  /** Every word pair that reports an error contributes that error. */
  lemma {:induction false} AllPhonemeErrorsComplete(expectedWords: seq<string>, spokenWords: seq<string>, k: nat)
    requires k < |expectedWords| && k < |spokenWords| && PairHasError(expectedWords, spokenWords, k)
    decreases k
    ensures PairError(expectedWords[k], spokenWords[k]).value in AllPhonemeErrors(expectedWords, spokenWords)
  {
    var e', s' := expectedWords[1..], spokenWords[1..];
    var r := AllPhonemeErrors(expectedWords, spokenWords);
    assert r == AsSeq(PairError(expectedWords[0], spokenWords[0])) + AllPhonemeErrors(e', s');
    if k > 0 {
      assert e'[k - 1] == expectedWords[k] && s'[k - 1] == spokenWords[k];
      AllPhonemeErrorsComplete(e', s', k - 1);
    }
  }

  /** Counting over the first `n` pairs is the first pair plus counting
      over the next `n - 1` pairs of the shifted lists. */
  lemma {:induction false} ErrorPairCountShift(expectedWords: seq<string>, spokenWords: seq<string>, n: nat)
    requires 0 < n <= |expectedWords| && n <= |spokenWords|
    ensures ErrorPairCount(expectedWords, spokenWords, n)
         == (if PairHasError(expectedWords, spokenWords, 0) then 1 else 0)
            + ErrorPairCount(expectedWords[1..], spokenWords[1..], n - 1)
  {
    if n > 1 {
      ErrorPairCountShift(expectedWords, spokenWords, n - 1);
      assert expectedWords[1..][n - 2] == expectedWords[n - 1];
      assert spokenWords[1..][n - 2] == spokenWords[n - 1];
    }
  }

  /** Words said exactly as expected produce no errors. */
  lemma {:induction false} ExactReadingHasNoErrors(words: seq<string>)
    ensures AllPhonemeErrors(words, words) == []
    decreases |words|
  {
    if |words| > 0 {
      ExactReadingHasNoErrors(words[1..]);
    }
  }

  /** Words spoken beyond the expected ones are never compared. */
  lemma {:induction false} ExtraWordsIgnored(expectedWords: seq<string>, spokenWords: seq<string>, extra: seq<string>)
    requires |expectedWords| <= |spokenWords|
    ensures AllPhonemeErrors(expectedWords, spokenWords + extra) == AllPhonemeErrors(expectedWords, spokenWords)
    decreases |expectedWords|
  {
    if |expectedWords| > 0 {
      var longer := spokenWords + extra;
      assert longer[0] == spokenWords[0];
      assert longer[1..] == spokenWords[1..] + extra;
      ExtraWordsIgnored(expectedWords[1..], spokenWords[1..], extra);
      var head := AsSeq(PairError(expectedWords[0], spokenWords[0]));
      assert AllPhonemeErrors(expectedWords, longer) == head + AllPhonemeErrors(expectedWords[1..], longer[1..]);
      assert AllPhonemeErrors(expectedWords, spokenWords) == head + AllPhonemeErrors(expectedWords[1..], spokenWords[1..]);
    }
  }

  /** The first five errors.  The language does not influence them. */
  function AnalyzePhonemeErrors(expectedWords: seq<string>, spokenWords: seq<string>, language: string): (r: seq<PhonemeError>)
    ensures |r| <= MaxReportedErrors
    ensures |r| == Min(|AllPhonemeErrors(expectedWords, spokenWords)|, MaxReportedErrors)
    ensures r <= AllPhonemeErrors(expectedWords, spokenWords)
    ensures |AllPhonemeErrors(expectedWords, spokenWords)| <= MaxReportedErrors ==>
      r == AllPhonemeErrors(expectedWords, spokenWords)
  {
    Prefix(AllPhonemeErrors(expectedWords, spokenWords), MaxReportedErrors)
  }

  // ----------------------------------------------------------- feedback

  datatype Feedback = Excellent | Good | NiceEffort | KeepGoing

  datatype Suggestion = SpeakSlowly | PracticeFlow | PronounceAllWords | FocusOnSounds(sounds: set<char>)

  /** The position of a suggestion in the fixed order they are given in. */
  function SuggestionOrder(s: Suggestion): nat {
    match s
    case SpeakSlowly => 0
    case PracticeFlow => 1
    case PronounceAllWords => 2
    case FocusOnSounds(_) => 3
  }

  function FeedbackFor(accuracy: real): (f: Feedback)
    ensures f == Excellent <==> 90.0 <= accuracy
    ensures f == Good <==> 75.0 <= accuracy < 90.0
    ensures f == NiceEffort <==> 60.0 <= accuracy < 75.0
    ensures f == KeepGoing <==> accuracy < 60.0
  {
    if accuracy >= 90.0 then Excellent
    else if accuracy >= 75.0 then Good
    else if accuracy >= 60.0 then NiceEffort
    else KeepGoing
  }

  /** The feedback grades from best (0) to weakest (3). */
  function FeedbackOrder(f: Feedback): nat {
    match f
    case Excellent => 0
    case Good => 1
    case NiceEffort => 2
    case KeepGoing => 3
  }

  /** Higher accuracy never earns weaker feedback. */
  lemma FeedbackMonotone(a1: real, a2: real)
    requires a1 <= a2
    ensures FeedbackOrder(FeedbackFor(a2)) <= FeedbackOrder(FeedbackFor(a1))
  {
  }

  /** The expected sounds of the reported errors. */
  function ErrorSounds(errors: seq<PhonemeError>): (sounds: set<char>)
    ensures forall i :: 0 <= i < |errors| ==> errors[i].expectedSound in sounds
    ensures forall c :: c in sounds ==> exists i :: 0 <= i < |errors| && errors[i].expectedSound == c
  {
    set i | 0 <= i < |errors| :: errors[i].expectedSound
  }

  /** One suggestion per weakness, in a fixed order: slow down below 80%
      accuracy, practise the flow below 70 fluency, say every word below
      90% completeness, and name the wrong sounds when there are any. */
  function Suggestions(accuracy: real, fluency: real, completeness: real, errors: seq<PhonemeError>): (r: seq<Suggestion>)
    ensures SpeakSlowly in r <==> accuracy < 80.0
    ensures PracticeFlow in r <==> fluency < 70.0
    ensures PronounceAllWords in r <==> completeness < 90.0
    ensures forall sounds :: FocusOnSounds(sounds) in r <==> 0 < |errors| && sounds == ErrorSounds(errors)
    ensures forall i, j :: 0 <= i < j < |r| ==> SuggestionOrder(r[i]) < SuggestionOrder(r[j])
  {
    (if accuracy < 80.0 then [SpeakSlowly] else [])
      + (if fluency < 70.0 then [PracticeFlow] else [])
      + (if completeness < 90.0 then [PronounceAllWords] else [])
      + (if 0 < |errors| then [FocusOnSounds(ErrorSounds(errors))] else [])
  }

  /** Whenever errors are reported, their sound set is non-empty, so the
      last suggestion appears exactly when there are errors. */
  lemma ErrorsHaveSounds(errors: seq<PhonemeError>)
    requires 0 < |errors|
    ensures |ErrorSounds(errors)| > 0
  {
    assert errors[0].expectedSound in ErrorSounds(errors);
  }

  // ------------------------------------------------------ the assessment

  datatype Assessment = Assessment(
    transcript: string,
    accuracy: real,
    fluency: real,
    completeness: real,
    overall: real,
    wordScores: seq<WordScore>,
    phonemeErrors: seq<PhonemeError>,
    feedback: Feedback,
    suggestions: seq<Suggestion>)

  /** The whole evaluation of one recording, given its transcript, the
      expected and spoken word lists, and the spoken words' timings. */
  function EvaluatePronunciation(
    transcript: string, expectedWords: seq<string>, spokenWords: seq<string>,
    timings: seq<WordTiming>, language: string): (a: Assessment)
    ensures a.transcript == transcript
    ensures a.wordScores == ScoreWords(expectedWords, spokenWords)
    ensures a.accuracy == Accuracy(a.wordScores)
    ensures a.completeness == Completeness(expectedWords, spokenWords)
    ensures a.fluency == EstimateFluency(timings)
    ensures 0.0 <= a.overall <= 100.0
    ensures a.overall == Overall(a.accuracy, a.completeness, a.fluency)
    ensures a.phonemeErrors == AnalyzePhonemeErrors(expectedWords, spokenWords, language)
    ensures a.feedback == FeedbackFor(a.accuracy)
    ensures a.suggestions == Suggestions(a.accuracy, a.fluency, a.completeness, a.phonemeErrors)
  {
    var scores := ScoreWords(expectedWords, spokenWords);
    var accuracy := Accuracy(scores);
    var completeness := Completeness(expectedWords, spokenWords);
    var fluency := EstimateFluency(timings);
    var errors := AnalyzePhonemeErrors(expectedWords, spokenWords, language);
    Assessment(
      transcript, accuracy, fluency, completeness,
      Overall(accuracy, completeness, fluency),
      scores,
      errors,
      FeedbackFor(accuracy),
      Suggestions(accuracy, fluency, completeness, errors))
  }

  /** A perfect, fluent reading earns the top feedback and no suggestions. */
  lemma PerfectFluentReading(transcript: string, words: seq<string>, timings: seq<WordTiming>, language: string)
    requires 0 < |words|
    requires 2 <= |timings|
    requires forall i :: 0 <= i < |timings| - 1 ==> timings[i + 1].start.GetOr(0.0) - timings[i].end.GetOr(0.0) < 0.3
    ensures var a := EvaluatePronunciation(transcript, words, words, timings, language);
      a.feedback == Excellent && a.suggestions == [] && a.phonemeErrors == []
  {
    PerfectReading(words);
    ShortPausesAreFluent(timings);
    ExactReadingHasNoErrors(words);
  }
}
