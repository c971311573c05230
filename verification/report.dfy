/**
 The quiz report: accuracy overall and per topic, Bloom level and question
 type, behaviour patterns, the longest streaks and the performance trend,
 all computed from the ordered list of a quiz's answers.
 */
module Report {
  import opened Common
  import opened Dicts
  import opened Stats
  import opened Tally
  import opened Answers

  datatype Patterns = Patterns(
    rushing: bool, fatigue: bool, guessing: bool,
    consistent: bool, improving: bool, declining: bool)

  const NoPatterns := Patterns(false, false, false, false, false, false)

  datatype Trend = InsufficientData | Improving | Declining | Stable

  datatype QuizReport = QuizReport(
    totalQuestions: nat,
    timeTaken: int,
    correctAnswers: nat,
    incorrectAnswers: nat,
    overallScore: real,
    percentage: real,
    averageTime: Option<real>,     // present only when time_taken != 0 and there are answers
    timePerCorrect: Option<real>,  // likewise
    topicScores: Dict<real>,
    bloomScores: Dict<real>,
    typeScores: Dict<real>,
    patterns: Patterns,
    longestCorrectStreak: nat,
    longestIncorrectStreak: nat,
    trend: Trend)

  // ---------------------------------------------------------------- patterns

  /** Mean answer time under 10 seconds. */
  const RushingSeconds: real := 10.0
  /** Minimum answers for the fatigue / improving check. */
  const HalvesMinAnswers: nat := 5
  /** Minimum answers for the consistency check. */
  const ConsistencyMinAnswers: nat := 3

  /** Number of adjacent positions where the value changes. */
  function Flips(bs: seq<bool>): (n: nat)
    ensures |bs| > 0 ==> n < |bs|
  {
    if |bs| <= 1 then 0
    else Flips(bs[..|bs| - 1]) + (if bs[|bs| - 1] != bs[|bs| - 2] then 1 else 0)
  }

  lemma {:induction false} FlipsUniform(bs: seq<bool>, v: bool)
    requires forall i :: 0 <= i < |bs| ==> bs[i] == v
    ensures Flips(bs) == 0
  {
    if |bs| > 1 {
      FlipsUniform(bs[..|bs| - 1], v);
    }
  }

  /** Accuracy of the first half `answers[:n//2]`. */
  function FirstHalfAccuracy(answers: seq<Answer>): real
    requires |answers| >= 2
  {
    Ratio(Marks(answers[..|answers| / 2]))
  }

  /** Accuracy of the second half `answers[n//2:]`. */
  function SecondHalfAccuracy(answers: seq<Answer>): real
    requires |answers| >= 1
  {
    Ratio(Marks(answers[|answers| / 2..]))
  }

  /** `_identify_patterns`: the behaviour flags of one quiz attempt. */
  function IdentifyPatterns(answers: seq<Answer>): (p: Patterns)
    ensures |answers| == 0 ==> p == NoPatterns
    ensures p.fatigue <==> p.declining
    ensures !(p.improving && p.declining)
    ensures p.fatigue || p.improving ==> |answers| >= HalvesMinAnswers
    ensures p.declining <==>
              |answers| >= HalvesMinAnswers && SecondHalfAccuracy(answers) < FirstHalfAccuracy(answers) - 0.2
    ensures p.improving <==>
              |answers| >= HalvesMinAnswers && SecondHalfAccuracy(answers) > FirstHalfAccuracy(answers) + 0.2
    ensures p.consistent <==>
              |answers| >= ConsistencyMinAnswers && Flips(Marks(answers)) as real <= 0.3 * |answers| as real
    ensures p.rushing <==> |Times(answers)| > 0 && Mean(Times(answers)) < RushingSeconds
    ensures var mc := MultipleChoiceAnswers(answers);
              p.guessing <==> |mc| > 0 && 0.2 <= Ratio(Marks(mc)) <= 0.3
  {
    if |answers| == 0 then NoPatterns
    else
      var times := Times(answers);
      var rushing := |times| > 0 && Mean(times) < RushingSeconds;
      var n := |answers|;
      var first := if n >= HalvesMinAnswers then FirstHalfAccuracy(answers) else 0.0;
      var second := if n >= HalvesMinAnswers then SecondHalfAccuracy(answers) else 0.0;
      var declining := n >= HalvesMinAnswers && second < first - 0.2;
      var improving := n >= HalvesMinAnswers && !declining && second > first + 0.2;
      var mc := MultipleChoiceAnswers(answers);
      var guessing := |mc| > 0 && 0.2 <= Ratio(Marks(mc)) <= 0.3;
      var consistent := n >= ConsistencyMinAnswers && Flips(Marks(answers)) as real <= n as real * 0.3;
      Patterns(rushing, declining, guessing, consistent, improving, declining)
  }

  // ----------------------------------------------------------------- streaks

  /** Length of the run of v at the end of bs. */
  function RunAtEnd(bs: seq<bool>, v: bool): (r: nat)
    ensures r <= Occurrences(bs, v)
  {
    if |bs| == 0 || bs[|bs| - 1] != v then 0 else RunAtEnd(bs[..|bs| - 1], v) + 1
  }

  /** `_calculate_streak`: the current run is extended or reset at each answer and the best kept. */
  function LongestStreak(bs: seq<bool>, v: bool): (r: nat)
    ensures r <= Occurrences(bs, v)
    ensures |bs| > 0 && bs[|bs| - 1] == v ==> r >= 1
  {
    if |bs| == 0 then 0
    else
      var init := bs[..|bs| - 1];
      assert Occurrences(init, v) <= Occurrences(bs, v);
      Max(LongestStreak(init, v), RunAtEnd(bs, v))
  }

  /** bs[i..j] is a run of v. */
  ghost predicate IsRun(bs: seq<bool>, v: bool, i: int, j: int) {
    0 <= i <= j <= |bs| && forall k :: i <= k < j ==> bs[k] == v
  }

  lemma {:induction false} RunAtEndIsRun(bs: seq<bool>, v: bool)
    ensures IsRun(bs, v, |bs| - RunAtEnd(bs, v), |bs|)
    ensures forall i :: IsRun(bs, v, i, |bs|) ==> |bs| - i <= RunAtEnd(bs, v)
  {
    if |bs| > 0 {
      var init := bs[..|bs| - 1];
      RunAtEndIsRun(init, v);
      forall i | IsRun(bs, v, i, |bs|) ensures |bs| - i <= RunAtEnd(bs, v) {
        if i < |bs| {
          assert IsRun(init, v, i, |init|);
        }
      }
    }
  }

  /** Where a longest run of v starts: the first one found by the scan. */
  ghost function StreakStart(bs: seq<bool>, v: bool): int {
    if |bs| == 0 then 0
    else if LongestStreak(bs[..|bs| - 1], v) >= RunAtEnd(bs, v) then StreakStart(bs[..|bs| - 1], v)
    else |bs| - RunAtEnd(bs, v)
  }

  /** The streak is the length of a longest run: some run has that length and none is longer. */
  lemma {:induction false} StreakIsLongestRun(bs: seq<bool>, v: bool)
    ensures forall i, j :: IsRun(bs, v, i, j) ==> j - i <= LongestStreak(bs, v)
    ensures IsRun(bs, v, StreakStart(bs, v), StreakStart(bs, v) + LongestStreak(bs, v))
  {
    if |bs| > 0 {
      var init := bs[..|bs| - 1];
      StreakIsLongestRun(init, v);
      RunAtEndIsRun(bs, v);
      forall i, j | IsRun(bs, v, i, j) ensures j - i <= LongestStreak(bs, v) {
        if j < |bs| {
          assert IsRun(init, v, i, j);
        }
      }
      if LongestStreak(init, v) >= RunAtEnd(bs, v) {
        var i := StreakStart(init, v);
        assert IsRun(init, v, i, i + LongestStreak(init, v));
        assert IsRun(bs, v, i, i + LongestStreak(bs, v));
      }
    }
  }

  /** A non-empty quiz has a streak of at least one of right or wrong answers. */
  lemma SomeStreakPositive(bs: seq<bool>)
    requires |bs| > 0
    ensures Max(LongestStreak(bs, true), LongestStreak(bs, false)) >= 1
  {
  }

  // ------------------------------------------------------------------- trend

  const TrendThreshold: real := 0.1

  /** `min(3, n // 3)`. */
  function WindowSize(n: nat): (w: nat)
    ensures n >= 3 ==> 1 <= w <= 3 && n - w + 1 >= 3
  {
    Min(3, n / 3)
  }

  /** Accuracy over each window of w consecutive answers. */
  function WindowAccuracies(bs: seq<bool>, w: nat): (accs: seq<real>)
    requires 1 <= w <= |bs|
    ensures |accs| == |bs| - w + 1
    ensures forall i :: 0 <= i < |accs| ==> accs[i] == Ratio(bs[i..i + w])
    ensures forall i :: 0 <= i < |accs| ==> 0.0 <= accs[i] <= 1.0
  {
    var accs := seq(|bs| - w + 1, i requires 0 <= i < |bs| - w + 1 => Ratio(bs[i..i + w]));
    WindowsIn01(bs, w, accs);
    accs
  }

  lemma WindowsIn01(bs: seq<bool>, w: nat, accs: seq<real>)
    requires 1 <= w <= |bs| && |accs| == |bs| - w + 1
    requires forall i :: 0 <= i < |accs| ==> accs[i] == Ratio(bs[i..i + w])
    ensures forall i :: 0 <= i < |accs| ==> 0.0 <= accs[i] <= 1.0
  {
    forall i | 0 <= i < |accs| ensures 0.0 <= accs[i] <= 1.0 {
      assert |bs[i..i + w]| == w;
    }
  }

  /** The slope classification of the windowed accuracies. */
  function Classify(slope: real): (t: Trend)
    ensures t != InsufficientData
  {
    if slope > TrendThreshold then Improving
    else if slope < -TrendThreshold then Declining
    else Stable
  }

  /** `_calculate_trend`. */
  function CalculateTrend(bs: seq<bool>): (t: Trend)
    ensures t == InsufficientData <==> |bs| < 3
  {
    if |bs| < 3 then InsufficientData
    else
      var accs := WindowAccuracies(bs, WindowSize(|bs|));
      Classify(Slope(accs))
  }

  /** A quiz answered all right, or all wrong, has a stable trend. */
  lemma UniformTrendIsStable(bs: seq<bool>, v: bool)
    requires |bs| >= 3
    requires forall i :: 0 <= i < |bs| ==> bs[i] == v
    ensures CalculateTrend(bs) == Stable
  {
    var w := WindowSize(|bs|);
    var accs := WindowAccuracies(bs, w);
    var c := if v then 1.0 else 0.0;
    forall i | 0 <= i < |accs| ensures accs[i] == c {
      CountTrueUniform(bs[i..i + w], v);
    }
    SlopeOfConstant(accs, c);
  }

  // ------------------------------------------------------------------ report

  /** `generate_report` without the timestamp, answer echo and insight text. */
  function GenerateReport(answers: seq<Answer>, timeTaken: int): (r: QuizReport)
    ensures r.totalQuestions == |answers|
    ensures r.correctAnswers + r.incorrectAnswers == r.totalQuestions
    ensures r.correctAnswers == CountTrue(Marks(answers))
    ensures 0.0 <= r.overallScore <= 1.0
    ensures |answers| == 0 ==> r.overallScore == 0.0
    ensures |answers| > 0 ==> IsQuotient(r.overallScore, r.correctAnswers as real, |answers|)
    ensures r.averageTime.Some? <==> timeTaken != 0 && |answers| > 0
    ensures r.averageTime.Some? ==> IsQuotient(r.averageTime.value, timeTaken as real, |answers|)
    ensures Within01(r.topicScores) && Within01(r.bloomScores) && Within01(r.typeScores)
    ensures r.longestCorrectStreak <= r.correctAnswers
    ensures r.longestIncorrectStreak <= r.incorrectAnswers
    ensures |answers| > 0 ==> Max(r.longestCorrectStreak, r.longestIncorrectStreak) >= 1
    ensures r.trend == InsufficientData <==> |answers| < 3
    ensures r.patterns == IdentifyPatterns(answers)
  {
    var n := |answers|;
    var marks := Marks(answers);
    var correct := CountTrue(marks);
    var score := Fraction(correct, n);
    StreakFacts(marks);
    QuizReport(
      n, timeTaken, correct, n - correct, score, score * 100.0,
      if timeTaken != 0 && n > 0 then Some(Divide(timeTaken as real, n)) else None,
      if timeTaken != 0 && n > 0 then Some(if correct > 0 then Divide(timeTaken as real, correct) else 0.0) else None,
      Accuracy(TopicObs(answers)),
      Accuracy(BloomObs(answers)),
      Accuracy(TypeObs(answers)),
      IdentifyPatterns(answers),
      LongestStreak(marks, true),
      LongestStreak(marks, false),
      CalculateTrend(marks))
  }

  lemma StreakFacts(marks: seq<bool>)
    ensures LongestStreak(marks, true) <= CountTrue(marks)
    ensures LongestStreak(marks, false) <= |marks| - CountTrue(marks)
    ensures |marks| > 0 ==> Max(LongestStreak(marks, true), LongestStreak(marks, false)) >= 1
  {
    OccurrencesCount(marks);
    if |marks| > 0 {
      SomeStreakPositive(marks);
    }
  }

  /** The per-topic, per-level and per-type scores are keyed by exactly the observed values. */
  lemma ReportScoreKeys(answers: seq<Answer>, timeTaken: int)
    ensures var r := GenerateReport(answers, timeTaken);
      && Distinct(r.topicScores) && Distinct(r.bloomScores) && Distinct(r.typeScores)
      && (forall k :: k in Keys(r.topicScores) <==> exists a :: a in answers && TopicOf(a) == k)
      && (forall k :: k in Keys(r.bloomScores) <==> exists a :: a in answers && BloomOf(a) == k)
      && (forall k :: k in Keys(r.typeScores) <==> exists a :: a in answers && TypeOf(a) == k)
  {
    TopicKeys(answers);
    BloomKeys(answers);
    TypeKeys(answers);
  }

  /** Occurrences of true and of false are the true count and the rest. */
  lemma {:induction false} OccurrencesCount(bs: seq<bool>)
    ensures Occurrences(bs, true) == CountTrue(bs)
    ensures Occurrences(bs, false) == |bs| - CountTrue(bs)
  {
    if |bs| > 0 {
      OccurrencesCount(bs[..|bs| - 1]);
    }
  }

  // --------------------------------------------------- behaviour on examples

  /** Answers all right (or all wrong), at least three: consistent, no fatigue or warm-up, stable trend. */
  lemma SteadyQuiz(answers: seq<Answer>, v: bool)
    requires |answers| >= 3
    requires forall i :: 0 <= i < |answers| ==> answers[i].isCorrect == v
    ensures IdentifyPatterns(answers).consistent
    ensures !IdentifyPatterns(answers).fatigue && !IdentifyPatterns(answers).improving
    ensures CalculateTrend(Marks(answers)) == Stable
  {
    var bs := Marks(answers);
    FlipsUniform(bs, v);
    UniformTrendIsStable(bs, v);
    if |answers| >= HalvesMinAnswers {
      HalvesUniform(answers, v, v);
    }
  }

  /** The accuracy of each half when each half is uniformly right or wrong. */
  lemma HalvesUniform(answers: seq<Answer>, first: bool, second: bool)
    requires |answers| >= 2
    requires forall i :: 0 <= i < |answers| / 2 ==> answers[i].isCorrect == first
    requires forall i :: |answers| / 2 <= i < |answers| ==> answers[i].isCorrect == second
    ensures FirstHalfAccuracy(answers) == if first then 1.0 else 0.0
    ensures SecondHalfAccuracy(answers) == if second then 1.0 else 0.0
  {
    var h := |answers| / 2;
    RatioUniform(Marks(answers[..h]), first);
    RatioUniform(Marks(answers[h..]), second);
  }

  /** Every answer timed and under ten seconds: rushing. */
  lemma FastQuizIsRushing(answers: seq<Answer>)
    requires |answers| > 0
    requires forall i :: 0 <= i < |answers| ==>
               answers[i].timeTaken.Some? && answers[i].timeTaken.value < RushingSeconds
    ensures IdentifyPatterns(answers).rushing
  {
    TimesBelow(answers);
    MeanBelow(Times(answers), RushingSeconds);
  }

  lemma {:induction false} TimesBelow(answers: seq<Answer>)
    requires forall i :: 0 <= i < |answers| ==>
               answers[i].timeTaken.Some? && answers[i].timeTaken.value < RushingSeconds
    ensures |Times(answers)| == |answers|
    ensures forall i :: 0 <= i < |Times(answers)| ==> Times(answers)[i] < RushingSeconds
  {
    if |answers| > 0 {
      TimesBelow(answers[..|answers| - 1]);
    }
  }

  /** First half all right and second half all wrong, at least five answers: fatigue and declining. */
  lemma CollapseIsFatigue(answers: seq<Answer>)
    requires |answers| >= HalvesMinAnswers
    requires forall i :: 0 <= i < |answers| / 2 ==> answers[i].isCorrect
    requires forall i :: |answers| / 2 <= i < |answers| ==> !answers[i].isCorrect
    ensures IdentifyPatterns(answers).fatigue && IdentifyPatterns(answers).declining
  {
    HalvesUniform(answers, true, false);
  }
}
