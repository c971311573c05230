/**
 The analytics ledger: the per-question counters `track_answer` keeps and
 the per-learner event log that `track_answer` and `track_quiz_generation`
 append to. The engine's process-wide dictionaries are an explicit `Engine`
 value threaded through pure functions, and the wall-clock reading is the
 `now` parameter (whole seconds).
 */
module Ledger {
  import opened Common
  import opened Stats
  import opened Answers

  /** The counters kept for one question id. */
  datatype QuestionStats = QuestionStats(
    attempts: nat,
    correct: nat,
    averageTime: real,
    mistakes: map<string, nat>)   // wrong answer -> how often it was given

  /** The record created the first time a question id is seen. */
  const FreshStats := QuestionStats(0, 0, 0.0, map[])

  /** How often a wrong answer has been recorded; a `defaultdict(int)` reads 0 for a new key. */
  function MistakeCount(m: map<string, nat>, answer: string): nat {
    if answer in m then m[answer] else 0
  }

  /** The counters after one more attempt at the question. */
  function UpdateQuestionStats(s: QuestionStats, a: Answer): (r: QuestionStats)
    ensures r.attempts == s.attempts + 1
    ensures r.correct == s.correct + (if a.isCorrect then 1 else 0)
    ensures s.correct <= s.attempts ==> r.correct <= r.attempts
    ensures a.isCorrect || a.userAnswer == "" ==> r.mistakes == s.mistakes
    ensures !a.isCorrect && a.userAnswer != "" ==>
              MistakeCount(r.mistakes, a.userAnswer) == MistakeCount(s.mistakes, a.userAnswer) + 1
    ensures forall w :: w != a.userAnswer ==> MistakeCount(r.mistakes, w) == MistakeCount(s.mistakes, w)
    ensures a.timeTaken.None? ==> r.averageTime == s.averageTime
    ensures a.timeTaken.Some? ==>
              IsQuotient(r.averageTime, s.averageTime * s.attempts as real + a.timeTaken.value, r.attempts)
  {
    var attempts := s.attempts + 1;
    var mistakes :=
      if !a.isCorrect && a.userAnswer != ""
      then s.mistakes[a.userAnswer := MistakeCount(s.mistakes, a.userAnswer) + 1]
      else s.mistakes;
    var avg :=
      if a.timeTaken.Some?
      then (s.averageTime * (attempts - 1) as real + a.timeTaken.value) / attempts as real
      else s.averageTime;
    QuestionStats(attempts, s.correct + (if a.isCorrect then 1 else 0), avg, mistakes)
  }

  /** The counters for a question after a sequence of attempts, oldest first. */
  function Replay(s: QuestionStats, answers: seq<Answer>): QuestionStats {
    if |answers| == 0 then s
    else UpdateQuestionStats(Replay(s, answers[..|answers| - 1]), answers[|answers| - 1])
  }

  /** The counters count: attempts by one per answer, correct by one per correct answer. */
  lemma {:induction false} ReplayCounts(s: QuestionStats, answers: seq<Answer>)
    requires s.correct <= s.attempts
    ensures Replay(s, answers).attempts == s.attempts + |answers|
    ensures Replay(s, answers).correct == s.correct + CountTrue(Marks(answers))
    ensures Replay(s, answers).correct <= Replay(s, answers).attempts
  {
    if |answers| > 0 {
      var init := answers[..|answers| - 1];
      ReplayCounts(s, init);
      assert Marks(answers)[..|answers| - 1] == Marks(init);
    }
  }

  /** Every answer carries a time. */
  ghost predicate AllTimed(answers: seq<Answer>) {
    forall i :: 0 <= i < |answers| ==> answers[i].timeTaken.Some?
  }

  lemma {:induction false} TimesAllTimed(answers: seq<Answer>)
    requires AllTimed(answers)
    ensures |Times(answers)| == |answers|
  {
    if |answers| > 0 {
      TimesAllTimed(answers[..|answers| - 1]);
    }
  }

  /**
   The incremental mean is the mean: when every attempt carries a time, the
   running average over a fresh record is the arithmetic mean of the times.
   */
  lemma {:induction false} ReplayMean(answers: seq<Answer>)
    requires AllTimed(answers)
    ensures IsQuotient(Replay(FreshStats, answers).averageTime, Sum(Times(answers)), |answers|)
  {
    if |answers| > 0 {
      var n := |answers|;
      var init := answers[..n - 1];
      var a := answers[n - 1];
      ReplayMean(init);
      ReplayCounts(FreshStats, init);
      var p := Replay(FreshStats, init);
      var t := a.timeTaken.value;
      var ts := Times(init);
      assert Times(answers) == ts + [t];
      assert (ts + [t])[..|ts|] == ts;
      assert Sum(Times(answers)) == Sum(ts) + t;
      MeanStep(p, a, Sum(ts));
    }
  }

  /** One more timed attempt extends a running mean by that time. */
  lemma MeanStep(p: QuestionStats, a: Answer, total: real)
    requires a.timeTaken.Some?
    requires IsQuotient(p.averageTime, total, p.attempts)
    ensures IsQuotient(UpdateQuestionStats(p, a).averageTime, total + a.timeTaken.value, p.attempts + 1)
  {
  }

  /** The same as a mean, for a non-empty attempt list. */
  lemma AverageIsMean(answers: seq<Answer>)
    requires |answers| > 0 && AllTimed(answers)
    ensures Replay(FreshStats, answers).averageTime == Mean(Times(answers))
  {
    ReplayMean(answers);
    TimesAllTimed(answers);
    QuotientIsDivision(Replay(FreshStats, answers).averageTime, Sum(Times(answers)), |answers|);
  }

  /** The first timed attempt sets the average to its own time. */
  lemma FirstAttemptSetsAverage(a: Answer)
    requires a.timeTaken.Some?
    ensures UpdateQuestionStats(FreshStats, a).averageTime == a.timeTaken.value
  {
  }

  // ------------------------------------------------------------- event log

  /** One entry of a learner's event log; `timestamp` is in whole seconds. */
  datatype Event =
    | QuizGenerated(timestamp: int)
    | AnswerSubmitted(timestamp: int, questionId: string, data: Answer)

  /** The engine's state: per-learner event logs and per-question counters. */
  datatype Engine = Engine(
    sessions: map<string, seq<Event>>,
    questions: map<string, QuestionStats>)

  const EmptyEngine := Engine(map[], map[])

  /** The learner's log; a `defaultdict(list)` reads [] for a new learner. */
  function Log(e: Engine, user: string): seq<Event> {
    if user in e.sessions then e.sessions[user] else []
  }

  function StatsOf(e: Engine, questionId: string): QuestionStats {
    if questionId in e.questions then e.questions[questionId] else FreshStats
  }

  /** `track_quiz_generation`: one event appended to the learner's log, nothing else touched. */
  function TrackQuizGeneration(e: Engine, user: string, now: int): (r: Engine)
    ensures r.questions == e.questions
    ensures user in r.sessions && r.sessions[user] == Log(e, user) + [QuizGenerated(now)]
    ensures forall u :: u != user ==> Log(r, u) == Log(e, u)
  {
    Engine(e.sessions[user := Log(e, user) + [QuizGenerated(now)]], e.questions)
  }

  /** `track_answer`: the question's counters updated and one event appended to the learner's log. */
  function TrackAnswer(e: Engine, user: string, questionId: string, a: Answer, now: int): (r: Engine)
    ensures questionId in r.questions
    ensures r.questions[questionId] == UpdateQuestionStats(StatsOf(e, questionId), a)
    ensures forall q :: q != questionId ==> StatsOf(r, q) == StatsOf(e, q)
    ensures user in r.sessions && r.sessions[user] == Log(e, user) + [AnswerSubmitted(now, questionId, a)]
    ensures forall u :: u != user ==> Log(r, u) == Log(e, u)
  {
    Engine(
      e.sessions[user := Log(e, user) + [AnswerSubmitted(now, questionId, a)]],
      e.questions[questionId := UpdateQuestionStats(StatsOf(e, questionId), a)])
  }

  /** Tracking answers keeps every question's correct count within its attempts. */
  lemma TrackAnswerKeepsCounts(e: Engine, user: string, questionId: string, a: Answer, now: int)
    requires forall q :: q in e.questions ==> e.questions[q].correct <= e.questions[q].attempts
    ensures var r := TrackAnswer(e, user, questionId, a, now);
      forall q :: q in r.questions ==> r.questions[q].correct <= r.questions[q].attempts
  {
  }
}
