/**
 `get_user_analytics`: totals over the learner's recent sessions, per-topic
 mastery as the mean of the per-session topic scores, study time, the
 improvement of the latest sessions over the first, and the three
 strongest and three weakest topics.
 */
module UserAnalytics {
  import opened Common
  import opened Dicts
  import opened Stats
  import opened Sorting
  import opened Ledger
  import opened Sessions

  // ------------------------------------------------------------ topic mastery

  /** The per-session topic scores of all sessions, session by session. */
  function TopicScoreList(ss: seq<SessionSummary>): seq<(string, real)> {
    if |ss| == 0 then [] else TopicScoreList(ss[..|ss| - 1]) + Last(ss).topicPerformance
  }

  /** The scores recorded for topic k, in order. */
  function ScoresFor(pairs: seq<(string, real)>, k: string): (xs: seq<real>)
    ensures |xs| <= |pairs|
    ensures forall x :: x in xs <==> (k, x) in pairs
  {
    if |pairs| == 0 then []
    else
      FrontLast(pairs);
      ScoresFor(pairs[..|pairs| - 1], k) + (if Last(pairs).0 == k then [Last(pairs).1] else [])
  }

  /** A topic's scores over a concatenation are its scores in each part, in order. */
  lemma {:induction false} ScoresForAppend(x: seq<(string, real)>, y: seq<(string, real)>, k: string)
    ensures ScoresFor(x + y, k) == ScoresFor(x, k) + ScoresFor(y, k)
  {
    if |y| == 0 {
      assert x + y == x;
    } else {
      var y0 := y[..|y| - 1];
      ScoresForAppend(x, y0, k);
      assert (x + y)[..|x + y| - 1] == x + y0;
    }
  }

  /** The running (sum, count) a topic should have after the pairs. */
  function TallyOf(pairs: seq<(string, real)>, k: string): Option<(real, nat)> {
    var xs := ScoresFor(pairs, k);
    if |xs| == 0 then None else Some((Sum(xs), |xs|))
  }

  /** One more score for topic k: `topic_totals[k]['total'] += 1; ['correct'] += score`. */
  function AddScore(d: Dict<(real, nat)>, k: string, v: real): Dict<(real, nat)> {
    match Get(d, k)
    case None => Put(d, k, (v, 1))
    case Some(p) => Put(d, k, (p.0 + v, p.1 + 1))
  }

  /** The `topic_totals` accumulation loop. */
  function MasteryTotals(pairs: seq<(string, real)>): (d: Dict<(real, nat)>)
    ensures Distinct(d)
    ensures forall k :: Get(d, k) == TallyOf(pairs, k)
  {
    if |pairs| == 0 then []
    else
      var init := pairs[..|pairs| - 1];
      var d0 := MasteryTotals(init);
      TotalsStep(init, Last(pairs), d0);
      AddScore(d0, Last(pairs).0, Last(pairs).1)
  }

  lemma TotalsStep(init: seq<(string, real)>, p: (string, real), d0: Dict<(real, nat)>)
    requires Distinct(d0)
    requires forall k :: Get(d0, k) == TallyOf(init, k)
    ensures forall k :: Get(AddScore(d0, p.0, p.1), k) == TallyOf(init + [p], k)
  {
    var pairs := init + [p];
    assert pairs[..|pairs| - 1] == init;
    var d := AddScore(d0, p.0, p.1);
    forall k ensures Get(d, k) == TallyOf(pairs, k) {
      if k == p.0 {
        var xs := ScoresFor(init, k);
        assert ScoresFor(pairs, k) == xs + [p.1];
        assert (xs + [p.1])[..|xs|] == xs;
        assert Sum(xs + [p.1]) == Sum(xs) + p.1;
      } else {
        assert ScoresFor(pairs, k) == ScoresFor(init, k);
      }
    }
  }

  /** Every topic's mean score, in first-seen order. */
  function Mastery(pairs: seq<(string, real)>): (m: Dict<real>)
    ensures Keys(m) == Keys(MasteryTotals(pairs))
    ensures Distinct(m)
    ensures forall k :: k in Keys(m) <==> |ScoresFor(pairs, k)| > 0
    ensures MeanScores(pairs, m)
  {
    var d := MasteryTotals(pairs);
    var m := seq(|d|, i requires 0 <= i < |d| =>
                (d[i].0, if d[i].1.1 > 0 then d[i].1.0 / d[i].1.1 as real else 0.0));
    assert Keys(m) == Keys(d);
    forall k ensures k in Keys(m) <==> |ScoresFor(pairs, k)| > 0 {
      assert Get(d, k) == TallyOf(pairs, k);
    }
    forall i | 0 <= i < |m|
      ensures |ScoresFor(pairs, m[i].0)| > 0 && m[i].1 == Mean(ScoresFor(pairs, m[i].0))
    {
      assert Get(d, d[i].0) == Some(d[i].1);
      assert TallyOf(pairs, d[i].0) == Some(d[i].1);
    }
    m
  }

  /** Each value of m is the mean of the scores recorded for its key. */
  ghost predicate MeanScores(pairs: seq<(string, real)>, m: Dict<real>) {
    forall i :: 0 <= i < |m| ==>
      |ScoresFor(pairs, m[i].0)| > 0 && m[i].1 == Mean(ScoresFor(pairs, m[i].0))
  }

  lemma {:induction false} ScoresForWithin(pairs: seq<(string, real)>, k: string)
    requires forall i :: 0 <= i < |pairs| ==> 0.0 <= pairs[i].1 <= 1.0
    ensures forall i :: 0 <= i < |ScoresFor(pairs, k)| ==> 0.0 <= ScoresFor(pairs, k)[i] <= 1.0
  {
    if |pairs| > 0 {
      ScoresForWithin(pairs[..|pairs| - 1], k);
    }
  }

  /** Mastery of scores in [0, 1] is in [0, 1]. */
  lemma MasteryWithin01(pairs: seq<(string, real)>)
    requires forall i :: 0 <= i < |pairs| ==> 0.0 <= pairs[i].1 <= 1.0
    ensures Within01(Mastery(pairs))
  {
    var m := Mastery(pairs);
    forall i | 0 <= i < |m| ensures 0.0 <= m[i].1 <= 1.0 {
      ScoresForWithin(pairs, m[i].0);
      MeanBounds(ScoresFor(pairs, m[i].0), 0.0, 1.0);
    }
  }

  lemma {:induction false} TopicScoresWithin(ss: seq<SessionSummary>)
    requires forall i :: 0 <= i < |ss| ==> Within01(ss[i].topicPerformance)
    ensures forall i :: 0 <= i < |TopicScoreList(ss)| ==> 0.0 <= TopicScoreList(ss)[i].1 <= 1.0
  {
    if |ss| > 0 {
      TopicScoresWithin(ss[..|ss| - 1]);
      var a: seq<(string, real)> := TopicScoreList(ss[..|ss| - 1]);
      var b: seq<(string, real)> := Last(ss).topicPerformance;
      forall i | 0 <= i < |a + b| ensures 0.0 <= (a + b)[i].1 <= 1.0 {
        if i >= |a| {
          assert (a + b)[i] == b[i - |a|];
        }
      }
    }
  }

  // ---------------------------------------------------------------- totals

  function TotalAnswered(ss: seq<SessionSummary>): nat {
    if |ss| == 0 then 0 else TotalAnswered(ss[..|ss| - 1]) + Last(ss).questionsAnswered
  }

  function TotalCorrect(ss: seq<SessionSummary>): nat {
    if |ss| == 0 then 0 else TotalCorrect(ss[..|ss| - 1]) + Last(ss).correctAnswers
  }

  /** `(end - start).seconds` summed over the sessions. */
  function StudyTime(ss: seq<SessionSummary>): (t: nat)
    ensures t < |ss| * SecondsPerDay || |ss| == 0
  {
    if |ss| == 0 then 0
    else StudyTime(ss[..|ss| - 1]) + TimedeltaSeconds(Last(ss).startTime, Last(ss).endTime)
  }

  function Accuracies(ss: seq<SessionSummary>): (accs: seq<real>)
    ensures |accs| == |ss|
    ensures forall i :: 0 <= i < |ss| ==> accs[i] == ss[i].accuracy
  {
    seq(|ss|, i requires 0 <= i < |ss| => ss[i].accuracy)
  }

  lemma {:induction false} TotalsBound(ss: seq<SessionSummary>)
    requires forall i :: 0 <= i < |ss| ==> WellFormed(ss[i])
    ensures TotalCorrect(ss) <= TotalAnswered(ss)
  {
    if |ss| > 0 {
      TotalsBound(ss[..|ss| - 1]);
    }
  }

  // --------------------------------------------------------------- analytics

  datatype Analytics = Analytics(
    totalSessions: nat,
    totalQuestions: nat,
    totalCorrect: nat,
    overallAccuracy: real,
    topicMastery: Dict<real>,
    learningCurve: seq<(int, real)>,   // (session start, session accuracy)
    totalStudyTime: nat,
    averageSessionTime: real,
    improvement: real,
    lastActivity: int,
    strengths: seq<(string, real)>,
    weaknesses: seq<(string, real)>)

  /** (start, accuracy) of each session. */
  function LearningCurve(ss: seq<SessionSummary>): (c: seq<(int, real)>)
    ensures |c| == |ss|
    ensures forall i :: 0 <= i < |ss| ==> c[i] == (ss[i].startTime, ss[i].accuracy)
  {
    seq(|ss|, i requires 0 <= i < |ss| => (ss[i].startTime, ss[i].accuracy))
  }

  /** How many sessions the improvement averages over, and how many topics each list keeps. */
  const RecentForImprovement: nat := 3
  const TopTopics: nat := 3

  /** Mean accuracy of the last three sessions minus that of the first; 0 with fewer than two sessions. */
  function Improvement(ss: seq<SessionSummary>): (r: real)
    ensures |ss| < 2 ==> r == 0.0
    ensures |ss| >= 2 ==>
              IsQuotient(r + ss[0].accuracy, Sum(LastN(Accuracies(ss), RecentForImprovement)),
                         Min(|ss|, RecentForImprovement))
  {
    if |ss| < 2 then 0.0
    else
      var recent := LastN(Accuracies(ss), RecentForImprovement);
      Divide(Sum(recent), |recent|) - ss[0].accuracy
  }

  /** The analytics of a non-empty list of session summaries. */
  function Aggregate(ss: seq<SessionSummary>): (a: Analytics)
    requires |ss| > 0
    ensures a.totalSessions == |ss|
    ensures a.improvement == Improvement(ss)
    ensures a.totalQuestions == TotalAnswered(ss) && a.totalCorrect == TotalCorrect(ss)
    ensures a.totalQuestions == 0 ==> a.overallAccuracy == 0.0
    ensures a.totalQuestions > 0 ==> IsQuotient(a.overallAccuracy, a.totalCorrect as real, a.totalQuestions)
    ensures Distinct(a.topicMastery) && MeanScores(TopicScoreList(ss), a.topicMastery)
    ensures forall k :: k in Keys(a.topicMastery) <==> |ScoresFor(TopicScoreList(ss), k)| > 0
    ensures |a.learningCurve| == |ss|
    ensures forall i :: 0 <= i < |ss| ==> a.learningCurve[i] == (ss[i].startTime, ss[i].accuracy)
    ensures a.totalStudyTime == StudyTime(ss)
    ensures IsQuotient(a.averageSessionTime, a.totalStudyTime as real, |ss|)
    ensures a.lastActivity == Last(ss).endTime
    ensures IsTop(a.strengths, a.topicMastery, true, TopTopics)
    ensures IsTop(a.weaknesses, a.topicMastery, false, TopTopics)
  {
    var answered := TotalAnswered(ss);
    var correct := TotalCorrect(ss);
    var mastery := Mastery(TopicScoreList(ss));
    var time := StudyTime(ss);
    Analytics(
      |ss|, answered, correct,
      if answered > 0 then Divide(correct as real, answered) else 0.0,
      mastery,
      LearningCurve(ss),
      time,
      Divide(time as real, |ss|),
      Improvement(ss),
      Last(ss).endTime,
      Top(mastery, true, TopTopics),
      Top(mastery, false, TopTopics))
  }

  /** On well-formed sessions, every accuracy, mastery and improvement figure is a proper fraction. */
  lemma AggregateBounds(ss: seq<SessionSummary>)
    requires |ss| > 0
    requires forall i :: 0 <= i < |ss| ==> WellFormed(ss[i])
    ensures 0.0 <= Aggregate(ss).overallAccuracy <= 1.0
    ensures Within01(Aggregate(ss).topicMastery)
    ensures -1.0 <= Aggregate(ss).improvement <= 1.0
  {
    TotalsBound(ss);
    if TotalAnswered(ss) > 0 {
      FractionBounds(TotalCorrect(ss), TotalAnswered(ss));
    }
    TopicScoresWithin(ss);
    MasteryWithin01(TopicScoreList(ss));
    if |ss| >= 2 {
      var recent := LastN(Accuracies(ss), RecentForImprovement);
      MeanBounds(recent, 0.0, 1.0);
    }
  }

  /** Sessions all at the same accuracy show no improvement. */
  lemma FlatImprovement(ss: seq<SessionSummary>, c: real)
    requires forall i :: 0 <= i < |ss| ==> ss[i].accuracy == c
    ensures Improvement(ss) == 0.0
  {
    if |ss| >= 2 {
      var recent := LastN(Accuracies(ss), RecentForImprovement);
      MeanBounds(recent, c, c);
    }
  }

  /** `get_user_analytics`: None ("no data available yet") for a learner with no session. */
  function GetUserAnalytics(e: Engine, user: string): (r: Option<Analytics>)
    ensures r.None? <==> |Log(e, user)| == 0
    ensures r.Some? ==> r.value == Aggregate(GetUserHistory(e, user))
    ensures r.Some? ==> r.value.totalSessions <= RecentSessions
  {
    var history := GetUserHistory(e, user);
    if |history| == 0 then None else Some(Aggregate(history))
  }
}
