/**
 A learner's history: the event log cut into study sessions wherever two
 consecutive events are more than an hour apart, each session summarised,
 and the most recent ten returned (`get_user_history`, `_process_session`).
 */
module Sessions {
  import opened Common
  import opened Dicts
  import opened Stats
  import opened Tally
  import opened Answers
  import opened Ledger

  /** A gap longer than this many seconds starts a new session. */
  const SessionGapSeconds: int := 3600
  const SecondsPerDay: int := 86400
  /** How many sessions the history keeps. */
  const RecentSessions: nat := 10

  /**
   `(later - earlier).seconds` of Python's `timedelta`: the seconds part after
   whole days are split off, so it lies in [0, 86400) even for a negative or
   multi-day gap.
   */
  function TimedeltaSeconds(earlier: int, later: int): (s: int)
    ensures 0 <= s < SecondsPerDay
    ensures 0 <= later - earlier < SecondsPerDay ==> s == later - earlier
  {
    (later - earlier) % SecondsPerDay
  }

  /** Whether the gap between two consecutive events starts a new session. */
  predicate Breaks(earlier: Event, later: Event) {
    TimedeltaSeconds(earlier.timestamp, later.timestamp) > SessionGapSeconds
  }

  function Last<T>(s: seq<T>): T
    requires |s| > 0
  {
    s[|s| - 1]
  }

  /** The groups joined back together. */
  function Flatten<T>(gs: seq<seq<T>>): seq<T> {
    if |gs| == 0 then [] else Flatten(gs[..|gs| - 1]) + gs[|gs| - 1]
  }

  /** No gap inside g starts a new session. */
  ghost predicate Continuous(g: seq<Event>) {
    forall k :: 0 < k < |g| ==> !Breaks(g[k - 1], g[k])
  }

  /** The gap between session i - 1 and session i starts a new session. */
  ghost predicate BreakBefore(gs: seq<seq<Event>>, i: int)
    requires 0 < i < |gs|
  {
    |gs[i - 1]| > 0 && |gs[i]| > 0 && Breaks(Last(gs[i - 1]), gs[i][0])
  }

  /** gs cuts evs into non-empty runs, breaking exactly where consecutive events are too far apart. */
  ghost predicate IsSessionSplit(evs: seq<Event>, gs: seq<seq<Event>>) {
    && Flatten(gs) == evs
    && (forall i :: 0 <= i < |gs| ==> |gs[i]| > 0 && Continuous(gs[i]))
    && (forall i :: 0 < i < |gs| ==> BreakBefore(gs, i))
  }

  /** The grouping loop of `get_user_history`. */
  function SplitSessions(evs: seq<Event>): (gs: seq<seq<Event>>)
    ensures IsSessionSplit(evs, gs)
    ensures |gs| == 0 <==> |evs| == 0
  {
    if |evs| == 0 then []
    else
      var init := evs[..|evs| - 1];
      var gs0 := SplitSessions(init);
      assert |gs0| > 0 ==> |Last(gs0)| > 0;
      var gs := Grow(gs0, Last(evs));
      SplitStep(init, gs0, Last(evs), gs);
      assert init + [Last(evs)] == evs;
      gs
  }

  /** One iteration of the grouping loop: e starts a new group after a break, else joins the last one. */
  function Grow(gs0: seq<seq<Event>>, e: Event): seq<seq<Event>>
    requires |gs0| > 0 ==> |Last(gs0)| > 0
  {
    if |gs0| == 0 then [[e]]
    else if Breaks(Last(Last(gs0)), e) then gs0 + [[e]]
    else gs0[..|gs0| - 1] + [Last(gs0) + [e]]
  }

  lemma SplitStep(init: seq<Event>, gs0: seq<seq<Event>>, e: Event, gs: seq<seq<Event>>)
    requires IsSessionSplit(init, gs0) && (|gs0| == 0 <==> |init| == 0)
    requires gs == Grow(gs0, e)
    ensures IsSessionSplit(init + [e], gs)
  {
    var n := |gs0|;
    if n == 0 {
      assert Flatten(gs) == Flatten(gs[..0]) + [e];
    } else if Breaks(Last(Last(gs0)), e) {
      assert gs[..|gs| - 1] == gs0;
      forall i | 0 < i < |gs| ensures BreakBefore(gs, i) {
        if i < n {
          assert BreakBefore(gs0, i);
        }
      }
    } else {
      var l := gs0[n - 1];
      assert gs[..n - 1] == gs0[..n - 1];
      assert Flatten(gs) == Flatten(gs0[..n - 1]) + (l + [e]);
      assert Flatten(gs0) == Flatten(gs0[..n - 1]) + l;
      ContinuousAppend(l, e);
      forall i | 0 <= i < |gs| ensures |gs[i]| > 0 && Continuous(gs[i]) {
        if i < n - 1 {
          assert gs[i] == gs0[i];
        }
      }
      forall i | 0 < i < |gs| ensures BreakBefore(gs, i) {
        assert BreakBefore(gs0, i);
        assert gs[i - 1] == gs0[i - 1];
        assert gs[i][0] == gs0[i][0];
      }
    }
  }

  lemma ContinuousAppend(g: seq<Event>, e: Event)
    requires |g| > 0 && Continuous(g) && !Breaks(Last(g), e)
    ensures Continuous(g + [e])
  {
    var h := g + [e];
    forall k | 0 < k < |h| ensures !Breaks(h[k - 1], h[k]) {
      if k < |g| {
        assert h[k - 1] == g[k - 1] && h[k] == g[k];
      }
    }
  }

  lemma ContinuousPrefix(g: seq<Event>, m: nat)
    requires m <= |g| && Continuous(g)
    ensures Continuous(g[..m])
  {
    var h := g[..m];
    forall k | 0 < k < |h| ensures !Breaks(h[k - 1], h[k]) {
      assert h[k - 1] == g[k - 1] && h[k] == g[k];
    }
  }

  /** The split is the only one with these properties: sessions are determined by the gaps. */
  lemma {:induction false} SplitUnique(evs: seq<Event>, gs: seq<seq<Event>>)
    requires IsSessionSplit(evs, gs)
    ensures gs == SplitSessions(evs)
  {
    if |evs| == 0 {
      if |gs| > 0 {
        FlattenLength(gs);
        assert false;
      }
    } else {
      var gs0 := DropLastEvent(evs, gs);
      var e := Last(evs);
      SplitUnique(evs[..|evs| - 1], gs0);
      var n := |gs|;
      var g := gs[n - 1];
      if |g| == 1 {
        if n > 1 {
          assert BreakBefore(gs, n - 1);
          assert gs0[n - 2] == gs[n - 2];
        }
        UniqueNewSession(gs, gs0, e);
      } else {
        assert Continuous(g);
        UniqueSameSession(gs, gs0, e);
      }
    }
  }

  /** A last group holding only the last event is the one the grouping loop opens for it. */
  lemma UniqueNewSession(gs: seq<seq<Event>>, gs0: seq<seq<Event>>, e: Event)
    requires |gs| > 0 && gs[|gs| - 1] == [e] && gs0 == gs[..|gs| - 1]
    requires |gs0| > 0 ==> |Last(gs0)| > 0 && Breaks(Last(Last(gs0)), e)
    ensures gs == Grow(gs0, e)
  {
    assert gs == gs0 + [[e]];
  }

  /** A last group with earlier events is the previous last group extended by the loop. */
  lemma UniqueSameSession(gs: seq<seq<Event>>, gs0: seq<seq<Event>>, e: Event)
    requires |gs| > 0 && |gs[|gs| - 1]| > 1 && Last(gs[|gs| - 1]) == e
    requires Continuous(gs[|gs| - 1])
    requires gs0 == gs[..|gs| - 1] + [gs[|gs| - 1][..|gs[|gs| - 1]| - 1]]
    ensures gs == Grow(gs0, e)
  {
    var n := |gs|;
    var g := gs[n - 1];
    assert !Breaks(g[|g| - 2], g[|g| - 1]);
    assert Last(Last(gs0)) == g[|g| - 2];
    assert g == g[..|g| - 1] + [e];
    assert gs == gs0[..n - 1] + [Last(gs0) + [e]];
  }

  /** Removing the last event from a split removes it from the last session, or drops that session. */
  lemma DropLastEvent(evs: seq<Event>, gs: seq<seq<Event>>) returns (gs0: seq<seq<Event>>)
    requires |evs| > 0 && IsSessionSplit(evs, gs)
    ensures |gs| > 0 && |gs[|gs| - 1]| > 0 && Last(gs[|gs| - 1]) == Last(evs)
    ensures gs0 == if |gs[|gs| - 1]| == 1 then gs[..|gs| - 1]
                   else gs[..|gs| - 1] + [gs[|gs| - 1][..|gs[|gs| - 1]| - 1]]
    ensures IsSessionSplit(evs[..|evs| - 1], gs0)
  {
    if |gs| == 0 {
      assert false;
    }
    var n := |gs|;
    var g := gs[n - 1];
    var init := evs[..|evs| - 1];
    var e := Last(evs);
    assert evs == Flatten(gs[..n - 1]) + g;
    assert |g| > 0 && Continuous(g);
    gs0 := if |g| == 1 then gs[..n - 1] else gs[..n - 1] + [g[..|g| - 1]];
    assert init == Flatten(gs0) by {
      if |g| > 1 {
        assert gs0[..n - 1] == gs[..n - 1];
        assert evs == Flatten(gs[..n - 1]) + g[..|g| - 1] + [e];
      }
    }
    forall i | 0 <= i < |gs0| ensures |gs0[i]| > 0 && Continuous(gs0[i]) {
      if i < n - 1 {
        assert gs0[i] == gs[i];
      } else {
        ContinuousPrefix(g, |g| - 1);
      }
    }
    forall i | 0 < i < |gs0| ensures BreakBefore(gs0, i) {
      assert BreakBefore(gs, i);
      assert gs0[i - 1] == gs[i - 1];
      assert gs0[i][0] == gs[i][0];
    }
  }

  lemma {:induction false} FlattenLength<T>(gs: seq<seq<T>>)
    ensures |gs| > 0 ==> |Flatten(gs)| >= |gs[0]|
  {
    if |gs| > 1 {
      FlattenLength(gs[..|gs| - 1]);
    }
  }

  // -------------------------------------------------------------- summaries

  /** `_process_session`'s result; counts are percentages (fractions) per key. */
  datatype SessionSummary = SessionSummary(
    startTime: int,
    endTime: int,
    questionsAnswered: nat,
    correctAnswers: nat,
    topicPerformance: Dict<real>,
    bloomPerformance: Dict<real>,
    accuracy: real)

  /** The answers submitted in a run of events, in order; quiz-generation events carry none. */
  function AnswersOf(evs: seq<Event>): (answers: seq<Answer>)
    ensures |answers| <= |evs|
    ensures forall a :: a in answers <==> exists e :: e in evs && e.AnswerSubmitted? && e.data == a
  {
    if |evs| == 0 then []
    else
      FrontLast(evs);
      AnswersOf(evs[..|evs| - 1]) + (if Last(evs).AnswerSubmitted? then [Last(evs).data] else [])
  }

  /** The answers of a concatenation of runs are the answers of each run, in order. */
  lemma {:induction false} AnswersOfAppend(x: seq<Event>, y: seq<Event>)
    ensures AnswersOf(x + y) == AnswersOf(x) + AnswersOf(y)
  {
    if |y| == 0 {
      assert x + y == x;
    } else {
      var y0 := y[..|y| - 1];
      AnswersOfAppend(x, y0);
      assert (x + y)[..|x + y| - 1] == x + y0;
    }
  }

  /** Number of answer events in a run. */
  function CountAnswerEvents(evs: seq<Event>): nat {
    if |evs| == 0 then 0
    else CountAnswerEvents(evs[..|evs| - 1]) + (if Last(evs).AnswerSubmitted? then 1 else 0)
  }

  lemma {:induction false} AnswersOfCount(evs: seq<Event>)
    ensures |AnswersOf(evs)| == CountAnswerEvents(evs)
  {
    if |evs| > 0 {
      AnswersOfCount(evs[..|evs| - 1]);
    }
  }

  /** `_process_session`: a summary of a non-empty run of events. */
  function ProcessSession(evs: seq<Event>): (s: SessionSummary)
    requires |evs| > 0
    ensures s.startTime == evs[0].timestamp && s.endTime == Last(evs).timestamp
    ensures s.questionsAnswered == |AnswersOf(evs)|
    ensures s.correctAnswers == CountTrue(Marks(AnswersOf(evs)))
    ensures s.correctAnswers <= s.questionsAnswered
    ensures 0.0 <= s.accuracy <= 1.0
    ensures s.questionsAnswered == 0 ==> s.accuracy == 0.0
    ensures s.questionsAnswered > 0 ==> IsQuotient(s.accuracy, s.correctAnswers as real, s.questionsAnswered)
    ensures Distinct(s.topicPerformance) && Within01(s.topicPerformance)
    ensures Distinct(s.bloomPerformance) && Within01(s.bloomPerformance)
    ensures AccuracyOf(TopicObs(AnswersOf(evs)), s.topicPerformance)
    ensures AccuracyOf(BloomObs(AnswersOf(evs)), s.bloomPerformance)
  {
    var answers := AnswersOf(evs);
    var correct := CountTrue(Marks(answers));
    SessionSummary(
      evs[0].timestamp, Last(evs).timestamp,
      |answers|, correct,
      Accuracy(TopicObs(answers)), Accuracy(BloomObs(answers)),
      Fraction(correct, |answers|))
  }

  /** A session's topic keys are the topics of its answers, "General" for an answer without one. */
  lemma SessionTopicKeys(evs: seq<Event>)
    requires |evs| > 0
    ensures forall k :: k in Keys(ProcessSession(evs).topicPerformance) <==>
              exists a :: a in AnswersOf(evs) && TopicOf(a) == k
  {
    TopicKeys(AnswersOf(evs));
  }

  /** A session with only quiz-generation events answered nothing and scores 0. */
  lemma QuietSession(evs: seq<Event>)
    requires |evs| > 0
    requires forall i :: 0 <= i < |evs| ==> evs[i].QuizGenerated?
    ensures ProcessSession(evs).questionsAnswered == 0
    ensures ProcessSession(evs).accuracy == 0.0
    ensures ProcessSession(evs).topicPerformance == []
  {
    NoAnswers(evs);
  }

  lemma {:induction false} NoAnswers(evs: seq<Event>)
    requires forall i :: 0 <= i < |evs| ==> evs[i].QuizGenerated?
    ensures AnswersOf(evs) == []
  {
    if |evs| > 0 {
      NoAnswers(evs[..|evs| - 1]);
    }
  }

  // ---------------------------------------------------------------- history

  /** The summary of each session, in order. */
  function Summaries(gs: seq<seq<Event>>): (ss: seq<SessionSummary>)
    requires forall i :: 0 <= i < |gs| ==> |gs[i]| > 0
    ensures |ss| == |gs|
    ensures forall i :: 0 <= i < |gs| ==> ss[i] == ProcessSession(gs[i])
  {
    seq(|gs|, i requires 0 <= i < |gs| => ProcessSession(gs[i]))
  }

  /** All sessions of a learner's log, oldest first. */
  function AllSessions(e: Engine, user: string): seq<SessionSummary> {
    var gs := SplitSessions(Log(e, user));
    Summaries(gs)
  }

  /** `get_user_history`: the summaries of the last ten sessions, oldest first. */
  function GetUserHistory(e: Engine, user: string): (recent: seq<SessionSummary>)
    ensures user !in e.sessions ==> recent == []
    ensures |recent| == Min(|AllSessions(e, user)|, RecentSessions)
    ensures AllSessions(e, user) == AllSessions(e, user)[..|AllSessions(e, user)| - |recent|] + recent
  {
    if user !in e.sessions then []
    else LastN(AllSessions(e, user), RecentSessions)
  }

  /** A learner with any logged event has a non-empty history. */
  lemma HistoryNonEmpty(e: Engine, user: string)
    requires |Log(e, user)| > 0
    ensures |GetUserHistory(e, user)| > 0
  {
  }

  /** What `_process_session` guarantees of every summary. */
  ghost predicate WellFormed(s: SessionSummary) {
    && s.correctAnswers <= s.questionsAnswered
    && 0.0 <= s.accuracy <= 1.0
    && Distinct(s.topicPerformance) && Within01(s.topicPerformance)
    && Distinct(s.bloomPerformance) && Within01(s.bloomPerformance)
  }

  /** Every session summary is well formed. */
  lemma SummaryWellFormed(evs: seq<Event>)
    requires |evs| > 0
    ensures WellFormed(ProcessSession(evs))
  {
  }

  /** Every summary of a learner's sessions is well formed. */
  lemma AllSessionsWellFormed(e: Engine, user: string)
    ensures forall i :: 0 <= i < |AllSessions(e, user)| ==> WellFormed(AllSessions(e, user)[i])
  {
    var gs := SplitSessions(Log(e, user));
    forall i | 0 <= i < |gs| ensures WellFormed(AllSessions(e, user)[i]) {
      SummaryWellFormed(gs[i]);
    }
  }

  /** Every summary in a learner's history is well formed. */
  lemma HistoryWellFormed(e: Engine, user: string)
    ensures forall i :: 0 <= i < |GetUserHistory(e, user)| ==> WellFormed(GetUserHistory(e, user)[i])
  {
    var all := AllSessions(e, user);
    var recent := GetUserHistory(e, user);
    AllSessionsWellFormed(e, user);
    forall i | 0 <= i < |recent| ensures WellFormed(recent[i]) {
      assert recent[i] == all[|all| - |recent| + i];
    }
  }
}
