/**
 Quiz configuration adapted to a learner (`adjust_config` and its
 helpers in adaptive_engine.py): focus topics from weaknesses and spaced
 repetition, the question count from pace and velocity, and the question
 types weighted by preference.
 */
module Configurator {
  import opened Common
  import opened Dicts
  import opened Sorting
  import opened Sessions
  import opened Profile
  import opened Difficulty

  /** The configuration keys the engine reads or writes; absent keys are `None`. */
  datatype QuizConfig = QuizConfig(
    numQuestions: Option<int>,
    questionTypes: Option<seq<string>>,
    difficultyDistribution: Option<Dict<real>>,
    focusTopics: Option<seq<string>>)

  /** Review intervals in days, indexed by mastery sextile. */
  const RepetitionIntervals: seq<int> := [1, 3, 7, 14, 30, 90]
  const WeakMastery: real := 0.6
  const ReviewPriority: real := 0.5
  const FocusCount: nat := 5

  const DefaultCount: int := 10
  const FewestQuestions: int := 5
  const MostQuestions: int := 20
  const SlowSeconds: real := 120.0
  const FastSeconds: real := 30.0
  const PaceStep: int := 2
  const VelocityBar: real := 0.1
  const VelocityStep: int := 3

  const DefaultTypes: seq<string> := ["multiple_choice", "short_answer"]

  // ------------------------------------------------------------ focus topics

  /** Python list indexing: negative indices count from the end; beyond that an `IndexError`. */
  function PyIndex<T>(xs: seq<T>, i: int): (r: Option<T>)
    ensures r.Some? <==> -|xs| <= i < |xs|
    ensures r.Some? ==> r.value in xs
  {
    if 0 <= i < |xs| then Some(xs[i])
    else if -|xs| <= i < 0 then Some(xs[|xs| + i])
    else None
  }

  /** `min(int(mastery * 6), 5)`: which interval a mastery selects. */
  function IntervalIndex(mastery: real): int {
    Min(Trunc(mastery * |RepetitionIntervals| as real), |RepetitionIntervals| - 1)
  }

  /** The review interval for a mastery, `None` where the lookup raises. */
  function ReviewInterval(mastery: real): (r: Option<int>)
    ensures r.Some? ==> r.value in RepetitionIntervals && r.value >= 1
  {
    PyIndex(RepetitionIntervals, IntervalIndex(mastery))
  }

  /** The lookup fails exactly for masteries at or below -7/6, where truncation gives an index below -6. */
  lemma ReviewIntervalFails(mastery: real)
    ensures ReviewInterval(mastery).None? <==> mastery * 6.0 <= -7.0
  {
    var t := Trunc(mastery * 6.0);
    if mastery * 6.0 <= -7.0 {
      assert t <= -7;
    } else {
      assert t >= -6;
    }
  }

  /** Over valid masteries the interval never shrinks as mastery grows, from 1 day to 90. */
  lemma ReviewIntervalGrows(a: real, b: real)
    requires 0.0 <= a <= b
    ensures ReviewInterval(a).Some? && ReviewInterval(b).Some?
    ensures 1 <= ReviewInterval(a).value <= ReviewInterval(b).value <= 90
  {
    var ia, ib := Trunc(a * 6.0), Trunc(b * 6.0);
    assert a * 6.0 <= b * 6.0;
    assert 0 <= ia <= ib;
  }

  /** Full mastery still asks for a review after 90 days; none at all asks for one after a day. */
  lemma ReviewIntervalEnds()
    ensures ReviewInterval(0.0) == Some(1)
    ensures ReviewInterval(1.0) == Some(90)
  {
    assert Trunc(0.0 * 6.0) == 0;
    assert Trunc(1.0 * 6.0) == 6;
  }

  /** Weak topics (mastery below 0.6) in mastery order, prioritised by `1 - mastery`. */
  function WeakCandidates(m: Dict<real>): (c: seq<(string, real)>)
    ensures |c| <= |m|
    ensures forall q :: q in c ==> q.1 > 1.0 - WeakMastery && q.0 in Keys(m)
  {
    if |m| == 0 then []
    else
      var last := m[|m| - 1];
      var init := m[..|m| - 1];
      assert Keys(init) <= Keys(m) by { assert forall i :: 0 <= i < |init| ==> init[i] == m[i]; }
      WeakCandidates(init) + (if last.1 < WeakMastery then [(last.0, 1.0 - last.1)] else [])
  }

  /** A topic is a weak candidate exactly when its mastery is below 0.6, with priority `1 - mastery`. */
  lemma {:induction false} WeakCandidatesExact(m: Dict<real>)
    requires Distinct(m)
    ensures forall k :: k in Keys(WeakCandidates(m)) <==> k in Keys(m) && MasteryOf(m, k) < WeakMastery
    ensures forall q :: q in WeakCandidates(m) ==> q.1 == 1.0 - MasteryOf(m, q.0)
  {
    if |m| > 0 {
      var init := m[..|m| - 1];
      DistinctInit(m);
      WeakCandidatesExact(init);
      forall k ensures k in Keys(WeakCandidates(m)) <==> k in Keys(m) && MasteryOf(m, k) < WeakMastery {
        WeakStepKey(m, k);
      }
      forall q | q in WeakCandidates(m) ensures q.1 == 1.0 - MasteryOf(m, q.0) {
        WeakStepPriority(m, q);
      }
    }
  }

  lemma WeakSnoc(m: Dict<real>)
    requires |m| > 0
    ensures WeakCandidates(m) == WeakCandidates(m[..|m| - 1])
              + (if m[|m| - 1].1 < WeakMastery then [(m[|m| - 1].0, 1.0 - m[|m| - 1].1)] else [])
  {
  }

  /** One more topic: a key is a weak candidate of m exactly when it is weak in m. */
  lemma WeakStepKey(m: Dict<real>, k: string)
    requires Distinct(m) && |m| > 0
    requires var init := m[..|m| - 1];
             k in Keys(WeakCandidates(init)) <==> k in Keys(init) && MasteryOf(init, k) < WeakMastery
    ensures k in Keys(WeakCandidates(m)) <==> k in Keys(m) && MasteryOf(m, k) < WeakMastery
  {
    var init := m[..|m| - 1];
    var last := m[|m| - 1];
    var w := WeakCandidates(init);
    var tail: seq<(string, real)> := if last.1 < WeakMastery then [(last.0, 1.0 - last.1)] else [];
    WeakSnoc(m);
    KeysAppend(w, tail);
    if k == last.0 {
      WeakStepLastKey(m, w, tail);
    } else {
      WeakStepOtherKey(m, w, tail, k);
    }
  }

  /** A key other than the last topic's is a weak candidate of m exactly when it is one of the rest. */
  lemma WeakStepOtherKey(m: Dict<real>, w: seq<(string, real)>, tail: seq<(string, real)>, k: string)
    requires Distinct(m) && |m| > 0 && k != m[|m| - 1].0
    requires tail == if m[|m| - 1].1 < WeakMastery then [(m[|m| - 1].0, 1.0 - m[|m| - 1].1)] else []
    requires k in Keys(w) <==> k in Keys(m[..|m| - 1]) && MasteryOf(m[..|m| - 1], k) < WeakMastery
    ensures k in Keys(w) + Keys(tail) <==> k in Keys(m) && MasteryOf(m, k) < WeakMastery
  {
    assert k !in Keys(tail);
    GetInit(m, k);
  }

  /** The last topic is a weak candidate exactly when its own mastery is below 0.6. */
  lemma WeakStepLastKey(m: Dict<real>, w: seq<(string, real)>, tail: seq<(string, real)>)
    requires Distinct(m) && |m| > 0
    requires w == WeakCandidates(m[..|m| - 1])
    requires tail == if m[|m| - 1].1 < WeakMastery then [(m[|m| - 1].0, 1.0 - m[|m| - 1].1)] else []
    ensures m[|m| - 1].0 in Keys(m) && MasteryOf(m, m[|m| - 1].0) == m[|m| - 1].1
    ensures m[|m| - 1].0 in Keys(w) + Keys(tail) <==> m[|m| - 1].1 < WeakMastery
  {
    var init := m[..|m| - 1];
    var last := m[|m| - 1];
    DistinctInit(m);
    KeysInit(m);
    assert last.0 !in Keys(w);
    if last.1 < WeakMastery {
      assert Keys(tail)[0] == last.0;
    } else {
      assert Keys(tail) == [];
    }
    GetAppend(init, last);
  }

  /** One more topic: every weak candidate of m carries priority one minus its mastery. */
  lemma WeakStepPriority(m: Dict<real>, q: (string, real))
    requires Distinct(m) && |m| > 0 && q in WeakCandidates(m)
    requires var init := m[..|m| - 1];
             q in WeakCandidates(init) ==> q.0 in Keys(init) && q.1 == 1.0 - MasteryOf(init, q.0)
    ensures q.0 in Keys(m) && q.1 == 1.0 - MasteryOf(m, q.0)
  {
    var last := m[|m| - 1];
    WeakSnoc(m);
    if q in WeakCandidates(m[..|m| - 1]) {
      WeakPriorityEarlier(m, q);
    } else {
      assert q == (last.0, 1.0 - last.1);
      WeakPriorityLast(m);
    }
  }

  /** A candidate from the earlier topics keeps its mastery once the last topic is added. */
  lemma WeakPriorityEarlier(m: Dict<real>, q: (string, real))
    requires Distinct(m) && |m| > 0
    requires q.0 in Keys(m[..|m| - 1]) && q.1 == 1.0 - MasteryOf(m[..|m| - 1], q.0)
    ensures q.0 in Keys(m) && q.1 == 1.0 - MasteryOf(m, q.0)
  {
    DistinctInit(m);
    GetInit(m, q.0);
  }

  /** The last topic's mastery is its own value. */
  lemma WeakPriorityLast(m: Dict<real>)
    requires Distinct(m) && |m| > 0
    ensures m[|m| - 1].0 in Keys(m) && MasteryOf(m, m[|m| - 1].0) == m[|m| - 1].1
  {
    DistinctInit(m);
    GetAppend(m[..|m| - 1], m[|m| - 1]);
  }

  /**
   Topics due for review `days` after the last session, each with priority
   0.5, in mastery order; `None` when some mastery makes the interval
   lookup raise (the whole call fails then, whatever the day count).
   */
  function DueCandidates(m: Dict<real>, days: int): (r: Option<seq<(string, real)>>)
    ensures r.Some? ==> |r.value| <= |m|
    ensures r.Some? ==> forall q :: q in r.value ==> q.1 == ReviewPriority && q.0 in Keys(m)
  {
    if |m| == 0 then Some([])
    else
      var last := m[|m| - 1];
      var init := m[..|m| - 1];
      assert Keys(init) <= Keys(m) by { assert forall i :: 0 <= i < |init| ==> init[i] == m[i]; }
      match DueCandidates(init, days)
      case None => None
      case Some(c) =>
        match ReviewInterval(last.1)
        case None => None
        case Some(interval) => Some(c + (if days >= interval then [(last.0, ReviewPriority)] else []))
  }

  /** With masteries in [0, 1] the lookup never raises. */
  lemma {:induction false} DueCandidatesDefined(m: Dict<real>, days: int)
    requires Within01(m)
    ensures DueCandidates(m, days).Some?
  {
    if |m| > 0 {
      var init := m[..|m| - 1];
      assert Within01(init) by { assert forall i :: 0 <= i < |init| ==> init[i] == m[i]; }
      DueCandidatesDefined(init, days);
      ReviewIntervalGrows(m[|m| - 1].1, m[|m| - 1].1);
    }
  }

  /** Less than a day after the last session, nothing is due. */
  lemma {:induction false} NothingDueSameDay(m: Dict<real>, days: int)
    requires Within01(m) && days < 1
    ensures DueCandidates(m, days) == Some([])
  {
    if |m| > 0 {
      var init := m[..|m| - 1];
      assert Within01(init) by { assert forall i :: 0 <= i < |init| ==> init[i] == m[i]; }
      NothingDueSameDay(init, days);
      ReviewIntervalGrows(m[|m| - 1].1, m[|m| - 1].1);
    }
  }

  /** After 90 days or more, every topic is due, in mastery order. */
  lemma {:induction false} EverythingDueAfterLongBreak(m: Dict<real>, days: int)
    requires Within01(m) && days >= 90
    ensures DueCandidates(m, days).Some?
    ensures Keys(DueCandidates(m, days).value) == Keys(m)
  {
    if |m| > 0 {
      var init := m[..|m| - 1];
      var last := m[|m| - 1];
      assert Within01(init) by { assert forall i :: 0 <= i < |init| ==> init[i] == m[i]; }
      EverythingDueAfterLongBreak(init, days);
      ReviewIntervalGrows(last.1, 1.0);
      DueSnoc(m, days);
      KeysAppend(DueCandidates(init, days).value, [(last.0, ReviewPriority)]);
      KeysInit(m);
    }
  }

  /** A last topic whose interval has passed joins the candidates of the others. */
  lemma DueSnoc(m: Dict<real>, days: int)
    requires |m| > 0 && DueCandidates(m[..|m| - 1], days).Some?
    requires ReviewInterval(m[|m| - 1].1).Some? && ReviewInterval(m[|m| - 1].1).value <= days
    ensures DueCandidates(m, days) == Some(DueCandidates(m[..|m| - 1], days).value + [(m[|m| - 1].0, ReviewPriority)])
  {
  }

  /** Whole days from `last` to `now`, floored: `(now - last).days`. */
  function DaysSince(last: int, now: int): int {
    FloorDiv(now - last, SecondsPerDay)
  }

  /** Topic k of m has a review interval, and it has passed after `days` days. */
  ghost predicate IsDue(m: Dict<real>, k: string, days: int) {
    && k in Keys(m)
    && ReviewInterval(MasteryOf(m, k)).Some?
    && ReviewInterval(MasteryOf(m, k)).value <= days
  }

  /**
   When the lookup succeeds, a topic is a due candidate exactly when its
   review interval has passed.
   */
  lemma {:induction false} DueCandidatesExact(m: Dict<real>, days: int)
    requires Distinct(m) && DueCandidates(m, days).Some?
    ensures forall k :: k in Keys(DueCandidates(m, days).value) <==> IsDue(m, k, days)
  {
    if |m| > 0 {
      var init := m[..|m| - 1];
      DistinctInit(m);
      DueUnfold(m, days);
      DueCandidatesExact(init, days);
      forall k ensures k in Keys(DueCandidates(m, days).value) <==> IsDue(m, k, days) {
        DueStepKey(m, days, k);
      }
    }
  }

  /** A successful lookup over m is one over the earlier topics plus the last topic's verdict. */
  lemma DueUnfold(m: Dict<real>, days: int)
    requires |m| > 0 && DueCandidates(m, days).Some?
    ensures DueCandidates(m[..|m| - 1], days).Some? && ReviewInterval(m[|m| - 1].1).Some?
    ensures DueCandidates(m, days).value == DueCandidates(m[..|m| - 1], days).value
              + (if days >= ReviewInterval(m[|m| - 1].1).value then [(m[|m| - 1].0, ReviewPriority)] else [])
  {
  }

  /** One more topic: a key is due in m exactly when it is due there. */
  lemma DueStepKey(m: Dict<real>, days: int, k: string)
    requires Distinct(m) && |m| > 0 && DueCandidates(m, days).Some?
    requires DueCandidates(m[..|m| - 1], days).Some?
    requires k in Keys(DueCandidates(m[..|m| - 1], days).value) <==> IsDue(m[..|m| - 1], k, days)
    ensures k in Keys(DueCandidates(m, days).value) <==> IsDue(m, k, days)
  {
    var last := m[|m| - 1];
    var d := DueCandidates(m[..|m| - 1], days).value;
    DueUnfold(m, days);
    var tail: seq<(string, real)> := if days >= ReviewInterval(last.1).value then [(last.0, ReviewPriority)] else [];
    KeysAppend(d, tail);
    if k == last.0 {
      DueStepLastKey(m, days, d, tail);
    } else {
      DueStepOtherKey(m, days, d, tail, k);
    }
  }

  /** A key other than the last topic's is due in m exactly when it is due among the rest. */
  lemma DueStepOtherKey(m: Dict<real>, days: int, d: seq<(string, real)>, tail: seq<(string, real)>, k: string)
    requires Distinct(m) && |m| > 0 && k != m[|m| - 1].0
    requires tail == [] || tail == [(m[|m| - 1].0, ReviewPriority)]
    requires k in Keys(d) <==> IsDue(m[..|m| - 1], k, days)
    ensures k in Keys(d) + Keys(tail) <==> IsDue(m, k, days)
  {
    assert k !in Keys(tail);
    GetInit(m, k);
  }

  /** The last topic is due exactly when its own interval has passed. */
  lemma DueStepLastKey(m: Dict<real>, days: int, d: seq<(string, real)>, tail: seq<(string, real)>)
    requires Distinct(m) && |m| > 0
    requires DueCandidates(m[..|m| - 1], days) == Some(d) && ReviewInterval(m[|m| - 1].1).Some?
    requires tail == if days >= ReviewInterval(m[|m| - 1].1).value then [(m[|m| - 1].0, ReviewPriority)] else []
    ensures m[|m| - 1].0 in Keys(d) + Keys(tail) <==> IsDue(m, m[|m| - 1].0, days)
  {
    var init := m[..|m| - 1];
    var last := m[|m| - 1];
    DistinctInit(m);
    KeysInit(m);
    if days >= ReviewInterval(last.1).value {
      assert Keys(tail)[0] == last.0;
    } else {
      assert Keys(tail) == [];
    }
    GetAppend(init, last);
  }

  /**
   After a previous session the candidates are the weak topics followed by
   the due ones: a topic is a candidate exactly when its mastery is below
   0.6 or its review interval has passed.
   */
  lemma CandidatesExact(p: LearnerProfile, now: int)
    requires Distinct(p.topicsMastery) && p.lastSession.Some?
    requires Candidates(p, now).Some?
    ensures var m := p.topicsMastery;
            forall k :: k in Keys(Candidates(p, now).value) <==>
              (k in Keys(m) && MasteryOf(m, k) < WeakMastery) || IsDue(m, k, DaysSince(p.lastSession.value, now))
  {
    var m := p.topicsMastery;
    var days := DaysSince(p.lastSession.value, now);
    WeakCandidatesExact(m);
    DueCandidatesExact(m, days);
    KeysAppend(WeakCandidates(m), DueCandidates(m, days).value);
  }

  /** All candidates for the focus list, or `None` when the interval lookup raises. */
  function Candidates(p: LearnerProfile, now: int): (r: Option<seq<(string, real)>>)
    ensures p.lastSession.None? ==> r == Some(WeakCandidates(p.topicsMastery))
    ensures p.lastSession.Some? ==>
              var due := DueCandidates(p.topicsMastery, DaysSince(p.lastSession.value, now));
              && (r.None? <==> due.None?)
              && (r.Some? ==> r.value == WeakCandidates(p.topicsMastery) + due.value)
  {
    var weak := WeakCandidates(p.topicsMastery);
    match p.lastSession
    case None => Some(weak)
    case Some(last) =>
      match DueCandidates(p.topicsMastery, DaysSince(last, now))
      case None => None
      case Some(due) => Some(weak + due)
  }

  /**
   `_select_adaptive_topics`: the topics of the five highest-priority
   candidates, in priority order; a topic both weak and due can appear twice.
   */
  function SelectAdaptiveTopics(c: QuizConfig, p: LearnerProfile, now: int): (r: Option<QuizConfig>)
    ensures r.None? <==> Candidates(p, now).None?
    ensures r.Some? ==> r.value == c.(focusTopics := r.value.focusTopics)
    ensures r.Some? ==> r.value.focusTopics.Some? && |r.value.focusTopics.value| <= FocusCount
    ensures r.Some? ==> forall t :: t in r.value.focusTopics.value ==> t in Keys(p.topicsMastery)
  {
    match Candidates(p, now)
    case None => None
    case Some(cands) =>
      var top := Top(cands, true, FocusCount);
      assert forall t :: t in Keys(top) ==> t in Keys(p.topicsMastery) by {
        forall t | t in Keys(top) ensures t in Keys(p.topicsMastery) {
          var i :| 0 <= i < |top| && top[i].0 == t;
          assert top[i] in multiset(cands);
        }
      }
      Some(c.(focusTopics := Some(Keys(top))))
  }

  /**
   Every chosen topic comes from a candidate whose priority is at least
   that of every candidate left out, and the list is in priority order.
   */
  lemma FocusIsTopPriority(c: QuizConfig, p: LearnerProfile, now: int)
    requires SelectAdaptiveTopics(c, p, now).Some?
    ensures exists top :: IsTop(top, Candidates(p, now).value, true, FocusCount) &&
                          SelectAdaptiveTopics(c, p, now).value.focusTopics == Some(Keys(top))
  {
    var top := Top(Candidates(p, now).value, true, FocusCount);
    assert IsTop(top, Candidates(p, now).value, true, FocusCount);
  }

  /** Without a previous session the focus is the weakest topics, each below 0.6 mastery. */
  lemma FirstSessionFocusesOnWeakness(c: QuizConfig, p: LearnerProfile, now: int)
    requires p.lastSession.None? && Distinct(p.topicsMastery)
    ensures SelectAdaptiveTopics(c, p, now).Some?
    ensures forall t :: t in SelectAdaptiveTopics(c, p, now).value.focusTopics.value ==>
              t in Keys(p.topicsMastery) && MasteryOf(p.topicsMastery, t) < WeakMastery
  {
    var weak := WeakCandidates(p.topicsMastery);
    WeakCandidatesExact(p.topicsMastery);
    var top := Top(weak, true, FocusCount);
    forall t | t in Keys(top)
      ensures t in Keys(weak)
    {
      var i :| 0 <= i < |top| && top[i].0 == t;
      assert top[i] in multiset(weak);
    }
  }

  // ---------------------------------------------------------- question count

  /** `_adjust_question_count`: pace adjusts by 2, velocity by 3, and velocity has the last word. */
  function AdjustQuestionCount(c: QuizConfig, p: LearnerProfile): (r: QuizConfig)
    ensures r == c.(numQuestions := r.numQuestions)
    ensures var base := c.numQuestions.GetOr(DefaultCount);
            && (p.velocity > VelocityBar ==> r.numQuestions == Some(Min(MostQuestions, base + VelocityStep)))
            && (p.velocity < -VelocityBar ==> r.numQuestions == Some(Max(FewestQuestions, base - VelocityStep)))
            && (-VelocityBar <= p.velocity <= VelocityBar ==>
                  && (p.averageTime > SlowSeconds ==> r.numQuestions == Some(Max(FewestQuestions, base - PaceStep)))
                  && (0.0 < p.averageTime < FastSeconds ==> r.numQuestions == Some(Min(MostQuestions, base + PaceStep)))
                  && (p.averageTime <= 0.0 || FastSeconds <= p.averageTime <= SlowSeconds ==> r.numQuestions == c.numQuestions))
  {
    var base := c.numQuestions.GetOr(DefaultCount);
    var paced :=
      if p.averageTime > 0.0 && p.averageTime > SlowSeconds then Some(Max(FewestQuestions, base - PaceStep))
      else if p.averageTime > 0.0 && p.averageTime < FastSeconds then Some(Min(MostQuestions, base + PaceStep))
      else c.numQuestions;
    var count :=
      if p.velocity > VelocityBar then Some(Min(MostQuestions, base + VelocityStep))
      else if p.velocity < -VelocityBar then Some(Max(FewestQuestions, base - VelocityStep))
      else paced;
    c.(numQuestions := count)
  }

  /**
   A changed count never goes below 5 by shrinking nor above 20 by
   growing; from a requested (or default 10) count in 5..20 it stays in
   5..20 and moves by at most 3.
   */
  lemma QuestionCountBounds(c: QuizConfig, p: LearnerProfile)
    ensures var base := c.numQuestions.GetOr(DefaultCount);
            var r := AdjustQuestionCount(c, p).numQuestions;
            r != c.numQuestions ==>
              && r.Some?
              && Min(FewestQuestions, base) <= r.value <= Max(MostQuestions, base)
              && (FewestQuestions <= base <= MostQuestions ==>
                    && FewestQuestions <= r.value <= MostQuestions
                    && base - VelocityStep <= r.value <= base + VelocityStep)
  {
  }

  /** Slow answers never raise the count and fast answers never lower it, when velocity is flat. */
  lemma PaceDirection(c: QuizConfig, p: LearnerProfile)
    requires -VelocityBar <= p.velocity <= VelocityBar
    ensures var base := c.numQuestions.GetOr(DefaultCount);
            var r := AdjustQuestionCount(c, p).numQuestions;
            && (p.averageTime > SlowSeconds ==> r.Some? && r.value <= Max(base, FewestQuestions))
            && (0.0 < p.averageTime < FastSeconds ==> r.Some? && r.value >= Min(base, MostQuestions))
            && ((p.averageTime == 0.0 || FastSeconds <= p.averageTime <= SlowSeconds) ==> r == c.numQuestions)
  {
  }

  /** A clear velocity trend decides the count alone: the answering pace no longer matters. */
  lemma VelocityOverridesPace(c: QuizConfig, p: LearnerProfile, pace: real)
    requires p.velocity > VelocityBar || p.velocity < -VelocityBar
    ensures AdjustQuestionCount(c, p) == AdjustQuestionCount(c, p.(averageTime := pace))
    ensures var base := c.numQuestions.GetOr(DefaultCount);
            var r := AdjustQuestionCount(c, p).numQuestions.value;
            if p.velocity > VelocityBar then r >= Min(base, MostQuestions) else r <= Max(base, FewestQuestions)
  {
  }

  // ---------------------------------------------------------- question types

  /** Each type once, or twice when the learner prefers it, in the original order. */
  function WeightTypes(types: seq<string>, preferred: seq<string>): (r: seq<string>)
    ensures forall t :: Occurrences(r, t) == Occurrences(types, t) * (if t in preferred then 2 else 1)
    ensures forall t :: t in r <==> t in types
    ensures |types| <= |r| <= 2 * |types|
  {
    if |types| == 0 then []
    else
      var init := types[..|types| - 1];
      var t := types[|types| - 1];
      var rest := WeightTypes(init, preferred);
      var extra := if t in preferred then [t, t] else [t];
      assert types == init + [t];
      forall u ensures Occurrences(rest + extra, u) == Occurrences(types, u) * (if u in preferred then 2 else 1) {
        OccurrencesAppend(rest, extra, u);
        OccurrencesAppend(init, [t], u);
        if t in preferred {
          OccurrencesAppend([t], [t], u);
        }
      }
      rest + extra
  }

  /** `_select_question_types`: weighting applies only once the learner has preferences. */
  function SelectQuestionTypes(c: QuizConfig, p: LearnerProfile): (r: QuizConfig)
    ensures r == c.(questionTypes := r.questionTypes)
    ensures |p.preferredTypes| == 0 ==> r == c
    ensures |p.preferredTypes| > 0 ==>
              r.questionTypes.Some? &&
              forall t :: t in r.questionTypes.value <==> t in c.questionTypes.GetOr(DefaultTypes)
  {
    if |p.preferredTypes| == 0 then c
    else c.(questionTypes := Some(WeightTypes(c.questionTypes.GetOr(DefaultTypes), p.preferredTypes)))
  }

  // ------------------------------------------------------------- adjustment

  /**
   `adjust_config`: refresh the learner's profile from the history (the
   refreshed profile is stored even when topic selection then raises),
   set the difficulty mix for the learner's level, then the focus topics,
   the count and the types.
   */
  function AdjustConfig(ps: Profiles, c: QuizConfig, h: History, now: int): (r: (Profiles, Option<QuizConfig>))
    ensures var uid := h.userId.GetOr(Anonymous);
            && uid in r.0
            && r.0[uid] == UpdateProfileFromHistory(GetOrCreate(ps, uid).1, h, now)
            && (forall u :: u != uid ==> (u in r.0 <==> u in ps) && (u in ps ==> r.0[u] == ps[u]))
    ensures r.1.Some? ==>
              var p := r.0[h.userId.GetOr(Anonymous)];
              var mix := r.1.value.difficultyDistribution;
              && mix == Some(AdjustDistribution(PerformanceLevel(p), p.bloomPerformance))
              && IsMix(mix.value)
              && r.1.value.focusTopics.Some?
              && |r.1.value.focusTopics.value| <= FocusCount
  {
    var (ps2, p) := Refresh(ps, h.userId.GetOr(Anonymous), h, now);
    (ps2, ConfigFor(c, p, now))
  }

  /** The learner's profile refreshed from the history and stored, the others untouched. */
  function Refresh(ps: Profiles, uid: string, h: History, now: int): (r: (Profiles, LearnerProfile))
    ensures uid in r.0 && r.0[uid] == r.1
    ensures r.1 == UpdateProfileFromHistory(GetOrCreate(ps, uid).1, h, now)
    ensures forall u :: u != uid ==> (u in r.0 <==> u in ps) && (u in ps ==> r.0[u] == ps[u])
  {
    var (ps1, stored) := GetOrCreate(ps, uid);
    var p := UpdateProfileFromHistory(stored, h, now);
    (ps1[uid := p], p)
  }

  /** The configuration steps of `adjust_config` for the refreshed profile p. */
  function ConfigFor(c: QuizConfig, p: LearnerProfile, now: int): (r: Option<QuizConfig>)
    ensures r.Some? ==>
              var mix := r.value.difficultyDistribution;
              && mix == Some(AdjustDistribution(PerformanceLevel(p), p.bloomPerformance))
              && IsMix(mix.value)
              && r.value.focusTopics.Some?
              && |r.value.focusTopics.value| <= FocusCount
  {
    var mixed := c.(difficultyDistribution := Some(AdjustDistribution(PerformanceLevel(p), p.bloomPerformance)));
    match SelectAdaptiveTopics(mixed, p, now)
    case None => None
    case Some(focused) => Some(SelectQuestionTypes(AdjustQuestionCount(focused, p), p))
  }

  /**
   For a stored profile that is well formed and sessions that are, the
   adjustment succeeds, and since the refreshed profile was just seen no
   topic is due for review: the focus is exactly the five weakest topics
   below 0.6 mastery.
   */
  lemma AdjustConfigFocus(ps: Profiles, c: QuizConfig, h: History, now: int)
    requires forall u :: u in ps ==> ValidProfile(ps[u])
    requires forall i :: 0 <= i < |SessionsOf(h)| ==> WellFormed(SessionsOf(h)[i])
    ensures var r := AdjustConfig(ps, c, h, now);
            var p := r.0[h.userId.GetOr(Anonymous)];
            && r.1.Some?
            && ValidProfile(p)
            && r.1.value.focusTopics == Some(Keys(Top(WeakCandidates(p.topicsMastery), true, FocusCount)))
  {
    var uid := h.userId.GetOr(Anonymous);
    var stored := GetOrCreate(ps, uid).1;
    if uid !in ps {
      NewProfileValid(uid);
    }
    UpdateFromHistoryValid(stored, h, now);
    ConfigForFocus(c, UpdateProfileFromHistory(stored, h, now), now);
  }

  /** A valid profile whose last session is now gets the five weakest topics as its focus. */
  lemma ConfigForFocus(c: QuizConfig, p: LearnerProfile, now: int)
    requires ValidProfile(p) && p.lastSession == Some(now)
    ensures ConfigFor(c, p, now).Some?
    ensures ConfigFor(c, p, now).value.focusTopics == Some(Keys(Top(WeakCandidates(p.topicsMastery), true, FocusCount)))
  {
    assert FloorDiv(now - now, SecondsPerDay) == 0;
    NothingDueSameDay(p.topicsMastery, 0);
    assert WeakCandidates(p.topicsMastery) + [] == WeakCandidates(p.topicsMastery);
  }
}
