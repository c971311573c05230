/**
 Study guidance (adaptive_engine.py): recommendations for one topic, the
 spaced-repetition practice schedule, and the study plan that gathers
 weaknesses, resources and the schedule. Dates are day numbers; their
 `YYYY-MM-DD` rendering is not modelled.
 */
module Planner {
  import opened Common
  import opened Text
  import opened Dicts
  import opened Profile

  /** The three bands both the schedule and the recommendations use. */
  datatype Band = Low | Middle | High

  const LowBelow: real := 0.4
  const MiddleBelow: real := 0.7

  function BandOf(x: real): (b: Band)
    ensures b == Low <==> x < LowBelow
    ensures b == High <==> x >= MiddleBelow
  {
    if x < LowBelow then Low else if x < MiddleBelow then Middle else High
  }

  // ---------------------------------------------------------------- schedule

  /** Days from today to each of a topic's four reviews. */
  function PracticeIntervals(mastery: real): (r: seq<int>)
    ensures |r| == 4
    ensures 0 < r[0] < r[1] < r[2] < r[3] <= 60
  {
    match BandOf(mastery)
    case Low => [1, 2, 4, 7]
    case Middle => [2, 5, 10, 20]
    case High => [7, 14, 30, 60]
  }

  /** A better mastered topic is never reviewed sooner, review by review. */
  lemma PracticeIntervalsGrow(a: real, b: real)
    requires a <= b
    ensures forall i :: 0 <= i < 4 ==> PracticeIntervals(a)[i] <= PracticeIntervals(b)[i]
  {
  }

  /** The four review days of a topic. */
  function ReviewDates(mastery: real, today: int): (r: seq<int>)
    ensures |r| == 4
    ensures today < r[0] < r[1] < r[2] < r[3] <= today + 60
  {
    var d := PracticeIntervals(mastery);
    [today + d[0], today + d[1], today + d[2], today + d[3]]
  }

  /** `_generate_practice_schedule`: review days for every topic, in mastery order. */
  function PracticeSchedule(m: Dict<real>, today: int): (r: Dict<seq<int>>)
    ensures Keys(r) == Keys(m)
    ensures forall i :: 0 <= i < |r| ==> r[i].1 == ReviewDates(m[i].1, today)
  {
    seq(|m|, i requires 0 <= i < |m| => (m[i].0, ReviewDates(m[i].1, today)))
  }

  /**
   Looking a topic up in the schedule gives its mastery's review days, all
   in the future, and a weaker topic is reviewed no later than a stronger
   one at each of the four reviews.
   */
  lemma ScheduleOrder(m: Dict<real>, today: int, weaker: string, stronger: string)
    requires Distinct(m) && weaker in Keys(m) && stronger in Keys(m)
    requires MasteryOf(m, weaker) <= MasteryOf(m, stronger)
    ensures var s := PracticeSchedule(m, today);
            && Distinct(s)
            && Get(s, weaker) == Some(ReviewDates(MasteryOf(m, weaker), today))
            && Get(s, stronger) == Some(ReviewDates(MasteryOf(m, stronger), today))
            && forall i :: 0 <= i < 4 ==> today < Get(s, weaker).value[i] <= Get(s, stronger).value[i]
  {
    ScheduleLookup(m, today, weaker);
    ScheduleLookup(m, today, stronger);
    PracticeIntervalsGrow(MasteryOf(m, weaker), MasteryOf(m, stronger));
  }

  /** Looking a topic up in the schedule gives the review days of its mastery. */
  lemma ScheduleLookup(m: Dict<real>, today: int, k: string)
    requires Distinct(m) && k in Keys(m)
    ensures Distinct(PracticeSchedule(m, today))
    ensures Get(PracticeSchedule(m, today), k) == Some(ReviewDates(MasteryOf(m, k), today))
  {
    var s := PracticeSchedule(m, today);
    DistinctSameKeys(m, s);
    var i :| 0 <= i < |m| && m[i].0 == k;
    assert Get(s, k) == Some(s[i].1);
  }

  // --------------------------------------------------------- recommendations

  /** `get_recommendations`: three suggestions for the band the performance falls in. */
  function Recommendations(topic: string, performance: real): (r: seq<string>)
    ensures |r| == 3
    ensures Mentions(r[0], topic)
  {
    Advice(BandOf(performance), topic)
  }

  /** The three suggestions of one band. */
  function Advice(band: Band, topic: string): (r: seq<string>)
    ensures |r| == 3
    ensures Mentions(r[0], topic)
    ensures r[2] == Closing(band)
  {
    match band
    case Low =>
      MentionsAtEnd("Review fundamental concepts of ", topic);
      ["Review fundamental concepts of " + topic,
       "Practice more basic " + topic + " problems",
       Closing(Low)]
    case Middle =>
      MentionsAt("Focus on understanding ", topic, " applications");
      ["Focus on understanding " + topic + " applications",
       "Try solving varied problem types",
       Closing(Middle)]
    case High =>
      MentionsAt("Challenge yourself with advanced ", topic, " problems");
      ["Challenge yourself with advanced " + topic + " problems",
       "Try teaching this concept to someone else",
       Closing(High)]
  }

  /** The last suggestion of each band. */
  function Closing(band: Band): string {
    match band
    case Low => "Consider watching introductory videos on this topic"
    case Middle => "Review your notes and attempt practice exercises"
    case High => "Explore real-world applications"
  }

  /** Different bands give different advice: their last suggestions start differently. */
  lemma AdviceDiffers(topic: string, x: Band, y: Band)
    ensures Advice(x, topic) == Advice(y, topic) <==> x == y
  {
    ClosingDiffers(x, y);
  }

  lemma ClosingDiffers(x: Band, y: Band)
    ensures Closing(x) == Closing(y) <==> x == y
  {
  }

  /** Different bands give different practice intervals. */
  lemma IntervalsDiffer(a: real, b: real)
    ensures PracticeIntervals(a) == PracticeIntervals(b) <==> BandOf(a) == BandOf(b)
  {
    if BandOf(a) != BandOf(b) {
      assert PracticeIntervals(a)[0] != PracticeIntervals(b)[0];
    }
  }

  /**
   Two performances get the same advice exactly when they fall in the same
   band, the band that also sets the practice intervals.
   */
  lemma RecommendationsFollowBand(topic: string, a: real, b: real)
    ensures Recommendations(topic, a) == Recommendations(topic, b) <==> BandOf(a) == BandOf(b)
    ensures Recommendations(topic, a) == Recommendations(topic, b) <==> PracticeIntervals(a) == PracticeIntervals(b)
  {
    AdviceDiffers(topic, BandOf(a), BandOf(b));
    IntervalsDiffer(a, b);
  }

  // -------------------------------------------------------------- study plan

  datatype Resource = Resource(kind: string, title: string, url: string)

  datatype FocusItem = FocusItem(topic: string, mastery: real, target: real, estimatedTime: string, resources: seq<Resource>)

  datatype VideoLink = VideoLink(kind: string, topic: string, url: string)

  datatype StudyPlan = StudyPlan(
    immediateFocus: seq<FocusItem>,
    shortTermGoals: seq<string>,
    longTermGoals: seq<string>,
    recommendedResources: seq<VideoLink>,
    practiceSchedule: Dict<seq<int>>)

  const FocusTarget: real := 0.7
  const FocusLength: nat := 3
  const GoalTopics: nat := 2

  /** `_get_topic_resources`: an article, a video and an exercise, each titled after the topic. */
  function TopicResources(topic: string): (r: seq<Resource>)
    ensures |r| == 3
    ensures forall i :: 0 <= i < |r| ==> Mentions(r[i].title, topic)
  {
    MentionsAtEnd("Understanding ", topic);
    MentionsAtStart(topic, " Explained");
    MentionsAtEnd("Practice ", topic);
    [Resource("article", "Understanding " + topic, "#"),
     Resource("video", topic + " Explained", "#"),
     Resource("exercise", "Practice " + topic, "#")]
  }

  /** A focus entry: the topic's recorded mastery, or 0 when it has none, against the 0.7 target. */
  function FocusOn(m: Dict<real>, topic: string): (r: FocusItem)
    ensures r.topic == topic && r.target == FocusTarget
    ensures topic in Keys(m) ==> r.mastery == MasteryOf(m, topic)
    ensures topic !in Keys(m) ==> r.mastery == 0.0
  {
    FocusItem(topic, Get(m, topic).GetOr(0.0), FocusTarget, "30-45 minutes", TopicResources(topic))
  }

  /** The focus entries of the first three weaknesses, in order. */
  function FocusItems(m: Dict<real>, weaknesses: seq<string>): (r: seq<FocusItem>)
    ensures |r| == Min(|weaknesses|, FocusLength)
    ensures forall i :: 0 <= i < |r| ==> r[i] == FocusOn(m, weaknesses[i])
  {
    var focus := FirstN(weaknesses, FocusLength);
    assert forall i :: 0 <= i < |focus| ==> focus[i] == weaknesses[i];
    seq(|focus|, i requires 0 <= i < |focus| => FocusOn(m, focus[i]))
  }

  /** The plan for one profile: focus on the first three weaknesses, a video per weakness. */
  function PlanFor(p: LearnerProfile, today: int): (r: StudyPlan)
    ensures |r.immediateFocus| == Min(|p.weaknesses|, FocusLength)
    ensures forall i :: 0 <= i < |r.immediateFocus| ==>
              && r.immediateFocus[i].topic == p.weaknesses[i]
              && r.immediateFocus[i].target == FocusTarget
              && (p.weaknesses[i] in Keys(p.topicsMastery) ==> r.immediateFocus[i].mastery == MasteryOf(p.topicsMastery, p.weaknesses[i]))
              && (p.weaknesses[i] !in Keys(p.topicsMastery) ==> r.immediateFocus[i].mastery == 0.0)
    ensures |r.recommendedResources| == |p.weaknesses|
    ensures forall i :: 0 <= i < |p.weaknesses| ==> r.recommendedResources[i].topic == p.weaknesses[i]
    ensures |r.shortTermGoals| == 3 && Mentions(r.shortTermGoals[0], Join(", ", FirstN(p.weaknesses, GoalTopics)))
    ensures |r.longTermGoals| == 3
    ensures Keys(r.practiceSchedule) == Keys(p.topicsMastery)
  {
    StudyPlan(
      FocusItems(p.topicsMastery, p.weaknesses),
      ShortTermGoals(Join(", ", FirstN(p.weaknesses, GoalTopics))),
      LongTermGoals,
      VideoLinks(p.weaknesses),
      PracticeSchedule(p.topicsMastery, today))
  }

  /** The three short-term goals, the first naming the given topics. */
  function ShortTermGoals(named: string): (r: seq<string>)
    ensures |r| == 3 && Mentions(r[0], named)
  {
    MentionsAtEnd("Achieve 70% mastery in ", named);
    ["Achieve 70% mastery in " + named,
     "Complete 50 practice questions",
     "Review all incorrect answers from recent quizzes"]
  }

  const LongTermGoals: seq<string> :=
    ["Achieve 80% overall accuracy",
     "Master all topics to at least 60% proficiency",
     "Progress to higher-order thinking questions"]

  /** One video link per weakness, in order. */
  function VideoLinks(weaknesses: seq<string>): (r: seq<VideoLink>)
    ensures |r| == |weaknesses|
    ensures forall i :: 0 <= i < |r| ==> r[i].topic == weaknesses[i]
  {
    seq(|weaknesses|, i requires 0 <= i < |weaknesses| => VideoLink("video", weaknesses[i], "#video-" + weaknesses[i]))
  }

  /**
   `generate_study_plan`: the plan for the learner's profile, created
   empty when the learner is unknown. The performance argument of the
   source is never read and is not modelled.
   */
  function GenerateStudyPlan(ps: Profiles, userId: string, today: int): (r: (Profiles, StudyPlan))
    ensures userId in r.0 && r.1 == PlanFor(r.0[userId], today)
    ensures userId in ps ==> r.0 == ps
    ensures userId !in ps ==> r.0 == ps[userId := NewProfile(userId)]
  {
    var (ps1, p) := GetOrCreate(ps, userId);
    (ps1, PlanFor(p, today))
  }

  /** A learner never seen before gets a plan with no focus, no videos and no schedule. */
  lemma NewLearnerPlanIsEmpty(ps: Profiles, userId: string, today: int)
    requires userId !in ps
    ensures var plan := GenerateStudyPlan(ps, userId, today).1;
            plan.immediateFocus == [] && plan.recommendedResources == [] && plan.practiceSchedule == []
  {
  }

  /**
   Once weaknesses have been identified, every topic in immediate focus is
   a recorded topic below 0.6 mastery, short of the 0.7 target, and is
   among the weakest recorded topics.
   */
  lemma FocusBelowTarget(q: LearnerProfile, today: int)
    requires |q.topicsMastery| > 0 && Distinct(q.topicsMastery)
    ensures var p := IdentifyStrengthsWeaknesses(q);
            var plan := PlanFor(p, today);
            forall i :: 0 <= i < |plan.immediateFocus| ==>
              && plan.immediateFocus[i].topic in Keys(q.topicsMastery)
              && plan.immediateFocus[i].mastery < WeaknessBelow < plan.immediateFocus[i].target
              && (forall o :: o in Keys(q.topicsMastery) && o !in p.weaknesses ==>
                    plan.immediateFocus[i].mastery <= MasteryOf(q.topicsMastery, o))
  {
    StrengthsWeaknesses(q);
    var p := IdentifyStrengthsWeaknesses(q);
    assert p.topicsMastery == q.topicsMastery;
    FocusOfWeaknesses(q.topicsMastery, p.weaknesses);
  }

  /** Focus entries built from weaknesses, topics below 0.6, inherit those facts. */
  lemma FocusOfWeaknesses(m: Dict<real>, ws: seq<string>)
    requires forall k :: k in ws ==> k in Keys(m) && MasteryOf(m, k) < WeaknessBelow
    requires forall k, o :: k in ws && o in Keys(m) && o !in ws ==> MasteryOf(m, k) <= MasteryOf(m, o)
    ensures forall i :: 0 <= i < |FocusItems(m, ws)| ==>
              && FocusItems(m, ws)[i].topic in Keys(m)
              && FocusItems(m, ws)[i].mastery < WeaknessBelow < FocusItems(m, ws)[i].target
              && (forall o :: o in Keys(m) && o !in ws ==> FocusItems(m, ws)[i].mastery <= MasteryOf(m, o))
  {
    forall i | 0 <= i < |FocusItems(m, ws)|
      ensures FocusItems(m, ws)[i].topic in Keys(m)
      ensures FocusItems(m, ws)[i].mastery < WeaknessBelow < FocusItems(m, ws)[i].target
      ensures forall o :: o in Keys(m) && o !in ws ==> FocusItems(m, ws)[i].mastery <= MasteryOf(m, o)
    {
      assert ws[i] in ws;
    }
  }
}
