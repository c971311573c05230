/**
 The learner profile of the adaptive engine: counters, per-topic mastery and
 per-Bloom-level performance kept as exponential moving averages, learning
 velocity, strengths and weaknesses, and the profile's export and import.
 */
module Profile {
  import opened Common
  import opened Dicts
  import opened Stats
  import opened Sorting
  import opened Answers
  import opened Report
  import opened Sessions
  import opened UserAnalytics

  datatype Level = Struggling | Developing | Proficient | Advanced

  /** The levels in increasing order of performance. */
  function LevelRank(l: Level): nat {
    match l
    case Struggling => 0
    case Developing => 1
    case Proficient => 2
    case Advanced => 3
  }

  /**
   The engine's thresholds. The table also lists 0.4 for STRUGGLING, but the
   classification never consults it: below 0.6 is struggling.
   */
  const AdvancedThreshold: real := 0.95
  const ProficientThreshold: real := 0.8
  const DevelopingThreshold: real := 0.6

  datatype LearnerProfile = LearnerProfile(
    userId: string,
    totalQuestions: nat,
    correctAnswers: nat,
    topicsMastery: Dict<real>,       // topic -> mastery in [0, 1]
    bloomPerformance: Dict<real>,    // Bloom level -> performance in [0, 1]
    averageTime: real,               // seconds per question; 0 = unknown
    velocity: real,
    lastSession: Option<int>,        // seconds
    strengths: seq<string>,
    weaknesses: seq<string>,
    preferredTypes: seq<string>)

  /** The profile `get_or_create_profile` creates. */
  function NewProfile(userId: string): LearnerProfile {
    LearnerProfile(userId, 0, 0, [], [], 0.0, 0.0, None, [], [], [])
  }

  // ------------------------------------------------------------------ level

  /** The first threshold the accuracy reaches, from the top. */
  function LevelOf(accuracy: real): (l: Level)
    ensures l == Advanced <==> accuracy >= AdvancedThreshold
    ensures l == Struggling <==> accuracy < DevelopingThreshold
  {
    if accuracy >= AdvancedThreshold then Advanced
    else if accuracy >= ProficientThreshold then Proficient
    else if accuracy >= DevelopingThreshold then Developing
    else Struggling
  }

  /** A higher accuracy never gives a lower level. */
  lemma LevelMonotone(a: real, b: real)
    requires a <= b
    ensures LevelRank(LevelOf(a)) <= LevelRank(LevelOf(b))
  {
  }

  /** `_calculate_performance_level`: DEVELOPING before any answer. */
  function PerformanceLevel(p: LearnerProfile): (l: Level)
    ensures p.totalQuestions == 0 ==> l == Developing
    ensures p.totalQuestions > 0 ==>
              l == LevelOf(p.correctAnswers as real / p.totalQuestions as real)
  {
    if p.totalQuestions == 0 then Developing
    else LevelOf(p.correctAnswers as real / p.totalQuestions as real)
  }

  // --------------------------------------------------------------- blending

  /** The value a key takes on one observation: a new key adopts it, a known one moves towards it. */
  function Mix(prev: Option<real>, v: real, wOld: real, wNew: real): real {
    match prev
    case None => v
    case Some(p) => wOld * p + wNew * v
  }

  /** One observation blended into d. */
  function BlendOne(d: Dict<real>, k: string, v: real, wOld: real, wNew: real): Dict<real> {
    Put(d, k, Mix(Get(d, k), v, wOld, wNew))
  }

  /** Every observation of obs, in order, blended into d. */
  function Blend(d: Dict<real>, obs: Dict<real>, wOld: real, wNew: real): (r: Dict<real>)
    ensures forall k :: k in Keys(r) <==> k in Keys(d) || k in Keys(obs)
    ensures forall k :: k !in Keys(obs) ==> Get(r, k) == Get(d, k)
    ensures Distinct(d) ==> Distinct(r)
  {
    if |obs| == 0 then d
    else
      var init := obs[..|obs| - 1];
      var e := obs[|obs| - 1];
      var r0 := Blend(d, init, wOld, wNew);
      assert forall k :: k in Keys(obs) <==> k in Keys(init) || k == e.0 by {
        KeysInit(obs);
      }
      BlendOne(r0, e.0, e.1, wOld, wNew)
  }

  /** The blended value of an observed key: the observation itself or the weighted mix. */
  lemma {:induction false} BlendValue(d: Dict<real>, obs: Dict<real>, wOld: real, wNew: real, k: string, v: real)
    requires Distinct(obs) && (k, v) in obs
    ensures Get(Blend(d, obs, wOld, wNew), k) == Some(Mix(Get(d, k), v, wOld, wNew))
  {
    var n := |obs|;
    var init := obs[..n - 1];
    var e := obs[n - 1];
    var r0 := Blend(d, init, wOld, wNew);
    assert Blend(d, obs, wOld, wNew) == BlendOne(r0, e.0, e.1, wOld, wNew);
    if e.0 == k {
      DistinctValue(obs, k, v, e.1);
      assert k !in Keys(init);
      assert Get(r0, k) == Get(d, k);
    } else {
      assert (k, v) in init by {
        var i :| 0 <= i < n && obs[i] == (k, v);
        assert init[i] == (k, v);
      }
      assert Distinct(init) by {
        forall i, j | 0 <= i < j < |init| ensures init[i].0 != init[j].0 {
          assert init[i] == obs[i] && init[j] == obs[j];
        }
      }
      BlendValue(d, init, wOld, wNew, k, v);
    }
  }

  /** When the observations name each key once, every observed key takes its blended value. */
  lemma BlendValues(d: Dict<real>, obs: Dict<real>, wOld: real, wNew: real)
    ensures Distinct(obs) ==>
              forall k, v :: (k, v) in obs ==> Get(Blend(d, obs, wOld, wNew), k) == Some(Mix(Get(d, k), v, wOld, wNew))
  {
    if Distinct(obs) {
      forall k, v | (k, v) in obs
        ensures Get(Blend(d, obs, wOld, wNew), k) == Some(Mix(Get(d, k), v, wOld, wNew))
      {
        BlendValue(d, obs, wOld, wNew, k, v);
      }
    }
  }

  /** A convex combination of two values in [0, 1] lies in [0, 1]. */
  lemma Convex01(a: real, b: real, wa: real, wb: real)
    requires 0.0 <= a <= 1.0 && 0.0 <= b <= 1.0
    requires 0.0 <= wa && 0.0 <= wb && wa + wb == 1.0
    ensures 0.0 <= wa * a + wb * b <= 1.0
  {
    var x := Weighted(wa, a);
    var y := Weighted(wb, b);
    assert x + y <= 1.0;
  }

  /** A non-negative weight times a value in [0, 1] lies between 0 and the weight. */
  lemma Weighted(w: real, a: real) returns (x: real)
    requires 0.0 <= a <= 1.0 && 0.0 <= w
    ensures x == w * a && 0.0 <= x <= w
  {
    x := w * a;
    assert w * (1.0 - a) >= 0.0;
  }

  /** Blending values in [0, 1] with convex weights keeps them in [0, 1]. */
  lemma {:induction false} BlendWithin01(d: Dict<real>, obs: Dict<real>, wOld: real, wNew: real)
    requires Within01(d) && Within01(obs)
    requires 0.0 <= wOld && 0.0 <= wNew && wOld + wNew == 1.0
    ensures Within01(Blend(d, obs, wOld, wNew))
  {
    if |obs| > 0 {
      var init := obs[..|obs| - 1];
      var e := obs[|obs| - 1];
      assert Within01(init) by {
        forall i | 0 <= i < |init| ensures 0.0 <= init[i].1 <= 1.0 {
          assert init[i] == obs[i];
        }
      }
      BlendWithin01(d, init, wOld, wNew);
      assert e in obs;
      BlendOneWithin01(Blend(d, init, wOld, wNew), e.0, e.1, wOld, wNew);
    }
  }

  /** One observation in [0, 1] keeps every value in [0, 1]. */
  lemma BlendOneWithin01(d: Dict<real>, k: string, v: real, wOld: real, wNew: real)
    requires Within01(d) && 0.0 <= v <= 1.0
    requires 0.0 <= wOld && 0.0 <= wNew && wOld + wNew == 1.0
    ensures Within01(BlendOne(d, k, v, wOld, wNew))
  {
    var prev := Get(d, k);
    if prev.Some? {
      var i :| 0 <= i < |d| && d[i] == (k, prev.value);
    }
    MixWithin01(prev, v, wOld, wNew);
    PutWithin01(d, k, Mix(prev, v, wOld, wNew));
  }

  lemma MixWithin01(prev: Option<real>, v: real, wOld: real, wNew: real)
    requires prev.Some? ==> 0.0 <= prev.value <= 1.0
    requires 0.0 <= v <= 1.0
    requires 0.0 <= wOld && 0.0 <= wNew && wOld + wNew == 1.0
    ensures 0.0 <= Mix(prev, v, wOld, wNew) <= 1.0
  {
    if prev.Some? {
      Convex01(prev.value, v, wOld, wNew);
    }
  }

  /** The moving-average weights: 0.7 / 0.3 per session, 0.6 / 0.4 per quiz report. */
  const SessionOld: real := 0.7
  const SessionNew: real := 0.3
  const ReportOld: real := 0.6
  const ReportNew: real := 0.4
  const TimeOld: real := 0.7
  const TimeNew: real := 0.3

  // ------------------------------------------------- strengths / weaknesses

  const StrengthAbove: real := 0.7
  const WeaknessBelow: real := 0.6
  const ListLength: nat := 3

  /** The entries scoring above t, in order. */
  function Above(pairs: seq<(string, real)>, t: real): (r: seq<(string, real)>)
    ensures |r| <= |pairs| && multiset(r) <= multiset(pairs)
    ensures forall p :: p in r <==> p in pairs && p.1 > t
  {
    if |pairs| == 0 then []
    else
      var init := pairs[..|pairs| - 1];
      var x := pairs[|pairs| - 1];
      assert pairs == init + [x];
      Above(init, t) + (if x.1 > t then [x] else [])
  }

  /** The entries scoring below t, in order. */
  function Below(pairs: seq<(string, real)>, t: real): (r: seq<(string, real)>)
    ensures |r| <= |pairs| && multiset(r) <= multiset(pairs)
    ensures forall p :: p in r <==> p in pairs && p.1 < t
  {
    if |pairs| == 0 then []
    else
      var init := pairs[..|pairs| - 1];
      var x := pairs[|pairs| - 1];
      assert pairs == init + [x];
      Below(init, t) + (if x.1 < t then [x] else [])
  }

  /**
   `_identify_strengths_weaknesses`: of the topics sorted by mastery, highest
   first, the first three above 0.7 are strengths and the last three below
   0.6 weaknesses. With no topic at all both lists are left as they were.
   */
  function IdentifyStrengthsWeaknesses(p: LearnerProfile): (r: LearnerProfile)
    ensures |p.topicsMastery| == 0 ==> r == p
    ensures r == p.(strengths := r.strengths, weaknesses := r.weaknesses)
    ensures |p.topicsMastery| > 0 ==> |r.strengths| <= ListLength && |r.weaknesses| <= ListLength
  {
    var m := p.topicsMastery;
    if |m| == 0 then p
    else
      var strong := Above(Top(m, true, ListLength), StrengthAbove);
      var weak := Below(Bottom(m, true, ListLength), WeaknessBelow);
      p.(strengths := Keys(strong), weaknesses := Keys(weak))
  }

  /** The mastery recorded for a topic of the profile. */
  function MasteryOf(m: Dict<real>, k: string): real
    requires k in Keys(m)
  {
    Get(m, k).value
  }

  /** A key among the keys of a sub-multiset is a key of the whole. */
  lemma PairOfKey(m: Dict<real>, sub: seq<(string, real)>, k: string) returns (v: real)
    requires Distinct(m) && multiset(sub) <= multiset(m) && k in Keys(sub)
    ensures (k, v) in sub && (k, v) in m && k in Keys(m) && MasteryOf(m, k) == v
  {
    var i := IndexOf(sub, k);
    v := sub[i].1;
    assert sub[i] in multiset(sub);
    assert (k, v) in multiset(m);
    var j :| 0 <= j < |m| && m[j] == (k, v);
    assert Keys(m)[j] == k;
  }

  /**
   A topic picked from the top of the ranking, because it clears the bar,
   scores at least as high as any topic that was not picked: either that
   topic was ranked lower, or it was ranked high but missed the bar.
   */
  lemma PickedAboveRest(m: Dict<real>, top: seq<(string, real)>, picked: seq<(string, real)>, bar: real, k: string, o: string)
    requires Distinct(m) && IsTop(top, m, true, ListLength)
    requires multiset(picked) <= multiset(m)
    requires forall p :: p in picked <==> p in top && p.1 > bar
    requires k in Keys(picked) && o in Keys(m) && o !in Keys(picked)
    ensures k in Keys(m) && MasteryOf(m, o) <= MasteryOf(m, k)
  {
    var vk := PairOfKey(m, picked, k);
    var vo := MasteryOf(m, o);
    assert (o, vo) in m;
    if (o, vo) !in top {
      assert (o, vo) in multiset(m) - multiset(top);
      assert Rank((k, vk), true) <= Rank((o, vo), true);
    }
  }

  /** The mirror image for the bottom of the ranking. */
  lemma PickedBelowRest(m: Dict<real>, bottom: seq<(string, real)>, picked: seq<(string, real)>, bar: real, k: string, o: string)
    requires Distinct(m) && IsBottom(bottom, m, true, ListLength)
    requires multiset(picked) <= multiset(m)
    requires forall p :: p in picked <==> p in bottom && p.1 < bar
    requires k in Keys(picked) && o in Keys(m) && o !in Keys(picked)
    ensures k in Keys(m) && MasteryOf(m, k) <= MasteryOf(m, o)
  {
    var vk := PairOfKey(m, picked, k);
    var vo := MasteryOf(m, o);
    assert (o, vo) in m;
    if (o, vo) !in bottom {
      assert (o, vo) in multiset(m) - multiset(bottom);
      assert Rank((o, vo), true) <= Rank((k, vk), true);
    }
  }

  /** Every strength scores above 0.7 and at least as high as every topic left out. */
  lemma StrengthFacts(m: Dict<real>)
    requires Distinct(m)
    ensures var ks := Keys(Above(Top(m, true, ListLength), StrengthAbove));
      && (forall k :: k in ks ==> k in Keys(m) && MasteryOf(m, k) > StrengthAbove)
      && (forall k, o :: k in ks && o in Keys(m) && o !in ks ==> MasteryOf(m, o) <= MasteryOf(m, k))
  {
    var top := Top(m, true, ListLength);
    var strong := Above(top, StrengthAbove);
    var ks := Keys(strong);
    forall k | k in ks ensures k in Keys(m) && MasteryOf(m, k) > StrengthAbove {
      var v := PairOfKey(m, strong, k);
    }
    forall k, o | k in ks && o in Keys(m) && o !in ks ensures MasteryOf(m, o) <= MasteryOf(m, k) {
      PickedAboveRest(m, top, strong, StrengthAbove, k, o);
    }
  }

  /** Every weakness scores below 0.6 and at most as high as every topic left out. */
  lemma WeaknessFacts(m: Dict<real>)
    requires Distinct(m)
    ensures var ks := Keys(Below(Bottom(m, true, ListLength), WeaknessBelow));
      && (forall k :: k in ks ==> k in Keys(m) && MasteryOf(m, k) < WeaknessBelow)
      && (forall k, o :: k in ks && o in Keys(m) && o !in ks ==> MasteryOf(m, k) <= MasteryOf(m, o))
  {
    var bottom := Bottom(m, true, ListLength);
    var weak := Below(bottom, WeaknessBelow);
    var ks := Keys(weak);
    forall k | k in ks ensures k in Keys(m) && MasteryOf(m, k) < WeaknessBelow {
      var v := PairOfKey(m, weak, k);
    }
    forall k, o | k in ks && o in Keys(m) && o !in ks ensures MasteryOf(m, k) <= MasteryOf(m, o) {
      PickedBelowRest(m, bottom, weak, WeaknessBelow, k, o);
    }
  }

  /** A sub-multiset is no larger. */
  lemma SubMultisetSize<T>(a: multiset<T>, b: multiset<T>)
    requires a <= b
    ensures |a| <= |b|
  {
    assert b == a + (b - a);
  }

  /** Filtering keeps everything when everything clears the bar. */
  lemma {:induction false} AboveAll(pairs: seq<(string, real)>, t: real)
    requires forall p :: p in pairs ==> p.1 > t
    ensures Above(pairs, t) == pairs
  {
    if |pairs| > 0 {
      AboveAll(pairs[..|pairs| - 1], t);
      FrontLast(pairs);
    }
  }

  /** The mirror image for the entries below a bar. */
  lemma {:induction false} BelowAll(pairs: seq<(string, real)>, t: real)
    requires forall p :: p in pairs ==> p.1 < t
    ensures Below(pairs, t) == pairs
  {
    if |pairs| > 0 {
      BelowAll(pairs[..|pairs| - 1], t);
      FrontLast(pairs);
    }
  }

  /** A picked pair's key is among the picked keys. */
  lemma KeyOfPair(picked: seq<(string, real)>, k: string, v: real)
    requires (k, v) in picked
    ensures k in Keys(picked)
  {
    var i :| 0 <= i < |picked| && picked[i] == (k, v);
    assert Keys(picked)[i] == k;
  }

  /**
   A selection of k entries of m that leaves out an entry e has all k
   slots filled: m has more than k entries.
   */
  lemma FullWhenLeftOut(m: Dict<real>, sel: seq<(string, real)>, e: (string, real))
    requires |sel| == (if |m| < ListLength then |m| else ListLength)
    requires multiset(sel) <= multiset(m) && e in m && e !in sel
    ensures |sel| == ListLength
  {
    assert multiset(sel) + multiset{e} <= multiset(m);
    SubMultisetSize(multiset(sel) + multiset{e}, multiset(m));
  }

  /**
   A topic above 0.7 that is not a strength was crowded out: the top three
   all clear the bar, so there are three strengths.
   */
  lemma StrengthLeftOut(m: Dict<real>, top: seq<(string, real)>, o: string)
    requires Distinct(m) && IsTop(top, m, true, ListLength)
    requires o in Keys(m) && MasteryOf(m, o) > StrengthAbove
    requires o !in Keys(Above(top, StrengthAbove))
    ensures |Keys(Above(top, StrengthAbove))| == ListLength
  {
    var e := (o, MasteryOf(m, o));
    assert e in m;
    if e in top {
      KeyOfPair(Above(top, StrengthAbove), o, e.1);
    }
    assert e in multiset(m) - multiset(top);
    forall p | p in top ensures p.1 > StrengthAbove {
      assert Rank(p, true) <= Rank(e, true);
    }
    AboveAll(top, StrengthAbove);
    FullWhenLeftOut(m, top, e);
  }

  /** A topic below 0.6 that is not a weakness was crowded out by three weaknesses. */
  lemma WeaknessLeftOut(m: Dict<real>, bottom: seq<(string, real)>, o: string)
    requires Distinct(m) && IsBottom(bottom, m, true, ListLength)
    requires o in Keys(m) && MasteryOf(m, o) < WeaknessBelow
    requires o !in Keys(Below(bottom, WeaknessBelow))
    ensures |Keys(Below(bottom, WeaknessBelow))| == ListLength
  {
    var e := (o, MasteryOf(m, o));
    assert e in m;
    if e in bottom {
      KeyOfPair(Below(bottom, WeaknessBelow), o, e.1);
    }
    assert e in multiset(m) - multiset(bottom);
    forall p | p in bottom ensures p.1 < WeaknessBelow {
      assert Rank(e, true) <= Rank(p, true);
    }
    BelowAll(bottom, WeaknessBelow);
    FullWhenLeftOut(m, bottom, e);
  }

  /**
   Every topic above 0.7 is a strength unless the list already holds three
   strengths; every topic below 0.6 is a weakness unless the list already
   holds three weaknesses.
   */
  lemma StrengthsWeaknessesComplete(m: Dict<real>)
    requires Distinct(m)
    ensures var ks := Keys(Above(Top(m, true, ListLength), StrengthAbove));
            forall o :: o in Keys(m) && MasteryOf(m, o) > StrengthAbove && o !in ks ==> |ks| == ListLength
    ensures var ks := Keys(Below(Bottom(m, true, ListLength), WeaknessBelow));
            forall o :: o in Keys(m) && MasteryOf(m, o) < WeaknessBelow && o !in ks ==> |ks| == ListLength
  {
    var top := Top(m, true, ListLength);
    var bottom := Bottom(m, true, ListLength);
    forall o | o in Keys(m) && MasteryOf(m, o) > StrengthAbove && o !in Keys(Above(top, StrengthAbove))
      ensures |Keys(Above(top, StrengthAbove))| == ListLength
    {
      StrengthLeftOut(m, top, o);
    }
    forall o | o in Keys(m) && MasteryOf(m, o) < WeaknessBelow && o !in Keys(Below(bottom, WeaknessBelow))
      ensures |Keys(Below(bottom, WeaknessBelow))| == ListLength
    {
      WeaknessLeftOut(m, bottom, o);
    }
  }

  /**
   The profile's strengths and weaknesses rank its own topics: the two lists
   are disjoint, every strength is above 0.7 and at least every topic left
   out, every weakness is below 0.6 and at most every topic left out, and a
   topic that clears a bar is left out of its list only when that list holds
   three topics.
   */
  ghost predicate Ranked(p: LearnerProfile) {
    var m := p.topicsMastery;
    && (forall k :: k in p.strengths ==> k !in p.weaknesses)
    && (forall k :: k in p.strengths ==> k in Keys(m) && MasteryOf(m, k) > StrengthAbove)
    && (forall k :: k in p.weaknesses ==> k in Keys(m) && MasteryOf(m, k) < WeaknessBelow)
    && (forall k, o :: k in p.strengths && o in Keys(m) && o !in p.strengths ==> MasteryOf(m, o) <= MasteryOf(m, k))
    && (forall k, o :: k in p.weaknesses && o in Keys(m) && o !in p.weaknesses ==> MasteryOf(m, k) <= MasteryOf(m, o))
    && (forall o :: o in Keys(m) && MasteryOf(m, o) > StrengthAbove && o !in p.strengths ==> |p.strengths| == ListLength)
    && (forall o :: o in Keys(m) && MasteryOf(m, o) < WeaknessBelow && o !in p.weaknesses ==> |p.weaknesses| == ListLength)
  }

  /**
   Strengths and weaknesses never share a topic; every strength is above 0.7
   and beats every other topic, every weakness is below 0.6 and trails every
   other topic; and a topic that clears a bar is missing from its list only
   when the list is full.
   */
  lemma StrengthsWeaknesses(p: LearnerProfile)
    requires |p.topicsMastery| > 0 && Distinct(p.topicsMastery)
    ensures Ranked(IdentifyStrengthsWeaknesses(p))
  {
    var m := p.topicsMastery;
    StrengthFacts(m);
    WeaknessFacts(m);
    StrengthsWeaknessesComplete(m);
    var r := IdentifyStrengthsWeaknesses(p);
    assert r.strengths == Keys(Above(Top(m, true, ListLength), StrengthAbove));
    assert r.weaknesses == Keys(Below(Bottom(m, true, ListLength), WeaknessBelow));
  }

  // --------------------------------------------------------------- velocity

  /**
   The learning history `adjust_config` receives: a learner id (default
   "anonymous") and, optionally, the recent session summaries.
   */
  datatype History = History(userId: Option<string>, recentSessions: Option<seq<SessionSummary>>)

  const Anonymous: string := "anonymous"

  /** The sessions of a history; an absent list contributes none. */
  function SessionsOf(h: History): seq<SessionSummary> {
    h.recentSessions.GetOr([])
  }

  /**
   `_calculate_learning_velocity`: the least-squares slope of the session
   accuracies over the session index, 0 with fewer than two sessions.
   */
  function LearningVelocity(h: History): (v: real)
    ensures |SessionsOf(h)| < 2 ==> v == 0.0
  {
    var ss := SessionsOf(h);
    if |ss| < 2 then 0.0 else Slope(Accuracies(ss))
  }

  /** Sessions at a steady accuracy give velocity 0. */
  lemma SteadyVelocity(h: History, c: real)
    requires forall i :: 0 <= i < |SessionsOf(h)| ==> SessionsOf(h)[i].accuracy == c
    ensures LearningVelocity(h) == 0.0
  {
    var ss := SessionsOf(h);
    if |ss| >= 2 {
      SlopeOfConstant(Accuracies(ss), c);
    }
  }

  /** Accuracies rising by b per session give velocity b. */
  lemma LinearVelocity(h: History, a: real, b: real)
    requires |SessionsOf(h)| >= 2
    requires forall i :: 0 <= i < |SessionsOf(h)| ==> SessionsOf(h)[i].accuracy == a + b * i as real
    ensures LearningVelocity(h) == b
  {
    var ss := SessionsOf(h);
    assert Accuracies(ss) == Line(a, b, |ss|);
    SlopeOfLine(a, b, |ss|);
  }

  // ---------------------------------------------------------------- updates

  /** One session summary folded into the profile's counters and averages. */
  function ApplySession(p: LearnerProfile, s: SessionSummary): (r: LearnerProfile)
    ensures r.totalQuestions == p.totalQuestions + s.questionsAnswered
    ensures r.correctAnswers == p.correctAnswers + s.correctAnswers
    ensures r == p.(totalQuestions := r.totalQuestions, correctAnswers := r.correctAnswers,
                    topicsMastery := r.topicsMastery, bloomPerformance := r.bloomPerformance)
    ensures forall k :: k in Keys(r.topicsMastery) <==> k in Keys(p.topicsMastery) || k in Keys(s.topicPerformance)
    ensures forall k :: k !in Keys(s.topicPerformance) ==> Get(r.topicsMastery, k) == Get(p.topicsMastery, k)
    ensures Distinct(s.topicPerformance) ==>
              forall k, v :: (k, v) in s.topicPerformance ==>
                Get(r.topicsMastery, k) == Some(Mix(Get(p.topicsMastery, k), v, SessionOld, SessionNew))
    ensures forall k :: k in Keys(r.bloomPerformance) <==> k in Keys(p.bloomPerformance) || k in Keys(s.bloomPerformance)
    ensures forall k :: k !in Keys(s.bloomPerformance) ==> Get(r.bloomPerformance, k) == Get(p.bloomPerformance, k)
    ensures Distinct(s.bloomPerformance) ==>
              forall k, v :: (k, v) in s.bloomPerformance ==>
                Get(r.bloomPerformance, k) == Some(Mix(Get(p.bloomPerformance, k), v, SessionOld, SessionNew))
  {
    BlendValues(p.topicsMastery, s.topicPerformance, SessionOld, SessionNew);
    BlendValues(p.bloomPerformance, s.bloomPerformance, SessionOld, SessionNew);
    p.(totalQuestions := p.totalQuestions + s.questionsAnswered,
       correctAnswers := p.correctAnswers + s.correctAnswers,
       topicsMastery := Blend(p.topicsMastery, s.topicPerformance, SessionOld, SessionNew),
       bloomPerformance := Blend(p.bloomPerformance, s.bloomPerformance, SessionOld, SessionNew))
  }

  /** The sessions folded in, oldest first. */
  function ApplySessions(p: LearnerProfile, ss: seq<SessionSummary>): LearnerProfile {
    if |ss| == 0 then p else ApplySession(ApplySessions(p, ss[..|ss| - 1]), Last(ss))
  }

  /**
   Folding sessions in adds their answered and correct counts and touches
   nothing but the counters and the two averages.
   */
  lemma {:induction false} ApplySessionsCounts(p: LearnerProfile, ss: seq<SessionSummary>)
    ensures var r := ApplySessions(p, ss);
      && r.totalQuestions == p.totalQuestions + TotalAnswered(ss)
      && r.correctAnswers == p.correctAnswers + TotalCorrect(ss)
      && r == p.(totalQuestions := r.totalQuestions, correctAnswers := r.correctAnswers,
                 topicsMastery := r.topicsMastery, bloomPerformance := r.bloomPerformance)
  {
    if |ss| > 0 {
      ApplySessionsCounts(p, ss[..|ss| - 1]);
    }
  }

  /** Folding in two runs of sessions is folding in the first, then the second. */
  lemma {:induction false} ApplySessionsAppend(p: LearnerProfile, xs: seq<SessionSummary>, ys: seq<SessionSummary>)
    ensures ApplySessions(p, xs + ys) == ApplySessions(ApplySessions(p, xs), ys)
  {
    if |ys| == 0 {
      assert xs + ys == xs;
    } else {
      assert (xs + ys)[..|xs + ys| - 1] == xs + ys[..|ys| - 1];
      ApplySessionsAppend(p, xs, ys[..|ys| - 1]);
    }
  }

  /** Folding sessions in keeps the topics of the mastery map distinct. */
  lemma {:induction false} ApplySessionsDistinct(p: LearnerProfile, ss: seq<SessionSummary>)
    requires Distinct(p.topicsMastery)
    ensures Distinct(ApplySessions(p, ss).topicsMastery)
  {
    if |ss| > 0 {
      ApplySessionsDistinct(p, ss[..|ss| - 1]);
    }
  }

  /**
   `_update_profile_from_history`: fold the recent sessions in, recompute the
   velocity once anything has been answered, re-rank strengths and
   weaknesses and stamp the session time.
   */
  function UpdateProfileFromHistory(p: LearnerProfile, h: History, now: int): (r: LearnerProfile)
    ensures r.userId == p.userId && r.averageTime == p.averageTime && r.preferredTypes == p.preferredTypes
    ensures r.totalQuestions == p.totalQuestions + TotalAnswered(SessionsOf(h))
    ensures r.correctAnswers == p.correctAnswers + TotalCorrect(SessionsOf(h))
    ensures r.velocity == if r.totalQuestions > 0 then LearningVelocity(h) else p.velocity
    ensures r.topicsMastery == ApplySessions(p, SessionsOf(h)).topicsMastery
    ensures r.bloomPerformance == ApplySessions(p, SessionsOf(h)).bloomPerformance
    ensures |r.topicsMastery| == 0 ==> r.strengths == p.strengths && r.weaknesses == p.weaknesses
    ensures r.lastSession == Some(now)
  {
    var ss := SessionsOf(h);
    ApplySessionsCounts(p, ss);
    var folded := ApplySessions(p, ss);
    var moved := if folded.totalQuestions > 0 then folded.(velocity := LearningVelocity(h)) else folded;
    IdentifyStrengthsWeaknesses(moved).(lastSession := Some(now))
  }

  /**
   After an update from history the strengths and weaknesses rank the
   folded mastery map, whenever it holds a topic.
   */
  lemma UpdateFromHistoryRanks(p: LearnerProfile, h: History, now: int)
    requires Distinct(p.topicsMastery)
    ensures var r := UpdateProfileFromHistory(p, h, now); |r.topicsMastery| > 0 ==> Ranked(r)
  {
    var ss := SessionsOf(h);
    ApplySessionsDistinct(p, ss);
    var folded := ApplySessions(p, ss);
    var moved := if folded.totalQuestions > 0 then folded.(velocity := LearningVelocity(h)) else folded;
    if |moved.topicsMastery| > 0 {
      StrengthsWeaknesses(moved);
    }
  }

  /** The new average answer time: adopted when none is known, blended 0.7 / 0.3 otherwise. */
  function BlendTime(prev: real, t: real): (r: real)
    ensures prev == 0.0 ==> r == t
    ensures prev != 0.0 ==> MinReal(prev, t) <= r <= MaxReal(prev, t)
  {
    if prev == 0.0 then t
    else
      ConvexBetween(prev, t, TimeOld, TimeNew);
      TimeOld * prev + TimeNew * t
  }

  /** A convex combination lies between the two values it mixes. */
  lemma ConvexBetween(a: real, b: real, wa: real, wb: real)
    requires 0.0 <= wa && 0.0 <= wb && wa + wb == 1.0
    ensures MinReal(a, b) <= wa * a + wb * b <= MaxReal(a, b)
  {
    var y := Shrink(wb, b - a);
    assert wa * a + wb * b == a + y;
  }

  /** A weight in [0, 1] shrinks a difference towards 0 without changing its sign. */
  lemma Shrink(w: real, x: real) returns (y: real)
    requires 0.0 <= w <= 1.0
    ensures y == w * x
    ensures x >= 0.0 ==> 0.0 <= y <= x
    ensures x <= 0.0 ==> x <= y <= 0.0
  {
    y := w * x;
    if x < 0.0 {
      assert (1.0 - w) * (-x) >= 0.0;
    }
  }

  /**
   `update_user_model` on one profile: add the report's counts, blend its
   topic and Bloom scores 0.6 / 0.4 and its average time 0.7 / 0.3,
   stamp the session time and re-rank strengths and weaknesses.
   */
  function ApplyReport(p: LearnerProfile, q: QuizReport, now: int): (r: LearnerProfile)
    ensures r.userId == p.userId && r.velocity == p.velocity && r.preferredTypes == p.preferredTypes
    ensures r.totalQuestions == p.totalQuestions + q.totalQuestions
    ensures r.correctAnswers == p.correctAnswers + q.correctAnswers
    ensures r.topicsMastery == Blend(p.topicsMastery, q.topicScores, ReportOld, ReportNew)
    ensures r.bloomPerformance == Blend(p.bloomPerformance, q.bloomScores, ReportOld, ReportNew)
    ensures q.averageTime.None? ==> r.averageTime == p.averageTime
    ensures q.averageTime.Some? ==> r.averageTime == BlendTime(p.averageTime, q.averageTime.value)
    ensures r.lastSession == Some(now)
  {
    IdentifyStrengthsWeaknesses(CountReport(p, q, now))
  }

  /** The report's counts, scores and time taken in, before re-ranking. */
  function CountReport(p: LearnerProfile, q: QuizReport, now: int): LearnerProfile {
    p.(totalQuestions := p.totalQuestions + q.totalQuestions,
       correctAnswers := p.correctAnswers + q.correctAnswers,
       topicsMastery := Blend(p.topicsMastery, q.topicScores, ReportOld, ReportNew),
       bloomPerformance := Blend(p.bloomPerformance, q.bloomScores, ReportOld, ReportNew),
       averageTime := if q.averageTime.Some? then BlendTime(p.averageTime, q.averageTime.value) else p.averageTime,
       lastSession := Some(now))
  }

  /**
   After a report the strengths and weaknesses rank the blended mastery map,
   whenever it holds a topic.
   */
  lemma ApplyReportRanks(p: LearnerProfile, q: QuizReport, now: int)
    requires Distinct(p.topicsMastery)
    ensures var r := ApplyReport(p, q, now); |r.topicsMastery| > 0 ==> Ranked(r)
  {
    if |CountReport(p, q, now).topicsMastery| > 0 {
      StrengthsWeaknesses(CountReport(p, q, now));
    }
  }

  // -------------------------------------------------------------- invariant

  /** What every update keeps: sound counters, mastery in [0, 1], at most three strengths and weaknesses. */
  ghost predicate ValidProfile(p: LearnerProfile) {
    && p.correctAnswers <= p.totalQuestions
    && Distinct(p.topicsMastery) && Within01(p.topicsMastery)
    && Distinct(p.bloomPerformance) && Within01(p.bloomPerformance)
    && |p.strengths| <= ListLength && |p.weaknesses| <= ListLength
  }

  lemma NewProfileValid(userId: string)
    ensures ValidProfile(NewProfile(userId))
  {
  }

  /** Folding in well-formed sessions keeps a profile valid. */
  lemma {:induction false} ApplySessionsValid(p: LearnerProfile, ss: seq<SessionSummary>)
    requires ValidProfile(p)
    requires forall i :: 0 <= i < |ss| ==> WellFormed(ss[i])
    ensures ValidProfile(ApplySessions(p, ss))
  {
    if |ss| > 0 {
      var init := ss[..|ss| - 1];
      assert forall i :: 0 <= i < |init| ==> WellFormed(init[i]) by {
        forall i | 0 <= i < |init| ensures WellFormed(init[i]) {
          assert init[i] == ss[i];
        }
      }
      ApplySessionsValid(p, init);
      var q := ApplySessions(p, init);
      var s := Last(ss);
      assert WellFormed(s);
      BlendWithin01(q.topicsMastery, s.topicPerformance, SessionOld, SessionNew);
      BlendWithin01(q.bloomPerformance, s.bloomPerformance, SessionOld, SessionNew);
    }
  }

  /** Re-ranking keeps a profile valid. */
  lemma IdentifyValid(p: LearnerProfile)
    requires ValidProfile(p)
    ensures ValidProfile(IdentifyStrengthsWeaknesses(p))
  {
  }

  /** A profile updated from well-formed history stays valid. */
  lemma UpdateFromHistoryValid(p: LearnerProfile, h: History, now: int)
    requires ValidProfile(p)
    requires forall i :: 0 <= i < |SessionsOf(h)| ==> WellFormed(SessionsOf(h)[i])
    ensures ValidProfile(UpdateProfileFromHistory(p, h, now))
  {
    var ss := SessionsOf(h);
    ApplySessionsValid(p, ss);
    var folded := ApplySessions(p, ss);
    var moved := if folded.totalQuestions > 0 then folded.(velocity := LearningVelocity(h)) else folded;
    IdentifyValid(moved);
  }

  /** A profile updated with the report of a graded quiz stays valid. */
  lemma ApplyReportValid(p: LearnerProfile, answers: seq<Answer>, timeTaken: int, now: int)
    requires ValidProfile(p)
    ensures ValidProfile(ApplyReport(p, GenerateReport(answers, timeTaken), now))
  {
    var q := GenerateReport(answers, timeTaken);
    ReportScoreKeys(answers, timeTaken);
    BlendWithin01(p.topicsMastery, q.topicScores, ReportOld, ReportNew);
    BlendWithin01(p.bloomPerformance, q.bloomScores, ReportOld, ReportNew);
  }

  // ---------------------------------------------------------- profile store

  /** The engine's learner profiles by id. */
  type Profiles = map<string, LearnerProfile>

  /** `get_or_create_profile`: the stored profile, or a new one that is then stored. */
  function GetOrCreate(ps: Profiles, userId: string): (r: (Profiles, LearnerProfile))
    ensures userId in r.0 && r.0[userId] == r.1
    ensures userId in ps ==> r.0 == ps
    ensures userId !in ps ==> r.1 == NewProfile(userId)
    ensures forall u :: u != userId ==> (u in r.0 <==> u in ps) && (u in ps ==> r.0[u] == ps[u])
  {
    if userId in ps then (ps, ps[userId]) else (ps[userId := NewProfile(userId)], NewProfile(userId))
  }

  /** `update_user_model`: the learner's profile replaced by its updated self, others untouched. */
  function UpdateUserModel(ps: Profiles, userId: string, q: QuizReport, now: int): (r: Profiles)
    ensures userId in r && r[userId] == ApplyReport(GetOrCreate(ps, userId).1, q, now)
    ensures forall u :: u != userId ==> (u in r <==> u in ps) && (u in ps ==> r[u] == ps[u])
  {
    var (ps1, p) := GetOrCreate(ps, userId);
    ps1[userId := ApplyReport(p, q, now)]
  }

  // -------------------------------------------------------- export / import

  /**
   A saved profile. A field that is absent from the saved record is `None`;
   `lastSession` is `None` both when absent and when saved as null.
   */
  datatype ProfileData = ProfileData(
    userId: Option<string>,
    totalQuestions: Option<nat>,
    correctAnswers: Option<nat>,
    accuracy: Option<real>,
    topicsMastery: Option<Dict<real>>,
    bloomPerformance: Option<Dict<real>>,
    strengths: Option<seq<string>>,
    weaknesses: Option<seq<string>>,
    lastSession: Option<int>,
    velocity: Option<real>,
    performanceLevel: Option<Level>)

  /** `export_profile` on one profile; the accuracy divides by at least 1. */
  function Export(p: LearnerProfile): (d: ProfileData)
    ensures d.userId == Some(p.userId) && d.lastSession == p.lastSession
    ensures d.accuracy.Some? && IsQuotient(d.accuracy.value, p.correctAnswers as real, Max(1, p.totalQuestions))
    ensures d.performanceLevel == Some(PerformanceLevel(p))
  {
    ProfileData(
      Some(p.userId), Some(p.totalQuestions), Some(p.correctAnswers),
      Some(Divide(p.correctAnswers as real, Max(1, p.totalQuestions))),
      Some(p.topicsMastery), Some(p.bloomPerformance),
      Some(p.strengths), Some(p.weaknesses),
      p.lastSession, Some(p.velocity), Some(PerformanceLevel(p)))
  }

  /**
   `import_profile` on one record: a record without a learner id is rejected
   (`KeyError`), every other missing field takes its default. The saved
   accuracy and level are not read back.
   */
  function Import(d: ProfileData): (r: Option<LearnerProfile>)
    ensures r.None? <==> d.userId.None?
  {
    match d.userId
    case None => None
    case Some(uid) =>
      Some(LearnerProfile(
        uid,
        d.totalQuestions.GetOr(0), d.correctAnswers.GetOr(0),
        d.topicsMastery.GetOr([]), d.bloomPerformance.GetOr([]),
        0.0, d.velocity.GetOr(0.0), d.lastSession,
        d.strengths.GetOr([]), d.weaknesses.GetOr([]), []))
  }

  /**
   Export then import gives the profile back, except the average answer time
   and the preferred question types, which are not saved.
   */
  lemma ExportImport(p: LearnerProfile)
    ensures Import(Export(p)) == Some(p.(averageTime := 0.0, preferredTypes := []))
  {
  }

  /** A record holding only a learner id imports as a fresh profile. */
  lemma ImportDefaults(userId: string)
    ensures Import(ProfileData(Some(userId), None, None, None, None, None, None, None, None, None, None))
              == Some(NewProfile(userId))
  {
  }

  /** `export_profile`: exporting an unknown learner first stores a new profile. */
  function ExportProfile(ps: Profiles, userId: string): (r: (Profiles, ProfileData))
    ensures r.0 == GetOrCreate(ps, userId).0
    ensures Import(r.1) == Some(GetOrCreate(ps, userId).1.(averageTime := 0.0, preferredTypes := []))
  {
    var (ps1, p) := GetOrCreate(ps, userId);
    ExportImport(p);
    (ps1, Export(p))
  }

  /** `import_profile`: the imported profile replaces any stored one; a record without id changes nothing. */
  function ImportProfile(ps: Profiles, d: ProfileData): (r: Option<Profiles>)
    ensures r.None? <==> d.userId.None?
    ensures r.Some? ==> d.userId.value in r.value && Some(r.value[d.userId.value]) == Import(d)
    ensures r.Some? ==> forall u :: u != d.userId.value ==> (u in r.value <==> u in ps) && (u in ps ==> r.value[u] == ps[u])
  {
    match Import(d)
    case None => None
    case Some(p) => Some(ps[p.userId := p])
  }
}
