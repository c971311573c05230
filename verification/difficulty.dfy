/**
 The difficulty mix of an adapted quiz: a share per Bloom level, chosen by
 the learner's performance level, with every level the learner is weak at
 boosted by 1.2 and the whole renormalised to sum to 1.
 */
module Difficulty {
  import opened Common
  import opened Dicts
  import opened Profile

  /** Every weight is positive. */
  ghost predicate Positive(d: Dict<real>) {
    forall i :: 0 <= i < |d| ==> d[i].1 > 0.0
  }

  /** The base mix per performance level; only advanced learners get evaluate and create questions. */
  function BaseDistribution(level: Level): (d: Dict<real>)
    ensures IsMix(d)
    ensures |d| >= 4 && d[0].0 == "remember" && d[1].0 == "understand" && d[3].0 == "analyze"
  {
    match level
    case Struggling =>
      Sum4(("remember", 0.4), ("understand", 0.4), ("apply", 0.15), ("analyze", 0.05));
      [("remember", 0.4), ("understand", 0.4), ("apply", 0.15), ("analyze", 0.05)]
    case Developing =>
      Sum4(("remember", 0.25), ("understand", 0.35), ("apply", 0.25), ("analyze", 0.15));
      [("remember", 0.25), ("understand", 0.35), ("apply", 0.25), ("analyze", 0.15)]
    case Proficient =>
      Sum4(("remember", 0.15), ("understand", 0.25), ("apply", 0.35), ("analyze", 0.25));
      [("remember", 0.15), ("understand", 0.25), ("apply", 0.35), ("analyze", 0.25)]
    case Advanced =>
      Sum6(("remember", 0.05), ("understand", 0.15), ("apply", 0.30), ("analyze", 0.30),
           ("evaluate", 0.10), ("create", 0.10));
      [("remember", 0.05), ("understand", 0.15), ("apply", 0.30), ("analyze", 0.30),
       ("evaluate", 0.10), ("create", 0.10)]
  }

  lemma SumSnoc(d: Dict<real>, e: (string, real))
    ensures SumValues(d + [e]) == SumValues(d) + e.1
  {
    assert (d + [e])[..|d|] == d;
  }

  lemma Sum4(a: (string, real), b: (string, real), c: (string, real), d: (string, real))
    ensures SumValues([a, b, c, d]) == a.1 + b.1 + c.1 + d.1
  {
    var empty: Dict<real> := [];
    SumSnoc(empty, a);
    SumSnoc(empty + [a], b);
    SumSnoc(empty + [a] + [b], c);
    SumSnoc(empty + [a] + [b] + [c], d);
    assert empty + [a] + [b] + [c] + [d] == [a, b, c, d];
  }

  lemma Sum6(a: (string, real), b: (string, real), c: (string, real), d: (string, real),
             e: (string, real), f: (string, real))
    ensures SumValues([a, b, c, d, e, f]) == a.1 + b.1 + c.1 + d.1 + e.1 + f.1
  {
    Sum4(a, b, c, d);
    SumSnoc([a, b, c, d], e);
    SumSnoc([a, b, c, d] + [e], f);
    assert [a, b, c, d] + [e] + [f] == [a, b, c, d, e, f];
  }

  /** The share a level has in a mix. */
  function Share(d: Dict<real>, k: string): real {
    Get(d, k).GetOr(0.0)
  }

  /** A higher performance level never asks for more recall and never for less analysis. */
  lemma BaseShiftsUpward(a: Level, b: Level)
    requires LevelRank(a) <= LevelRank(b)
    ensures Share(BaseDistribution(b), "remember") <= Share(BaseDistribution(a), "remember")
    ensures Share(BaseDistribution(a), "analyze") <= Share(BaseDistribution(b), "analyze")
  {
    var da := BaseDistribution(a);
    var db := BaseDistribution(b);
    assert Share(da, "remember") == da[0].1 && Share(db, "remember") == db[0].1;
    assert Share(da, "analyze") == da[3].1 && Share(db, "analyze") == db[3].1;
  }

  /** A Bloom level is weak below 0.5; its weight is then multiplied by 1.2. */
  const WeakBloom: real := 0.5
  const BoostFactor: real := 1.2

  /** The learner is weak at a Bloom level: a recorded performance below 0.5. */
  predicate Weak(bloom: Dict<real>, k: string) {
    match Get(bloom, k)
    case Some(v) => v < WeakBloom
    case None => false
  }

  /** A weight, boosted when its level is weak. */
  function Boosted(x: real, weak: bool): real {
    if weak then x * BoostFactor else x
  }

  /** One profile entry: boost the level when it is weak and part of the mix. */
  function BoostOne(d: Dict<real>, e: (string, real)): Dict<real> {
    if e.1 < WeakBloom && e.0 in Keys(d) then Put(d, e.0, Get(d, e.0).value * BoostFactor) else d
  }

  /** Every profile entry applied in turn. */
  function BoostWeak(d: Dict<real>, bloom: Dict<real>): (r: Dict<real>)
    ensures Keys(r) == Keys(d)
    ensures Distinct(d) ==> Distinct(r)
    ensures Positive(d) ==> Positive(r)
  {
    if |bloom| == 0 then d
    else
      var r0 := BoostWeak(d, bloom[..|bloom| - 1]);
      var e := bloom[|bloom| - 1];
      BoostOnePositive(r0, e);
      BoostOne(r0, e)
  }

  lemma BoostOnePositive(d: Dict<real>, e: (string, real))
    ensures Positive(d) ==> Positive(BoostOne(d, e))
  {
    if Positive(d) && e.1 < WeakBloom && e.0 in Keys(d) {
      var r := BoostOne(d, e);
      forall j | 0 <= j < |r| ensures r[j].1 > 0.0 {
        assert r[j] in r;
        if r[j] != (e.0, Get(d, e.0).value * BoostFactor) {
          var j0 :| 0 <= j0 < |d| && d[j0] == r[j];
        } else {
          var i :| 0 <= i < |d| && d[i] == (e.0, Get(d, e.0).value);
        }
      }
    }
  }

  /** The boosted weight of each level is its base weight, boosted when the level is weak. */
  lemma {:induction false} BoostGet(d: Dict<real>, bloom: Dict<real>)
    requires Distinct(bloom)
    ensures forall k :: k in Keys(d) ==> Get(BoostWeak(d, bloom), k) == Some(Boosted(Get(d, k).value, Weak(bloom, k)))
  {
    if |bloom| > 0 {
      var init := bloom[..|bloom| - 1];
      var e := bloom[|bloom| - 1];
      DistinctInit(bloom);
      BoostGet(d, init);
      var r0 := BoostWeak(d, init);
      forall k | k in Keys(d)
        ensures Get(BoostWeak(d, bloom), k) == Some(Boosted(Get(d, k).value, Weak(bloom, k)))
      {
        BoostStep(r0, Get(d, k).value, init, e, k);
      }
    }
  }

  /** One more profile entry, with a key not seen before, settles whether its level is weak. */
  lemma BoostStep(r0: Dict<real>, x: real, init: Dict<real>, e: (string, real), k: string)
    requires e.0 !in Keys(init)
    requires Get(r0, k) == Some(Boosted(x, Weak(init, k)))
    ensures Get(BoostOne(r0, e), k) == Some(Boosted(x, Weak(init + [e], k)))
  {
    GetAppend(init, e);
    if k == e.0 {
      assert !Weak(init, k);
    } else {
      assert Weak(init + [e], k) == Weak(init, k);
    }
  }

  /** The same, position by position. */
  lemma BoostIndex(d: Dict<real>, bloom: Dict<real>)
    requires Distinct(d) && Distinct(bloom)
    ensures forall i :: 0 <= i < |d| ==> BoostWeak(d, bloom)[i].1 == Boosted(d[i].1, Weak(bloom, d[i].0))
  {
    var r := BoostWeak(d, bloom);
    BoostGet(d, bloom);
    forall i | 0 <= i < |d| ensures r[i].1 == Boosted(d[i].1, Weak(bloom, d[i].0)) {
      assert Keys(r)[i] == Keys(d)[i];
      assert d[i].0 in Keys(d);
    }
  }

  /** Without a weak level nothing is boosted. */
  lemma {:induction false} BoostNone(d: Dict<real>, bloom: Dict<real>)
    requires forall i :: 0 <= i < |bloom| ==> bloom[i].1 >= WeakBloom
    ensures BoostWeak(d, bloom) == d
  {
    if |bloom| > 0 {
      BoostNone(d, bloom[..|bloom| - 1]);
    }
  }

  /** A mix to adjust: distinct levels, positive weights summing to 1. */
  ghost predicate IsMix(d: Dict<real>) {
    |d| > 0 && Distinct(d) && Positive(d) && SumValues(d) == 1.0
  }

  /** Weak levels boosted, then every weight divided by the boosted total. */
  function AdjustMix(base: Dict<real>, bloom: Dict<real>): (r: Dict<real>)
    requires IsMix(base)
    ensures Keys(r) == Keys(base)
    ensures IsMix(r)
  {
    var b := BoostWeak(base, bloom);
    var total := SumValues(b);
    SumPositive(b);
    SumScale(b, total);
    ScalePositive(b, total);
    DistinctSameKeys(base, Scale(b, total));
    SelfQuotient(total);
    Scale(b, total)
  }

  /**
   `_adjust_difficulty_distribution`: the base mix of the level with weak
   levels boosted and renormalised, over the base mix's levels.
   */
  function AdjustDistribution(level: Level, bloom: Dict<real>): (r: Dict<real>)
    ensures Keys(r) == Keys(BaseDistribution(level))
    ensures IsMix(r)
  {
    AdjustMix(BaseDistribution(level), bloom)
  }

  lemma ScalePositive(d: Dict<real>, c: real)
    requires Positive(d) && c > 0.0
    ensures Positive(Scale(d, c))
  {
    forall i | 0 <= i < |d| ensures d[i].1 / c > 0.0 {
      PositiveQuotient(d[i].1, c);
    }
  }

  lemma SelfQuotient(x: real)
    requires x > 0.0
    ensures x / x == 1.0
  {
  }

  lemma PositiveQuotient(x: real, c: real)
    requires x > 0.0 && c > 0.0
    ensures x / c > 0.0
  {
  }

  /** Each share is the base weight, boosted when the level is weak, over the boosted total. */
  lemma MixShares(base: Dict<real>, bloom: Dict<real>)
    requires IsMix(base) && Distinct(bloom)
    ensures var total := SumValues(BoostWeak(base, bloom));
      && total > 0.0
      && forall i :: 0 <= i < |base| ==>
           AdjustMix(base, bloom)[i].1 == Boosted(base[i].1, Weak(bloom, base[i].0)) / total
  {
    SumPositive(BoostWeak(base, bloom));
    BoostIndex(base, bloom);
  }

  /** With no weak Bloom level the mix comes back unchanged. */
  lemma NoWeakLevelKeepsMix(base: Dict<real>, bloom: Dict<real>)
    requires IsMix(base)
    requires forall i :: 0 <= i < |bloom| ==> bloom[i].1 >= WeakBloom
    ensures AdjustMix(base, bloom) == base
  {
    BoostNone(base, bloom);
    var r := AdjustMix(base, bloom);
    forall i | 0 <= i < |base| ensures r[i] == base[i] {
      assert Keys(r)[i] == Keys(base)[i];
    }
  }

  /** Boosting some weights and not all keeps the total below 1.2 times the base total. */
  lemma {:induction false} BoostedSumBelow(d: Dict<real>, b: Dict<real>, j: nat)
    requires |d| == |b| && j < |d| && Positive(d)
    requires forall i :: 0 <= i < |d| ==> b[i].1 <= BoostFactor * d[i].1
    requires b[j].1 == d[j].1
    ensures SumValues(b) < BoostFactor * SumValues(d)
  {
    var n := |d|;
    if j == n - 1 {
      BoostedSumAtMost(d[..n - 1], b[..n - 1]);
    } else {
      BoostedSumBelow(d[..n - 1], b[..n - 1], j);
    }
  }

  lemma {:induction false} BoostedSumAtMost(d: Dict<real>, b: Dict<real>)
    requires |d| == |b|
    requires forall i :: 0 <= i < |d| ==> b[i].1 <= BoostFactor * d[i].1
    ensures SumValues(b) <= BoostFactor * SumValues(d)
  {
    if |d| > 0 {
      BoostedSumAtMost(d[..|d| - 1], b[..|b| - 1]);
    }
  }

  /** A positive weight times 1.2, over a total below 1.2, grows. */
  lemma Grows(x: real, total: real)
    requires x > 0.0 && 0.0 < total < BoostFactor
    ensures x * BoostFactor / total > x
  {
    assert x * BoostFactor > x * total;
  }

  /** With some level of the mix not weak, the boosted total stays below 1.2. */
  lemma BoostedTotalBelow(base: Dict<real>, bloom: Dict<real>, j: nat)
    requires IsMix(base) && Distinct(bloom)
    requires j < |base| && !Weak(bloom, base[j].0)
    ensures 0.0 < SumValues(BoostWeak(base, bloom)) < BoostFactor
  {
    var b := BoostWeak(base, bloom);
    BoostIndex(base, bloom);
    forall i | 0 <= i < |base| ensures b[i].1 <= BoostFactor * base[i].1 {
      assert base[i].1 > 0.0;
    }
    BoostedSumBelow(base, b, j);
    SumPositive(b);
  }

  lemma ShareAt(d: Dict<real>, i: nat)
    requires Distinct(d) && i < |d|
    ensures Share(d, d[i].0) == d[i].1
  {
  }

  /**
   A weak Bloom level of the mix gets a larger share than its base weight,
   as long as some level of the mix is not weak.
   */
  lemma WeakLevelGains(base: Dict<real>, bloom: Dict<real>, k: string, j: nat)
    requires IsMix(base) && Distinct(bloom)
    requires k in Keys(base) && Weak(bloom, k)
    requires j < |base| && !Weak(bloom, base[j].0)
    ensures Share(AdjustMix(base, bloom), k) > Share(base, k)
  {
    var r := AdjustMix(base, bloom);
    var total := SumValues(BoostWeak(base, bloom));
    var i := IndexOf(base, k);
    BoostedTotalBelow(base, bloom, j);
    MixShares(base, bloom);
    assert r[i].1 == base[i].1 * BoostFactor / total;
    Grows(base[i].1, total);
    assert Keys(r)[i] == k;
    ShareAt(r, i);
    ShareAt(base, i);
  }
}
