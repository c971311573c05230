/**
 The `defaultdict(lambda: {'correct': 0, 'total': 0})` grouping that both the
 quiz report and the session summary use: for each key, in order of first
 appearance, how many observations carry it and how many of those were
 correct; and the per-key accuracy dictionary derived from it.
 */
module Tally {
  import opened Common
  import opened Dicts
  import opened Stats

  datatype Bucket = Bucket(key: string, correct: nat, total: nat)

  function BucketKeys(t: seq<Bucket>): (ks: seq<string>)
    ensures |ks| == |t|
    ensures forall i :: 0 <= i < |t| ==> ks[i] == t[i].key
  {
    seq(|t|, i requires 0 <= i < |t| => t[i].key)
  }

  ghost predicate DistinctKeys(t: seq<Bucket>) {
    forall i, j :: 0 <= i < j < |t| ==> t[i].key != t[j].key
  }

  /** Sum of the per-key totals. */
  function SumTotals(t: seq<Bucket>): nat {
    if |t| == 0 then 0 else SumTotals(t[..|t| - 1]) + t[|t| - 1].total
  }

  /** Sum of the per-key correct counts. */
  function SumCorrect(t: seq<Bucket>): nat {
    if |t| == 0 then 0 else SumCorrect(t[..|t| - 1]) + t[|t| - 1].correct
  }

  /** The correctness marks of a sequence of observations. */
  function ObsMarks(obs: seq<(string, bool)>): (bs: seq<bool>)
    ensures |bs| == |obs|
    ensures forall i :: 0 <= i < |obs| ==> bs[i] == obs[i].1
  {
    seq(|obs|, i requires 0 <= i < |obs| => obs[i].1)
  }

  /** How many observations with key k were correct. */
  function CorrectFor(obs: seq<(string, bool)>, k: string): nat {
    if |obs| == 0 then 0
    else CorrectFor(obs[..|obs| - 1], k) + (if obs[|obs| - 1] == (k, true) then 1 else 0)
  }

  /** Position of the bucket for key. */
  function BucketIndex(t: seq<Bucket>, key: string): (i: nat)
    requires key in BucketKeys(t)
    ensures i < |t| && t[i].key == key
  {
    if t[0].key == key then 0
    else
      BucketKeysTail(t, key);
      1 + BucketIndex(t[1..], key)
  }

  lemma BucketKeysTail(t: seq<Bucket>, key: string)
    requires key in BucketKeys(t) && t[0].key != key
    ensures key in BucketKeys(t[1..])
  {
    var i :| 0 <= i < |t| && BucketKeys(t)[i] == key;
    assert BucketKeys(t[1..])[i - 1] == key;
  }

  lemma {:induction false} SumsUpdate(t: seq<Bucket>, i: nat, b: Bucket)
    requires i < |t|
    ensures SumTotals(t[i := b]) == SumTotals(t) - t[i].total + b.total
    ensures SumCorrect(t[i := b]) == SumCorrect(t) - t[i].correct + b.correct
  {
    if i < |t| - 1 {
      assert t[i := b][..|t| - 1] == t[..|t| - 1][i := b];
      SumsUpdate(t[..|t| - 1], i, b);
    } else {
      assert t[i := b][..|t| - 1] == t[..|t| - 1];
    }
  }

  /** What recording one observation does to the buckets. */
  ghost predicate Recorded(t: seq<Bucket>, key: string, ok: bool, r: seq<Bucket>) {
    && DistinctKeys(r)
    && |r| == |t| + (if key in BucketKeys(t) then 0 else 1)
    && (forall k :: k in BucketKeys(r) <==> k in BucketKeys(t) || k == key)
    && SumTotals(r) == SumTotals(t) + 1
    && SumCorrect(r) == SumCorrect(t) + (if ok then 1 else 0)
    && (forall i :: 0 <= i < |t| && t[i].key != key ==> r[i] == t[i])
    && (forall i :: |t| <= i < |r| ==> r[i].key == key)
    && (forall i :: 0 <= i < |r| && r[i].key == key ==>
          r[i].total == 1 + (if i < |t| then t[i].total else 0) &&
          r[i].correct == (if ok then 1 else 0) + (if i < |t| then t[i].correct else 0))
  }

  /** Record one observation: bump the key's bucket, or open one at the end. */
  function Add(t: seq<Bucket>, key: string, ok: bool): (r: seq<Bucket>)
    requires DistinctKeys(t)
    ensures DistinctKeys(r)
    ensures |r| == |t| + (if key in BucketKeys(t) then 0 else 1)
    ensures forall k :: k in BucketKeys(r) <==> k in BucketKeys(t) || k == key
    ensures SumTotals(r) == SumTotals(t) + 1
    ensures SumCorrect(r) == SumCorrect(t) + (if ok then 1 else 0)
    ensures forall i :: 0 <= i < |t| && t[i].key != key ==> r[i] == t[i]
    ensures forall i :: |t| <= i < |r| ==> r[i].key == key
    ensures forall i :: 0 <= i < |r| && r[i].key == key ==>
              r[i].total == 1 + (if i < |t| then t[i].total else 0) &&
              r[i].correct == (if ok then 1 else 0) + (if i < |t| then t[i].correct else 0)
  {
    var bump := if ok then 1 else 0;
    if key in BucketKeys(t) then
      var i := BucketIndex(t, key);
      var r := t[i := Bucket(key, t[i].correct + bump, t[i].total + 1)];
      RecordExisting(t, key, ok, i);
      r
    else
      var r := t + [Bucket(key, bump, 1)];
      RecordNew(t, key, ok);
      r
  }

  lemma RecordExisting(t: seq<Bucket>, key: string, ok: bool, i: nat)
    requires DistinctKeys(t) && i < |t| && t[i].key == key
    ensures Recorded(t, key, ok, t[i := Bucket(key, t[i].correct + (if ok then 1 else 0), t[i].total + 1)])
  {
    var r := t[i := Bucket(key, t[i].correct + (if ok then 1 else 0), t[i].total + 1)];
    SumsUpdate(t, i, r[i]);
    assert BucketKeys(r) == BucketKeys(t);
  }

  lemma RecordNew(t: seq<Bucket>, key: string, ok: bool)
    requires DistinctKeys(t) && key !in BucketKeys(t)
    ensures Recorded(t, key, ok, t + [Bucket(key, if ok then 1 else 0, 1)])
  {
    var r := t + [Bucket(key, if ok then 1 else 0, 1)];
    assert r[..|r| - 1] == t;
    assert BucketKeys(r) == BucketKeys(t) + [key];
  }

  /** Group the observations by key, in order of first appearance. */
  function Build(obs: seq<(string, bool)>): (t: seq<Bucket>)
    ensures DistinctKeys(t)
    ensures SumTotals(t) == |obs|
    ensures SumCorrect(t) == CountTrue(ObsMarks(obs))
    ensures forall k :: k in BucketKeys(t) <==> k in Keys(obs)
  {
    if |obs| == 0 then []
    else
      var init := obs[..|obs| - 1];
      KeysInit(obs);
      assert ObsMarks(init) == ObsMarks(obs)[..|obs| - 1];
      Add(Build(init), obs[|obs| - 1].0, obs[|obs| - 1].1)
  }

  /** Each bucket counts exactly the observations carrying its key. */
  lemma {:induction false} BuildCounts(obs: seq<(string, bool)>)
    ensures forall i :: 0 <= i < |Build(obs)| ==>
              Build(obs)[i].total == Occurrences(Keys(obs), Build(obs)[i].key) &&
              Build(obs)[i].correct == CorrectFor(obs, Build(obs)[i].key)
  {
    if |obs| > 0 {
      BuildCounts(obs[..|obs| - 1]);
      forall i | 0 <= i < |Build(obs)|
        ensures Build(obs)[i].total == Occurrences(Keys(obs), Build(obs)[i].key)
        ensures Build(obs)[i].correct == CorrectFor(obs, Build(obs)[i].key)
      {
        BuildCountsAt(obs, i);
      }
    }
  }

  /** One more observation keeps bucket i counting exactly its key's observations. */
  lemma BuildCountsAt(obs: seq<(string, bool)>, i: nat)
    requires |obs| > 0 && i < |Build(obs)|
    requires var t := Build(obs[..|obs| - 1]);
             i < |t| ==> t[i].total == Occurrences(Keys(obs[..|obs| - 1]), t[i].key)
                         && t[i].correct == CorrectFor(obs[..|obs| - 1], t[i].key)
    ensures Build(obs)[i].total == Occurrences(Keys(obs), Build(obs)[i].key)
    ensures Build(obs)[i].correct == CorrectFor(obs, Build(obs)[i].key)
  {
    var init := obs[..|obs| - 1];
    var e := obs[|obs| - 1];
    FrontLast(obs);
    AddKeepsCounts(init, Build(init), e, i);
  }

  /** Recording e in buckets that count init exactly gives buckets that count init + [e] exactly. */
  lemma AddKeepsCounts(init: seq<(string, bool)>, t: seq<Bucket>, e: (string, bool), i: nat)
    requires DistinctKeys(t) && i < |Add(t, e.0, e.1)|
    requires forall k :: k in BucketKeys(t) <==> k in Keys(init)
    requires i < |t| ==> t[i].total == Occurrences(Keys(init), t[i].key) && t[i].correct == CorrectFor(init, t[i].key)
    ensures Add(t, e.0, e.1)[i].total == Occurrences(Keys(init + [e]), Add(t, e.0, e.1)[i].key)
    ensures Add(t, e.0, e.1)[i].correct == CorrectFor(init + [e], Add(t, e.0, e.1)[i].key)
  {
    var r := Add(t, e.0, e.1);
    var k := r[i].key;
    ObsSnoc(init, e, k);
    if k != e.0 {
      assert i < |t| && r[i] == t[i];
    } else if i < |t| {
      assert t[i].key == k;
    } else {
      assert k !in Keys(init);
      OccurrencesAbsent(Keys(init), k);
      CorrectForAbsent(init, k);
    }
  }

  /** The occurrences and correct marks of a key, one observation at a time. */
  lemma ObsSnoc(init: seq<(string, bool)>, e: (string, bool), k: string)
    ensures Occurrences(Keys(init + [e]), k) == Occurrences(Keys(init), k) + (if e.0 == k then 1 else 0)
    ensures CorrectFor(init + [e], k) == CorrectFor(init, k) + (if e == (k, true) then 1 else 0)
  {
    assert (init + [e])[..|init|] == init;
    assert Keys(init + [e])[..|init|] == Keys(init);
  }

  lemma {:induction false} OccurrencesAbsent(xs: seq<string>, k: string)
    requires k !in xs
    ensures Occurrences(xs, k) == 0
  {
    if |xs| > 0 {
      OccurrencesAbsent(xs[..|xs| - 1], k);
    }
  }

  lemma {:induction false} CorrectForAbsent(obs: seq<(string, bool)>, k: string)
    requires k !in Keys(obs)
    ensures CorrectFor(obs, k) == 0
  {
    if |obs| > 0 {
      assert Keys(obs[..|obs| - 1]) == Keys(obs)[..|obs| - 1];
      assert obs[|obs| - 1].0 != k;
      CorrectForAbsent(obs[..|obs| - 1], k);
    }
  }

  /** Every bucket Build returns holds at least one observation, and no more correct than total. */
  lemma BuildBuckets(obs: seq<(string, bool)>)
    ensures forall i :: 0 <= i < |Build(obs)| ==>
              1 <= Build(obs)[i].total && Build(obs)[i].correct <= Build(obs)[i].total
  {
    var t := Build(obs);
    BuildCounts(obs);
    forall i | 0 <= i < |t| ensures 1 <= t[i].total && t[i].correct <= t[i].total {
      assert t[i].key in BucketKeys(t);
      CorrectForBound(obs, t[i].key);
      OccurrencesPositive(Keys(obs), t[i].key);
    }
  }

  lemma {:induction false} CorrectForBound(obs: seq<(string, bool)>, k: string)
    ensures CorrectFor(obs, k) <= Occurrences(Keys(obs), k)
  {
    if |obs| > 0 {
      assert Keys(obs[..|obs| - 1]) == Keys(obs)[..|obs| - 1];
      CorrectForBound(obs[..|obs| - 1], k);
    }
  }

  lemma {:induction false} OccurrencesPositive(xs: seq<string>, k: string)
    requires k in xs
    ensures Occurrences(xs, k) >= 1
  {
    if xs[|xs| - 1] != k {
      assert xs == xs[..|xs| - 1] + [xs[|xs| - 1]];
      OccurrencesPositive(xs[..|xs| - 1], k);
    }
  }

  /** `{k: correct / total}` for the buckets (`total` is never 0 in a built tally). */
  function Scores(t: seq<Bucket>): (d: Dict<real>)
    ensures Keys(d) == BucketKeys(t)
    ensures forall i :: 0 <= i < |t| ==>
              d[i].1 == if t[i].total > 0 then t[i].correct as real / t[i].total as real else 0.0
  {
    seq(|t|, i requires 0 <= i < |t| =>
      (t[i].key, if t[i].total > 0 then t[i].correct as real / t[i].total as real else 0.0))
  }

  /** Per-key accuracy of the observations: a dictionary with the observed keys, values in [0, 1]. */
  function Accuracy(obs: seq<(string, bool)>): (d: Dict<real>)
    ensures Distinct(d)
    ensures Within01(d)
    ensures forall k :: k in Keys(d) <==> k in Keys(obs)
    ensures AccuracyOf(obs, d)
  {
    AccuracyDistinct(obs);
    AccuracyWithin01(obs);
    AccuracyValues(obs);
    AccuracyKeys(obs);
    Scores(Build(obs))
  }

  lemma AccuracyKeys(obs: seq<(string, bool)>)
    ensures forall k :: k in Keys(Scores(Build(obs))) <==> k in Keys(obs)
  {
  }

  lemma AccuracyDistinct(obs: seq<(string, bool)>)
    ensures Distinct(Scores(Build(obs)))
  {
    var t := Build(obs);
    var d := Scores(t);
    assert Keys(d) == BucketKeys(t);
    forall i, j | 0 <= i < j < |d| ensures d[i].0 != d[j].0 {
      assert d[i].0 == Keys(d)[i] == t[i].key;
      assert d[j].0 == Keys(d)[j] == t[j].key;
    }
  }

  lemma AccuracyWithin01(obs: seq<(string, bool)>)
    ensures Within01(Scores(Build(obs)))
  {
    var t := Build(obs);
    BuildBuckets(obs);
    var d := Scores(t);
    forall i | 0 <= i < |d| ensures 0.0 <= d[i].1 <= 1.0 {
      FractionBounds(t[i].correct, t[i].total);
    }
  }

  /** Each value of d is the share of correct observations among those carrying its key. */
  ghost predicate AccuracyOf(obs: seq<(string, bool)>, d: Dict<real>) {
    forall i :: 0 <= i < |d| ==>
      Occurrences(Keys(obs), d[i].0) > 0 &&
      d[i].1 == CorrectFor(obs, d[i].0) as real / Occurrences(Keys(obs), d[i].0) as real
  }

  lemma AccuracyValues(obs: seq<(string, bool)>)
    ensures AccuracyOf(obs, Scores(Build(obs)))
  {
    var t := Build(obs);
    BuildBuckets(obs);
    BuildCounts(obs);
    var d := Scores(t);
    assert Keys(d) == BucketKeys(t);
    forall i | 0 <= i < |d|
      ensures Occurrences(Keys(obs), d[i].0) > 0
      ensures d[i].1 == CorrectFor(obs, d[i].0) as real / Occurrences(Keys(obs), d[i].0) as real
    {
      var k := t[i].key;
      assert d[i].0 == Keys(d)[i] == k;
      assert t[i].total > 0;
      assert d[i].1 == t[i].correct as real / t[i].total as real;
      assert t[i].correct == CorrectFor(obs, k);
      assert t[i].total == Occurrences(Keys(obs), k);
    }
  }
}
