/**
 Insertion-ordered dictionaries with string keys, as Python's `dict`.
 Iteration order is observable in the learner profile (stable sorts over
 `items()`), so a dictionary is an association list with distinct keys
 rather than a Dafny `map`.
 */
module Dicts {
  import opened Common

  type Dict<V> = seq<(string, V)>

  /** No key occurs twice. */
  ghost predicate Distinct<V>(d: Dict<V>) {
    forall i, j :: 0 <= i < j < |d| ==> d[i].0 != d[j].0
  }

  /** The keys in iteration order. */
  function Keys<V>(d: Dict<V>): (ks: seq<string>)
    ensures |ks| == |d|
    ensures forall i :: 0 <= i < |d| ==> ks[i] == d[i].0
  {
    seq(|d|, i requires 0 <= i < |d| => d[i].0)
  }

  /** Position of the first entry with key k. */
  function IndexOf<V>(d: Dict<V>, k: string): (i: nat)
    requires k in Keys(d)
    ensures i < |d| && d[i].0 == k
    ensures forall j :: 0 <= j < i ==> d[j].0 != k
  {
    if d[0].0 == k then 0
    else
      KeysTail(d, k);
      1 + IndexOf(d[1..], k)
  }

  lemma KeysTail<V>(d: Dict<V>, k: string)
    requires k in Keys(d) && d[0].0 != k
    ensures k in Keys(d[1..])
  {
    var i :| 0 <= i < |d| && Keys(d)[i] == k;
    assert Keys(d[1..])[i - 1] == k;
  }

  /** `d.get(k)`. */
  function Get<V>(d: Dict<V>, k: string): (r: Option<V>)
    ensures r.None? <==> k !in Keys(d)
    ensures r.Some? ==> (k, r.value) in d
    ensures Distinct(d) ==> forall i :: 0 <= i < |d| && d[i].0 == k ==> r == Some(d[i].1)
  {
    if k in Keys(d) then Some(d[IndexOf(d, k)].1) else None
  }

  /** `d[k] = v`: overwrite in place when present, append otherwise. */
  function Put<V>(d: Dict<V>, k: string, v: V): (r: Dict<V>)
    ensures Get(r, k) == Some(v)
    ensures forall k' :: k' != k ==> Get(r, k') == Get(d, k')
    ensures k in Keys(d) ==> Keys(r) == Keys(d)
    ensures k !in Keys(d) ==> Keys(r) == Keys(d) + [k]
    ensures forall p :: p in r ==> p == (k, v) || p in d
    ensures Distinct(d) ==> Distinct(r)
  {
    if k in Keys(d) then
      var i := IndexOf(d, k);
      var r := d[i := (k, v)];
      assert Keys(r) == Keys(d);
      assert IndexOf(r, k) == i by { IndexOfStable(d, r, k, i); }
      r
    else
      var r := d + [(k, v)];
      assert Keys(r) == Keys(d) + [k];
      assert IndexOf(r, k) == |d| by { IndexOfStable(d, r, k, |d|); }
      IndexOfAppend(d, (k, v));
      r
  }

  /** The first position of a key depends only on the keys before it. */
  lemma IndexOfStable<V>(d: Dict<V>, r: Dict<V>, k: string, i: nat)
    requires i < |r| && r[i].0 == k
    requires forall j :: 0 <= j < i ==> r[j].0 != k
    ensures IndexOf(r, k) == i
  {
    assert k in Keys(r);
  }

  /** Appending an entry does not move the keys already present. */
  lemma IndexOfAppend<V>(d: Dict<V>, e: (string, V))
    ensures forall k :: k in Keys(d) ==> k in Keys(d + [e]) && IndexOf(d + [e], k) == IndexOf(d, k)
  {
    forall k | k in Keys(d)
      ensures k in Keys(d + [e]) && IndexOf(d + [e], k) == IndexOf(d, k)
    {
      IndexOfStable(d, d + [e], k, IndexOf(d, k));
    }
  }

  /** Looking up a dictionary extended by one entry with a new key. */
  lemma GetAppend<V>(d: Dict<V>, e: (string, V))
    requires e.0 !in Keys(d)
    ensures Get(d + [e], e.0) == Some(e.1)
    ensures forall k :: k != e.0 ==> Get(d + [e], k) == Get(d, k)
  {
    var r := d + [e];
    assert Keys(r) == Keys(d) + [e.0];
    IndexOfAppend(d, e);
    IndexOfStable(d, r, e.0, |d|);
  }

  /** Dropping the last entry of a dictionary with distinct keys. */
  lemma DistinctInit<V>(d: Dict<V>)
    requires Distinct(d) && |d| > 0
    ensures Distinct(d[..|d| - 1])
    ensures d[|d| - 1].0 !in Keys(d[..|d| - 1])
    ensures d == d[..|d| - 1] + [d[|d| - 1]]
  {
    var n := |d|;
    var init := d[..n - 1];
    forall i, j | 0 <= i < j < |init| ensures init[i].0 != init[j].0 {
      assert init[i] == d[i] && init[j] == d[j];
    }
  }

  /** Any key but the last one is looked up the same with or without the last entry. */
  lemma GetInit<V>(d: Dict<V>, k: string)
    requires Distinct(d) && |d| > 0 && k != d[|d| - 1].0
    ensures Get(d, k) == Get(d[..|d| - 1], k)
    ensures k in Keys(d) <==> k in Keys(d[..|d| - 1])
  {
    DistinctInit(d);
    GetAppend(d[..|d| - 1], d[|d| - 1]);
  }

  /** Distinctness depends on the keys alone. */
  lemma DistinctSameKeys<V, W>(a: Dict<V>, b: Dict<W>)
    requires Keys(a) == Keys(b) && Distinct(a)
    ensures Distinct(b)
  {
    forall i, j | 0 <= i < j < |b| ensures b[i].0 != b[j].0 {
      assert Keys(a)[i] == Keys(b)[i] && Keys(a)[j] == Keys(b)[j];
    }
  }

  /** The keys of two dictionaries one after the other. */
  lemma KeysAppend<V>(a: Dict<V>, b: Dict<V>)
    ensures Keys(a + b) == Keys(a) + Keys(b)
  {
  }

  lemma KeysInit<V>(d: Dict<V>)
    requires |d| > 0
    ensures Keys(d) == Keys(d[..|d| - 1]) + [d[|d| - 1].0]
  {
    assert d == d[..|d| - 1] + [d[|d| - 1]];
    KeysAppend(d[..|d| - 1], [d[|d| - 1]]);
  }

  /** Every value lies in [0, 1]. */
  ghost predicate Within01(d: Dict<real>) {
    forall i :: 0 <= i < |d| ==> 0.0 <= d[i].1 <= 1.0
  }

  /** Storing a value in [0, 1] keeps every value in [0, 1]. */
  lemma PutWithin01(d: Dict<real>, k: string, v: real)
    requires Within01(d) && 0.0 <= v <= 1.0
    ensures Within01(Put(d, k, v))
  {
    var r := Put(d, k, v);
    forall i | 0 <= i < |r| ensures 0.0 <= r[i].1 <= 1.0 {
      assert r[i] in r;
    }
  }

  /** A key of a dictionary with distinct keys has one value. */
  lemma DistinctValue<V>(d: Dict<V>, k: string, v1: V, v2: V)
    requires Distinct(d) && (k, v1) in d && (k, v2) in d
    ensures v1 == v2
  {
  }

  /** `sum(d.values())`. */
  function SumValues(d: Dict<real>): real {
    if |d| == 0 then 0.0 else SumValues(d[..|d| - 1]) + d[|d| - 1].1
  }

  /** `{k: v / c for k, v in d.items()}`. */
  function Scale(d: Dict<real>, c: real): (r: Dict<real>)
    requires c != 0.0
    ensures Keys(r) == Keys(d)
    ensures forall i :: 0 <= i < |d| ==> r[i].1 == d[i].1 / c
  {
    seq(|d|, i requires 0 <= i < |d| => (d[i].0, d[i].1 / c))
  }

  lemma {:induction false} SumScale(d: Dict<real>, c: real)
    requires c != 0.0
    ensures SumValues(Scale(d, c)) == SumValues(d) / c
  {
    if |d| > 0 {
      assert Scale(d, c)[..|d| - 1] == Scale(d[..|d| - 1], c);
      SumScale(d[..|d| - 1], c);
    }
  }

  lemma {:induction false} SumPositive(d: Dict<real>)
    requires |d| > 0
    requires forall i :: 0 <= i < |d| ==> d[i].1 > 0.0
    ensures SumValues(d) > 0.0
  {
    if |d| > 1 {
      SumPositive(d[..|d| - 1]);
    }
  }
}
