/**
 Python's `sorted(items, key=lambda x: x[1], reverse=desc)` on pairs whose
 second component is a real score: a stable insertion sort. Each element is
 inserted after every element whose score does not strictly lose to it, so
 elements with equal scores keep their original relative order, as in Python
 (also with `reverse=True`).
 */
module Sorting {

  /** The score as an ascending sort key: negated for a descending sort. */
  function Rank<T>(x: (T, real), desc: bool): real {
    if desc then -x.1 else x.1
  }

  /** x goes strictly before y in the requested direction. */
  predicate Before<T>(x: (T, real), y: (T, real), desc: bool) {
    Rank(x, desc) < Rank(y, desc)
  }

  /** Scores are monotone in the requested direction. */
  ghost predicate Ordered<T>(s: seq<(T, real)>, desc: bool) {
    forall i, j :: 0 <= i < j < |s| ==> Rank(s[i], desc) <= Rank(s[j], desc)
  }

  function Insert<T(==)>(x: (T, real), s: seq<(T, real)>, desc: bool): (r: seq<(T, real)>)
    requires Ordered(s, desc)
    ensures Ordered(r, desc)
    ensures multiset(r) == multiset(s) + multiset{x}
    ensures |r| == |s| + 1
  {
    if |s| == 0 then [x]
    else if Before(x, s[0], desc) then [x] + s
    else
      var t := Insert(x, s[1..], desc);
      InsertHead(x, s, t, desc);
      [s[0]] + t
  }

  lemma InsertHead<T>(x: (T, real), s: seq<(T, real)>, t: seq<(T, real)>, desc: bool)
    requires |s| > 0 && Ordered(s, desc) && !Before(x, s[0], desc)
    requires Ordered(t, desc) && multiset(t) == multiset(s[1..]) + multiset{x}
    ensures Ordered([s[0]] + t, desc)
    ensures multiset([s[0]] + t) == multiset(s) + multiset{x}
  {
    assert s == [s[0]] + s[1..];
    forall e | e in t ensures Rank(s[0], desc) <= Rank(e, desc) {
      assert e in multiset(t);
      if e != x {
        assert e in multiset(s[1..]);
      }
    }
    var r := [s[0]] + t;
    forall i, j | 0 <= i < j < |r| ensures Rank(r[i], desc) <= Rank(r[j], desc) {
      if i == 0 {
        assert r[j] == t[j - 1] && r[j] in t;
      } else {
        assert r[i] == t[i - 1] && r[j] == t[j - 1];
      }
    }
  }

  /** The stable sort of s by score, descending when desc holds. */
  function Sort<T(==)>(s: seq<(T, real)>, desc: bool): (r: seq<(T, real)>)
    ensures Ordered(r, desc)
    ensures multiset(r) == multiset(s)
    ensures |r| == |s|
  {
    if |s| == 0 then []
    else
      assert s == s[..|s| - 1] + [s[|s| - 1]];
      Insert(s[|s| - 1], Sort(s[..|s| - 1], desc), desc)
  }

  /** Every element of a sorted sequence comes from the input. */
  lemma SortMembers<T>(s: seq<(T, real)>, desc: bool)
    ensures forall e :: e in Sort(s, desc) <==> e in s
  {
    var r := Sort(s, desc);
    forall e ensures e in r <==> e in s {
      calc {
        e in r;
        e in multiset(r);
        e in multiset(s);
        e in s;
      }
    }
  }

  /**
   r is a best k of s: min(|s|, k) elements of s, in order, none of them
   behind any element left out.
   */
  ghost predicate IsTop<T>(r: seq<(T, real)>, s: seq<(T, real)>, desc: bool, k: nat) {
    && |r| == (if |s| < k then |s| else k)
    && Ordered(r, desc)
    && multiset(r) <= multiset(s)
    && forall x, y :: x in r && y in multiset(s) - multiset(r) ==> Rank(x, desc) <= Rank(y, desc)
  }

  /** `sorted(s, key=score, reverse=desc)[:k]`. */
  function Top<T(==)>(s: seq<(T, real)>, desc: bool, k: nat): (r: seq<(T, real)>)
    ensures IsTop(r, s, desc, k)
  {
    var sorted := Sort(s, desc);
    var m := if |s| < k then |s| else k;
    TopSplit(sorted, m, desc);
    sorted[..m]
  }

  lemma TopSplit<T>(sorted: seq<(T, real)>, m: nat, desc: bool)
    requires m <= |sorted| && Ordered(sorted, desc)
    ensures Ordered(sorted[..m], desc)
    ensures multiset(sorted) - multiset(sorted[..m]) == multiset(sorted[m..])
    ensures forall x, y :: x in sorted[..m] && y in multiset(sorted[m..]) ==> Rank(x, desc) <= Rank(y, desc)
  {
    assert sorted == sorted[..m] + sorted[m..];
    forall x, y | x in sorted[..m] && y in multiset(sorted[m..]) ensures Rank(x, desc) <= Rank(y, desc) {
      var i :| 0 <= i < m && sorted[i] == x;
      var rest := sorted[m..];
      assert y in rest;
      var j :| 0 <= j < |rest| && rest[j] == y;
      assert sorted[m + j] == y;
    }
  }

  /**
   r is a worst k of s: min(|s|, k) elements of s, in order, none of them
   ahead of any element left out.
   */
  ghost predicate IsBottom<T>(r: seq<(T, real)>, s: seq<(T, real)>, desc: bool, k: nat) {
    && |r| == (if |s| < k then |s| else k)
    && Ordered(r, desc)
    && multiset(r) <= multiset(s)
    && forall x, y :: x in r && y in multiset(s) - multiset(r) ==> Rank(y, desc) <= Rank(x, desc)
  }

  /** `sorted(s, key=score, reverse=desc)[-k:]`. */
  function Bottom<T(==)>(s: seq<(T, real)>, desc: bool, k: nat): (r: seq<(T, real)>)
    ensures IsBottom(r, s, desc, k)
  {
    var sorted := Sort(s, desc);
    var m := if |s| < k then |s| else k;
    BottomSplit(sorted, |s| - m, desc);
    sorted[|s| - m..]
  }

  lemma BottomSplit<T>(sorted: seq<(T, real)>, m: nat, desc: bool)
    requires m <= |sorted| && Ordered(sorted, desc)
    ensures Ordered(sorted[m..], desc)
    ensures multiset(sorted) - multiset(sorted[m..]) == multiset(sorted[..m])
    ensures forall x, y :: x in sorted[m..] && y in multiset(sorted[..m]) ==> Rank(y, desc) <= Rank(x, desc)
  {
    assert sorted == sorted[..m] + sorted[m..];
    var rest := sorted[m..];
    forall x, y | x in rest && y in multiset(sorted[..m]) ensures Rank(y, desc) <= Rank(x, desc) {
      var j :| 0 <= j < |rest| && rest[j] == x;
      assert sorted[m + j] == x;
      var head := sorted[..m];
      assert y in head;
      var i :| 0 <= i < m && head[i] == y;
    }
  }
}
