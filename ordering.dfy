/** The list queries' `.sort({ key: -1 }).limit(n)`: order by a timestamp,
    newest first, then keep the first `n`. */
module Ordering {

  ghost predicate SortedDesc<T>(s: seq<T>, key: T -> int) {
    forall i, j :: 0 <= i < j < |s| ==> key(s[i]) >= key(s[j])
  }

  /** Every element of a sequence holding the elements of `u` and `x` is
      bounded by `b` when `x` and the elements of `u` are. */
  lemma BoundedBy<T>(t: seq<T>, u: seq<T>, x: T, key: T -> int, b: int)
    requires multiset(t) == multiset(u) + multiset{x}
    requires key(x) <= b && forall j :: 0 <= j < |u| ==> key(u[j]) <= b
    ensures forall k :: 0 <= k < |t| ==> key(t[k]) <= b
  {
    forall k | 0 <= k < |t| ensures key(t[k]) <= b {
      assert t[k] in multiset(t);
      if t[k] != x {
        assert t[k] in multiset(u);
        var m :| 0 <= m < |u| && u[m] == t[k];
      }
    }
  }

  /** A head no older than the first element of a sorted tail keeps it sorted. */
  lemma ConsSorted<T>(h: T, t: seq<T>, key: T -> int)
    requires SortedDesc(t, key) && (t == [] || key(h) >= key(t[0]))
    ensures SortedDesc([h] + t, key)
  {
    var r := [h] + t;
    forall i, j | 0 <= i < j < |r| ensures key(r[i]) >= key(r[j]) {
      if i == 0 {
        assert r[j] == t[j - 1];
      } else {
        assert r[i] == t[i - 1] && r[j] == t[j - 1];
      }
    }
  }

  /** Puts `x` in front of the first element whose key is smaller. */
  function InsertDesc<T>(x: T, s: seq<T>, key: T -> int): (r: seq<T>)
    requires SortedDesc(s, key)
    ensures SortedDesc(r, key)
    ensures multiset(r) == multiset(s) + multiset{x}
    ensures |r| == |s| + 1
  {
    if s == [] || key(x) >= key(s[0]) then
      ConsSorted(x, s, key);
      [x] + s
    else
      var u := s[1..];
      var t := InsertDesc(x, u, key);
      assert s == [s[0]] + u;
      BoundedBy(t, u, x, key, key(s[0]));
      ConsSorted(s[0], t, key);
      [s[0]] + t
  }

  /** Insertion sort by `key`, newest (largest) first. */
  function SortDesc<T>(s: seq<T>, key: T -> int): (r: seq<T>)
    ensures SortedDesc(r, key)
    ensures multiset(r) == multiset(s)
    ensures |r| == |s|
  {
    if s == [] then []
    else
      assert s == [s[0]] + s[1..];
      InsertDesc(s[0], SortDesc(s[1..], key), key)
  }

  /** `.limit(n)` */
  function Take<T>(s: seq<T>, n: nat): seq<T> {
    if |s| <= n then s else s[..n]
  }

  lemma TakeIsPrefix<T>(s: seq<T>, n: nat)
    ensures |Take(s, n)| == (if |s| <= n then |s| else n)
    ensures Take(s, n) == s[..|Take(s, n)|]
  {
  }

  /** In a sorted sequence, what a prefix leaves out is no newer than
      anything the prefix holds. */
  lemma PrefixHoldsNewest<T>(t: seq<T>, key: T -> int, m: nat, x: T)
    requires SortedDesc(t, key) && m <= |t|
    requires x in t && x !in t[..m]
    ensures forall y :: y in t[..m] ==> key(y) >= key(x)
  {
    var k :| 0 <= k < |t| && t[k] == x;
    assert k >= m;
    forall y | y in t[..m] ensures key(y) >= key(x) {
      var j :| 0 <= j < m && t[..m][j] == y;
      assert t[j] == y;
    }
  }

  lemma PrefixSorted<T>(t: seq<T>, key: T -> int, m: nat)
    requires SortedDesc(t, key) && m <= |t|
    ensures SortedDesc(t[..m], key)
  {
  }

  lemma PrefixSubMultiset<T>(t: seq<T>, m: nat)
    requires m <= |t|
    ensures multiset(t[..m]) <= multiset(t)
  {
    assert t == t[..m] + t[m..];
  }

  /** Sort-then-limit keeps the `n` newest: the result is ordered, holds
      at most `n` elements, each taken from `s`, and anything of `s` it
      leaves out is no newer than everything it keeps. */
  lemma NewestFirst<T>(s: seq<T>, key: T -> int, n: nat)
    ensures var r := Take(SortDesc(s, key), n);
      && |r| == (if |s| <= n then |s| else n)
      && SortedDesc(r, key)
      && multiset(r) <= multiset(s)
      && (forall x :: x in s ==> x in r || (|r| == n && forall y :: y in r ==> key(y) >= key(x)))
  {
    var t := SortDesc(s, key);
    TakeIsPrefix(t, n);
    var r := Take(t, n);
    var m := |r|;
    assert r == t[..m];
    PrefixSorted(t, key, m);
    PrefixSubMultiset(t, m);
    forall x | x in s && x !in r ensures m == n && forall y :: y in r ==> key(y) >= key(x) {
      assert x in multiset(s);
      assert x in multiset(t);
      PrefixHoldsNewest(t, key, m, x);
    }
  }

  /** An element strictly newer than every other one comes first. */
  lemma NewestIsFirst<T>(s: seq<T>, key: T -> int, x: T)
    requires x in s
    requires forall y :: y in s && y != x ==> key(y) < key(x)
    ensures |SortDesc(s, key)| > 0 && SortDesc(s, key)[0] == x
  {
    var t := SortDesc(s, key);
    assert x in multiset(s);
    assert x in t;
    var k :| 0 <= k < |t| && t[k] == x;
    assert t[0] in multiset(s);
    assert t[0] in s;
    assert key(t[0]) >= key(t[k]);
  }

  /** `.limit(n)` with `n > 0` keeps the first element. */
  lemma TakeKeepsFirst<T>(s: seq<T>, n: nat)
    requires n > 0 && |s| > 0
    ensures |Take(s, n)| > 0 && Take(s, n)[0] == s[0]
  {
  }
}
