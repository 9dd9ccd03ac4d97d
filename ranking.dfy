/**
 * Leaderboard ordering shared by the client fallback and the server: `Array.prototype.sort` with
 * the comparator `(a, b) => b.score - a.score`, which is stable, followed by `slice(0, 5)`.
 * The sort is given by its result (a stable insertion sort); its meaning is proved as lemmas:
 * descending by key, a permutation, and equal keys keep their input order.
 */
module Ranking {

  /** Descending by `key`. */
  predicate SortedDesc<T>(s: seq<T>, key: T -> int) {
    forall i, j :: 0 <= i < j < |s| ==> key(s[i]) >= key(s[j])
  }

  /** Places `x` after every entry whose key is at least `key(x)`. */
  function Insert<T>(t: seq<T>, x: T, key: T -> int): (r: seq<T>)
    ensures |r| == |t| + 1
  {
    if t == [] then [x]
    else if key(t[0]) < key(x) then [x] + t
    else [t[0]] + Insert(t[1..], x, key)
  }

  /** The order `sort` with the comparator `b.score - a.score` leaves: each entry inserted in turn. */
  function SortDesc<T>(s: seq<T>, key: T -> int): (r: seq<T>)
    ensures |r| == |s|
  {
    if s == [] then [] else Insert(SortDesc(s[..|s| - 1], key), s[|s| - 1], key)
  }

  /** The entries of `s` whose key is `v`, in order. */
  function WithKey<T>(s: seq<T>, key: T -> int, v: int): seq<T> {
    if s == [] then []
    else WithKey(s[..|s| - 1], key, v) + (if key(s[|s| - 1]) == v then [s[|s| - 1]] else [])
  }

  /** Inserting an entry keyed at most `b` into entries keyed at most `b` keeps every key at most `b`. */
  lemma {:induction false} InsertBounded<T>(t: seq<T>, x: T, key: T -> int, b: int)
    requires forall i :: 0 <= i < |t| ==> key(t[i]) <= b
    requires key(x) <= b
    ensures forall i :: 0 <= i < |Insert(t, x, key)| ==> key(Insert(t, x, key)[i]) <= b
    decreases |t|
  {
    if t != [] && key(t[0]) >= key(x) {
      InsertBounded(t[1..], x, key, b);
      var r := Insert(t, x, key);
      assert forall i :: 1 <= i < |r| ==> r[i] == Insert(t[1..], x, key)[i - 1];
    }
  }

  lemma {:induction false} InsertPermutes<T>(t: seq<T>, x: T, key: T -> int)
    ensures multiset(Insert(t, x, key)) == multiset(t) + multiset{x}
    decreases |t|
  {
    if t != [] && key(t[0]) >= key(x) {
      InsertPermutes(t[1..], x, key);
      assert t == [t[0]] + t[1..];
    }
  }

  lemma {:induction false} InsertSorted<T>(t: seq<T>, x: T, key: T -> int)
    requires SortedDesc(t, key)
    ensures SortedDesc(Insert(t, x, key), key)
    decreases |t|
  {
    if t != [] && key(t[0]) >= key(x) {
      var rest := Insert(t[1..], x, key);
      assert SortedDesc(t[1..], key);
      InsertSorted(t[1..], x, key);
      InsertBounded(t[1..], x, key, key(t[0]));
      var r := [t[0]] + rest;
      forall i, j | 0 <= i < j < |r| ensures key(r[i]) >= key(r[j]) {
        assert r[j] == rest[j - 1];
        if i > 0 {
          assert r[i] == rest[i - 1];
        }
      }
    }
  }

  /** The sort yields a descending order. */
  lemma {:induction false} SortDescSorted<T>(s: seq<T>, key: T -> int)
    ensures SortedDesc(SortDesc(s, key), key)
    decreases |s|
  {
    if s != [] {
      SortDescSorted(s[..|s| - 1], key);
      InsertSorted(SortDesc(s[..|s| - 1], key), s[|s| - 1], key);
    }
  }

  /** The sort only reorders. */
  lemma {:induction false} SortDescPermutes<T>(s: seq<T>, key: T -> int)
    ensures multiset(SortDesc(s, key)) == multiset(s)
    decreases |s|
  {
    if s != [] {
      SortDescPermutes(s[..|s| - 1], key);
      InsertPermutes(SortDesc(s[..|s| - 1], key), s[|s| - 1], key);
      assert s == s[..|s| - 1] + [s[|s| - 1]];
    }
  }

  lemma {:induction false} WithKeyAppend<T>(a: seq<T>, b: seq<T>, key: T -> int, v: int)
    ensures WithKey(a + b, key, v) == WithKey(a, key, v) + WithKey(b, key, v)
    decreases |b|
  {
    if b == [] {
      assert a + b == a;
    } else {
      var b' := b[..|b| - 1];
      assert (a + b)[..|a + b| - 1] == a + b';
      WithKeyAppend(a, b', key, v);
    }
  }

  lemma {:induction false} WithKeyBelow<T>(t: seq<T>, key: T -> int, v: int)
    requires SortedDesc(t, key) && t != [] && key(t[0]) < v
    ensures WithKey(t, key, v) == []
    decreases |t|
  {
    if |t| > 1 {
      WithKeyBelow(t[..|t| - 1], key, v);
    }
  }

  /** Inserting in front of a sorted list whose head has a smaller key. */
  lemma InsertFrontWithKey<T>(t: seq<T>, x: T, key: T -> int, v: int)
    requires SortedDesc(t, key) && t != [] && key(t[0]) < key(x)
    ensures WithKey([x] + t, key, v) == WithKey(t, key, v) + WithKey([x], key, v)
  {
    WithKeyAppend([x], t, key, v);
    if key(x) == v {
      WithKeyBelow(t, key, v);
    }
  }

  lemma {:induction false} InsertWithKey<T>(t: seq<T>, x: T, key: T -> int, v: int)
    requires SortedDesc(t, key)
    ensures WithKey(Insert(t, x, key), key, v) == WithKey(t, key, v) + WithKey([x], key, v)
    decreases |t|
  {
    if t == [] {
      assert Insert(t, x, key) == [x];
    } else if key(t[0]) < key(x) {
      InsertFrontWithKey(t, x, key, v);
    } else {
      var h, rest := [t[0]], t[1..];
      assert SortedDesc(rest, key);
      calc {
        WithKey(Insert(t, x, key), key, v);
        { assert Insert(t, x, key) == h + Insert(rest, x, key); }
        WithKey(h + Insert(rest, x, key), key, v);
        { WithKeyAppend(h, Insert(rest, x, key), key, v); }
        WithKey(h, key, v) + WithKey(Insert(rest, x, key), key, v);
        { InsertWithKey(rest, x, key, v); }
        WithKey(h, key, v) + (WithKey(rest, key, v) + WithKey([x], key, v));
        { WithKeyAppend(h, rest, key, v); assert h + rest == t; }
        WithKey(t, key, v) + WithKey([x], key, v);
      }
    }
  }

  /** Stability: among entries with equal keys the sort keeps the input order. */
  lemma {:induction false} SortDescStable<T>(s: seq<T>, key: T -> int, v: int)
    ensures WithKey(SortDesc(s, key), key, v) == WithKey(s, key, v)
    decreases |s|
  {
    if s != [] {
      var init := s[..|s| - 1];
      SortDescStable(init, key, v);
      SortDescSorted(init, key);
      InsertWithKey(SortDesc(init, key), s[|s| - 1], key, v);
      assert [s[|s| - 1]][..0] == [];
    }
  }

  /** `slice(0, n)`. */
  function Take<T>(s: seq<T>, n: nat): (r: seq<T>)
    ensures |r| == if |s| < n then |s| else n
    ensures r <= s
  {
    if |s| <= n then s else s[..n]
  }

  /**
   * The kept entries are the best: sorted, no kept entry scores below a dropped one, and kept plus
   * dropped is exactly the input.
   */
  lemma TopKeepsBest<T>(s: seq<T>, key: T -> int, n: nat)
    ensures var r := SortDesc(s, key);
      SortedDesc(Take(r, n), key) &&
      (forall i, j :: 0 <= i < |Take(r, n)| <= j < |r| ==> key(r[i]) >= key(r[j])) &&
      multiset(Take(r, n)) + multiset(r[|Take(r, n)|..]) == multiset(s)
  {
    var r := SortDesc(s, key);
    SortDescSorted(s, key);
    SortDescPermutes(s, key);
    var t := Take(r, n);
    assert r == t + r[|t|..];
  }

  /** How many entries of `s` have a key of at least `v`. */
  function CountAtLeast<T>(s: seq<T>, key: T -> int, v: int): (c: nat)
    ensures c <= |s|
  {
    if s == [] then 0 else (if key(s[0]) >= v then 1 else 0) + CountAtLeast(s[1..], key, v)
  }

  lemma {:induction false} CountAtLeastAppend<T>(a: seq<T>, b: seq<T>, key: T -> int, v: int)
    ensures CountAtLeast(a + b, key, v) == CountAtLeast(a, key, v) + CountAtLeast(b, key, v)
    decreases |a|
  {
    if a == [] {
      assert a + b == b;
    } else {
      assert (a + b)[1..] == a[1..] + b;
      CountAtLeastAppend(a[1..], b, key, v);
    }
  }

  lemma {:induction false} CountBelowHead<T>(t: seq<T>, key: T -> int, v: int)
    requires SortedDesc(t, key) && t != [] && key(t[0]) < v
    ensures CountAtLeast(t, key, v) == 0
    decreases |t|
  {
    if |t| > 1 {
      assert SortedDesc(t[1..], key);
      assert key(t[1]) <= key(t[0]);
      CountBelowHead(t[1..], key, v);
    }
  }

  lemma {:induction false} CountAllAbove<T>(t: seq<T>, key: T -> int, v: int)
    requires forall i :: 0 <= i < |t| ==> key(t[i]) >= v
    ensures CountAtLeast(t, key, v) == |t|
    decreases |t|
  {
    if t != [] {
      assert forall i :: 0 <= i < |t| - 1 ==> t[1..][i] == t[i + 1];
      CountAllAbove(t[1..], key, v);
    }
  }

  /** In a descending list, `x` is inserted right after the entries keyed at least as high. */
  lemma {:induction false} InsertAt<T>(t: seq<T>, x: T, key: T -> int)
    requires SortedDesc(t, key)
    ensures var p := CountAtLeast(t, key, key(x));
      Insert(t, x, key) == t[..p] + [x] + t[p..]
    decreases |t|
  {
    if t == [] {
    } else if key(t[0]) < key(x) {
      CountBelowHead(t, key, key(x));
    } else {
      assert SortedDesc(t[1..], key);
      InsertAt(t[1..], x, key);
      var p := CountAtLeast(t, key, key(x));
      assert t[1..][..p - 1] == t[1..p];
      assert t[1..][p - 1..] == t[p..];
      assert [t[0]] + t[1..p] == t[..p];
    }
  }

  lemma {:induction false} InsertCount<T>(t: seq<T>, x: T, key: T -> int, v: int)
    ensures CountAtLeast(Insert(t, x, key), key, v) == CountAtLeast(t, key, v) + CountAtLeast([x], key, v)
    decreases |t|
  {
    if t == [] {
    } else if key(t[0]) < key(x) {
      assert ([x] + t)[1..] == t;
    } else {
      InsertCount(t[1..], x, key, v);
      assert ([t[0]] + Insert(t[1..], x, key))[1..] == Insert(t[1..], x, key);
    }
  }

  /** Sorting does not change how many entries reach a key. */
  lemma {:induction false} SortDescCount<T>(s: seq<T>, key: T -> int, v: int)
    ensures CountAtLeast(SortDesc(s, key), key, v) == CountAtLeast(s, key, v)
    decreases |s|
  {
    if s != [] {
      var init := s[..|s| - 1];
      SortDescCount(init, key, v);
      InsertCount(SortDesc(init, key), s[|s| - 1], key, v);
      CountAtLeastAppend(init, [s[|s| - 1]], key, v);
      assert init + [s[|s| - 1]] == s;
    }
  }

  /** A list already in descending order is left as it is. */
  lemma {:induction false} SortDescOfSorted<T>(s: seq<T>, key: T -> int)
    requires SortedDesc(s, key)
    ensures SortDesc(s, key) == s
    decreases |s|
  {
    if s != [] {
      var init := s[..|s| - 1];
      assert SortedDesc(init, key);
      SortDescOfSorted(init, key);
      InsertAt(init, s[|s| - 1], key);
      CountAllAbove(init, key, key(s[|s| - 1]));
      assert init + [s[|s| - 1]] == s;
    }
  }

  /**
   * Adding `x` at the end and keeping the best `n`: `x` lands right after the `p` entries of `s`
   * keyed at least as high, so it is kept exactly when `p < n`, and when it is not kept the result
   * is the best `n` of `s` alone.
   */
  lemma TopAdmits<T>(s: seq<T>, x: T, key: T -> int, n: nat)
    ensures var r := Take(SortDesc(s + [x], key), n);
      var p := CountAtLeast(s, key, key(x));
      (p < n ==> p < |r| && r[p] == x) &&
      (p >= n ==> r == Take(SortDesc(s, key), n))
  {
    assert (s + [x])[..|s|] == s;
    var t := SortDesc(s, key);
    SortDescSorted(s, key);
    InsertAt(t, x, key);
    SortDescCount(s, key, key(x));
    var p := CountAtLeast(s, key, key(x));
    var u := t[..p] + [x] + t[p..];
    assert SortDesc(s + [x], key) == u;
    if p < n {
      assert u[p] == x;
    } else {
      assert u[..n] == t[..n];
    }
  }

  /** `findIndex`: the first position satisfying `p`, if any. */
  function FindIndex<T>(s: seq<T>, p: T -> bool): (k: int)
    ensures -1 <= k < |s|
    ensures k >= 0 ==> p(s[k])
    ensures forall j :: 0 <= j < |s| && (k < 0 || j < k) ==> !p(s[j])
  {
    if s == [] then -1
    else if p(s[0]) then 0
    else
      var k := FindIndex(s[1..], p);
      assert forall j :: 1 <= j < |s| ==> s[j] == s[1..][j - 1];
      if k < 0 then -1 else k + 1
  }
}
