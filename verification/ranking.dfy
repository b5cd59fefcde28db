/** Leaderboard ordering: a stable sort by a score key, descending, and the
    top-`n` prefix of that order. This is the model of
    `ORDER BY reputation_score DESC LIMIT n` (ties in table scan order) and of
    Python's stable `sorted(..., reverse=True)[:limit]`. */
module Ranking {

  /** Scores never increase along `s`. */
  predicate SortedDesc<T>(s: seq<T>, key: T -> int) {
    forall i, j :: 0 <= i < j < |s| ==> key(s[i]) >= key(s[j])
  }

  /** The elements of `s` whose key is `k`, in the order they occur in `s`:
      one "tie band" of a ranking. */
  function WithKey<T>(s: seq<T>, key: T -> int, k: int): seq<T>
    decreases |s|
  {
    if |s| == 0 then []
    else (if key(s[0]) == k then [s[0]] else []) + WithKey(s[1..], key, k)
  }

  /** Places `x` before the first element of `t` whose key is not larger, so
      `x` precedes every element of equal key already in `t`. */
  function Insert<T(!new)>(x: T, t: seq<T>, key: T -> int): (r: seq<T>)
    requires SortedDesc(t, key)
    ensures |r| == |t| + 1
    ensures forall y :: y in r <==> y == x || y in t
    ensures SortedDesc(r, key)
    ensures multiset(r) == multiset(t) + multiset{x}
    decreases |t|
  {
    if |t| == 0 then [x]
    else if key(x) >= key(t[0]) then [x] + t
    else
      var rest := Insert(x, t[1..], key);
      assert t == [t[0]] + t[1..];
      BelowHead(x, t, rest, key);
      [t[0]] + rest
  }

  /** Whatever `Insert` builds from the tail of a sorted `t` and an `x` scoring
      below its head scores no more than the head. */
  lemma BelowHead<T>(x: T, t: seq<T>, rest: seq<T>, key: T -> int)
    requires SortedDesc(t, key) && |t| > 0 && key(x) < key(t[0])
    requires forall y :: y in rest ==> y == x || y in t[1..]
    ensures forall j :: 0 <= j < |rest| ==> key(rest[j]) <= key(t[0])
  {
    forall j | 0 <= j < |rest|
      ensures key(rest[j]) <= key(t[0])
    {
      assert rest[j] in rest;
      if rest[j] != x {
        var i :| 0 <= i < |t[1..]| && t[1..][i] == rest[j];
        assert t[i + 1] == rest[j];
      }
    }
  }

  /** Insertion sort, stable, descending by `key`. */
  function Sort<T(!new)>(s: seq<T>, key: T -> int): (r: seq<T>)
    ensures |r| == |s|
    ensures SortedDesc(r, key)
    ensures multiset(r) == multiset(s)
    decreases |s|
  {
    if |s| == 0 then []
    else
      assert s == [s[0]] + s[1..];
      Insert(s[0], Sort(s[1..], key), key)
  }

  lemma {:induction false} WithKeyAppend<T>(a: seq<T>, b: seq<T>, key: T -> int, k: int)
    ensures WithKey(a + b, key, k) == WithKey(a, key, k) + WithKey(b, key, k)
    decreases |a|
  {
    if |a| == 0 {
      assert a + b == b;
    } else {
      var ab := a + b;
      assert ab[0] == a[0] && ab[1..] == a[1..] + b;
      WithKeyAppend(a[1..], b, key, k);
      assert WithKey(ab, key, k) == (if key(a[0]) == k then [a[0]] else []) + WithKey(a[1..] + b, key, k);
    }
  }

  /** Inserting `x` into a sorted sequence puts it at the front of its tie band. */
  lemma {:induction false} InsertWithKey<T(!new)>(x: T, t: seq<T>, key: T -> int, k: int)
    requires SortedDesc(t, key)
    ensures WithKey(Insert(x, t, key), key, k)
         == (if key(x) == k then [x] else []) + WithKey(t, key, k)
    decreases |t|
  {
    if |t| == 0 {
      assert Insert(x, t, key) == [x] + t;
      ConsWithKey(x, t, key, k);
    } else if key(x) >= key(t[0]) {
      assert Insert(x, t, key) == [x] + t;
      ConsWithKey(x, t, key, k);
    } else {
      var rest := Insert(x, t[1..], key);
      assert Insert(x, t, key) == [t[0]] + rest;
      InsertWithKey(x, t[1..], key, k);
      ConsWithKey(t[0], rest, key, k);
      ConsWithKey(t[0], t[1..], key, k);
      assert t == [t[0]] + t[1..];
    }
  }

  /** The tie band of `[y] + s`. */
  lemma ConsWithKey<T>(y: T, s: seq<T>, key: T -> int, k: int)
    ensures WithKey([y] + s, key, k) == (if key(y) == k then [y] else []) + WithKey(s, key, k)
  {
    assert ([y] + s)[0] == y && ([y] + s)[1..] == s;
  }

  /** The sort is stable: within every tie band the original order survives. */
  lemma {:induction false} SortStable<T(!new)>(s: seq<T>, key: T -> int, k: int)
    ensures WithKey(Sort(s, key), key, k) == WithKey(s, key, k)
    decreases |s|
  {
    if |s| > 0 {
      SortStable(s[1..], key, k);
      InsertWithKey(s[0], Sort(s[1..], key), key, k);
    }
  }

  /** In a sorted sequence, no element after position `m` scores above an element before it. */
  lemma PrefixDominates<T(!new)>(sorted: seq<T>, key: T -> int, m: nat)
    requires SortedDesc(sorted, key) && m <= |sorted|
    ensures multiset(sorted[..m]) <= multiset(sorted)
    ensures forall y, i :: y in multiset(sorted) - multiset(sorted[..m]) && 0 <= i < m
                      ==> key(y) <= key(sorted[i])
  {
    var r, rest := sorted[..m], sorted[m..];
    assert sorted == r + rest;
    assert multiset(sorted) == multiset(r) + multiset(rest);
    forall y, i | y in multiset(sorted) - multiset(r) && 0 <= i < m
      ensures key(y) <= key(sorted[i])
    {
      assert y in multiset(rest);
      var j :| 0 <= j < |rest| && rest[j] == y;
      assert sorted[m + j] == y;
    }
  }

  /** Every tie band of a prefix of the ranking is a prefix of the tie band of the input. */
  lemma PrefixStable<T(!new)>(s: seq<T>, key: T -> int, m: nat, k: int)
    requires m <= |s|
    ensures WithKey(Sort(s, key)[..m], key, k) <= WithKey(s, key, k)
  {
    var sorted := Sort(s, key);
    assert sorted == sorted[..m] + sorted[m..];
    SortStable(s, key, k);
    WithKeyAppend(sorted[..m], sorted[m..], key, k);
  }

  /** The first `n` entries of the ranking of `s` (all of them if there are fewer). */
  function Top<T(!new)>(s: seq<T>, key: T -> int, n: nat): (r: seq<T>)
    ensures |r| == if n < |s| then n else |s|
    ensures SortedDesc(r, key)
    ensures multiset(r) <= multiset(s)
    ensures forall i :: 0 <= i < |r| ==> r[i] in s
  {
    var sorted := Sort(s, key);
    var m := if n < |s| then n else |s|;
    var r := sorted[..m];
    PrefixDominates(sorted, key, m);
    assert SortedDesc(r, key);
    assert forall i :: 0 <= i < |r| ==> r[i] in s by {
      forall i | 0 <= i < |r| ensures r[i] in s {
        assert r[i] in multiset(r);
      }
    }
    r
  }

  /** Nothing left out of the top `n` scores above anything kept. */
  lemma TopDominates<T(!new)>(s: seq<T>, key: T -> int, n: nat)
    ensures forall y, i :: y in multiset(s) - multiset(Top(s, key, n)) && 0 <= i < |Top(s, key, n)|
                      ==> key(y) <= key(Top(s, key, n)[i])
  {
    var m := if n < |s| then n else |s|;
    PrefixDominates(Sort(s, key), key, m);
  }

  /** Ties are kept in their original order: within each tie band, the top `n`
      are a prefix of the band in `s`. */
  lemma TopStable<T(!new)>(s: seq<T>, key: T -> int, n: nat, k: int)
    ensures WithKey(Top(s, key, n), key, k) <= WithKey(s, key, k)
  {
    var m := if n < |s| then n else |s|;
    PrefixStable(s, key, m, k);
  }

  /** When `n` covers the whole input, the top `n` is a reordering of all of it. */
  lemma TopAll<T(!new)>(s: seq<T>, key: T -> int, n: nat)
    requires |s| <= n
    ensures multiset(Top(s, key, n)) == multiset(s)
  {
    assert Sort(s, key)[..|s|] == Sort(s, key);
  }

  /** Sorting an already ranked sequence changes nothing. */
  lemma {:induction false} SortOfSorted<T(!new)>(s: seq<T>, key: T -> int)
    requires SortedDesc(s, key)
    ensures Sort(s, key) == s
    decreases |s|
  {
    if |s| > 0 {
      SortOfSorted(s[1..], key);
      assert s == [s[0]] + s[1..];
    }
  }

  /** Ranking is idempotent. */
  lemma SortIdempotent<T(!new)>(s: seq<T>, key: T -> int)
    ensures Sort(Sort(s, key), key) == Sort(s, key)
  {
    SortOfSorted(Sort(s, key), key);
  }

  /** Rows built position by position from a ranking, each carrying its
      entry's key, are in the same non-increasing order. */
  lemma RowsFollowRanking<T, R>(top: seq<T>, key: T -> int, rows: seq<R>, rowKey: R -> int)
    requires SortedDesc(top, key)
    requires |rows| == |top| && forall i :: 0 <= i < |top| ==> rowKey(rows[i]) == key(top[i])
    ensures SortedDesc(rows, rowKey)
  {
    forall i, j | 0 <= i < j < |rows| ensures rowKey(rows[i]) >= rowKey(rows[j]) {
      assert key(top[i]) >= key(top[j]);
    }
  }
}
