/**
 * The `Array.prototype` operations the application chains together:
 * `filter`, `slice(0, end)` and a stable `sort` on a numeric key.
 */
module Seqs {

  /** `xs.filter(p)`. */
  function Filter<T>(s: seq<T>, p: T -> bool): (r: seq<T>)
    ensures |r| <= |s|
    ensures forall i :: 0 <= i < |r| ==> p(r[i])
  {
    if s == [] then [] else (if p(s[0]) then [s[0]] else []) + Filter(s[1..], p)
  }

  /** A property every element has, every kept element has. */
  lemma {:induction false} FilterAll<T>(s: seq<T>, p: T -> bool, q: T -> bool)
    requires forall i :: 0 <= i < |s| ==> q(s[i])
    ensures forall i :: 0 <= i < |Filter(s, p)| ==> q(Filter(s, p)[i])
  {
    if s != [] {
      FilterAll(s[1..], p, q);
    }
  }

  /** Every element that passes the test is kept. */
  lemma {:induction false} FilterKeeps<T>(s: seq<T>, p: T -> bool, i: nat)
    requires i < |s| && p(s[i])
    ensures s[i] in Filter(s, p)
  {
    if i > 0 {
      FilterKeeps(s[1..], p, i - 1);
    }
  }

  /** `a` is obtained from `b` by deleting elements, the rest keeping their order. */
  predicate IsSubsequence<T(==)>(a: seq<T>, b: seq<T>) {
    if a == [] then true
    else if b == [] then false
    else if a[0] == b[0] then IsSubsequence(a[1..], b[1..])
    else IsSubsequence(a, b[1..])
  }

  lemma {:induction false} FilterIsSubsequence<T>(s: seq<T>, p: T -> bool)
    ensures IsSubsequence(Filter(s, p), s)
  {
    if s != [] {
      FilterIsSubsequence(s[1..], p);
      var r := Filter(s, p);
      if p(s[0]) {
        assert r[0] == s[0] && r[1..] == Filter(s[1..], p);
      } else {
        assert r == Filter(s[1..], p);
        if r != [] {
          assert p(r[0]) && r[0] != s[0];
        }
      }
    }
  }

  lemma {:induction false} FilterAppend<T>(a: seq<T>, b: seq<T>, p: T -> bool)
    ensures Filter(a + b, p) == Filter(a, p) + Filter(b, p)
  {
    if a == [] {
      assert a + b == b;
    } else {
      assert (a + b)[0] == a[0] && (a + b)[1..] == a[1..] + b;
      FilterAppend(a[1..], b, p);
    }
  }

  /** Two filters in a row keep what the conjunction keeps. */
  lemma {:induction false} FilterTwice<T>(s: seq<T>, p: T -> bool, q: T -> bool, pq: T -> bool)
    requires forall x :: pq(x) == (p(x) && q(x))
    ensures Filter(Filter(s, p), q) == Filter(s, pq)
  {
    if s != [] {
      FilterTwice(s[1..], p, q, pq);
      var t := Filter(s, p);
      assert Filter(s, pq) == (if pq(s[0]) then [s[0]] else []) + Filter(s[1..], pq);
      if p(s[0]) {
        assert t[0] == s[0] && t[1..] == Filter(s[1..], p);
        assert Filter(t, q) == (if q(s[0]) then [s[0]] else []) + Filter(t[1..], q);
      } else {
        assert t == Filter(s[1..], p);
      }
    }
  }

  /** A filter that every element passes keeps the whole sequence. */
  lemma FilterKeepsAll<T>(s: seq<T>, p: T -> bool)
    requires forall x :: x in s ==> p(x)
    ensures Filter(s, p) == s
  {
  }

  /** A rejected element between a kept one and kept ones is the only one dropped. */
  lemma FilterDropsSecond<T>(a: T, b: T, rest: seq<T>, p: T -> bool)
    requires p(a) && !p(b) && forall x :: x in rest ==> p(x)
    ensures Filter([a, b] + rest, p) == [a] + rest
  {
    var s := [a, b] + rest;
    assert s[1..][1..] == rest;
    FilterKeepsAll(rest, p);
  }

  /** `xs.slice(0, end)`: a negative `end` counts from the back. */
  function Take<T>(s: seq<T>, end: int): (r: seq<T>)
    ensures |r| <= |s| && r == s[..|r|]
    ensures end >= 0 ==> |r| == if end <= |s| then end else |s|
    ensures end < 0 ==> |r| == if |s| + end >= 0 then |s| + end else 0
  {
    if end >= 0 then (if end <= |s| then s[..end] else s)
    else if |s| + end >= 0 then s[..|s| + end]
    else []
  }

  /** Ordered from the largest key to the smallest. */
  ghost predicate SortedDesc<T>(s: seq<T>, key: T -> int) {
    forall i, j :: 0 <= i < j < |s| ==> key(s[i]) >= key(s[j])
  }

  /** The elements whose key is exactly `k`, in order. */
  function WithKey<T, K(==)>(s: seq<T>, key: T -> K, k: K): seq<T> {
    if s == [] then [] else (if key(s[0]) == k then [s[0]] else []) + WithKey(s[1..], key, k)
  }

  ghost predicate KeysAtMost<T>(s: seq<T>, key: T -> int, k: int) {
    forall i :: 0 <= i < |s| ==> key(s[i]) <= k
  }

  /** Puts `x` after every element whose key is at least its own. */
  function InsertDesc<T>(x: T, s: seq<T>, key: T -> int): seq<T> {
    if s == [] then [x]
    else if key(x) > key(s[0]) then [x] + s
    else [s[0]] + InsertDesc(x, s[1..], key)
  }

  lemma {:induction false} InsertDescPermutes<T>(x: T, s: seq<T>, key: T -> int)
    ensures multiset(InsertDesc(x, s, key)) == multiset(s) + multiset{x}
  {
    if s != [] && key(x) <= key(s[0]) {
      InsertDescPermutes(x, s[1..], key);
      assert s == [s[0]] + s[1..];
    }
  }

  lemma {:induction false} InsertDescKeysAtMost<T>(x: T, s: seq<T>, key: T -> int, k: int)
    requires KeysAtMost(s, key, k) && key(x) <= k
    ensures KeysAtMost(InsertDesc(x, s, key), key, k)
  {
    if s != [] && key(x) <= key(s[0]) {
      InsertDescKeysAtMost(x, s[1..], key, k);
    }
  }

  lemma {:induction false} InsertDescSorted<T>(x: T, s: seq<T>, key: T -> int)
    requires SortedDesc(s, key)
    ensures SortedDesc(InsertDesc(x, s, key), key)
  {
    if s != [] && key(x) <= key(s[0]) {
      InsertDescSorted(x, s[1..], key);
      InsertDescKeysAtMost(x, s[1..], key, key(s[0]));
    }
  }

  /**
   * A stable sort on descending key, as `sort((a, b) => key(b) - key(a))`
   * does it: elements are inserted one by one from the front, each after
   * every earlier element with a key at least its own.
   */
  function SortDesc<T>(s: seq<T>, key: T -> int): (r: seq<T>)
    ensures SortedDesc(r, key)
  {
    if s == [] then []
    else
      var sorted := SortDesc(s[..|s| - 1], key);
      InsertDescSorted(s[|s| - 1], sorted, key);
      InsertDesc(s[|s| - 1], sorted, key)
  }

  /** `SortDesc` only reorders: the result is a permutation of the input. */
  lemma {:induction false} SortDescPermutes<T>(s: seq<T>, key: T -> int)
    ensures multiset(SortDesc(s, key)) == multiset(s)
  {
    if s != [] {
      var init, last := s[..|s| - 1], s[|s| - 1];
      var sorted := SortDesc(init, key);
      assert SortDesc(s, key) == InsertDesc(last, sorted, key);
      SortDescPermutes(init, key);
      InsertDescPermutes(last, sorted, key);
      assert s == init + [last];
      assert multiset(s) == multiset(init) + multiset{last};
    }
  }

  lemma {:induction false} WithKeyAppend<T, K>(a: seq<T>, b: seq<T>, key: T -> K, k: K)
    ensures WithKey(a + b, key, k) == WithKey(a, key, k) + WithKey(b, key, k)
  {
    if a == [] {
      assert a + b == b;
    } else {
      var c := a + b;
      assert c[0] == a[0] && c[1..] == a[1..] + b;
      var head := if key(a[0]) == k then [a[0]] else [];
      assert WithKey(c, key, k) == head + WithKey(c[1..], key, k);
      assert WithKey(a, key, k) == head + WithKey(a[1..], key, k);
      WithKeyAppend(a[1..], b, key, k);
    }
  }

  lemma {:induction false} WithKeyAbsent<T>(s: seq<T>, key: T -> int, k: int)
    requires forall i :: 0 <= i < |s| ==> key(s[i]) < k
    ensures WithKey(s, key, k) == []
  {
    if s != [] { WithKeyAbsent(s[1..], key, k); }
  }

  lemma {:induction false} InsertDescWithKey<T>(x: T, s: seq<T>, key: T -> int, k: int)
    requires SortedDesc(s, key)
    ensures WithKey(InsertDesc(x, s, key), key, k)
         == WithKey(s, key, k) + (if key(x) == k then [x] else [])
  {
    if s == [] {
    } else if key(x) > key(s[0]) {
      var r := [x] + s;
      assert r[0] == x && r[1..] == s;
      if key(x) == k { WithKeyAbsent(s, key, k); }
    } else {
      var t := InsertDesc(x, s[1..], key);
      var r := [s[0]] + t;
      assert r[0] == s[0] && r[1..] == t;
      InsertDescWithKey(x, s[1..], key, k);
    }
  }

  /** Stability: among elements with equal keys, `SortDesc` keeps the input order. */
  lemma {:induction false} SortDescStable<T>(s: seq<T>, key: T -> int, k: int)
    ensures WithKey(SortDesc(s, key), key, k) == WithKey(s, key, k)
  {
    if s != [] {
      var init, last := s[..|s| - 1], s[|s| - 1];
      SortDescStable(init, key, k);
      InsertDescWithKey(last, SortDesc(init, key), key, k);
      SortDescSnoc(s, key);
      WithKeySnoc(init, last, key, k);
      assert s == init + [last];
    }
  }

  lemma SortDescSnoc<T>(s: seq<T>, key: T -> int)
    requires s != []
    ensures SortDesc(s, key) == InsertDesc(s[|s| - 1], SortDesc(s[..|s| - 1], key), key)
  {
  }

  lemma WithKeySnoc<T, K>(init: seq<T>, last: T, key: T -> K, k: K)
    ensures WithKey(init + [last], key, k) == WithKey(init, key, k) + (if key(last) == k then [last] else [])
  {
    WithKeyAppend(init, [last], key, k);
    assert [last][1..] == [];
  }
  /** Taking a prefix keeps only elements of the whole, each at most as often. */
  lemma TakeSubMultiset<T>(s: seq<T>, n: int)
    ensures multiset(Take(s, n)) <= multiset(s)
  {
    var r := Take(s, n);
    assert s == r + s[|r|..];
  }

  /** Every kept element is an element of the input. */
  lemma FilterMember<T>(s: seq<T>, p: T -> bool, x: T)
    requires x in Filter(s, p)
    ensures x in s
  {
    var i :| 0 <= i < |Filter(s, p)| && Filter(s, p)[i] == x;
    FilterIsSubsequenceMember(s, p, i);
  }

  /** Every kept element is an element of the input. */
  lemma FilterIsSubsequenceMember<T>(s: seq<T>, p: T -> bool, i: nat)
    requires i < |Filter(s, p)|
    ensures Filter(s, p)[i] in s
  {
    FilterIsSubsequence(s, p);
    SubsequenceMember(Filter(s, p), s, i);
  }

  lemma {:induction false} SubsequenceMember<T>(a: seq<T>, b: seq<T>, i: nat)
    requires IsSubsequence(a, b) && i < |a|
    ensures a[i] in b
  {
    if a[0] == b[0] {
      if i > 0 { SubsequenceMember(a[1..], b[1..], i - 1); }
    } else {
      SubsequenceMember(a, b[1..], i);
    }
  }

  /** Being a subsequence is transitive. */
  lemma {:induction false} SubsequenceTrans<T>(a: seq<T>, b: seq<T>, c: seq<T>)
    requires IsSubsequence(a, b) && IsSubsequence(b, c)
    ensures IsSubsequence(a, c)
    decreases |c|
  {
    if a != [] {
      if b[0] == c[0] {
        if a[0] == b[0] {
          SubsequenceTrans(a[1..], b[1..], c[1..]);
        } else {
          SubsequenceTrans(a, b[1..], c[1..]);
        }
      } else {
        SubsequenceTrans(a, b, c[1..]);
        SubsequenceCons(a, c);
      }
    }
  }

  /** Dropping the first element keeps a subsequence. */
  lemma {:induction false} SubsequenceTail<T>(a: seq<T>, b: seq<T>)
    requires a != [] && IsSubsequence(a, b)
    ensures IsSubsequence(a[1..], b)
    decreases |a| + |b|, 1
  {
    if a[0] == b[0] {
      SubsequenceCons(a[1..], b);
    } else {
      SubsequenceTail(a, b[1..]);
      SubsequenceCons(a[1..], b);
    }
  }

  /** A subsequence of the tail is a subsequence of the whole. */
  lemma {:induction false} SubsequenceCons<T>(a: seq<T>, c: seq<T>)
    requires c != [] && IsSubsequence(a, c[1..])
    ensures IsSubsequence(a, c)
    decreases |a| + |c|, 0
  {
    if a != [] && a[0] == c[0] {
      SubsequenceTail(a, c[1..]);
    }
  }

  /** A prefix of a sequence sorted by descending key is sorted too. */
  lemma TakeSortedDesc<T>(s: seq<T>, key: T -> int, n: int)
    requires SortedDesc(s, key)
    ensures SortedDesc(Take(s, n), key)
  {
  }

  /**
   * Cutting a sequence sorted by descending key to its first `n` elements keeps
   * the top of it: every element left out ranks at or below every element kept.
   */
  lemma TakeSortedTop<T>(s: seq<T>, key: T -> int, n: int)
    requires SortedDesc(s, key)
    ensures forall x, y :: x in multiset(s) - multiset(Take(s, n)) && y in Take(s, n) ==> key(x) <= key(y)
  {
    var r := Take(s, n);
    var rest := s[|r|..];
    assert s == r + rest;
    forall x, y | x in multiset(s) - multiset(r) && y in r ensures key(x) <= key(y) {
      assert x in multiset(rest);
      var j :| 0 <= j < |rest| && rest[j] == x;
      var i :| 0 <= i < |r| && r[i] == y;
      assert s[i] == y && s[|r| + j] == x;
    }
  }

  /** The first `n` of a descending sort are the `n` elements with the largest keys. */
  lemma SortDescTop<T>(s: seq<T>, key: T -> int, n: int)
    ensures var r := Take(SortDesc(s, key), n);
      forall x, y :: x in multiset(s) - multiset(r) && y in r ==> key(x) <= key(y)
  {
    SortDescPermutes(s, key);
    TakeSortedTop(SortDesc(s, key), key, n);
  }

  /** No element occurs twice. */
  predicate Distinct<T(==)>(s: seq<T>) {
    forall i, j :: 0 <= i < j < |s| ==> s[i] != s[j]
  }

  lemma {:induction false} SubsequenceRefl<T>(s: seq<T>)
    ensures IsSubsequence(s, s)
  {
    if s != [] {
      SubsequenceRefl(s[1..]);
    }
  }

  /** An element is kept exactly when it is in the input and passes the test. */
  lemma FilterMemberIff<T>(s: seq<T>, p: T -> bool, x: T)
    ensures x in Filter(s, p) <==> x in s && p(x)
  {
    if x in Filter(s, p) {
      FilterMember(s, p, x);
    }
    if x in s && p(x) {
      var i :| 0 <= i < |s| && s[i] == x;
      FilterKeeps(s, p, i);
    }
  }

  /** A prefix of a subsequence is a subsequence. */
  lemma {:induction false} PrefixSubsequence<T>(a: seq<T>, b: seq<T>, n: nat)
    requires IsSubsequence(a, b) && n <= |a|
    ensures IsSubsequence(a[..n], b)
  {
    if n > 0 {
      if a[0] == b[0] {
        PrefixSubsequence(a[1..], b[1..], n - 1);
        assert a[..n][1..] == a[1..][..n - 1];
      } else {
        PrefixSubsequence(a, b[1..], n);
      }
    }
  }

  /** A prefix of `s + o` is a prefix of `s`, then a prefix of `o`. */
  lemma TakeAppend<T>(s: seq<T>, o: seq<T>, n: nat)
    ensures var r := Take(s + o, n);
      var k := if |s| < |r| then |s| else |r|;
      r[..k] == s[..k] && r[k..] == o[..|r| - k]
  {
  }
}
