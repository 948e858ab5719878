// Sequence helpers shared by every module that models a JavaScript
// `Array.prototype.filter`, `find`, `findIndex` or `map` call.
module Seqs {
  import opened Wrappers

  /** `s.filter(p)`: the elements satisfying `p`, in their original order. */
  function Filter<T(!new)>(s: seq<T>, p: T -> bool): (r: seq<T>)
    ensures |r| <= |s|
    ensures forall x :: x in r <==> x in s && p(x)
    ensures forall i :: 0 <= i < |r| ==> p(r[i])
  {
    if s == [] then []
    else
      assert forall x :: x in s <==> x == s[0] || x in s[1..];
      (if p(s[0]) then [s[0]] else []) + Filter(s[1..], p)
  }

  /** The number of elements satisfying `p`: `s.filter(p).length`. */
  function Count<T(!new)>(s: seq<T>, p: T -> bool): (n: nat)
    ensures n <= |s|
  {
    |Filter(s, p)|
  }

  /** `a` occurs in `b` in order, possibly with gaps. */
  ghost predicate IsSubsequence<T>(a: seq<T>, b: seq<T>)
    decreases |b|
  {
    if a == [] then true
    else if b == [] then false
    else if a[0] == b[0] then IsSubsequence(a[1..], b[1..])
    else IsSubsequence(a, b[1..])
  }

  lemma {:induction false} FilterIsSubsequence<T(!new)>(s: seq<T>, p: T -> bool)
    ensures IsSubsequence(Filter(s, p), s)
    decreases |s|
  {
    if s != [] {
      FilterIsSubsequence(s[1..], p);
      FilterCons(s[0], s[1..], p);
      assert [s[0]] + s[1..] == s;
      var r := Filter(s, p);
      if p(s[0]) {
        assert r[0] == s[0] && r[1..] == Filter(s[1..], p);
      } else {
        assert r == Filter(s[1..], p);
        SubsequenceSkip(r, s);
      }
    }
  }

  /** A subsequence of `b[1..]` is a subsequence of `b`. */
  lemma {:induction false} SubsequenceSkip<T>(a: seq<T>, b: seq<T>)
    requires b != [] && IsSubsequence(a, b[1..])
    ensures IsSubsequence(a, b)
    decreases |b|, |a|
  {
    if a != [] && a[0] == b[0] {
      SubsequenceTail(a, b[1..]);
    }
  }

  /** If `a` is a subsequence of `b`, then so is `a[1..]`. */
  lemma {:induction false} SubsequenceTail<T>(a: seq<T>, b: seq<T>)
    requires a != [] && IsSubsequence(a, b)
    ensures IsSubsequence(a[1..], b)
    decreases |b|, |a|
  {
    if a[1..] != [] {
      if a[0] == b[0] {
        SubsequenceSkip(a[1..], b);
      } else {
        SubsequenceTail(a, b[1..]);
        SubsequenceSkip(a[1..], b);
      }
    }
  }

  /** A subsequence of a subsequence of `c` is a subsequence of `c`. */
  lemma {:induction false} SubsequenceTrans<T>(a: seq<T>, b: seq<T>, c: seq<T>)
    requires IsSubsequence(a, b) && IsSubsequence(b, c)
    ensures IsSubsequence(a, c)
    decreases |c|
  {
    if a != [] {
      assert b != [] && c != [];
      if b[0] == c[0] {
        if a[0] == b[0] {
          SubsequenceTrans(a[1..], b[1..], c[1..]);
        } else {
          SubsequenceTrans(a, b[1..], c[1..]);
          SubsequenceSkip(a, c);
        }
      } else {
        SubsequenceTrans(a, b, c[1..]);
        SubsequenceSkip(a, c);
      }
    }
  }

  /** Unfolding `Filter` once on an explicit head. */
  lemma FilterCons<T(!new)>(x: T, u: seq<T>, p: T -> bool)
    ensures Filter([x] + u, p) == (if p(x) then [x] else []) + Filter(u, p)
  {
    assert ([x] + u)[1..] == u;
  }

  /** Filtering distributes over concatenation, which is what "order is preserved" means. */
  lemma {:induction false} FilterConcat<T(!new)>(a: seq<T>, b: seq<T>, p: T -> bool)
    ensures Filter(a + b, p) == Filter(a, p) + Filter(b, p)
    decreases |a|
  {
    if a == [] {
      assert a + b == b;
    } else {
      assert (a + b)[1..] == a[1..] + b;
      FilterConcat(a[1..], b, p);
    }
  }

  /** A filter that every element passes keeps the whole sequence. */
  lemma {:induction false} FilterAll<T(!new)>(s: seq<T>, p: T -> bool)
    requires forall x :: x in s ==> p(x)
    ensures Filter(s, p) == s
    decreases |s|
  {
    if s != [] {
      FilterAll(s[1..], p);
    }
  }

  /** Filters that agree on the elements keep the same elements. */
  lemma {:induction false} FilterSame<T(!new)>(s: seq<T>, p: T -> bool, q: T -> bool)
    requires forall x :: x in s ==> p(x) == q(x)
    ensures Filter(s, p) == Filter(s, q)
    decreases |s|
  {
    if s != [] {
      FilterSame(s[1..], p, q);
    }
  }

  /** Two filters in a row are one filter on the conjunction. */
  lemma {:induction false} FilterFilter<T(!new)>(s: seq<T>, p: T -> bool, q: T -> bool, pq: T -> bool)
    requires forall x :: pq(x) == (p(x) && q(x))
    ensures Filter(Filter(s, p), q) == Filter(s, pq)
    decreases |s|
  {
    if s != [] {
      var t := s[1..];
      FilterFilter(t, p, q, pq);
      FilterCons(s[0], t, p);
      FilterCons(s[0], t, pq);
      assert [s[0]] + t == s;
      assert pq(s[0]) == (p(s[0]) && q(s[0]));
      if p(s[0]) {
        FilterCons(s[0], Filter(t, p), q);
        assert Filter(s, p) == [s[0]] + Filter(t, p);
      } else {
        assert Filter(s, p) == Filter(t, p);
      }
    }
  }

  /** Splitting by a predicate and its negation loses and invents nothing. */
  lemma {:induction false} FilterPartition<T(!new)>(s: seq<T>, p: T -> bool, notP: T -> bool)
    requires forall x :: notP(x) == !p(x)
    ensures multiset(Filter(s, p)) + multiset(Filter(s, notP)) == multiset(s)
    ensures |Filter(s, p)| + |Filter(s, notP)| == |s|
    decreases |s|
  {
    if s != [] {
      FilterPartition(s[1..], p, notP);
      assert s == [s[0]] + s[1..];
    }
  }

  /** `s.findIndex(p)`, with `None` for `-1`. */
  function FindIndex<T>(s: seq<T>, p: T -> bool): (r: Option<nat>)
    ensures r.Some? ==> r.value < |s| && p(s[r.value])
    ensures r.Some? ==> forall j :: 0 <= j < r.value ==> !p(s[j])
    ensures r.None? ==> forall j :: 0 <= j < |s| ==> !p(s[j])
  {
    if s == [] then None
    else if p(s[0]) then Some(0)
    else
      match FindIndex(s[1..], p)
      case None => None
      case Some(k) => Some(k + 1)
  }

  /** `s.find(p)`: the first element satisfying `p`, if any. */
  function Find<T(!new)>(s: seq<T>, p: T -> bool): (r: Option<T>)
    ensures r.Some? <==> exists x :: x in s && p(x)
    ensures r.Some? ==> r.value in s && p(r.value)
  {
    match FindIndex(s, p)
    case None => None
    case Some(k) => Some(s[k])
  }

  /** With at most one element satisfying `p`, `find` returns exactly that one. */
  lemma FindUnique<T(!new)>(s: seq<T>, p: T -> bool, x: T)
    requires x in s && p(x)
    requires forall i, j :: 0 <= i < j < |s| && p(s[i]) && p(s[j]) ==> false
    ensures Find(s, p) == Some(x)
  {
    var i :| 0 <= i < |s| && s[i] == x;
    var k := FindIndex(s, p).value;
    assert !(i < k) && !(k < i);
  }

  /** `s.map(f)`. */
  function Map<T, U>(s: seq<T>, f: T -> U): (r: seq<U>)
    ensures |r| == |s|
    ensures forall i :: 0 <= i < |s| ==> r[i] == f(s[i])
  {
    seq(|s|, i requires 0 <= i < |s| => f(s[i]))
  }

  /** No two elements of `s` share a key, as a `unique` or primary-key column demands. */
  predicate UniqueBy<T, K(==)>(s: seq<T>, key: T -> K) {
    forall i, j :: 0 <= i < j < |s| ==> key(s[i]) != key(s[j])
  }

  /** Some element of `s` has key `k`. */
  predicate KeyTaken<T, K(==)>(s: seq<T>, key: T -> K, k: K) {
    exists j | 0 <= j < |s| :: key(s[j]) == k
  }

  /** Some element of `s` other than the one at `idx` has key `k`. */
  predicate KeyTakenElsewhere<T, K(==)>(s: seq<T>, key: T -> K, idx: int, k: K) {
    exists j | 0 <= j < |s| :: j != idx && key(s[j]) == k
  }

  /** Every key of `s` is below `bound`. */
  predicate KeysBelow<T>(s: seq<T>, key: T -> int, bound: int) {
    forall i :: 0 <= i < |s| ==> key(s[i]) < bound
  }

  /** A unique column stays unique without its first row. */
  lemma UniqueByTail<T, K>(s: seq<T>, key: T -> K)
    requires s != [] && UniqueBy(s, key)
    ensures UniqueBy(s[1..], key)
    ensures forall y :: y in s[1..] ==> key(y) != key(s[0])
  {
    var u := s[1..];
    forall i, j | 0 <= i < j < |u| ensures key(u[i]) != key(u[j]) {
      assert u[i] == s[i + 1] && u[j] == s[j + 1];
    }
    forall y | y in u ensures key(y) != key(s[0]) {
      var j :| 0 <= j < |u| && u[j] == y;
      assert s[j + 1] == y;
    }
  }

  /** A row whose key no later row has can be put in front of a unique column. */
  lemma UniqueByCons<T, K>(x: T, t: seq<T>, key: T -> K)
    requires UniqueBy(t, key)
    requires forall y :: y in t ==> key(y) != key(x)
    ensures UniqueBy([x] + t, key)
  {
    var s := [x] + t;
    forall i, j | 0 <= i < j < |s| ensures key(s[i]) != key(s[j]) {
      assert s[j] == t[j - 1];
      if i > 0 {
        assert s[i] == t[i - 1];
      }
    }
  }

  /** Removing rows keeps a column unique. */
  lemma {:induction false} UniqueByFilter<T(!new), K>(s: seq<T>, key: T -> K, p: T -> bool)
    requires UniqueBy(s, key)
    ensures UniqueBy(Filter(s, p), key)
  {
    if s != [] {
      UniqueByTail(s, key);
      UniqueByFilter(s[1..], key, p);
      if p(s[0]) {
        UniqueByCons(s[0], Filter(s[1..], p), key);
      }
    }
  }

  /** Removing rows keeps every key below a bound. */
  lemma KeysBelowFilter<T(!new)>(s: seq<T>, key: T -> int, bound: int, p: T -> bool)
    requires KeysBelow(s, key, bound)
    ensures KeysBelow(Filter(s, p), key, bound)
  {
    var t := Filter(s, p);
    forall i | 0 <= i < |t| ensures key(t[i]) < bound {
      assert t[i] in s;
    }
  }

  /** Appending a row with a key not yet taken keeps a column unique. */
  lemma UniqueByAppend<T, K>(s: seq<T>, key: T -> K, x: T)
    requires UniqueBy(s, key) && !KeyTaken(s, key, key(x))
    ensures UniqueBy(s + [x], key)
  {
    var t := s + [x];
    forall i, j | 0 <= i < j < |t| ensures key(t[i]) != key(t[j]) {
      if j == |s| {
        assert t[i] == s[i];
      } else {
        assert t[i] == s[i] && t[j] == s[j];
      }
    }
  }

  /** A key at or above every key of `s` is free. */
  lemma FreshKeyFree<T>(s: seq<T>, key: T -> int, bound: int)
    requires KeysBelow(s, key, bound)
    ensures !KeyTaken(s, key, bound)
  {
  }

  /** Appending a row keyed below the next bound keeps every key below it. */
  lemma KeysBelowAppend<T>(s: seq<T>, key: T -> int, bound: int, x: T)
    requires KeysBelow(s, key, bound) && key(x) == bound
    ensures KeysBelow(s + [x], key, bound + 1)
  {
    var t := s + [x];
    forall i | 0 <= i < |t| ensures key(t[i]) < bound + 1 {
      if i < |s| {
        assert t[i] == s[i];
      }
    }
  }

  /** Replacing a row by one whose key no other row has keeps a column unique. */
  lemma UniqueByReplace<T, K>(s: seq<T>, key: T -> K, k: int, x: T)
    requires UniqueBy(s, key) && 0 <= k < |s| && !KeyTakenElsewhere(s, key, k, key(x))
    ensures UniqueBy(s[k := x], key)
  {
    var t := s[k := x];
    forall i, j | 0 <= i < j < |t| ensures key(t[i]) != key(t[j]) {
      if i == k {
        assert key(s[j]) != key(x);
      } else if j == k {
        assert key(s[i]) != key(x);
      } else {
        assert t[i] == s[i] && t[j] == s[j];
      }
    }
  }

  /** In a unique column, a row's own key is taken nowhere else. */
  lemma OwnKeyNotElsewhere<T, K>(s: seq<T>, key: T -> K, k: int)
    requires UniqueBy(s, key) && 0 <= k < |s|
    ensures !KeyTakenElsewhere(s, key, k, key(s[k]))
  {
    forall j | 0 <= j < |s| && j != k ensures key(s[j]) != key(s[k]) {
      if j < k {
        assert key(s[j]) != key(s[k]);
      } else {
        assert key(s[k]) != key(s[j]);
      }
    }
  }

  /** The rows whose key is `k`. */
  function WithKey<T>(key: T -> int, k: int): T -> bool {
    (x: T) => key(x) == k
  }

  /** The rows whose key is not `k`. */
  function WithoutKey<T>(key: T -> int, k: int): T -> bool {
    (x: T) => key(x) != k
  }

  /**
   * The first match of a search depends only on which positions match: two
   * sequences that match at the same positions of `s` and nowhere after it
   * give the same answer.
   */
  lemma FindIndexSame<T, U>(s: seq<T>, p: T -> bool, t: seq<U>, q: U -> bool)
    requires |s| <= |t|
    requires forall i :: 0 <= i < |s| ==> p(s[i]) == q(t[i])
    requires forall i :: |s| <= i < |t| ==> !q(t[i])
    ensures FindIndex(s, p) == FindIndex(t, q)
  {
    var a := FindIndex(s, p);
    var b := FindIndex(t, q);
    if a.Some? {
      assert q(t[a.value]);
      assert b.Some? && b.value <= a.value;
      assert p(s[b.value]);
    } else {
      forall i | 0 <= i < |t| ensures !q(t[i]) {
        if i < |s| {
          assert !p(s[i]);
        }
      }
    }
  }

  /** Two searches with the same predicate, written twice, find the same element. */
  lemma FindSame<T(!new)>(s: seq<T>, p: T -> bool, q: T -> bool)
    requires forall x :: p(x) == q(x)
    ensures Find(s, p) == Find(s, q)
  {
    FindIndexSame(s, p, s, q);
  }
}
