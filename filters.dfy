/**
 * `Filters`: the order-preserving filter behind Swift's `filter` and
 * `removeAll(where:)` on arrays, with the facts the store relies on.
 */
module Filters {

  /** The elements of `s` that satisfy `keep`, in their original order. */
  function Filter<T(!new)>(s: seq<T>, keep: T -> bool): (r: seq<T>)
    ensures |r| <= |s|
    ensures forall i :: 0 <= i < |r| ==> keep(r[i])
    ensures forall x :: x in r <==> x in s && keep(x)
    ensures (forall i :: 0 <= i < |s| ==> keep(s[i])) ==> r == s
  {
    if s == [] then []
    else if keep(s[0]) then [s[0]] + Filter(s[1..], keep)
    else Filter(s[1..], keep)
  }

  /** Filtering distributes over concatenation: the kept elements keep their relative order. */
  lemma {:induction false} FilterAppend<T(!new)>(s: seq<T>, t: seq<T>, keep: T -> bool)
    ensures Filter(s + t, keep) == Filter(s, keep) + Filter(t, keep)
  {
    if s == [] {
      assert s + t == t;
    } else {
      assert (s + t)[0] == s[0];
      assert (s + t)[1..] == s[1..] + t;
      FilterAppend(s[1..], t, keep);
    }
  }

  /** A predicate and its negation split `s` into two filters whose multisets add up to `s`. */
  lemma FilterPartition<T(!new)>(s: seq<T>, keep: T -> bool, drop: T -> bool)
    requires forall i :: 0 <= i < |s| ==> (drop(s[i]) <==> !keep(s[i]))
    ensures multiset(Filter(s, keep)) + multiset(Filter(s, drop)) == multiset(s)
    ensures |Filter(s, keep)| + |Filter(s, drop)| == |s|
  {
    FilterSplitsMultiset(s, keep, drop);
    assert |multiset(Filter(s, keep)) + multiset(Filter(s, drop))| == |multiset(s)|;
  }

  lemma {:induction false} FilterSplitsMultiset<T(!new)>(s: seq<T>, keep: T -> bool, drop: T -> bool)
    requires forall i :: 0 <= i < |s| ==> (drop(s[i]) <==> !keep(s[i]))
    ensures multiset(Filter(s, keep)) + multiset(Filter(s, drop)) == multiset(s)
  {
    if s != [] {
      var t := s[1..];
      assert forall i :: 0 <= i < |t| ==> (drop(t[i]) <==> !keep(t[i])) by {
        assert forall i :: 0 <= i < |t| ==> t[i] == s[i + 1];
      }
      FilterSplitsMultiset(t, keep, drop);
      var k, d := multiset(Filter(t, keep)), multiset(Filter(t, drop));
      MultisetCons(s);
      FilterConsMultiset(s, keep);
      FilterConsMultiset(s, drop);
      OneMoreOnOneSide(s[0], keep(s[0]), k, d, multiset(Filter(s, keep)), multiset(Filter(s, drop)));
    }
  }

  lemma MultisetCons<T>(s: seq<T>)
    requires s != []
    ensures multiset(s) == multiset{s[0]} + multiset(s[1..])
  {
    assert s == [s[0]] + s[1..];
  }

  /** Adding `x` to exactly one of two multisets adds it once to their sum. */
  lemma OneMoreOnOneSide<T>(x: T, left: bool, k: multiset<T>, d: multiset<T>, a: multiset<T>, b: multiset<T>)
    requires a == (if left then multiset{x} else multiset{}) + k
    requires b == (if left then multiset{} else multiset{x}) + d
    ensures a + b == multiset{x} + (k + d)
  {
  }

  /** One step of the filter, counted: the head adds one occurrence when it is kept. */
  lemma FilterConsMultiset<T(!new)>(s: seq<T>, keep: T -> bool)
    requires s != []
    ensures multiset(Filter(s, keep)) ==
      (if keep(s[0]) then multiset{s[0]} else multiset{}) + multiset(Filter(s[1..], keep))
  {
    FilterCons(s, keep);
  }

  /** One step of the filter: the head is kept or dropped, then the tail is filtered. */
  lemma FilterCons<T(!new)>(s: seq<T>, keep: T -> bool)
    requires s != []
    ensures keep(s[0]) ==> Filter(s, keep) == [s[0]] + Filter(s[1..], keep)
    ensures !keep(s[0]) ==> Filter(s, keep) == Filter(s[1..], keep)
  {
  }

  /** No two elements of `s` share a key. */
  ghost predicate DistinctBy<T, K>(s: seq<T>, key: T -> K) {
    forall i, j :: 0 <= i < j < |s| ==> key(s[i]) != key(s[j])
  }

  /** Removing elements never makes two keys collide. */
  lemma {:induction false} FilterKeepsDistinct<T(!new), K>(s: seq<T>, keep: T -> bool, key: T -> K)
    requires DistinctBy(s, key)
    ensures DistinctBy(Filter(s, keep), key)
  {
    if s != [] {
      var t := s[1..];
      assert DistinctBy(t, key) by {
        forall i, j | 0 <= i < j < |t| ensures key(t[i]) != key(t[j]) {
          assert t[i] == s[i + 1] && t[j] == s[j + 1];
        }
      }
      FilterKeepsDistinct(t, keep, key);
      if keep(s[0]) {
        var rest := Filter(t, keep);
        assert Filter(s, keep) == [s[0]] + rest;
        assert forall y :: y in t ==> key(y) != key(s[0]) by {
          forall y | y in t ensures key(y) != key(s[0]) {
            var k :| 0 <= k < |t| && t[k] == y;
            assert t[k] == s[k + 1];
          }
        }
        HeadKeepsDistinct(s[0], rest, key);
      }
    }
  }

  /** Prepending an element whose key no other element has keeps the keys distinct. */
  lemma HeadKeepsDistinct<T, K>(x: T, rest: seq<T>, key: T -> K)
    requires DistinctBy(rest, key)
    requires forall i :: 0 <= i < |rest| ==> key(rest[i]) != key(x)
    ensures DistinctBy([x] + rest, key)
  {
    var r := [x] + rest;
    forall i, j | 0 <= i < j < |r| ensures key(r[i]) != key(r[j]) {
      assert r[j] == rest[j - 1];
      if i > 0 {
        assert r[i] == rest[i - 1];
      }
    }
  }
}
