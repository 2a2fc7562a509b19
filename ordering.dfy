/**
 * Helpers for the store's queries: enumerating a table's ids in order
 * (the model's reading of `findFirst` and of an unordered `findMany`),
 * and ordering rows by a numeric column, descending (`orderBy: 'desc'`),
 * followed by `take`.
 */
module Ordering {
  import opened Outcomes

  ghost predicate StrictlyIncreasing(s: seq<nat>) {
    forall i, j :: 0 <= i < j < |s| ==> s[i] < s[j]
  }

  ghost predicate Distinct<T>(s: seq<T>) {
    forall i, j :: 0 <= i < j < |s| ==> s[i] != s[j]
  }

  lemma {:induction false} DistinctCount<T>(s: seq<T>, x: T)
    requires Distinct(s)
    ensures multiset(s)[x] <= 1
  {
    if s != [] {
      assert s == [s[0]] + s[1..];
      assert Distinct(s[1..]);
      DistinctCount(s[1..], x);
      assert forall i :: 0 <= i < |s[1..]| ==> s[1..][i] != s[0];
    }
  }

  lemma CountDistinct<T>(s: seq<T>)
    requires forall x :: multiset(s)[x] <= 1
    ensures Distinct(s)
  {
    forall i, j | 0 <= i < j < |s| ensures s[i] != s[j] {
      assert s == s[..j] + s[j..];
      assert s[..j][i] == s[i];
      assert s[j..][0] == s[j];
      assert multiset(s)[s[j]] == multiset(s[..j])[s[j]] + multiset(s[j..])[s[j]];
    }
  }

  /** Reordering a sequence keeps it free of duplicates. */
  lemma PermutationDistinct<T>(s: seq<T>, r: seq<T>)
    requires Distinct(s)
    requires multiset(r) == multiset(s)
    ensures Distinct(r)
  {
    forall x ensures multiset(r)[x] <= 1 {
      DistinctCount(s, x);
    }
    CountDistinct(r);
  }

  predicate IsLeast(m: nat, s: set<nat>) {
    m in s && forall x :: x in s ==> m <= x
  }

  lemma {:induction false} LeastExists(s: set<nat>)
    requires s != {}
    ensures exists m :: IsLeast(m, s)
    decreases s
  {
    var x :| x in s;
    var smaller := set y | y in s && y < x;
    assert forall y :: y in s && y < x ==> y in smaller;
    if smaller == {} {
      assert IsLeast(x, s);
    } else {
      LeastExists(smaller);
      var m :| IsLeast(m, smaller);
      assert IsLeast(m, s);
    }
  }

  /** The smallest id of a non-empty set of ids. */
  function Least(s: set<nat>): (m: nat)
    requires s != {}
    ensures m in s
    ensures forall x :: x in s ==> m <= x
  {
    LeastExists(s);
    var m :| IsLeast(m, s);
    m
  }

  /** The ids of a set in ascending order. */
  function Ascending(s: set<nat>): (r: seq<nat>)
    ensures forall x :: x in r <==> x in s
    ensures StrictlyIncreasing(r)
    ensures |r| == |s|
    decreases s
  {
    if s == {} then []
    else
      var m := Least(s);
      var rest := Ascending(s - {m});
      PrependLeast(m, rest);
      [m] + rest
  }

  /** The ids in ascending order are each listed once. */
  lemma AscendingDistinct(s: set<nat>)
    ensures Distinct(Ascending(s))
  {
    var r := Ascending(s);
    assert forall i, j :: 0 <= i < j < |r| ==> r[i] < r[j];
  }

  lemma PrependLeast(m: nat, rest: seq<nat>)
    requires StrictlyIncreasing(rest)
    requires forall x :: x in rest ==> m < x
    ensures StrictlyIncreasing([m] + rest)
  {
    var r := [m] + rest;
    forall i, j | 0 <= i < j < |r| ensures r[i] < r[j] {
      assert r[j] == rest[j - 1] && rest[j - 1] in rest;
      if i > 0 {
        assert r[i] == rest[i - 1];
      }
    }
  }

  /** The same ids in descending order: the newest first, since ids grow with creation. */
  function Descending(s: set<nat>): (r: seq<nat>)
    ensures forall x :: x in r <==> x in s
    ensures forall i, j :: 0 <= i < j < |r| ==> r[i] > r[j]
    ensures |r| == |s|
    decreases s
  {
    if s == {} then []
    else
      var m := Least(s);
      var rest := Descending(s - {m});
      AppendLeast(m, rest);
      rest + [m]
  }

  lemma AppendLeast(m: nat, rest: seq<nat>)
    requires forall i, j :: 0 <= i < j < |rest| ==> rest[i] > rest[j]
    requires forall x :: x in rest ==> m < x
    ensures forall i, j :: 0 <= i < j < |rest + [m]| ==> (rest + [m])[i] > (rest + [m])[j]
  {
    var r := rest + [m];
    forall i, j | 0 <= i < j < |r| ensures r[i] > r[j] {
      assert r[i] == rest[i] && rest[i] in rest;
      if j < |rest| {
        assert r[j] == rest[j];
      }
    }
  }

  /** `findFirst`: the smallest id among the rows that match, if any. */
  function First(matching: set<nat>): (r: Option<nat>)
    ensures r.None? <==> matching == {}
    ensures r.Some? ==> r.value in matching && forall x :: x in matching ==> r.value <= x
  {
    if matching == {} then None else Some(Least(matching))
  }

  ghost predicate SortedDesc<T>(s: seq<T>, key: T -> int) {
    forall i, j :: 0 <= i < j < |s| ==> key(s[i]) >= key(s[j])
  }

  /** Inserts x into a descending sequence after every element whose key is at least key(x). */
  function InsertDesc<T>(x: T, s: seq<T>, key: T -> int): (r: seq<T>)
    requires SortedDesc(s, key)
    ensures SortedDesc(r, key)
    ensures multiset(r) == multiset(s) + multiset{x}
    ensures |r| == |s| + 1
    ensures r[0] == x || (s != [] && r[0] == s[0])
  {
    if s == [] then [x]
    else if key(x) > key(s[0]) then [x] + s
    else
      var tail := InsertDesc(x, s[1..], key);
      assert s == [s[0]] + s[1..];
      ConsSorted(s[0], tail, key);
      [s[0]] + tail
  }

  /** A head whose key is at least the first key of a descending tail keeps it descending. */
  lemma ConsSorted<T>(h: T, tail: seq<T>, key: T -> int)
    requires SortedDesc(tail, key)
    requires tail != [] ==> key(h) >= key(tail[0])
    ensures SortedDesc([h] + tail, key)
  {
    var r := [h] + tail;
    forall i, j | 0 <= i < j < |r| ensures key(r[i]) >= key(r[j]) {
      assert r[j] == tail[j - 1];
      if i > 0 {
        assert r[i] == tail[i - 1];
      }
    }
  }

  /** `orderBy: { key: 'desc' }`: the rows sorted by key, largest first, rows with equal keys in input order. */
  function SortDesc<T>(s: seq<T>, key: T -> int): (r: seq<T>)
    ensures SortedDesc(r, key)
    ensures multiset(r) == multiset(s)
    ensures |r| == |s|
  {
    if s == [] then []
    else
      var init := s[..|s| - 1];
      assert s == init + [s[|s| - 1]];
      InsertDesc(s[|s| - 1], SortDesc(init, key), key)
  }

  /** `orderBy: { key: 'desc' }` over distinct ids, without a limit: the same ids, each once, largest key first. */
  function Order(ids: seq<nat>, key: nat -> int): (r: seq<nat>)
    requires Distinct(ids)
    ensures forall x :: x in r <==> x in ids
    ensures Distinct(r)
    ensures forall i, j :: 0 <= i < j < |r| ==> key(r[i]) >= key(r[j])
  {
    var r := SortDesc(ids, key);
    forall x ensures x in r <==> x in ids {
      assert (x in r) == (x in multiset(r));
      assert (x in ids) == (x in multiset(ids));
    }
    PermutationDistinct(ids, r);
    r
  }

  /** The elements at the given positions, in the order given. */
  function Pick<T>(s: seq<T>, idx: seq<nat>): (r: seq<T>)
    requires forall i :: 0 <= i < |idx| ==> idx[i] < |s|
    ensures |r| == |idx|
    ensures forall i :: 0 <= i < |idx| ==> r[i] == s[idx[i]]
  {
    seq(|idx|, i requires 0 <= i < |idx| => s[idx[i]])
  }

  /** `take: limit`. */
  function Take<T>(s: seq<T>, limit: nat): (r: seq<T>)
    ensures |r| == if limit < |s| then limit else |s|
    ensures r == s[..|r|]
  {
    if limit < |s| then s[..limit] else s
  }

  /**
   * The largest `limit` elements of a set, largest first: all of them when
   * the set is smaller, and otherwise every element left out lies below
   * every element taken.
   */
  lemma TakeDescending(s: set<nat>, limit: nat)
    ensures var r := Take(Descending(s), limit);
      && |r| <= limit
      && (forall k :: 0 <= k < |r| ==> r[k] in s)
      && (forall i, j :: 0 <= i < j < |r| ==> r[i] > r[j])
      && (forall x :: x in s && x !in r ==> |r| == limit && forall k :: 0 <= k < |r| ==> x < r[k])
  {
    TakeStrictlyDescending(Descending(s), limit);
  }

  /** The same facts for a prefix of any strictly descending sequence. */
  lemma TakeStrictlyDescending(all: seq<nat>, limit: nat)
    requires forall i, j :: 0 <= i < j < |all| ==> all[i] > all[j]
    ensures var r := Take(all, limit);
      && (forall k :: 0 <= k < |r| ==> r[k] in all)
      && (forall i, j :: 0 <= i < j < |r| ==> r[i] > r[j])
      && (forall x :: x in all && x !in r ==> |r| == limit && forall k :: 0 <= k < |r| ==> x < r[k])
  {
    var r := Take(all, limit);
    assert forall k :: 0 <= k < |r| ==> r[k] == all[k];
    forall x | x in all && x !in r ensures |r| == limit && forall k :: 0 <= k < |r| ==> x < r[k] {
      var m :| 0 <= m < |all| && all[m] == x;
      assert m >= |r|;
    }
  }

  /**
   * The first `limit` rows of a descending order are its top rows: every
   * input row left out has a key no larger than any row taken.
   */
  lemma TopRows<T>(s: seq<T>, key: T -> int, limit: nat, x: T)
    requires x in s
    requires x !in Take(SortDesc(s, key), limit)
    ensures forall i :: 0 <= i < |Take(SortDesc(s, key), limit)| ==>
              key(Take(SortDesc(s, key), limit)[i]) >= key(x)
  {
    var sorted := SortDesc(s, key);
    var top := Take(sorted, limit);
    assert x in multiset(sorted);
    var j :| 0 <= j < |sorted| && sorted[j] == x;
    assert j >= |top|;
  }
}
