/**
 * The array idioms the store and the dashboard use: `[...new Set(xs)]`,
 * `flatMap`, and the stable `Array.prototype.sort` by a numeric key.
 */
module Seqs {

  predicate Distinct<T(==)>(s: seq<T>)
  {
    forall i, j | 0 <= i < j < |s| :: s[i] != s[j]
  }

  /** The position of the first occurrence of `x` in `s`. */
  function FirstIndex<T(==)>(s: seq<T>, x: T): (i: nat)
    requires x in s
    ensures i < |s| && s[i] == x
    ensures forall j | 0 <= j < i :: s[j] != x
  {
    if s[0] == x then 0
    else
      var i := 1 + FirstIndex(s[1..], x);
      assert forall j | 1 <= j < i :: s[j] == s[1..][j - 1];
      i
  }

  /** An element of a prefix first occurs where it first occurs in the prefix. */
  lemma FirstIndexPrefix<T>(s: seq<T>, n: nat)
    requires n <= |s|
    ensures forall x | x in s[..n] :: FirstIndex(s, x) == FirstIndex(s[..n], x)
  {
    forall x | x in s[..n]
      ensures FirstIndex(s, x) == FirstIndex(s[..n], x)
    {
      var i, k := FirstIndex(s[..n], x), FirstIndex(s, x);
      assert s[i] == x;
      assert s[..n][k] == x;
    }
  }

  /** The elements of `r` come in the order of their first occurrences in `s`. */
  predicate FirstOccurrenceOrder<T(==)>(s: seq<T>, r: seq<T>)
  {
    forall i, j | 0 <= i < j < |r| && r[i] in s && r[j] in s :: FirstIndex(s, r[i]) < FirstIndex(s, r[j])
  }

  /** What `Dedupe` promises of its result `r` for the list `s`. */
  predicate DedupeOf<T(==)>(s: seq<T>, r: seq<T>)
  {
    && Distinct(r)
    && (forall i | 0 <= i < |s| :: s[i] in r)
    && (forall i | 0 <= i < |r| :: r[i] in s)
    && FirstOccurrenceOrder(s, r)
    && |r| <= |s|
  }

  /** One step of `Dedupe`: keep the de-duplicated front and add the last element if it is new. */
  lemma DedupeStep<T>(s: seq<T>, d: seq<T>)
    requires s != [] && DedupeOf(s[..|s| - 1], d)
    ensures DedupeOf(s, if s[|s| - 1] in d then d else d + [s[|s| - 1]])
  {
    var n := |s| - 1;
    var r := if s[n] in d then d else d + [s[n]];
    forall i | 0 <= i < |s|
      ensures s[i] in r
    {
      if i < n {
        assert s[..n][i] == s[i];
      }
    }
    forall i | 0 <= i < |r|
      ensures r[i] in s
    {
      if i < |d| {
        assert r[i] == d[i] && d[i] in s[..n];
      }
    }
    DedupeStepOrder(s, d);
  }

  /** The step keeps the elements in the order of their first occurrences. */
  lemma DedupeStepOrder<T>(s: seq<T>, d: seq<T>)
    requires s != []
    requires forall i | 0 <= i < |d| :: d[i] in s[..|s| - 1]
    requires forall i | 0 <= i < |s| - 1 :: s[i] in d
    requires FirstOccurrenceOrder(s[..|s| - 1], d)
    ensures FirstOccurrenceOrder(s, if s[|s| - 1] in d then d else d + [s[|s| - 1]])
  {
    var n := |s| - 1;
    FirstIndexPrefix(s, n);
    var r := if s[n] in d then d else d + [s[n]];
    if s[n] !in d {
      assert s[n] !in s[..n];
      assert FirstIndex(s, s[n]) == n;
    }
    forall i, j | 0 <= i < j < |r| && r[i] in s && r[j] in s
      ensures FirstIndex(s, r[i]) < FirstIndex(s, r[j])
    {
      assert r[i] == d[i] && d[i] in s[..n];
      if j < |d| {
        assert r[j] == d[j] && d[j] in s[..n];
      }
    }
  }

  /** `[...new Set(s)]`: the first occurrence of each element, in order. */
  function Dedupe<T(==)>(s: seq<T>): (r: seq<T>)
    ensures Distinct(r)
    ensures forall i | 0 <= i < |s| :: s[i] in r
    ensures forall i | 0 <= i < |r| :: r[i] in s
    ensures FirstOccurrenceOrder(s, r)
    ensures |r| <= |s|
  {
    if s == [] then []
    else
      var d := Dedupe(s[..|s| - 1]);
      DedupeStep(s, d);
      if s[|s| - 1] in d then d else d + [s[|s| - 1]]
  }

  /** De-duplicating a list without repeats leaves it as it is. */
  lemma {:induction false} DedupeDistinct<T>(s: seq<T>)
    requires Distinct(s)
    ensures Dedupe(s) == s
    decreases |s|
  {
    if s != [] {
      var init := s[..|s| - 1];
      DedupeDistinct(init);
      assert s[|s| - 1] !in Dedupe(init);
      assert s == init + [s[|s| - 1]];
    }
  }

  /** De-duplicating twice is de-duplicating once. */
  lemma DedupeIdempotent<T>(s: seq<T>)
    ensures Dedupe(Dedupe(s)) == Dedupe(s)
  {
    DedupeDistinct(Dedupe(s));
  }

  /** `flatMap` over the pieces: their concatenation, in order. */
  function Flatten<T>(ss: seq<seq<T>>): seq<T>
  {
    if ss == [] then [] else Flatten(ss[..|ss| - 1]) + ss[|ss| - 1]
  }

  lemma {:induction false} FlattenMembers<T>(ss: seq<seq<T>>, x: T)
    ensures x in Flatten(ss) <==> exists i | 0 <= i < |ss| :: x in ss[i]
    decreases |ss|
  {
    if ss != [] {
      var init := ss[..|ss| - 1];
      FlattenMembers(init, x);
      if exists i | 0 <= i < |ss| :: x in ss[i] {
        var i :| 0 <= i < |ss| && x in ss[i];
        if i < |init| {
          assert init[i] == ss[i];
        }
      }
      if exists i | 0 <= i < |init| :: x in init[i] {
        var i :| 0 <= i < |init| && x in init[i];
        assert ss[i] == init[i];
      }
    }
  }

  lemma FlattenSnoc<T>(ss: seq<seq<T>>, s: seq<T>)
    ensures Flatten(ss + [s]) == Flatten(ss) + s
  {
    assert (ss + [s])[..|ss|] == ss;
  }

  /** Ascending by `key`. */
  predicate SortedBy<T>(s: seq<T>, key: T -> int)
  {
    forall i, j | 0 <= i < j < |s| :: key(s[i]) <= key(s[j])
  }

  /** Inserts `x` after every element whose key is not larger, which keeps equal keys in arrival order. */
  function InsertBy<T>(x: T, s: seq<T>, key: T -> int): (r: seq<T>)
    requires SortedBy(s, key)
    ensures SortedBy(r, key)
    ensures multiset(r) == multiset(s) + multiset{x}
    ensures |r| == |s| + 1
    ensures forall i | 0 <= i < |r| :: key(x) <= key(r[i]) || (s != [] && key(s[0]) <= key(r[i]))
  {
    if s == [] then [x]
    else if key(x) < key(s[0]) then
      [x] + s
    else
      var rest := InsertBy(x, s[1..], key);
      assert s == [s[0]] + s[1..];
      [s[0]] + rest
  }

  /** `s.sort((a, b) => key(a) - key(b))`: a stable insertion sort. */
  function SortBy<T>(s: seq<T>, key: T -> int): (r: seq<T>)
    ensures SortedBy(r, key)
    ensures multiset(r) == multiset(s)
    ensures |r| == |s|
  {
    if s == [] then []
    else
      assert s == s[..|s| - 1] + [s[|s| - 1]];
      InsertBy(s[|s| - 1], SortBy(s[..|s| - 1], key), key)
  }

  /** The elements kept by a filter-then-sort are exactly the elements kept by the filter. */
  lemma SortByMembers<T>(s: seq<T>, key: T -> int, x: T)
    ensures x in SortBy(s, key) <==> x in s
  {
    assert x in SortBy(s, key) <==> x in multiset(SortBy(s, key));
    assert x in s <==> x in multiset(s);
  }

  /** Some element of a non-empty list satisfies `p` iff one of its front `init` does or its last one does. */
  lemma ExistsSnoc<T>(s: seq<T>, init: seq<T>, p: T -> bool)
    requires s != [] && init == s[..|s| - 1]
    ensures (exists i | 0 <= i < |s| :: p(s[i])) <==> (exists i | 0 <= i < |init| :: p(init[i])) || p(s[|s| - 1])
  {
    if exists i | 0 <= i < |s| :: p(s[i]) {
      var i :| 0 <= i < |s| && p(s[i]);
      if i < |init| {
        assert init[i] == s[i];
      }
    }
    if exists i | 0 <= i < |init| :: p(init[i]) {
      var i :| 0 <= i < |init| && p(init[i]);
      assert s[i] == init[i];
    }
  }

  /** `s.filter(p)`: the elements satisfying `p`, in order. */
  function Filter<T>(s: seq<T>, p: T -> bool): (r: seq<T>)
    ensures |r| <= |s|
    ensures forall i | 0 <= i < |r| :: p(r[i])
  {
    if s == [] then [] else Filter(s[..|s| - 1], p) + (if p(s[|s| - 1]) then [s[|s| - 1]] else [])
  }

  /** A filter keeps exactly the elements that satisfy the predicate. */
  lemma {:induction false} FilterMembers<T>(s: seq<T>, p: T -> bool, x: T)
    ensures x in Filter(s, p) <==> x in s && p(x)
    decreases |s|
  {
    if s != [] {
      FilterMembers(s[..|s| - 1], p, x);
      assert s == s[..|s| - 1] + [s[|s| - 1]];
    }
  }

  /** Filtering a concatenation filters each part in place, so the order is kept. */
  lemma {:induction false} FilterAppend<T>(a: seq<T>, b: seq<T>, p: T -> bool)
    ensures Filter(a + b, p) == Filter(a, p) + Filter(b, p)
    decreases |b|
  {
    if b != [] {
      var n := |b| - 1;
      assert (a + b)[..|a + b| - 1] == a + b[..n];
      FilterAppend(a, b[..n], p);
    } else {
      assert a + b == a;
    }
  }

  /** Every element is kept by `p` or by its negation, never by both. */
  lemma {:induction false} FilterComplement<T>(s: seq<T>, p: T -> bool, q: T -> bool)
    requires forall x :: q(x) == !p(x)
    ensures |Filter(s, p)| + |Filter(s, q)| == |s|
    decreases |s|
  {
    if s != [] {
      FilterComplement(s[..|s| - 1], p, q);
    }
  }
}
