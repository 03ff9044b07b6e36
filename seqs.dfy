/**
 * Order-preserving selection over the rows of a table, the shape of every
 * `query(...).filter(...)` in the routes.
 */
module Seqs {

  /** The elements of `s` satisfying `p`, in their original order. */
  function Filter<T>(s: seq<T>, p: T -> bool): (r: seq<T>)
    ensures |r| <= |s|
    ensures forall i :: 0 <= i < |r| ==> r[i] in s && p(r[i])
    ensures forall i :: 0 <= i < |s| && p(s[i]) ==> s[i] in r
    decreases |s|
  {
    if s == [] then []
    else Filter(s[..|s| - 1], p) + (if p(s[|s| - 1]) then [s[|s| - 1]] else [])
  }

  /** Selecting from a sequence with one more element at the end. */
  lemma FilterSnoc<T>(s: seq<T>, x: T, p: T -> bool)
    ensures Filter(s + [x], p) == Filter(s, p) + (if p(x) then [x] else [])
  {
    assert (s + [x])[..|s|] == s;
  }

  /** Selecting from a concatenation selects from each part. */
  lemma {:induction false} FilterAppend<T>(a: seq<T>, b: seq<T>, p: T -> bool)
    ensures Filter(a + b, p) == Filter(a, p) + Filter(b, p)
    decreases |b|
  {
    if b == [] {
      assert a + b == a;
    } else {
      var b' := b[..|b| - 1];
      var x := b[|b| - 1];
      assert a + b == (a + b') + [x];
      assert b == b' + [x];
      FilterSnoc(a + b', x, p);
      FilterSnoc(b', x, p);
      FilterAppend(a, b', p);
      var tail := if p(x) then [x] else [];
      calc {
        Filter(a + b, p);
        Filter(a + b', p) + tail;
        (Filter(a, p) + Filter(b', p)) + tail;
        Filter(a, p) + (Filter(b', p) + tail);
        Filter(a, p) + Filter(b, p);
      }
    }
  }

  /** A selection every element passes keeps the whole sequence. */
  lemma {:induction false} FilterAll<T>(s: seq<T>, p: T -> bool)
    requires forall x :: x in s ==> p(x)
    ensures Filter(s, p) == s
    decreases |s|
  {
    if s != [] {
      assert s[..|s| - 1] + [s[|s| - 1]] == s;
      FilterAll(s[..|s| - 1], p);
    }
  }

  /** A selection no element passes is empty. */
  lemma {:induction false} FilterNone<T>(s: seq<T>, p: T -> bool)
    requires forall i :: 0 <= i < |s| ==> !p(s[i])
    ensures Filter(s, p) == []
    decreases |s|
  {
    if s != [] {
      FilterNone(s[..|s| - 1], p);
    }
  }

  /** Every element goes to exactly one side of a predicate. */
  lemma {:induction false} FilterPartition<T>(s: seq<T>, p: T -> bool, q: T -> bool)
    requires forall x :: q(x) == !p(x)
    ensures |Filter(s, p)| + |Filter(s, q)| == |s|
    decreases |s|
  {
    if s != [] {
      FilterPartition(s[..|s| - 1], p, q);
    }
  }

  /** Two predicates that agree on the elements select the same. */
  lemma {:induction false} FilterCongruent<T>(s: seq<T>, p: T -> bool, q: T -> bool)
    requires forall x :: x in s ==> p(x) == q(x)
    ensures Filter(s, p) == Filter(s, q)
    decreases |s|
  {
    if s != [] {
      assert s[..|s| - 1] + [s[|s| - 1]] == s;
      FilterCongruent(s[..|s| - 1], p, q);
    }
  }

  /** Selecting twice is selecting by the conjunction. */
  lemma {:induction false} FilterFilter<T>(s: seq<T>, p: T -> bool, q: T -> bool, pq: T -> bool)
    requires forall x :: pq(x) == (p(x) && q(x))
    ensures Filter(Filter(s, p), q) == Filter(s, pq)
    decreases |s|
  {
    if s != [] {
      var s' := s[..|s| - 1];
      var x := s[|s| - 1];
      FilterFilter(s', p, q, pq);
      assert Filter(s, pq) == Filter(s', pq) + (if pq(x) then [x] else []);
      if p(x) {
        assert Filter(s, p) == Filter(s', p) + [x];
        FilterSnoc(Filter(s', p), x, q);
      } else {
        assert Filter(s, p) == Filter(s', p) + [];
        assert Filter(s', p) + [] == Filter(s', p);
        assert Filter(s', pq) + [] == Filter(s', pq);
      }
    }
  }

  /** `R` holds between every element and each later one. */
  ghost predicate Pairwise<T>(s: seq<T>, R: (T, T) -> bool) {
    forall i, j :: 0 <= i < j < |s| ==> R(s[i], s[j])
  }

  /** A selection keeps every pair in its original order, so keeps a pairwise property. */
  lemma {:induction false} FilterPairwise<T>(s: seq<T>, p: T -> bool, R: (T, T) -> bool)
    requires Pairwise(s, R)
    ensures Pairwise(Filter(s, p), R)
    decreases |s|
  {
    if s != [] {
      var s' := s[..|s| - 1];
      var x := s[|s| - 1];
      assert Pairwise(s', R) by {
        forall i, j | 0 <= i < j < |s'| ensures R(s'[i], s'[j]) {
          assert s'[i] == s[i] && s'[j] == s[j];
        }
      }
      FilterPairwise(s', p, R);
      var r' := Filter(s', p);
      forall y | y in r' ensures R(y, x) {
        var k :| 0 <= k < |s'| && s'[k] == y;
        assert s[k] == y;
      }
      if p(x) {
        SnocPairwise(r', x, R);
      } else {
        assert Filter(s, p) == r' + [];
        assert r' + [] == r';
      }
    }
  }

  /** Appending an element related to everything before it keeps a pairwise property. */
  lemma SnocPairwise<T>(s: seq<T>, x: T, R: (T, T) -> bool)
    requires Pairwise(s, R) && forall y :: y in s ==> R(y, x)
    ensures Pairwise(s + [x], R)
  {
    forall i, j | 0 <= i < j < |s + [x]| ensures R((s + [x])[i], (s + [x])[j]) {
      if j == |s| {
        assert (s + [x])[i] in s;
      }
    }
  }
}
