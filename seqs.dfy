/** Order-preserving filters and maps over sequences: the in-memory form of a table scan. */
module Seqs {

  /** The elements of `s` that satisfy `p`, in their original order (JavaScript `Array.filter`). */
  function Filter<T>(s: seq<T>, p: T -> bool): (r: seq<T>)
    ensures |r| <= |s|
    ensures forall i :: 0 <= i < |r| ==> r[i] in s && p(r[i])
    ensures forall i :: 0 <= i < |s| && p(s[i]) ==> s[i] in r
    decreases |s|
  {
    if s == [] then []
    else
      var init, x := s[..|s| - 1], s[|s| - 1];
      assert forall y :: y in init ==> y in s;
      assert forall i :: 0 <= i < |init| ==> init[i] == s[i];
      if p(x) then Filter(init, p) + [x] else Filter(init, p)
  }

  /** `f` applied to every element, in order (JavaScript `Array.map`). */
  function Map<T, U>(s: seq<T>, f: T -> U): (r: seq<U>)
    ensures |r| == |s|
    ensures forall i :: 0 <= i < |s| ==> r[i] == f(s[i])
    decreases |s|
  {
    if s == [] then [] else Map(s[..|s| - 1], f) + [f(s[|s| - 1])]
  }

  /** True when some element of `s` satisfies `p` (JavaScript `Array.some`). */
  predicate Some<T>(s: seq<T>, p: T -> bool) {
    exists i :: 0 <= i < |s| && p(s[i])
  }

  /** A filter of a sequence with one more element at its end. */
  lemma {:induction false} FilterSnoc<T>(s: seq<T>, x: T, p: T -> bool)
    ensures Filter(s + [x], p) == if p(x) then Filter(s, p) + [x] else Filter(s, p)
  {
    assert (s + [x])[..|s|] == s;
  }

  /** One more element of `s` read by a loop extends the filter of the prefix read so far. */
  lemma {:induction false} FilterPrefixStep<T>(s: seq<T>, i: nat, p: T -> bool)
    requires i < |s|
    ensures Filter(s[..i + 1], p) == if p(s[i]) then Filter(s[..i], p) + [s[i]] else Filter(s[..i], p)
  {
    assert s[..i + 1] == s[..i] + [s[i]];
    FilterSnoc(s[..i], s[i], p);
  }

  lemma {:induction false} FilterAppend<T>(a: seq<T>, b: seq<T>, p: T -> bool)
    ensures Filter(a + b, p) == Filter(a, p) + Filter(b, p)
    decreases |b|
  {
    if b == [] {
      assert a + b == a;
    } else {
      var init, x := b[..|b| - 1], b[|b| - 1];
      assert a + b == (a + init) + [x];
      assert b == init + [x];
      FilterAppend(a, init, p);
      FilterSnoc(a + init, x, p);
      FilterSnoc(init, x, p);
    }
  }

  /** A filter that every element passes keeps the whole sequence. */
  lemma {:induction false} FilterKeepsAll<T>(s: seq<T>, p: T -> bool)
    requires forall i :: 0 <= i < |s| ==> p(s[i])
    ensures Filter(s, p) == s
    decreases |s|
  {
    if s != [] {
      FilterKeepsAll(s[..|s| - 1], p);
      assert s == s[..|s| - 1] + [s[|s| - 1]];
    }
  }

  /** A filter that no element passes keeps nothing. */
  lemma {:induction false} FilterKeepsNone<T>(s: seq<T>, p: T -> bool)
    requires forall i :: 0 <= i < |s| ==> !p(s[i])
    ensures Filter(s, p) == []
    decreases |s|
  {
    if s != [] {
      FilterKeepsNone(s[..|s| - 1], p);
    }
  }

  /** Filtering first by a weaker predicate changes nothing. */
  lemma {:induction false} FilterAbsorbs<T>(s: seq<T>, p: T -> bool, q: T -> bool)
    requires forall x :: q(x) ==> p(x)
    ensures Filter(Filter(s, p), q) == Filter(s, q)
    decreases |s|
  {
    if s != [] {
      var init, x := s[..|s| - 1], s[|s| - 1];
      FilterAbsorbs(init, p, q);
      if p(x) {
        FilterSnoc(Filter(init, p), x, q);
      }
    }
  }

  /** Filters commute. */
  lemma {:induction false} FilterCommutes<T>(s: seq<T>, p: T -> bool, q: T -> bool)
    ensures Filter(Filter(s, p), q) == Filter(Filter(s, q), p)
    decreases |s|
  {
    if s != [] {
      var init, x := s[..|s| - 1], s[|s| - 1];
      FilterCommutes(init, p, q);
      FilterSnoc(Filter(init, p), x, q);
      FilterSnoc(Filter(init, q), x, p);
    }
  }

  /** Filters agreeing on every element of `s` select the same subsequence. */
  lemma {:induction false} FilterCongruent<T>(s: seq<T>, p: T -> bool, q: T -> bool)
    requires forall i :: 0 <= i < |s| ==> p(s[i]) == q(s[i])
    ensures Filter(s, p) == Filter(s, q)
    decreases |s|
  {
    if s != [] {
      FilterCongruent(s[..|s| - 1], p, q);
    }
  }

  /**
   * Rewriting elements with `f` is invisible to a filter `q` when `f` keeps
   * `q`'s verdict and leaves every element `q` accepts untouched.
   */
  lemma {:induction false} FilterAfterMap<T>(s: seq<T>, f: T -> T, q: T -> bool)
    requires forall x :: q(f(x)) == q(x)
    requires forall x :: q(x) ==> f(x) == x
    ensures Filter(Map(s, f), q) == Filter(s, q)
    decreases |s|
  {
    if s != [] {
      var init := s[..|s| - 1];
      FilterAfterMap(init, f, q);
      FilterSnoc(Map(init, f), f(s[|s| - 1]), q);
    }
  }

  /** The number of elements of a filter, counted through a map that keeps the verdict. */
  lemma {:induction false} FilterMapLength<T>(s: seq<T>, f: T -> T, q: T -> bool)
    requires forall x :: q(f(x)) == q(x)
    ensures |Filter(Map(s, f), q)| == |Filter(s, q)|
    decreases |s|
  {
    if s != [] {
      var init := s[..|s| - 1];
      FilterMapLength(init, f, q);
      FilterSnoc(Map(init, f), f(s[|s| - 1]), q);
    }
  }

  /** Dropping from a filter the one accepted element that `r` singles out shortens it by one. */
  lemma {:induction false} FilterDropsOne<T>(s: seq<T>, p: T -> bool, q: T -> bool, r: T -> bool, k: int)
    requires 0 <= k < |s| && p(s[k]) && r(s[k])
    requires forall i :: 0 <= i < |s| && i != k ==> !r(s[i])
    requires forall x :: q(x) == (p(x) && !r(x))
    ensures |Filter(s, q)| == |Filter(s, p)| - 1
    decreases |s|
  {
    var init := s[..|s| - 1];
    if k == |s| - 1 {
      FilterCongruent(init, q, p);
    } else {
      FilterDropsOne(init, p, q, r, k);
    }
  }

  /** When exactly one element passes, the filter keeps that one alone. */
  lemma {:induction false} FilterSingle<T>(s: seq<T>, p: T -> bool, k: int)
    requires 0 <= k < |s| && p(s[k])
    requires forall i :: 0 <= i < |s| && i != k ==> !p(s[i])
    ensures Filter(s, p) == [s[k]]
    decreases |s|
  {
    var init := s[..|s| - 1];
    if k == |s| - 1 {
      FilterKeepsNone(init, p);
    } else {
      FilterSingle(init, p, k);
    }
  }
}
