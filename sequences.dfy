/** Order-preserving filtering, the one sequence operation the BOSCH page
    applies twice: to the inbound rows (a boolean mask on the supplier
    column) and to the working table (the depot-code test of the output
    loop). */
module Sequences {

  /** The elements of `s` that satisfy `p`, in their order in `s`. */
  function Filter<T>(s: seq<T>, p: T -> bool): (r: seq<T>)
    ensures |r| <= |s|
  {
    if s == [] then []
    else
      var last := s[|s| - 1];
      Filter(s[..|s| - 1], p) + (if p(last) then [last] else [])
  }

  /** One more element at the end is kept at the end, or dropped. */
  lemma FilterSnoc<T>(s: seq<T>, x: T, p: T -> bool)
    ensures Filter(s + [x], p) == Filter(s, p) + (if p(x) then [x] else [])
  {
    assert (s + [x])[..|s|] == s;
  }

  /** An element is kept exactly when it is in `s` and satisfies `p`. */
  lemma {:induction false} FilterMembers<T>(s: seq<T>, p: T -> bool)
    ensures forall x :: x in Filter(s, p) <==> x in s && p(x)
  {
    if s != [] {
      var n := |s| - 1;
      FilterMembers(s[..n], p);
      assert s == s[..n] + [s[n]];
    }
  }

  /** Filtering distributes over concatenation: the kept elements of the
      first part come before those of the second. */
  lemma {:induction false} FilterConcat<T>(a: seq<T>, b: seq<T>, p: T -> bool)
    ensures Filter(a + b, p) == Filter(a, p) + Filter(b, p)
  {
    if b == [] {
      assert a + b == a;
    } else {
      var n := |b| - 1;
      FilterConcat(a, b[..n], p);
      assert a + b == (a + b[..n]) + [b[n]];
      assert b == b[..n] + [b[n]];
      FilterSnoc(a + b[..n], b[n], p);
      FilterSnoc(b[..n], b[n], p);
    }
  }

  /** When every element satisfies `p`, all are kept. */
  lemma {:induction false} FilterAll<T>(s: seq<T>, p: T -> bool)
    requires forall i :: 0 <= i < |s| ==> p(s[i])
    ensures Filter(s, p) == s
  {
    if s != [] {
      var n := |s| - 1;
      FilterAll(s[..n], p);
      assert s == s[..n] + [s[n]];
    }
  }

  /** A first element that satisfies `p` stays first. */
  lemma FilterKeepsFirst<T>(s: seq<T>, p: T -> bool)
    requires s != [] && p(s[0])
    ensures Filter(s, p) != [] && Filter(s, p)[0] == s[0]
  {
    var none: seq<T> := [];
    assert s == [s[0]] + s[1..];
    assert none + [s[0]] == [s[0]];
    FilterSnoc(none, s[0], p);
    FilterConcat([s[0]], s[1..], p);
  }

  /** A last element that satisfies `p` stays last. */
  lemma FilterKeepsLast<T>(s: seq<T>, p: T -> bool)
    requires s != [] && p(s[|s| - 1])
    ensures Filter(s, p) != [] && Filter(s, p)[|Filter(s, p)| - 1] == s[|s| - 1]
  {
  }

  /** Nothing is kept exactly when no element satisfies `p`. */
  lemma FilterEmpty<T>(s: seq<T>, p: T -> bool)
    ensures Filter(s, p) == [] <==> forall i :: 0 <= i < |s| ==> !p(s[i])
  {
    FilterMembers(s, p);
    if Filter(s, p) != [] {
      assert Filter(s, p)[0] in Filter(s, p);
    }
    if exists i :: 0 <= i < |s| && p(s[i]) {
      var i :| 0 <= i < |s| && p(s[i]);
      assert s[i] in s;
    }
  }

  /** Of three elements of which only the middle one fails `p`, the first
      and the last are kept, in that order. */
  lemma FilterDropsMiddle<T>(a: T, b: T, c: T, p: T -> bool)
    requires p(a) && !p(b) && p(c)
    ensures Filter([a, b, c], p) == [a, c]
  {
    var none: seq<T> := [];
    assert none + [a] == [a];
    assert [a] + [b] == [a, b];
    assert [a, b] + [c] == [a, b, c];
    FilterSnoc(none, a, p);
    FilterSnoc([a], b, p);
    FilterSnoc([a, b], c, p);
  }

  /** `f` applied to every element of `s`, in order. */
  function Map<A, B>(s: seq<A>, f: A -> B): (r: seq<B>)
    ensures |r| == |s|
    ensures forall k :: 0 <= k < |s| ==> r[k] == f(s[k])
  {
    seq(|s|, k requires 0 <= k < |s| => f(s[k]))
  }

  /** Mapping one more element adds its image at the end. */
  lemma MapSnoc<A, B>(s: seq<A>, x: A, f: A -> B)
    ensures Map(s + [x], f) == Map(s, f) + [f(x)]
  {
  }

  /** Two sequences whose elements agree pointwise on the test and on the
      image give the same images of the kept elements. */
  lemma {:induction false} MapFilterPointwise<A, B>(s1: seq<A>, s2: seq<A>, p: A -> bool, f: A -> B)
    requires |s1| == |s2|
    requires forall i :: 0 <= i < |s1| ==> p(s1[i]) == p(s2[i]) && f(s1[i]) == f(s2[i])
    ensures Map(Filter(s1, p), f) == Map(Filter(s2, p), f)
  {
    if s1 != [] {
      var n := |s1| - 1;
      MapFilterPointwise(s1[..n], s2[..n], p, f);
      assert s1 == s1[..n] + [s1[n]];
      assert s2 == s2[..n] + [s2[n]];
      FilterSnoc(s1[..n], s1[n], p);
      FilterSnoc(s2[..n], s2[n], p);
      if p(s1[n]) {
        MapSnoc(Filter(s1[..n], p), s1[n], f);
        MapSnoc(Filter(s2[..n], p), s2[n], f);
      }
    }
  }
}
