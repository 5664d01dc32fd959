/** Filtering a sequence, as a queryset `filter` narrows a result set and keeps its order. */
module Seqs {

  function Filter<T>(s: seq<T>, p: T -> bool): (r: seq<T>)
    ensures |r| <= |s|
    ensures forall x :: x in r ==> x in s && p(x)
  {
    if s == [] then [] else Filter(s[..|s| - 1], p) + (if p(s[|s| - 1]) then [s[|s| - 1]] else [])
  }

  /** The filtered sequence holds every element that passes, as often as the input does. */
  lemma {:induction false} FilterCount<T>(s: seq<T>, p: T -> bool, x: T)
    ensures multiset(Filter(s, p))[x] == if p(x) then multiset(s)[x] else 0
  {
    if s != [] {
      var init := s[..|s| - 1];
      assert s == init + [s[|s| - 1]];
      FilterCount(init, p, x);
    }
  }

  lemma FilterMembership<T>(s: seq<T>, p: T -> bool, x: T)
    ensures x in Filter(s, p) <==> x in s && p(x)
  {
    FilterCount(s, p, x);
  }

  /** `before` holds between every earlier and every later element of `s`. */
  ghost predicate Chain<T>(s: seq<T>, before: (T, T) -> bool) {
    forall i, j :: 0 <= i < j < |s| ==> before(s[i], s[j])
  }

  /** Filtering keeps the relative order of what it keeps. */
  lemma {:induction false} FilterKeepsOrder<T>(s: seq<T>, p: T -> bool, before: (T, T) -> bool)
    requires Chain(s, before)
    ensures Chain(Filter(s, p), before)
  {
    if s != [] {
      var init := s[..|s| - 1];
      var last := s[|s| - 1];
      assert Chain(init, before) by {
        forall i, j | 0 <= i < j < |init| ensures before(init[i], init[j]) {
          assert init[i] == s[i] && init[j] == s[j];
        }
      }
      FilterKeepsOrder(init, p, before);
      var f := Filter(init, p);
      forall y | y in f ensures before(y, last) {
        var k :| 0 <= k < |init| && init[k] == y;
        assert s[k] == y;
      }
      var r := Filter(s, p);
      if p(last) {
        assert r == f + [last];
        forall i, j | 0 <= i < j < |r| ensures before(r[i], r[j]) {
          if j < |f| {
            assert r[i] == f[i] && r[j] == f[j];
          } else {
            assert r[i] == f[i] && f[i] in f && r[j] == last;
          }
        }
      } else {
        assert r == f;
      }
    }
  }
}
