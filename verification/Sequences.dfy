/** Order-preserving selection from sequences. */
module Sequences {

  function Filter<T>(s: seq<T>, f: T -> bool): (r: seq<T>)
    ensures |r| <= |s|
  {
    if s == [] then []
    else
      var init, last := s[..|s| - 1], s[|s| - 1];
      if f(last) then Filter(init, f) + [last] else Filter(init, f)
  }

  /** Every element is related to every later one. */
  ghost predicate Pairwise<T(!new)>(s: seq<T>, r: (T, T) -> bool) {
    forall i, j :: 0 <= i < j < |s| ==> r(s[i], s[j])
  }

  lemma {:induction false} FilterIn<T>(s: seq<T>, f: T -> bool, x: T)
    ensures x in Filter(s, f) <==> x in s && f(x)
  {
    if s != [] {
      var init, last := s[..|s| - 1], s[|s| - 1];
      assert s == init + [last];
      FilterIn(init, f, x);
    }
  }

  lemma {:induction false} FilterAll<T>(s: seq<T>, f: T -> bool)
    requires forall x :: x in s ==> f(x)
    ensures Filter(s, f) == s
  {
    if s != [] {
      assert s == s[..|s| - 1] + [s[|s| - 1]];
      FilterAll(s[..|s| - 1], f);
    }
  }

  lemma {:induction false} FilterConcat<T>(s: seq<T>, t: seq<T>, f: T -> bool)
    ensures Filter(s + t, f) == Filter(s, f) + Filter(t, f)
  {
    if t == [] {
      assert s + t == s;
    } else {
      var init, last := t[..|t| - 1], t[|t| - 1];
      assert (s + t)[..|s + t| - 1] == s + init;
      FilterConcat(s, init, f);
    }
  }

  lemma {:induction false} FilterPairwise<T(!new)>(s: seq<T>, f: T -> bool, r: (T, T) -> bool)
    requires Pairwise(s, r)
    ensures Pairwise(Filter(s, f), r)
  {
    if s != [] {
      var init, last := s[..|s| - 1], s[|s| - 1];
      FilterPairwise(init, f, r);
      var kept := Filter(init, f);
      forall i | 0 <= i < |kept| ensures r(kept[i], last) {
        FilterIn(init, f, kept[i]);
        var k :| 0 <= k < |init| && init[k] == kept[i];
        assert r(s[k], s[|s| - 1]);
      }
    }
  }

  lemma {:induction false} PairwiseAppend<T(!new)>(s: seq<T>, t: seq<T>, r: (T, T) -> bool)
    requires Pairwise(s, r) && Pairwise(t, r)
    requires forall x, y :: x in s && y in t ==> r(x, y)
    ensures Pairwise(s + t, r)
  {
  }
}
