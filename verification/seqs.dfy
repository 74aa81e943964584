/** Order-preserving selection over sequences, the model of a queryset `filter(...)`. */
module Seqs {

  /** The elements of `s` satisfying `p`, in their original order. */
  function Filter<T(==,!new)>(s: seq<T>, p: T -> bool): (r: seq<T>)
    ensures |r| <= |s|
    ensures forall x :: multiset(r)[x] == if p(x) then multiset(s)[x] else 0
    ensures forall x :: x in r <==> x in s && p(x)
  {
    if |s| == 0 then
      []
    else
      var rest := Filter(s[1..], p);
      assert s == [s[0]] + s[1..];
      var r := if p(s[0]) then [s[0]] + rest else rest;
      assert forall x :: x in multiset(r) <==> x in r;
      r
  }

  /** Selecting with a condition no element meets selects nothing. */
  lemma FilterNone<T(!new)>(s: seq<T>, p: T -> bool)
    requires forall x :: x in s ==> !p(x)
    ensures Filter(s, p) == []
  {
  }

  /** Selecting with a condition every element meets selects everything. */
  lemma {:induction false} FilterAll<T(!new)>(s: seq<T>, p: T -> bool)
    requires forall x :: x in s ==> p(x)
    ensures Filter(s, p) == s
  {
    if |s| > 0 {
      var t := s[1..];
      forall x | x in t
        ensures p(x)
      {
        assert x in s;
      }
      FilterAll(t, p);
      assert p(s[0]);
      assert s == [s[0]] + t;
    }
  }

  /** One step of the selection: the first element, then the rest. */
  lemma FilterCons<T(!new)>(x: T, s: seq<T>, p: T -> bool)
    ensures Filter([x] + s, p) == if p(x) then [x] + Filter(s, p) else Filter(s, p)
  {
    assert ([x] + s)[1..] == s;
  }
}
