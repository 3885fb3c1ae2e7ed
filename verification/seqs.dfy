/** Sequence helpers with the JavaScript array semantics the source uses. */
module Seqs {

  predicate Distinct<T(==)>(s: seq<T>) {
    forall i, j :: 0 <= i < j < |s| ==> s[i] != s[j]
  }

  /** `Array.from(new Set(s))`: every value of the list once. */
  function Dedup<T(==,!new)>(s: seq<T>): (r: seq<T>)
    ensures forall x :: x in r <==> x in s
    ensures Distinct(r)
    ensures |r| <= |s|
  {
    if |s| == 0 then []
    else
      var init := Dedup(s[..|s| - 1]);
      var last := s[|s| - 1];
      assert forall x :: x in s <==> x in s[..|s| - 1] || x == last;
      if last in init then init else init + [last]
  }

  /** `Math.min(a, b)`. */
  function Min(a: int, b: int): int {
    if a <= b then a else b
  }

  /** `s.slice(0, n)` for a non-negative `n`: the first `n` elements, or all. */
  function Take<T>(s: seq<T>, n: nat): (r: seq<T>)
    ensures |r| == Min(n, |s|)
    ensures r == s[..|r|]
  {
    if n < |s| then s[..n] else s
  }

  /** Removing the same element from two permutations leaves permutations. */
  lemma MultisetCancel<T>(p: seq<T>, q1: seq<T>, q2: seq<T>, x: T)
    requires multiset(p + [x]) == multiset(q1 + [x] + q2)
    ensures multiset(p) == multiset(q1 + q2)
  {
    assert multiset(p + [x]) == multiset(p) + multiset{x};
    assert q1 + [x] + q2 == (q1 + q2)[..|q1|] + [x] + (q1 + q2)[|q1|..];
    assert multiset(q1 + [x] + q2) == multiset(q1) + multiset{x} + multiset(q2);
    assert multiset(q1 + q2) == multiset(q1) + multiset(q2);
    forall y
      ensures multiset(p)[y] == multiset(q1 + q2)[y]
    {
      assert multiset(p + [x])[y] == multiset(p)[y] + multiset{x}[y];
    }
  }
}
