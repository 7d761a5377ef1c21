/** Facts about sequences used by the timetable proofs. */
module Sequences {

  /** No element occurs twice. */
  predicate Distinct<T(==)>(s: seq<T>)
  {
    forall i, j :: 0 <= i < j < |s| ==> s[i] != s[j]
  }

  /** In a duplicate-free sequence every element occurs exactly once. */
  lemma {:induction false} DistinctOccursOnce<T>(s: seq<T>, x: T)
    requires Distinct(s)
    ensures multiset(s)[x] == if x in s then 1 else 0
  {
    if s != [] {
      var n := |s| - 1;
      assert s == s[..n] + [s[n]];
      DistinctOccursOnce(s[..n], x);
      assert x in s <==> x in s[..n] || x == s[n];
    }
  }

  /** Two duplicate-free sequences with the same elements are permutations of
      each other. */
  lemma DistinctSameElements<T>(a: seq<T>, b: seq<T>)
    requires Distinct(a) && Distinct(b)
    requires forall x :: x in a <==> x in b
    ensures multiset(a) == multiset(b)
  {
    forall x
      ensures multiset(a)[x] == multiset(b)[x]
    {
      DistinctOccursOnce(a, x);
      DistinctOccursOnce(b, x);
    }
  }

  /** Taking out the element at position `j`. */
  function Without<T>(s: seq<T>, j: nat): (r: seq<T>)
    requires j < |s|
    ensures multiset(r) + multiset{s[j]} == multiset(s)
  {
    assert s == s[..j] + [s[j]] + s[j + 1..];
    s[..j] + s[j + 1..]
  }

  /** Taking the same element off two permutations leaves permutations. */
  lemma RemoveSame<T>(a: seq<T>, b: seq<T>, x: T)
    requires multiset(a + [x]) == multiset(b) + multiset{x}
    ensures multiset(a) == multiset(b)
  {
    assert multiset(a + [x]) == multiset(a) + multiset{x};
    forall y
      ensures multiset(a)[y] == multiset(b)[y]
    {
      assert (multiset(a) + multiset{x})[y] == (multiset(b) + multiset{x})[y];
    }
  }

  /** A position at which an element of the sequence occurs. */
  lemma IndexOf<T>(s: seq<T>, x: T) returns (j: nat)
    requires x in multiset(s)
    ensures j < |s| && s[j] == x
  {
    assert x in s;
    j :| 0 <= j < |s| && s[j] == x;
  }

  /** Taking an element out of a duplicate-free sequence leaves the others,
      still without duplicates. */
  lemma DistinctWithout<T>(s: seq<T>, j: nat)
    requires Distinct(s) && j < |s|
    ensures Distinct(Without(s, j))
    ensures forall x :: x in Without(s, j) <==> x in s && x != s[j]
  {
    var r := Without(s, j);
    forall p, q | 0 <= p < q < |r|
      ensures r[p] != r[q]
    {
      var p', q' := if p < j then p else p + 1, if q < j then q else q + 1;
      assert r[p] == s[p'] && r[q] == s[q'];
    }
    forall x
      ensures x in r <==> x in s && x != s[j]
    {
      assert s == s[..j] + [s[j]] + s[j + 1..];
      assert x in s <==> x in s[..j] || x == s[j] || x in s[j + 1..];
      assert s[j] !in s[..j] && s[j] !in s[j + 1..];
    }
  }
}
