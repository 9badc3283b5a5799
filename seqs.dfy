/** Small sequence utilities shared by the aggregator and the change tracker. */
module Seqs {

  /** Applies `f` to every element, keeping the order (a Python list comprehension). */
  function MapSeq<T, U>(s: seq<T>, f: T -> U): (r: seq<U>)
    ensures |r| == |s|
    ensures forall i :: 0 <= i < |s| ==> r[i] == f(s[i])
  {
    if s == [] then [] else [f(s[0])] + MapSeq(s[1..], f)
  }

  /** Python's `reversed(s)`. */
  function Reverse<T>(s: seq<T>): (r: seq<T>)
    ensures |r| == |s|
    ensures forall i :: 0 <= i < |s| ==> r[i] == s[|s| - 1 - i]
  {
    if s == [] then [] else Reverse(s[1..]) + [s[0]]
  }

  /** No element occurs twice (the keys of a Python dict, for instance). */
  predicate Unique<T(==)>(s: seq<T>)
  {
    forall x :: x in s ==> multiset(s)[x] <= 1
  }

  lemma {:induction false} ReverseMultiset<T>(s: seq<T>)
    ensures multiset(Reverse(s)) == multiset(s)
  {
    if s != [] {
      ReverseMultiset(s[1..]);
      assert s == [s[0]] + s[1..];
    }
  }

  /** Mapping commutes with reversal. */
  lemma MapSeqReverse<T, U>(s: seq<T>, f: T -> U)
    ensures MapSeq(Reverse(s), f) == Reverse(MapSeq(s, f))
  {
  }

  /** Mapping twice is mapping once with the composition. */
  lemma MapSeqCompose<A, B, C>(s: seq<A>, f: A -> B, g: B -> C, h: A -> C)
    requires forall x :: g(f(x)) == h(x)
    ensures MapSeq(MapSeq(s, f), g) == MapSeq(s, h)
  {
  }

  lemma MapSeqConcat<T, U>(a: seq<T>, b: seq<T>, f: T -> U)
    ensures MapSeq(a + b, f) == MapSeq(a, f) + MapSeq(b, f)
  {
  }

  /** Uniqueness splits into "the head is not repeated" and "the tail is unique". */
  lemma UniqueCons<T>(s: seq<T>)
    requires Unique(s) && s != []
    ensures s[0] !in s[1..] && Unique(s[1..])
  {
    assert s == [s[0]] + s[1..];
    assert multiset(s) == multiset{s[0]} + multiset(s[1..]);
    assert s[0] in s && multiset(s)[s[0]] <= 1;
    assert multiset(s[1..])[s[0]] == 0;
    forall x | x in s[1..] ensures multiset(s[1..])[x] <= 1 {
      assert multiset(s)[x] <= 1;
    }
  }

  /** Having the same elements with the same multiplicities keeps uniqueness. */
  lemma UniqueMultiset<T>(a: seq<T>, b: seq<T>)
    requires Unique(a) && multiset(a) == multiset(b)
    ensures Unique(b)
  {
    forall x | x in b ensures multiset(b)[x] <= 1 {
      assert x in multiset(b);
      assert x in a;
    }
  }
}
