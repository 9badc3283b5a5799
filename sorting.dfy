/**
 * Python's built-in `sorted(xs, key=k, reverse=d)` on a list whose keys are numbers.
 *
 * Python's sort is stable, also when `reverse=True`: elements with equal keys keep
 * their original relative order. Any stable sort produces the same list, so it is
 * modelled here by a stable insertion sort.
 */
module Sorting {
  import opened Seqs

  /** Key `a` must be placed strictly before key `b` (ascending: `a < b`, descending: `a > b`). */
  predicate Before(a: real, b: real, descending: bool)
  {
    if descending then a > b else a < b
  }

  /** No element has a key that must come before the key of an earlier element. */
  predicate Ordered<T>(s: seq<T>, key: T -> real, descending: bool)
  {
    forall i, j :: 0 <= i < j < |s| ==> !Before(key(s[j]), key(s[i]), descending)
  }

  /** The elements whose key equals `v`, in their order of appearance. */
  function WithKey<T>(s: seq<T>, key: T -> real, v: real): seq<T>
  {
    if s == [] then [] else (if key(s[0]) == v then [s[0]] else []) + WithKey(s[1..], key, v)
  }

  /** Inserts `x` after every element that does not have to follow it. */
  function Insert<T>(t: seq<T>, x: T, key: T -> real, descending: bool): seq<T>
  {
    if t == [] then [x]
    else if Before(key(x), key(t[0]), descending) then [x] + t
    else [t[0]] + Insert(t[1..], x, key, descending)
  }

  /** `sorted(s, key=key, reverse=descending)`. */
  function SortBy<T>(s: seq<T>, key: T -> real, descending: bool): seq<T>
  {
    if s == [] then []
    else Insert(SortBy(s[..|s| - 1], key, descending), s[|s| - 1], key, descending)
  }

  lemma {:induction false} InsertMultiset<T>(t: seq<T>, x: T, key: T -> real, descending: bool)
    ensures multiset(Insert(t, x, key, descending)) == multiset(t) + multiset{x}
    ensures |Insert(t, x, key, descending)| == |t| + 1
  {
    if t != [] && !Before(key(x), key(t[0]), descending) {
      InsertMultiset(t[1..], x, key, descending);
      assert t == [t[0]] + t[1..];
    }
  }

  lemma {:induction false} InsertMapMultiset<T, U>(t: seq<T>, x: T, key: T -> real, descending: bool, f: T -> U)
    ensures multiset(MapSeq(Insert(t, x, key, descending), f)) == multiset(MapSeq(t, f)) + multiset{f(x)}
  {
    if t == [] {
      assert MapSeq([x], f) == [f(x)];
    } else if Before(key(x), key(t[0]), descending) {
      MapSeqConcat([x], t, f);
      assert MapSeq([x], f) == [f(x)];
    } else {
      var tail := Insert(t[1..], x, key, descending);
      assert Insert(t, x, key, descending) == [t[0]] + tail;
      InsertMapMultiset(t[1..], x, key, descending, f);
      MapSeqConcat([t[0]], tail, f);
      MapSeqConcat([t[0]], t[1..], f);
      assert MapSeq([t[0]], f) == [f(t[0])];
      assert t == [t[0]] + t[1..];
    }
  }

  lemma {:induction false} InsertOrdered<T>(t: seq<T>, x: T, key: T -> real, descending: bool)
    requires Ordered(t, key, descending)
    ensures Ordered(Insert(t, x, key, descending), key, descending)
  {
    if t == [] {
    } else if Before(key(x), key(t[0]), descending) {
      var r := [x] + t;
      forall i, j | 0 <= i < j < |r| ensures !Before(key(r[j]), key(r[i]), descending) {
        if i > 0 {
          assert r[i] == t[i - 1] && r[j] == t[j - 1];
        } else {
          assert r[j] == t[j - 1];
          assert !Before(key(t[j - 1]), key(t[0]), descending);
        }
      }
    } else {
      var tail := Insert(t[1..], x, key, descending);
      InsertOrdered(t[1..], x, key, descending);
      InsertMultiset(t[1..], x, key, descending);
      var r := [t[0]] + tail;
      forall i, j | 0 <= i < j < |r| ensures !Before(key(r[j]), key(r[i]), descending) {
        if i > 0 {
          assert r[i] == tail[i - 1] && r[j] == tail[j - 1];
        } else {
          assert r[j] == tail[j - 1];
          assert r[j] in multiset(t[1..]) + multiset{x};
          if r[j] != x {
            assert r[j] in t[1..];
            var k :| 0 <= k < |t[1..]| && t[1..][k] == r[j];
            assert t[k + 1] == r[j];
          }
        }
      }
    }
  }

  /** With `t` ordered, inserting `x` appends it to the run of elements sharing its key. */
  lemma {:induction false} InsertWithKey<T>(t: seq<T>, x: T, key: T -> real, descending: bool, v: real)
    requires Ordered(t, key, descending)
    ensures WithKey(Insert(t, x, key, descending), key, v)
         == WithKey(t, key, v) + (if key(x) == v then [x] else [])
  {
    if t == [] {
    } else if Before(key(x), key(t[0]), descending) {
      assert ([x] + t)[1..] == t;
      if key(x) == v {
        forall j | 0 <= j < |t| ensures key(t[j]) != v {
          if j > 0 {
            assert !Before(key(t[j]), key(t[0]), descending);
          }
        }
        NoneWithKey(t, key, v);
      }
    } else {
      InsertWithKey(t[1..], x, key, descending, v);
      assert ([t[0]] + Insert(t[1..], x, key, descending))[1..] == Insert(t[1..], x, key, descending);
    }
  }

  lemma {:induction false} NoneWithKey<T>(t: seq<T>, key: T -> real, v: real)
    requires forall j :: 0 <= j < |t| ==> key(t[j]) != v
    ensures WithKey(t, key, v) == []
  {
    if t != [] {
      NoneWithKey(t[1..], key, v);
    }
  }

  lemma {:induction false} WithKeyConcat<T>(a: seq<T>, b: seq<T>, key: T -> real, v: real)
    ensures WithKey(a + b, key, v) == WithKey(a, key, v) + WithKey(b, key, v)
  {
    if a == [] {
      assert a + b == b;
    } else {
      WithKeyConcat(a[1..], b, key, v);
      assert (a + b)[1..] == a[1..] + b;
    }
  }

  /** The result of `sorted` is ordered by the key. */
  lemma {:induction false} SortByOrdered<T>(s: seq<T>, key: T -> real, descending: bool)
    ensures Ordered(SortBy(s, key, descending), key, descending)
  {
    if s != [] {
      SortByOrdered(s[..|s| - 1], key, descending);
      InsertOrdered(SortBy(s[..|s| - 1], key, descending), s[|s| - 1], key, descending);
    }
  }

  /** The result of `sorted` is a permutation of its input. */
  lemma {:induction false} SortByPermutation<T>(s: seq<T>, key: T -> real, descending: bool)
    ensures |SortBy(s, key, descending)| == |s|
    ensures multiset(SortBy(s, key, descending)) == multiset(s)
  {
    if s != [] {
      var init := s[..|s| - 1];
      SortByPermutation(init, key, descending);
      InsertMultiset(SortBy(init, key, descending), s[|s| - 1], key, descending);
      assert s == init + [s[|s| - 1]];
    }
  }

  /** Any projection of the elements keeps its multiset under `sorted`. */
  lemma {:induction false} SortByMapMultiset<T, U>(s: seq<T>, key: T -> real, descending: bool, f: T -> U)
    ensures multiset(MapSeq(SortBy(s, key, descending), f)) == multiset(MapSeq(s, f))
  {
    if s != [] {
      var init, last := s[..|s| - 1], s[|s| - 1];
      var sorted := SortBy(init, key, descending);
      assert SortBy(s, key, descending) == Insert(sorted, last, key, descending);
      SortByMapMultiset(init, key, descending, f);
      InsertMapMultiset(sorted, last, key, descending, f);
      MapSnocMultiset(s, f);
    }
  }

  lemma MapSnocMultiset<T, U>(s: seq<T>, f: T -> U)
    requires s != []
    ensures multiset(MapSeq(s, f)) == multiset(MapSeq(s[..|s| - 1], f)) + multiset{f(s[|s| - 1])}
  {
    var init, last := s[..|s| - 1], s[|s| - 1];
    assert s == init + [last];
    MapSeqConcat(init, [last], f);
    assert MapSeq([last], f) == [f(last)];
  }

  /** Stability: the elements sharing one key value come out in their input order. */
  lemma {:induction false} SortByStable<T>(s: seq<T>, key: T -> real, descending: bool, v: real)
    ensures WithKey(SortBy(s, key, descending), key, v) == WithKey(s, key, v)
  {
    if s != [] {
      var init := s[..|s| - 1];
      SortByStable(init, key, descending, v);
      SortByOrdered(init, key, descending);
      InsertWithKey(SortBy(init, key, descending), s[|s| - 1], key, descending, v);
      assert s == init + [s[|s| - 1]];
      WithKeyConcat(init, [s[|s| - 1]], key, v);
    }
  }
}
