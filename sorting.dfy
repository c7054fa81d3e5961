/** Python's `sorted(xs, key=k)`: a stable sort, here by a real-valued key
    in ascending order. `sorted(..., key=k, reverse=True)` is this sort under
    the key `-k`, because Python keeps equal elements in input order under
    `reverse=True` as well. */
module Sorting {

  predicate Ascending<T>(s: seq<T>, key: T -> real)
  {
    forall i, j :: 0 <= i < j < |s| ==> key(s[i]) <= key(s[j])
  }

  /** The elements of `s` whose key is `k`, in order. */
  function WithKey<T>(s: seq<T>, key: T -> real, k: real): (r: seq<T>)
    ensures |r| <= |s|
  {
    if s == [] then []
    else if key(s[0]) == k then [s[0]] + WithKey(s[1..], key, k)
    else WithKey(s[1..], key, k)
  }

  /** Puts `x` in front of the first element whose key is not smaller. */
  function Insert<T>(x: T, s: seq<T>, key: T -> real): seq<T>
  {
    if s == [] || key(x) <= key(s[0]) then [x] + s
    else [s[0]] + Insert(x, s[1..], key)
  }

  function SortBy<T>(s: seq<T>, key: T -> real): seq<T>
  {
    if s == [] then [] else Insert(s[0], SortBy(s[1..], key), key)
  }

  lemma {:induction false} InsertPermutes<T>(x: T, s: seq<T>, key: T -> real)
    ensures multiset(Insert(x, s, key)) == multiset{x} + multiset(s)
  {
    if !(s == [] || key(x) <= key(s[0])) {
      InsertPermutes(x, s[1..], key);
      assert s == [s[0]] + s[1..];
    }
  }

  predicate AtLeast<T>(s: seq<T>, key: T -> real, lo: real)
  {
    forall i :: 0 <= i < |s| ==> lo <= key(s[i])
  }

  /** A bound below `x` and every element of `s` stays below the result. */
  lemma {:induction false} InsertAtLeast<T>(x: T, s: seq<T>, key: T -> real, lo: real)
    requires lo <= key(x) && AtLeast(s, key, lo)
    ensures AtLeast(Insert(x, s, key), key, lo)
  {
    if !(s == [] || key(x) <= key(s[0])) {
      InsertAtLeast(x, s[1..], key, lo);
      var r := Insert(x, s, key);
      forall i | 0 <= i < |r| ensures lo <= key(r[i]) {
        if i > 0 {
          assert r[i] == Insert(x, s[1..], key)[i - 1];
        }
      }
    }
  }

  lemma {:induction false} InsertAscending<T>(x: T, s: seq<T>, key: T -> real)
    requires Ascending(s, key)
    ensures Ascending(Insert(x, s, key), key)
  {
    if !(s == [] || key(x) <= key(s[0])) {
      var rest := Insert(x, s[1..], key);
      InsertAscending(x, s[1..], key);
      InsertAtLeast(x, s[1..], key, key(s[0]));
      var r := [s[0]] + rest;
      forall i, j | 0 <= i < j < |r| ensures key(r[i]) <= key(r[j]) {
        assert r[j] == rest[j - 1];
        if i > 0 {
          assert r[i] == rest[i - 1];
        }
      }
    }
  }

  lemma {:induction false} InsertStable<T>(x: T, s: seq<T>, key: T -> real)
    requires Ascending(s, key)
    ensures forall k :: WithKey(Insert(x, s, key), key, k)
                        == (if key(x) == k then [x] + WithKey(s, key, k) else WithKey(s, key, k))
  {
    if s == [] || key(x) <= key(s[0]) {
      var r := [x] + s;
      assert r[1..] == s;
    } else {
      var rest := Insert(x, s[1..], key);
      InsertStable(x, s[1..], key);
      var r := [s[0]] + rest;
      assert r[1..] == rest;
      forall k ensures WithKey(r, key, k)
                      == (if key(x) == k then [x] + WithKey(s, key, k) else WithKey(s, key, k)) {
        if key(x) == k {
          assert key(s[0]) != k;
        }
      }
    }
  }

  /** The sort returns a permutation of its input that is ascending in the
      key, and elements with equal keys keep their input order. */
  lemma {:induction false} SortByFacts<T>(s: seq<T>, key: T -> real)
    ensures Ascending(SortBy(s, key), key)
    ensures multiset(SortBy(s, key)) == multiset(s)
    ensures |SortBy(s, key)| == |s|
    ensures forall k :: WithKey(SortBy(s, key), key, k) == WithKey(s, key, k)
  {
    if s != [] {
      SortByFacts(s[1..], key);
      InsertPermutes(s[0], SortBy(s[1..], key), key);
      InsertAscending(s[0], SortBy(s[1..], key), key);
      InsertStable(s[0], SortBy(s[1..], key), key);
      assert s == [s[0]] + s[1..];
      assert multiset(s) == multiset{s[0]} + multiset(s[1..]);
      assert |multiset(SortBy(s, key))| == |s|;
    }
  }
}
