/** Python string facts the core relies on: the `<` order on `str`
    (what `np.unique` and `sorted` use), the sorted list of distinct values
    that a LabelEncoder keeps as `classes_`, and the `in` substring test. */
module Strings {

  /** Python's `a < b` on `str`: lexicographic on code points, a proper
      prefix coming first. */
  predicate Lt(a: string, b: string)
    decreases |a|
  {
    if |a| == 0 then |b| > 0
    else if |b| == 0 then false
    else if a[0] != b[0] then a[0] < b[0]
    else Lt(a[1..], b[1..])
  }

  lemma {:induction false} LtIrreflexive(a: string)
    ensures !Lt(a, a)
    decreases |a|
  {
    if |a| > 0 {
      LtIrreflexive(a[1..]);
    }
  }

  lemma {:induction false} LtTransitive(a: string, b: string, c: string)
    requires Lt(a, b) && Lt(b, c)
    ensures Lt(a, c)
    decreases |a|
  {
    if |a| > 0 && |b| > 0 && |c| > 0 && a[0] == b[0] && b[0] == c[0] {
      LtTransitive(a[1..], b[1..], c[1..]);
    }
  }

  lemma {:induction false} LtTrichotomy(a: string, b: string)
    ensures a == b || Lt(a, b) || Lt(b, a)
    decreases |a|
  {
    if |a| > 0 && |b| > 0 && a[0] == b[0] {
      LtTrichotomy(a[1..], b[1..]);
      if a[1..] == b[1..] {
        assert a == [a[0]] + a[1..] && b == [b[0]] + b[1..];
      }
    }
  }

  lemma LtAsymmetric(a: string, b: string)
    requires Lt(a, b)
    ensures !Lt(b, a)
  {
    if Lt(b, a) {
      LtTransitive(a, b, a);
      LtIrreflexive(a);
    }
  }

  /** Strictly increasing in Python's string order, hence free of duplicates. */
  predicate StrictlySorted(s: seq<string>)
  {
    forall i, j :: 0 <= i < j < |s| ==> Lt(s[i], s[j])
  }

  /** Adds `x` to a strictly sorted list at its place, unless it is there. */
  function InsertUnique(x: string, s: seq<string>): (r: seq<string>)
    requires StrictlySorted(s)
    ensures StrictlySorted(r)
    ensures forall y :: y in r <==> y == x || y in s
  {
    if s == [] then [x]
    else if x == s[0] then s
    else if Lt(x, s[0]) then
      assert forall j :: 0 < j < |s| ==> Lt(x, s[j]) by {
        forall j | 0 < j < |s| ensures Lt(x, s[j]) {
          LtTransitive(x, s[0], s[j]);
        }
      }
      [x] + s
    else
      var rest := InsertUnique(x, s[1..]);
      LtTrichotomy(x, s[0]);
      assert forall y :: y in rest ==> Lt(s[0], y) by {
        forall y | y in rest ensures Lt(s[0], y) {
          if y != x {
            var j :| 0 <= j < |s[1..]| && s[1..][j] == y;
            assert s[j + 1] == y;
          }
        }
      }
      [s[0]] + rest
  }

  /** The sorted distinct values of `ss`: LabelEncoder's `classes_`
      after `fit`. */
  function Classes(ss: seq<string>): (r: seq<string>)
    ensures StrictlySorted(r)
    ensures forall y :: y in r <==> y in ss
  {
    if ss == [] then [] else InsertUnique(ss[0], Classes(ss[1..]))
  }

  /** Position of `x` in `s`: the code LabelEncoder gives the value `x`. */
  function IndexOf(s: seq<string>, x: string): (r: nat)
    requires x in s
    ensures r < |s| && s[r] == x
    ensures forall k :: 0 <= k < r ==> s[k] != x
  {
    if s[0] == x then 0 else 1 + IndexOf(s[1..], x)
  }

  /** In a strictly sorted list the position of a value is unique, and
      positions follow the string order: the codes that a LabelEncoder
      assigns are order-preserving. */
  lemma CodeOrder(cls: seq<string>, x: string, y: string)
    requires StrictlySorted(cls) && x in cls && y in cls
    ensures Lt(x, y) <==> IndexOf(cls, x) < IndexOf(cls, y)
    ensures x == y <==> IndexOf(cls, x) == IndexOf(cls, y)
  {
    var i, j := IndexOf(cls, x), IndexOf(cls, y);
    if i < j {
      LtAsymmetric(x, y);
      LtIrreflexive(x);
    } else if j < i {
      LtAsymmetric(y, x);
      LtIrreflexive(y);
    } else {
      LtIrreflexive(x);
    }
  }

  /** Python's `sub in s` on strings. */
  function Contains(s: string, sub: string): (r: bool)
    ensures r <==> exists i :: 0 <= i <= |s| && sub <= s[i..]
  {
    if sub <= s then
      assert sub <= s[0..];
      true
    else if |s| == 0 then
      assert forall i :: 0 <= i <= |s| ==> s[i..] == s;
      false
    else
      var r := Contains(s[1..], sub);
      assert forall i :: 1 <= i <= |s| ==> s[i..] == s[1..][i - 1..];
      r
  }
}
