/** src/accountability/bias_auditor.py: disparate impact across the groups
    of the sensitive feature. A row is approved when its denial probability
    is at most the threshold; each group's approval rate is the share of
    its rows approved; every ordered pair of distinct groups gets the ratio
    of their rates (0 when the second rate is 0) under the key
    `<g1>_vs_<g2>`; a ratio below 0.8 is a violation (the 80 % rule). */
module BiasAuditor {
  import opened Wrappers
  import Strings

  /** One test row: its sensitive-feature value (None for a missing value,
      which `groupby` leaves out) and the model's denial probability. */
  datatype Row = Row(group: Option<string>, prob: real)

  const FourFifths: real := 0.8
  const BiasWarning := "Potential Bias Detected"
  const PassedWarning := "Fairness Check Passed"

  function GroupValues(rows: seq<Row>): (r: seq<string>)
    ensures forall g :: g in r <==> exists k :: 0 <= k < |rows| && rows[k].group == Some(g)
  {
    if rows == [] then []
    else
      var rest := GroupValues(rows[1..]);
      assert forall k :: 1 <= k < |rows| ==> rows[k] == rows[1..][k - 1];
      if rows[0].group.Some? then [rows[0].group.value] + rest else rest
  }

  /** The group keys in `groupby` order: sorted, without repeats. */
  function Groups(rows: seq<Row>): (r: seq<string>)
    ensures Strings.StrictlySorted(r)
    ensures forall g :: g in r <==> exists k :: 0 <= k < |rows| && rows[k].group == Some(g)
  {
    Strings.Classes(GroupValues(rows))
  }

  function Count(rows: seq<Row>, g: string): (n: nat)
    ensures n > 0 <==> exists k :: 0 <= k < |rows| && rows[k].group == Some(g)
  {
    if rows == [] then 0
    else
      assert forall k :: 1 <= k < |rows| ==> rows[k] == rows[1..][k - 1];
      (if rows[0].group == Some(g) then 1 else 0) + Count(rows[1..], g)
  }

  /** Rows of group `g` that are approved (`1 - (prob > threshold)`). */
  function Approved(rows: seq<Row>, g: string, threshold: real): (n: nat)
    ensures n <= Count(rows, g)
  {
    if rows == [] then 0
    else
      (if rows[0].group == Some(g) && rows[0].prob <= threshold then 1 else 0)
        + Approved(rows[1..], g, threshold)
  }

  /** The mean of `is_approved` over the rows of group `g`. */
  function Rate(rows: seq<Row>, g: string, threshold: real): (r: real)
    requires Count(rows, g) > 0
    ensures 0.0 <= r <= 1.0
  {
    var a, c := Approved(rows, g, threshold) as real, Count(rows, g) as real;
    assert a <= c;
    a / c
  }

  function Rates(rows: seq<Row>, names: seq<string>, threshold: real): (r: seq<real>)
    requires forall g :: g in names ==> Count(rows, g) > 0
    ensures |r| == |names|
    ensures forall i :: 0 <= i < |names| ==> r[i] == Rate(rows, names[i], threshold)
  {
    seq(|names|, i requires 0 <= i < |names| => Rate(rows, names[i], threshold))
  }

  predicate NonNegative(rates: seq<real>)
  {
    forall k :: 0 <= k < |rates| ==> rates[k] >= 0.0
  }

  function Key(g1: string, g2: string): string { g1 + "_vs_" + g2 }

  /** The key of the pair (names[i], names[j]). */
  function PairKey(names: seq<string>, i: nat, j: nat): string
    requires i < |names| && j < |names|
  {
    Key(names[i], names[j])
  }

  /** `groups[g1] / groups[g2] if groups[g2] > 0 else 0`. */
  function Ratio(rates: seq<real>, i: nat, j: nat): (r: real)
    requires i < |rates| && j < |rates| && NonNegative(rates)
    ensures r >= 0.0
    ensures rates[j] == 0.0 ==> r == 0.0
  {
    if rates[j] > 0.0 then rates[i] / rates[j] else 0.0
  }

  /** The assignments of the inner loop for `g1 = names[i]`, over
      `g2 = names[0..m)`, in loop order. */
  function RowPairs(names: seq<string>, rates: seq<real>, i: nat, m: nat): seq<(string, real)>
    requires |names| == |rates| && i < |names| && m <= |names| && NonNegative(rates)
  {
    if m == 0 then []
    else
      var rest := RowPairs(names, rates, i, m - 1);
      if m - 1 != i then rest + [(PairKey(names, i, m - 1), Ratio(rates, i, m - 1))] else rest
  }

  /** All assignments of the nested loops for `g1 = names[0..n)`. */
  function AllPairs(names: seq<string>, rates: seq<real>, n: nat): seq<(string, real)>
    requires |names| == |rates| && n <= |names| && NonNegative(rates)
  {
    if n == 0 then [] else AllPairs(names, rates, n - 1) + RowPairs(names, rates, n - 1, |names|)
  }

  /** An assignment of the loops is made for a pair of distinct groups. */
  predicate PairEntry(names: seq<string>, rates: seq<real>, e: (string, real), i: int, j: int)
    requires |names| == |rates| && NonNegative(rates)
  {
    0 <= i < |names| && 0 <= j < |names| && i != j && e == (PairKey(names, i, j), Ratio(rates, i, j))
  }

  lemma {:induction false} RowPairsIn(names: seq<string>, rates: seq<real>, i: nat, m: nat, e: (string, real))
    requires |names| == |rates| && i < |names| && m <= |names| && NonNegative(rates)
    ensures e in RowPairs(names, rates, i, m) <==> exists j :: 0 <= j < m && PairEntry(names, rates, e, i, j)
  {
    if m > 0 {
      RowPairsIn(names, rates, i, m - 1, e);
      if m - 1 != i && e == (PairKey(names, i, m - 1), Ratio(rates, i, m - 1)) {
        assert PairEntry(names, rates, e, i, m - 1);
      }
    }
  }

  lemma {:induction false} AllPairsIn(names: seq<string>, rates: seq<real>, n: nat, e: (string, real))
    requires |names| == |rates| && n <= |names| && NonNegative(rates)
    ensures e in AllPairs(names, rates, n) <==>
              exists i, j :: 0 <= i < n && PairEntry(names, rates, e, i, j)
  {
    if n > 0 {
      AllPairsIn(names, rates, n - 1, e);
      RowPairsIn(names, rates, n - 1, |names|, e);
      if exists i, j :: 0 <= i < n && PairEntry(names, rates, e, i, j) {
        var i, j :| 0 <= i < n && PairEntry(names, rates, e, i, j);
        if i == n - 1 {
          assert e in RowPairs(names, rates, n - 1, |names|);
        } else {
          assert e in AllPairs(names, rates, n - 1);
        }
      }
    }
  }

  /** The dictionary the assignments build; a later assignment to a key
      overwrites an earlier one. */
  function ToMap(l: seq<(string, real)>): map<string, real>
  {
    if l == [] then map[] else ToMap(l[..|l| - 1])[l[|l| - 1].0 := l[|l| - 1].1]
  }

  lemma ToMapSnoc(l: seq<(string, real)>, e: (string, real))
    ensures ToMap(l + [e]) == ToMap(l)[e.0 := e.1]
  {
    assert (l + [e])[..|l|] == l;
  }

  /** The keys are those assigned, and each value is one assigned to its key. */
  lemma {:induction false} ToMapFacts(l: seq<(string, real)>)
    ensures forall k :: k in ToMap(l) <==> exists e :: e in l && e.0 == k
    ensures forall k :: k in ToMap(l) ==> (k, ToMap(l)[k]) in l
  {
    if l != [] {
      var front, last := l[..|l| - 1], l[|l| - 1];
      ToMapFacts(front);
      assert l == front + [last];
    }
  }

  /** A key all of whose assignments give the same value has that value. */
  lemma {:induction false} ToMapAgreeing(l: seq<(string, real)>, k: string, v: real)
    requires (k, v) in l
    requires forall e :: e in l && e.0 == k ==> e.1 == v
    ensures k in ToMap(l) && ToMap(l)[k] == v
  {
    var front, last := l[..|l| - 1], l[|l| - 1];
    assert l == front + [last];
    if last.0 != k {
      ToMapAgreeing(front, k, v);
    }
  }

  /** Distinct ordered pairs of groups get distinct keys. */
  predicate KeysDistinct(names: seq<string>)
  {
    forall a, b, c, d ::
      (0 <= a < |names| && 0 <= b < |names| && 0 <= c < |names| && 0 <= d < |names| &&
       a != b && c != d && PairKey(names, a, b) == PairKey(names, c, d)) ==> a == c && b == d
  }

  lemma SameKey(names: seq<string>, a: int, b: int, c: int, d: int)
    requires KeysDistinct(names)
    requires 0 <= a < |names| && 0 <= b < |names| && 0 <= c < |names| && 0 <= d < |names|
    requires a != b && c != d && PairKey(names, a, b) == PairKey(names, c, d)
    ensures a == c && b == d
  {
  }

  datatype Report =
    | InsufficientData(groups: seq<string>, rates: seq<real>)
    | Impact(ratios: map<string, real>, groups: seq<string>, rates: seq<real>,
             violation: bool, warning: string)

  /** The ratio dictionary of `calculate_disparate_impact`. */
  function RatioMap(names: seq<string>, rates: seq<real>): map<string, real>
    requires |names| == |rates| && NonNegative(rates)
  {
    ToMap(AllPairs(names, rates, |names|))
  }

  /** Every entry of the dictionary is the ratio of some ordered pair of
      distinct groups, under that pair's key; every such pair has an entry;
      and when keys do not collide, each pair's entry is its own ratio. */
  lemma RatioMapFacts(names: seq<string>, rates: seq<real>)
    requires |names| == |rates| && NonNegative(rates)
    ensures forall k :: k in RatioMap(names, rates) ==>
              exists i, j :: PairEntry(names, rates, (k, RatioMap(names, rates)[k]), i, j)
    ensures forall i, j :: 0 <= i < |names| && 0 <= j < |names| && i != j ==>
              PairKey(names, i, j) in RatioMap(names, rates)
    ensures KeysDistinct(names) ==>
              forall i, j :: 0 <= i < |names| && 0 <= j < |names| && i != j ==>
                RatioMap(names, rates)[PairKey(names, i, j)] == Ratio(rates, i, j)
  {
    var l := AllPairs(names, rates, |names|);
    var m := ToMap(l);
    ToMapFacts(l);
    forall k | k in m ensures exists i, j :: PairEntry(names, rates, (k, m[k]), i, j) {
      AllPairsIn(names, rates, |names|, (k, m[k]));
    }
    forall i, j | 0 <= i < |names| && 0 <= j < |names| && i != j
      ensures PairKey(names, i, j) in m
    {
      var e := (PairKey(names, i, j), Ratio(rates, i, j));
      assert PairEntry(names, rates, e, i, j);
      AllPairsIn(names, rates, |names|, e);
    }
    if KeysDistinct(names) {
      forall i, j | 0 <= i < |names| && 0 <= j < |names| && i != j
        ensures m[PairKey(names, i, j)] == Ratio(rates, i, j)
      {
        var k, v := PairKey(names, i, j), Ratio(rates, i, j);
        assert PairEntry(names, rates, (k, v), i, j);
        AllPairsIn(names, rates, |names|, (k, v));
        forall e | e in l && e.0 == k ensures e.1 == v {
          AllPairsIn(names, rates, |names|, e);
          var c, d :| 0 <= c < |names| && PairEntry(names, rates, e, c, d);
          SameKey(names, c, d, i, j);
        }
        ToMapAgreeing(l, k, v);
      }
    }
  }

  /** No two assignments of `l` use the same key. */
  predicate UniqueKeys(l: seq<(string, real)>)
  {
    forall a, b :: 0 <= a < b < |l| ==> l[a].0 != l[b].0
  }

  /** Assignments to pairwise different keys make a dictionary of that
      many entries. */
  lemma {:induction false} ToMapSize(l: seq<(string, real)>)
    requires UniqueKeys(l)
    ensures |ToMap(l)| == |l|
  {
    if l != [] {
      var front, last := l[..|l| - 1], l[|l| - 1];
      assert UniqueKeys(front) by {
        forall a, b | 0 <= a < b < |front| ensures front[a].0 != front[b].0 {
          assert front[a] == l[a] && front[b] == l[b];
        }
      }
      ToMapSize(front);
      ToMapFacts(front);
      forall e | e in front ensures e.0 != last.0 {
        var a :| 0 <= a < |front| && front[a] == e;
        assert l[a] == e;
      }
    }
  }

  lemma UniqueConcat(x: seq<(string, real)>, y: seq<(string, real)>)
    requires UniqueKeys(x) && UniqueKeys(y)
    requires forall a, b :: 0 <= a < |x| && 0 <= b < |y| ==> x[a].0 != y[b].0
    ensures UniqueKeys(x + y)
  {
    var z := x + y;
    forall a, b | 0 <= a < b < |z| ensures z[a].0 != z[b].0 {
      if b < |x| {
        assert z[a] == x[a] && z[b] == x[b];
      } else if a >= |x| {
        assert z[a] == y[a - |x|] && z[b] == y[b - |x|];
      } else {
        assert z[a] == x[a] && z[b] == y[b - |x|];
      }
    }
  }

  lemma {:induction false} RowPairsSize(names: seq<string>, rates: seq<real>, i: nat, m: nat)
    requires |names| == |rates| && i < |names| && m <= |names| && NonNegative(rates)
    ensures |RowPairs(names, rates, i, m)| == if i < m then m - 1 else m
  {
    if m > 0 {
      RowPairsSize(names, rates, i, m - 1);
    }
  }

  lemma {:induction false} AllPairsSize(names: seq<string>, rates: seq<real>, n: nat)
    requires |names| == |rates| && n <= |names| && NonNegative(rates)
    ensures |AllPairs(names, rates, n)| == n * (|names| - 1)
  {
    if n > 0 {
      AllPairsSize(names, rates, n - 1);
      RowPairsSize(names, rates, n - 1, |names|);
      assert n * (|names| - 1) == (n - 1) * (|names| - 1) + (|names| - 1);
    }
  }

  lemma {:induction false} RowPairsUnique(names: seq<string>, rates: seq<real>, i: nat, m: nat)
    requires |names| == |rates| && i < |names| && m <= |names| && NonNegative(rates)
    requires KeysDistinct(names)
    ensures UniqueKeys(RowPairs(names, rates, i, m))
  {
    if m > 0 {
      var rest := RowPairs(names, rates, i, m - 1);
      RowPairsUnique(names, rates, i, m - 1);
      if m - 1 != i {
        var e := (PairKey(names, i, m - 1), Ratio(rates, i, m - 1));
        forall a, b | 0 <= a < |rest| && 0 <= b < |[e]| ensures rest[a].0 != [e][b].0 {
          RowPairsIn(names, rates, i, m - 1, rest[a]);
          var j :| 0 <= j < m - 1 && PairEntry(names, rates, rest[a], i, j);
          if rest[a].0 == e.0 {
            SameKey(names, i, j, i, m - 1);
          }
        }
        UniqueConcat(rest, [e]);
      }
    }
  }

  lemma {:induction false} AllPairsUnique(names: seq<string>, rates: seq<real>, n: nat)
    requires |names| == |rates| && n <= |names| && NonNegative(rates)
    requires KeysDistinct(names)
    ensures UniqueKeys(AllPairs(names, rates, n))
  {
    if n > 0 {
      var done := AllPairs(names, rates, n - 1);
      var row := RowPairs(names, rates, n - 1, |names|);
      AllPairsUnique(names, rates, n - 1);
      RowPairsUnique(names, rates, n - 1, |names|);
      forall a, b | 0 <= a < |done| && 0 <= b < |row| ensures done[a].0 != row[b].0 {
        AllPairsIn(names, rates, n - 1, done[a]);
        RowPairsIn(names, rates, n - 1, |names|, row[b]);
        var i, j :| 0 <= i < n - 1 && PairEntry(names, rates, done[a], i, j);
        var j' :| 0 <= j' < |names| && PairEntry(names, rates, row[b], n - 1, j');
        if done[a].0 == row[b].0 {
          SameKey(names, i, j, n - 1, j');
        }
      }
      UniqueConcat(done, row);
    }
  }

  /** Without key collisions there is one ratio per ordered pair of
      distinct groups: n(n-1) of them. */
  lemma RatioCount(names: seq<string>, rates: seq<real>)
    requires |names| == |rates| && NonNegative(rates)
    requires KeysDistinct(names)
    ensures |RatioMap(names, rates)| == |names| * (|names| - 1)
  {
    AllPairsUnique(names, rates, |names|);
    ToMapSize(AllPairs(names, rates, |names|));
    AllPairsSize(names, rates, |names|);
  }

  /** The violation test: some ratio below 0.8. */
  predicate AnyBelow(ratios: map<string, real>)
  {
    exists k :: k in ratios && ratios[k] < FourFifths
  }

  /** Some ordered pair of distinct groups has a ratio below 0.8. */
  predicate SomePairBelow(names: seq<string>, rates: seq<real>)
    requires |names| == |rates| && NonNegative(rates)
  {
    exists i, j :: 0 <= i < |names| && 0 <= j < |names| && i != j && Ratio(rates, i, j) < FourFifths
  }

  /** Every ratio is non-negative; a violation always has a pair of
      groups behind it; without key collisions the violation flag says
      exactly that some pair is below 0.8, so a group that approves nobody
      forces a violation. */
  lemma ViolationMeaning(names: seq<string>, rates: seq<real>)
    requires |names| == |rates| && NonNegative(rates)
    ensures forall k :: k in RatioMap(names, rates) ==> RatioMap(names, rates)[k] >= 0.0
    ensures AnyBelow(RatioMap(names, rates)) ==> SomePairBelow(names, rates)
    ensures KeysDistinct(names) ==> (AnyBelow(RatioMap(names, rates)) <==> SomePairBelow(names, rates))
    ensures KeysDistinct(names) && |names| >= 2 && (exists j :: 0 <= j < |names| && rates[j] == 0.0) ==>
              AnyBelow(RatioMap(names, rates))
  {
    RatioMapFacts(names, rates);
    var m := RatioMap(names, rates);
    forall k | k in m ensures m[k] >= 0.0 {
      var i, j :| PairEntry(names, rates, (k, m[k]), i, j);
    }
    if AnyBelow(m) {
      var k :| k in m && m[k] < FourFifths;
      var i, j :| PairEntry(names, rates, (k, m[k]), i, j);
      assert Ratio(rates, i, j) < FourFifths;
    }
    if KeysDistinct(names) && SomePairBelow(names, rates) {
      var i, j :| 0 <= i < |names| && 0 <= j < |names| && i != j && Ratio(rates, i, j) < FourFifths;
      assert m[PairKey(names, i, j)] < FourFifths;
    }
    if |names| >= 2 && exists j :: 0 <= j < |names| && rates[j] == 0.0 {
      var j :| 0 <= j < |names| && rates[j] == 0.0;
      var i := if j == 0 then 1 else 0;
      assert Ratio(rates, i, j) == 0.0;
      assert SomePairBelow(names, rates);
    }
  }

  lemma SnocAssoc(a: seq<(string, real)>, b: seq<(string, real)>, e: (string, real))
    ensures (a + b) + [e] == a + (b + [e])
  {
  }

  /** The inner loop for `g1 = names[i]`: one assignment after another
      onto a dictionary built from the assignments `done`. */
  method FillRow(names: seq<string>, rates: seq<real>, i: nat, ghost done: seq<(string, real)>,
                 start: map<string, real>) returns (ratios: map<string, real>)
    requires |names| == |rates| && i < |names| && NonNegative(rates)
    requires start == ToMap(done)
    ensures ratios == ToMap(done + RowPairs(names, rates, i, |names|))
  {
    ratios := start;
    assert done + RowPairs(names, rates, i, 0) == done;
    var j := 0;
    while j < |names|
      invariant 0 <= j <= |names|
      invariant ratios == ToMap(done + RowPairs(names, rates, i, j))
    {
      ghost var row := RowPairs(names, rates, i, j);
      if i != j {
        var ratio := if rates[j] > 0.0 then rates[i] / rates[j] else 0.0;
        var e := (PairKey(names, i, j), ratio);
        assert RowPairs(names, rates, i, j + 1) == row + [e];
        ToMapSnoc(done + row, e);
        SnocAssoc(done, row, e);
        ratios := ratios[e.0 := e.1];
      } else {
        assert RowPairs(names, rates, i, j + 1) == row;
      }
      j := j + 1;
    }
  }

  /** The nested loops of `calculate_disparate_impact`, in group order. */
  method FillRatios(names: seq<string>, rates: seq<real>) returns (ratios: map<string, real>)
    requires |names| == |rates| && NonNegative(rates)
    ensures ratios == RatioMap(names, rates)
  {
    ratios := map[];
    var i := 0;
    while i < |names|
      invariant 0 <= i <= |names|
      invariant ratios == ToMap(AllPairs(names, rates, i))
    {
      ratios := FillRow(names, rates, i, AllPairs(names, rates, i), ratios);
      i := i + 1;
    }
  }

  /** `calculate_disparate_impact`: the nested loops fill the ratio
      dictionary in the order of the groups. */
  method CalculateDisparateImpact(rows: seq<Row>, threshold: real) returns (r: Report)
    ensures var names := Groups(rows);
      && r.groups == names
      && |r.rates| == |names| && NonNegative(r.rates)
      && r.rates == Rates(rows, names, threshold)
      && (r.InsufficientData? <==> |names| < 2)
      && (r.Impact? ==> r.ratios == RatioMap(names, r.rates))
      && (r.Impact? ==> (r.violation <==> AnyBelow(r.ratios)))
      && (r.Impact? ==> r.warning == if r.violation then BiasWarning else PassedWarning)
  {
    var names := Groups(rows);
    assert forall g :: g in names ==> Count(rows, g) > 0;
    var rates := Rates(rows, names, threshold);
    if |names| < 2 {
      return InsufficientData(names, rates);
    }
    var ratios := FillRatios(names, rates);
    var violation := exists k | k in ratios :: ratios[k] < FourFifths;
    r := Impact(ratios, names, rates, violation, if violation then BiasWarning else PassedWarning);
  }
}
