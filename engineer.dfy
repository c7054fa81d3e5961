/** Feature engineering (src/data_science/engineer.py): cleaning, derived
    ratios, label encoding and the alignment to the 13 model inputs. */
module Engineer {
  import opened Wrappers
  import opened Frames
  import opened Schema
  import Strings
  import Sorting

  const LoanPercentIncome := "loan_percent_income"
  const LoanToIncome := "loan_to_income"
  const StabilityIndex := "stability_index"

  /** Ages above this are taken for entry errors and lowered to it. */
  const AgeCap: real := 100.0

  /** The model's 13 inputs, in training order. */
  const ExpectedFeatures: seq<string> := [
    PersonAge, PersonIncome, PersonHomeOwnership, PersonEmpLength,
    LoanIntent, LoanGrade, LoanAmnt, LoanIntRate, LoanPercentIncome,
    CbPersonDefaultOnFile, CbPersonCredHistLength, LoanToIncome,
    StabilityIndex]

  lemma ExpectedFeaturesFacts()
    ensures |ExpectedFeatures| == 13 && Distinct(ExpectedFeatures)
    ensures PersonGender !in ExpectedFeatures
  {
  }

  // ---------------------------------------------------------------- cleaning

  /** The numbers of a column, missing values skipped, order kept. */
  function PresentValues(cells: seq<Cell>): (r: seq<real>)
    ensures |r| <= |cells|
    ensures forall x :: x in r <==> Num(x) in cells
  {
    if cells == [] then []
    else
      assert cells == [cells[0]] + cells[1..];
      (if cells[0].Num? then [cells[0].x] else []) + PresentValues(cells[1..])
  }

  function Identity(x: real): real { x }

  /** `Series.median()` over the present values: the middle value of the
      sorted values, or the mean of the two middle ones; NaN (None) when
      there is no value. */
  function Median(xs: seq<real>): (m: Option<real>)
    ensures m.None? <==> xs == []
  {
    if xs == [] then None
    else
      var s := Sorting.SortBy(xs, Identity);
      Sorting.SortByFacts(xs, Identity);
      var n := |s|;
      if n % 2 == 1 then Some(s[n / 2]) else Some((s[n / 2 - 1] + s[n / 2]) / 2.0)
  }

  /** The median is attained or bracketed by the data: some value is at
      most it and some value is at least it, and with an odd count it is
      one of the values. */
  lemma MedianBounds(xs: seq<real>)
    requires xs != []
    ensures exists i :: 0 <= i < |xs| && xs[i] <= Median(xs).value
    ensures exists j :: 0 <= j < |xs| && Median(xs).value <= xs[j]
    ensures |xs| % 2 == 1 ==> Median(xs).value in xs
  {
    var s := Sorting.SortBy(xs, Identity);
    Sorting.SortByFacts(xs, Identity);
    var n := |s|;
    var m := Median(xs).value;
    assert Identity(s[0]) <= Identity(s[n / 2]) <= Identity(s[n - 1]);
    if n % 2 == 0 {
      assert Identity(s[0]) <= Identity(s[n / 2 - 1]);
    }
    assert s[0] <= m <= s[n - 1];
    assert s[0] in multiset(xs) && s[n - 1] in multiset(xs);
    assert s[n / 2] in multiset(xs);
    var i :| 0 <= i < |xs| && xs[i] == s[0];
    var j :| 0 <= j < |xs| && xs[j] == s[n - 1];
  }

  /** The value `fillna` writes into the missing cells. */
  function MedianCell(cells: seq<Cell>): Cell
  {
    match Median(PresentValues(cells))
    case None => Missing
    case Some(m) => Num(m)
  }

  function FillMissing(cells: seq<Cell>, v: Cell): (r: seq<Cell>)
    ensures |r| == |cells|
    ensures forall i :: 0 <= i < |r| ==> r[i] == if cells[i].Missing? then v else cells[i]
  {
    seq(|cells|, i requires 0 <= i < |cells| => if cells[i].Missing? then v else cells[i])
  }

  /** `after` keeps every present value of `before` and holds the median
      of those values where `before` is missing. */
  predicate EmpImputed(before: seq<Cell>, after: seq<Cell>)
  {
    && |after| == |before|
    && forall i :: 0 <= i < |before| ==>
         && (!before[i].Missing? ==> after[i] == before[i])
         && (before[i].Missing? ==> after[i] == MedianCell(before))
  }

  /** `after` is `before` with every age above the cap lowered to the cap. */
  predicate AgeClipped(before: seq<Cell>, after: seq<Cell>)
  {
    && |after| == |before|
    && forall i :: 0 <= i < |before| ==>
         && (before[i].Num? && before[i].x > AgeCap ==> after[i] == Num(AgeCap))
         && (before[i].Num? && before[i].x <= AgeCap ==> after[i] == before[i])
         && (!before[i].Num? ==> after[i] == before[i])
  }

  function ImputeEmpLength(f: Frame): (r: Result<Frame, Error>)
    requires Valid(f)
    ensures r.Ok? <==> PersonEmpLength in Names(f) ==> Numeric(Get(f, PersonEmpLength).value)
    ensures r.Ok? ==> Valid(r.value) && r.value.rows == f.rows && Names(r.value) == Names(f)
    ensures r.Ok? ==> forall n :: n != PersonEmpLength ==> Get(r.value, n) == Get(f, n)
    ensures r.Ok? && PersonEmpLength in Names(f) ==>
              EmpImputed(Get(f, PersonEmpLength).value, Get(r.value, PersonEmpLength).value)
  {
    if PersonEmpLength !in Names(f) then Ok(f)
    else
      var cells := Get(f, PersonEmpLength).value;
      if !Numeric(cells) then Err(TypeError(PersonEmpLength))
      else Ok(SetColumn(f, PersonEmpLength, FillMissing(cells, MedianCell(cells))))
  }

  /** `clean_data`: a missing employment length becomes the median of that
      column in the frame passed in (not a fixed baseline), and ages are
      clipped at 100. KeyError without an age column, TypeError when a
      string sits in either column. */
  function CleanData(f: Frame): (r: Result<Frame, Error>)
    requires Valid(f)
    ensures r.Ok? <==>
              && PersonAge in Names(f) && Numeric(Get(f, PersonAge).value)
              && (PersonEmpLength in Names(f) ==> Numeric(Get(f, PersonEmpLength).value))
    ensures r.Ok? ==> Valid(r.value) && r.value.rows == f.rows && Names(r.value) == Names(f)
    ensures r.Ok? ==> forall n :: n != PersonAge && n != PersonEmpLength ==> Get(r.value, n) == Get(f, n)
    ensures r.Ok? ==> AgeClipped(Get(f, PersonAge).value, Get(r.value, PersonAge).value)
    ensures r.Ok? ==> forall c :: c in Get(r.value, PersonAge).value && c.Num? ==> c.x <= AgeCap
    ensures r.Ok? && PersonEmpLength in Names(f) ==>
              EmpImputed(Get(f, PersonEmpLength).value, Get(r.value, PersonEmpLength).value)
  {
    var g :- ImputeEmpLength(f);
    var age :- Get(g, PersonAge);
    if !Numeric(age) then Err(TypeError(PersonAge))
    else Ok(SetColumn(g, PersonAge, ClipUpper(age, AgeCap)))
  }

  /** Imputation looks only at the frame it is given: in a one-row frame
      there is no other value to take a median of, so nothing changes. */
  lemma ImputeOneRowUnchanged(f: Frame)
    requires Valid(f) && f.rows == 1
    requires PersonEmpLength in Names(f) ==> Numeric(Get(f, PersonEmpLength).value)
    ensures ImputeEmpLength(f) == Ok(f)
  {
    if PersonEmpLength in Names(f) {
      var cells := Get(f, PersonEmpLength).value;
      if cells[0].Missing? {
        assert cells == [Missing];
        assert PresentValues(cells) == [];
        assert MedianCell(cells) == Missing;
      }
      assert FillMissing(cells, MedianCell(cells)) == cells;
      SetSame(f, PersonEmpLength);
    }
  }

  // ------------------------------------------------------------ interactions

  /** `loan_amnt / person_income.clip(lower=1)`: defined for every income,
      zero and negative included. */
  function LoanRatio(f: Frame): (r: Result<seq<Cell>, Error>)
    requires Valid(f)
    ensures r.Ok? <==>
              && LoanAmnt in Names(f) && PersonIncome in Names(f)
              && Numeric(Get(f, LoanAmnt).value) && Numeric(Get(f, PersonIncome).value)
    ensures r.Ok? ==>
              var amt, inc := Get(f, LoanAmnt).value, Get(f, PersonIncome).value;
              && |r.value| == f.rows && Numeric(r.value)
              && forall i :: 0 <= i < f.rows ==>
                   && (r.value[i].Num? <==> amt[i].Num? && inc[i].Num?)
                   && (r.value[i].Num? ==> r.value[i].x == amt[i].x / Max(inc[i].x, 1.0))
  {
    var amt :- Get(f, LoanAmnt);
    var inc :- Get(f, PersonIncome);
    if !Numeric(inc) then Err(TypeError(PersonIncome))
    else if !Numeric(amt) then Err(TypeError(LoanAmnt))
    else Ok(Divide(amt, ClipLower(inc, 1.0)))
  }

  /** `person_emp_length / (person_age - 16).clip(lower=1)`. */
  function Stability(f: Frame): (r: Result<seq<Cell>, Error>)
    requires Valid(f)
    ensures r.Ok? <==>
              && PersonEmpLength in Names(f) && PersonAge in Names(f)
              && Numeric(Get(f, PersonEmpLength).value) && Numeric(Get(f, PersonAge).value)
    ensures r.Ok? ==>
              var emp, age := Get(f, PersonEmpLength).value, Get(f, PersonAge).value;
              && |r.value| == f.rows && Numeric(r.value)
              && forall i :: 0 <= i < f.rows ==>
                   && (r.value[i].Num? <==> emp[i].Num? && age[i].Num?)
                   && (r.value[i].Num? ==> r.value[i].x == emp[i].x / Max(age[i].x - 16.0, 1.0))
  {
    var emp :- Get(f, PersonEmpLength);
    var age :- Get(f, PersonAge);
    if !Numeric(age) then Err(TypeError(PersonAge))
    else if !Numeric(emp) then Err(TypeError(PersonEmpLength))
    else Ok(Divide(emp, ClipLower(Minus(age, 16.0), 1.0)))
  }

  predicate Derived(n: string)
  {
    n == LoanPercentIncome || n == LoanToIncome || n == StabilityIndex
  }

  /** The first step of `calculate_interactions`: a supplied
      `loan_percent_income` is kept, a missing one is derived. */
  function AddLoanPercentIncome(f: Frame): (r: Result<Frame, Error>)
    requires Valid(f)
    ensures r.Ok? <==> LoanPercentIncome in Names(f) || LoanRatio(f).Ok?
    ensures r.Ok? ==> Valid(r.value) && r.value.rows == f.rows && Names(f) <= Names(r.value)
    ensures r.Ok? ==> forall n :: n in Names(r.value) <==> n in Names(f) || n == LoanPercentIncome
    ensures r.Ok? ==> Get(r.value, LoanPercentIncome)
                      == if LoanPercentIncome in Names(f) then Get(f, LoanPercentIncome) else LoanRatio(f)
    ensures r.Ok? ==> forall n :: n != LoanPercentIncome ==> Get(r.value, n) == Get(f, n)
    ensures r.Ok? ==> LoanRatio(r.value) == LoanRatio(f) && Stability(r.value) == Stability(f)
  {
    if LoanPercentIncome in Names(f) then Ok(f)
    else
      var lpi :- LoanRatio(f);
      var g := SetColumn(f, LoanPercentIncome, lpi);
      GrowsByName(f, LoanPercentIncome, lpi);
      LoanRatioLocal(f, g);
      StabilityLocal(f, g);
      Ok(g)
  }

  /** `df['loan_to_income'] = ...`. */
  function AddLoanToIncome(f: Frame): (r: Result<Frame, Error>)
    requires Valid(f)
    ensures r.Ok? <==> LoanRatio(f).Ok?
    ensures r.Ok? ==> Valid(r.value) && r.value.rows == f.rows && Names(f) <= Names(r.value)
    ensures r.Ok? ==> forall n :: n in Names(r.value) <==> n in Names(f) || n == LoanToIncome
    ensures r.Ok? ==> Get(r.value, LoanToIncome) == LoanRatio(f)
    ensures r.Ok? ==> forall n :: n != LoanToIncome ==> Get(r.value, n) == Get(f, n)
    ensures r.Ok? ==> Stability(r.value) == Stability(f)
  {
    var lti :- LoanRatio(f);
    var g := SetColumn(f, LoanToIncome, lti);
    GrowsByName(f, LoanToIncome, lti);
    StabilityLocal(f, g);
    Ok(g)
  }

  /** `df['stability_index'] = ...`. */
  function AddStabilityIndex(f: Frame): (r: Result<Frame, Error>)
    requires Valid(f)
    ensures r.Ok? <==> Stability(f).Ok?
    ensures r.Ok? ==> Valid(r.value) && r.value.rows == f.rows && Names(f) <= Names(r.value)
    ensures r.Ok? ==> forall n :: n in Names(r.value) <==> n in Names(f) || n == StabilityIndex
    ensures r.Ok? ==> Get(r.value, StabilityIndex) == Stability(f)
    ensures r.Ok? ==> forall n :: n != StabilityIndex ==> Get(r.value, n) == Get(f, n)
  {
    var si :- Stability(f);
    var g := SetColumn(f, StabilityIndex, si);
    GrowsByName(f, StabilityIndex, si);
    Ok(g)
  }

  lemma DerivedNamesDiffer()
    ensures LoanPercentIncome != LoanToIncome && LoanPercentIncome != StabilityIndex
    ensures LoanToIncome != StabilityIndex
  {
    assert LoanPercentIncome[5] != LoanToIncome[5];
    assert LoanPercentIncome[0] != StabilityIndex[0] && LoanToIncome[0] != StabilityIndex[0];
  }

  /** `calculate_interactions`: `loan_percent_income` is derived only when
      the frame lacks it, `loan_to_income` and `stability_index` always. */
  function CalculateInteractions(f: Frame): (r: Result<Frame, Error>)
    requires Valid(f)
    ensures r.Ok? <==> LoanRatio(f).Ok? && Stability(f).Ok?
    ensures r.Ok? ==> Valid(r.value) && r.value.rows == f.rows && Names(f) <= Names(r.value)
    ensures r.Ok? ==> forall n :: n in Names(r.value) <==>
                        n in Names(f) || n == LoanPercentIncome || n == LoanToIncome || n == StabilityIndex
    ensures r.Ok? ==> Get(r.value, LoanToIncome) == LoanRatio(f)
    ensures r.Ok? ==> Get(r.value, StabilityIndex) == Stability(f)
    ensures r.Ok? ==> Get(r.value, LoanPercentIncome)
                      == if LoanPercentIncome in Names(f) then Get(f, LoanPercentIncome) else LoanRatio(f)
    ensures r.Ok? ==> forall n :: Derived(n) || Get(r.value, n) == Get(f, n)
  {
    var f1 :- AddLoanPercentIncome(f);
    var f2 :- AddLoanToIncome(f1);
    var f3 :- AddStabilityIndex(f2);
    DerivedNamesDiffer();
    assert Names(f) <= Names(f3) by {
      PrefixTransitive(Names(f), Names(f1), Names(f2));
      PrefixTransitive(Names(f), Names(f2), Names(f3));
    }
    Ok(f3)
  }

  /** Assigning a column keeps the earlier names as a prefix and adds at
      most the assigned one. */
  lemma GrowsByName(f: Frame, name: string, cells: seq<Cell>)
    ensures Names(f) <= Names(SetColumn(f, name, cells))
    ensures forall n :: n in Names(SetColumn(f, name, cells)) <==> n in Names(f) || n == name
  {
    NamesGrow(Names(f), Names(SetColumn(f, name, cells)), name);
  }

  lemma NamesGrow(a: seq<string>, b: seq<string>, name: string)
    requires b == if name in a then a else a + [name]
    ensures a <= b
    ensures forall n :: n in b <==> n in a || n == name
  {
    if name !in a {
      assert b[..|a|] == a;
    }
  }

  lemma PrefixTransitive(a: seq<string>, b: seq<string>, c: seq<string>)
    requires a <= b && b <= c
    ensures a <= c
  {
    assert c[..|a|] == b[..|a|];
  }

  /** The derived ratios read only their own input columns. */
  lemma LoanRatioLocal(f: Frame, g: Frame)
    requires Valid(f) && Valid(g) && f.rows == g.rows
    requires Get(f, LoanAmnt) == Get(g, LoanAmnt) && Get(f, PersonIncome) == Get(g, PersonIncome)
    ensures LoanRatio(f) == LoanRatio(g)
  {
  }

  lemma StabilityLocal(f: Frame, g: Frame)
    requires Valid(f) && Valid(g) && f.rows == g.rows
    requires Get(f, PersonEmpLength) == Get(g, PersonEmpLength) && Get(f, PersonAge) == Get(g, PersonAge)
    ensures Stability(f) == Stability(g)
  {
  }

  // ---------------------------------------------------------------- encoding

  /** `astype(str)` of one cell; `numText` is Python's `str` of a float. */
  function CellText(c: Cell, numText: real -> string): string
  {
    match c
    case Num(x) => numText(x)
    case Text(s) => s
    case Missing => "nan"
  }

  function Texts(cells: seq<Cell>, numText: real -> string): (r: seq<string>)
    ensures |r| == |cells|
    ensures forall i :: 0 <= i < |r| ==> r[i] == CellText(cells[i], numText)
  {
    seq(|cells|, i requires 0 <= i < |cells| => CellText(cells[i], numText))
  }

  /** `LabelEncoder().fit_transform(values)`: the code of a value is its
      position among the sorted distinct values of this very column. */
  function LabelCodes(t: seq<string>): (r: seq<nat>)
    ensures |r| == |t|
    ensures forall i :: 0 <= i < |t| ==> r[i] < |Strings.Classes(t)| && Strings.Classes(t)[r[i]] == t[i]
    ensures forall i, j :: 0 <= i < |t| && 0 <= j < |t| ==>
              && (r[i] < r[j] <==> Strings.Lt(t[i], t[j]))
              && (r[i] == r[j] <==> t[i] == t[j])
    ensures |t| == 1 ==> r == [0]
  {
    var cls := Strings.Classes(t);
    var r := seq(|t|, i requires 0 <= i < |t| => Strings.IndexOf(cls, t[i]));
    forall i, j | 0 <= i < |t| && 0 <= j < |t|
      ensures (r[i] < r[j] <==> Strings.Lt(t[i], t[j])) && (r[i] == r[j] <==> t[i] == t[j])
    {
      Strings.CodeOrder(cls, t[i], t[j]);
    }
    r
  }

  function CodeCells(cells: seq<Cell>, numText: real -> string): (r: seq<Cell>)
    ensures |r| == |cells| && Numeric(r)
    ensures forall i :: 0 <= i < |r| ==> r[i] == Num(LabelCodes(Texts(cells, numText))[i] as real)
  {
    var codes := LabelCodes(Texts(cells, numText));
    seq(|cells|, i requires 0 <= i < |cells| => Num(codes[i] as real))
  }

  /** The frame after encoding the listed columns one after the other. */
  function EncodeFrame(f: Frame, cols: seq<string>, numText: real -> string): (r: Frame)
    ensures r.rows == f.rows && Names(r) == Names(f)
    ensures Valid(f) ==> Valid(r)
    ensures forall n :: n !in cols ==> Get(r, n) == Get(f, n)
  {
    if cols == [] then f
    else
      var g := EncodeFrame(f, cols[..|cols| - 1], numText);
      var c := cols[|cols| - 1];
      assert forall n :: n !in cols ==> n !in cols[..|cols| - 1];
      if c in Names(g) then SetColumn(g, c, CodeCells(Get(g, c).value, numText)) else g
  }

  /** The `encoders` dictionary after those same steps. */
  function FitEncoders(f: Frame, cols: seq<string>, enc: map<string, seq<string>>,
                       numText: real -> string): map<string, seq<string>>
  {
    if cols == [] then enc
    else
      var e := FitEncoders(f, cols[..|cols| - 1], enc, numText);
      var g := EncodeFrame(f, cols[..|cols| - 1], numText);
      var c := cols[|cols| - 1];
      if c in Names(g) then e[c := Strings.Classes(Texts(Get(g, c).value, numText))] else e
  }

  /** With a configuration that lists each categorical column once, every
      listed column present in the frame holds the label codes of its own
      values. */
  lemma {:induction false} EncodeFrameColumns(f: Frame, cols: seq<string>, numText: real -> string)
    requires Distinct(cols)
    ensures forall c :: c in cols && c in Names(f) ==>
              Get(EncodeFrame(f, cols, numText), c) == Ok(CodeCells(Get(f, c).value, numText))
  {
    if cols != [] {
      var pre := cols[..|cols| - 1];
      EncodeFrameColumns(f, pre, numText);
      var last := cols[|cols| - 1];
      forall c | c in cols && c in Names(f)
        ensures Get(EncodeFrame(f, cols, numText), c) == Ok(CodeCells(Get(f, c).value, numText))
      {
        if c != last {
          assert c in pre;
        } else {
          assert last !in pre;
        }
      }
    }
  }

  /** A label encoder refit on a one-row frame has one class, so every
      encoded categorical column of that frame is 0. */
  lemma {:induction false} OneRowCodesZero(f: Frame, cols: seq<string>, numText: real -> string)
    requires Valid(f) && f.rows == 1
    ensures forall c :: c in cols && c in Names(f) ==> Get(EncodeFrame(f, cols, numText), c) == Ok([Num(0.0)])
  {
    if cols != [] {
      var pre := cols[..|cols| - 1];
      var last := cols[|cols| - 1];
      OneRowCodesZero(f, pre, numText);
      var g := EncodeFrame(f, pre, numText);
      var r := EncodeFrame(f, cols, numText);
      if last in Names(g) {
        OneRowCode(Get(g, last).value, numText);
      }
      forall c | c in cols && c in Names(f)
        ensures Get(r, c) == Ok([Num(0.0)])
      {
        if c != last {
          assert c in pre;
        }
      }
    }
  }

  /** One value has code 0. */
  lemma OneRowCode(cells: seq<Cell>, numText: real -> string)
    requires |cells| == 1
    ensures CodeCells(cells, numText) == [Num(0.0)]
  {
    assert LabelCodes(Texts(cells, numText)) == [0];
  }

  // --------------------------------------------------------------- alignment

  /** The inference branch's loop: every listed feature that the frame
      lacks is added as a column of zeros. */
  function ZeroFill(f: Frame, feats: seq<string>): (r: Frame)
    ensures r.rows == f.rows && Names(f) <= Names(r)
    ensures forall n :: n in Names(r) <==> n in Names(f) || n in feats
    ensures forall n :: n in Names(f) ==> Get(r, n) == Get(f, n)
    ensures forall n :: n in feats && n !in Names(f) ==> Get(r, n) == Ok(Constant(f.rows, Num(0.0)))
    ensures Valid(f) ==> Valid(r)
  {
    if feats == [] then f
    else
      var g := ZeroFill(f, feats[..|feats| - 1]);
      var n := feats[|feats| - 1];
      assert forall m :: m in feats <==> m in feats[..|feats| - 1] || m == n;
      if n in Names(g) then g else SetColumn(g, n, Constant(g.rows, Num(0.0)))
  }

  /** The inference branch's loop of `process_pipeline`, over the feature
      list it is given. */
  method FillAbsent(f: Frame, feats: seq<string>) returns (fin: Frame)
    ensures fin == ZeroFill(f, feats)
  {
    fin := f;
    var i := 0;
    while i < |feats|
      invariant 0 <= i <= |feats|
      invariant fin == ZeroFill(f, feats[..i])
    {
      var name := feats[i];
      assert feats[..i + 1][..i] == feats[..i];
      if name !in Names(fin) {
        fin := SetColumn(fin, name, Constant(fin.rows, Num(0.0)));
      }
      i := i + 1;
    }
    assert feats[..|feats|] == feats;
  }

  /** The columns a training frame keeps: the model inputs, the sensitive
      attribute when present (for the bias audit), and the target. */
  function TrainingColumns(f: Frame, target: string): seq<string>
  {
    ExpectedFeatures + (if PersonGender in Names(f) then [PersonGender] else []) + [target]
  }

  /** Cleaning followed by the derived features: the frame that encoding
      starts from. */
  function Engineered(df: Frame): (r: Result<Frame, Error>)
    requires Valid(df)
    ensures r.Ok? ==> Valid(r.value) && r.value.rows == df.rows
  {
    var clean :- CleanData(df);
    CalculateInteractions(clean)
  }

  /** The training branch of `process_pipeline` on the encoded frame:
      the expected features, the audit column when present and the target
      are selected when the target is there, and KeyError names a column
      among those that is missing. */
  function TrainingFrame(enc: Frame, target: string): (r: Result<Frame, Error>)
    ensures r.Err? <==> target in Names(enc) && exists n :: n in TrainingColumns(enc, target) && n !in Names(enc)
    ensures r.Err? ==> r.error.KeyError? && r.error.column in TrainingColumns(enc, target)
                       && r.error.column !in Names(enc)
    ensures r.Ok? ==>
              && (if target in Names(enc) then Names(r.value) == TrainingColumns(enc, target) else r.value == enc)
              && r.value.rows == enc.rows
              && forall n :: n in Names(r.value) ==> Get(r.value, n) == Get(enc, n)
  {
    if target in Names(enc) then Select(enc, TrainingColumns(enc, target)) else Ok(enc)
  }

  /** `process_pipeline`. */
  function Pipeline(df: Frame, isTraining: bool, cats: seq<string>, target: string,
                    numText: real -> string): (r: Result<Frame, Error>)
    requires Valid(df)
    ensures Engineered(df).Err? ==> r == Err(Engineered(df).error)
    ensures !isTraining ==> (r.Ok? <==> Engineered(df).Ok?)
    ensures !isTraining && r.Ok? ==> InferenceAligned(Engineered(df).value, r.value, cats, numText)
    ensures isTraining && r.Ok? ==>
              var enc := EncodeFrame(Engineered(df).value, cats, numText);
              && (if target in Names(enc) then Names(r.value) == TrainingColumns(enc, target)
                  else r.value == enc)
              && r.value.rows == df.rows
              && forall n :: n in Names(r.value) ==> Get(r.value, n) == Get(enc, n)
    ensures isTraining && Engineered(df).Ok? ==>
              var enc := EncodeFrame(Engineered(df).value, cats, numText);
              && (r.Err? <==> target in Names(enc) && exists n :: n in TrainingColumns(enc, target) && n !in Names(enc))
              && (r.Err? ==> r.error.KeyError? && r.error.column in TrainingColumns(enc, target)
                             && r.error.column !in Names(enc))
  {
    var feat :- Engineered(df);
    var enc := EncodeFrame(feat, cats, numText);
    if isTraining then TrainingFrame(enc, target)
    else
      var filled := ZeroFill(enc, ExpectedFeatures);
      ExpectedFeaturesFacts();
      Select(filled, ExpectedFeatures)
  }

  /** What inference hands to the model: exactly the 13 features in
      training order, one row per input row, each the encoded value of that
      feature or zeros where the frame had no such column. */
  predicate InferenceAligned(feat: Frame, out: Frame, cats: seq<string>, numText: real -> string)
    requires Valid(feat)
  {
    var enc := EncodeFrame(feat, cats, numText);
    && Valid(out) && out.rows == feat.rows
    && Names(out) == ExpectedFeatures
    && forall n :: n in ExpectedFeatures ==>
         Get(out, n) == if n in Names(enc) then Get(enc, n) else Ok(Constant(feat.rows, Num(0.0)))
  }

  /** The feature-engineering component; `encoders` is refit on every call. */
  class FeatureEngineer {
    const categorical: seq<string>
    const target: string
    var encoders: map<string, seq<string>>

    constructor (categorical: seq<string>, target: string)
      ensures this.categorical == categorical && this.target == target
      ensures encoders == map[]
    {
      this.categorical := categorical;
      this.target := target;
      encoders := map[];
    }

    /** `encode_categorical`. */
    method EncodeCategorical(df: Frame, numText: real -> string) returns (r: Frame)
      modifies this
      ensures r == EncodeFrame(df, categorical, numText)
      ensures encoders == FitEncoders(df, categorical, old(encoders), numText)
    {
      r := df;
      var i := 0;
      while i < |categorical|
        invariant 0 <= i <= |categorical|
        invariant r == EncodeFrame(df, categorical[..i], numText)
        invariant encoders == FitEncoders(df, categorical[..i], old(encoders), numText)
      {
        var col := categorical[i];
        assert categorical[..i + 1][..i] == categorical[..i];
        if col in Names(r) {
          var cells := Get(r, col).value;
          r := SetColumn(r, col, CodeCells(cells, numText));
          encoders := encoders[col := Strings.Classes(Texts(cells, numText))];
        }
        i := i + 1;
      }
      assert categorical[..|categorical|] == categorical;
    }

    /** `process_pipeline`. */
    method ProcessPipeline(df: Frame, isTraining: bool, numText: real -> string)
      returns (r: Result<Frame, Error>)
      requires Valid(df)
      modifies this
      ensures r == Pipeline(df, isTraining, categorical, target, numText)
      ensures encoders == if Engineered(df).Ok?
                          then FitEncoders(Engineered(df).value, categorical, old(encoders), numText)
                          else old(encoders)
    {
      var clean := CleanData(df);
      if clean.Err? {
        return Err(clean.error);
      }
      var feat := CalculateInteractions(clean.value);
      if feat.Err? {
        return Err(feat.error);
      }
      var fin := EncodeCategorical(feat.value, numText);
      if isTraining {
        if target in Names(fin) {
          var audit := if PersonGender in Names(fin) then [PersonGender] else [];
          r := Select(fin, ExpectedFeatures + audit + [target]);
        } else {
          r := Ok(fin);
        }
      } else {
        fin := FillAbsent(fin, ExpectedFeatures);
        r := Select(fin, ExpectedFeatures);
      }
    }
  }
}
