/** The part of a pandas DataFrame the pipeline uses: named columns of
    equal length, looked up by name (a missing name raises KeyError),
    assigned by name (replacing the column in place or appending it at the
    end), selected by a list of names, and column-wise arithmetic. */
module Frames {
  import opened Wrappers

  /** One cell: a number, a string, or a missing value (NaN). */
  datatype Cell = Num(x: real) | Text(s: string) | Missing

  datatype Column = Column(name: string, cells: seq<Cell>)

  datatype Frame = Frame(rows: nat, cols: seq<Column>)

  /** The exceptions raised on the paths modelled here: pandas' KeyError
      and TypeError, and FileNotFoundError from reading a saved file. */
  datatype Error = KeyError(column: string) | TypeError(column: string) | FileNotFound(path: string)

  function Names(f: Frame): (r: seq<string>)
    ensures |r| == |f.cols|
    ensures forall i :: 0 <= i < |f.cols| ==> r[i] == f.cols[i].name
  {
    seq(|f.cols|, i requires 0 <= i < |f.cols| => f.cols[i].name)
  }

  predicate Distinct(s: seq<string>)
  {
    forall i, j :: 0 <= i < j < |s| ==> s[i] != s[j]
  }

  /** Column names are unique and every column has one cell per row. */
  predicate Valid(f: Frame)
  {
    && Distinct(Names(f))
    && forall i :: 0 <= i < |f.cols| ==> |f.cols[i].cells| == f.rows
  }

  /** Index of the first column called `name`. */
  function Find(cols: seq<Column>, name: string): (r: Option<nat>)
    ensures r.Some? ==> r.value < |cols| && cols[r.value].name == name
    ensures r.Some? ==> forall k :: 0 <= k < r.value ==> cols[k].name != name
    ensures r.None? <==> forall k :: 0 <= k < |cols| ==> cols[k].name != name
  {
    if cols == [] then None
    else if cols[0].name == name then Some(0)
    else match Find(cols[1..], name)
      case None => None
      case Some(k) => Some(k + 1)
  }

  lemma FindIn(f: Frame, name: string)
    ensures Find(f.cols, name).Some? <==> name in Names(f)
  {
    if name in Names(f) {
      var k :| 0 <= k < |Names(f)| && Names(f)[k] == name;
    }
  }

  /** `df[name]`; KeyError when there is no such column. */
  function Get(f: Frame, name: string): (r: Result<seq<Cell>, Error>)
    ensures r.Err? <==> name !in Names(f)
    ensures r.Err? ==> r.error == KeyError(name)
    ensures r.Ok? && Valid(f) ==> |r.value| == f.rows
  {
    FindIn(f, name);
    match Find(f.cols, name)
    case None => Err(KeyError(name))
    case Some(k) => Ok(f.cols[k].cells)
  }

  /** In a valid frame, `Get` returns the one column of that name. */
  lemma GetAt(f: Frame, k: nat)
    requires Valid(f) && k < |f.cols|
    ensures Get(f, f.cols[k].name) == Ok(f.cols[k].cells)
  {
    var j := Find(f.cols, f.cols[k].name).value;
    assert Names(f)[j] == Names(f)[k];
  }

  /** `df[name] = cells`: an existing column is replaced where it stands,
      a new one is appended after the others. */
  function SetColumn(f: Frame, name: string, cells: seq<Cell>): (r: Frame)
    ensures r.rows == f.rows
    ensures Names(r) == if name in Names(f) then Names(f) else Names(f) + [name]
    ensures Get(r, name) == Ok(cells)
    ensures forall n :: n != name ==> Get(r, n) == Get(f, n)
    ensures Valid(f) && |cells| == f.rows ==> Valid(r)
  {
    FindIn(f, name);
    match Find(f.cols, name)
    case Some(k) =>
      var r := Frame(f.rows, f.cols[k := Column(name, cells)]);
      assert Names(r) == Names(f);
      FindIn(r, name);
      assert forall n :: n != name ==> Find(r.cols, n) == Find(f.cols, n) by {
        forall n | n != name ensures Find(r.cols, n) == Find(f.cols, n) {
          FindSame(f.cols, r.cols, n, k);
        }
      }
      r
    case None =>
      var r := Frame(f.rows, f.cols + [Column(name, cells)]);
      assert Names(r) == Names(f) + [name];
      assert forall n :: n != name ==> Find(r.cols, n) == Find(f.cols, n) by {
        forall n | n != name ensures Find(r.cols, n) == Find(f.cols, n) {
          FindAppend(f.cols, Column(name, cells), n);
        }
      }
      FindIn(r, name);
      assert Find(r.cols, name).value == |f.cols|;
      r
  }

  lemma {:induction false} FindSame(a: seq<Column>, b: seq<Column>, n: string, k: nat)
    requires |a| == |b| && k < |a| && a[k].name != n && b[k].name != n
    requires forall i :: 0 <= i < |a| && i != k ==> a[i] == b[i]
    ensures Find(a, n) == Find(b, n)
  {
    if a != [] && a[0].name != n {
      if k > 0 {
        FindSame(a[1..], b[1..], n, k - 1);
      } else {
        assert a[1..] == b[1..];
      }
    }
  }

  lemma {:induction false} FindAppend(a: seq<Column>, c: Column, n: string)
    requires c.name != n
    ensures Find(a + [c], n) == Find(a, n)
  {
    if a == [] {
      assert Find([c][1..], n) == None;
    } else {
      assert (a + [c])[1..] == a[1..] + [c];
      FindAppend(a[1..], c, n);
    }
  }

  /** Assigning a column the cells it already holds changes nothing. */
  lemma SetSame(f: Frame, name: string)
    requires Valid(f) && name in Names(f)
    ensures SetColumn(f, name, Get(f, name).value) == f
  {
    FindIn(f, name);
    var k := Find(f.cols, name).value;
    assert f.cols[k := Column(name, f.cols[k].cells)] == f.cols;
  }

  /** `df[names]`: the listed columns in the listed order; KeyError naming
      the first absent one otherwise. */
  function Select(f: Frame, names: seq<string>): (r: Result<Frame, Error>)
    ensures r.Ok? <==> forall n :: n in names ==> n in Names(f)
    ensures r.Err? ==> r.error.KeyError? && r.error.column in names && r.error.column !in Names(f)
    ensures r.Ok? ==> r.value.rows == f.rows && Names(r.value) == names
    ensures r.Ok? ==> forall n :: n in names ==> Get(r.value, n) == Get(f, n)
    ensures r.Ok? && Valid(f) && Distinct(names) ==> Valid(r.value)
  {
    if forall n :: n in names ==> n in Names(f) then
      var cols := seq(|names|, i requires 0 <= i < |names| => Column(names[i], Get(f, names[i]).value));
      var g := Frame(f.rows, cols);
      assert Names(g) == names;
      assert forall n :: n in names ==> Get(g, n) == Get(f, n) by {
        forall n | n in names ensures Get(g, n) == Get(f, n) {
          var k := Find(g.cols, n).value;
        }
      }
      Ok(g)
    else
      var missing := FirstAbsent(names, Names(f));
      Err(KeyError(missing))
  }

  function FirstAbsent(names: seq<string>, present: seq<string>): (r: string)
    requires exists n :: n in names && n !in present
    ensures r in names && r !in present
  {
    if names[0] !in present then names[0] else FirstAbsent(names[1..], present)
  }

  /** `df.drop(columns=[name])` for a column known to be present, and the
      frame itself otherwise (the source tests membership first). */
  function DropIfPresent(f: Frame, name: string): (r: Frame)
    ensures r.rows == f.rows
    ensures forall n :: n in Names(r) <==> n in Names(f) && n != name
    ensures Names(r) == Without(Names(f), name)
  {
    Frame(f.rows, RemoveNamed(f.cols, name))
  }

  function RemoveNamed(cols: seq<Column>, name: string): (r: seq<Column>)
    ensures Names(Frame(0, r)) == Without(Names(Frame(0, cols)), name)
  {
    if cols == [] then []
    else
      assert Names(Frame(0, cols[1..])) == Names(Frame(0, cols))[1..];
      var rest := RemoveNamed(cols[1..], name);
      if cols[0].name == name then rest
      else
        assert Names(Frame(0, [cols[0]] + rest)) == [cols[0].name] + Names(Frame(0, rest));
        [cols[0]] + rest
  }

  /** `s` with every occurrence of `x` removed, order kept. */
  function Without(s: seq<string>, x: string): (r: seq<string>)
    ensures forall y :: y in r <==> y in s && y != x
    ensures x !in s ==> r == s
  {
    if s == [] then []
    else
      assert s == [s[0]] + s[1..];
      if s[0] == x then Without(s[1..], x) else [s[0]] + Without(s[1..], x)
  }

  // Column-wise arithmetic. A column that holds a string makes pandas
  // raise TypeError; a missing value stays missing.

  predicate Numeric(cells: seq<Cell>)
  {
    forall i :: 0 <= i < |cells| ==> !cells[i].Text?
  }

  function Min(a: real, b: real): real { if a <= b then a else b }

  function Max(a: real, b: real): real { if a >= b then a else b }

  /** `series.clip(upper=hi)`. */
  function ClipUpper(cells: seq<Cell>, hi: real): (r: seq<Cell>)
    requires Numeric(cells)
    ensures |r| == |cells| && Numeric(r)
    ensures forall i :: 0 <= i < |r| ==> r[i].Num? == cells[i].Num?
    ensures forall i :: 0 <= i < |r| && r[i].Num? ==> r[i].x <= hi
    ensures forall i :: 0 <= i < |r| && cells[i].Num? && cells[i].x <= hi ==> r[i] == cells[i]
    ensures forall i :: 0 <= i < |r| && cells[i].Num? && cells[i].x > hi ==> r[i] == Num(hi)
  {
    seq(|cells|, i requires 0 <= i < |cells| =>
      if cells[i].Num? then Num(Min(cells[i].x, hi)) else Missing)
  }

  /** `series.clip(lower=lo)`. */
  function ClipLower(cells: seq<Cell>, lo: real): (r: seq<Cell>)
    requires Numeric(cells)
    ensures |r| == |cells| && Numeric(r)
    ensures forall i :: 0 <= i < |r| ==> r[i].Num? == cells[i].Num?
    ensures forall i :: 0 <= i < |r| && r[i].Num? ==> r[i].x >= lo
    ensures forall i :: 0 <= i < |r| && cells[i].Num? ==> r[i].x == Max(cells[i].x, lo)
  {
    seq(|cells|, i requires 0 <= i < |cells| =>
      if cells[i].Num? then Num(Max(cells[i].x, lo)) else Missing)
  }

  /** `series - c`. */
  function Minus(cells: seq<Cell>, c: real): (r: seq<Cell>)
    requires Numeric(cells)
    ensures |r| == |cells| && Numeric(r)
    ensures forall i :: 0 <= i < |r| ==> r[i].Num? == cells[i].Num?
    ensures forall i :: 0 <= i < |r| && cells[i].Num? ==> r[i].x == cells[i].x - c
  {
    seq(|cells|, i requires 0 <= i < |cells| =>
      if cells[i].Num? then Num(cells[i].x - c) else Missing)
  }

  /** `a / b` for a denominator with no zero in it. */
  function Divide(a: seq<Cell>, b: seq<Cell>): (r: seq<Cell>)
    requires |a| == |b| && Numeric(a) && Numeric(b)
    requires forall i :: 0 <= i < |b| && b[i].Num? ==> b[i].x != 0.0
    ensures |r| == |a| && Numeric(r)
    ensures forall i :: 0 <= i < |r| ==> (r[i].Num? <==> a[i].Num? && b[i].Num?)
    ensures forall i :: 0 <= i < |r| && r[i].Num? ==> r[i].x == a[i].x / b[i].x
  {
    seq(|a|, i requires 0 <= i < |a| =>
      if a[i].Num? && b[i].Num? then Num(a[i].x / b[i].x) else Missing)
  }

  /** The column a scalar assignment `df[name] = v` broadcasts. */
  function Constant(rows: nat, v: Cell): (r: seq<Cell>)
    ensures |r| == rows && forall i :: 0 <= i < rows ==> r[i] == v
  {
    seq(rows, _ => v)
  }
}
