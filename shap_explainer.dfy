/** The attribution step (src/xai/shap_explainer.py): choosing a SHAP
    explainer when a model is loaded, and turning the shape-ambiguous output
    of `shap_values` into one contribution per feature. */
module ShapExplainer {
  import opened Wrappers
  import opened Frames
  import opened Schema
  import Strings

  /** The raw `shap_values` result, told apart by Python type and shape:
      a list with one array per class (each given here by its flattened
      values), a 3-D array of shape (d0, d1, d2), or any other array
      (given by its flattened values; 2-D in practice). */
  datatype Payload =
    | PerClass(arrays: seq<seq<real>>)
    | Tensor3(d0: nat, d1: nat, d2: nat, data: seq<seq<seq<real>>>)
    | Array(flat: seq<real>)

  /** A NumPy array is rectangular: its nested lists have the lengths its
      shape says. */
  predicate WellShaped(p: Payload)
  {
    p.Tensor3? ==>
      && |p.data| == p.d0
      && (forall i :: 0 <= i < p.d0 ==> |p.data[i]| == p.d1)
      && (forall i, j :: 0 <= i < p.d0 && 0 <= j < p.d1 ==> |p.data[i][j]| == p.d2)
  }

  /** What `explainer.expected_value` holds: one value, or one per class. */
  datatype BaseValue = Scalar(x: real) | Vector(xs: seq<real>)

  /** The exceptions caught by the `try` of `explain_instance`. */
  datatype ShapError =
    | ExplainerRaised      // `shap_values` itself raised
    | EmptyClassList       // `shap_raw[0]` on an empty list
    | ClassIndexOutOfRange // `shap_raw[:, :, 1]` with fewer than two classes on the last axis
    | EmptyBaseVector      // `base_val[0]` on an empty vector

  type Contributions = seq<(string, real)>

  function Flatten(m: seq<seq<real>>): seq<real>
  {
    if m == [] then [] else m[0] + Flatten(m[1..])
  }

  /** Row-major flattening of a c-column matrix puts entry (i, j) at
      position i * c + j. */
  lemma {:induction false} FlattenAt(m: seq<seq<real>>, c: nat, i: nat, j: nat)
    requires forall k :: 0 <= k < |m| ==> |m[k]| == c
    requires i < |m| && j < c
    ensures |Flatten(m)| == |m| * c
    ensures i * c + j < |Flatten(m)|
    ensures Flatten(m)[i * c + j] == m[i][j]
  {
    FlattenLength(m, c);
    MulStep(i, |m|, c);
    if i > 0 {
      var rest := m[1..];
      FlattenAt(rest, c, i - 1, j);
      MulPred(i, c);
      assert Flatten(m) == m[0] + Flatten(rest);
    }
  }

  /** i < n implies i * c + c <= n * c. */
  lemma {:induction false} MulStep(i: nat, n: nat, c: nat)
    requires i < n
    ensures i * c + c <= n * c
    decreases n - i
  {
    if i + 1 < n {
      MulStep(i + 1, n, c);
      MulPred(i + 1, c);
    } else {
      MulPred(n, c);
    }
  }

  lemma MulPred(i: nat, c: nat)
    requires i > 0
    ensures i * c == (i - 1) * c + c
  {
  }

  lemma {:induction false} FlattenLength(m: seq<seq<real>>, c: nat)
    requires forall k :: 0 <= k < |m| ==> |m[k]| == c
    ensures |Flatten(m)| == |m| * c
  {
    if m != [] {
      FlattenLength(m[1..], c);
      MulPred(|m|, c);
    }
  }

  /** `shap_raw[:, :, k]` of a rectangular 3-D array, as a d0 x d1 matrix. */
  function LastAxis(data: seq<seq<seq<real>>>, d1: nat, k: nat): (r: seq<seq<real>>)
    requires forall i :: 0 <= i < |data| ==> |data[i]| == d1
    requires forall i, j :: 0 <= i < |data| && 0 <= j < d1 ==> k < |data[i][j]|
    ensures |r| == |data| && forall i :: 0 <= i < |data| ==> |r[i]| == d1
    ensures forall i, j :: 0 <= i < |data| && 0 <= j < d1 ==> r[i][j] == data[i][j][k]
  {
    seq(|data|, i requires 0 <= i < |data| =>
      seq(d1, j requires 0 <= j < d1 => data[i][j][k]))
  }

  /** Steps 2 and 3 of `explain_instance`: pick the slice of the adverse
      ("denied") class and flatten it. */
  function SelectTarget(p: Payload): (r: Result<seq<real>, ShapError>)
    requires WellShaped(p)
    ensures p.PerClass? ==> r == (if |p.arrays| > 1 then Ok(p.arrays[1])
                                  else if |p.arrays| == 1 then Ok(p.arrays[0])
                                  else Err(EmptyClassList))
    ensures p.Array? ==> r == Ok(p.flat)
    ensures p.Tensor3? && p.d0 == 2 ==> r == Ok(Flatten(p.data[1]))
    ensures p.Tensor3? && p.d0 != 2 ==>
              r == if p.d2 > 1 then Ok(Flatten(LastAxis(p.data, p.d1, 1))) else Err(ClassIndexOutOfRange)
  {
    match p
    case PerClass(arrays) =>
      if |arrays| > 1 then Ok(arrays[1])
      else if |arrays| == 1 then Ok(arrays[0])
      else Err(EmptyClassList)
    case Tensor3(d0, d1, d2, data) =>
      if d0 == 2 then Ok(Flatten(data[1]))
      else if d2 > 1 then Ok(Flatten(LastAxis(data, d1, 1)))
      else Err(ClassIndexOutOfRange)
    case Array(flat) => Ok(flat)
  }

  /** For a 3-D array of two classes on the first axis, entry (j, k) of the
      adverse class's slice lands at its row-major position. */
  lemma TensorFirstAxis(p: Payload, j: nat, k: nat)
    requires WellShaped(p) && p.Tensor3? && p.d0 == 2
    requires j < p.d1 && k < p.d2
    ensures SelectTarget(p).Ok?
    ensures |SelectTarget(p).value| == p.d1 * p.d2
    ensures j * p.d2 + k < p.d1 * p.d2
    ensures SelectTarget(p).value[j * p.d2 + k] == p.data[1][j][k]
  {
    FlattenAt(p.data[1], p.d2, j, k);
  }

  /** Any other 3-D array with two or more entries on the last axis gives
      the values of class 1 on that axis, row-major; with fewer it raises. */
  lemma TensorLastAxis(p: Payload, i: nat, j: nat)
    requires WellShaped(p) && p.Tensor3? && p.d0 != 2
    requires i < p.d0 && j < p.d1
    ensures SelectTarget(p).Ok? <==> p.d2 > 1
    ensures p.d2 > 1 ==>
              && |SelectTarget(p).value| == p.d0 * p.d1
              && i * p.d1 + j < p.d0 * p.d1
              && SelectTarget(p).value[i * p.d1 + j] == p.data[i][j][1]
  {
    if p.d2 > 1 {
      var m := LastAxis(p.data, p.d1, 1);
      FlattenAt(m, p.d1, i, j);
    }
  }

  function Zeros(n: nat): (r: seq<real>)
    ensures |r| == n && forall i :: 0 <= i < n ==> r[i] == 0.0
  {
    seq(n, _ => 0.0)
  }

  /** Step 4: a vector longer than the feature count keeps its prefix, a
      shorter one is padded with zeros at the end. */
  function Align(v: seq<real>, n: nat): (r: seq<real>)
    ensures |r| == n
    ensures |v| >= n ==> r == v[..n]
    ensures |v| <= n ==> r[..|v|] == v && forall i :: |v| <= i < n ==> r[i] == 0.0
  {
    if |v| > n then v[..n]
    else if |v| < n then v + Zeros(n - |v|)
    else v
  }

  /** Aligning twice is aligning once, and an aligned vector is left as is. */
  lemma AlignIdempotent(v: seq<real>, n: nat)
    ensures Align(Align(v, n), n) == Align(v, n)
    ensures Align(v, |v|) == v
  {
  }

  /** The base value: the adverse-class entry of a per-class vector. */
  function SelectBase(b: BaseValue): (r: Result<real, ShapError>)
    ensures b.Scalar? ==> r == Ok(b.x)
    ensures b.Vector? && |b.xs| > 1 ==> r == Ok(b.xs[1])
    ensures b.Vector? && |b.xs| == 1 ==> r == Ok(b.xs[0])
    ensures b.Vector? && |b.xs| == 0 ==> r == Err(EmptyBaseVector)
  {
    match b
    case Scalar(x) => Ok(x)
    case Vector(xs) =>
      if |xs| > 1 then Ok(xs[1]) else if |xs| == 1 then Ok(xs[0]) else Err(EmptyBaseVector)
  }

  function Keys(c: Contributions): (r: seq<string>)
    ensures |r| == |c| && forall i :: 0 <= i < |c| ==> r[i] == c[i].0
  {
    seq(|c|, i requires 0 <= i < |c| => c[i].0)
  }

  function Values(c: Contributions): (r: seq<real>)
    ensures |r| == |c| && forall i :: 0 <= i < |c| ==> r[i] == c[i].1
  {
    seq(|c|, i requires 0 <= i < |c| => c[i].1)
  }

  /** `dict(zip(names, values))` for names without duplicates. */
  function Zip(names: seq<string>, vals: seq<real>): (r: Contributions)
    requires |names| == |vals|
    ensures Keys(r) == names && Values(r) == vals
  {
    seq(|names|, i requires 0 <= i < |names| => (names[i], vals[i]))
  }

  /** The result of `explain_instance`; `error` is set on the fallback path. */
  datatype Explanation = Explanation(
    baseValue: real,
    contributions: Contributions,
    predictionProb: real,
    error: Option<ShapError>)

  /** The heuristic result returned when anything in the `try` raised. */
  const FallbackBase: real := 0.5
  const FallbackContribution: real := 0.01

  /** The `try` block of `explain_instance`: contributions and base value,
      or the exception it raised. */
  function Normalize(names: seq<string>, raw: Option<Payload>, base: BaseValue)
    : (r: Result<(Contributions, real), ShapError>)
    requires raw.Some? ==> WellShaped(raw.value)
    ensures r.Ok? <==> raw.Some? && SelectTarget(raw.value).Ok? && SelectBase(base).Ok?
    ensures r.Ok? ==>
              && Keys(r.value.0) == names
              && Values(r.value.0) == Align(SelectTarget(raw.value).value, |names|)
              && r.value.1 == SelectBase(base).value
  {
    var payload :- if raw.Some? then Ok(raw.value) else Err(ExplainerRaised);
    var target :- SelectTarget(payload);
    var contributions := Zip(names, Align(target, |names|));
    var b :- SelectBase(base);
    Ok((contributions, b))
  }

  /** `explain_instance` once the model's probability for the instance
      (`prob`) and the explainer's outputs are known. The contribution keys
      are the instance's columns without `person_gender`, on the success
      path and on the fallback path alike. */
  function Explain(instance: Frame, prob: real, raw: Option<Payload>, base: BaseValue)
    : (e: Explanation)
    requires raw.Some? ==> WellShaped(raw.value)
    ensures Keys(e.contributions) == Without(Names(instance), PersonGender)
    ensures e.predictionProb == prob
    ensures e.error.None? <==> raw.Some? && SelectTarget(raw.value).Ok? && SelectBase(base).Ok?
    ensures e.error.None? ==>
              && Values(e.contributions) == Align(SelectTarget(raw.value).value, |e.contributions|)
              && e.baseValue == SelectBase(base).value
    ensures e.error.Some? ==>
              && e.baseValue == FallbackBase
              && forall i :: 0 <= i < |e.contributions| ==> e.contributions[i].1 == FallbackContribution
  {
    var names := Names(DropIfPresent(instance, PersonGender));
    match Normalize(names, raw, base)
    case Ok((contributions, b)) => Explanation(b, contributions, prob, None)
    case Err(err) =>
      Explanation(FallbackBase, Zip(names, seq(|names|, _ => FallbackContribution)), prob, Some(err))
  }

  /** The explainer `load_model` builds. */
  datatype ExplainerKind = TreeExplainer | KernelExplainer | GenericExplainer

  /** The model directory the registry names as the latest for a model. */
  datatype ModelHandle = ModelHandle(dir: string)

  /** Tree explainers for the tree ensembles, a kernel explainer otherwise,
      and the generic explainer when building the chosen one raised. */
  function KindFor(modelName: string, initRaises: bool): (k: ExplainerKind)
    ensures initRaises ==> k == GenericExplainer
    ensures !initRaises ==>
              (k == TreeExplainer <==>
                 Strings.Contains(modelName, "xgboost") || Strings.Contains(modelName, "random_forest"))
    ensures !initRaises ==> k != GenericExplainer
  {
    if initRaises then GenericExplainer
    else if Strings.Contains(modelName, "xgboost") || Strings.Contains(modelName, "random_forest")
    then TreeExplainer
    else KernelExplainer
  }

  /** What `load_latest` finds for a model name: no latest-version file
      (it returns None), a latest directory whose `model.joblib` cannot be
      loaded (`joblib.load` raises), or the model stored there. */
  datatype Lookup = NoLatest | Unreadable | Found(handle: ModelHandle)

  /** Raised out of `load_model` or `explain_instance`: no model was found
      (`None.predict_proba`), or the model file could not be loaded. */
  datatype LoadError = NoModel | ModelUnreadable

  class Explainer {
    var modelName: string
    var model: Option<ModelHandle>
    var numFeatures: nat
    var kind: ExplainerKind

    /** `SHAPExplainer(model_name)`, which loads at once. `loaded` is what
        the registry returns for that name. */
    constructor (name: string, loaded: ModelHandle, initRaises: bool)
      ensures modelName == name && model == Some(loaded) && numFeatures == 13
      ensures kind == KindFor(name, initRaises)
    {
      modelName := name;
      model := Some(loaded);
      numFeatures := 13;
      kind := KindFor(name, initRaises);
    }

    /** `load_model`. The name is set first. When the registry finds no
        latest model, the model becomes None and both ways of building an
        explainer raise, so the explainer is left as it was. When loading
        the model file raises, the old model stays in place under the new
        name. */
    method LoadModel(name: string, found: Lookup, initRaises: bool)
      returns (err: Option<LoadError>)
      modifies this
      ensures modelName == name
      ensures found.Found? ==>
                && model == Some(found.handle) && numFeatures == 13 && kind == KindFor(name, initRaises)
                && err == None
      ensures found.NoLatest? ==>
                model == None && numFeatures == 13 && kind == old(kind) && err == Some(NoModel)
      ensures found.Unreadable? ==>
                && model == old(model) && numFeatures == old(numFeatures) && kind == old(kind)
                && err == Some(ModelUnreadable)
    {
      modelName := name;
      if found.Unreadable? {
        return Some(ModelUnreadable);
      }
      model := if found.Found? then Some(found.handle) else None;
      numFeatures := 13;
      if found.NoLatest? {
        return Some(NoModel);
      }
      kind := KindFor(name, initRaises);
      err := None;
    }

    /** `explain_instance`: `proba` is the model's `predict_proba(...)[:, 1][0]`
        and `raw`, `base` are the explainer's outputs for this instance. */
    method ExplainInstance(instance: Frame, proba: (ModelHandle, Frame) -> real,
                           raw: Option<Payload>, base: BaseValue)
      returns (r: Result<Explanation, LoadError>)
      requires raw.Some? ==> WellShaped(raw.value)
      ensures r.Err? <==> model.None?
      ensures r.Err? ==> r.error == NoModel
      ensures r.Ok? ==>
                r.value == Explain(instance, proba(model.value, DropIfPresent(instance, PersonGender)), raw, base)
    {
      if model.None? {
        return Err(NoModel);
      }
      var dropped := DropIfPresent(instance, PersonGender);
      var prob := proba(model.value, dropped);
      r := Ok(Explain(instance, prob, raw, base));
    }
  }
}
