/** The live-input checks of src/data_science/validator.py: the
    out-of-distribution rule over an IsolationForest score, loading the
    saved detector on first use, and the required-column check. */
module Validator {
  import opened Wrappers
  import opened Frames

  /** The `data` part of the configuration. */
  datatype Config = Config(numerical: seq<string>, categorical: seq<string>, target: string)

  /** A fitted IsolationForest, given by its `decision_function` on the
      first row of a frame of the numerical features. */
  datatype Detector = Detector(decision: Frame -> real)

  /** What `check_ood` returns; `warning` is None where the source returns
      no warning or leaves the key out. */
  datatype OodResult = OodResult(isOod: bool, similarity: real, warning: Option<string>)

  const OodThreshold: real := -0.1
  const OodWarning := "Input profile significantly differs from training data"
  const BaselinePath := "models/train_baseline.joblib"

  /** The result when no detector is fitted and none is saved. */
  const NoDetector := OodResult(false, 1.0, None)

  /** `np.exp` is taken as any positive, strictly increasing function. */
  ghost predicate IsExp(exp: real -> real)
  {
    && (forall x :: exp(x) > 0.0)
    && (forall x, y :: x < y ==> exp(x) < exp(y))
  }

  /** The logistic "similarity index" of a score. */
  function Similarity(score: real, exp: real -> real): real
    requires exp(-5.0 * score) > 0.0
  {
    1.0 / (1.0 + exp(-5.0 * score))
  }

  /** The similarity lies strictly between 0 and 1 and grows strictly with
      the score. */
  lemma SimilarityIncreasing(s: real, t: real, exp: real -> real)
    requires IsExp(exp) && s < t
    ensures 0.0 < Similarity(s, exp) < Similarity(t, exp) < 1.0
  {
    var es, et := exp(-5.0 * s), exp(-5.0 * t);
    assert 0.0 < et < es;
    assert 1.0 < 1.0 + et < 1.0 + es;
    DivLess(1.0 + et, 1.0 + es);
    DivLess(1.0, 1.0 + et);
  }

  lemma DivLess(a: real, b: real)
    requires 0.0 < a < b
    ensures 1.0 / b < 1.0 / a
  {
    assert 1.0 / b * b == 1.0;
    assert 1.0 / a * a == 1.0;
  }

  /** Python's `round(x, 3)` on an exact value: the nearest multiple of
      0.001, ties going to the even multiple. */
  function Round3(x: real): (r: real)
    ensures x - 0.0005 <= r <= x + 0.0005
    ensures (r * 1000.0).Floor as real == r * 1000.0
  {
    var y := x * 1000.0;
    var f := y.Floor;
    var n := RoundHalfEven(y);
    assert f as real <= y < f as real + 1.0;
    n as real / 1000.0
  }

  function RoundHalfEven(y: real): (n: int)
    ensures y - 0.5 <= n as real <= y + 0.5
    ensures n == y.Floor || n == y.Floor + 1
  {
    var f := y.Floor;
    var frac := y - f as real;
    if frac < 0.5 then f
    else if frac > 0.5 then f + 1
    else if f % 2 == 0 then f
    else f + 1
  }

  /** Rounding keeps order, and keeps a value in [0, 1] inside [0, 1]. */
  lemma Round3Monotone(x: real, y: real)
    requires x <= y
    ensures Round3(x) <= Round3(y)
  {
    var fx, fy := (x * 1000.0).Floor, (y * 1000.0).Floor;
    assert fx <= fy;
    assert RoundHalfEven(x * 1000.0) <= RoundHalfEven(y * 1000.0);
  }

  lemma Round3Unit(x: real)
    requires 0.0 <= x <= 1.0
    ensures 0.0 <= Round3(x) <= 1.0
  {
    var y := x * 1000.0;
    assert 0.0 <= y <= 1000.0;
    assert 0 <= y.Floor <= 1000;
    assert y.Floor == 1000 ==> RoundHalfEven(y) == 1000;
  }

  /** The decision rule on a score: out of distribution iff the score is
      below -0.1, with the warning present exactly then. */
  function Judge(score: real, exp: real -> real): (r: OodResult)
    requires IsExp(exp)
    ensures r.isOod <==> score < OodThreshold
    ensures r.warning.Some? <==> r.isOod
    ensures r.warning.Some? ==> r.warning.value == OodWarning
    ensures r.similarity == Round3(Similarity(score, exp))
  {
    OodResult(score < OodThreshold, Round3(Similarity(score, exp)),
              if score < OodThreshold then Some(OodWarning) else None)
  }

  /** A higher score never gives a lower similarity, every similarity is in
      [0, 1], and an out-of-distribution verdict is never given to a higher
      score than an in-distribution one. */
  lemma JudgeMonotone(s: real, t: real, exp: real -> real)
    requires IsExp(exp) && s <= t
    ensures Judge(s, exp).similarity <= Judge(t, exp).similarity
    ensures 0.0 <= Judge(s, exp).similarity <= 1.0
    ensures Judge(t, exp).isOod ==> Judge(s, exp).isOod
  {
    var u := t + 1.0;
    SimilarityIncreasing(s, u, exp);
    if s < t {
      SimilarityIncreasing(s, t, exp);
    }
    Round3Monotone(Similarity(s, exp), Similarity(t, exp));
    Round3Unit(Similarity(s, exp));
  }

  /** Some feature of `features` is not a column of `instance`. */
  predicate Lacks(instance: Frame, features: seq<string>)
  {
    exists n :: n in features && n !in Names(instance)
  }

  /** The check on one instance with a detector at hand. KeyError when the
      instance lacks a numerical feature. */
  function Assess(d: Detector, instance: Frame, features: seq<string>, exp: real -> real)
    : (r: Result<OodResult, Error>)
    requires IsExp(exp)
    ensures r.Err? <==> Lacks(instance, features)
    ensures r.Ok? ==> r.value == Judge(d.decision(Select(instance, features).value), exp)
  {
    var x :- Select(instance, features);
    Ok(Judge(d.decision(x), exp))
  }

  /** The columns of `required` that `present` lacks, in order. */
  function MissingColumns(required: seq<string>, present: seq<string>): (r: seq<string>)
    ensures forall c :: c in r <==> c in required && c !in present
  {
    if required == [] then []
    else
      assert required == [required[0]] + required[1..];
      var rest := MissingColumns(required[1..], present);
      if required[0] in present then rest else [required[0]] + rest
  }

  function Required(config: Config): seq<string>
  {
    config.numerical + config.categorical + [config.target]
  }

  /** `validate_schema`: true iff every required column is present. */
  function ValidateSchema(config: Config, df: Frame): (ok: bool)
    ensures ok <==> forall c :: c in Required(config) ==> c in Names(df)
    ensures ok ==> config.target in Names(df)
  {
    var missing := MissingColumns(Required(config), Names(df));
    assert missing != [] ==> missing[0] in missing;
    missing == []
  }

  /** The means of the numerical features on the training data. */
  type Baseline = seq<real>

  class DataValidator {
    const config: Config
    var isoForest: Option<Detector>
    var trainBaseline: Option<Baseline>

    constructor (config: Config)
      ensures this.config == config && isoForest == None && trainBaseline == None
    {
      this.config := config;
      isoForest := None;
      trainBaseline := None;
    }

    /** `check_ood`. `savedDetector` is the saved detector, if its file
        exists, and `savedBaseline` the saved baseline, if its file can be
        read. They are read only while no detector is set; the detector is
        set before the baseline is read, so a missing baseline file raises
        but leaves the detector in place for the calls that follow. */
    method CheckOod(instance: Frame, savedDetector: Option<Detector>, savedBaseline: Option<Baseline>,
                    exp: real -> real)
      returns (r: Result<OodResult, Error>)
      requires IsExp(exp)
      modifies this
      ensures isoForest == if old(isoForest).Some? then old(isoForest) else savedDetector
      ensures trainBaseline == if old(isoForest).None? && savedDetector.Some? && savedBaseline.Some?
                               then savedBaseline else old(trainBaseline)
      ensures old(isoForest).None? && savedDetector.None? ==> r == Ok(NoDetector)
      ensures old(isoForest).None? && savedDetector.Some? && savedBaseline.None? ==>
                r == Err(FileNotFound(BaselinePath))
      ensures (old(isoForest).Some? || savedBaseline.Some?) && isoForest.Some? ==>
                r == Assess(isoForest.value, instance, config.numerical, exp)
      ensures r.Err? <==>
                || (old(isoForest).None? && savedDetector.Some? && savedBaseline.None?)
                || (isoForest.Some? && Lacks(instance, config.numerical))
      ensures r.Ok? ==>
                r == if isoForest.Some? then Assess(isoForest.value, instance, config.numerical, exp) else Ok(NoDetector)
    {
      if isoForest.None? {
        if savedDetector.Some? {
          isoForest := savedDetector;
          if savedBaseline.None? {
            return Err(FileNotFound(BaselinePath));
          }
          trainBaseline := savedBaseline;
        } else {
          return Ok(NoDetector);
        }
      }
      r := Assess(isoForest.value, instance, config.numerical, exp);
    }
  }
}
