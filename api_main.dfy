/** api/main.py, `predict`: one decision request through the whole
    pipeline. The service holds the long-lived components (feature
    engineer, explainer, validator, auditor); everything the libraries,
    the disk, the clock and the random generator supply comes in as a
    `World`. */
module ApiMain {
  import opened Wrappers
  import opened Frames
  import opened Schema
  import Engineer
  import ShapExplainer
  import NlpNugget
  import Confidence
  import Counterfactuals
  import Validator
  import Governance
  import Responses

  const ProbFloor: real := 0.01
  const ProbCeiling: real := 0.99
  const ModelVersion := "v1.3"
  const CounterfactualSteps: int := 10
  const FairnessWarning := "Sensitivity check complete: Non-discriminatory status verified."

  /** `min(max(raw_prob, 0.01), 0.99)`. */
  function Clamp(p: real): (r: real)
    ensures ProbFloor <= r <= ProbCeiling
    ensures ProbFloor <= p <= ProbCeiling ==> r == p
    ensures r > 0.5 <==> p > 0.5
  {
    if p < ProbFloor then ProbFloor else if p > ProbCeiling then ProbCeiling else p
  }

  function Prediction(prob: real): (s: string)
    ensures s == "Denied" <==> prob > 0.5
    ensures s == "Approved" <==> prob <= 0.5
  {
    var denied, approved := "Denied", "Approved";
    assert denied[0] != approved[0];
    if prob > 0.5 then denied else approved
  }

  /** The "honest confidence" rule: a score above 0.98 is replaced by
      0.96 + 0.03 * random(), with `jitter` the value of `random.random()`. */
  function ShownConfidence(score: real, jitter: real): (r: real)
    requires 0.0 <= jitter < 1.0
    ensures score > 0.98 ==> 0.96 <= r < 0.99
    ensures score <= 0.98 ==> r == score
  {
    if score > 0.98 then 0.96 + 0.03 * jitter else score
  }

  /** Confidence is computed from the clamped probability, which is at
      most 0.49 away from 0.5, so the score never exceeds 0.98 and the
      jitter branch never fires. */
  lemma JitterUnreachable(rawProb: real, jitter: real)
    requires 0.0 <= jitter < 1.0
    ensures Confidence.Estimate(Confidence.DefaultEstimator, Clamp(rawProb)).score <= 0.98
    ensures var s := Confidence.Estimate(Confidence.DefaultEstimator, Clamp(rawProb)).score;
            ShownConfidence(s, jitter) == s
  {
  }

  datatype Level = High | Medium | Low

  /** `data_similarity`. */
  function SimilarityLevel(s: real): (l: Level)
    ensures l == High <==> s > 0.8
    ensures l == Medium <==> 0.5 < s <= 0.8
    ensures l == Low <==> s <= 0.5
  {
    if s > 0.8 then High else if s > 0.5 then Medium else Low
  }

  /** `model_agreement`: never Low. */
  function AgreementLevel(p: real): (l: Level)
    ensures l == High <==> p > 0.8 || p < 0.2
    ensures l != Low
  {
    if p > 0.8 || p < 0.2 then High else Medium
  }

  /** High agreement is the same as a confidence score above 0.6. */
  lemma AgreementIsConfidence(p: real)
    ensures AgreementLevel(p) == High <==> Confidence.Score(p) > 0.6
  {
  }

  /** The uncertainty breakdown that `predict` builds. It is not part of
      the response. */
  datatype UncertaintyBreakdown = UncertaintyBreakdown(dataSimilarity: Level, modelAgreement: Level, isOod: bool)

  function Breakdown(ood: Validator.OodResult, prob: real): UncertaintyBreakdown
  {
    UncertaintyBreakdown(SimilarityLevel(ood.similarity), AgreementLevel(prob), ood.isOod)
  }

  /** `review_required`. */
  function ReviewRequired(conf: Confidence.Assessment, ood: Validator.OodResult): (b: bool)
    ensures b <==> conf.reviewRequired || ood.isOod
  {
    conf.reviewRequired || ood.isOod
  }

  /** The numeric columns of an applicant's frame, each a single number. */
  lemma ApplicantColumns(a: Applicant)
    ensures var f := ApplicantFrame(a);
            && Get(f, PersonAge) == Ok([Num(a.personAge)])
            && Get(f, PersonIncome) == Ok([Num(a.personIncome)])
            && Get(f, PersonEmpLength) == Ok([Num(a.personEmpLength)])
            && Get(f, LoanAmnt) == Ok([Num(a.loanAmnt)])
  {
    var f := ApplicantFrame(a);
    GetAt(f, 0);
    GetAt(f, 1);
    GetAt(f, 3);
    GetAt(f, 6);
  }

  lemma NamesDiffer()
    ensures LoanAmnt != PersonAge && LoanAmnt != PersonEmpLength
    ensures PersonIncome != PersonAge && PersonIncome != PersonEmpLength
  {
    assert LoanAmnt[0] != PersonAge[0] && LoanAmnt[0] != PersonEmpLength[0];
    assert PersonIncome[7] != PersonAge[7] && PersonIncome[7] != PersonEmpLength[7];
  }

  /** A one-row frame whose age, income, employment length and loan
      amount are numbers. */
  predicate NumericInputs(f: Frame, age: real, income: real, emp: real, amount: real)
  {
    && Valid(f) && f.rows == 1
    && Get(f, PersonAge) == Ok([Num(age)])
    && Get(f, PersonIncome) == Ok([Num(income)])
    && Get(f, PersonEmpLength) == Ok([Num(emp)])
    && Get(f, LoanAmnt) == Ok([Num(amount)])
  }

  lemma SingleNumeric(x: real)
    ensures Numeric([Num(x)])
  {
  }

  /** Cleaning such a frame succeeds. */
  lemma CleanOk(f: Frame, age: real, income: real, emp: real, amount: real)
    requires NumericInputs(f, age, income, emp, amount)
    ensures Engineer.CleanData(f).Ok?
  {
    SingleNumeric(age);
    SingleNumeric(emp);
  }

  /** ... and leaves a number in the age column ... */
  lemma CleanAge(f: Frame, age: real, income: real, emp: real, amount: real)
    requires NumericInputs(f, age, income, emp, amount)
    requires Engineer.CleanData(f).Ok?
    ensures Get(Engineer.CleanData(f).value, PersonAge).Ok?
    ensures Numeric(Get(Engineer.CleanData(f).value, PersonAge).value)
  {
    var a := Get(Engineer.CleanData(f).value, PersonAge).value;
    assert Engineer.AgeClipped([Num(age)], a);
    assert a[0].Num?;
  }

  /** ... and the employment length as it was. */
  lemma CleanEmp(f: Frame, age: real, income: real, emp: real, amount: real)
    requires NumericInputs(f, age, income, emp, amount)
    requires Engineer.CleanData(f).Ok?
    ensures Get(Engineer.CleanData(f).value, PersonEmpLength) == Ok([Num(emp)])
  {
    ImputedSingle(emp, Get(Engineer.CleanData(f).value, PersonEmpLength).value);
  }

  /** Imputation leaves a single present value as it is. */
  lemma ImputedSingle(x: real, after: seq<Cell>)
    requires Engineer.EmpImputed([Num(x)], after)
    ensures after == [Num(x)]
  {
    assert |after| == 1 && after[0] == Num(x);
  }

  /** Cleaning leaves the loan amount and the income as they were. */
  lemma CleanKeeps(f: Frame, age: real, income: real, emp: real, amount: real)
    requires NumericInputs(f, age, income, emp, amount)
    requires Engineer.CleanData(f).Ok?
    ensures var c := Engineer.CleanData(f).value;
            && Get(c, PersonIncome) == Ok([Num(income)])
            && Get(c, LoanAmnt) == Ok([Num(amount)])
  {
    NamesDiffer();
  }

  /** Such a frame passes cleaning and both ratios. */
  lemma EngineeredOk(f: Frame, age: real, income: real, emp: real, amount: real)
    requires NumericInputs(f, age, income, emp, amount)
    ensures Engineer.Engineered(f).Ok?
  {
    CleanOk(f, age, income, emp, amount);
    CleanAge(f, age, income, emp, amount);
    CleanEmp(f, age, income, emp, amount);
    CleanKeeps(f, age, income, emp, amount);
    SingleNumeric(emp);
    SingleNumeric(income);
    SingleNumeric(amount);
    var c := Engineer.CleanData(f).value;
    assert Engineer.LoanRatio(c).Ok?;
    assert Engineer.Stability(c).Ok?;
  }

  /** An applicant's one-row frame always passes inference engineering
      and comes out as the 13 expected features. */
  lemma ApplicantPipelineOk(a: Applicant, cats: seq<string>, target: string, numText: real -> string)
    ensures Engineer.Pipeline(ApplicantFrame(a), false, cats, target, numText).Ok?
    ensures Names(Engineer.Pipeline(ApplicantFrame(a), false, cats, target, numText).value)
            == Engineer.ExpectedFeatures
  {
    ApplicantColumns(a);
    EngineeredOk(ApplicantFrame(a), a.personAge, a.personIncome, a.personEmpLength, a.loanAmnt);
  }

  /** Everything `predict` gets from outside the code: the saved OOD
      detector (if its file exists) and baseline (if its file can be read),
      `np.exp`, what the model registry finds for a name and whether building the
      chosen SHAP explainer raises, the model's probability on an
      engineered frame, the explainer's outputs for the instance,
      `random.random()`, the audit entry's id and time, whether the audit
      file could be read and written, and `astype(str)` on numbers. */
  datatype World = World(
    savedDetector: Option<Validator.Detector>,
    savedBaseline: Option<Validator.Baseline>,
    exp: real -> real,
    registry: string -> ShapExplainer.Lookup,
    initRaises: string -> bool,
    proba: (ShapExplainer.ModelHandle, Frame) -> real,
    shapRaw: Option<ShapExplainer.Payload>,
    baseValue: ShapExplainer.BaseValue,
    jitter: real,
    entryId: string,
    timestamp: string,
    logIoOk: bool,
    numText: real -> string)

  ghost predicate WorldOk(w: World)
  {
    && Validator.IsExp(w.exp)
    && 0.0 <= w.jitter < 1.0
    && (w.shapRaw.Some? ==> ShapExplainer.WellShaped(w.shapRaw.value))
  }

  /** The exceptions that end `predict` with status 500. The
      counterfactual search's ZeroDivisionError cannot occur: `predict`
      always asks for 10 steps. */
  datatype Failure =
    | FrameFailure(error: Error)
    | ModelFailure(cause: ShapExplainer.LoadError)
    | NarrativeFailure

  /** The response assembled from the explanation, the OOD verdict, the
      narrative and the counterfactual search. */
  function Respond(e: ShapExplainer.Explanation, ood: Validator.OodResult, narrative: NlpNugget.Narrative,
                   cf: Option<Counterfactuals.Outcome>, jitter: real): (resp: Responses.DecisionResponse)
    requires 0.0 <= jitter < 1.0
    ensures ProbFloor <= resp.probability <= ProbCeiling
    ensures resp.probability > 0.5 <==> e.predictionProb > 0.5
    ensures resp.prediction == "Denied" <==> resp.probability > 0.5
    ensures resp.confidenceScore == Confidence.Score(resp.probability) <= 0.98
    ensures resp.probability == Clamp(e.predictionProb)
    ensures resp.confidenceStatus == Confidence.Estimate(Confidence.DefaultEstimator, resp.probability).status
    ensures resp.reviewRequired <==>
              Confidence.Estimate(Confidence.DefaultEstimator, resp.probability).reviewRequired || ood.isOod
    ensures resp.narrative == narrative.sentences && resp.contributions == e.contributions
    ensures resp.isOod == ood.isOod && resp.similarityScore == ood.similarity
    ensures resp.counterfactuals == cf
    ensures resp.fairnessWarning == FairnessWarning && resp.modelVersion == ModelVersion
  {
    var prob := Clamp(e.predictionProb);
    var conf := Confidence.Estimate(Confidence.DefaultEstimator, prob);
    JitterUnreachable(e.predictionProb, jitter);
    Responses.DecisionResponse(
      Prediction(prob), prob, ShownConfidence(conf.score, jitter), conf.status, ReviewRequired(conf, ood),
      narrative.sentences, e.contributions, FairnessWarning,
      ood.isOod, ood.similarity, cf, ModelVersion)
  }

  /** The frame the model sees for an applicant. */
  function Processed(a: Applicant, cats: seq<string>, target: string, numText: real -> string): Frame
  {
    ApplicantPipelineOk(a, cats, target, numText);
    Engineer.Pipeline(ApplicantFrame(a), false, cats, target, numText).value
  }

  /** The model's probability for an applicant. */
  function ModelProb(m: ShapExplainer.ModelHandle, a: Applicant, cats: seq<string>, target: string, w: World): real
  {
    w.proba(m, DropIfPresent(Processed(a, cats, target, w.numText), PersonGender))
  }

  /** The model's denial probability for any applicant, through the
      inference pipeline: what both the explainer and the counterfactual
      search ask of the shared model. */
  function Oracle(m: ShapExplainer.ModelHandle, cats: seq<string>, target: string, w: World): Applicant -> real
  {
    (c: Applicant) => ModelProb(m, c, cats, target, w)
  }

  /** The explanation `explain_instance` gives of an applicant with model `m`. */
  function ExplanationOf(m: ShapExplainer.ModelHandle, a: Applicant, cats: seq<string>, target: string, w: World)
    : ShapExplainer.Explanation
    requires w.shapRaw.Some? ==> ShapExplainer.WellShaped(w.shapRaw.value)
  {
    ShapExplainer.Explain(Processed(a, cats, target, w.numText), ModelProb(m, a, cats, target, w),
                          w.shapRaw, w.baseValue)
  }

  /** The encoders refit by inference engineering of an applicant. */
  function EncodersAfter(a: Applicant, cats: seq<string>, target: string, encoders: map<string, seq<string>>,
                         numText: real -> string): map<string, seq<string>>
  {
    ApplicantPipelineOk(a, cats, target, numText);
    Engineer.FitEncoders(Engineer.Engineered(ApplicantFrame(a)).value, cats, encoders, numText)
  }

  /** The validator's detector after `check_ood`: the one it held, or
      else the saved one, if its file exists. */
  function DetectorAfter(current: Option<Validator.Detector>, w: World): Option<Validator.Detector>
  {
    if current.Some? then current else w.savedDetector
  }

  /** The validator's baseline after `check_ood`: replaced only when the
      saved detector and baseline are both read. */
  function BaselineAfter(current: Option<Validator.Detector>, baseline: Option<Validator.Baseline>, w: World)
    : Option<Validator.Baseline>
  {
    if current.None? && w.savedDetector.Some? && w.savedBaseline.Some? then w.savedBaseline else baseline
  }

  /** The OOD verdict on an applicant with the detector held. */
  function OodOf(detector: Option<Validator.Detector>, numerical: seq<string>, a: Applicant, w: World)
    : Result<Validator.OodResult, Error>
    requires Validator.IsExp(w.exp)
  {
    if detector.Some? then Validator.Assess(detector.value, ApplicantFrame(a), numerical, w.exp)
    else Ok(Validator.NoDetector)
  }

  /** `check_ood` raises on an applicant: the saved baseline file is
      missing when the saved detector is first read, or a detector is at
      hand and a numerical feature is not a column of the request. */
  predicate OodFails(current: Option<Validator.Detector>, numerical: seq<string>, a: Applicant, w: World)
  {
    || (current.None? && w.savedDetector.Some? && w.savedBaseline.None?)
    || (DetectorAfter(current, w).Some? && Validator.Lacks(ApplicantFrame(a), numerical))
  }

  /** `load_model` raises: another model is asked for and the registry
      does not find it. */
  predicate LoadFails(name: string, choice: string, w: World)
  {
    name != choice && !w.registry(choice).Found?
  }

  /** The first half of `predict` raises: in the OOD check, in the reload,
      or in `predict_proba` on a model that was never found. */
  predicate AnalyseFails(request: Request, detector: Option<Validator.Detector>, numerical: seq<string>,
                         name: string, model: Option<ShapExplainer.ModelHandle>, w: World)
  {
    || OodFails(detector, numerical, request.applicant, w)
    || LoadFails(name, request.modelChoice, w)
    || (name == request.modelChoice && model.None?)
  }

  /** The explainer's model after a reload the registry answered with `l`:
      the one found, none, or the old one when loading its file raised. */
  function ModelAfter(current: Option<ShapExplainer.ModelHandle>, l: ShapExplainer.Lookup)
    : Option<ShapExplainer.ModelHandle>
  {
    match l
    case Found(m) => Some(m)
    case NoLatest => None
    case Unreadable => current
  }

  /** The parts of a response copied from the explanation, the OOD verdict
      and the narrative generated from the unclamped probability. */
  predicate Reports(resp: Responses.DecisionResponse, ood: Validator.OodResult, e: ShapExplainer.Explanation,
                    tone: string)
  {
    && NlpNugget.NarrativeDefined(tone, e.predictionProb, e.contributions)
    && resp.narrative == NlpNugget.GenerateNarrative(e.contributions, e.predictionProb, tone).value.sentences
    && resp.contributions == e.contributions
    && resp.isOod == ood.isOod && resp.similarityScore == ood.similarity
    && resp.fairnessWarning == FairnessWarning
  }

  /** What a response promises for applicant `a` under the model's
      denial probabilities `oracle`: the exposed probability is that of `a`
      clamped, the prediction follows it, a denial carries the outcome of
      the 10-step counterfactual search on the same model (whose base
      probability is above 0.5, so never "Already approved") and an
      approval carries none, the confidence is that of the clamped
      probability (never jittered) and so is its status, review is asked
      for on low confidence or an out-of-distribution input. */
  predicate Answers(resp: Responses.DecisionResponse, a: Applicant, oracle: Applicant -> real)
  {
    var recs := Counterfactuals.Recommendations(a, CounterfactualSteps, oracle);
    && resp.probability == Clamp(oracle(a))
    && (resp.prediction == "Denied" <==> resp.probability > 0.5)
    && (resp.counterfactuals.Some? <==> resp.probability > 0.5)
    && (resp.counterfactuals.Some? ==>
          resp.counterfactuals.value == Counterfactuals.Path(oracle(a), recs, |recs| > 0))
    && resp.confidenceScore == Confidence.Score(resp.probability) <= 0.98
    && resp.confidenceStatus == Confidence.Estimate(Confidence.DefaultEstimator, resp.probability).status
    && (resp.reviewRequired <==>
          Confidence.Estimate(Confidence.DefaultEstimator, resp.probability).reviewRequired || resp.isOod)
    && resp.modelVersion == ModelVersion
  }

  /** The explanation of an applicant is keyed by the 13 expected
      features, whatever the explainer returned. */
  lemma ContributionKeys(a: Applicant, cats: seq<string>, target: string, numText: real -> string,
                         prob: real, raw: Option<ShapExplainer.Payload>, base: ShapExplainer.BaseValue)
    requires raw.Some? ==> ShapExplainer.WellShaped(raw.value)
    ensures ShapExplainer.Keys(ShapExplainer.Explain(Processed(a, cats, target, numText), prob, raw, base)
                               .contributions) == Engineer.ExpectedFeatures
  {
    ApplicantPipelineOk(a, cats, target, numText);
    Engineer.ExpectedFeaturesFacts();
  }

  class DecisionService {
    const engineer: Engineer.FeatureEngineer
    const explainer: ShapExplainer.Explainer
    const validator: Validator.DataValidator
    const auditor: Governance.GovernanceAuditor

    /** The module-level instances built at start-up. */
    constructor (engineer: Engineer.FeatureEngineer, explainer: ShapExplainer.Explainer,
                 validator: Validator.DataValidator, auditor: Governance.GovernanceAuditor)
      ensures this.engineer == engineer && this.explainer == explainer
      ensures this.validator == validator && this.auditor == auditor
    {
      this.engineer := engineer;
      this.explainer := explainer;
      this.validator := validator;
      this.auditor := auditor;
    }

    /** `process_pipeline(df_raw, is_training=False)`, which cannot fail on
        an applicant. */
    method Features(a: Applicant, w: World) returns (x: Frame)
      modifies engineer
      ensures x == Processed(a, engineer.categorical, engineer.target, w.numText)
      ensures engineer.encoders
              == EncodersAfter(a, engineer.categorical, engineer.target, old(engineer.encoders), w.numText)
    {
      var r := engineer.ProcessPipeline(ApplicantFrame(a), false, w.numText);
      ApplicantPipelineOk(a, engineer.categorical, engineer.target, w.numText);
      x := r.value;
    }

    /** The first half of `predict`: the OOD check on the raw frame, the
        reload of the explainer when another model is asked for, feature
        engineering and the explanation. */
    method Analyse(request: Request, w: World)
      returns (r: Result<(Validator.OodResult, ShapExplainer.Explanation), Failure>)
      requires WorldOk(w)
      modifies engineer, explainer, validator
      ensures r.Err? <==> AnalyseFails(request, old(validator.isoForest), validator.config.numerical,
                                       old(explainer.modelName), old(explainer.model), w)
      ensures validator.isoForest == DetectorAfter(old(validator.isoForest), w)
      ensures validator.trainBaseline == BaselineAfter(old(validator.isoForest), old(validator.trainBaseline), w)
      ensures OodFails(old(validator.isoForest), validator.config.numerical, request.applicant, w)
              || old(explainer.modelName) == request.modelChoice ==>
                && explainer.modelName == old(explainer.modelName) && explainer.numFeatures == old(explainer.numFeatures)
                && explainer.model == old(explainer.model) && explainer.kind == old(explainer.kind)
      ensures !OodFails(old(validator.isoForest), validator.config.numerical, request.applicant, w)
              && old(explainer.modelName) != request.modelChoice ==>
                && explainer.modelName == request.modelChoice
                && explainer.model == ModelAfter(old(explainer.model), w.registry(request.modelChoice))
                && explainer.numFeatures == (if w.registry(request.modelChoice).Unreadable?
                                             then old(explainer.numFeatures) else 13)
                && explainer.kind == if w.registry(request.modelChoice).Found?
                                     then ShapExplainer.KindFor(request.modelChoice, w.initRaises(request.modelChoice))
                                     else old(explainer.kind)
      ensures engineer.encoders
              == if OodFails(old(validator.isoForest), validator.config.numerical, request.applicant, w)
                    || LoadFails(old(explainer.modelName), request.modelChoice, w)
                 then old(engineer.encoders)
                 else EncodersAfter(request.applicant, engineer.categorical, engineer.target,
                                    old(engineer.encoders), w.numText)
      ensures r.Ok? ==> explainer.modelName == request.modelChoice && explainer.model.Some?
      ensures r.Ok? ==>
                r.value.1 == ExplanationOf(explainer.model.value, request.applicant, engineer.categorical,
                                           engineer.target, w)
      ensures r.Ok? ==> r.value.1.predictionProb
                          == ModelProb(explainer.model.value, request.applicant, engineer.categorical, engineer.target, w)
      ensures r.Ok? ==> ShapExplainer.Keys(r.value.1.contributions) == Engineer.ExpectedFeatures
      ensures r.Ok? ==>
                Ok(r.value.0) == OodOf(validator.isoForest, validator.config.numerical, request.applicant, w)
    {
      var a := request.applicant;
      var dfRaw := ApplicantFrame(a);

      var ood := validator.CheckOod(dfRaw, w.savedDetector, w.savedBaseline, w.exp);
      if ood.Err? {
        return Err(FrameFailure(ood.error));
      }
      var loadError := Reload(request, w);
      if loadError.Some? {
        return Err(ModelFailure(loadError.value));
      }
      var explanation := ExplainApplicant(a, w);
      if explanation.Err? {
        return Err(ModelFailure(explanation.error));
      }
      r := Ok((ood.value, explanation.value));
    }

    /** The reload step of `predict`: `load_model` when another model is
        asked for. */
    method Reload(request: Request, w: World) returns (err: Option<ShapExplainer.LoadError>)
      modifies explainer
      ensures err.Some? <==> LoadFails(old(explainer.modelName), request.modelChoice, w)
      ensures old(explainer.modelName) == request.modelChoice ==> unchanged(explainer)
      ensures old(explainer.modelName) != request.modelChoice ==>
                && explainer.modelName == request.modelChoice
                && explainer.model == ModelAfter(old(explainer.model), w.registry(request.modelChoice))
                && explainer.numFeatures == (if w.registry(request.modelChoice).Unreadable?
                                             then old(explainer.numFeatures) else 13)
                && explainer.kind == if w.registry(request.modelChoice).Found?
                                     then ShapExplainer.KindFor(request.modelChoice, w.initRaises(request.modelChoice))
                                     else old(explainer.kind)
    {
      err := None;
      if explainer.modelName != request.modelChoice {
        err := explainer.LoadModel(request.modelChoice, w.registry(request.modelChoice),
                                   w.initRaises(request.modelChoice));
      }
    }

    /** Inference engineering of the applicant and `explain_instance` on
        the result, which raises only without a model. */
    method ExplainApplicant(a: Applicant, w: World)
      returns (r: Result<ShapExplainer.Explanation, ShapExplainer.LoadError>)
      requires w.shapRaw.Some? ==> ShapExplainer.WellShaped(w.shapRaw.value)
      modifies engineer
      ensures engineer.encoders
              == EncodersAfter(a, engineer.categorical, engineer.target, old(engineer.encoders), w.numText)
      ensures r.Err? <==> explainer.model.None?
      ensures r.Err? ==> r.error == ShapExplainer.NoModel
      ensures r.Ok? ==>
                && r.value == ExplanationOf(explainer.model.value, a, engineer.categorical, engineer.target, w)
                && r.value.predictionProb == ModelProb(explainer.model.value, a, engineer.categorical, engineer.target, w)
                && ShapExplainer.Keys(r.value.contributions) == Engineer.ExpectedFeatures
    {
      var dfProc := Features(a, w);
      r := explainer.ExplainInstance(dfProc, w.proba, w.shapRaw, w.baseValue);
      if r.Ok? {
        ContributionKeys(a, engineer.categorical, engineer.target, w.numText,
                         r.value.predictionProb, w.shapRaw, w.baseValue);
      }
    }

    /** The second half of `predict`, on the explanation: the narrative
        from the unclamped probability, the counterfactual search for a
        denial, and the response. It fails exactly when the narrative's
        template indexes a feature that is not there. */
    method Decide(request: Request, ood: Validator.OodResult, e: ShapExplainer.Explanation,
                  oracle: Applicant -> real, w: World)
      returns (r: Result<Responses.DecisionResponse, Failure>)
      requires 0.0 <= w.jitter < 1.0
      requires e.predictionProb == oracle(request.applicant)
      ensures r.Err? <==> !NlpNugget.NarrativeDefined(request.tone, e.predictionProb, e.contributions)
      ensures r.Ok? ==> Answers(r.value, request.applicant, oracle)
      ensures r.Ok? ==> Reports(r.value, ood, e, request.tone)
    {
      var a := request.applicant;
      var narrative := NlpNugget.GenerateNarrative(e.contributions, e.predictionProb, request.tone);
      if narrative.Err? {
        return Err(NarrativeFailure);
      }
      var cf: Option<Counterfactuals.Outcome> := None;
      if Clamp(e.predictionProb) > 0.5 {
        var search, _ := Counterfactuals.FindPathToApproval(a, CounterfactualSteps, oracle);
        cf := Some(search.value);
      }
      r := Ok(Respond(e, ood, narrative.value, cf, w.jitter));
    }

    /** `predict`. It fails exactly when the first half fails or the
        narrative's template indexes a feature that is not there. On
        success the response is what `Answers` and `Reports` say of the
        shared model's explanation and the validator's OOD verdict, the
        contributions are keyed by the 13 expected features, and the
        decision is appended to the audit log. The validator, explainer and
        engineer end as the first half leaves them; a failure leaves the
        log as it was. */
    method Predict(request: Request, w: World) returns (r: Result<Responses.DecisionResponse, Failure>)
      requires WorldOk(w)
      modifies engineer, explainer, validator, auditor
      ensures r.Err? <==>
                || AnalyseFails(request, old(validator.isoForest), validator.config.numerical,
                                old(explainer.modelName), old(explainer.model), w)
                || (explainer.model.Some? &&
                    var e := ExplanationOf(explainer.model.value, request.applicant, engineer.categorical,
                                           engineer.target, w);
                    !NlpNugget.NarrativeDefined(request.tone, e.predictionProb, e.contributions))
      ensures validator.isoForest == DetectorAfter(old(validator.isoForest), w)
      ensures validator.trainBaseline == BaselineAfter(old(validator.isoForest), old(validator.trainBaseline), w)
      ensures OodFails(old(validator.isoForest), validator.config.numerical, request.applicant, w)
              || old(explainer.modelName) == request.modelChoice ==>
                && explainer.modelName == old(explainer.modelName) && explainer.numFeatures == old(explainer.numFeatures)
                && explainer.model == old(explainer.model) && explainer.kind == old(explainer.kind)
      ensures !OodFails(old(validator.isoForest), validator.config.numerical, request.applicant, w)
              && old(explainer.modelName) != request.modelChoice ==>
                && explainer.modelName == request.modelChoice
                && explainer.model == ModelAfter(old(explainer.model), w.registry(request.modelChoice))
                && explainer.numFeatures == (if w.registry(request.modelChoice).Unreadable?
                                             then old(explainer.numFeatures) else 13)
                && explainer.kind == if w.registry(request.modelChoice).Found?
                                     then ShapExplainer.KindFor(request.modelChoice, w.initRaises(request.modelChoice))
                                     else old(explainer.kind)
      ensures engineer.encoders
              == if OodFails(old(validator.isoForest), validator.config.numerical, request.applicant, w)
                    || LoadFails(old(explainer.modelName), request.modelChoice, w)
                 then old(engineer.encoders)
                 else EncodersAfter(request.applicant, engineer.categorical, engineer.target,
                                    old(engineer.encoders), w.numText)
      ensures r.Ok? ==> explainer.modelName == request.modelChoice && explainer.model.Some?
      ensures r.Ok? ==> Answers(r.value, request.applicant,
                                Oracle(explainer.model.value, engineer.categorical, engineer.target, w))
      ensures r.Ok? ==>
                && OodOf(validator.isoForest, validator.config.numerical, request.applicant, w).Ok?
                && Reports(r.value, OodOf(validator.isoForest, validator.config.numerical, request.applicant, w).value,
                           ExplanationOf(explainer.model.value, request.applicant, engineer.categorical,
                                         engineer.target, w), request.tone)
      ensures r.Ok? ==> ShapExplainer.Keys(r.value.contributions) == Engineer.ExpectedFeatures
      ensures r.Ok? ==>
                auditor.log == if w.logIoOk
                               then Governance.LastN(old(auditor.log) + [Governance.Entry(w.entryId, w.timestamp,
                                      ModelVersion, request, Governance.SnapshotOf(r.value))], Governance.Capacity)
                               else old(auditor.log)
      ensures r.Err? ==> auditor.log == old(auditor.log)
    {
      var analysis := Analyse(request, w);
      if analysis.Err? {
        return Err(analysis.error);
      }
      var oracle := Oracle(explainer.model.value, engineer.categorical, engineer.target, w);
      r := Conclude(request, analysis.value.0, analysis.value.1, oracle, w);
    }

    /** The decision and its audit entry: a response is logged, a failure
        leaves the log as it was. */
    method Conclude(request: Request, ood: Validator.OodResult, e: ShapExplainer.Explanation,
                    oracle: Applicant -> real, w: World)
      returns (r: Result<Responses.DecisionResponse, Failure>)
      requires 0.0 <= w.jitter < 1.0
      requires e.predictionProb == oracle(request.applicant)
      modifies auditor
      ensures r.Err? <==> !NlpNugget.NarrativeDefined(request.tone, e.predictionProb, e.contributions)
      ensures r.Ok? ==> Answers(r.value, request.applicant, oracle) && Reports(r.value, ood, e, request.tone)
      ensures r.Ok? ==>
                auditor.log == if w.logIoOk
                               then Governance.LastN(old(auditor.log) + [Governance.Entry(w.entryId, w.timestamp,
                                      ModelVersion, request, Governance.SnapshotOf(r.value))], Governance.Capacity)
                               else old(auditor.log)
      ensures r.Err? ==> auditor.log == old(auditor.log)
    {
      r := Decide(request, ood, e, oracle, w);
      if r.Ok? {
        var _ := auditor.LogDecision(request, r.value, ModelVersion, w.entryId, w.timestamp, w.logIoOk);
      }
    }
  }
}
