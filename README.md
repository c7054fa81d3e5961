# DECIDE-X decision pipeline in Dafny

This project models the decision-explanation core of DECIDE-X, a credit-risk
service. One decision request goes through these steps:

- The applicant record becomes a one-row frame.
- The OOD validator scores it against the training distribution.
- The explainer is reloaded when another model is asked for.
- Feature engineering cleans the frame, derives the two ratio features, label-encodes the categoricals and aligns the result to the 13 training features.
- The SHAP explainer normalises whatever shape the attribution payload has into one contribution per feature. It falls back to a uniform 0.01 on any failure.
- The probability is clamped to [0.01, 0.99] and classified: denied iff above 0.5.
- The narrative ranks the top features.
- A denied applicant gets two greedy counterfactual searches (smaller loan, higher income).
- Confidence and the review flag are computed, the response is assembled, and a compact snapshot is appended to the audit log, bounded to 100 entries.

The batch disparate-impact check (the 80 % rule over approval rates) is modelled as well.

The project has one module per source file, plus shared helpers:

- `Wrappers`: Option and Result.
- `Strings`: Python's `<` on `str`, and the sorted distinct values that `LabelEncoder` builds.
- `Sorting`: a stable sort by a real key, as `sorted` does.
- `Frames`: the part of a pandas DataFrame the pipeline touches, as named columns of cells that are a number, a string or missing.
- `Schema` and `Responses`: the request and response records.

The parts of the source that mutate state are classes whose methods are proved against specification functions:

- `FeatureEngineer`, with its `encoders` field.
- `Explainer`, with the active model and its explainer.
- `DataValidator`, with the lazily loaded detector.
- `GovernanceAuditor`, with the log as a `seq`.
- `DecisionService`, which holds the four instances `predict` shares.

Everything the libraries, the disk, the clock and the random generator supply is a parameter. In `ApiMain` these are gathered in the `World` datatype:

- `predict_proba`, `shap_values` and `expected_value`;
- the IsolationForest score;
- the registry lookup;
- `np.exp`;
- `random.random()`;
- the audit entry's UUID and timestamp;
- whether the log file could be read and written;
- Python's `str` of a float.

Behaviour of the code as written that is easy to miss:

- The employment-length median is taken per call over the frame passed in. On the one-row inference frame a missing value therefore stays missing.
- The label encoders are refit on every call, inference included. Every categorical of a one-row inference frame is therefore coded 0.
- The OOD check runs before the model reload, on the raw frame.
- The narrative uses the unclamped probability.
- When a model cannot be loaded, the request ends in an internal error. It is not surfaced as a distinct outcome.
- `load_model` sets the new name before it loads. When the model file named for the latest version cannot be read, the old model stays in place under the new name, so later requests for that name are answered by the old model.
- `check_ood` sets the saved detector before it reads the saved baseline. When the baseline file is missing, that request fails, but the detector stays loaded for the requests that follow.
- A narrative template that indexes a feature that is not there raises, and the request ends with status 500. The model does not treat this as a precondition.
- The anti-overconfidence jitter can never fire. Confidence is computed from the clamped probability, so it is at most 0.98.

## Model

| member | source | states |
|---|---|---|
| Engineer.ExpectedFeaturesFacts | src/data_science/engineer.py:76-81 | the expected feature list has 13 distinct names and leaves out the sensitive attribute |
| Engineer.PresentValues | src/data_science/engineer.py:25 | the median is taken over exactly the present numbers of the column |
| Engineer.Median | src/data_science/engineer.py:25 | there is no median exactly when the column has no present value |
| Engineer.MedianBounds | src/data_science/engineer.py:25 | the median lies between the smallest and the largest present value, and is a present value when their count is odd |
| Engineer.FillMissing | src/data_science/engineer.py:26 | `fillna` replaces exactly the missing cells and keeps every other cell |
| Engineer.ImputeEmpLength | src/data_science/engineer.py:24-27 | it fails (TypeError) iff the employment column holds a string; it imputes only that column, with its own median, and keeps present values; other columns are unchanged and nothing happens when the column is absent |
| Engineer.CleanData | src/data_science/engineer.py:16-33 | it succeeds iff an age column is present and both columns are numeric; every age ends up at most 100, ages already at most 100 are unchanged, the employment length is imputed, and no other column changes |
| Engineer.ImputeOneRowUnchanged | src/data_science/engineer.py:24-26 | on a one-row frame the per-call median imputation changes nothing, so a missing employment length stays missing |
| Engineer.LoanRatio | src/data_science/engineer.py:48 | `loan_amnt / max(person_income, 1)` cell by cell; defined for every income including 0; fails only on an absent or non-numeric column |
| Engineer.Stability | src/data_science/engineer.py:51 | `person_emp_length / max(person_age - 16, 1)` cell by cell; fails only on an absent or non-numeric column |
| Engineer.LoanRatioLocal | src/data_science/engineer.py:48 | the loan ratio depends only on the loan and income columns |
| Engineer.StabilityLocal | src/data_science/engineer.py:51 | the stability index depends only on the employment and age columns |
| Engineer.AddLoanPercentIncome | src/data_science/engineer.py:44-45 | a supplied `loan_percent_income` is kept as is; an absent one becomes the loan ratio; no other column changes |
| Engineer.AddLoanToIncome | src/data_science/engineer.py:48 | the new column is the loan ratio and no other column changes |
| Engineer.AddStabilityIndex | src/data_science/engineer.py:51 | the new column is the stability index and no other column changes |
| Engineer.CalculateInteractions | src/data_science/engineer.py:35-53 | it succeeds iff both ratios are defined; the result adds exactly the three derived names, keeps the earlier columns in order and unchanged, and holds the two ratios and the kept or derived percent-income |
| Engineer.Texts | src/data_science/engineer.py:64 | `astype(str)` maps each cell to its text |
| Engineer.LabelCodes | src/data_science/engineer.py:61-64 | each code is the index of its value among the sorted distinct values, so it lies in [0, #distinct); codes respect the string order and equal values share a code; one value gives code 0 |
| Engineer.CodeCells | src/data_science/engineer.py:64 | the encoded column is numeric and holds the label codes of the cell texts |
| Engineer.EncodeFrame | src/data_science/engineer.py:55-66 | encoding keeps the row count, the column names and every unlisted column |
| Engineer.EncodeFrameColumns | src/data_science/engineer.py:60-65 | each listed column that is present is replaced by its label codes |
| Engineer.OneRowCodesZero | src/data_science/engineer.py:60-65 | on a one-row frame every encoded categorical is 0 |
| Engineer.ZeroFill | src/data_science/engineer.py:92-94 | every listed feature the frame lacks is added as a column of zeros; existing columns are kept in order and unchanged |
| Engineer.FillAbsent | src/data_science/engineer.py:92-94 | the inference loop that adds the zero columns computes ZeroFill |
| Engineer.Engineered | src/data_science/engineer.py:70-71 | cleaning followed by the interactions keeps the frame valid and its row count |
| Engineer.TrainingFrame | src/data_science/engineer.py:84-88 | with the target present, KeyError iff one of the expected features, the audit column (if present) and the target is missing, naming such a column; otherwise exactly those columns in that order; without the target the frame is returned as it is; every kept column holds the encoded frame's values |
| Engineer.Pipeline | src/data_science/engineer.py:68-98 | failures of cleaning or the interactions propagate; inference always gives exactly the 13 expected features in order (encoded or zero-filled); training fails with KeyError iff the target is present and a training column is missing, and otherwise keeps the expected features, then the sensitive column if present, then the target, each with its encoded values and one row per input row |
| Engineer.FeatureEngineer.constructor | src/data_science/engineer.py:10-14 | the configuration is stored and there are no encoders yet |
| Engineer.FeatureEngineer.EncodeCategorical | src/data_science/engineer.py:55-66 | the loop over the configured columns returns EncodeFrame and refits the encoder of each present column |
| Engineer.FeatureEngineer.ProcessPipeline | src/data_science/engineer.py:68-98 | the method computes Pipeline; the encoders are refit exactly when engineering succeeded |
| Strings.Classes | src/data_science/engineer.py:61-64 | `classes_` is strictly sorted and holds exactly the values seen |
| Strings.CodeOrder | src/data_science/engineer.py:64 | in the classes list, one value's position is below another's iff it is smaller as a string, and equal iff the values are equal |
| Frames.SetColumn | src/data_science/engineer.py:26 | an existing column is replaced where it stands, a new one goes last, and other columns are unchanged |
| Frames.Select | src/data_science/engineer.py:95 | `df[names]` is KeyError iff a name is missing; otherwise it holds exactly those columns in that order |
| Frames.ClipUpper | src/data_science/engineer.py:31 | `clip(upper=)` caps every number, keeps numbers below the cap and keeps missing cells missing |
| Frames.ClipLower | src/data_science/engineer.py:45 | `clip(lower=)` gives `max(x, lo)` for every number |
| Frames.Divide | src/data_science/engineer.py:48 | cell-wise division; missing in either operand gives missing |
| Frames.DropIfPresent | src/xai/shap_explainer.py:45-46 | dropping a column removes exactly that name and keeps the rest in order |
| ShapExplainer.FlattenAt | src/xai/shap_explainer.py:80 | row-major flattening puts entry (i, j) of a c-column matrix at i·c + j |
| ShapExplainer.LastAxis | src/xai/shap_explainer.py:73 | `shap_raw[:, :, k]` picks entry k of every innermost vector |
| ShapExplainer.SelectTarget | src/xai/shap_explainer.py:59-77 | a per-class list gives element 1 when it has more than one element, else element 0; a 3-D tensor with first dimension 2 gives slice 1 flattened; another 3-D tensor gives `[:, :, 1]` flattened, or IndexError when its last axis is too short; a 2-D array passes through |
| ShapExplainer.TensorFirstAxis | src/xai/shap_explainer.py:70-71 | for class axis first, entry (j, k) of class 1 lands at j·d2 + k |
| ShapExplainer.TensorLastAxis | src/xai/shap_explainer.py:72-73 | for class axis last, selection succeeds iff the last axis has at least 2 entries, and entry (i, j) of class 1 lands at i·d1 + j |
| ShapExplainer.Align | src/xai/shap_explainer.py:83-89 | the result has the feature count as its length; a longer vector keeps its prefix, a shorter one keeps itself and is padded with zeros |
| ShapExplainer.AlignIdempotent | src/xai/shap_explainer.py:83-89 | aligning twice is aligning once, and an aligned vector is unchanged |
| ShapExplainer.SelectBase | src/xai/shap_explainer.py:94-96 | a scalar base value is kept; a vector gives index 1 when it has more than one element, else index 0; an empty vector raises |
| ShapExplainer.Zip | src/xai/shap_explainer.py:91 | the contributions pair the names with the values, in order |
| ShapExplainer.Normalize | src/xai/shap_explainer.py:50-102 | the `try` block succeeds iff a payload exists and both selections succeed, and then gives the aligned contributions and the base value |
| ShapExplainer.Explain | src/xai/shap_explainer.py:41-112 | the contribution keys are always the instance columns without `person_gender`, on the success path and on the fallback path; the probability is carried through; on failure the base is 0.5, every contribution is 0.01 and an error is recorded |
| ShapExplainer.KindFor | src/xai/shap_explainer.py:27-39 | a name containing "xgboost" or "random_forest" gets a tree explainer, any other a kernel explainer; when building it raises, the generic explainer is the fallback |
| ShapExplainer.Explainer.constructor | src/xai/shap_explainer.py:12-14 | the constructor loads the named model with 13 features |
| ShapExplainer.Explainer.LoadModel | src/xai/shap_explainer.py:16-39 | the name is always set; a found model is installed with 13 features and the explainer kind KindFor gives; with no latest version the model becomes None, the kind is kept and it errors; when the model file cannot be read the old model, feature count and kind are kept and it errors |
| ShapExplainer.Explainer.ExplainInstance | src/xai/shap_explainer.py:41-112 | with a model the result is Explain of the instance at the model's probability; without one it fails with NoModel |
| Validator.SimilarityIncreasing | src/data_science/validator.py:45 | the logistic similarity lies strictly in (0, 1) and grows strictly with the score, for any positive, strictly increasing `exp` |
| Validator.Round3 | src/data_science/validator.py:49 | `round(x, 3)` is a multiple of 0.001 within 0.0005 of x |
| Validator.Round3Monotone | src/data_science/validator.py:49 | rounding keeps order |
| Validator.Round3Unit | src/data_science/validator.py:49 | rounding keeps [0, 1] |
| Validator.Judge | src/data_science/validator.py:45-51 | `is_ood` iff the score is below -0.1; the warning is present iff `is_ood`; the similarity is the rounded logistic |
| Validator.JudgeMonotone | src/data_science/validator.py:45-50 | a higher score never lowers the similarity nor makes the input more out of distribution; the similarity is in [0, 1] |
| Validator.Assess | src/data_science/validator.py:41-51 | KeyError iff a numerical feature is missing from the instance; otherwise the rule applied to the detector's score |
| Validator.MissingColumns | src/data_science/validator.py:60 | the missing list holds exactly the required columns that are absent |
| Validator.ValidateSchema | src/data_science/validator.py:53-65 | true iff every numerical, categorical and target column is present |
| Validator.DataValidator.constructor | src/data_science/validator.py:13-17 | no detector and no baseline at start |
| Validator.DataValidator.CheckOod | src/data_science/validator.py:32-51 | a loaded detector stays loaded; otherwise the saved detector, if any, is set, and the baseline is set only if it could be read; it fails iff the saved baseline is missing at that first load, or a detector is held and a numerical feature is absent; with no detector the result is `is_ood` false and similarity 1.0; otherwise it assesses with the detector |
| Confidence.Score | src/accountability/confidence.py:18 | the score is non-negative, at most 1 for a probability, and 0 iff p = 0.5 |
| Confidence.Estimate | src/accountability/confidence.py:11-34 | the score is `abs(p - 0.5) * 2`; review iff the score is below the low threshold; status is Low below it, Medium below the high threshold, High otherwise; the reason follows the review flag |
| Confidence.EstimateSymmetric | src/accountability/confidence.py:18 | p and 1 - p get the same assessment |
| Confidence.EstimateMonotone | src/accountability/confidence.py:18 | farther from 0.5 never lowers the score and never brings back review |
| Confidence.DefaultTiers | src/accountability/confidence.py:20-27 | with the default thresholds (0.4, 0.8) the status names exactly the score's interval |
| Counterfactuals.Candidate | src/xai/counterfactuals.py:26-45 | a candidate differs from the input only in the searched field: `max(0, a - (a/steps)·i)` for the loan, `income + 0.1·income·i` for the income |
| Counterfactuals.LoanSteps | src/xai/counterfactuals.py:26-29 | the last loan step asks for 0, and the steps never increase |
| Counterfactuals.FirstApproval | src/xai/counterfactuals.py:27-39 | the first step the oracle approves: every earlier step is denied, and there is none iff every step is denied |
| Counterfactuals.Recommend | src/xai/counterfactuals.py:27-55 | a recommendation exists iff some step 1..steps is approved; it names the field and its current value, and its `new_prob` is at most 0.5 |
| Counterfactuals.Tried | src/xai/counterfactuals.py:27-39 | a search asks the oracle at most `steps` times |
| Counterfactuals.Recommendations | src/xai/counterfactuals.py:23-55 | at most two recommendations, the loan one before the income one, each with `new_prob` at most 0.5 |
| Counterfactuals.Search | src/xai/counterfactuals.py:27-39 | the loop with its early `break` returns the first approved step's recommendation and its count of oracle calls |
| Counterfactuals.FindPathToApproval | src/xai/counterfactuals.py:12-61 | a probability at most 0.5 gives "Already approved" after one call; zero steps raise ZeroDivisionError; otherwise the result holds the base probability, both searches' recommendations and `can_be_approved` iff there is one; oracle calls are at most 1 + 2·steps |
| Counterfactuals.RecommendationsComplete | src/xai/counterfactuals.py:57-61 | there is a recommendation iff some step of either search is approved, and each suggestion is the field's value at the first approved step |
| Governance.SnapshotOf | src/accountability/governance.py:24-28 | the entry output holds the prediction, the probability and the confidence score as certainty |
| Governance.LastN | src/accountability/governance.py:36 | `logs[-n:]` is the suffix of length `min(|s|, n)` |
| Governance.AppendFacts | src/accountability/governance.py:34-36 | after an append the log has `min(|old| + 1, 100)` entries, ends with the new one, keeps the survivors in order and evicts only the oldest |
| Governance.Evicted | src/accountability/governance.py:36 | after k appends to a full log, the first k old entries are gone and the rest follow in order |
| Governance.LastNAppend | src/accountability/governance.py:34-36 | trimming to the last n before an append and after it keeps the same window |
| Governance.AppendAllWindow | src/accountability/governance.py:34-36 | from any log of at most 100 entries, a run of appends leaves the last 100 of the old entries followed by the new ones |
| Governance.GovernanceAuditor.constructor | src/accountability/governance.py:10-15 | an existing log is kept; otherwise the log starts empty |
| Governance.GovernanceAuditor.LogDecision | src/accountability/governance.py:17-39 | the entry holds the id, timestamp, version, request and snapshot; on success the log is `(old + [entry])[-100:]`, at most 100 entries and ending with the entry; a read or write failure leaves the log unchanged |
| Sorting.SortByFacts | src/xai/nlp_nugget.py:32 | the sort returns a permutation of its input, ascending in the key and stable on ties |
| NlpNugget.SortedFeatsFacts | src/xai/nlp_nugget.py:32 | `sorted_feats` is a permutation of the contributions in non-increasing magnitude, stable on ties |
| NlpNugget.Signed | src/xai/nlp_nugget.py:33-34 | the filter keeps at most as many names as there are contributions |
| NlpNugget.SignedMembers | src/xai/nlp_nugget.py:33-34 | the filtered names are exactly those of the contributions of that sign |
| NlpNugget.SignedConcat | src/xai/nlp_nugget.py:33-34 | filtering by sign distributes over concatenation |
| NlpNugget.SignedPerm | src/xai/nlp_nugget.py:32-34 | a permutation of the contributions has as many of each sign |
| NlpNugget.SignedCount | src/xai/nlp_nugget.py:32-34 | sorting keeps the number of contributions of each sign |
| NlpNugget.Top | src/xai/nlp_nugget.py:33-34 | two names, or all those of that sign when there are fewer than two; they are the first of that sign in sorted order; zero contributions are in neither list |
| NlpNugget.TopDisjoint | src/xai/nlp_nugget.py:33-34 | no feature is both a top positive and a top negative one |
| NlpNugget.Verdict | src/xai/nlp_nugget.py:36-37 | "Status: REJECTED" iff prob > 0.5, "Status: APPROVED" iff prob ≤ 0.5 |
| NlpNugget.GenerateNarrative | src/xai/nlp_nugget.py:27-70 | IndexError iff the chosen tone indexes a feature that is not there: the technical tone with no contribution, the simple tone with fewer than two positive contributions on a denial or no negative one on an approval, the executive tone with fewer than two of the sign its verdict cites; otherwise the verdict, both top lists, and a narrative that ends with exactly one caveat |
| NlpNugget.TechnicalDominant | src/xai/nlp_nugget.py:41-43 | the technical tone names a contribution of largest magnitude, with its value |
| BiasAuditor.GroupValues | src/accountability/bias_auditor.py:26 | the group values are exactly those present, missing values left out |
| BiasAuditor.Groups | src/accountability/bias_auditor.py:26 | the groupby keys are sorted, unique, and exactly the groups present |
| BiasAuditor.Count | src/accountability/bias_auditor.py:26 | a group has rows iff it occurs |
| BiasAuditor.Approved | src/accountability/bias_auditor.py:21-24 | rows approved (prob ≤ threshold) are at most the group's rows |
| BiasAuditor.Rate | src/accountability/bias_auditor.py:26 | a group's approval rate lies in [0, 1] |
| BiasAuditor.Rates | src/accountability/bias_auditor.py:26 | one rate per group, in group order |
| BiasAuditor.Ratio | src/accountability/bias_auditor.py:37 | the ratio is non-negative, and 0 when the second rate is 0 |
| BiasAuditor.RowPairsIn | src/accountability/bias_auditor.py:35-38 | the inner loop assigns exactly the pairs (g1, g2) with g2 ≠ g1 |
| BiasAuditor.AllPairsIn | src/accountability/bias_auditor.py:34-38 | the nested loops assign exactly the ordered pairs of distinct groups |
| BiasAuditor.ToMapFacts | src/accountability/bias_auditor.py:38 | the dictionary's keys are those assigned, and each value was assigned to its key |
| BiasAuditor.ToMapAgreeing | src/accountability/bias_auditor.py:38 | a key whose assignments all agree holds that value |
| BiasAuditor.SameKey | src/accountability/bias_auditor.py:38 | without collisions, equal keys come from the same ordered pair |
| BiasAuditor.RatioMapFacts | src/accountability/bias_auditor.py:34-38 | every entry is the ratio of some ordered pair of distinct groups; every such pair has an entry; without key collisions each entry is its pair's ratio |
| BiasAuditor.RatioCount | src/accountability/bias_auditor.py:34-38 | without key collisions there are exactly n(n-1) ratios |
| BiasAuditor.ViolationMeaning | src/accountability/bias_auditor.py:37-41 | every ratio is ≥ 0; a violation implies a pair below 0.8, and without collisions the converse holds; a zero-rate group among two or more forces a violation |
| BiasAuditor.FillRow | src/accountability/bias_auditor.py:35-38 | the inner loop adds one row's assignments to the dictionary |
| BiasAuditor.FillRatios | src/accountability/bias_auditor.py:34-38 | the nested loops build RatioMap |
| BiasAuditor.CalculateDisparateImpact | src/accountability/bias_auditor.py:12-48 | groups and rates as above; "insufficient data" iff fewer than 2 groups; otherwise the ratios, a violation iff some ratio is below 0.8, and the warning text that follows it |
| Schema.ApplicantFrame | api/main.py:47-48 | the request's applicant fields become a valid one-row frame, columns in declaration order |
| ApiMain.Clamp | api/main.py:63 | the result is in [0.01, 0.99], a value inside is unchanged, and the side of 0.5 is kept |
| ApiMain.Prediction | api/main.py:104 | "Denied" iff the probability is above 0.5, "Approved" otherwise |
| ApiMain.ShownConfidence | api/main.py:75-80 | a score above 0.98 becomes a value in [0.96, 0.99); others are shown as they are |
| ApiMain.JitterUnreachable | api/main.py:75-80 | the confidence of a clamped probability is at most 0.98, so the jitter never applies |
| ApiMain.SimilarityLevel | api/main.py:84 | High iff > 0.8, Medium iff in (0.5, 0.8], Low iff ≤ 0.5 |
| ApiMain.AgreementLevel | api/main.py:85 | High iff p > 0.8 or p < 0.2, never Low |
| ApiMain.AgreementIsConfidence | api/main.py:85 | high agreement is the same as a confidence score above 0.6 |
| ApiMain.ReviewRequired | api/main.py:108 | review iff confidence asks for it or the input is out of distribution |
| ApiMain.ApplicantColumns | api/main.py:47-48 | the numeric applicant fields are single-number columns of the raw frame |
| ApiMain.CleanEmp | api/main.py:58 | cleaning keeps an applicant's employment length |
| ApiMain.EngineeredOk | api/main.py:58 | an applicant frame always passes cleaning and both ratios |
| ApiMain.ApplicantPipelineOk | api/main.py:58 | inference engineering of an applicant never fails and gives the 13 expected features |
| ApiMain.ContributionKeys | api/main.py:58-59 | an applicant's explanation is keyed by exactly the 13 expected features, whatever shape the payload has |
| ApiMain.Respond | api/main.py:103-117 | the probability is the clamped one, in [0.01, 0.99] and on the raw probability's side of 0.5; "Denied" iff above 0.5; the confidence is the unjittered score, at most 0.98, and the status is that of the clamped probability; review iff low confidence or OOD; narrative, contributions, OOD fields, counterfactuals, fairness warning and version are the ones given |
| ApiMain.DecisionService.constructor | api/main.py:32-37 | the service holds the start-up instances |
| ApiMain.DecisionService.Features | api/main.py:58 | the engineered frame of the applicant; the encoders are refit on it |
| ApiMain.DecisionService.Reload | api/main.py:54-55 | `load_model` runs iff another model is asked for; it fails iff the registry does not find that one; the explainer's new name, model, feature count and kind |
| ApiMain.DecisionService.ExplainApplicant | api/main.py:58-59 | the encoders are refit on the applicant; it fails iff there is no model; otherwise the explanation of the engineered applicant at the model's probability, keyed by the 13 features |
| ApiMain.DecisionService.Analyse | api/main.py:47-59 | it fails iff the OOD check raises (saved baseline missing at the first load, or a numerical feature absent while a detector is held), the reload does not find the chosen model, or the kept model is None; the validator's detector and baseline, the explainer's name, model, feature count and kind, and the engineer's encoders in each case; on success the model is the chosen one, the explanation is that of the engineered applicant at the model's probability, keys are the 13 features, and the OOD result is the validator's assessment or the default |
| ApiMain.DecisionService.Decide | api/main.py:62-117 | it fails iff the narrative indexes a missing feature; otherwise Answers holds, and the narrative, OOD fields, contributions and fairness warning are those given |
| ApiMain.DecisionService.Conclude | api/main.py:62-120 | it fails iff the narrative indexes a missing feature; otherwise Answers and the copied fields hold and the response is logged through the auditor; a failure leaves the log unchanged |
| ApiMain.DecisionService.Predict | api/main.py:41-128 | it fails iff the first half fails or the narrative indexes a missing feature of the model's explanation; the validator, explainer and engineer end as the first half leaves them; on success the exposed probability is the model's clamped; "Denied" iff above 0.5; a denial carries the 10-step counterfactual path on the same model and an approval carries none; the confidence is at most 0.98, its status is that of the clamped probability, and review follows confidence or OOD; narrative, OOD fields and contributions are those of the explanation and the validator's verdict, keyed by the 13 features; the log gets the snapshot entry; an error leaves the log unchanged |

## Left out

- The start-up block (loading the configuration file and building the instances) is not modelled. The service constructor takes instances that are already built. If loading fails there, later requests fail on undefined names.
- The model registry on disk is a parameter. For a name it reports that there is no text file naming the model's latest directory (src/modeling/registry.py:45-56), that the model file in that directory cannot be loaded by `joblib`, or the model found there.
- The saved OOD detector and baseline are parameters: the detector, if its file exists, and the baseline, if its file can be read. A detector file that exists but cannot be read is not modelled.
- The library internals are uninterpreted parameters: SHAP's `shap_values` and `expected_value`, the choice of explainer class, IsolationForest's `decision_function`, `predict_proba`, and `np.exp`.
- ShapExplainer.Explainer.LoadModel: the fallback `shap.Explainer` is taken never to raise once a model has been loaded, because what raises inside SHAP is library behaviour.
- The `Frames` model has no numerical precision. Floats are exact reals, so rounding errors of float arithmetic and the `float()` conversions are not modelled.
- `astype(str)` on a number is a parameter, because Python's float printing is not modelled.
- Validator.Round3 models `round(x, 3)` on exact values with round-half-even. The float representation of the similarity is not modelled.
- `random.random()` is a parameter in [0, 1). Only the jitter's range and its unreachability are stated.
- The narrative's wording, its f-string number formatting and its `" ".join` are not modelled. Sentences are kept as tokens naming what fills them.
- The counterfactuals' `improvement` strings are left out of the recommendation record.
- ApiMain.DecisionService.Decide: the counterfactual search runs the pipeline on every candidate and refits the engineer's encoders each time. That side effect on `encoders` is not modelled, and the search is given the model's probability as a function of the applicant.
- BiasAuditor.CalculateDisparateImpact: each test row carries its own sensitive value and probability, so the KeyError of a frame without the sensitive column and pandas' ValueError when the probabilities do not match the rows in length cannot be represented; the audit runner always passes a frame with that column and one probability per row.
- BiasAuditor.RatioMapFacts: two ordered pairs of groups can collide on the key `g1_vs_g2` (group names containing `_vs_`). The model computes exactly what the loops compute, with the later assignment winning. The exact per-pair value, the n(n-1) count and the converse of the violation test are stated only for names without such a collision.
- The static `fairness_metrics` constants, the unset `brier_score`, the `/health` endpoint, CORS and the HTTPException detail strings are not modelled. The exception types that end a request are collapsed into the `Failure` datatype.
- The uncertainty breakdown that `predict` builds is never put in the response. `ApiMain.Breakdown` computes it, and its buckets are SimilarityLevel and AgreementLevel.
- The counterfactual search's ZeroDivisionError cannot occur from `predict`, which always asks for 10 steps. It is modelled in FindPathToApproval, but `predict` has no such failure.
- The audit log is the in-memory `seq` that the file holds. File durability is not modelled: `seek(0)` then `json.dump` without `truncate()` can leave stale bytes behind a shorter document. `get_version_changelog` is left out because it returns static data.
- Concurrency is not modelled. Concurrent requests race on the shared explainer and on the log's read-modify-write; the service is modelled as sequential.
- `fit_ood_detector`, `run_quality_checks`, `generate_summary_stats` and `get_global_importance` are library statistics over training data and are not modelled.
- The UI, the trainer, the data generator, the loader and the runner scripts are not modelled.
- Logging calls are not modelled.
