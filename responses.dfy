/** The response record of the decision operation (`DecisionResponse`).
    The static fairness fields and the unset `brier_score` are not kept;
    the narrative is kept as its sentences. */
module Responses {
  import opened Wrappers
  import ShapExplainer
  import NlpNugget
  import Counterfactuals

  datatype DecisionResponse = DecisionResponse(
    prediction: string,
    probability: real,
    confidenceScore: real,
    confidenceStatus: string,
    reviewRequired: bool,
    narrative: seq<NlpNugget.Sentence>,
    contributions: ShapExplainer.Contributions,
    fairnessWarning: string,
    isOod: bool,
    similarityScore: real,
    counterfactuals: Option<Counterfactuals.Outcome>,
    modelVersion: string)
}
