/** src/xai/counterfactuals.py: for a denied applicant, two greedy line
    searches for the smallest change the model would approve: lowering the
    loan amount in `steps` equal steps down to zero, and raising the income
    by 10 % per step. `prob` stands for the model's denial probability of
    the engineered applicant (`predict_proba(process_pipeline(...))[:, 1][0]`). */
module Counterfactuals {
  import opened Wrappers
  import opened Schema

  const ApprovalBoundary: real := 0.5

  datatype Strategy = ReduceLoan | RaiseIncome

  function Label(s: Strategy): string
  {
    match s
    case ReduceLoan => "Loan Amount"
    case RaiseIncome => "Annual Income"
  }

  /** The searched field of an applicant. */
  function Field(s: Strategy, a: Applicant): real
  {
    match s
    case ReduceLoan => a.loanAmnt
    case RaiseIncome => a.personIncome
  }

  function Max(a: real, b: real): real { if a >= b then a else b }

  /** The applicant tried at step `i`: a copy of `raw` with only the
      searched field changed. */
  function Candidate(s: Strategy, raw: Applicant, steps: int, i: int): (c: Applicant)
    requires steps != 0
    ensures s == ReduceLoan ==>
              c == raw.(loanAmnt := Max(0.0, raw.loanAmnt - (raw.loanAmnt / steps as real) * i as real))
    ensures s == RaiseIncome ==>
              c == raw.(personIncome := raw.personIncome + (raw.personIncome * 0.1) * i as real)
  {
    match s
    case ReduceLoan =>
      raw.(loanAmnt := Max(0.0, raw.loanAmnt - (raw.loanAmnt / steps as real) * i as real))
    case RaiseIncome =>
      raw.(personIncome := raw.personIncome + (raw.personIncome * 0.1) * i as real)
  }

  /** The last loan step asks for nothing, and for a non-negative amount
      each step asks for no more than the one before. */
  lemma LoanSteps(raw: Applicant, steps: int, i: int)
    requires steps > 0 && raw.loanAmnt >= 0.0
    ensures Candidate(ReduceLoan, raw, steps, steps).loanAmnt == 0.0
    ensures Candidate(ReduceLoan, raw, steps, i + 1).loanAmnt <= Candidate(ReduceLoan, raw, steps, i).loanAmnt
  {
    var st := raw.loanAmnt / steps as real;
    assert st * steps as real == raw.loanAmnt;
    assert st >= 0.0;
    assert st * (i + 1) as real == st * i as real + st;
  }

  /** The first step in `from..steps` whose candidate the model approves. */
  function FirstApproval(s: Strategy, raw: Applicant, steps: int, prob: Applicant -> real, from: int)
    : (r: Option<int>)
    requires steps != 0
    decreases steps - from + 1
    ensures r.Some? ==> from <= r.value <= steps && prob(Candidate(s, raw, steps, r.value)) <= ApprovalBoundary
    ensures r.Some? ==> forall k :: from <= k < r.value ==> prob(Candidate(s, raw, steps, k)) > ApprovalBoundary
    ensures r.None? <==> forall k :: from <= k <= steps ==> prob(Candidate(s, raw, steps, k)) > ApprovalBoundary
  {
    if from > steps then None
    else if prob(Candidate(s, raw, steps, from)) <= ApprovalBoundary then Some(from)
    else FirstApproval(s, raw, steps, prob, from + 1)
  }

  datatype Recommendation = Recommendation(feature: string, current: real, suggested: real, newProb: real)

  /** What one search recommends: the first approved step, if any. */
  function Recommend(s: Strategy, raw: Applicant, steps: int, prob: Applicant -> real)
    : (r: Option<Recommendation>)
    requires steps != 0
    ensures r.Some? ==> r.value.feature == Label(s) && r.value.current == Field(s, raw)
    ensures r.Some? ==> r.value.newProb <= ApprovalBoundary
    ensures r.Some? <==> exists k :: 1 <= k <= steps && prob(Candidate(s, raw, steps, k)) <= ApprovalBoundary
  {
    match FirstApproval(s, raw, steps, prob, 1)
    case None => None
    case Some(i) =>
      var c := Candidate(s, raw, steps, i);
      Some(Recommendation(Label(s), Field(s, raw), Field(s, c), prob(c)))
  }

  /** How many candidates a search asks the model about. */
  function Tried(s: Strategy, raw: Applicant, steps: int, prob: Applicant -> real): (n: nat)
    requires steps != 0
    ensures n <= if steps > 0 then steps else 0
  {
    match FirstApproval(s, raw, steps, prob, 1)
    case None => if steps > 0 then steps else 0
    case Some(i) => i
  }

  function AsSeq<T>(o: Option<T>): seq<T>
  {
    if o.Some? then [o.value] else []
  }

  /** The loan recommendation, if any, then the income one. */
  function Recommendations(raw: Applicant, steps: int, prob: Applicant -> real): (r: seq<Recommendation>)
    requires steps != 0
    ensures |r| <= 2
    ensures forall k :: 0 <= k < |r| ==> r[k].newProb <= ApprovalBoundary
    ensures |r| == 2 ==> r[0].feature == Label(ReduceLoan) && r[1].feature == Label(RaiseIncome)
  {
    AsSeq(Recommend(ReduceLoan, raw, steps, prob)) + AsSeq(Recommend(RaiseIncome, raw, steps, prob))
  }

  datatype Outcome =
    | AlreadyApproved
    | Path(currentProb: real, recommendations: seq<Recommendation>, canBeApproved: bool)

  /** Raised by `raw_input['loan_amnt'] / steps` when `steps` is 0. */
  datatype SearchError = ZeroDivision

  /** One search loop: candidates 1, 2, ... until the model approves one. */
  method Search(s: Strategy, raw: Applicant, steps: int, prob: Applicant -> real)
    returns (found: Option<Recommendation>, calls: nat)
    requires steps != 0
    ensures found == Recommend(s, raw, steps, prob)
    ensures calls == Tried(s, raw, steps, prob)
  {
    var i := 1;
    calls := 0;
    while i <= steps
      invariant 1 <= i && (i <= steps + 1 || i == 1)
      invariant calls == i - 1
      invariant FirstApproval(s, raw, steps, prob, 1) == FirstApproval(s, raw, steps, prob, i)
      decreases steps - i
    {
      var c := Candidate(s, raw, steps, i);
      var p := prob(c);
      calls := calls + 1;
      if p <= ApprovalBoundary {
        return Some(Recommendation(Label(s), Field(s, raw), Field(s, c), p)), calls;
      }
      i := i + 1;
    }
    found := None;
  }

  /** `find_path_to_approval`. `calls` counts the model queries. */
  method FindPathToApproval(raw: Applicant, steps: int, prob: Applicant -> real)
    returns (r: Result<Outcome, SearchError>, calls: nat)
    ensures prob(raw) <= ApprovalBoundary ==> r == Ok(AlreadyApproved) && calls == 1
    ensures prob(raw) > ApprovalBoundary && steps == 0 ==> r == Err(ZeroDivision)
    ensures prob(raw) > ApprovalBoundary && steps != 0 ==>
              r == Ok(Path(prob(raw), Recommendations(raw, steps, prob),
                           |Recommendations(raw, steps, prob)| > 0))
    ensures steps != 0 ==>
              calls == 1 + (if prob(raw) <= ApprovalBoundary then 0
                            else Tried(ReduceLoan, raw, steps, prob) + Tried(RaiseIncome, raw, steps, prob))
    ensures calls <= 1 + 2 * (if steps > 0 then steps else 0)
  {
    var baseProb := prob(raw);
    calls := 1;
    if baseProb <= ApprovalBoundary {
      return Ok(AlreadyApproved), calls;
    }
    if steps == 0 {
      return Err(ZeroDivision), calls;
    }
    var loan, loanCalls := Search(ReduceLoan, raw, steps, prob);
    var income, incomeCalls := Search(RaiseIncome, raw, steps, prob);
    calls := calls + loanCalls + incomeCalls;
    var recommendations := AsSeq(loan) + AsSeq(income);
    r := Ok(Path(baseProb, recommendations, |recommendations| > 0));
  }

  /** An approval is recommended as soon as either search has a step the
      model approves, and each recommendation's suggestion is the value of
      the searched field at the first such step. */
  lemma RecommendationsComplete(raw: Applicant, steps: int, prob: Applicant -> real)
    requires steps != 0
    ensures |Recommendations(raw, steps, prob)| > 0 <==>
              exists s: Strategy, k :: 1 <= k <= steps && prob(Candidate(s, raw, steps, k)) <= ApprovalBoundary
    ensures forall s: Strategy :: Recommend(s, raw, steps, prob).Some? ==>
              var i := FirstApproval(s, raw, steps, prob, 1).value;
              Recommend(s, raw, steps, prob).value.suggested == Field(s, Candidate(s, raw, steps, i))
  {
    var r := Recommendations(raw, steps, prob);
    if exists s: Strategy, k :: 1 <= k <= steps && prob(Candidate(s, raw, steps, k)) <= ApprovalBoundary {
      var s: Strategy, k :| 1 <= k <= steps && prob(Candidate(s, raw, steps, k)) <= ApprovalBoundary;
      assert Recommend(s, raw, steps, prob).Some?;
    }
  }
}
