/** src/xai/nlp_nugget.py: the ranking behind the templated narrative.
    Contributions are sorted by magnitude, largest first and stable on
    ties; the first two positive and the first two negative features are
    picked; the verdict follows the probability. Sentences are kept as
    tokens naming what fills them, not as worded text. */
module NlpNugget {
  import opened Wrappers
  import Sorting

  type Contribution = (string, real)

  function Abs(x: real): real { if x < 0.0 then -x else x }

  /** The sort key: `sorted(..., key=abs(value), reverse=True)` is the
      stable ascending sort under the negated magnitude. */
  function NegMagnitude(c: Contribution): real { -Abs(c.1) }

  function SortedFeats(cs: seq<Contribution>): seq<Contribution>
  {
    Sorting.SortBy(cs, NegMagnitude)
  }

  /** `sorted_feats` is a permutation of the contributions, ordered by
      magnitude from largest to smallest, and contributions of equal
      magnitude keep their input order. */
  lemma SortedFeatsFacts(cs: seq<Contribution>)
    ensures multiset(SortedFeats(cs)) == multiset(cs)
    ensures |SortedFeats(cs)| == |cs|
    ensures forall i, j :: 0 <= i < j < |cs| ==> Abs(SortedFeats(cs)[i].1) >= Abs(SortedFeats(cs)[j].1)
    ensures forall k :: Sorting.WithKey(SortedFeats(cs), NegMagnitude, k) == Sorting.WithKey(cs, NegMagnitude, k)
  {
    Sorting.SortByFacts(cs, NegMagnitude);
    var s := SortedFeats(cs);
    forall i, j | 0 <= i < j < |cs| ensures Abs(s[i].1) >= Abs(s[j].1) {
      assert NegMagnitude(s[i]) <= NegMagnitude(s[j]);
    }
  }

  /** The names of the contributions with a positive (`positive`) or a
      negative value, in order. */
  function Signed(cs: seq<Contribution>, positive: bool): (r: seq<string>)
    ensures |r| <= |cs|
  {
    if cs == [] then []
    else
      var rest := Signed(cs[1..], positive);
      if (if positive then cs[0].1 > 0.0 else cs[0].1 < 0.0) then [cs[0].0] + rest else rest
  }

  /** A name is among the signed ones exactly when some contribution of
      that sign carries it. */
  lemma {:induction false} SignedMembers(cs: seq<Contribution>, positive: bool)
    ensures forall n :: n in Signed(cs, positive) <==>
              exists c :: c in cs && c.0 == n && (if positive then c.1 > 0.0 else c.1 < 0.0)
  {
    if cs != [] {
      SignedMembers(cs[1..], positive);
      assert cs == [cs[0]] + cs[1..];
    }
  }

  /** Filtering by sign distributes over concatenation. */
  lemma {:induction false} SignedConcat(a: seq<Contribution>, b: seq<Contribution>, positive: bool)
    ensures Signed(a + b, positive) == Signed(a, positive) + Signed(b, positive)
  {
    if a == [] {
      assert a + b == b;
    } else {
      var ab := a + b;
      assert ab[0] == a[0] && ab[1..] == a[1..] + b;
      SignedConcat(a[1..], b, positive);
      var head := if (if positive then a[0].1 > 0.0 else a[0].1 < 0.0) then [a[0].0] else [];
      assert Signed(a, positive) == head + Signed(a[1..], positive);
      assert Signed(ab, positive) == head + Signed(a[1..] + b, positive);
    }
  }

  /** How many contributions have a sign depends on the multiset of
      contributions only, not on their order. */
  lemma {:induction false} SignedPerm(s: seq<Contribution>, t: seq<Contribution>, positive: bool)
    requires multiset(s) == multiset(t)
    ensures |Signed(s, positive)| == |Signed(t, positive)|
    decreases |s|
  {
    if s == [] {
      assert |t| == |multiset(t)| == 0;
    } else {
      var x := s[0];
      assert x in multiset(t);
      var k :| 0 <= k < |t| && t[k] == x;
      var t' := t[..k] + t[k+1..];
      assert t == t[..k] + ([x] + t[k+1..]);
      assert s == [x] + s[1..];
      assert multiset(s) == multiset{x} + multiset(s[1..]);
      assert multiset(t) == multiset(t[..k]) + multiset{x} + multiset(t[k+1..]);
      assert multiset(t') == multiset(t[..k]) + multiset(t[k+1..]);
      assert multiset(s[1..]) == multiset(s) - multiset{x};
      assert multiset(t') == multiset(t) - multiset{x};
      SignedPerm(s[1..], t', positive);
      SignedConcat([x], s[1..], positive);
      SignedConcat(t[..k], [x] + t[k+1..], positive);
      SignedConcat([x], t[k+1..], positive);
      SignedConcat(t[..k], t[k+1..], positive);
    }
  }

  /** The sorted contributions have as many of each sign as the input. */
  lemma SignedCount(cs: seq<Contribution>, positive: bool)
    ensures |Signed(SortedFeats(cs), positive)| == |Signed(cs, positive)|
  {
    SortedFeatsFacts(cs);
    SignedPerm(SortedFeats(cs), cs, positive);
  }

  function Take2(s: seq<string>): (r: seq<string>)
    ensures |r| == if |s| < 2 then |s| else 2
    ensures r <= s
  {
    if |s| <= 2 then s else s[..2]
  }

  /** `top_positive` / `top_negative`: the first two names of that sign in
      magnitude order, or all of them when there are fewer than two; each
      is that of a contribution of that sign, and a zero contribution is
      in neither. */
  function Top(cs: seq<Contribution>, positive: bool): (r: seq<string>)
    ensures |r| == if |Signed(cs, positive)| < 2 then |Signed(cs, positive)| else 2
    ensures r <= Signed(SortedFeats(cs), positive)
    ensures forall n :: n in r ==> exists c :: c in cs && c.0 == n && (if positive then c.1 > 0.0 else c.1 < 0.0)
  {
    SortedFeatsFacts(cs);
    SignedCount(cs, positive);
    var s := SortedFeats(cs);
    SignedMembers(s, positive);
    var t := Signed(s, positive);
    var r := Take2(t);
    forall n | n in r
      ensures exists c :: c in cs && c.0 == n && (if positive then c.1 > 0.0 else c.1 < 0.0)
    {
      assert r == t[..|r|];
      assert n in t;
      var c :| c in s && c.0 == n && (if positive then c.1 > 0.0 else c.1 < 0.0);
      assert c in multiset(s);
    }
    r
  }

  /** No feature is among both the top positive and the top negative ones
      when the names are those of a dictionary (distinct). */
  lemma TopDisjoint(cs: seq<Contribution>)
    requires forall i, j :: 0 <= i < j < |cs| ==> cs[i].0 != cs[j].0
    ensures forall n :: n in Top(cs, true) ==> n !in Top(cs, false)
  {
    forall n | n in Top(cs, true) ensures n !in Top(cs, false) {
      var c :| c in cs && c.0 == n && c.1 > 0.0;
      var i :| 0 <= i < |cs| && cs[i] == c;
      forall d | d in cs && d.0 == n ensures d.1 > 0.0 {
        var j :| 0 <= j < |cs| && cs[j] == d;
        assert !(i < j) && !(j < i);
      }
    }
  }

  function IsDenied(prob: real): bool { prob > 0.5 }

  function DecisionWord(prob: real): string { if IsDenied(prob) then "REJECTED" else "APPROVED" }

  /** `verdict`. */
  function Verdict(prob: real): (v: string)
    ensures v == "Status: REJECTED" <==> prob > 0.5
    ensures v == "Status: APPROVED" <==> prob <= 0.5
  {
    var rejected, approved := "Status: REJECTED", "Status: APPROVED";
    assert rejected[8] != approved[8];
    if IsDenied(prob) then rejected else approved
  }

  /** The friendly names of `FEATURE_FRIENDLY_NAMES`. */
  const FriendlyNames: map<string, string> := map[
    "person_age" := "age",
    "person_income" := "annual income",
    "person_emp_length" := "length of employment",
    "loan_amnt" := "requested loan amount",
    "loan_int_rate" := "interest rate",
    "loan_percent_income" := "ratio of loan to income",
    "cb_person_cred_hist_length" := "credit history length",
    "loan_to_income" := "debt-to-income ratio",
    "stability_index" := "employment stability",
    "person_home_ownership" := "home ownership status",
    "loan_grade" := "credit grade",
    "cb_person_default_on_file" := "prior default history"]

  /** `FEATURE_FRIENDLY_NAMES.get(f, f)`. */
  function Friendly(f: string): string
  {
    if f in FriendlyNames then FriendlyNames[f] else f
  }

  datatype Tone = Technical | Simple | Executive

  /** Any tone other than "technical" and "simple" reads as executive. */
  function ToneOf(tone: string): Tone
  {
    if tone == "technical" then Technical else if tone == "simple" then Simple else Executive
  }

  /** The sentences of the narrative, by what fills their templates. */
  datatype Sentence =
    | ModelOutput(decision: string, dominant: string, dominantValue: real)
    | VarianceIn(features: seq<string>)
    | SimpleRefusal
    | SimpleReasons(first: string, second: string)
    | SimpleApproval
    | SimpleStrength(strength: string)
    | HigherRisk(first: string, second: string)
    | Favorable(first: string, second: string)
    | Caveat

  /** Raised by indexing `sorted_feats`, `top_positive` or `top_negative`
      past their ends. */
  datatype NarrativeError = IndexError

  datatype Narrative = Narrative(
    verdict: string,
    sentences: seq<Sentence>,
    topPositive: seq<string>,
    topNegative: seq<string>)

  /** Whether the chosen template finds every feature it indexes: the
      technical one needs a contribution, the simple one two positive ones
      on a denial and a negative one on an approval, the executive one two
      of the sign the verdict cites. */
  predicate NarrativeDefined(tone: string, prob: real, cs: seq<Contribution>)
  {
    match ToneOf(tone)
    case Technical => |cs| >= 1
    case Simple => if IsDenied(prob) then |Signed(cs, true)| >= 2 else |Signed(cs, false)| >= 1
    case Executive => if IsDenied(prob) then |Signed(cs, true)| >= 2 else |Signed(cs, false)| >= 2
  }

  function Body(tone: Tone, prob: real, s: seq<Contribution>, pos: seq<string>, neg: seq<string>)
    : seq<Sentence>
    requires tone == Technical ==> |s| >= 1
    requires tone == Simple ==> if IsDenied(prob) then |pos| >= 2 else |neg| >= 1
    requires tone == Executive ==> if IsDenied(prob) then |pos| >= 2 else |neg| >= 2
  {
    match tone
    case Technical =>
      [ModelOutput(DecisionWord(prob), s[0].0, s[0].1),
       VarianceIn(seq(if |s| < 3 then |s| else 3, i requires 0 <= i < |s| && i < 3 => s[i].0))]
    case Simple =>
      if IsDenied(prob) then [SimpleRefusal, SimpleReasons(Friendly(pos[0]), Friendly(pos[1]))]
      else [SimpleApproval, SimpleStrength(Friendly(neg[0]))]
    case Executive =>
      if IsDenied(prob) then [HigherRisk(Friendly(pos[0]), Friendly(pos[1]))]
      else [Favorable(Friendly(neg[0]), Friendly(neg[1]))]
  }

  /** `generate_narrative`: IndexError exactly when the template indexes a
      feature that is not there; otherwise the verdict, the top features
      and a narrative that ends with the caveat. */
  function GenerateNarrative(cs: seq<Contribution>, prob: real, tone: string): (r: Result<Narrative, NarrativeError>)
    ensures r.Err? <==> !NarrativeDefined(tone, prob, cs)
    ensures r.Ok? ==> r.value.verdict == Verdict(prob)
    ensures r.Ok? ==> r.value.topPositive == Top(cs, true) && r.value.topNegative == Top(cs, false)
    ensures r.Ok? ==> |r.value.sentences| >= 2 && r.value.sentences[|r.value.sentences| - 1] == Caveat
    ensures r.Ok? ==> forall i :: 0 <= i < |r.value.sentences| - 1 ==> r.value.sentences[i] != Caveat
  {
    SortedFeatsFacts(cs);
    var s := SortedFeats(cs);
    var pos, neg := Top(cs, true), Top(cs, false);
    if !NarrativeDefined(tone, prob, cs) then Err(IndexError)
    else
      var body := Body(ToneOf(tone), prob, s, pos, neg);
      Ok(Narrative(Verdict(prob), body + [Caveat], pos, neg))
  }

  /** On the technical tone the dominant feature named is one of largest
      magnitude. */
  lemma TechnicalDominant(cs: seq<Contribution>, prob: real)
    requires |cs| >= 1
    ensures GenerateNarrative(cs, prob, "technical").Ok?
    ensures var first := GenerateNarrative(cs, prob, "technical").value.sentences[0];
      first.ModelOutput? && first.decision == DecisionWord(prob) &&
      (exists c :: c in cs && c.0 == first.dominant && c.1 == first.dominantValue) &&
      forall c :: c in cs ==> Abs(c.1) <= Abs(first.dominantValue)
  {
    SortedFeatsFacts(cs);
    var s := SortedFeats(cs);
    assert s[0] in multiset(cs);
    forall c | c in cs ensures Abs(c.1) <= Abs(s[0].1) {
      assert c in multiset(s);
      var k :| 0 <= k < |s| && s[k] == c;
      if k > 0 {
        assert Abs(s[0].1) >= Abs(s[k].1);
      }
    }
  }
}
