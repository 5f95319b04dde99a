/** A judge's evaluation of one project: four criterion scores with their
    weights, feedback, a recommendation, and the totals the pre-save hook
    derives from the scores (backend/models/Evaluation.js). */
module EvaluationModel {
  import opened Common
  import opened Text

  /** One criterion: a score from 0 to 10 and its weight in percent. */
  datatype Criterion = Criterion(score: real, weight: real)

  datatype Scores = Scores(
    innovation: Criterion,
    technical: Criterion,
    implementation: Criterion,
    impact: Criterion)

  /** A criterion as a request body carries it: the weight may be absent. */
  datatype CriterionInput = CriterionInput(score: real, weight: Option<real>)

  datatype ScoresInput = ScoresInput(
    innovation: CriterionInput,
    technical: CriterionInput,
    implementation: CriterionInput,
    impact: CriterionInput)

  const DefaultWeight: real := 25.0

  datatype Recommendation = HighlyRecommend | Recommend | Neutral | NotRecommend

  datatype Feedback = Feedback(strengths: string, improvements: string, generalComments: string)

  const NoFeedback := Feedback("", "", "")

  /** The schema's casting of a criterion: a missing weight becomes 25. */
  function CastCriterion(c: CriterionInput): (r: Criterion)
    ensures r.score == c.score
    ensures c.weight.None? ==> r.weight == DefaultWeight
    ensures c.weight.Some? ==> r.weight == c.weight.value
  {
    Criterion(c.score, c.weight.GetOr(DefaultWeight))
  }

  function CastScores(s: ScoresInput): Scores {
    Scores(CastCriterion(s.innovation), CastCriterion(s.technical),
           CastCriterion(s.implementation), CastCriterion(s.impact))
  }

  /** The schema's `recommendation` enum; any other string fails validation. */
  function ParseRecommendation(s: string): (r: Option<Recommendation>)
    ensures r.Some? <==> s in ["highly_recommend", "recommend", "neutral", "not_recommend"]
  {
    if s == "highly_recommend" then Some(HighlyRecommend)
    else if s == "recommend" then Some(Recommend)
    else if s == "neutral" then Some(Neutral)
    else if s == "not_recommend" then Some(NotRecommend)
    else None
  }

  predicate InRange(c: Criterion) { 0.0 <= c.score <= 10.0 }

  predicate ScoresInRange(s: Scores) {
    InRange(s.innovation) && InRange(s.technical) && InRange(s.implementation) && InRange(s.impact)
  }

  predicate DefaultWeights(s: Scores) {
    s.innovation.weight == DefaultWeight && s.technical.weight == DefaultWeight
    && s.implementation.weight == DefaultWeight && s.impact.weight == DefaultWeight
  }

  predicate FeedbackWithinBounds(f: Feedback) {
    |f.strengths| <= 1000 && |f.improvements| <= 1000 && |f.generalComments| <= 2000
  }

  /** The messages of the schema's validators for one criterion score. */
  function ScoreErrors(c: Criterion): (errs: seq<string>)
    ensures errs == [] <==> InRange(c)
  {
    (if c.score < 0.0 then ["Score cannot be less than 0"] else [])
    + (if c.score > 10.0 then ["Score cannot exceed 10"] else [])
  }

  /** The four score bounds' messages, criterion by criterion. */
  function AllScoreErrors(s: Scores): (errs: seq<string>)
    ensures errs == [] <==> ScoresInRange(s)
  {
    ScoreErrors(s.innovation) + ScoreErrors(s.technical)
    + ScoreErrors(s.implementation) + ScoreErrors(s.impact)
  }

  /** The three feedback lengths' messages. */
  function FeedbackErrors(f: Feedback): (errs: seq<string>)
    ensures errs == [] <==> FeedbackWithinBounds(f)
  {
    (if |f.strengths| > 1000 then ["Strengths cannot exceed 1000 characters"] else [])
    + (if |f.improvements| > 1000 then ["Improvements cannot exceed 1000 characters"] else [])
    + (if |f.generalComments| > 2000 then ["General comments cannot exceed 2000 characters"] else [])
  }

  /** Every message schema validation produces, in schema path order: the four
      score bounds, then the three feedback lengths, then the enum. */
  function ValidationErrors(s: Scores, f: Feedback, rec: string): (errs: seq<string>)
    ensures errs == [] <==> ScoresInRange(s) && FeedbackWithinBounds(f) && ParseRecommendation(rec).Some?
  {
    AllScoreErrors(s) + FeedbackErrors(f)
    + (if ParseRecommendation(rec).None?
       then ["`" + rec + "` is not a valid enum value for path `recommendation`."] else [])
  }

  /** The raw total (out of 40). */
  function RawTotal(s: Scores): real {
    s.innovation.score + s.technical.score + s.implementation.score + s.impact.score
  }

  /** One criterion's contribution to the weighted score. */
  function Part(c: Criterion): real {
    (c.score / 10.0) * c.weight
  }

  /** The weighted score (out of 100 when the weights sum to 100). */
  function Weighted(s: Scores): real {
    Part(s.innovation) + Part(s.technical) + Part(s.implementation) + Part(s.impact)
  }

  /** JavaScript truthiness of the four scores: 0 counts as not provided. */
  predicate AllScoresTruthy(s: Scores) {
    s.innovation.score != 0.0 && s.technical.score != 0.0
    && s.implementation.score != 0.0 && s.impact.score != 0.0
  }

  class Evaluation {
    const id: Id
    var judge: Id
    var project: Id
    var scores: Scores
    var feedback: Feedback
    var recommendation: Recommendation
    var totalScore: real
    var weightedScore: real
    var isComplete: bool
    var submittedAt: Option<Time>

    /** A new document: the schema defaults before the first save. */
    constructor (id: Id, project: Id, judge: Id, scores: Scores, feedback: Feedback, recommendation: Recommendation)
      ensures this.id == id && this.project == project && this.judge == judge
      ensures this.scores == scores && this.feedback == feedback && this.recommendation == recommendation
      ensures totalScore == 0.0 && weightedScore == 0.0 && !isComplete && submittedAt.None?
    {
      this.id := id;
      this.project := project;
      this.judge := judge;
      this.scores := scores;
      this.feedback := feedback;
      this.recommendation := recommendation;
      totalScore := 0.0;
      weightedScore := 0.0;
      isComplete := false;
      submittedAt := None;
    }

    /** The stored totals agree with the scores, and a fully scored evaluation
        is marked complete with a submission time. */
    ghost predicate Derived()
      reads this
    {
      totalScore == RawTotal(scores) && weightedScore == Weighted(scores)
      && (AllScoresTruthy(scores) ==> isComplete && submittedAt.Some?)
    }

    /** The pre-save hook. `now` is the instant of the save. */
    method PreSave(now: Time)
      modifies this`totalScore, this`weightedScore, this`isComplete, this`submittedAt
      ensures totalScore == RawTotal(scores) && weightedScore == Weighted(scores)
      ensures isComplete == (old(isComplete) || AllScoresTruthy(scores))
      ensures submittedAt == if AllScoresTruthy(scores) && old(submittedAt).None? then Some(now) else old(submittedAt)
      ensures Derived()
    {
      totalScore := scores.innovation.score + scores.technical.score
                    + scores.implementation.score + scores.impact.score;
      weightedScore := (scores.innovation.score / 10.0) * scores.innovation.weight
                       + (scores.technical.score / 10.0) * scores.technical.weight
                       + (scores.implementation.score / 10.0) * scores.implementation.weight
                       + (scores.impact.score / 10.0) * scores.impact.weight;
      if scores.innovation.score != 0.0 && scores.technical.score != 0.0
         && scores.implementation.score != 0.0 && scores.impact.score != 0.0
      {
        isComplete := true;
        if submittedAt.None? {
          submittedAt := Some(now);
        }
      }
    }
  }

  // ---------------------------------------------------------------------------
  // Facts about the derivation.

  /** With every score in [0,10] the raw total lies in [0,40]. */
  lemma TotalBounds(s: Scores)
    requires ScoresInRange(s)
    ensures 0.0 <= RawTotal(s) <= 40.0
  {
  }

  lemma PartBounds(c: Criterion)
    requires InRange(c) && c.weight >= 0.0
    ensures 0.0 <= Part(c) <= c.weight
  {
    var f := c.score / 10.0;
    assert 0.0 <= f <= 1.0;
    assert Part(c) == f * c.weight;
    assert 0.0 <= f * c.weight;
    assert 0.0 <= (1.0 - f) * c.weight;
    assert f * c.weight + (1.0 - f) * c.weight == c.weight;
  }

  /** With scores in range and non-negative weights summing to 100, the weighted
      score lies in [0,100]. */
  lemma WeightedBounds(s: Scores)
    requires ScoresInRange(s)
    requires s.innovation.weight >= 0.0 && s.technical.weight >= 0.0
    requires s.implementation.weight >= 0.0 && s.impact.weight >= 0.0
    requires s.innovation.weight + s.technical.weight + s.implementation.weight + s.impact.weight == 100.0
    ensures 0.0 <= Weighted(s) <= 100.0
  {
    PartBounds(s.innovation);
    PartBounds(s.technical);
    PartBounds(s.implementation);
    PartBounds(s.impact);
  }

  /** With the default weights the weighted score is 2.5 times the raw total,
      and so lies in [0,100] for scores in range. */
  lemma DefaultWeightedScore(s: Scores)
    requires DefaultWeights(s)
    ensures Weighted(s) == 2.5 * RawTotal(s)
    ensures ScoresInRange(s) ==> 0.0 <= Weighted(s) <= 100.0
  {
  }

  /** Weights left out of a request body are all 25. */
  lemma CastDefaults(s: ScoresInput)
    requires s.innovation.weight.None? && s.technical.weight.None?
    requires s.implementation.weight.None? && s.impact.weight.None?
    ensures DefaultWeights(CastScores(s))
  {
  }

  /** The scores 8, 7, 9 and 6 with the default weights give 30 raw and 75
      weighted; 6, 6, 6, 6 gives 60 weighted; 10 on every criterion gives 100. */
  lemma ScoreExamples()
    ensures RawTotal(Scores(Criterion(8.0, 25.0), Criterion(7.0, 25.0), Criterion(9.0, 25.0), Criterion(6.0, 25.0))) == 30.0
    ensures Weighted(Scores(Criterion(8.0, 25.0), Criterion(7.0, 25.0), Criterion(9.0, 25.0), Criterion(6.0, 25.0))) == 75.0
    ensures Weighted(Scores(Criterion(6.0, 25.0), Criterion(6.0, 25.0), Criterion(6.0, 25.0), Criterion(6.0, 25.0))) == 60.0
    ensures Weighted(Scores(Criterion(10.0, 25.0), Criterion(10.0, 25.0), Criterion(10.0, 25.0), Criterion(10.0, 25.0))) == 100.0
  {
  }

  /** Saving twice with unchanged scores derives the same totals, and keeps the
      first completion time. */
  method PreSaveTwice(e: Evaluation, t1: Time, t2: Time)
    modifies e`totalScore, e`weightedScore, e`isComplete, e`submittedAt
    ensures e.totalScore == RawTotal(e.scores) && e.weightedScore == Weighted(e.scores)
    ensures AllScoresTruthy(e.scores) && old(e.submittedAt).None? ==> e.submittedAt == Some(t1)
    ensures old(e.submittedAt).Some? ==> e.submittedAt == old(e.submittedAt)
  {
    e.PreSave(t1);
    var total, weighted := e.totalScore, e.weightedScore;
    e.PreSave(t2);
    assert e.totalScore == total && e.weightedScore == weighted;
  }
}
