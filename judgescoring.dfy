/** The judge's scoring form (frontend/src/components/judge/ProjectDetails.jsx):
    each edit clamps the typed score into [0, 10], and the form is sent only
    when every score is positive. The typed text arrives parsed: `None`
    stands for text `parseInt` reads as `NaN`. */
module JudgeScoring {
  import opened Common
  import E = EvaluationModel

  /** The four criteria the form scores. */
  const Criteria: set<string> := {"innovation", "technical", "implementation", "impact"}

  /** The form's initial scores: every criterion at 0. */
  const Initial: map<string, int> := map c | c in Criteria :: 0

  /** `Math.min(10, Math.max(0, parseInt(value) || 0))`. */
  function Clamp(parsed: Option<int>): (s: int)
    ensures 0 <= s <= 10
    ensures parsed.None? ==> s == 0
    ensures parsed.Some? && 0 <= parsed.value <= 10 ==> s == parsed.value
    ensures parsed.Some? && parsed.value < 0 ==> s == 0
    ensures parsed.Some? && parsed.value > 10 ==> s == 10
  {
    var v := if parsed.None? || parsed.value == 0 then 0 else parsed.value;
    if v < 0 then 0 else if v > 10 then 10 else v
  }

  /** `handleScoreChange`: only the edited criterion's entry is replaced. */
  function ScoreChange(scores: map<string, int>, criterion: string, parsed: Option<int>): (r: map<string, int>)
    ensures r.Keys == scores.Keys + {criterion}
    ensures r[criterion] == Clamp(parsed)
    ensures forall k :: k in scores && k != criterion ==> r[k] == scores[k]
  {
    scores[criterion := Clamp(parsed)]
  }

  /** `Object.values(scores).every(s => s.score > 0)`, the gate of
      `handleSubmitEvaluation`. */
  predicate AllScored(scores: map<string, int>) {
    forall k :: k in scores ==> scores[k] > 0
  }

  datatype Edit = Edit(criterion: string, parsed: Option<int>)

  /** The scores after a series of edits. */
  function Edited(scores: map<string, int>, edits: seq<Edit>): map<string, int>
    decreases |edits|
  {
    if edits == [] then scores
    else Edited(ScoreChange(scores, edits[0].criterion, edits[0].parsed), edits[1..])
  }

  /** A criterion no edit touches keeps its score, so a form in which some
      criterion was never edited cannot be sent. */
  lemma {:induction false} UneditedBlocks(scores: map<string, int>, edits: seq<Edit>, c: string)
    requires c in scores && scores[c] == 0
    requires forall i :: 0 <= i < |edits| ==> edits[i].criterion != c
    ensures c in Edited(scores, edits) && Edited(scores, edits)[c] == 0
    ensures !AllScored(Edited(scores, edits))
    decreases |edits|
  {
    if edits != [] {
      UneditedBlocks(ScoreChange(scores, edits[0].criterion, edits[0].parsed), edits[1..], c);
    }
  }

  /** The initial form cannot be sent until every criterion was edited. */
  lemma InitialNeedsEveryCriterion(edits: seq<Edit>, c: string)
    requires c in Initial
    requires forall i :: 0 <= i < |edits| ==> edits[i].criterion != c
    ensures !AllScored(Edited(Initial, edits))
  {
    UneditedBlocks(Initial, edits, c);
  }

  /** A score of 0 is within the range the evaluation schema accepts, yet
      this form refuses to send it. */
  lemma ZeroRefusedHereAcceptedThere(scores: map<string, int>, c: string)
    requires c in scores && scores[c] == 0
    ensures !AllScored(scores)
    ensures E.InRange(E.Criterion(scores[c] as real, E.DefaultWeight))
  {
  }
}
