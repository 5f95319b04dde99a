/** The judge's handlers (backend/controllers/judgeController.js): listing
    projects to evaluate, submitting and editing an evaluation with the
    project aggregates that follow, and a judge's statistics. */
module JudgeController {
  import opened Common
  import opened Database
  import P = ProjectModel
  import E = EvaluationModel
  import ErrorHandler

  // ---------------------------------------------------------------------------
  // Listing the projects to evaluate.

  /** The `evaluated` query parameter: 'true' keeps the projects the judge
      has evaluated, 'false' those they have not, and anything else (or no
      parameter) keeps every project. */
  datatype Listing = Everything | EvaluatedOnly | UnevaluatedOnly

  function ParseListing(evaluated: Option<string>): (l: Listing)
    ensures l == EvaluatedOnly <==> evaluated == Some("true")
    ensures l == UnevaluatedOnly <==> evaluated == Some("false")
  {
    if evaluated == Some("true") then EvaluatedOnly
    else if evaluated == Some("false") then UnevaluatedOnly
    else Everything
  }

  /** The ids of `ids` whose membership in `marked` is `want`, in list order. */
  function Pick(ids: seq<Id>, marked: set<Id>, want: bool): (r: seq<Id>)
    ensures |r| <= |ids|
  {
    if ids == [] then []
    else Pick(ids[..|ids| - 1], marked, want)
         + (if (ids[|ids| - 1] in marked) == want then [ids[|ids| - 1]] else [])
  }

  /** The projects `judge` has an evaluation of. */
  ghost function EvaluatedBy(db: Store, judge: Id): set<Id>
    reads db, db.evaluations.Values
  {
    set k | k in db.evaluations && db.evaluations[k].judge == judge :: db.evaluations[k].project
  }

  /** The project a listed project must be: submitted, and of the category
      asked for when one is. */
  ghost predicate Wanted(db: Store, category: Option<Id>, k: Id)
    reads db, db.projects.Values
  {
    k in db.projects && db.projects[k].status == P.Submitted
    && (category.Some? ==> db.projects[k].category == category.value)
  }

  /** `a` sorts no later than `b` by submission date, a missing date first
      (MongoDB's ascending order). */
  predicate NotLater(a: Option<Time>, b: Option<Time>) {
    a.None? || (b.Some? && a.value <= b.value)
  }

  /** The submission dates of the projects. */
  ghost function SubmissionDates(db: Store): map<Id, Option<Time>>
    reads db, db.projects.Values
  {
    map k | k in db.projects :: db.projects[k].submittedAt
  }

  /** `ids` is in ascending order of the dates `at` gives them. */
  predicate Ascending(ids: seq<Id>, at: map<Id, Option<Time>>) {
    forall i, j :: 0 <= i < j < |ids| ==> ids[i] in at && ids[j] in at && NotLater(at[ids[i]], at[ids[j]])
  }

  /** What `Project.find(query).sort({submittedAt: 1})` returns: every wanted
      project once, earliest submission first. */
  ghost predicate QueryResult(db: Store, category: Option<Id>, found: seq<Id>)
    reads db, db.projects.Values
  {
    NoDuplicates(found)
    && (forall i :: 0 <= i < |found| ==> Wanted(db, category, found[i]))
    && (forall k :: Wanted(db, category, k) ==> k in found)
    && Ascending(found, SubmissionDates(db))
  }

  /** `getProjectsForEvaluation`, from the query result `found` on: with
      `evaluated` 'true' or 'false' each project is kept by whether the judge
      has an evaluation of it, in the query's order; otherwise all are kept.
      (The populated team and category names and the attached evaluation
      are not modelled.) */
  method GetProjectsForEvaluation(db: Store, judge: Id, found: seq<Id>, evaluated: Option<string>) returns (r: seq<Id>)
    ensures ParseListing(evaluated) == Everything ==> r == found
    ensures ParseListing(evaluated) != Everything ==>
              r == Pick(found, EvaluatedBy(db, judge), ParseListing(evaluated) == EvaluatedOnly)
  {
    var listing := ParseListing(evaluated);
    if listing == Everything {
      return found;
    }
    var want := listing == EvaluatedOnly;
    r := [];
    var i := 0;
    while i < |found|
      invariant 0 <= i <= |found|
      invariant r == Pick(found[..i], EvaluatedBy(db, judge), want)
    {
      EvaluatedByMeans(db, judge, found[i]);
      if db.HasEvaluation(found[i], judge) == want {
        r := r + [found[i]];
      }
      assert found[..i + 1][..i] == found[..i];
      i := i + 1;
    }
    assert found[..i] == found;
  }

  /** `EvaluatedBy` holds the projects `HasEvaluation` finds. */
  lemma EvaluatedByMeans(db: Store, judge: Id, p: Id)
    ensures p in EvaluatedBy(db, judge) <==> db.HasEvaluation(p, judge)
  {
    if db.HasEvaluation(p, judge) {
      var k :| k in db.evaluations && db.evaluations[k].project == p && db.evaluations[k].judge == judge;
      assert db.evaluations[k].project in EvaluatedBy(db, judge);
    }
  }

  /** An id is picked exactly when it is listed and its membership is the
      one wanted. */
  lemma {:induction false} PickMembers(ids: seq<Id>, marked: set<Id>, want: bool, x: Id)
    ensures x in Pick(ids, marked, want) <==> x in ids && (x in marked) == want
  {
    if ids != [] {
      var init := ids[..|ids| - 1];
      PickMembers(init, marked, want, x);
      assert ids == init + [ids[|ids| - 1]];
    }
  }

  /** The two picks split the list: their lengths add up to its length. */
  lemma {:induction false} PickSplit(ids: seq<Id>, marked: set<Id>)
    ensures |Pick(ids, marked, true)| + |Pick(ids, marked, false)| == |ids|
  {
    if ids != [] {
      PickSplit(ids[..|ids| - 1], marked);
    }
  }

  /** Picking keeps the order of an ascending list. */
  lemma {:induction false} PickAscending(ids: seq<Id>, marked: set<Id>, want: bool, at: map<Id, Option<Time>>)
    requires Ascending(ids, at)
    ensures Ascending(Pick(ids, marked, want), at)
  {
    if ids != [] {
      var init, last := ids[..|ids| - 1], ids[|ids| - 1];
      assert Ascending(init, at) by {
        forall i, j | 0 <= i < j < |init| ensures init[i] in at && init[j] in at && NotLater(at[init[i]], at[init[j]]) {
          assert init[i] == ids[i] && init[j] == ids[j];
        }
      }
      PickAscending(init, marked, want, at);
      var p := Pick(init, marked, want);
      if (last in marked) == want {
        forall i | 0 <= i < |p| ensures p[i] in at && last in at && NotLater(at[p[i]], at[last]) {
          PickMembers(init, marked, want, p[i]);
          var j :| 0 <= j < |init| && init[j] == p[i];
          assert ids[j] == p[i];
        }
        assert Pick(ids, marked, want) == p + [last];
      } else {
        assert Pick(ids, marked, want) == p;
      }
    }
  }

  /** For a judge, the 'true' and 'false' listings split the wanted projects
      between them by whether the judge evaluated them, and each keeps the
      earliest-submission-first order of the query. */
  lemma ListingsPartition(db: Store, judge: Id, category: Option<Id>, found: seq<Id>, p: Id)
    requires QueryResult(db, category, found)
    ensures p in Pick(found, EvaluatedBy(db, judge), true) <==> Wanted(db, category, p) && db.HasEvaluation(p, judge)
    ensures p in Pick(found, EvaluatedBy(db, judge), false) <==> Wanted(db, category, p) && !db.HasEvaluation(p, judge)
    ensures |Pick(found, EvaluatedBy(db, judge), true)| + |Pick(found, EvaluatedBy(db, judge), false)| == |found|
    ensures Ascending(Pick(found, EvaluatedBy(db, judge), true), SubmissionDates(db))
    ensures Ascending(Pick(found, EvaluatedBy(db, judge), false), SubmissionDates(db))
  {
    var marked := EvaluatedBy(db, judge);
    EvaluatedByMeans(db, judge, p);
    PickMembers(found, marked, true, p);
    PickMembers(found, marked, false, p);
    if p in found {
      var i :| 0 <= i < |found| && found[i] == p;
    }
    PickSplit(found, marked);
    PickAscending(found, marked, true, SubmissionDates(db));
    PickAscending(found, marked, false, SubmissionDates(db));
  }

  // ---------------------------------------------------------------------------
  // A judge's statistics.

  /** The figures of `getJudgeStats`. The completion rate is a percentage,
      without the rounding to two decimals. */
  datatype JudgeStats = JudgeStats(totalProjects: nat, evaluated: nat, pending: int, completionRate: real)

  /** The statistics from the two counts the handler asks for: the projects
      submitted, under review or reviewed, and the judge's evaluations. */
  function JudgeStatsOf(totalProjects: nat, myEvaluations: nat): (s: JudgeStats)
    ensures s.totalProjects == totalProjects && s.evaluated == myEvaluations
    ensures s.pending + s.evaluated == s.totalProjects
    ensures totalProjects == 0 ==> s.completionRate == 0.0
  {
    JudgeStats(totalProjects, myEvaluations, totalProjects - myEvaluations,
               if totalProjects > 0 then (myEvaluations as real / totalProjects as real) * 100.0 else 0.0)
  }

  /** Pending is not clamped: it is negative exactly when the judge has more
      evaluations than there are counted projects. While the judge has no
      more evaluations than projects, the rate lies in [0,100] and reaches
      100 exactly when nothing is pending. */
  lemma JudgeStatsBounds(totalProjects: nat, myEvaluations: nat)
    ensures JudgeStatsOf(totalProjects, myEvaluations).pending < 0 <==> myEvaluations > totalProjects
    ensures myEvaluations <= totalProjects ==> 0.0 <= JudgeStatsOf(totalProjects, myEvaluations).completionRate <= 100.0
    ensures 0 < totalProjects ==>
              (JudgeStatsOf(totalProjects, myEvaluations).completionRate == 100.0
               <==> JudgeStatsOf(totalProjects, myEvaluations).pending == 0)
  {
    if totalProjects > 0 {
      var n, m := totalProjects as real, myEvaluations as real;
      assert JudgeStatsOf(totalProjects, myEvaluations).completionRate == (m / n) * 100.0;
      RatioFacts(m, n);
    }
  }

  /** A share of a positive whole. */
  lemma RatioFacts(m: real, n: real)
    requires n > 0.0 && m >= 0.0
    ensures 0.0 <= m / n
    ensures m <= n ==> m / n <= 1.0
    ensures m / n == 1.0 <==> m == n
  {
    var q := m / n;
    assert q * n == m;
    assert (q - 1.0) * n == m - n;
  }

  // ---------------------------------------------------------------------------
  // Submitting an evaluation.

  /** The body of `POST /api/judge/evaluate`. A missing recommendation is None. */
  datatype EvaluationBody = EvaluationBody(
    project: Id,
    scores: E.ScoresInput,
    feedback: E.Feedback,
    recommendation: Option<string>)

  /** What the route's validator chain lets through to the handler: the four
      scores in [0,10] and general comments of at most 2000 characters. */
  predicate RouteAccepts(scores: E.ScoresInput, feedback: E.Feedback) {
    E.ScoresInRange(E.CastScores(scores)) && |feedback.generalComments| <= 2000
  }

  /** The schema's messages for a new evaluation built from `body`. */
  function BodyErrors(body: EvaluationBody): seq<string> {
    E.ValidationErrors(E.CastScores(body.scores), body.feedback, body.recommendation.GetOr("neutral"))
  }

  /** `submitEvaluation`. The new document's id and the clock are parameters;
      the e-mail to the team leader is left out. The handler serves any
      stored state; when the judging state was consistent and every stored
      evaluation derived, both stay so. */
  method SubmitEvaluation(db: Store, judge: Id, body: EvaluationBody, newId: Id, now: Time) returns (r: Reply)
    requires db.Keyed()
    requires newId !in db.evaluations
    requires RouteAccepts(body.scores, body.feedback)
    modifies db`evaluations, db.ProjectFrame(body.project)`evaluations, db.ProjectFrame(body.project)`totalScore
    modifies db.ProjectFrame(body.project)`averageScore, db.ProjectFrame(body.project)`status
    ensures db.Keyed()
    ensures old(db.JudgingValid()) ==> db.JudgingValid()
    ensures old(db.AllDerived()) ==> db.AllDerived()
    ensures body.project !in db.projects ==> r == Reply(404, "Project not found")
    ensures body.project in db.projects && old(db.HasEvaluation(body.project, judge)) ==>
              r == Reply(400, "You have already evaluated this project")
    ensures body.project in db.projects && !old(db.HasEvaluation(body.project, judge)) && BodyErrors(body) != [] ==>
              r == ErrorHandler.Handle(ErrorHandler.ValidationFailure(BodyErrors(body))) && r.status == 400
    ensures r.status == 201 <==>
              body.project in db.projects && !old(db.HasEvaluation(body.project, judge)) && BodyErrors(body) == []
    ensures r.status != 201 ==> db.evaluations == old(db.evaluations) && unchanged(db.ProjectFrame(body.project))
    ensures r.status == 201 ==>
              && r.message == "Evaluation submitted successfully"
              && newId in db.evaluations && fresh(db.evaluations[newId]) && db.evaluations[newId].Derived()
              && db.evaluations == old(db.evaluations)[newId := db.evaluations[newId]]
              && db.Links() == old(db.Links())[newId := Link(body.project, judge, E.Weighted(E.CastScores(body.scores)))]
              && db.Aggregates() == old(db.Aggregates())[body.project :=
                   Appended(old(db.Aggregates())[body.project], newId, E.Weighted(E.CastScores(body.scores)))]
              && db.projects[body.project].status == P.UnderReview
  {
    if body.project !in db.projects {
      return Reply(404, "Project not found");
    }
    var p := db.projects[body.project];
    if db.HasEvaluation(body.project, judge) {
      return Reply(400, "You have already evaluated this project");
    }
    var scores := E.CastScores(body.scores);
    var rec := body.recommendation.GetOr("neutral");
    var errs := E.ValidationErrors(scores, body.feedback, rec);
    if errs != [] {
      r := ErrorHandler.Handle(ErrorHandler.ValidationFailure(errs));
      return;
    }
    HasEvaluationLinks(db, body.project, judge);
    ghost var valid := db.JudgingValid();
    var e := Record(db, p, judge, scores, body.feedback, E.ParseRecommendation(rec).value, newId, now);
    if valid {
      AddKeepsConsistent(old(db.Aggregates()), old(db.Links()), newId, Link(body.project, judge, e.weightedScore));
    }
    r := Reply(201, "Evaluation submitted successfully");
  }

  /** The success path of `submitEvaluation`: the evaluation is created and
      saved (so the pre-save hook derives its totals), then recorded on the
      project. */
  method Record(db: Store, p: P.Project, judge: Id, scores: E.Scores, feedback: E.Feedback,
                recommendation: E.Recommendation, newId: Id, now: Time) returns (e: E.Evaluation)
    requires db.Keyed()
    requires p.id in db.projects && db.projects[p.id] == p
    requires newId !in db.evaluations
    modifies db`evaluations, p`evaluations, p`totalScore, p`averageScore, p`status
    ensures fresh(e) && e.id == newId && e.project == p.id && e.judge == judge
    ensures e.scores == scores && e.feedback == feedback && e.recommendation == recommendation
    ensures e.weightedScore == E.Weighted(scores) && e.Derived()
    ensures db.evaluations == old(db.evaluations)[newId := e]
    ensures db.Keyed() && (old(db.AllDerived()) ==> db.AllDerived())
    ensures db.Links() == old(db.Links())[newId := Link(p.id, judge, E.Weighted(scores))]
    ensures db.Aggregates() == old(db.Aggregates())[p.id := Appended(old(db.Aggregates())[p.id], newId, E.Weighted(scores))]
    ensures p.status == P.UnderReview
  {
    e := Create(db, p.id, judge, scores, feedback, recommendation, newId, now);
    Attach(db, p, newId, e.weightedScore);
  }

  /** `Evaluation.create`: a new document, saved through the pre-save hook. */
  method Create(db: Store, project: Id, judge: Id, scores: E.Scores, feedback: E.Feedback,
                recommendation: E.Recommendation, newId: Id, now: Time) returns (e: E.Evaluation)
    requires db.Keyed()
    requires newId !in db.evaluations
    modifies db`evaluations
    ensures fresh(e) && e.id == newId && e.project == project && e.judge == judge
    ensures e.scores == scores && e.feedback == feedback && e.recommendation == recommendation
    ensures e.weightedScore == E.Weighted(scores) && e.Derived()
    ensures db.evaluations == old(db.evaluations)[newId := e]
    ensures db.Keyed() && (old(db.AllDerived()) ==> db.AllDerived())
    ensures db.Links() == old(db.Links())[newId := Link(project, judge, E.Weighted(scores))]
  {
    e := new E.Evaluation(newId, project, judge, scores, feedback, recommendation);
    e.PreSave(now);
    db.evaluations := db.evaluations[newId := e];
  }

  /** The project side of `submitEvaluation`: the id is appended, the total
      grows by the evaluation's weighted score, the average is recomputed and
      the project goes under review. */
  method Attach(db: Store, p: P.Project, newId: Id, w: real)
    requires db.Keyed() && p.id in db.projects && db.projects[p.id] == p
    modifies p`evaluations, p`totalScore, p`averageScore, p`status
    ensures db.Keyed()
    ensures db.Aggregates() == old(db.Aggregates())[p.id := Appended(old(db.Aggregates())[p.id], newId, w)]
    ensures p.status == P.UnderReview
  {
    p.evaluations := p.evaluations + [newId];
    p.totalScore := p.totalScore + w;
    p.CalculateAverageScore();
    p.status := P.UnderReview;
    assert forall k :: k in db.projects && k != p.id ==> db.projects[k] != p;
  }

  // ---------------------------------------------------------------------------
  // Editing an evaluation.

  /** The body of `PUT /api/judge/evaluate/:id`: the route's validator chain
      makes `project` and the four scores present; feedback, recommendation,
      and the paths the hook normally derives or the handler normally fixes
      (weighted and raw totals, completion, submission time, even the judge)
      may come along, and nothing refuses them. */
  datatype UpdateBody = UpdateBody(
    project: Id,
    scores: E.ScoresInput,
    feedback: Option<E.Feedback>,
    recommendation: Option<string>,
    weightedScore: Option<real>,
    judge: Option<Id>,
    totalScore: Option<real>,
    isComplete: Option<bool>,
    submittedAt: Option<Time>)

  /** The judge of the evaluation after the update: the body's, if it names
      one. */
  function NewJudge(body: UpdateBody, before: Id): Id {
    body.judge.GetOr(before)
  }

  /** The messages of the schema validators `runValidators` applies to the
      updated paths. */
  function UpdateErrors(body: UpdateBody): seq<string> {
    E.ValidationErrors(E.CastScores(body.scores), body.feedback.GetOr(E.NoFeedback), body.recommendation.GetOr("neutral"))
  }

  /** The `findOne({_id, judge})` of `updateEvaluation`: evaluation `id`
      exists and belongs to `judge`. */
  predicate Owns(db: Store, id: Id, judge: Id)
    reads db, db.evaluations.Values
  {
    id in db.evaluations && db.evaluations[id].judge == judge
  }

  /** An evaluation other than `id` already has the pair (project, judge): the
      update would break the unique index. */
  predicate Clash(db: Store, id: Id, project: Id, judge: Id)
    reads db, db.evaluations.Values
  {
    exists k :: k in db.evaluations && k != id && db.evaluations[k].project == project && db.evaluations[k].judge == judge
  }

  /** The weighted score stored after `findByIdAndUpdate`: the body's, or the
      old one, since the update does not run the pre-save hook. */
  function StoredWeight(body: UpdateBody, before: real): real {
    body.weightedScore.GetOr(before)
  }

  /** `updateEvaluation` as written. The evaluation is updated in place with
      the body, the weighted score is not re-derived from the new scores, and
      the project the body names (not necessarily the evaluation's own) has its
      total moved by the difference between the old and the stored weighted
      score. */
  method UpdateEvaluation(db: Store, judge: Id, id: Id, body: UpdateBody) returns (r: Reply)
    requires db.Keyed()
    requires RouteAccepts(body.scores, body.feedback.GetOr(E.NoFeedback))
    modifies db.EvaluationFrame(id)`project, db.EvaluationFrame(id)`scores, db.EvaluationFrame(id)`feedback
    modifies db.EvaluationFrame(id)`recommendation, db.EvaluationFrame(id)`weightedScore
    modifies db.EvaluationFrame(id)`judge, db.EvaluationFrame(id)`totalScore
    modifies db.EvaluationFrame(id)`isComplete, db.EvaluationFrame(id)`submittedAt
    modifies db.ProjectFrame(body.project)`totalScore, db.ProjectFrame(body.project)`averageScore
    ensures !old(Owns(db, id, judge)) ==>
              r == Reply(404, "Evaluation not found") && unchanged(db.EvaluationFrame(id), db.ProjectFrame(body.project))
    ensures old(Owns(db, id, judge)) ==> UpdateOutcome(db, id, body, r)
    ensures old(Owns(db, id, judge)) && (UpdateErrors(body) != [] || old(Clash(db, id, body.project, NewJudge(body, judge)))) ==>
              unchanged(db.EvaluationFrame(id), db.ProjectFrame(body.project))
  {
    if !Owns(db, id, judge) {
      return Reply(404, "Evaluation not found");
    }
    r := UpdateOwned(db, db.evaluations[id], body);
  }

  /** What an update of evaluation `id` with `body` leads to, once the
      evaluation is found: a body the schema validators reject is refused;
      any other goes on to the unique index (see `Indexed`). */
  twostate predicate UpdateOutcome(db: Store, id: Id, body: UpdateBody, r: Reply)
    reads db, db.evaluations.Values, db.projects.Values
  {
    && id in old(db.evaluations) && id in db.evaluations
    && (UpdateErrors(body) != [] ==>
          r == ErrorHandler.Handle(ErrorHandler.ValidationFailure(UpdateErrors(body))))
    && (UpdateErrors(body) == [] ==> Indexed(db, id, body, r))
  }

  /** What an accepted update of evaluation `id` leads to: one that would
      give its (new) judge a second evaluation of its (new) project is refused
      by the unique index; any other is written (see `Written`), and when the
      evaluation stays with its own, existing project a consistent judging
      state stays consistent, whoever its judge now is. */
  twostate predicate Indexed(db: Store, id: Id, body: UpdateBody, r: Reply)
    reads db, db.evaluations.Values, db.projects.Values
  {
    && id in old(db.evaluations) && id in db.evaluations
    && (old(Clash(db, id, body.project, NewJudge(body, db.evaluations[id].judge))) ==>
          r == Reply(400, "project already exists"))
    && (!old(Clash(db, id, body.project, NewJudge(body, db.evaluations[id].judge))) ==>
          Written(db, id, body, old(db.evaluations[id].weightedScore), old(db.evaluations[id].judge), r)
          && (old(db.JudgingValid()) && body.project in db.projects && body.project == old(db.evaluations[id].project) ==>
                db.JudgingValid()))
  }

  /** The reply to a breach of the unique (project, judge) index names the
      project. */
  lemma DuplicatePairReply()
    ensures ErrorHandler.Handle(ErrorHandler.DuplicateKey(["project", "judge"])) == Reply(400, "project already exists")
  {
    var keys := ["project", "judge"];
    ErrorHandler.DuplicateKeyNamesField(keys);
    assert keys[0] == "project";
    assert "project" + " already exists" == "project already exists";
  }

  /** `updateEvaluation` after the evaluation was found: the validators
      `runValidators` applies, then the unique index and the write. */
  method UpdateOwned(db: Store, e: E.Evaluation, body: UpdateBody) returns (r: Reply)
    requires db.Keyed() && e.id in db.evaluations && db.evaluations[e.id] == e
    modifies e`project, e`scores, e`feedback, e`recommendation, e`weightedScore
    modifies e`judge, e`totalScore, e`isComplete, e`submittedAt
    modifies db.ProjectFrame(body.project)`totalScore, db.ProjectFrame(body.project)`averageScore
    ensures UpdateOutcome(db, e.id, body, r)
    ensures UpdateErrors(body) != [] || old(Clash(db, e.id, body.project, NewJudge(body, e.judge))) ==>
              unchanged(e) && unchanged(db.ProjectFrame(body.project))
  {
    var errs := UpdateErrors(body);
    if errs != [] {
      r := ErrorHandler.Handle(ErrorHandler.ValidationFailure(errs));
      return;
    }
    r := UpdateIndexed(db, e, body);
  }

  /** An accepted update meets the unique (project, judge) index: a clash is
      refused with the duplicate-key reply, anything else is written. */
  method UpdateIndexed(db: Store, e: E.Evaluation, body: UpdateBody) returns (r: Reply)
    requires db.Keyed() && e.id in db.evaluations && db.evaluations[e.id] == e
    requires UpdateErrors(body) == []
    modifies e`project, e`scores, e`feedback, e`recommendation, e`weightedScore
    modifies e`judge, e`totalScore, e`isComplete, e`submittedAt
    modifies db.ProjectFrame(body.project)`totalScore, db.ProjectFrame(body.project)`averageScore
    ensures Indexed(db, e.id, body, r)
    ensures old(Clash(db, e.id, body.project, NewJudge(body, e.judge))) ==> unchanged(e) && unchanged(db.ProjectFrame(body.project))
  {
    if Clash(db, e.id, body.project, NewJudge(body, e.judge)) {
      DuplicatePairReply();
      r := ErrorHandler.Handle(ErrorHandler.DuplicateKey(["project", "judge"]));
      return;
    }
    r := UpdateValidated(db, e, body);
    assert db.evaluations[e.id] == e;
  }

  /** `updateEvaluation` with a body the validators and the unique index
      accept: the write, after which a consistent state is consistent again
      when the evaluation stayed with its own, existing project. */
  method UpdateValidated(db: Store, e: E.Evaluation, body: UpdateBody) returns (r: Reply)
    requires db.Keyed() && e.id in db.evaluations && db.evaluations[e.id] == e
    requires UpdateErrors(body) == [] && !Clash(db, e.id, body.project, NewJudge(body, e.judge))
    modifies e`project, e`scores, e`feedback, e`recommendation, e`weightedScore
    modifies e`judge, e`totalScore, e`isComplete, e`submittedAt
    modifies db.ProjectFrame(body.project)`totalScore, db.ProjectFrame(body.project)`averageScore
    ensures Written(db, e.id, body, old(e.weightedScore), old(e.judge), r)
    ensures old(db.JudgingValid()) && body.project in db.projects && body.project == old(e.project) ==> db.JudgingValid()
  {
    ghost var valid := db.JudgingValid();
    ghost var ps, es := db.Aggregates(), db.Links();
    ghost var before, w, j := e.project, StoredWeight(body, e.weightedScore), NewJudge(body, e.judge);
    assert es[e.id] == Link(before, e.judge, e.weightedScore);
    ghost var unique := forall k :: k in es && k != e.id && es[k].project == body.project ==> es[k].judge != j;
    assert unique by {
      forall k | k in es && k != e.id && es[k].project == body.project ensures es[k].judge != j {
        assert db.evaluations[k].project == es[k].project && db.evaluations[k].judge == es[k].judge;
      }
    }
    r := Write(db, e, body);
    if valid && body.project in db.projects && body.project == before {
      RewriteValid(db, ps, es, e.id, j, w);
    }
  }

  /** The outcome of an accepted update of evaluation `id` whose weighted score
      was `before` and whose judge was `judge`: the evaluation holds the body's
      project, judge and scores, the stored weighted score, and whatever
      totals, completion and time the body carries; the project the body
      names is rebalanced from `before` to the stored weighted score, or, when
      there is no such project, the handler fails on a null project after the
      evaluation was already changed. */
  twostate predicate Written(db: Store, id: Id, body: UpdateBody, before: real, judge: Id, r: Reply)
    reads db, db.evaluations.Values, db.projects.Values
  {
    && id in db.evaluations
    && db.evaluations[id].project == body.project
    && db.evaluations[id].scores == E.CastScores(body.scores)
    && db.evaluations[id].judge == NewJudge(body, judge)
    && id in old(db.evaluations)
    && Overwritten(db.evaluations[id], body, old(db.evaluations[id].totalScore), old(db.evaluations[id].isComplete), old(db.evaluations[id].submittedAt))
    && db.Links() == old(db.Links())[id := Link(body.project, NewJudge(body, judge), StoredWeight(body, before))]
    && (body.project !in db.projects ==>
          r == Reply(500, ErrorHandler.NullMessage("totalScore"))
          && db.Aggregates() == old(db.Aggregates()))
    && (body.project in db.projects ==>
          r == Reply(200, "")
          && body.project in old(db.Aggregates())
          && db.Aggregates() == old(db.Aggregates())[body.project :=
               Rebalanced(old(db.Aggregates())[body.project], before, StoredWeight(body, before))])
  }

  /** The paths the pre-save hook normally derives, as the update leaves them:
      the body's value when it carries one, the old one (`total`, `complete`,
      `at`) otherwise. */
  predicate Overwritten(e: E.Evaluation, body: UpdateBody, total: real, complete: bool, at: Option<Time>)
    reads e
  {
    && e.totalScore == body.totalScore.GetOr(total)
    && e.isComplete == body.isComplete.GetOr(complete)
    && e.submittedAt == (if body.submittedAt.Some? then body.submittedAt else at)
  }

  /** What `updateEvaluation` does once the evaluation is found and the update
      is accepted: the update is applied, then the project the body names is
      looked up (a missing one makes the handler dereference null) and its
      total rebalanced. */
  method Write(db: Store, e: E.Evaluation, body: UpdateBody) returns (r: Reply)
    requires db.Keyed() && e.id in db.evaluations && db.evaluations[e.id] == e
    requires body.recommendation.Some? ==> E.ParseRecommendation(body.recommendation.value).Some?
    modifies e`project, e`scores, e`feedback, e`recommendation, e`weightedScore
    modifies e`judge, e`totalScore, e`isComplete, e`submittedAt
    modifies db.ProjectFrame(body.project)`totalScore, db.ProjectFrame(body.project)`averageScore
    ensures Written(db, e.id, body, old(e.weightedScore), old(e.judge), r)
    ensures db.Keyed()
  {
    var oldScore := e.weightedScore;
    ApplyUpdate(db, e, body);
    if body.project !in db.projects {
      ErrorHandler.NullDereferenceIsServerError("totalScore");
      r := ErrorHandler.Handle(ErrorHandler.NullDereference("totalScore"));
      return;
    }
    var q := db.projects[body.project];
    Rebalance(db, q, oldScore, e.weightedScore);
    r := Reply(200, "");
  }

  /** A database whose judging state is a consistent state with one
      evaluation handed to a judge who has no other evaluation of its project,
      its weighted score changed and its project rebalanced is consistent. */
  lemma RewriteValid(db: Store, ps: map<Id, Aggregate>, es: map<Id, Link>, id: Id, j: Id, w: real)
    requires db.Keyed() && Consistent(ps, es) && id in es && es[id].project in ps
    requires forall k :: k in es && k != id && es[k].project == es[id].project ==> es[k].judge != j
    requires db.Links() == es[id := Link(es[id].project, j, w)]
    requires db.Aggregates() == ps[es[id].project := Rebalanced(ps[es[id].project], es[id].weightedScore, w)]
    ensures db.JudgingValid()
  {
    RejudgeKeepsConsistent(ps, es, id, j);
    var es1 := es[id := es[id].(judge := j)];
    RebalanceKeepsConsistent(ps, es1, id, w);
    assert es1[id := es1[id].(weightedScore := w)] == es[id := Link(es[id].project, j, w)];
  }

  /** A database whose judging state is a consistent state with one weighted
      score changed and its project rebalanced is consistent. */
  lemma RebalanceValid(db: Store, ps: map<Id, Aggregate>, es: map<Id, Link>, id: Id, w: real)
    requires db.Keyed() && Consistent(ps, es) && id in es && es[id].project in ps
    requires db.Links() == es[id := Link(es[id].project, es[id].judge, w)]
    requires db.Aggregates() == ps[es[id].project := Rebalanced(ps[es[id].project], es[id].weightedScore, w)]
    ensures db.JudgingValid()
  {
    RebalanceKeepsConsistent(ps, es, id, w);
  }

  /** `findByIdAndUpdate(id, body)`: the body's paths overwrite the stored
      ones; nothing is derived. */
  method ApplyUpdate(db: Store, e: E.Evaluation, body: UpdateBody)
    requires db.Keyed() && e.id in db.evaluations && db.evaluations[e.id] == e
    requires body.recommendation.Some? ==> E.ParseRecommendation(body.recommendation.value).Some?
    modifies e`project, e`scores, e`feedback, e`recommendation, e`weightedScore
    modifies e`judge, e`totalScore, e`isComplete, e`submittedAt
    ensures e.project == body.project && e.scores == E.CastScores(body.scores)
    ensures e.judge == NewJudge(body, old(e.judge))
    ensures e.feedback == body.feedback.GetOr(old(e.feedback))
    ensures body.recommendation.Some? ==> e.recommendation == E.ParseRecommendation(body.recommendation.value).value
    ensures body.recommendation.None? ==> e.recommendation == old(e.recommendation)
    ensures e.weightedScore == StoredWeight(body, old(e.weightedScore))
    ensures Overwritten(e, body, old(e.totalScore), old(e.isComplete), old(e.submittedAt))
    ensures db.Keyed()
    ensures db.Links() == old(db.Links())[e.id := Link(body.project, NewJudge(body, old(e.judge)), StoredWeight(body, old(e.weightedScore)))]
    ensures db.Aggregates() == old(db.Aggregates())
  {
    ApplyComments(db, e, body);
    ApplyScores(db, e, body);
    ApplyStatus(db, e, body);
  }

  /** The feedback and recommendation paths of the update: what an
      evaluation records about its project does not change. */
  method ApplyComments(db: Store, e: E.Evaluation, body: UpdateBody)
    requires db.Keyed() && e.id in db.evaluations && db.evaluations[e.id] == e
    requires body.recommendation.Some? ==> E.ParseRecommendation(body.recommendation.value).Some?
    modifies e`feedback, e`recommendation
    ensures e.feedback == body.feedback.GetOr(old(e.feedback))
    ensures body.recommendation.Some? ==> e.recommendation == E.ParseRecommendation(body.recommendation.value).value
    ensures body.recommendation.None? ==> e.recommendation == old(e.recommendation)
    ensures db.Keyed() && db.Links() == old(db.Links())
  {
    if body.feedback.Some? {
      e.feedback := body.feedback.value;
    }
    if body.recommendation.Some? {
      e.recommendation := E.ParseRecommendation(body.recommendation.value).value;
    }
  }

  /** The project, judge, score and weighted-score paths of the update. */
  method ApplyScores(db: Store, e: E.Evaluation, body: UpdateBody)
    requires db.Keyed() && e.id in db.evaluations && db.evaluations[e.id] == e
    modifies e`project, e`judge, e`scores, e`weightedScore
    ensures e.project == body.project && e.scores == E.CastScores(body.scores)
    ensures e.judge == NewJudge(body, old(e.judge))
    ensures e.weightedScore == StoredWeight(body, old(e.weightedScore))
    ensures db.Keyed()
    ensures db.Links() == old(db.Links())[e.id := Link(body.project, NewJudge(body, old(e.judge)), StoredWeight(body, old(e.weightedScore)))]
  {
    e.project := body.project;
    e.judge := NewJudge(body, e.judge);
    e.scores := E.CastScores(body.scores);
    e.weightedScore := StoredWeight(body, e.weightedScore);
    assert forall k :: k in db.evaluations && k != e.id ==> db.evaluations[k] != e;
  }

  /** The total, completion and time paths of the update: nothing the
      evaluation records about its project changes. */
  method ApplyStatus(db: Store, e: E.Evaluation, body: UpdateBody)
    requires db.Keyed() && e.id in db.evaluations && db.evaluations[e.id] == e
    modifies e`totalScore, e`isComplete, e`submittedAt
    ensures Overwritten(e, body, old(e.totalScore), old(e.isComplete), old(e.submittedAt))
    ensures db.Keyed() && db.Links() == old(db.Links())
  {
    if body.totalScore.Some? {
      e.totalScore := body.totalScore.value;
    }
    if body.isComplete.Some? {
      e.isComplete := body.isComplete.value;
    }
    if body.submittedAt.Some? {
      e.submittedAt := body.submittedAt;
    }
  }

  /** The project side of `updateEvaluation`: the total moves from `before`
      to `after` and the average is recomputed. */
  method Rebalance(db: Store, q: P.Project, before: real, after: real)
    requires db.Keyed() && q.id in db.projects && db.projects[q.id] == q
    modifies q`totalScore, q`averageScore
    ensures db.Keyed()
    ensures db.Aggregates() == old(db.Aggregates())[q.id := Rebalanced(old(db.Aggregates())[q.id], before, after)]
    ensures db.Links() == old(db.Links())
  {
    q.totalScore := q.totalScore - before + after;
    q.CalculateAverageScore();
    assert forall k :: k in db.projects && k != q.id ==> db.projects[k] != q;
  }

  // ---------------------------------------------------------------------------
  // What goes wrong when updating, and the corrected update.

  /** As written, an edit whose body carries no weighted score leaves the
      stored weighted score, and with it the project total, where they were.
      Judge A scored 8, 7, 9, 6 (weighted 75) and judge B 6 on every
      criterion (60), so the project holds 135 over two evaluations; A then
      edits every score to 10. The handler keeps 135 and the average 67.5,
      where the new scores call for 160 and 80. */
  lemma StaleWeightExample()
    ensures var a := Aggregate([1, 2], 135.0, 67.5);
            var ten := E.CriterionInput(10.0, None);
            var body := UpdateBody(7, E.ScoresInput(ten, ten, ten, ten), None, None, None, None, None, None, None);
            && AggregateOf(a, 7, map[1 := Link(7, 100, 75.0), 2 := Link(7, 200, 60.0)])
            && Rebalanced(a, 75.0, StoredWeight(body, 75.0)) == a
            && Rebalanced(a, 75.0, E.Weighted(E.CastScores(body.scores))) == Aggregate([1, 2], 160.0, 80.0)
  {
    var es := map[1 := Link(7, 100, 75.0), 2 := Link(7, 200, 60.0)];
    assert SumOver([1, 2], WeightsOf(es)) == SumOver([1], WeightsOf(es)) + 60.0;
    assert [1, 2][..1] == [1];
    assert [1][..0] == [];
  }

  /** As written, the body's other paths are written too: a body with all
      scores 10, `totalScore` 99 and `judge` 200 leaves a stored total that is
      not the sum of the scores (40), and hands judge 100's evaluation to judge
      200. */
  lemma TamperedBodyExample(e: E.Evaluation, total: real, complete: bool, at: Option<Time>)
    ensures var ten := E.CriterionInput(10.0, None);
            var body := UpdateBody(7, E.ScoresInput(ten, ten, ten, ten), None, None, None, Some(200), Some(99.0), None, None);
            && (e.scores == E.CastScores(body.scores) && Overwritten(e, body, total, complete, at) ==> !e.Derived())
            && NewJudge(body, 100) == 200
  {
    var ten := E.CriterionInput(10.0, None);
    var body := UpdateBody(7, E.ScoresInput(ten, ten, ten, ten), None, None, None, Some(200), Some(99.0), None, None);
    if e.scores == E.CastScores(body.scores) && Overwritten(e, body, total, complete, at) {
      assert E.RawTotal(e.scores) == 40.0;
    }
  }

  /** As written, a body naming another project moves the evaluation to that
      project while its old project still lists it; the judging state is no
      longer consistent, whatever the scores. */
  lemma RepointBreaksConsistency(ps: map<Id, Aggregate>, es: map<Id, Link>, id: Id, q: Id, w: real)
    requires Consistent(ps, es) && id in es && es[id].project in ps
    requires q in ps && q != es[id].project
    ensures !Consistent(ps[q := Rebalanced(ps[q], es[id].weightedScore, w)],
                        es[id := Link(q, es[id].judge, w)])
  {
    var pid := es[id].project;
    var ps' := ps[q := Rebalanced(ps[q], es[id].weightedScore, w)];
    var es' := es[id := Link(q, es[id].judge, w)];
    ListedIffPointing(ps, es, pid, id);
    assert ps'[pid] == ps[pid];
    var i :| 0 <= i < |ps[pid].evaluations| && ps[pid].evaluations[i] == id;
    assert !AggregateOf(ps'[pid], pid, es');
  }

  /** Changing the weighted score of an evaluation whose project does not
      exist keeps the state consistent: no list names it. */
  lemma ReweighUnlisted(ps: map<Id, Aggregate>, es: map<Id, Link>, id: Id, w: real)
    requires Consistent(ps, es) && id in es && es[id].project !in ps
    ensures Consistent(ps, es[id := es[id].(weightedScore := w)])
  {
    var es' := es[id := es[id].(weightedScore := w)];
    assert WeightsOf(es') == WeightsOf(es)[id := w];
    forall k | k in ps ensures AggregateOf(ps[k], k, es') {
      assert AggregateOf(ps[k], k, es);
      ListedIffPointing(ps, es, k, id);
      SumFrame(ps[k].evaluations, WeightsOf(es'), WeightsOf(es));
    }
  }

  /** The project of evaluation `id`, as a frame. */
  ghost function OwnProject(db: Store, id: Id): set<P.Project>
    reads db, db.evaluations.Values
  {
    if id in db.evaluations then db.ProjectFrame(db.evaluations[id].project) else {}
  }

  /** The outcome of a corrected update of evaluation `id`, whose link was
      `before`, with an accepted body: the scores are the body's and the
      weighted score is derived from them; the evaluation keeps its project,
      whose total moves from the old weighted score to the new one, or, when
      there is no such project, the handler fails on a null project after the
      evaluation was saved. */
  twostate predicate Rescored(db: Store, id: Id, body: UpdateBody, before: Link, r: Reply)
    reads db, db.evaluations.Values, db.projects.Values
  {
    && id in db.evaluations
    && db.evaluations[id].scores == E.CastScores(body.scores)
    && db.Links() == old(db.Links())[id := before.(weightedScore := E.Weighted(E.CastScores(body.scores)))]
    && (before.project !in db.projects ==>
          r == Reply(500, ErrorHandler.NullMessage("totalScore")) && db.Aggregates() == old(db.Aggregates()))
    && (before.project in db.projects ==>
          r == Reply(200, "")
          && before.project in old(db.Aggregates())
          && db.Aggregates() == old(db.Aggregates())[before.project :=
               Rebalanced(old(db.Aggregates())[before.project], before.weightedScore, E.Weighted(E.CastScores(body.scores)))])
  }

  /** `updateEvaluation` as evidently intended: the evaluation keeps its own
      project and judge (a body naming others is ignored, as are totals,
      completion and time the body carries), it is saved so the
      pre-save hook derives its weighted score from the new scores, and its
      project is rebalanced by the difference. Unlike the handler as written,
      it keeps the judging state consistent and every stored total derived. */
  method UpdateEvaluationFixed(db: Store, judge: Id, id: Id, body: UpdateBody, now: Time) returns (r: Reply)
    requires db.JudgingValid() && db.AllDerived()
    requires RouteAccepts(body.scores, body.feedback.GetOr(E.NoFeedback))
    modifies db.EvaluationFrame(id)`scores, db.EvaluationFrame(id)`feedback, db.EvaluationFrame(id)`recommendation
    modifies db.EvaluationFrame(id)`totalScore, db.EvaluationFrame(id)`weightedScore
    modifies db.EvaluationFrame(id)`isComplete, db.EvaluationFrame(id)`submittedAt
    modifies OwnProject(db, id)`totalScore, OwnProject(db, id)`averageScore
    ensures db.JudgingValid() && db.AllDerived()
    ensures !old(Owns(db, id, judge)) ==>
              r == Reply(404, "Evaluation not found") && unchanged(db.EvaluationFrame(id), OwnProject(db, id))
    ensures old(Owns(db, id, judge)) && UpdateErrors(body) != [] ==>
              r == ErrorHandler.Handle(ErrorHandler.ValidationFailure(UpdateErrors(body)))
              && unchanged(db.EvaluationFrame(id), OwnProject(db, id))
    ensures old(Owns(db, id, judge)) && UpdateErrors(body) == [] ==> Rescored(db, id, body, old(db.Links()[id]), r)
  {
    if !Owns(db, id, judge) {
      return Reply(404, "Evaluation not found");
    }
    var e := db.evaluations[id];
    var errs := UpdateErrors(body);
    if errs != [] {
      r := ErrorHandler.Handle(ErrorHandler.ValidationFailure(errs));
      return;
    }
    r := RescoreAndRebalance(db, e, body, now);
  }

  /** The accepted path of the corrected update: the write, after which
      the state is consistent again. */
  method RescoreAndRebalance(db: Store, e: E.Evaluation, body: UpdateBody, now: Time) returns (r: Reply)
    requires db.JudgingValid() && db.AllDerived() && e.id in db.evaluations && db.evaluations[e.id] == e
    requires UpdateErrors(body) == []
    modifies e`scores, e`feedback, e`recommendation, e`totalScore, e`weightedScore, e`isComplete, e`submittedAt
    modifies db.ProjectFrame(e.project)`totalScore, db.ProjectFrame(e.project)`averageScore
    ensures db.JudgingValid() && db.AllDerived()
    ensures Rescored(db, e.id, body, old(db.Links()[e.id]), r)
  {
    ghost var ps, es := db.Aggregates(), db.Links();
    ghost var w := E.Weighted(E.CastScores(body.scores));
    r := FixedWrite(db, e, body, now);
    if es[e.id].project in db.projects {
      RebalanceValid(db, ps, es, e.id, w);
    } else {
      ReweighUnlisted(ps, es, e.id, w);
      ValidFromValues(db, ps, es[e.id := es[e.id].(weightedScore := w)]);
    }
  }

  /** The corrected write: the evaluation is rescored and saved, then its own
      project is looked up (a missing one makes the handler dereference null)
      and rebalanced. */
  method FixedWrite(db: Store, e: E.Evaluation, body: UpdateBody, now: Time) returns (r: Reply)
    requires db.Keyed() && db.AllDerived() && e.id in db.evaluations && db.evaluations[e.id] == e
    requires body.recommendation.Some? ==> E.ParseRecommendation(body.recommendation.value).Some?
    modifies e`scores, e`feedback, e`recommendation, e`totalScore, e`weightedScore, e`isComplete, e`submittedAt
    modifies db.ProjectFrame(e.project)`totalScore, db.ProjectFrame(e.project)`averageScore
    ensures Rescored(db, e.id, body, old(db.Links()[e.id]), r)
    ensures db.Keyed() && db.AllDerived()
  {
    var before := e.weightedScore;
    Rescore(db, e, body, now);
    if e.project !in db.projects {
      ErrorHandler.NullDereferenceIsServerError("totalScore");
      r := ErrorHandler.Handle(ErrorHandler.NullDereference("totalScore"));
      return;
    }
    var q := db.projects[e.project];
    Rebalance(db, q, before, e.weightedScore);
    r := Reply(200, "");
  }

  /** The evaluation side of the corrected update: the body's scores,
      feedback and recommendation are set and the document is saved through
      the pre-save hook. */
  method Rescore(db: Store, e: E.Evaluation, body: UpdateBody, now: Time)
    requires db.Keyed() && db.AllDerived() && e.id in db.evaluations && db.evaluations[e.id] == e
    requires body.recommendation.Some? ==> E.ParseRecommendation(body.recommendation.value).Some?
    modifies e`scores, e`feedback, e`recommendation, e`totalScore, e`weightedScore, e`isComplete, e`submittedAt
    ensures e.scores == E.CastScores(body.scores) && e.weightedScore == E.Weighted(e.scores)
    ensures e.feedback == body.feedback.GetOr(old(e.feedback))
    ensures body.recommendation.Some? ==> e.recommendation == E.ParseRecommendation(body.recommendation.value).value
    ensures body.recommendation.None? ==> e.recommendation == old(e.recommendation)
    ensures db.Keyed() && db.AllDerived()
    ensures db.Links() == old(db.Links())[e.id := old(db.Links())[e.id].(weightedScore := E.Weighted(E.CastScores(body.scores)))]
    ensures db.Aggregates() == old(db.Aggregates())
  {
    Overwrite(db, e, body);
    Save(db, e, now);
  }

  /** The body's paths are written; the derived fields are stale until the
      save. */
  method Overwrite(db: Store, e: E.Evaluation, body: UpdateBody)
    requires db.Keyed() && db.AllDerived() && e.id in db.evaluations && db.evaluations[e.id] == e
    requires body.recommendation.Some? ==> E.ParseRecommendation(body.recommendation.value).Some?
    modifies e`scores, e`feedback, e`recommendation
    ensures e.scores == E.CastScores(body.scores)
    ensures e.feedback == body.feedback.GetOr(old(e.feedback))
    ensures body.recommendation.Some? ==> e.recommendation == E.ParseRecommendation(body.recommendation.value).value
    ensures body.recommendation.None? ==> e.recommendation == old(e.recommendation)
    ensures db.Keyed() && db.DerivedExcept(e.id)
    ensures db.Links() == old(db.Links())
  {
    e.scores := E.CastScores(body.scores);
    if body.feedback.Some? {
      e.feedback := body.feedback.value;
    }
    if body.recommendation.Some? {
      e.recommendation := E.ParseRecommendation(body.recommendation.value).value;
    }
    assert forall k :: k in db.evaluations && k != e.id ==> db.evaluations[k] != e;
  }

  /** `evaluation.save()`: the pre-save hook derives the totals again. */
  method Save(db: Store, e: E.Evaluation, now: Time)
    requires db.Keyed() && db.DerivedExcept(e.id) && e.id in db.evaluations && db.evaluations[e.id] == e
    modifies e`totalScore, e`weightedScore, e`isComplete, e`submittedAt
    ensures e.weightedScore == E.Weighted(e.scores)
    ensures db.Keyed() && db.AllDerived()
    ensures db.Links() == old(db.Links())[e.id := old(db.Links())[e.id].(weightedScore := E.Weighted(e.scores))]
  {
    e.PreSave(now);
    assert forall k :: k in db.evaluations && k != e.id ==> db.evaluations[k] != e;
  }
}
