/** The MongoDB collections the controllers read and write, as maps from
    document ids to documents, and the consistency the judging code keeps
    between projects and their evaluations. */
module Database {
  import opened Common
  import U = UserModel
  import T = TeamModel
  import C = CategoryModel
  import P = ProjectModel
  import E = EvaluationModel
  import S = SubmissionModel
  import H = HackathonModel

  /** A map lookup that reads an absent key as 0 (a missing document adds
      nothing to a sum). */
  function Get(w: map<Id, real>, k: Id): real {
    if k in w then w[k] else 0.0
  }

  /** The sum of `w` over the ids of `ids`, in list order. */
  function SumOver(ids: seq<Id>, w: map<Id, real>): real {
    if ids == [] then 0.0 else SumOver(ids[..|ids| - 1], w) + Get(w, ids[|ids| - 1])
  }

  predicate NoDuplicates(ids: seq<Id>) {
    forall i, j :: 0 <= i < j < |ids| ==> ids[i] != ids[j]
  }

  // ---------------------------------------------------------------------------
  // Facts about sums.

  /** Appending an id adds its value. */
  lemma SumAppend(ids: seq<Id>, k: Id, w: map<Id, real>)
    ensures SumOver(ids + [k], w) == SumOver(ids, w) + Get(w, k)
  {
    assert (ids + [k])[..|ids|] == ids;
  }

  /** The sum only looks at the values of the listed ids. */
  lemma {:induction false} SumFrame(ids: seq<Id>, w1: map<Id, real>, w2: map<Id, real>)
    requires forall i :: 0 <= i < |ids| ==> Get(w1, ids[i]) == Get(w2, ids[i])
    ensures SumOver(ids, w1) == SumOver(ids, w2)
  {
    if ids != [] {
      SumFrame(ids[..|ids| - 1], w1, w2);
    }
  }

  /** Changing the value of an id listed exactly once moves the sum by the
      difference. */
  lemma {:induction false} SumRebalance(ids: seq<Id>, w: map<Id, real>, k: Id, v: real)
    requires NoDuplicates(ids)
    requires k in ids
    ensures SumOver(ids, w[k := v]) == SumOver(ids, w) - Get(w, k) + v
  {
    var init := ids[..|ids| - 1];
    var last := ids[|ids| - 1];
    if last == k {
      assert k !in init;
      SumFrame(init, w[k := v], w);
    } else {
      assert k in init by {
        var i :| 0 <= i < |ids| && ids[i] == k;
        assert init[i] == k;
      }
      SumRebalance(init, w, k, v);
    }
  }

  // ---------------------------------------------------------------------------
  // The judging state as values: what a project records about its evaluations
  // and what an evaluation records about its project.

  /** A project's evaluation list and score aggregates. */
  datatype Aggregate = Aggregate(evaluations: seq<Id>, totalScore: real, averageScore: real)

  /** An evaluation's project, judge and stored weighted score. */
  datatype Link = Link(project: Id, judge: Id, weightedScore: real)

  function WeightsOf(es: map<Id, Link>): map<Id, real> {
    map k | k in es :: es[k].weightedScore
  }

  /** The aggregates of project `pid` agree with its evaluation list: every
      listed evaluation exists, is for `pid` and is listed once; the total is
      the sum of their weighted scores and the average is that total over
      their number. */
  predicate AggregateOf(a: Aggregate, pid: Id, es: map<Id, Link>) {
    NoDuplicates(a.evaluations)
    && (forall i :: 0 <= i < |a.evaluations| ==>
          a.evaluations[i] in es && es[a.evaluations[i]].project == pid)
    && a.totalScore == SumOver(a.evaluations, WeightsOf(es))
    && a.averageScore == P.Average(a.totalScore, |a.evaluations|)
  }

  /** Some evaluation of `project` by `judge` exists. */
  predicate Evaluated(es: map<Id, Link>, project: Id, judge: Id) {
    exists k :: k in es && es[k].project == project && es[k].judge == judge
  }

  /** Every project's aggregates agree with its evaluation list. */
  predicate AllAggregated(ps: map<Id, Aggregate>, es: map<Id, Link>) {
    forall k :: k in ps ==> AggregateOf(ps[k], k, es)
  }

  /** Every evaluation of an existing project is on that project's list. */
  predicate AllListed(ps: map<Id, Aggregate>, es: map<Id, Link>) {
    forall k :: k in es && es[k].project in ps ==> k in ps[es[k].project].evaluations
  }

  /** The unique (project, judge) index: no judge evaluates a project twice. */
  predicate OnePerJudge(es: map<Id, Link>) {
    forall a, b :: a in es && b in es && a != b ==>
      es[a].project != es[b].project || es[a].judge != es[b].judge
  }

  /** The consistency the judging code is meant to keep. */
  predicate Consistent(ps: map<Id, Aggregate>, es: map<Id, Link>) {
    AllAggregated(ps, es) && AllListed(ps, es) && OnePerJudge(es)
  }

  /** Adding evaluation `id` worth `w` to project `pid` (the update of
      `submitEvaluation`): the id is appended, the total grows by `w` and the
      average follows. */
  function Appended(a: Aggregate, id: Id, w: real): (r: Aggregate)
    ensures r.evaluations == a.evaluations + [id]
    ensures r.totalScore == a.totalScore + w
    ensures |r.evaluations| == |a.evaluations| + 1
  {
    var evals := a.evaluations + [id];
    Aggregate(evals, a.totalScore + w, P.Average(a.totalScore + w, |evals|))
  }

  /** Replacing the weighted score `before` by `after` in a total (the update
      of `updateEvaluation`): the list stays, the total is rebalanced and the
      average follows. */
  function Rebalanced(a: Aggregate, before: real, after: real): (r: Aggregate)
    ensures r.evaluations == a.evaluations
    ensures r.totalScore == a.totalScore - before + after
  {
    var total := a.totalScore - before + after;
    Aggregate(a.evaluations, total, P.Average(total, |a.evaluations|))
  }

  /** With a project present, its list names exactly the evaluations that
      point to it. */
  lemma ListedIffPointing(ps: map<Id, Aggregate>, es: map<Id, Link>, pid: Id, k: Id)
    requires Consistent(ps, es) && pid in ps && k in es
    ensures k in ps[pid].evaluations <==> es[k].project == pid
  {
    assert AggregateOf(ps[pid], pid, es);
    if k in ps[pid].evaluations {
      var i :| 0 <= i < |ps[pid].evaluations| && ps[pid].evaluations[i] == k;
    }
  }

  /** Adding a new evaluation by a judge who has not evaluated the project,
      and appending it to the project's aggregates, keeps the state
      consistent. */
  lemma AddKeepsConsistent(ps: map<Id, Aggregate>, es: map<Id, Link>, id: Id, l: Link)
    requires Consistent(ps, es)
    requires id !in es && l.project in ps && !Evaluated(es, l.project, l.judge)
    ensures Consistent(ps[l.project := Appended(ps[l.project], id, l.weightedScore)], es[id := l])
  {
    AddKeepsAggregated(ps, es, id, l);
    var es' := es[id := l];
    var ps' := ps[l.project := Appended(ps[l.project], id, l.weightedScore)];
    forall k | k in es' && es'[k].project in ps' ensures k in ps'[es'[k].project].evaluations {
      if k != id {
        assert k in ps[es[k].project].evaluations;
      }
    }
  }

  lemma AddKeepsAggregated(ps: map<Id, Aggregate>, es: map<Id, Link>, id: Id, l: Link)
    requires AllAggregated(ps, es)
    requires id !in es && l.project in ps
    ensures AllAggregated(ps[l.project := Appended(ps[l.project], id, l.weightedScore)], es[id := l])
  {
    var es' := es[id := l];
    var ps' := ps[l.project := Appended(ps[l.project], id, l.weightedScore)];
    assert WeightsOf(es') == WeightsOf(es)[id := l.weightedScore];
    forall k | k in ps' ensures AggregateOf(ps'[k], k, es') {
      var list := ps[k].evaluations;
      assert AggregateOf(ps[k], k, es);
      assert id !in list;
      SumFrame(list, WeightsOf(es'), WeightsOf(es));
      if k == l.project {
        SumAppend(list, id, WeightsOf(es'));
        assert ps'[k].evaluations == list + [id];
      }
    }
  }

  /** Changing the weighted score of a listed evaluation, and rebalancing its
      project's total by the difference, keeps the state consistent. */
  lemma RebalanceKeepsConsistent(ps: map<Id, Aggregate>, es: map<Id, Link>, id: Id, w: real)
    requires Consistent(ps, es)
    requires id in es && es[id].project in ps
    ensures Consistent(ps[es[id].project := Rebalanced(ps[es[id].project], es[id].weightedScore, w)],
                       es[id := es[id].(weightedScore := w)])
  {
    var pid := es[id].project;
    var es' := es[id := es[id].(weightedScore := w)];
    var ps' := ps[pid := Rebalanced(ps[pid], es[id].weightedScore, w)];
    assert WeightsOf(es') == WeightsOf(es)[id := w];
    forall k | k in ps' ensures AggregateOf(ps'[k], k, es') {
      var list := ps[k].evaluations;
      assert AggregateOf(ps[k], k, es);
      if k == pid {
        assert id in list;
        SumRebalance(list, WeightsOf(es), id, w);
      } else {
        assert id !in list;
        SumFrame(list, WeightsOf(es'), WeightsOf(es));
      }
    }
  }

  /** Handing evaluation `id` to judge `j`, who has no other evaluation of its
      project, keeps the state consistent: lists and totals do not depend on
      the judge. */
  lemma RejudgeKeepsConsistent(ps: map<Id, Aggregate>, es: map<Id, Link>, id: Id, j: Id)
    requires Consistent(ps, es) && id in es
    requires forall k :: k in es && k != id && es[k].project == es[id].project ==> es[k].judge != j
    ensures Consistent(ps, es[id := es[id].(judge := j)])
  {
    var es' := es[id := es[id].(judge := j)];
    assert WeightsOf(es') == WeightsOf(es);
    forall k | k in ps ensures AggregateOf(ps[k], k, es') {
      assert AggregateOf(ps[k], k, es);
    }
  }

  /** The database: one map per collection. */
  class Store {
    var users: map<Id, U.User>
    var teams: map<Id, T.Team>
    var categories: map<Id, C.Category>
    var projects: map<Id, P.Project>
    var evaluations: map<Id, E.Evaluation>
    var submissions: map<Id, S.Submission>
    var hackathons: map<Id, H.Hackathon>

    /** An empty database. */
    constructor ()
      ensures users == map[] && teams == map[] && categories == map[] && projects == map[]
      ensures evaluations == map[] && submissions == map[] && hackathons == map[]
    {
      users := map[];
      teams := map[];
      categories := map[];
      projects := map[];
      evaluations := map[];
      submissions := map[];
      hackathons := map[];
    }

    /** Every project and evaluation is stored under its own id. */
    ghost predicate Keyed()
      reads this`projects, this`evaluations, projects.Values, evaluations.Values
    {
      (forall k :: k in projects ==> projects[k].id == k)
      && (forall k :: k in evaluations ==> evaluations[k].id == k)
    }

    /** The aggregates every project holds. */
    ghost function Aggregates(): map<Id, Aggregate>
      reads this`projects, projects.Values
    {
      map k | k in projects :: Aggregate(projects[k].evaluations, projects[k].totalScore, projects[k].averageScore)
    }

    /** What every evaluation records about its project. */
    ghost function Links(): map<Id, Link>
      reads this`evaluations, evaluations.Values
    {
      map k | k in evaluations :: Link(evaluations[k].project, evaluations[k].judge, evaluations[k].weightedScore)
    }

    /** The consistency the judging code is meant to keep. */
    ghost predicate JudgingValid()
      reads this`projects, this`evaluations, projects.Values, evaluations.Values
    {
      Keyed() && Consistent(Aggregates(), Links())
    }

    /** Every stored evaluation's totals agree with its scores. */
    ghost predicate AllDerived()
      reads this`evaluations, evaluations.Values
    {
      forall k :: k in evaluations ==> evaluations[k].Derived()
    }

    /** Every stored evaluation but `id` has its totals derived. */
    ghost predicate DerivedExcept(id: Id)
      reads this`evaluations, evaluations.Values
    {
      forall k :: k in evaluations && k != id ==> evaluations[k].Derived()
    }

    /** Some evaluation of `project` by `judge` exists (`Evaluation.findOne`). */
    predicate HasEvaluation(project: Id, judge: Id)
      reads this`evaluations, evaluations.Values
    {
      exists k :: k in evaluations && evaluations[k].project == project && evaluations[k].judge == judge
    }

    /** The unique (team, version) index of the submissions. */
    ghost predicate OneSubmissionPerVersion()
      reads this`submissions, submissions.Values
    {
      forall a, b :: a in submissions && b in submissions && a != b ==>
        submissions[a].team != submissions[b].team || submissions[a].version != submissions[b].version
    }

    /** The project stored under `k`, as a frame (empty when there is none). */
    ghost function ProjectFrame(k: Id): set<P.Project>
      reads this`projects
    {
      if k in projects then {projects[k]} else {}
    }

    ghost function EvaluationFrame(k: Id): set<E.Evaluation>
      reads this`evaluations
    {
      if k in evaluations then {evaluations[k]} else {}
    }
  }

  /** `HasEvaluation` is `Evaluated` on the links. */
  lemma HasEvaluationLinks(db: Store, project: Id, judge: Id)
    ensures db.HasEvaluation(project, judge) <==> Evaluated(db.Links(), project, judge)
  {
    if db.HasEvaluation(project, judge) {
      var k :| k in db.evaluations && db.evaluations[k].project == project && db.evaluations[k].judge == judge;
      assert db.Links()[k].project == project && db.Links()[k].judge == judge;
    }
  }

  /** The empty database is consistent. */
  lemma EmptyValid(db: Store)
    requires db.projects == map[] && db.evaluations == map[]
    ensures db.JudgingValid() && db.AllDerived()
  {
  }

  /** A database whose judging state equals a consistent state is valid. */
  lemma ValidFromValues(db: Store, ps: map<Id, Aggregate>, es: map<Id, Link>)
    requires db.Keyed() && Consistent(ps, es) && db.Aggregates() == ps && db.Links() == es
    ensures db.JudgingValid()
  {
  }
}
