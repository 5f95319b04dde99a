# A verified model of the hackathon platform's core

This project models, in Dafny, the logic of a hackathon platform. Participants form teams through invite codes and submit one project per team. Judges score the projects on four weighted criteria, and administrators manage users, categories and the event's configuration. Both the Express/Mongoose backend and the React front end are covered.

The model follows the source file by file:

- **Schemas and their hooks** (`Evaluation`, `Project`, `Submission`, `Hackathon`, `Category`, `Team`). A document whose methods or pre-save hooks assign its own fields is a class whose methods say exactly what they assign. A document with only pure methods is a datatype. Each schema's validation rules are a function from a document to the list of messages Mongoose would report.
- **The database** is one object, `Database.Store`. It holds a map per collection, from ObjectId to document. Each handler is one atomic step on it.
  - Fresh ObjectIds, drawn invite codes and upload suffixes are parameters.
  - So is the clock (`now`).
  - A query the model does not need to compute (a `find` with `populate`, a `countDocuments`) becomes a parameter constrained by a predicate that says what the query returns.
- **Controllers** (judge, team, project, user, admin) are methods on the store.
  - Each `ensures` states the whole new state of every collection it touches, together with the reply.
  - A handler requires only what the database itself guarantees: every document is stored under its own id, and the unique indexes hold. It serves any other state the way the source does.
  - Separate lemmas prove the invariants each handler keeps, and each handler ensures that an invariant which held before still holds after:
    - the judging invariant: every project's total is the sum of its evaluations' weighted scores, and its average is that total over their count;
    - the team links: every member of a team points back at it, and every user's team lists the user;
    - the team/project correspondence.
- **Middleware** (role guards, error handler, upload configuration) are functions from the request and the looked-up documents to the reply or to the next step.
- **Utilities** (paging, slugs, file names, grouping, validators) are functions and, where the source loops, methods with loop invariants. Each is proved against its meaning: shape, idempotence, order or partition.
- **Front-end modules** keep only their pure logic:
  - score clamping and the all-scored gate;
  - list parsing;
  - the leaderboard's in-place sort and ranks;
  - the time-remaining arithmetic and the countdown's padding;
  - the search filter, invite-code normalisation and the status badges.

Scores are `real`, with no rounding. Strings are sequences of characters. Case mapping and blank detection follow JavaScript on ASCII text.

Eight places where the code does not do what it evidently means are listed under "## Findings". For each one the model states the behaviour as written and proves the failing case. It also proves the intended behaviour of a corrected definition, which the rest of the model uses. The main case is the evaluation update. It reads the old weighted score (backend/controllers/judgeController.js:169) and moves the project total by the difference (:176-178), which only makes sense if the weighted score follows the new scores. But it writes with `findByIdAndUpdate`, which runs no pre-save hook, so the stored weighted score goes stale. That is Finding 1.

## Model

| member | source | states |
|---|---|---|
| EvaluationModel.CastCriterion | backend/models/Evaluation.js:15-62 | a criterion keeps its score and takes weight 25 when none is given |
| EvaluationModel.ParseRecommendation | backend/models/Evaluation.js:86-90 | a recommendation is accepted exactly when it is one of the four enumerated values |
| EvaluationModel.ScoreErrors | backend/models/Evaluation.js:16-21 | a criterion score has no validation error iff it lies in [0, 10] |
| EvaluationModel.AllScoreErrors | backend/models/Evaluation.js:14-63 | the four scores have no validation error iff every one lies in [0, 10] |
| EvaluationModel.FeedbackErrors | backend/models/Evaluation.js:72-85 | feedback has no validation error iff strengths and improvements have at most 1000 characters and general comments at most 2000 |
| EvaluationModel.ValidationErrors | backend/models/Evaluation.js:3-100 | a document passes schema validation iff its scores are in range, its feedback within bounds and its recommendation one of the enumerated values |
| EvaluationModel.Evaluation.constructor | backend/models/Evaluation.js:64-97 | a new document has total and weighted score 0, is not complete and has no submission time |
| EvaluationModel.Evaluation.PreSave | backend/models/Evaluation.js:103-126 | the hook sets the total to the sum of the four scores and the weighted score to the sum of score/10 times weight; it sets `isComplete` only when all four scores are non-zero and never clears it; it stamps `submittedAt` only on completion and only when absent |
| EvaluationModel.TotalBounds | backend/models/Evaluation.js:107 | with every score in [0, 10] the total lies in [0, 40] |
| EvaluationModel.PartBounds | backend/models/Evaluation.js:110-115 | one criterion's share lies between 0 and its weight |
| EvaluationModel.WeightedBounds | backend/models/Evaluation.js:110-115 | with scores in range and non-negative weights summing to 100, the weighted score lies in [0, 100] |
| EvaluationModel.DefaultWeightedScore | backend/models/Evaluation.js:110-115 | with the default weights of 25 the weighted score is 2.5 times the total, and lies in [0, 100] for scores in range |
| EvaluationModel.CastDefaults | backend/models/Evaluation.js:22-25 | scores given without weights get the default weight on every criterion |
| EvaluationModel.ScoreExamples | backend/models/Evaluation.js:107-115 | worked totals and weighted scores for three score sheets with default weights |
| EvaluationModel.PreSaveTwice | backend/models/Evaluation.js:103-126 | running the hook twice on unchanged scores gives the same totals, and the first completion time is never overwritten |
| ProjectModel.Stored | backend/models/Project.js:4-73 | the stored title is trimmed, the technology and feature lists keep their lengths, and the tagline and description stay as given |
| ProjectModel.StoredMeans | backend/models/Project.js:4-73 | the stored title, each technology and feature and the three URLs are trimmed, the list lengths are kept, and the tagline, description, problem statement and solution stay as given |
| ProjectModel.FieldError | backend/models/Project.js:4-21 | a string path reports at most one message, and none iff the value is present and its length within the path's bounds |
| ProjectModel.ContentErrors | backend/models/Project.js:4-72 | the content passes schema validation iff the length validators pass and every URL path is empty or matches its pattern |
| ProjectModel.LengthErrors | backend/models/Project.js:4-48 | the length validators pass iff title has 5..100 characters, tagline at most 200, description 50..5000, problem and solution at most 2000, all present |
| ProjectModel.UrlErrors | backend/models/Project.js:50-72 | the `match` validators pass iff demo and video URL are empty or match the URL pattern and the GitHub URL is empty or matches the GitHub pattern; at most one message per path |
| ProjectModel.UrlError | backend/models/Project.js:50-72 | one `match` validator reports its message exactly when the value is non-empty and does not match |
| ProjectModel.SiteUrlMatches | backend/models/Project.js:53-55 | `http://a.io` (scheme, host, dot, two-letter top-level part) matches the URL pattern |
| ProjectModel.WordsNoUrl | backend/models/Project.js:53-55 | `not a url`, which has no dot, does not match the URL pattern |
| ProjectModel.RepoUrlMatches | backend/models/Project.js:68-70 | `github.com/u/r` (owner and repository) matches the GitHub pattern |
| ProjectModel.TreeUrlNoRepo | backend/models/Project.js:68-70 | `github.com/u/r/t` names github.com but does not match the GitHub pattern |
| ProjectModel.Project.constructor | backend/models/Project.js:87-106 | a new project is a draft with no submission time, no evaluations and total and average score 0 |
| ProjectModel.Project.Submit | backend/models/Project.js:125-129 | `submit` sets the status to submitted and stamps the submission time; nothing else changes |
| ProjectModel.Project.CalculateAverageScore | backend/models/Project.js:132-139 | the average becomes 0 with no evaluations and the total over their count otherwise; only the average changes |
| ProjectModel.AverageMeaning | backend/models/Project.js:133-137 | the average of no evaluations is 0, and otherwise times the count gives back the total |
| ProjectModel.AverageBounds | backend/models/Project.js:137 | an average of totals bounded per evaluation stays within the same bound |
| ProjectModel.StoredIdempotent | backend/models/Project.js:4-73 | storing already stored content changes nothing |
| SubmissionModel.LateAfterSave | backend/models/Submission.js:63-73 | a late flag is never cleared; it can only be set on a new submission, and then is set iff an active hackathon exists and the submission time is strictly after its deadline |
| SubmissionModel.Submission.constructor | backend/models/Submission.js:19-35 | a new submission has version 1, is stamped with the current time and is not late |
| SubmissionModel.Submission.PreSave | backend/models/Submission.js:63-73 | the hook leaves the late flag as `LateAfterSave` decides and changes nothing else |
| SubmissionModel.AtDeadlineNotLate | backend/models/Submission.js:68 | a submission exactly at the deadline is not late, one a millisecond after it is |
| HackathonModel.DurationHours | backend/models/Hackathon.js:178-181 | the duration is the floor of the span in hours: h whole hours fit and h + 1 do not |
| HackathonModel.Hackathon.Default | backend/models/Hackathon.js:22-66 | a default configuration has the default calendar, status upcoming, maximum team size 4 and is active |
| HackathonModel.Hackathon.UpdateStatus | backend/models/Hackathon.js:159-175 | `updateStatus` sets the phase the first matching date test selects, and keeps the status when no test matches; only the status changes |
| HackathonModel.PhaseWindows | backend/models/Hackathon.js:162-171 | on an ordered calendar each date window selects its phase: upcoming, registration open, ongoing, judging, completed |
| HackathonModel.PhaseGapsKeepStatus | backend/models/Hackathon.js:159-173 | between the submission deadline and judging, and between judging and results, the status is left as it was |
| HackathonModel.EarlierTestWins | backend/models/Hackathon.js:166-169 | while submissions are open the phase is ongoing, whatever the judging dates say |
| HackathonModel.DefaultCalendarFacts | backend/models/Hackathon.js:22-66 | the default dates are in order, span 71 whole hours, and the default team size 4 lies in [1, 10] |
| HackathonModel.NegativeDurationFloors | backend/models/Hackathon.js:179-180 | a negative span rounds down, so one millisecond short gives -1 hours |
| TeamModel.MemberCount | backend/models/Team.js:88-90 | the count includes the leader, who is not stored among the members, so it is never below 1 |
| TeamModel.PreSave | backend/models/Team.js:80-85 | the hook fills a missing invite code with the drawn one, keeps a present one, and changes no other field |
| TeamModel.ValidationErrors | backend/models/Team.js:3-50 | a team passes schema validation iff its name has 3..50 characters, it has an invite code, at most 1..6 members are allowed and its description has at most 500 characters |
| TeamModel.Without | backend/controllers/teamController.js:242-244 | filtering a user out of the member list leaves no entry for that user, keeps every other user's entry exactly as many times as it occurred, keeps the remaining entries in their order and never lengthens the list |
| TeamModel.LeaderIsMember | backend/models/Team.js:100 | the leader is always a member, whatever the member list holds |
| TeamModel.NonLeaderMembership | backend/models/Team.js:101 | a user other than the leader is a member iff some stored entry is theirs |
| TeamModel.RoomForOne | backend/models/Team.js:88-95 | appending one entry to a team that is not full raises the count by one and keeps it within the maximum |
| TeamModel.PreSaveKeepsCode | backend/models/Team.js:81 | once an invite code is set, later saves never change it |
| TeamModel.WithoutKeepsOthers | backend/controllers/teamController.js:242-244 | filtering one user out keeps every other user's membership as it was |
| TeamModel.WithoutAbsent | backend/controllers/teamController.js:242-244 | filtering out a user with no entry leaves the list unchanged |
| CategoryModel.ValidationErrors | backend/models/Category.js:3-48 | a category passes schema validation iff its stored name is not empty, its description has 1..500 characters, its prize is not negative and every criterion weight lies in [0, 100]; a missing name is reported first, and a weight out of range is reported with Mongoose's default message quoting the value |
| CategoryModel.CriteriaErrors | backend/models/Category.js:40-48 | the criteria from a position on have no error iff each weight lies in [0, 100]; a weight below 0 gives "Path `weight` (<value>) is less than minimum allowed value (0).", one above 100 "… (<value>) is more than maximum allowed value (100).", one message per offending criterion |
| Text.NumberText | backend/models/Category.js:43-47 | `String(x)` of a whole number is `IntText` of it; the text starts with '-' iff the number is negative |
| Text.NumberTextExamples | backend/models/Category.js:43-47 | -5, 150 and 100.5 are written "-5", "150" and "100.5" |
| CategoryModel.Category.constructor | backend/models/Category.js:3-63 | a new category has its trimmed name, no slug yet and is active |
| CategoryModel.Category.PreSave | backend/models/Category.js:66-74 | the slug is recomputed from the name only when the name was modified, and is then a well-formed slug; otherwise it is left as it was |
| CategoryModel.StripDashesFacts | backend/models/Category.js:71 | removing one leading and one trailing '-' from a dash-separated string of slug characters leaves a well-formed slug |
| CategoryModel.SlugShape | backend/models/Category.js:68-71 | every slug holds only a-z, 0-9 and '-', never "--", and does not start or end with '-' |
| CategoryModel.SlugOfNoAlphanumerics | backend/models/Category.js:70-71 | a name without letters or digits gives the empty slug |
| CategoryModel.SlugFixed | backend/models/Category.js:68-71 | a well-formed slug is its own slug |
| CategoryModel.SlugIdempotent | backend/models/Category.js:68-71 | slugging a slug returns it unchanged |
| Database.SumAppend | backend/controllers/judgeController.js:107-108 | appending an evaluation to a list adds exactly its weighted score to the list's sum |
| Database.SumRebalance | backend/controllers/judgeController.js:177-178 | replacing one listed evaluation's weighted score changes the sum by new minus old, when the list has no duplicates |
| Database.Appended | backend/controllers/judgeController.js:107-109 | a submitted evaluation is appended at the end of the project's list, the total grows by its weighted score and the count by one |
| Database.Rebalanced | backend/controllers/judgeController.js:177-179 | an edit keeps the evaluation list and moves the total by the new minus the old weighted score |
| Database.ListedIffPointing | backend/controllers/judgeController.js:107 | in a consistent store an evaluation is on a project's list iff it points at that project |
| Database.AddKeepsConsistent | backend/controllers/judgeController.js:107-109 | appending a new evaluation for a project that judge has not yet evaluated keeps every total equal to the sum of its listed weighted scores, every average equal to total over count, and at most one evaluation per (project, judge) |
| Database.AddKeepsAggregated | backend/controllers/judgeController.js:107-109 | appending an evaluation keeps every project's total and average in agreement with its list |
| Database.RejudgeKeepsConsistent | backend/controllers/judgeController.js:171-174 | handing an evaluation to a judge with no other evaluation of its project keeps the store consistent |
| Database.RebalanceKeepsConsistent | backend/controllers/judgeController.js:177-179 | rebalancing by old versus new weighted score keeps the store consistent when the evaluation keeps its project |
| Database.Store.constructor | backend/models/Evaluation.js:129 | an empty database holds no documents of any kind |
| Database.HasEvaluationLinks | backend/models/Evaluation.js:129 | a stored evaluation of a project by a judge exists iff the links say so |
| Database.EmptyValid | backend/models/Project.js:95-106 | a store with no projects and no evaluations satisfies the judging invariant |
| JudgeController.ParseListing | backend/controllers/judgeController.js:10-43 | the query selects the evaluated listing exactly for the text "true", the unevaluated one exactly for "false", and the full listing otherwise |
| JudgeController.Pick | backend/controllers/judgeController.js:25-53 | a filtered listing is never longer than the query result |
| JudgeController.GetProjectsForEvaluation | backend/controllers/judgeController.js:9-66 | without a recognised `evaluated` value the query result is returned as it is; otherwise it is filtered, in order, to the projects the judge has (or has not) evaluated |
| JudgeController.EvaluatedByMeans | backend/controllers/judgeController.js:27-50 | a project is among those the judge evaluated iff an evaluation of it by that judge is stored |
| JudgeController.PickMembers | backend/controllers/judgeController.js:26-53 | a project is in a filtered listing iff it is in the query result and its evaluated state is the one wanted |
| JudgeController.PickSplit | backend/controllers/judgeController.js:24-58 | the two filtered listings together are as long as the query result |
| JudgeController.PickAscending | backend/controllers/judgeController.js:18-53 | filtering keeps the earliest-submission-first order of the query |
| JudgeController.ListingsPartition | backend/controllers/judgeController.js:12-59 | for a judge, the evaluated and unevaluated listings partition the wanted submitted projects by whether the judge evaluated them, and each stays in ascending submission order |
| JudgeController.JudgeStatsOf | backend/controllers/judgeController.js:191-207 | the statistics report the two counts, pending plus evaluated equals the total, and the rate is 0 when there are no projects |
| JudgeController.JudgeStatsBounds | backend/controllers/judgeController.js:200-206 | pending is negative exactly when the judge has more evaluations than counted projects; otherwise the rate lies in [0, 100] and is 100 exactly when nothing is pending |
| JudgeController.RatioFacts | backend/controllers/judgeController.js:206 | a share of a positive whole is not negative, at most 1 when the part does not exceed the whole, and 1 exactly when they are equal |
| JudgeController.SubmitEvaluation | backend/controllers/judgeController.js:71-130 | in any stored state: a missing project gives 404 and an existing (project, judge) pair gives 400, both changing nothing; a body the schema rejects gives the validation reply; otherwise 201, the new evaluation has its totals derived, it is appended to its project, the total grows by its weighted score, the average follows and the status becomes under_review; a consistent judging state stays consistent and derived totals stay derived |
| JudgeController.Record | backend/controllers/judgeController.js:98-111 | in any stored state, the new evaluation gets its derived totals and is appended to its project, which moves to under_review; derived totals elsewhere stay derived |
| JudgeController.Create | backend/controllers/judgeController.js:98-104 | `Evaluation.create` stores a new evaluation with the hook's derived totals and links it to the project and judge, whatever the other evaluations hold |
| JudgeController.Attach | backend/controllers/judgeController.js:107-111 | the project's list gains the new id at the end, its total grows by the weight, its average follows and its status is under_review |
| JudgeController.UpdateEvaluation | backend/controllers/judgeController.js:156-186 | in any stored state, only an evaluation owned by the requesting judge is found, otherwise 404 and nothing changes; a rejected body or a clash with the unique index changes nothing; otherwise the update is written as `Written` states |
| JudgeController.DuplicatePairReply | backend/middleware/errorHandler.js:16-20 | a breach of the (project, judge) index answers 400 "project already exists" |
| JudgeController.UpdateOwned | backend/controllers/judgeController.js:169-180 | for a found evaluation in any stored state, a body the validators reject is refused and changes nothing; any other goes on to the unique index |
| JudgeController.UpdateIndexed | backend/controllers/judgeController.js:171-174 | in any stored state, an update that would give the judge a second evaluation of a project is refused by the index and changes nothing; any other is written |
| JudgeController.UpdateValidated | backend/controllers/judgeController.js:169-180 | an accepted update is written in any stored state; a consistent judging state stays consistent when the evaluation keeps its own, existing project, even when the body hands it to another judge the index allows |
| JudgeController.Write | backend/controllers/judgeController.js:169-180 | the evaluation takes the body's project, judge and scores, the stored weighted score, and any total, completion flag or time the body carries; the named project's total moves from the old weighted score to the stored one, or the handler fails with 500 when that project does not exist |
| JudgeController.RebalanceValid | backend/controllers/judgeController.js:177-179 | a rebalance that leaves the evaluation with its project keeps the judging invariant |
| JudgeController.RewriteValid | backend/controllers/judgeController.js:171-179 | a rebalance that leaves the evaluation with its project keeps the judging invariant when the body also hands it to a judge with no other evaluation of that project |
| JudgeController.ApplyUpdate | backend/controllers/judgeController.js:171-174 | `findByIdAndUpdate` replaces project, scores and, when given, the judge; keeps feedback, recommendation, total, completion and time unless given; and does not re-derive the weighted score |
| JudgeController.ApplyComments | backend/controllers/judgeController.js:171-174 | the update replaces feedback and recommendation only when given |
| JudgeController.ApplyScores | backend/controllers/judgeController.js:171-174 | the update replaces project and scores, the judge and the weighted score only when the body carries them |
| JudgeController.ApplyStatus | backend/controllers/judgeController.js:171-174 | the update writes the total, completion flag and submission time the body carries and keeps the others; the judging links do not change |
| JudgeController.TamperedBodyExample | backend/controllers/judgeController.js:171-174 | a body with total 99 over four scores of 10 leaves a stored total that is not the sum of the scores, and a body naming judge 200 hands judge 100's evaluation over |
| JudgeController.Rebalance | backend/controllers/judgeController.js:177-180 | the project's total becomes total minus old plus new, with the evaluation count kept and the average recomputed |
| JudgeController.StaleWeightExample | backend/controllers/judgeController.js:169-180 | raising all four scores to 10 leaves the project's total and average unchanged, where re-deriving the weighted score would raise them |
| JudgeController.RepointBreaksConsistency | backend/controllers/judgeController.js:171-179 | an update that moves an evaluation to another project breaks the judging invariant |
| JudgeController.ReweighUnlisted | backend/controllers/judgeController.js:171-174 | changing the weight of an evaluation whose project does not exist keeps the store consistent |
| JudgeController.UpdateEvaluationFixed | backend/controllers/judgeController.js:156-186 | the corrected update keeps the evaluation's project and judge, ignores any totals the body carries, re-derives its weighted score and rebalances that project, keeping the judging invariant and every derived total |
| JudgeController.RescoreAndRebalance | backend/controllers/judgeController.js:169-180 | the corrected write re-derives the weight and rebalances the evaluation's own project, keeping the invariant |
| JudgeController.FixedWrite | backend/controllers/judgeController.js:169-180 | the evaluation gets the body's scores and a derived weight; its own project moves from the old weight to the new, or the handler fails with 500 when it is missing |
| JudgeController.Rescore | backend/models/Evaluation.js:103-126 | saving the updated evaluation through its hook derives the weighted score from the new scores and changes no aggregate |
| JudgeController.Overwrite | backend/controllers/judgeController.js:171-174 | the corrected update replaces scores, and feedback and recommendation when given, leaving the links alone |
| JudgeController.Save | backend/models/Evaluation.js:103-126 | saving the one changed evaluation makes every stored total derived again |
| ProjectController.Owners | backend/controllers/projectController.js:63-78 | every stored project, and only those, has an owning team |
| ProjectController.CreateKeepsOwned | backend/controllers/projectController.js:59-79 | recording a new project on a team without one keeps teams and projects pointing at each other |
| ProjectController.DeleteKeepsOwned | backend/controllers/projectController.js:229-232 | deleting a project and clearing its team's reference keeps teams and projects pointing at each other |
| ProjectController.AddProjectKeepsConsistent | backend/models/Project.js:95-106 | a new project with no evaluations and zero scores keeps the judging invariant |
| ProjectController.RemoveProjectKeepsConsistent | backend/controllers/projectController.js:229 | removing a project keeps the judging invariant of the others |
| ProjectController.ServedPath | backend/config/multer.js:15-23 | project files are served under /uploads/projects/ and screenshots under /uploads/ |
| ProjectController.ScreenshotPathMismatch | backend/controllers/projectController.js:51-55 | the recorded path of an uploaded file matches where a project file is stored but not where a screenshot is stored |
| ProjectController.RecordOf | backend/controllers/projectController.js:42-47 | a file record keeps the original name, size and type, with the path under /uploads/projects/ |
| ProjectController.Records | backend/controllers/projectController.js:40-49 | one record per uploaded project file, in upload order |
| ProjectController.Shots | backend/controllers/projectController.js:51-55 | one path per screenshot, in upload order, where the screenshot is actually stored |
| ProjectController.RecordFiles | backend/controllers/projectController.js:39-49 | the loop builds exactly one record per uploaded project file, in order |
| ProjectController.ScreenshotPaths | backend/controllers/projectController.js:51-55 | the loop builds exactly one path per screenshot, in order |
| ProjectController.RouteContentValid | backend/utils/validators.js:82-106 | content the route's validators accept passes the project schema's length validators once sanitised and stored |
| ProjectController.SchemaErrors | backend/controllers/projectController.js:59-75 | `Project.create` refuses the content iff the stored content fails the schema; for content the route accepted, only URL messages can remain |
| ProjectController.RouteLetsPageUrlThrough | backend/utils/validators.js:116-119 | a GitHub URL `github.com/u/r/t` passes the route's github.com check but the schema refuses it with "Please provide a valid GitHub URL" |
| ProjectController.StoreProject | backend/controllers/projectController.js:59-75 | `Project.create` adds one draft with the given content, files and screenshots, no evaluations and zero total, leaving all other projects alone |
| ProjectController.SaveIgnoresProject | backend/controllers/projectController.js:78-79 | setting the team's project reference does not change whether the team passes validation |
| ProjectController.CreateRefusal | backend/controllers/projectController.js:17-64 | a caller without a team gets 400; a team that already has a project gets 400; a missing team or category makes the handler fail on null; otherwise no refusal |
| ProjectController.CreateProject | backend/controllers/projectController.js:10-85 | a refused creation changes nothing; content the schema refuses is answered with its messages and nothing is stored; otherwise one new draft holds the uploads, and the team records it when its save succeeds |
| ProjectController.CreateForTeam | backend/controllers/projectController.js:36-84 | content the schema refuses gives the validation reply and stores nothing; otherwise the new draft is stored with the team's category, and the team's save records it or fails with a validation reply |
| ProjectController.CreateValid | backend/controllers/projectController.js:36-84 | with content the schema accepts, one valid draft is stored with the uploads, and the team's save records it or fails with a validation reply |
| ProjectController.SaveTeam | backend/controllers/projectController.js:78-79 | a valid team records the project and answers 201; an invalid one keeps the team as it was and answers with its validation errors |
| ProjectController.CreateKeepsInvariants | backend/controllers/projectController.js:59-79 | a successful creation keeps the judging invariant and the team/project correspondence |
| ProjectController.FailedSaveOrphans | backend/controllers/projectController.js:59-79 | when the team's save fails after the project was created, the new project is an orphan its team does not name |
| ProjectController.MarkSubmitted | backend/controllers/projectController.js:109 | `submit` marks the project submitted at the current time and leaves the judging state alone |
| ProjectController.StoreSubmission | backend/controllers/projectController.js:112-117 | the new submission is for the project's team and project, by the caller, status submitted, version 1, stamped now, late iff after the deadline |
| ProjectController.SubmitRefusal | backend/controllers/projectController.js:91-106 | a missing project gives 404; a missing team makes the handler fail on null; a caller from another team gets 403; otherwise no refusal |
| ProjectController.SubmitProject | backend/controllers/projectController.js:90-131 | a refused submission changes nothing; otherwise the project is submitted and one submission created, unless the team already has one, which the (team, version) index refuses |
| ProjectController.DuplicateTeamReply | backend/middleware/errorHandler.js:16-20 | a second submission of a team answers 400 "team already exists" |
| ProjectController.PatchErrors | backend/controllers/projectController.js:205-208 | a partial update passes the validators iff each given field is within its length bounds and each given URL is empty or matches its pattern |
| ProjectController.PatchLengthErrors | backend/controllers/projectController.js:205-208 | the length validators pass iff each given text path is within its schema bounds |
| ProjectController.PatchUrlErrors | backend/controllers/projectController.js:205-208 | the `match` validators pass iff each given URL path, trimmed, is empty or matches its pattern |
| ProjectController.PatchKeepsValid | backend/controllers/projectController.js:205-208 | an accepted partial update of valid content leaves it valid |
| ProjectController.EmptyPatch | backend/controllers/projectController.js:205 | an update with no fields leaves the content as it was |
| ProjectController.PatchIdempotent | backend/controllers/projectController.js:205 | applying the same update twice is the same as applying it once |
| ProjectController.UpdateProject | backend/controllers/projectController.js:187-214 | as written: a refused update (see UpdateRefusal) changes nothing; otherwise 200, and every path of the body is written, its team, category, status, submission time, evaluation list, total and average included |
| ProjectController.UpdateRefusal | backend/controllers/projectController.js:190-208 | a missing project gives 404; a project in status submitted gives 400; a body the validators refuse gives the validation reply; otherwise the update goes ahead |
| ProjectController.Edit | backend/controllers/projectController.js:205-208 | `findByIdAndUpdate` with the whole body replaces each path the body carries and keeps the others, the judging state's view of the project included |
| ProjectController.TamperedTotalBreaksConsistency | backend/controllers/projectController.js:205-208 | a body carrying a total other than the sum of the project's evaluation weights leaves the judging invariant broken |
| ProjectController.ReassignedTeamBreaksOwned | backend/controllers/projectController.js:205-208 | a body naming another team moves the project so that teams and projects no longer point at each other |
| ProjectController.UpdateProjectFixed | backend/controllers/projectController.js:187-214 | the corrected update has the same refusals, writes only the content paths, keeps the judging state and the project's team, and keeps valid content valid |
| ProjectController.EditContent | backend/controllers/projectController.js:205-208 | writing the content paths only patches the content and leaves the judging state and every project's team alone |
| ProjectController.UnderReviewEditable | backend/controllers/projectController.js:198 | only status submitted blocks an update: an accepted body for a draft, or a project under review or reviewed, is not refused |
| ProjectController.DeleteProject | backend/controllers/projectController.js:219-238 | a missing project gives 404 and changes nothing; otherwise the project is removed and its team's reference cleared |
| ProjectController.Unlinked | backend/controllers/projectController.js:232 | clearing one team's project reference leaves every other team as it was |
| ProjectController.DropProject | backend/controllers/projectController.js:229 | `deleteOne` removes exactly that project |
| ProjectController.DeleteKeepsInvariants | backend/controllers/projectController.js:229-232 | deleting a project keeps the judging invariant and the team/project correspondence |
| ProjectController.MemberGuardIgnoresProject | backend/routes/projectRoutes.js:20-21 | the member guard on update and delete passes a member of any team, even one that does not own the project |
| ProjectController.MemberOfProject | backend/routes/projectRoutes.js:20 | the corrected guard passes exactly a member of the project's own team; a missing project gives 404 |
| ProjectController.LeaderOfProject | backend/controllers/projectController.js:216-219 | the corrected guard for deletion passes exactly the leader of the project's own team; a missing project gives 404 |
| ProjectController.UpdateOwnProject | backend/controllers/projectController.js:187-214 | an update behind the corrected guard succeeds only for a member of the project's team, then patches the content only, and keeps the judging state |
| ProjectController.DeleteOwnProject | backend/controllers/projectController.js:216-238 | a deletion behind the corrected guard succeeds only for the project's team leader, and then removes the project and clears the reference |
| ProjectController.RankOrder | backend/controllers/projectController.js:147-150 | the listing order (average descending, then submission time descending) is total and transitive |
| ProjectController.RankedHead | backend/controllers/projectController.js:147-150 | the first listed project has the highest average |
| ProjectController.Filtered | backend/controllers/projectController.js:137-142 | exactly the projects matching the category and status filters are listed, in stored order, each as many times as it is stored |
| TeamController.UsersOf | backend/controllers/teamController.js:275 | the users of the member entries, one per entry, in order |
| TeamController.MemberIds | backend/controllers/teamController.js:275 | the leader followed by the member users: as many ids as the member count |
| TeamController.MemberIdsMeans | backend/controllers/teamController.js:275 | a user is among the team's member ids iff `isMember` holds for them |
| TeamController.ListedAppend | backend/controllers/teamController.js:165-168 | after appending an entry, a user has an entry iff they had one or the new entry is theirs |
| TeamController.NewTeam | backend/controllers/teamController.js:32-40 | a new team is led by the caller, has no other members, carries the drawn invite code, and allows 4 members when none is given |
| TeamController.Joined | backend/controllers/teamController.js:165-168 | joining appends exactly one member entry for the caller with role member, at the end |
| TeamController.Holder | backend/controllers/teamController.js:147 | the invite-code lookup finds a team iff an active team carries that code, and then that team |
| TeamController.DuplicateNameHandled | backend/middleware/errorHandler.js:16-20 | a second team with a taken name answers 400 "name already exists" |
| TeamController.CreateTeam | backend/controllers/teamController.js:11-53 | in any state with unique invite codes: a caller already in a team gets 400, an unknown category 404, a taken name 400, each changing nothing; otherwise 201, one new valid team led by the caller and the caller's team set to it; linked users and teams stay linked |
| TeamController.JoinTeam | backend/controllers/teamController.js:135-183 | in any state with unique invite codes, refusals come in order: already in a team (400), no active team with the code (404), team full (400), each changing nothing; otherwise one entry is appended, the caller's team is set, and the member count grows by one and stays within the maximum; linked users and teams stay linked |
| TeamController.LeaveTeam | backend/controllers/teamController.js:188-220 | in any state, a missing team gives 404 and the leader gets 400, changing nothing; otherwise every entry of the caller is removed, the rest keep their order, and the caller's team is cleared; the link survives when it held and the caller was a member |
| TeamController.RemoveMember | backend/controllers/teamController.js:225-259 | in any state, a missing team gives 404 and removing the leader 400; otherwise the target's entries are filtered out and the target's team cleared even when the target belongs to another team; from a linked state the link breaks exactly then |
| TeamController.DeleteTeam | backend/controllers/teamController.js:264-287 | in any state, a missing team gives 404; otherwise the team is removed and the leader and every listed member have their team cleared; from a linked state the links are kept and no user still names the team |
| TeamController.Fields | backend/controllers/teamController.js:113-118 | name and maximum size are taken only when truthy, description and lookingForMembers whenever defined |
| TeamController.UpdateErrors | backend/controllers/teamController.js:114-124 | the update passes the validators iff each given field is within the schema bounds; a name that trims to "" gets "Please provide team name" before the length test |
| TeamController.BlankNameRequired | backend/controllers/teamController.js:114 | a name of three spaces is set, and the update is refused with "Please provide team name" |
| TeamController.UpdateTeam | backend/controllers/teamController.js:110-130 | in any state with unique invite codes, a rejected update gives the validation reply; otherwise the set fields are written to the team; no other team changes, and linked users and teams stay linked |
| TeamController.FieldsToUpdate | backend/controllers/teamController.js:113-118 | the field-by-field construction gives exactly the fields `Fields` selects |
| TeamController.UpdateValidated | backend/controllers/teamController.js:120-124 | an accepted update is applied to the found team, keeping the unique codes, and the link when it held |
| TeamController.MemberList | backend/controllers/teamController.js:304-315 | the leader comes first with role leader and the team's creation time, then each member in stored order with their own role and join time |
| TeamController.GetTeamMembers | backend/controllers/teamController.js:292-322 | a missing team gives 404; otherwise the count is the number of members plus one and the data is the member list |
| TeamController.MemberListUsers | backend/controllers/teamController.js:304-315 | the users listed are exactly the team's members in the sense of `isMember` |
| TeamController.CreateKeepsLinked | backend/controllers/teamController.js:32-43 | creating a team for a teamless user keeps users and teams linked |
| TeamController.JoinKeepsLinked | backend/controllers/teamController.js:165-173 | joining keeps users and teams linked |
| TeamController.DropKeepsLinked | backend/controllers/teamController.js:246-253 | dropping a member of the team keeps users and teams linked |
| TeamController.DropAbsentKeepsLinked | backend/controllers/teamController.js:246-253 | dropping a user who has no team keeps the link |
| TeamController.DropStrangerUnlinks | backend/controllers/teamController.js:246-253 | dropping a user who belongs to another team clears their team and breaks the link |
| TeamController.DeleteKeepsLinked | backend/controllers/teamController.js:275-281 | deleting a team after clearing its members keeps the link, and nobody points at the deleted team |
| TeamController.UpdateKeepsLinked | backend/controllers/teamController.js:120-124 | an update does not touch leader or members, so the link is kept |
| TeamController.UpdateKeepsValid | backend/controllers/teamController.js:120-124 | an accepted update of a valid team leaves it valid |
| TeamController.UpdateTouchesOnlySet | backend/controllers/teamController.js:113-124 | only the fields set are written, the name trimmed, and applying the same update twice changes nothing more |
| TeamController.LeaveOtherTeamUnlinks | backend/middleware/roleMiddleware.js:66 | with the member guard's fallback to the caller's own team, a member of one team can leave another team, which breaks the link |
| TeamController.RouteGuardedLeaveKeepsLinked | backend/routes/teamRoutes.js:23 | when the guard checks the team named in the route, a caller who passes and is not the leader belongs to that team, and leaving keeps the link |
| RoleMiddleware.Or | backend/middleware/roleMiddleware.js:26 | the logical or of two ids gives the first one present, and one is present iff either is |
| RoleMiddleware.Authorize | backend/middleware/roleMiddleware.js:2-20 | no user gives 401; a role not among the allowed gives 403 naming the role; otherwise the request goes on |
| RoleMiddleware.TeamIdOf | backend/middleware/roleMiddleware.js:26 | the leader guard's team id is the route parameter when present, else the body's id as given |
| RoleMiddleware.IsTeamLeader | backend/middleware/roleMiddleware.js:23-60 | the guard lets through only the leader of the team it looks up; it answers 500 "Error checking team leadership" exactly when the id it reads is not an ObjectId, and otherwise stops with a status between 400 and 404 |
| RoleMiddleware.MemberTeamIdOf | backend/middleware/roleMiddleware.js:66 | the member guard's team id is the one the request names, else the caller's own team |
| RoleMiddleware.IsTeamMember | backend/middleware/roleMiddleware.js:63-102 | the guard lets through only a member of the team it looks up; it answers 500 "Error checking team membership" exactly when the id it reads is not an ObjectId, and otherwise stops with a status between 400 and 404 |
| RoleMiddleware.LeaderGuardOrder | backend/middleware/roleMiddleware.js:26-59 | the leader guard answers 400 without a team id, 500 for an id that is not an ObjectId, 404 for an unknown team, 403 for someone else's team, and passes exactly on a team the caller leads, attaching it |
| RoleMiddleware.MemberGuardOrder | backend/middleware/roleMiddleware.js:66-101 | the member guard answers 400, 500, 404 and 403 in the same order and passes exactly when the caller is a member of the team it settles on |
| RoleMiddleware.MalformedBodyIdIsServerError | backend/middleware/roleMiddleware.js:35-58 | a body team id such as "abc" makes either guard answer 500 through its catch block |
| RoleMiddleware.LeaderPassesMemberGuard | backend/middleware/roleMiddleware.js:44-84 | whoever passes the leader guard passes the member guard on the same team |
| RoleMiddleware.MemberGuardFallback | backend/middleware/roleMiddleware.js:66 | the member guard uses the caller's own team only when the request names none |
| RoleMiddleware.IsOwner | backend/middleware/roleMiddleware.js:105-140 | a missing resource gives 404; the request goes on exactly when the first present of user, createdBy and submittedBy is the caller, with the resource attached |
| RoleMiddleware.OwnerIsFirstPresent | backend/middleware/roleMiddleware.js:121-128 | a resource whose user is someone else is refused even when createdBy names the caller; with only submittedBy it counts; with no owner field the guard answers 500 |
| RoleMiddleware.LeaderGuardIgnoresRouteTeam | backend/middleware/roleMiddleware.js:26 | on the `:id` team routes the guard never sees the route's team: without a body id it refuses everyone, and a body id of another team the caller leads lets the request through |
| RoleMiddleware.RouteLeaderGuard | backend/routes/teamRoutes.js:21-25 | the corrected guard, reading the route's team, passes exactly the leader of that team and attaches it |
| RoleMiddleware.RouteMemberGuard | backend/routes/teamRoutes.js:23 | the corrected member guard passes exactly the members of the route's team, whatever the caller's own team |
| ErrorHandler.JoinMessages | backend/middleware/errorHandler.js:24 | joining a single message gives that message unchanged |
| ErrorHandler.Handle | backend/middleware/errorHandler.js:2-60 | every reply has a status (500 when none was set) and a message ("Server Error" when none was set) |
| ErrorHandler.NotFound | backend/middleware/errorHandler.js:63-68 | the catch-all answers 404 with a message that names the requested URL |
| ErrorHandler.NullDereferenceIsServerError | backend/middleware/errorHandler.js:52-54 | reading a property of `null` in a handler ends as a 500 carrying the runtime's message |
| ErrorHandler.UnrecognisedKeepsOwn | backend/middleware/errorHandler.js:3-54 | an error none of the tests recognise keeps its own status or 500 and its own message or "Server Error" |
| ErrorHandler.CastErrorIsNotFound | backend/middleware/errorHandler.js:10-13 | a malformed id is answered 404 "Resource not found" |
| ErrorHandler.DuplicateKeyNamesField | backend/middleware/errorHandler.js:16-20 | a duplicate key is answered 400 naming the first key, or "undefined" when there is none |
| ErrorHandler.ValidationJoinsMessages | backend/middleware/errorHandler.js:23-26 | a validation error is answered 400 with its field messages joined by ", " in order; a single message is sent as it is |
| ErrorHandler.ValidationClassified | backend/middleware/errorHandler.js:23-50 | no test after the validation test matches a validation error, so its classification is 400 and the joined messages |
| ErrorHandler.JoinPrefix | backend/middleware/errorHandler.js:24 | the joined message starts with the first field's message |
| ErrorHandler.LaterTestWins | backend/middleware/errorHandler.js:16-26 | the tests override each other in order: an error with code 11000 named "ValidationError" gets the validation message |
| ErrorHandler.JwtErrors | backend/middleware/errorHandler.js:29-37 | token errors are answered 401 with "Invalid token" or "Token expired" |
| ErrorHandler.MulterErrors | backend/middleware/errorHandler.js:40-50 | upload errors are answered 400, "File size too large" for the size limit and "File upload error" for an unknown code |
| Helpers.GetPagination | backend/utils/helpers.js:12-22 | page and limit default to 1 and 10; for a page of at least 1 the skipped items and one page make up `page` pages, and the default page skips nothing |
| Helpers.CeilDivMeans | backend/utils/helpers.js:26 | for a positive limit the page count is the least number of pages holding every item; a zero limit gives NaN for no items and Infinity otherwise |
| Helpers.FormatPagination | backend/utils/helpers.js:25-39 | the data, page, total and limit are passed through; for a positive limit there is a next page exactly when the pages up to this one hold fewer than all items; there is a previous page exactly when the page is above 1 |
| Helpers.BelowMeans | backend/utils/helpers.js:35 | `page < totalPages` holds exactly when `page * limit < total` |
| Helpers.PagingAgrees | backend/utils/helpers.js:12-39 | the two helpers agree: a next page exists exactly when the skipped items and this page are fewer than the total, and a page within the count starts before the last item |
| Helpers.SlugifyShape | backend/utils/helpers.js:80-90 | a slug holds only lower-case letters, digits, '_' and '-', never "--", and no '-' at either end |
| Helpers.KeptSlugChars | backend/utils/helpers.js:83-86 | after lower-casing, trimming, turning blanks into '-' and dropping the rest, only slug characters remain |
| Helpers.TidyDashesShape | backend/utils/helpers.js:87-89 | collapsing runs of '-' and stripping them from both ends yields the slug shape |
| Helpers.SlugifyFixed | backend/utils/helpers.js:80-90 | a text already of slug shape is its own slug |
| Helpers.SlugifyIdempotent | backend/utils/helpers.js:80-90 | slugifying twice is slugifying once |
| Helpers.SanitizeFacts | backend/utils/helpers.js:135-139 | the length is kept; letters, digits, '.' and '-' are kept lower-cased and every other character becomes '_'; the result is safe and sanitising it again changes nothing |
| Helpers.Uint32 | backend/utils/helpers.js:143 | `>>> 0` keeps a value in [0, 2^32) and adds 2^32 to a small negative one |
| Helpers.FileExtensionMeans | backend/utils/helpers.js:142-144 | the extension is the text after the last '.', and empty when there is no '.' or the only one opens the name; it never holds a '.' |
| Helpers.FileExtensionAgreesWithExtname | backend/utils/helpers.js:142-144 | for a plain file name other than "..", `path.extname` is the extension with its dot, or empty when the extension is |
| Uploads.ExtnameOfBaseName | backend/config/multer.js:25 | for a plain file name other than "..", `path.extname` is the text from the last '.' when that dot does not open the name |
| Helpers.FileExtensionOfDotDot | backend/utils/helpers.js:143 | for ".." both the extension and `path.extname` are empty although its last '.' is at index 1 |
| Helpers.Group | backend/utils/helpers.js:127-132 | a group holds only items of its key and no more items than the input |
| Helpers.GroupAbsent | backend/utils/helpers.js:127-132 | a key no item has gets an empty group |
| Helpers.GroupHasItem | backend/utils/helpers.js:129 | every item lands in the group of its own key |
| Helpers.GroupedStep | backend/utils/helpers.js:128-131 | pushing one more item onto the group of its key keeps every group equal to the items of that key, in input order |
| Helpers.GroupBy | backend/utils/helpers.js:127-132 | there is a group exactly for each key some item has, and each group is the items of that key in their original order |
| Helpers.RemoveSensitiveFields | backend/utils/helpers.js:42-48 | the copy has exactly the input's keys less the listed ones, with the same values |
| Helpers.Capitalize | backend/utils/helpers.js:166-168 | the length is kept, the first character is upper-cased and the rest lower-cased |
| Helpers.CapitalizeCase | backend/utils/helpers.js:166-168 | the input's case does not matter, and capitalising twice is capitalising once |
| Helpers.IsDateInRange | backend/utils/helpers.js:103-108 | true exactly when all three dates are valid and the date lies between start and end, both ends included |
| Helpers.DateRangeEnds | backend/utils/helpers.js:103-108 | both ends belong to a non-empty range, and nothing belongs to a range that ends before it starts |
| FormValidators.TrimmedError | frontend/src/utils/validators.js:89-95 | a trimmed field passes exactly when it is present and its trimmed length lies between the bounds; otherwise the required, too-short and too-long messages are given in that order |
| FormValidators.MixedOnOneLine | frontend/src/utils/validators.js:31 | on a one-line password the lookahead test holds exactly when the password has a lower-case letter, an upper-case letter and a digit |
| FormValidators.LineBreakDefeatsMixed | frontend/src/utils/validators.js:31 | the lookaheads do not cross a line break, so "a\nA1" fails the test although it has all three kinds of character |
| FormValidators.NameError | frontend/src/utils/validators.js:6-17 | a first or last name is refused exactly when its trimmed value is empty or shorter than 2 characters |
| FormValidators.EmailError | frontend/src/utils/validators.js:20-24 | an email is refused exactly when blank ("Email is required") or not of the shape `x@y.z` without blanks ("Please enter a valid email") |
| FormValidators.PasswordError | frontend/src/utils/validators.js:27-33 | a password is refused exactly when empty, shorter than 6 or missing one of the three kinds of character, with the message of the first failing test |
| FormValidators.ConfirmError | frontend/src/utils/validators.js:36-40 | the confirmation is refused exactly when empty or different from the password, emptiness reported first |
| FormValidators.Put | frontend/src/utils/validators.js:7 | recording an error sets that key only and leaves every other entry, and no error leaves the map as it was |
| FormValidators.ValidateRegistration | frontend/src/utils/validators.js:2-43 | the result has only the five fields' keys and reports exactly each field's own error |
| FormValidators.ValidateLogin | frontend/src/utils/validators.js:46-60 | the email is checked as in registration and the password only for presence |
| FormValidators.TeamNameError | frontend/src/utils/validators.js:66-72 | a team name passes exactly when its trimmed length is between 3 and 50; otherwise the required, too-short or too-long message is given |
| FormValidators.ValidateTeam | frontend/src/utils/validators.js:63-83 | the result reports the name error, a missing category, and a description longer than 500 characters, and nothing else |
| FormValidators.GithubError | frontend/src/utils/validators.js:127-133 | a given repository link is refused exactly when it is not a URL or does not contain "github.com", the URL test first; an absent one passes |
| FormValidators.TitleError | frontend/src/utils/validators.js:89-95 | a title passes exactly when its trimmed length is between 5 and 100; otherwise the required, too-short or too-long message is given |
| FormValidators.DescriptionError | frontend/src/utils/validators.js:103-109 | a description passes exactly when its trimmed length is between 50 and 5000; otherwise the required, too-short or too-long message is given |
| FormValidators.TaglineError | frontend/src/utils/validators.js:97-101 | a tagline is refused exactly when blank ("Tagline is required") or longer than 200 once trimmed ("Tagline cannot exceed 200 characters") |
| FormValidators.LongTextError | frontend/src/utils/validators.js:111-121 | a problem statement or a solution is refused exactly when blank or longer than 2000 characters once trimmed, with "<field> is required" or "<field> cannot exceed 2000 characters" |
| FormValidators.DemoError | frontend/src/utils/validators.js:123-125 | a given demo link is refused exactly when it is not a URL; an absent one passes |
| FormValidators.ValidateProject | frontend/src/utils/validators.js:86-136 | the result has only the seven fields' keys and reports exactly each field's own error |
| FormValidators.CapitalizeFirst | frontend/src/utils/validators.js:198-200 | the first character is upper-cased and the rest kept as it is |
| FormValidators.ScoreError | frontend/src/utils/validators.js:145-150 | a score is refused exactly when missing, null, empty text or a number outside [0, 10], a missing one with "<Criterion> score is required" |
| FormValidators.ValidateEvaluation | frontend/src/utils/validators.js:139-154 | the result has only the four criteria as keys and reports exactly each criterion's own score error |
| FormValidators.ProblemText | frontend/src/utils/validators.js:160-182 | every problem has a message; a size problem has one when the limit is a whole number of megabytes |
| FormValidators.ValidateFile | frontend/src/utils/validators.js:157-186 | no file gives the one "No file selected" problem; otherwise a too-large file and a type outside the allowed list are reported, size first, and nothing else |
| FormValidators.DefaultSizeMessage | frontend/src/utils/validators.js:157-166 | worked example: with the default limit the size message reads "File size exceeds 10MB" |
| UserController.Select | backend/controllers/userController.js:84-86 | a field is kept exactly when it belongs to the list and its filledness is the one asked for |
| UserController.SelectPartition | backend/controllers/userController.js:83-86 | the completed and missing fields split the required fields: their counts add up, each keeps the order of the list, and every field is in exactly one of them |
| UserController.Round | backend/controllers/userController.js:85 | `Math.round` picks the whole number nearest to the quotient, halves rounded up |
| UserController.Completeness | backend/controllers/userController.js:83-86 | completeness lies in [0, 100], is 100 exactly when nothing is missing and 0 exactly when nothing is completed |
| UserController.CompletenessBounds | backend/controllers/userController.js:85 | rounding `k / 7 * 100` never passes 100, reaches 100 only at k = 7 and 0 only at k = 0 |
| UserController.UserStats | backend/controllers/userController.js:67-108 | the profile part is the completeness and the missing fields; the team summary is there exactly when the user has a team, names it, counts its members, says whether the user leads it, and the submissions are that team's projects |
| UserController.Matching | backend/controllers/userController.js:123-130 | a user is found exactly when active and matching the query in a name or the email, as many times as the collection order names it |
| UserController.MatchingInOrder | backend/controllers/userController.js:123-130 | the found users keep the store's order |
| UserController.Cap | backend/controllers/userController.js:132 | a limit of 0 sets no limit, and any other limit caps the result at its size |
| UserController.SearchUsers | backend/controllers/userController.js:113-139 | a missing or empty query is answered 400; otherwise the result holds only active matching users in store order, at most the limit, and they are exactly the first matches in store order: every match when the limit was not reached |
| UserController.PrefixInOrder | backend/controllers/userController.js:132 | cutting the result to the limit keeps it in store order |
| UserController.Pulled | backend/controllers/userController.js:157-161 | only the user's own team changes, and the user is no longer among its members |
| UserController.DeleteAccount | backend/controllers/userController.js:144-170 | a team leader is refused with 400 and nothing changes; anyone else is pulled from their team's members and deleted, and nothing else changes |
| UserController.DeleteAccountKeepsLinked | backend/controllers/userController.js:148-164 | deleting a non-leader keeps every team member pointing at its team and every user's team listing the user |
| AdminController.Selection | backend/controllers/adminController.js:94-105 | a user is selected exactly when it has the asked role (if any) and matches the search in a name or the email (if any), in store order |
| AdminController.Window | backend/controllers/adminController.js:109-110 | skipping and limiting gives the selected users from position `skip` on, as many as the limit allows, in order |
| AdminController.GetAllUsers | backend/controllers/adminController.js:91-121 | page 1 and limit 20 are the defaults; a negative skip is refused by the database; otherwise the reply counts all selected users, gives `Math.ceil(count / limit)` pages, and its users are exactly the `Window` of the selection from `(page - 1) * limit`, so a page holds the limit or the remainder |
| AdminController.EveryUserOnItsPage | backend/controllers/adminController.js:109-117 | for a positive limit every selected user appears on exactly the page its position gives, and that page is within the page count |
| AdminController.UpdateUserRole | backend/controllers/adminController.js:126-146 | a role outside participant, judge and admin is answered 400 and nothing changes; otherwise the user, if it exists, gets exactly that role and nothing else changes, and a missing user yields 200 with no data |
| AdminController.Toggled | backend/controllers/adminController.js:161 | only `isActive` changes, and it is negated |
| AdminController.ToggleTwice | backend/controllers/adminController.js:161-162 | toggling a user twice restores the store |
| AdminController.ToggleUserStatus | backend/controllers/adminController.js:151-169 | a missing user gives 404 and nothing changes; otherwise only that user's `isActive` is negated and the message says activated or deactivated accordingly |
| AdminController.GetHackathonConfig | backend/controllers/adminController.js:201-212 | the reply is always an active configuration in the store; an existing active one leaves the store as it was, otherwise a new default one is added |
| AdminController.TeamsUsing | backend/controllers/adminController.js:286 | the count is 0 exactly when no team has the category |
| AdminController.DeleteCategory | backend/controllers/adminController.js:275-301 | a missing category gives 404, one used by n teams gives 400 naming n, and otherwise only that category is removed; when every team had a stored category it still has one |
| AdminController.ExportFilename | backend/controllers/adminController.js:312-328 | exactly the four kinds users, teams, projects and submissions have a file, named `<kind>.json` |
| AdminController.ExportReply | backend/controllers/adminController.js:329-334 | any other kind is answered 400 "Invalid export type" |
| Uploads.LastIndexOf | backend/config/multer.js:34 | the result is -1 or a position holding the character, and no later position holds it |
| Uploads.LastIndexOfIs | backend/config/multer.js:34 | any position holding the character with none after it is the last index |
| Uploads.Basename | backend/config/multer.js:34 | a base name holds no '/' |
| Uploads.Extname | backend/config/multer.js:34 | an extension is empty or starts with '.', and holds no '/' and no other '.' |
| Uploads.Destination | backend/config/multer.js:15-23 | project files go to uploads/projects, profile pictures to uploads/profiles and every other field, screenshots included, to uploads |
| Uploads.StoredNameKeepsExtension | backend/config/multer.js:24-27 | the stored name, field name + '-' + suffix + extension, has the extension of the original name |
| Uploads.ExtnameAfterStem | backend/config/multer.js:26 | appending an extension to a stem without dots gives back that extension |
| Uploads.PlainBasename | backend/config/multer.js:26 | a name without '/' is its own base name |
| Uploads.LastDotOfExtension | backend/config/multer.js:26 | the last '.' of stem + extension is the extension's dot |
| Uploads.Screen | backend/config/multer.js:31-42 | a file passes exactly when its lower-cased extension and its MIME type both mention an allowed type; otherwise the request ends 400 with the fixed "Invalid file type" message |
| Uploads.UploadErrorReply | backend/middleware/uploadMiddleware.js:4-12 | every upload error is answered 400 with its own message, or "File upload error" when it has none |
| Uploads.Mentions | backend/config/multer.js:33 | an allowed word anywhere in the text is a match |
| Uploads.FilterIgnoresCase | backend/config/multer.js:34 | the extension's case does not matter to the filter |
| Uploads.LowerExtension | backend/config/multer.js:34 | lower-casing an extension keeps its shape |
| Uploads.FilterIsUnanchored | backend/config/multer.js:33-37 | the test has no anchors: a ".mp4v" file with an allowed MIME type passes |
| Uploads.Mp4vExtension | backend/config/multer.js:34 | the extension of stem + ".mp4v" is ".mp4v" |
| Uploads.Mp4vLowerCase | backend/config/multer.js:34 | ".mp4v" is already lower case |
| Uploads.Mp4vMentionsMp4 | backend/config/multer.js:33 | ".mp4v" contains "mp4" |
| Uploads.FilterNeedsExtension | backend/config/multer.js:34-41 | a name with no '.' is always refused, whatever its MIME type |
| Uploads.MaxFileSize | backend/config/multer.js:47-49 | an absent or empty setting gives the 10 MB default (10485760 bytes); any other setting, "0" included, is passed on as its text, unparsed |
| UserModel.ParseRole | backend/controllers/adminController.js:129 | exactly the names participant, judge and admin denote a role |
| UserModel.RoleName | backend/controllers/adminController.js:129-138 | every role's name reads back as that role |
| HackathonContext.TimeRemaining | frontend/src/context/HackathonContext.jsx:44-68 | no hackathon gives nothing; a passed end gives all zeros and expired; otherwise the whole days to go, hours below 24, minutes and seconds below 60, adding up to the time left less its milliseconds |
| HackathonContext.SpanBounds | frontend/src/context/HackathonContext.jsx:62-65 | the four fields computed from a distance are in range and add up to the distance less under one second |
| HackathonContext.ModOfMultiple | frontend/src/context/HackathonContext.jsx:63-65 | taking away whole multiples of the divisor keeps the remainder |
| HackathonContext.DivModUnique | frontend/src/context/HackathonContext.jsx:62-65 | a quotient and a remainder within range are the only ones |
| HackathonContext.AtLeastOnce | frontend/src/context/HackathonContext.jsx:62-65 | a positive multiple of a positive number is at least that number |
| Text.IntText | frontend/src/components/common/Countdown.jsx:28 | `String(n)` of an integer is its decimal digits, after a '-' when it is negative |
| CountdownView.PadTwo | frontend/src/components/common/Countdown.jsx:28 | a text of two or more characters is kept; a shorter one is filled with leading zeros to two characters |
| CountdownView.PaddedDigits | frontend/src/components/common/Countdown.jsx:28 | a one-digit value gets one leading zero and a longer one is shown as it is |
| CountdownView.Render | frontend/src/components/common/Countdown.jsx:3-38 | an expired time shows "Time's Up!" and calls the completion callback when there is one; otherwise four blocks Days, Hours, Minutes, Seconds with the padded values |
| CountdownView.ClockBlocksTwoDigits | frontend/src/components/common/Countdown.jsx:15-28 | for a time still running, the hours, minutes and seconds blocks show exactly two digits |
| JudgeScoring.Clamp | frontend/src/components/judge/ProjectDetails.jsx:45 | a typed score lands in [0, 10]: unreadable text gives 0, a score in range is kept, one below gives 0 and one above gives 10 |
| JudgeScoring.ScoreChange | frontend/src/components/judge/ProjectDetails.jsx:44-50 | only the edited criterion changes, to the clamped score |
| JudgeScoring.UneditedBlocks | frontend/src/components/judge/ProjectDetails.jsx:44-60 | a criterion no edit touches keeps its 0, so the form is not sent |
| JudgeScoring.InitialNeedsEveryCriterion | frontend/src/components/judge/ProjectDetails.jsx:16-60 | from the initial all-zero form, a criterion never edited blocks sending |
| JudgeScoring.ZeroRefusedHereAcceptedThere | frontend/src/components/judge/ProjectDetails.jsx:56 | a score of 0 blocks the form although the evaluation schema accepts it (backend/models/Evaluation.js:19) |
| Text.TrimAll | frontend/src/components/participant/ProjectSubmission.jsx:54-55 | every entry is trimmed in place and the number of entries is kept (also the `trim` setters of the array paths of backend/models/Project.js and backend/models/Team.js) |
| ProjectSubmission.NonEmpty | frontend/src/components/participant/ProjectSubmission.jsx:54-55 | exactly the non-empty pieces are kept, in order, each as many times as it occurs |
| ProjectSubmission.ParseList | frontend/src/components/participant/ProjectSubmission.jsx:54-55 | the list holds exactly the non-empty trimmed comma-separated pieces of the text, in order and with their repetitions; none is empty, holds a comma or has blanks at its ends; there are at most one more than there are commas |
| ProjectSubmission.SliceKeepsAbsent | frontend/src/components/participant/ProjectSubmission.jsx:54 | a character missing from the text is missing from every piece of it |
| ProjectSubmission.SubsequenceLength | frontend/src/components/participant/ProjectSubmission.jsx:55 | a filtered list is no longer than the list |
| ProjectSubmission.Prepare | frontend/src/components/participant/ProjectSubmission.jsx:52-56 | only the technologies and features are rewritten, as parsed lists; every other field is sent as typed |
| ProjectSubmission.FileChange | frontend/src/components/participant/ProjectSubmission.jsx:43-46 | the input's own list is replaced by the chosen files and the other lists stay |
| Leaderboard.SortByScore | frontend/src/pages/Leaderboard.jsx:22 | after sorting in place the board runs from the highest score to the lowest, a missing score counting as 0, and holds the same entries |
| Leaderboard.Insert | frontend/src/pages/Leaderboard.jsx:22 | moving one entry left into the sorted prefix keeps the prefix sorted and the entries the same |
| Leaderboard.Swap | frontend/src/pages/Leaderboard.jsx:22 | two neighbours are exchanged and nothing else changes |
| Leaderboard.CategoryParam | frontend/src/pages/Leaderboard.jsx:20 | the category is sent exactly when one other than "all" is chosen |
| Leaderboard.RankColor | frontend/src/pages/Leaderboard.jsx:31-36 | the first three places are gold, silver and bronze, every later one plain |
| Leaderboard.Rows | frontend/src/pages/Leaderboard.jsx:72-77 | there is one row per sorted entry, ranked from 1 in order and coloured by its place |
| Leaderboard.RanksFollowScores | frontend/src/pages/Leaderboard.jsx:22-77 | on a sorted board a better rank never has a lower score, and first place has the highest score of all |
| UserManagement.Filtered | frontend/src/components/admin/UserManagement.jsx:48-50 | a user is shown exactly when the search term occurs, ignoring case, in the user's name and email, in the loaded order, each shown user as many times as it was loaded |
| UserManagement.EmptyTermShowsAll | frontend/src/components/admin/UserManagement.jsx:48-50 | an empty search shows every user |
| UserManagement.CaseBlind | frontend/src/components/admin/UserManagement.jsx:49 | search terms that differ only in case show the same users |
| UserManagement.LowerConcat | frontend/src/components/admin/UserManagement.jsx:49 | lower-casing a joined text lower-cases each part |
| UserManagement.FullNameFindsUser | frontend/src/components/admin/UserManagement.jsx:48-50 | typing a user's full name, in any case, shows that user |
| JoinTeam.OnType | frontend/src/components/participant/JoinTeam.jsx:64 | the field holds, character by character, the upper case of what is typed, and keeps its length |
| JoinTeam.Normalize | frontend/src/components/participant/JoinTeam.jsx:33 | the code sent is the upper case of the trimmed text: upper case, no blanks at its ends and no longer than what was typed |
| JoinTeam.Submit | frontend/src/components/participant/JoinTeam.jsx:23-33 | a blank code is refused with "Please enter an invite code"; otherwise the normalised, non-empty code is sent |
| JoinTeam.NormalizeIdempotent | frontend/src/components/participant/JoinTeam.jsx:33-64 | normalising twice is normalising once, and the upper-casing while typing makes no difference to what is sent |
| SubmissionStatus.StatusColor | frontend/src/components/participant/SubmissionStatus.jsx:49-57 | submitted is blue, under review yellow, reviewed green, and draft or anything else grey |
| SubmissionStatus.StatusIcon | frontend/src/components/participant/SubmissionStatus.jsx:59-68 | submitted and reviewed get the check mark, under review the eye, and everything else the clock |
| SubmissionStatus.Label | frontend/src/components/participant/SubmissionStatus.jsx:85 | replacing the first '_' by a blank keeps the length, and a status without '_' is shown as it is |
| SubmissionStatus.ReplaceFirstLength | frontend/src/components/participant/SubmissionStatus.jsx:85 | `replace('_', ' ')` keeps the length and changes nothing without a '_' |
| SubmissionStatus.LabelReplacesFirst | frontend/src/components/participant/SubmissionStatus.jsx:85 | only the first '_' becomes a blank |
| SubmissionStatus.PlainLabels | frontend/src/components/participant/SubmissionStatus.jsx:85 | draft, submitted and reviewed are shown under their own names |
| SubmissionStatus.UnderReviewLabel | frontend/src/components/participant/SubmissionStatus.jsx:85 | under_review is shown as "under review" |
| SubmissionStatus.CheckMarkStatuses | frontend/src/components/participant/SubmissionStatus.jsx:59-68 | of the stored statuses exactly submitted and reviewed get the check mark |
| SubmissionStatus.Render | frontend/src/components/participant/SubmissionStatus.jsx:33-156 | no project shows "No Submission Yet"; otherwise the status's colour, icon and label and the submission time, and the evaluation count only when there is at least one |
| Text.Split | frontend/src/components/participant/ProjectSubmission.jsx:54 | `split(',')` gives one more piece than there are commas |
| Text.SplitJoin | frontend/src/components/participant/ProjectSubmission.jsx:54 | joining the pieces with the separator gives back the text, and no piece holds the separator |
| Text.TrimFacts | frontend/src/utils/validators.js:6-8 | `trim()` leaves no blank at either end, is a part of the text, and is empty exactly when the text is all blanks |
| Text.TrimIdempotent | frontend/src/components/participant/JoinTeam.jsx:33 | trimming twice is trimming once |
| Text.TrimUpperCommute | frontend/src/components/participant/JoinTeam.jsx:33 | trimming and upper-casing may be done in either order |

## Left out

- Database internals are not modelled: query planning, `populate`, `aggregate`, sorting by `createdAt`, and driver error messages. Each handler is one atomic step on the maps of `Database.Store`. The dashboard statistics (`getDashboardStats`, `adminController.js:13-86`), `getAllSubmissions`, `updateHackathonConfig`, `getCategories`, `createCategory` and `updateCategory` only forward queries and are not modelled.
- Concurrency is not modelled. The lost update on a project's aggregates, when two judges save at once (`judgeController.js:107-111,177-180`), cannot arise in a sequential model.
- E-mail is not modelled: `emailService.js` and the fire-and-forget notifications after an evaluation or a submission. The notifications never change the reply or the stored state. `judgeController.js` uses `User` without importing it, so its notification step throws inside a `try`, and that is not modelled either.
- Randomness and the clock are parameters: invite codes (`generateInviteCode`, `Team.js:82`), `generateRandomString`, `generateRandomColor`, the upload suffix (`multer.js:25`) and every `Date.now()`. `formatDate` and `getTimeRemaining` in `helpers.js:51-77` are not modelled: they depend on locale and on floating-point `%` for negative totals.
- Floating-point formatting is not modelled: `toFixed` in `calculatePercentage`, in the judge's completion rate and in the front-end displays, and `formatFileSize`. Scores and rates are exact `real`s.
- JudgeController.JudgeStatsOf: the completion rate is the exact ratio times 100, not the two-decimal text `toFixed(2)` yields.
- Parsing of query strings is not modelled. `parseInt` and the coercions of `page` and `limit` arrive already parsed as numbers or as an absent value. Text that `parseInt` cannot read is modelled as absent where the source falls back (`ProjectDetails.jsx:45`).
- `$regex` searches (`userController.js:43-45,125-127`, `adminController.js:98-102`) are modelled as case-insensitive substring tests on ASCII text. A search term holding regular-expression syntax is not modelled. The `$text` full-text search of `getProjects` (`projectController.js:141-143`) depends on MongoDB's text index and is not modelled.
- `isValidUrl` (`frontend/src/utils/validators.js:189-196`) is a parameter `validUrl`, since it delegates to the `URL` parser.
- The express-validator chains of `backend/utils/validators.js` and `backend/routes/*.js` appear only as preconditions of the handlers they guard, for example scores in [0, 10] on evaluation routes. The role guards on the team and project routes are modelled in `RoleMiddleware` and `ProjectController`.
- `asyncHandler`, the `uploadSingle`/`uploadMultiple`/`uploadFields` wrappers and the directory creation in `multer.js:6-11` only wire other code together and are not modelled.
- `getUserProfile`, `getUsers`, `getMyEvaluations`, `getProject`, `getTeams` and `getTeam` only read and forward documents, so they are not modelled. `getUsers` pages through `getPagination`, which is modelled in `Helpers`. The ordering and filtering of `getProjects` are modelled (`ProjectController.RankOrder`, `ProjectController.Filtered`).
- `sortByField` (`helpers.js:117-124`) is not modelled: its comparator never answers 0 and is not consistent for equal keys, so the order it gives depends on the engine's sort algorithm. `generateAvatarUrl`, `deepClone`, `isEmpty` and `calculatePercentage` are not modelled either: they are `encodeURIComponent`, JSON and floating-point formatting.
- Leaderboard.SortByScore: the contract states order and the same entries, but not that entries with equal scores keep their order. `Array.prototype.sort` is stable, and the insertion sort used here is too, but that is not proved.
- CountdownView.Render: takes the remaining time as `useCountdown` would produce it. The hook's `setInterval` is not part of this model, and `ClockBlocksTwoDigits` assumes the field ranges that `HackathonContext.TimeRemaining` proves.
- FormValidators.ProblemText: a size limit that is not a whole number of megabytes gives no message text, because the message would hold a JavaScript decimal such as `1.5`, whose formatting is not modelled.
- The CSS `capitalize` on the submission status label, and all presentational components, routing, the services layer, `AuthContext` and the constants file are not modelled.
- Characters outside ASCII: case mapping, `\s` and `\w` are modelled for ASCII only.
- ProjectController.RouteAcceptsProject: the route's `isURL` checks on `demoUrl` and `githubUrl` (`backend/utils/validators.js:112-119`) are not modelled, since they follow the validator library's URL grammar; only its `/github\.com/` check is. The schema's own URL patterns, which run on creation and update, are modelled.
- ProjectController.CreateForTeam: when `Project.create` refuses the content, the uploaded files stay on disk; the upload directory is not modelled.
- ProjectController.UpdateProject: the body's remaining schema paths (`files`, `screenshots`, `rank`, `isWinner`, `prize`) are not modelled, since the project class does not hold them. `submissionStatus` arrives already parsed: a string outside the enum, which the update validators refuse, is not modelled, and neither is an id that is not an ObjectId (a cast error).
- CategoryModel.CriteriaErrors: the weight in the message is written by `Text.NumberText`, which gives a whole number's digits and a fraction's exact decimal digits, at most 20 of them. JavaScript's shortest round-trip digits for a double and its exponent form for very large or very small numbers are not modelled.
- JudgeController.UpdateEvaluation: a body `judge` or `project` that is not an ObjectId (a cast error) is not modelled; both arrive as ids.
- ProjectController.RankOrder: the secondary order by submission time is modelled on `Option<Time>`, with a missing time sorting last, as MongoDB sorts null fields in descending order.
- Uploads.MaxFileSize: the model ends at the value multer receives. How multer and busboy then compare a text limit against byte counts is not modelled.

## Findings

| source | as written | input that shows it | evidently intended | confidence | as-written member | corrected member |
|---|---|---|---|---|---|---|
| backend/controllers/judgeController.js:169-180 | `findByIdAndUpdate` writes the new scores but runs no pre-save hook, so `weightedScore` keeps its old value; the project total is then adjusted by the unchanged weighted score | two evaluations weighing 75 and 60 (total 135, average 67.5); the first is edited to four scores of 10; the project still reads 135 and 67.5 instead of 160 and 80 | re-derive the weighted score from the new scores and move the total by the difference, keeping total = sum and average = total / count | not executed | JudgeController.StaleWeightExample | JudgeController.UpdateEvaluationFixed |
| backend/controllers/judgeController.js:169-180 | the update body's `project` field is written into the evaluation, while the aggregate adjustment is applied to the new project only | an evaluation of project A re-pointed to project B in an update: A keeps the evaluation's weight in its total and B's list does not name it | the project of an evaluation is not changed by an update | not executed | JudgeController.RepointBreaksConsistency | JudgeController.UpdateEvaluationFixed |
| backend/controllers/judgeController.js:171-174 | `findByIdAndUpdate(req.params.id, req.body)` writes every path of the body, and the route's validators do not forbid `judge`, `totalScore`, `isComplete` or `submittedAt` | a judge updates with `{"totalScore": 99, "judge": J2}` and four scores of 10: the stored total is 99, not 40, and the evaluation now belongs to J2 | only the scores, feedback and recommendation are taken from the body; the totals are derived by the pre-save hook | not executed | JudgeController.TamperedBodyExample | JudgeController.UpdateEvaluationFixed |
| backend/middleware/roleMiddleware.js:26 | `isTeamLeader` reads `req.params.teamId`, or else `req.body.teamId`, but the team routes name the parameter `:id` | `PUT /api/teams/T` by T's leader with no `teamId` in the body gets 400; with `teamId` of another team the caller leads, the request passes and the handler acts on T | the guard checks the team of the route | not executed | RoleMiddleware.LeaderGuardIgnoresRouteTeam | RoleMiddleware.RouteLeaderGuard |
| backend/middleware/roleMiddleware.js:66 | `isTeamMember` falls back to the caller's own team when the route's team is not read, so `leave` on `/:id/leave` passes for a member of any team | a member of team A calls leave on team B: the guard checks A, the handler removes the caller from B's list and clears the caller's team, leaving A listing a user who no longer points at it | the guard checks membership of the route's team | not executed | TeamController.LeaveOtherTeamUnlinks | RoleMiddleware.RouteMemberGuard |
| backend/controllers/projectController.js:53 | screenshots are recorded as `/uploads/projects/<name>` but stored under `uploads/` (`multer.js:21`) | a screenshot `s.png` stored as `screenshots-1-2.png` lands in `uploads/` while the project records `/uploads/projects/screenshots-1-2.png` | record each file under the directory it is stored in | not executed | ProjectController.ScreenshotPathMismatch | ProjectController.Shots |
| backend/routes/projectRoutes.js:20-21 | update and delete are guarded by `isTeamMember`, which checks the caller's own team and not the project's; delete is documented as for the team leader (`projectController.js:218`) | a member of team A deletes team B's project | only a member of the owning team may update, and only its leader may delete | not executed | ProjectController.MemberGuardIgnoresProject | ProjectController.DeleteOwnProject |
| backend/controllers/projectController.js:205 | `findByIdAndUpdate(req.params.id, req.body)` writes the whole body, and the route has no body validator | a team member sends `{"totalScore": 1000}`: the project's total no longer equals the sum of its evaluations, and the leaderboard ranks it first; `{"team": B}` moves the project to team B, which does not name it | only the descriptive content is taken from the body | not executed | ProjectController.TamperedTotalBreaksConsistency | ProjectController.UpdateProjectFixed |
