/** The project handlers (backend/controllers/projectController.js) on the
    stored users, teams, projects and submissions: creating a project with
    its uploaded files, submitting it, editing and deleting it, and the order
    of the project listing. The caller `me` is the user `protect` found; the
    fresh ids, the current time and the submission deadline of the active
    hackathon are inputs. */
module ProjectController {
  import opened Common
  import opened Text
  import opened Database
  import T = TeamModel
  import P = ProjectModel
  import S = SubmissionModel
  import ErrorHandler
  import Uploads
  import RoleMiddleware

  // ---------------------------------------------------------------------------
  // How teams and projects refer to each other.

  /** The team of every stored project. */
  function Owners(db: Store): (owners: map<Id, Id>)
    reads db`projects, db.projects.Values
    ensures forall k :: k in owners <==> k in db.projects
  {
    map k | k in db.projects :: db.projects[k].team
  }

  /** Teams and projects agree: a team's project is a stored project of that
      team, and a stored project whose team exists is that team's project. */
  ghost predicate Owned(teams: map<Id, T.Team>, owners: map<Id, Id>) {
    (forall t :: t in teams && teams[t].project.Some? ==>
       teams[t].project.value in owners && owners[teams[t].project.value] == t)
    && (forall p :: p in owners && owners[p] in teams ==> teams[owners[p]].project == Some(p))
  }

  /** Recording a new project of a team that had none keeps the agreement. */
  lemma CreateKeepsOwned(teams: map<Id, T.Team>, owners: map<Id, Id>, t: Id, id: Id)
    requires Owned(teams, owners) && t in teams && teams[t].project.None?
    requires id !in owners
    ensures Owned(teams[t := teams[t].(project := Some(id))], owners[id := t])
  {
    var teams', owners' := teams[t := teams[t].(project := Some(id))], owners[id := t];
    forall p | p in owners' && owners'[p] in teams' ensures teams'[owners'[p]].project == Some(p) {
      if p != id {
        assert owners[p] != t;
      }
    }
  }

  /** Deleting a project and clearing its team's reference keeps the
      agreement. */
  lemma DeleteKeepsOwned(teams: map<Id, T.Team>, owners: map<Id, Id>, pid: Id)
    requires Owned(teams, owners) && pid in owners
    ensures Owned(Unlinked(teams, owners[pid]), owners - {pid})
  {
  }

  /** A new project with no evaluations, and no evaluation naming it, keeps
      the judging state consistent. */
  lemma AddProjectKeepsConsistent(ps: map<Id, Aggregate>, es: map<Id, Link>, id: Id)
    requires Consistent(ps, es) && id !in ps
    requires forall k :: k in es ==> es[k].project != id
    ensures Consistent(ps[id := Aggregate([], 0.0, 0.0)], es)
  {
  }

  /** Removing a project keeps the rest consistent; its evaluations stay
      behind, naming a project that no longer exists. */
  lemma RemoveProjectKeepsConsistent(ps: map<Id, Aggregate>, es: map<Id, Link>, pid: Id)
    requires Consistent(ps, es)
    ensures Consistent(ps - {pid}, es)
  {
  }

  // ---------------------------------------------------------------------------
  // Uploaded files and where the project records them.

  /** A file the upload middleware accepted and stored, as `req.files` lists
      it. */
  datatype Upload = Upload(originalname: string, filename: string, size: nat, mimetype: string)

  /** As written: the path recorded for every uploaded file, project file or
      screenshot alike. */
  function RecordedPathAsWritten(filename: string): string {
    "/uploads/projects/" + filename
  }

  /** Where a file of field `fieldname` stored as `filename` is served from:
      the folder the upload middleware put it in, under the site root. */
  function ServedPath(fieldname: string, filename: string): (path: string)
    ensures fieldname == "projectFiles" ==> path == RecordedPathAsWritten(filename)
    ensures fieldname == "screenshots" ==> path == "/uploads/" + filename
  {
    "/" + Uploads.StoredPath(fieldname, filename)
  }

  /** The recorded path of a project file is where it was stored, but the
      recorded path of a screenshot is not: screenshots are stored in
      `uploads`, not `uploads/projects`. */
  lemma ScreenshotPathMismatch(filename: string)
    ensures RecordedPathAsWritten(filename) == "/" + Uploads.StoredPath("projectFiles", filename)
    ensures RecordedPathAsWritten(filename) != "/" + Uploads.StoredPath("screenshots", filename)
  {
    assert ServedPath("projectFiles", filename) == RecordedPathAsWritten(filename);
    assert ServedPath("screenshots", filename) == "/uploads/" + filename;
    assert |RecordedPathAsWritten(filename)| == 18 + |filename|;
  }

  /** The record of an uploaded project file: its original name, where it
      was stored, its size and type. */
  function RecordOf(u: Upload): (f: P.FileRecord)
    ensures f.filename == u.originalname && f.size == u.size && f.mimetype == u.mimetype
    ensures f.path == "/" + Uploads.StoredPath("projectFiles", u.filename)
  {
    P.FileRecord(u.originalname, ServedPath("projectFiles", u.filename), u.size, u.mimetype)
  }

  /** The records of the project files, one per upload in upload order. */
  function Records(uploads: seq<Upload>): (files: seq<P.FileRecord>)
    ensures |files| == |uploads| && forall i :: 0 <= i < |uploads| ==> files[i] == RecordOf(uploads[i])
  {
    seq(|uploads|, i requires 0 <= i < |uploads| => RecordOf(uploads[i]))
  }

  /** The screenshot paths, one per upload in upload order, each where the
      screenshot was stored. */
  function Shots(uploads: seq<Upload>): (paths: seq<string>)
    ensures |paths| == |uploads|
    ensures forall i :: 0 <= i < |uploads| ==> paths[i] == "/" + Uploads.StoredPath("screenshots", uploads[i].filename)
  {
    seq(|uploads|, i requires 0 <= i < |uploads| => ServedPath("screenshots", uploads[i].filename))
  }

  /** The loop over `req.files.projectFiles`. */
  method RecordFiles(uploads: seq<Upload>) returns (files: seq<P.FileRecord>)
    ensures files == Records(uploads)
  {
    files := [];
    for i := 0 to |uploads|
      invariant files == Records(uploads[..i])
    {
      files := files + [RecordOf(uploads[i])];
    }
    assert uploads[..|uploads|] == uploads;
  }

  /** The loop over `req.files.screenshots`. */
  method ScreenshotPaths(uploads: seq<Upload>) returns (paths: seq<string>)
    ensures paths == Shots(uploads)
  {
    paths := [];
    for i := 0 to |uploads|
      invariant paths == Shots(uploads[..i])
    {
      paths := paths + [ServedPath("screenshots", uploads[i].filename)];
    }
    assert uploads[..|uploads|] == uploads;
  }

  // ---------------------------------------------------------------------------
  // createProject

  /** What the route's validator chain lets through: the trimmed title,
      tagline, description, problem statement and solution within their
      bounds, and a GitHub URL, when given, that names github.com. */
  predicate RouteAcceptsProject(c: P.Content) {
    5 <= |Trim(c.title)| <= 100 && 1 <= |Trim(c.tagline)| <= 200 && 50 <= |Trim(c.description)| <= 5000
    && 1 <= |Trim(c.problemStatement)| <= 2000 && 1 <= |Trim(c.solution)| <= 2000
    && (c.githubUrl == "" || Contains(c.githubUrl, "github.com"))
  }

  /** The validator chain also sanitises: the five checked fields arrive
      trimmed. */
  function Sanitized(c: P.Content): P.Content {
    c.(title := Trim(c.title), tagline := Trim(c.tagline), description := Trim(c.description),
       problemStatement := Trim(c.problemStatement), solution := Trim(c.solution))
  }

  /** Whatever the route lets through passes the schema's length
      validators. */
  lemma RouteContentValid(c: P.Content)
    requires RouteAcceptsProject(c)
    ensures P.LengthsValid(P.Stored(Sanitized(c)))
  {
    TrimIdempotent(c.title);
  }

  /** The schema's messages for the content `Project.create` is given. */
  function SchemaErrors(body: P.Content): (errs: seq<string>)
    ensures errs == [] <==> P.ContentValid(P.Stored(Sanitized(body)))
    ensures RouteAcceptsProject(body) ==> errs == P.UrlErrors(P.Stored(Sanitized(body)))
  {
    RouteContentValidErrors(body);
    P.ContentErrors(P.Stored(Sanitized(body)))
  }

  /** Content the route accepts draws no length message from the schema. */
  lemma RouteContentValidErrors(c: P.Content)
    ensures RouteAcceptsProject(c) ==> P.LengthErrors(P.Stored(Sanitized(c))) == []
  {
    if RouteAcceptsProject(c) {
      RouteContentValid(c);
    }
  }

  /** The route's check on the GitHub URL is weaker than the schema's: a
      page below a repository passes the route and is refused on creation. */
  lemma RouteLetsPageUrlThrough(c: P.Content)
    requires RouteAcceptsProject(c) && c.githubUrl == "github.com/u/r/t" && c.demoUrl == "" && c.videoUrl == ""
    ensures SchemaErrors(c) == ["Please provide a valid GitHub URL"]
  {
    var d := P.Stored(Sanitized(c));
    P.TreeUrlNoRepo();
    TrimmedFixed(c.githubUrl);
    assert d.githubUrl == c.githubUrl;
    assert d.demoUrl == "" && d.videoUrl == "";
    assert P.UrlErrors(d) == ["Please provide a valid GitHub URL"];
  }

  /** `Project.create`: a new draft stored under `id`. The judging state
      gains a project with no evaluations and is otherwise unchanged. */
  method StoreProject(db: Store, id: Id, team: Id, category: Id, content: P.Content,
                      files: seq<P.FileRecord>, shots: seq<string>) returns (p: P.Project)
    requires id !in db.projects
    modifies db`projects
    ensures fresh(p) && db.projects == old(db.projects)[id := p]
    ensures p.id == id && p.team == team && p.category == category && p.content == P.Stored(content)
    ensures p.files == files && p.screenshots == shots && p.status == P.Draft && p.submittedAt.None?
    ensures p.evaluations == [] && p.totalScore == 0.0
    ensures db.Aggregates() == old(db.Aggregates())[id := Aggregate([], 0.0, 0.0)]
  {
    p := new P.Project(id, team, category, content, files, shots);
    db.projects := db.projects[id := p];
  }

  /** Saving a team validates only its own fields, not its project. */
  lemma SaveIgnoresProject(t: T.Team, v: Option<Id>)
    ensures T.ValidationErrors(t.(project := v)) == T.ValidationErrors(t)
  {
  }

  /** The guards of `createProject`, in order: the reply that refuses the
      caller, or None when every guard passes. */
  function CreateRefusal(db: Store, me: Id): (refusal: Option<Reply>)
    reads db
    requires me in db.users
    ensures db.users[me].team.None? ==>
              refusal == Some(Reply(400, "You must be part of a team to submit a project"))
    ensures db.users[me].team.Some? && db.users[me].team.value !in db.teams ==>
              refusal == Some(ErrorHandler.Handle(ErrorHandler.NullDereference("project")))
    ensures db.users[me].team.Some? && db.users[me].team.value in db.teams
            && db.teams[db.users[me].team.value].project.Some? ==>
              refusal == Some(Reply(400, "Your team already has a project submission"))
    ensures db.users[me].team.Some? && db.users[me].team.value in db.teams
            && db.teams[db.users[me].team.value].project.None?
            && db.teams[db.users[me].team.value].category !in db.categories ==>
              refusal == Some(ErrorHandler.Handle(ErrorHandler.NullDereference("_id")))
    ensures refusal.None? <==>
              && db.users[me].team.Some? && db.users[me].team.value in db.teams
              && db.teams[db.users[me].team.value].project.None?
              && db.teams[db.users[me].team.value].category in db.categories
  {
    var team := db.users[me].team;
    if team.None? then Some(Reply(400, "You must be part of a team to submit a project"))
    else if team.value !in db.teams then Some(ErrorHandler.Handle(ErrorHandler.NullDereference("project")))
    else if db.teams[team.value].project.Some? then Some(Reply(400, "Your team already has a project submission"))
    else if db.teams[team.value].category !in db.categories then
      Some(ErrorHandler.Handle(ErrorHandler.NullDereference("_id")))
    else None
  }

  /** What `createProject` leaves once every guard has passed: content the
      schema refuses is answered with its messages and nothing is stored;
      otherwise a draft project of team `t` holding the uploads, and the judging state with
      one more project that has no evaluations. Saving the team then re-runs
      its schema validation: a team that passes records the project, one
      that fails keeps no reference to the project just created. */
  twostate predicate Created(db: Store, t: Id, body: P.Content, projectFiles: seq<Upload>, screenshots: seq<Upload>,
                             id: Id, r: Reply)
    reads db, db.projects.Values
  {
    && (SchemaErrors(body) != [] ==> Refused(db, SchemaErrors(body), r))
    && (SchemaErrors(body) == [] ==> ProjectStored(db, t, body, projectFiles, screenshots, id) && TeamSaved(db, t, id, r))
  }

  /** `Project.create` refused the content: the validation reply, and
      nothing stored. */
  twostate predicate Refused(db: Store, errs: seq<string>, r: Reply)
    reads db
  {
    r == ErrorHandler.Handle(ErrorHandler.ValidationFailure(errs))
    && db.projects == old(db.projects) && db.teams == old(db.teams)
  }

  /** The project part of `Created`. */
  twostate predicate ProjectStored(db: Store, t: Id, body: P.Content, projectFiles: seq<Upload>, screenshots: seq<Upload>,
                                   id: Id)
    reads db`projects, db.projects.Values
  {
    && t in old(db.teams) && id in db.projects && db.projects == old(db.projects)[id := db.projects[id]]
    && db.Aggregates() == old(db.Aggregates())[id := Aggregate([], 0.0, 0.0)]
    && NewDraft(db.projects[id], id, t, old(db.teams)[t].category, body, projectFiles, screenshots)
  }

  /** A fresh draft of team `t` holding the sanitized content and the
      uploads. */
  predicate NewDraft(p: P.Project, id: Id, t: Id, category: Id, body: P.Content, projectFiles: seq<Upload>,
                     screenshots: seq<Upload>)
    reads p
  {
    && p.id == id && p.team == t && p.category == category
    && p.content == P.Stored(Sanitized(body)) && P.ContentValid(p.content)
    && p.files == Records(projectFiles) && p.screenshots == Shots(screenshots) && p.status == P.Draft
  }

  /** The team part of `Created`: the save's outcome. */
  twostate predicate TeamSaved(db: Store, t: Id, id: Id, r: Reply)
    reads db
  {
    && t in old(db.teams)
    && (T.Valid(old(db.teams)[t]) ==>
          r == Reply(201, "") && db.teams == old(db.teams)[t := old(db.teams)[t].(project := Some(id))])
    && (!T.Valid(old(db.teams)[t]) ==>
          r == ErrorHandler.Handle(ErrorHandler.ValidationFailure(T.ValidationErrors(old(db.teams)[t])))
          && db.teams == old(db.teams))
  }

  /** `createProject`: refused as `CreateRefusal` says, with nothing
      changed; otherwise see `Created`. The evaluations are untouched either
      way. */
  method CreateProject(db: Store, me: Id, body: P.Content, projectFiles: seq<Upload>, screenshots: seq<Upload>,
                       id: Id) returns (r: Reply)
    requires me in db.users && RouteAcceptsProject(body) && id !in db.projects
    modifies db`projects, db`teams
    ensures old(CreateRefusal(db, me)).Some? ==>
              r == old(CreateRefusal(db, me)).value && db.projects == old(db.projects) && db.teams == old(db.teams)
    ensures old(CreateRefusal(db, me)).None? ==>
              Created(db, db.users[me].team.value, body, projectFiles, screenshots, id, r)
  {
    var refusal := CreateRefusal(db, me);
    if refusal.Some? {
      return refusal.value;
    }
    r := CreateForTeam(db, db.users[me].team.value, body, projectFiles, screenshots, id);
  }

  /** `createProject` once the guards have passed for team `t`. */
  method CreateForTeam(db: Store, t: Id, body: P.Content, projectFiles: seq<Upload>, screenshots: seq<Upload>,
                       id: Id) returns (r: Reply)
    requires t in db.teams && RouteAcceptsProject(body) && id !in db.projects
    modifies db`projects, db`teams
    ensures Created(db, t, body, projectFiles, screenshots, id, r)
  {
    var errs := SchemaErrors(body);
    if errs != [] {
      return ErrorHandler.Handle(ErrorHandler.ValidationFailure(errs));
    }
    r := CreateValid(db, t, body, projectFiles, screenshots, id);
  }

  /** `Project.create` with content the schema accepts, then the team's
      save. */
  method CreateValid(db: Store, t: Id, body: P.Content, projectFiles: seq<Upload>, screenshots: seq<Upload>,
                     id: Id) returns (r: Reply)
    requires t in db.teams && P.ContentValid(P.Stored(Sanitized(body))) && id !in db.projects
    modifies db`projects, db`teams
    ensures ProjectStored(db, t, body, projectFiles, screenshots, id)
    ensures TeamSaved(db, t, id, r)
  {
    StoreDraft(db, t, body, projectFiles, screenshots, id);
    r := SaveTeam(db, t, id);
  }

  /** The uploads are recorded and the draft is stored; the teams are not
      touched yet. */
  method StoreDraft(db: Store, t: Id, body: P.Content, projectFiles: seq<Upload>, screenshots: seq<Upload>, id: Id)
    requires t in db.teams && P.ContentValid(P.Stored(Sanitized(body))) && id !in db.projects
    modifies db`projects
    ensures ProjectStored(db, t, body, projectFiles, screenshots, id)
  {
    ghost var c := P.Stored(Sanitized(body));
    var files := RecordFiles(projectFiles);
    var shots := ScreenshotPaths(screenshots);
    var p := StoreProject(db, id, t, db.teams[t].category, Sanitized(body), files, shots);
    assert p.content == c && P.ContentValid(c);
    assert NewDraft(p, id, t, old(db.teams)[t].category, body, projectFiles, screenshots);
  }

  /** `team.save()` after the project was created: the save validates the
      team, and only a team that passes records the project. */
  method SaveTeam(db: Store, t: Id, id: Id) returns (r: Reply)
    requires t in db.teams
    modifies db`teams
    ensures T.Valid(old(db.teams)[t]) ==>
              r == Reply(201, "") && db.teams == old(db.teams)[t := old(db.teams)[t].(project := Some(id))]
    ensures !T.Valid(old(db.teams)[t]) ==>
              r == ErrorHandler.Handle(ErrorHandler.ValidationFailure(T.ValidationErrors(old(db.teams)[t])))
              && db.teams == old(db.teams)
  {
    var team := db.teams[t];
    var saved := team.(project := Some(id));
    SaveIgnoresProject(team, Some(id));
    var errs := T.ValidationErrors(saved);
    if errs != [] {
      return ErrorHandler.Handle(ErrorHandler.ValidationFailure(errs));
    }
    db.teams := db.teams[t := saved];
    r := Reply(201, "");
  }

  /** A creation that got past the guards keeps the judging state
      consistent, and, when the team passes its validation on save, keeps
      teams and projects in agreement. */
  lemma CreateKeepsInvariants(teams: map<Id, T.Team>, owners: map<Id, Id>, ps: map<Id, Aggregate>,
                              es: map<Id, Link>, t: Id, id: Id)
    requires Consistent(ps, es) && id !in ps && forall k :: k in es ==> es[k].project != id
    requires Owned(teams, owners) && t in teams && teams[t].project.None? && id !in owners
    ensures Consistent(ps[id := Aggregate([], 0.0, 0.0)], es)
    ensures Owned(teams[t := teams[t].(project := Some(id))], owners[id := t])
  {
    AddProjectKeepsConsistent(ps, es, id);
    CreateKeepsOwned(teams, owners, t, id);
  }

  /** When the team fails its validation on save, the new project's team
      exists but does not refer to it: teams and projects no longer agree. */
  lemma FailedSaveOrphans(teams: map<Id, T.Team>, owners: map<Id, Id>, t: Id, id: Id)
    requires t in teams && teams[t].project.None?
    ensures !Owned(teams, owners[id := t])
  {
    assert owners[id := t][id] in teams;
  }

  // ---------------------------------------------------------------------------
  // submitProject

  /** The unique (team, version) index: some submission of `team` already has
      version `version`. */
  predicate HasVersion(db: Store, team: Id, version: nat)
    reads db, db.submissions.Values
  {
    exists k :: k in db.submissions && db.submissions[k].team == team && db.submissions[k].version == version
  }

  /** `project.submit()` on a stored project: the judging state is
      untouched. */
  method MarkSubmitted(db: Store, pid: Id, p: P.Project, now: Time)
    requires pid in db.projects && db.projects[pid] == p
    modifies p`status, p`submittedAt
    ensures p.status == P.Submitted && p.submittedAt == Some(now)
    ensures db.Aggregates() == old(db.Aggregates())
  {
    p.Submit(now);
  }

  /** `Submission.create` for a team without a first version: the new
      submission is stamped, checked against the deadline and stored. */
  method StoreSubmission(db: Store, sid: Id, team: Id, project: Id, me: Id, now: Time, deadline: Option<Time>)
    returns (s: S.Submission)
    requires sid !in db.submissions && db.OneSubmissionPerVersion() && !HasVersion(db, team, S.DefaultVersion)
    modifies db`submissions
    ensures fresh(s) && db.submissions == old(db.submissions)[sid := s] && db.OneSubmissionPerVersion()
    ensures s.team == team && s.project == project && s.submittedBy == me && s.status == S.Submitted
    ensures s.version == S.DefaultVersion && s.submittedAt == now
    ensures s.isLate <==> deadline.Some? && now > deadline.value
  {
    s := new S.Submission(sid, team, project, me, S.Submitted, now);
    s.PreSave(true, deadline);
    db.submissions := db.submissions[sid := s];
  }

  /** The guards of `submitProject`, in order: the reply that refuses the
      caller, or None when the caller is in the project's team. */
  function SubmitRefusal(db: Store, me: Id, pid: Id): (refusal: Option<Reply>)
    reads db, db.projects.Values
    requires me in db.users
    ensures pid !in db.projects ==> refusal == Some(Reply(404, "Project not found"))
    ensures pid in db.projects && db.projects[pid].team !in db.teams ==>
              refusal == Some(ErrorHandler.Handle(ErrorHandler.NullDereference("_id")))
    ensures pid in db.projects && db.projects[pid].team in db.teams && db.users[me].team != Some(db.projects[pid].team) ==>
              refusal == Some(Reply(403, "You are not authorized to submit this project"))
    ensures refusal.None? <==>
              pid in db.projects && db.projects[pid].team in db.teams && db.users[me].team == Some(db.projects[pid].team)
  {
    if pid !in db.projects then Some(Reply(404, "Project not found"))
    else if db.projects[pid].team !in db.teams then Some(ErrorHandler.Handle(ErrorHandler.NullDereference("_id")))
    else if db.users[me].team != Some(db.projects[pid].team) then
      Some(Reply(403, "You are not authorized to submit this project"))
    else None
  }

  /** What `submitProject` leaves once the caller is found to be in the
      project's team: the project is submitted now, and then the submission
      is created, unless the team already has one, in which case the unique
      index refuses it although the project was submitted again. */
  twostate predicate Submitted(db: Store, me: Id, pid: Id, sid: Id, now: Time, deadline: Option<Time>, r: Reply)
    reads db, db.projects.Values, db.submissions.Values
  {
    && pid in db.projects && db.projects[pid].status == P.Submitted && db.projects[pid].submittedAt == Some(now)
    && var team := db.projects[pid].team;
       && (old(HasVersion(db, team, S.DefaultVersion)) ==>
             r == ErrorHandler.Handle(ErrorHandler.DuplicateKey(["team"])) && db.submissions == old(db.submissions))
       && (!old(HasVersion(db, team, S.DefaultVersion)) ==>
             && r == Reply(200, "Project submitted successfully")
             && sid in db.submissions && db.submissions == old(db.submissions)[sid := db.submissions[sid]]
             && var s := db.submissions[sid];
                && s.team == team && s.project == pid && s.submittedBy == me
                && s.status == S.Submitted && s.version == S.DefaultVersion && s.submittedAt == now
                && (s.isLate <==> deadline.Some? && now > deadline.value))
  }

  /** `submitProject`: refused as `SubmitRefusal` says, with nothing changed;
      otherwise see `Submitted`. The judging state is untouched and the
      (team, version) index holds throughout. */
  method SubmitProject(db: Store, me: Id, pid: Id, sid: Id, now: Time, deadline: Option<Time>) returns (r: Reply)
    requires me in db.users && sid !in db.submissions && db.OneSubmissionPerVersion()
    modifies db.ProjectFrame(pid)`status, db.ProjectFrame(pid)`submittedAt, db`submissions
    ensures db.OneSubmissionPerVersion() && db.Aggregates() == old(db.Aggregates())
    ensures old(SubmitRefusal(db, me, pid)).Some? ==>
              r == old(SubmitRefusal(db, me, pid)).value && db.submissions == old(db.submissions)
              && unchanged(db.ProjectFrame(pid))
    ensures old(SubmitRefusal(db, me, pid)).None? ==> Submitted(db, me, pid, sid, now, deadline, r)
  {
    var refusal := SubmitRefusal(db, me, pid);
    if refusal.Some? {
      return refusal.value;
    }
    var p := db.projects[pid];
    MarkSubmitted(db, pid, p, now);
    if HasVersion(db, p.team, S.DefaultVersion) {
      return ErrorHandler.Handle(ErrorHandler.DuplicateKey(["team"]));
    }
    var s := StoreSubmission(db, sid, p.team, pid, me, now, deadline);
    r := Reply(200, "Project submitted successfully");
  }

  /** The reply to a second version-1 submission of a team: the unique
      index names the `team` key. */
  lemma DuplicateTeamReply()
    ensures ErrorHandler.Handle(ErrorHandler.DuplicateKey(["team"])) == Reply(400, "team already exists")
  {
    ErrorHandler.DuplicateKeyNamesField(["team"]);
    assert "team" + " already exists" == "team already exists";
  }

  // ---------------------------------------------------------------------------
  // updateProject

  /** The content paths of an update body; `None` for a path the body does
      not carry. */
  datatype ContentPatch = ContentPatch(
    title: Option<string>,
    tagline: Option<string>,
    description: Option<string>,
    technologies: Option<seq<string>>,
    problemStatement: Option<string>,
    solution: Option<string>,
    features: Option<seq<string>>,
    demoUrl: Option<string>,
    videoUrl: Option<string>,
    githubUrl: Option<string>)

  /** An update body: its content paths and the other schema paths it may
      carry, which no validator on the route forbids. */
  datatype UpdateBody = UpdateBody(
    content: ContentPatch,
    team: Option<Id>,
    category: Option<Id>,
    status: Option<P.Status>,
    submittedAt: Option<Time>,
    evaluations: Option<seq<Id>>,
    totalScore: Option<real>,
    averageScore: Option<real>)

  /** The content after `findByIdAndUpdate`: every path the body carries is
      replaced, through the schema's `trim` setters. */
  function Patched(c: P.Content, u: ContentPatch): P.Content {
    P.Content(
      if u.title.Some? then Trim(u.title.value) else c.title,
      u.tagline.GetOr(c.tagline),
      u.description.GetOr(c.description),
      if u.technologies.Some? then TrimAll(u.technologies.value) else c.technologies,
      u.problemStatement.GetOr(c.problemStatement),
      u.solution.GetOr(c.solution),
      if u.features.Some? then TrimAll(u.features.value) else c.features,
      if u.demoUrl.Some? then Trim(u.demoUrl.value) else c.demoUrl,
      if u.videoUrl.Some? then Trim(u.videoUrl.value) else c.videoUrl,
      if u.githubUrl.Some? then Trim(u.githubUrl.value) else c.githubUrl)
  }

  /** The length validators of one path the body may carry. */
  function PathErrors(v: Option<string>, min: nat, max: nat, required: string, tooShort: string, tooLong: string): seq<string> {
    if v.None? then [] else P.FieldError(v.value, min, max, required, tooShort, tooLong)
  }

  /** A URL path as the update validators see it: trimmed, and empty when
      the body does not carry it. */
  function UrlPath(v: Option<string>): string {
    if v.Some? then Trim(v.value) else ""
  }

  /** The update validators (`runValidators`), run on the paths the body
      carries, in schema order. */
  function PatchErrors(u: ContentPatch): (errs: seq<string>)
    ensures errs == [] <==> LengthsAccepted(u) && UrlsAccepted(u)
  {
    PatchLengthErrors(u) + PatchUrlErrors(u)
  }

  /** The paths the body carries are within the schema's length bounds. */
  predicate LengthsAccepted(u: ContentPatch) {
    && (u.title.Some? ==> 5 <= |Trim(u.title.value)| <= 100)
    && (u.tagline.Some? ==> 1 <= |u.tagline.value| <= 200)
    && (u.description.Some? ==> 50 <= |u.description.value| <= 5000)
    && (u.problemStatement.Some? ==> 1 <= |u.problemStatement.value| <= 2000)
    && (u.solution.Some? ==> 1 <= |u.solution.value| <= 2000)
  }

  /** The URL paths the body carries are empty or match their patterns. */
  predicate UrlsAccepted(u: ContentPatch) {
    && (u.demoUrl.Some? && Trim(u.demoUrl.value) != "" ==> P.UrlMatches(Trim(u.demoUrl.value)))
    && (u.videoUrl.Some? && Trim(u.videoUrl.value) != "" ==> P.UrlMatches(Trim(u.videoUrl.value)))
    && (u.githubUrl.Some? && Trim(u.githubUrl.value) != "" ==> P.GithubUrlMatches(Trim(u.githubUrl.value)))
  }

  /** The length validators' messages for the paths the body carries. */
  function PatchLengthErrors(u: ContentPatch): (errs: seq<string>)
    ensures errs == [] <==> LengthsAccepted(u)
  {
    PathErrors(if u.title.Some? then Some(Trim(u.title.value)) else None, 5, 100, "Please provide project title",
               "Title must be at least 5 characters", "Title cannot exceed 100 characters")
    + PathErrors(u.tagline, 0, 200, "Please provide a tagline", "", "Tagline cannot exceed 200 characters")
    + PathErrors(u.description, 50, 5000, "Please provide project description",
                 "Description must be at least 50 characters", "Description cannot exceed 5000 characters")
    + PathErrors(u.problemStatement, 0, 2000, "Please describe the problem you are solving", "",
                 "Problem statement cannot exceed 2000 characters")
    + PathErrors(u.solution, 0, 2000, "Please describe your solution", "", "Solution cannot exceed 2000 characters")
  }

  /** The `match` validators' messages for the URL paths the body carries. */
  function PatchUrlErrors(u: ContentPatch): (errs: seq<string>)
    ensures errs == [] <==> UrlsAccepted(u)
  {
    P.UrlError(UrlPath(u.demoUrl), P.UrlMatches(UrlPath(u.demoUrl)), "Please provide a valid URL")
    + P.UrlError(UrlPath(u.videoUrl), P.UrlMatches(UrlPath(u.videoUrl)), "Please provide a valid URL")
    + P.UrlError(UrlPath(u.githubUrl), P.GithubUrlMatches(UrlPath(u.githubUrl)), "Please provide a valid GitHub URL")
  }

  /** An update the validators accept keeps valid content valid. */
  lemma PatchKeepsValid(c: P.Content, u: ContentPatch)
    requires PatchErrors(u) == [] && P.ContentValid(c)
    ensures P.ContentValid(Patched(c, u))
  {
    var d := Patched(c, u);
    assert 5 <= |d.title| <= 100;
    assert 1 <= |d.tagline| <= 200 && 50 <= |d.description| <= 5000;
    assert P.UrlsValid(d);
  }

  /** An empty body changes nothing. */
  lemma EmptyPatch(c: P.Content)
    ensures Patched(c, ContentPatch(None, None, None, None, None, None, None, None, None, None)) == c
  {
  }

  /** Applying the same update twice is applying it once. */
  lemma PatchIdempotent(c: P.Content, u: ContentPatch)
    ensures Patched(Patched(c, u), u) == Patched(c, u)
  {
  }

  /** The guards of `updateProject`, in order: the reply that refuses the
      update, or None when it goes ahead. */
  function UpdateRefusal(db: Store, pid: Id, u: ContentPatch): (refusal: Option<Reply>)
    reads db, db.projects.Values
    ensures pid !in db.projects ==> refusal == Some(Reply(404, "Project not found"))
    ensures pid in db.projects && db.projects[pid].status == P.Submitted ==>
              refusal == Some(Reply(400, "Cannot update a submitted project"))
    ensures pid in db.projects && db.projects[pid].status != P.Submitted && PatchErrors(u) != [] ==>
              refusal == Some(ErrorHandler.Handle(ErrorHandler.ValidationFailure(PatchErrors(u))))
    ensures refusal.None? <==> pid in db.projects && db.projects[pid].status != P.Submitted && PatchErrors(u) == []
    ensures refusal.Some? ==> refusal.value.status != 200
  {
    if pid !in db.projects then Some(Reply(404, "Project not found"))
    else if db.projects[pid].status == P.Submitted then Some(Reply(400, "Cannot update a submitted project"))
    else if PatchErrors(u) != [] then
      ErrorHandler.ValidationClassified(PatchErrors(u));
      Some(ErrorHandler.Handle(ErrorHandler.ValidationFailure(PatchErrors(u))))
    else None
  }

  /** A project's aggregates after an update body that carries its
      evaluation list, total or average. */
  function Overridden(a: Aggregate, b: UpdateBody): Aggregate {
    Aggregate(b.evaluations.GetOr(a.evaluations), b.totalScore.GetOr(a.totalScore), b.averageScore.GetOr(a.averageScore))
  }

  /** The stored project `pid` after `findByIdAndUpdate(req.params.id,
      req.body)`: every path the body carries replaces the stored one, the
      judging state's view of the project included. */
  twostate predicate Overwritten(db: Store, pid: Id, b: UpdateBody)
    reads db, db.projects.Values
  {
    && pid in old(db.projects) && db.projects == old(db.projects)
    && db.projects[pid].content == Patched(old(db.projects[pid].content), b.content)
    && db.projects[pid].team == b.team.GetOr(old(db.projects[pid].team))
    && db.projects[pid].category == b.category.GetOr(old(db.projects[pid].category))
    && db.projects[pid].status == b.status.GetOr(old(db.projects[pid].status))
    && db.projects[pid].submittedAt == (if b.submittedAt.Some? then b.submittedAt else old(db.projects[pid].submittedAt))
    && db.Aggregates() == old(db.Aggregates())[pid := Overridden(old(db.Aggregates())[pid], b)]
  }

  /** `updateProject` as written: refused as `UpdateRefusal` says, with
      nothing changed; otherwise 200, with every path of the body written,
      its team, status and scores included. */
  method UpdateProject(db: Store, pid: Id, b: UpdateBody) returns (r: Reply)
    requires db.Keyed()
    modifies db.ProjectFrame(pid)`content, db.ProjectFrame(pid)`team, db.ProjectFrame(pid)`category
    modifies db.ProjectFrame(pid)`status, db.ProjectFrame(pid)`submittedAt
    modifies db.ProjectFrame(pid)`evaluations, db.ProjectFrame(pid)`totalScore, db.ProjectFrame(pid)`averageScore
    ensures old(UpdateRefusal(db, pid, b.content)).Some? ==>
              r == old(UpdateRefusal(db, pid, b.content)).value && unchanged(db.ProjectFrame(pid))
    ensures old(UpdateRefusal(db, pid, b.content)).None? ==> r == Reply(200, "") && Overwritten(db, pid, b)
  {
    var refusal := UpdateRefusal(db, pid, b.content);
    if refusal.Some? {
      return refusal.value;
    }
    Edit(db, pid, db.projects[pid], b);
    r := Reply(200, "");
  }

  /** `findByIdAndUpdate` with the whole body on a stored project. */
  method Edit(db: Store, pid: Id, p: P.Project, b: UpdateBody)
    requires db.Keyed() && pid in db.projects && db.projects[pid] == p
    modifies p`content, p`team, p`category, p`status, p`submittedAt, p`evaluations, p`totalScore, p`averageScore
    ensures Overwritten(db, pid, b)
  {
    assert forall k :: k in db.projects && k != pid ==> db.projects[k] != p;
    p.content := Patched(p.content, b.content);
    p.team := b.team.GetOr(p.team);
    p.category := b.category.GetOr(p.category);
    p.status := b.status.GetOr(p.status);
    if b.submittedAt.Some? {
      p.submittedAt := b.submittedAt;
    }
    p.evaluations := b.evaluations.GetOr(p.evaluations);
    p.totalScore := b.totalScore.GetOr(p.totalScore);
    p.averageScore := b.averageScore.GetOr(p.averageScore);
  }

  /** As written, a body carrying a total other than the sum of the
      project's evaluations leaves the judging state inconsistent: the
      leaderboard reads a score no judge gave. */
  lemma TamperedTotalBreaksConsistency(ps: map<Id, Aggregate>, es: map<Id, Link>, pid: Id, b: UpdateBody)
    requires Consistent(ps, es) && pid in ps
    requires b.evaluations.None? && b.totalScore.Some? && b.totalScore.value != ps[pid].totalScore
    ensures !Consistent(ps[pid := Overridden(ps[pid], b)], es)
  {
    var ps' := ps[pid := Overridden(ps[pid], b)];
    assert AggregateOf(ps[pid], pid, es);
    assert !AggregateOf(ps'[pid], pid, es);
  }

  /** As written, a body naming another existing team moves the project to
      it, while neither team's reference says so: teams and projects no
      longer agree. */
  lemma ReassignedTeamBreaksOwned(teams: map<Id, T.Team>, owners: map<Id, Id>, pid: Id, t: Id)
    requires Owned(teams, owners) && pid in owners && owners[pid] in teams
    requires t in teams && t != owners[pid]
    ensures !Owned(teams, owners[pid := t])
  {
    assert teams[owners[pid]].project == Some(pid);
  }

  /** `updateProject` as evidently intended: the same guards, but only the
      content paths of the body are written; the team, status, submission
      time and scores keep their values, so the judging state and the
      team-project agreement are kept. */
  method UpdateProjectFixed(db: Store, pid: Id, b: UpdateBody) returns (r: Reply)
    modifies db.ProjectFrame(pid)`content
    ensures db.Aggregates() == old(db.Aggregates()) && Owners(db) == old(Owners(db))
    ensures old(UpdateRefusal(db, pid, b.content)).Some? ==>
              r == old(UpdateRefusal(db, pid, b.content)).value && unchanged(db.ProjectFrame(pid))
    ensures old(UpdateRefusal(db, pid, b.content)).None? ==>
              && r == Reply(200, "")
              && db.projects[pid].content == Patched(old(db.projects[pid].content), b.content)
              && (P.ContentValid(old(db.projects[pid].content)) ==> P.ContentValid(db.projects[pid].content))
  {
    var refusal := UpdateRefusal(db, pid, b.content);
    if refusal.Some? {
      return refusal.value;
    }
    var p := db.projects[pid];
    ghost var before := p.content;
    EditContent(db, pid, p, b.content);
    if P.ContentValid(before) {
      PatchKeepsValid(before, b.content);
    }
    r := Reply(200, "");
  }

  /** `findByIdAndUpdate` with the content paths only: the judging state
      and the project's team are untouched. */
  method EditContent(db: Store, pid: Id, p: P.Project, u: ContentPatch)
    requires pid in db.projects && db.projects[pid] == p
    modifies p`content
    ensures p.content == Patched(old(p.content), u)
    ensures db.Aggregates() == old(db.Aggregates()) && Owners(db) == old(Owners(db))
  {
    p.content := Patched(p.content, u);
  }

  /** The status guard lets every status but `submitted` through: a project
      already under review or reviewed can still be edited. */
  lemma UnderReviewEditable(db: Store, pid: Id, u: ContentPatch)
    requires pid in db.projects && db.projects[pid].status in {P.UnderReview, P.Reviewed, P.Draft}
    requires PatchErrors(u) == []
    ensures UpdateRefusal(db, pid, u).None?
  {
  }

  // ---------------------------------------------------------------------------
  // deleteProject

  /** `deleteProject`: 404 for a missing project; otherwise the project is
      deleted and its team, if it still exists, no longer refers to it. Its
      evaluations and submissions are left in place. */
  method DeleteProject(db: Store, pid: Id) returns (r: Reply)
    modifies db`projects, db`teams
    ensures pid !in old(db.projects) ==>
              r == Reply(404, "Project not found") && db.projects == old(db.projects) && db.teams == old(db.teams)
    ensures pid in old(db.projects) ==>
              && r == Reply(200, "Project deleted successfully")
              && db.projects == old(db.projects) - {pid}
              && db.Aggregates() == old(db.Aggregates()) - {pid}
              && db.teams == Unlinked(old(db.teams), old(db.projects)[pid].team)
  {
    if pid !in db.projects {
      return Reply(404, "Project not found");
    }
    var t := db.projects[pid].team;
    DropProject(db, pid);
    db.teams := Unlinked(db.teams, t);
    r := Reply(200, "Project deleted successfully");
  }

  /** `Team.findByIdAndUpdate(team, {project: null})`: the team, if it
      exists, no longer has a project; every other team is unchanged. */
  function Unlinked(teams: map<Id, T.Team>, t: Id): (r: map<Id, T.Team>)
    ensures r.Keys == teams.Keys
    ensures t in teams ==> r[t] == teams[t].(project := None)
    ensures forall k :: k in teams && k != t ==> r[k] == teams[k]
  {
    if t in teams then teams[t := teams[t].(project := None)] else teams
  }

  /** `project.deleteOne()`: the judging state loses the project. */
  method DropProject(db: Store, pid: Id)
    requires pid in db.projects
    modifies db`projects
    ensures db.projects == old(db.projects) - {pid}
    ensures db.Aggregates() == old(db.Aggregates()) - {pid}
  {
    db.projects := db.projects - {pid};
  }

  /** A deletion keeps the judging state consistent (the project's
      evaluations stay behind, naming a project that no longer exists) and
      keeps teams and projects in agreement. */
  lemma DeleteKeepsInvariants(teams: map<Id, T.Team>, owners: map<Id, Id>, ps: map<Id, Aggregate>,
                              es: map<Id, Link>, pid: Id)
    requires Consistent(ps, es) && Owned(teams, owners) && pid in owners
    ensures Consistent(ps - {pid}, es)
    ensures Owned(Unlinked(teams, owners[pid]), owners - {pid})
  {
    RemoveProjectKeepsConsistent(ps, es, pid);
    DeleteKeepsOwned(teams, owners, pid);
  }

  // ---------------------------------------------------------------------------
  // Who may edit or delete a project.

  /** As written: the edit and delete routes put the member guard in front
      of the handler, with nothing in `req.params.teamId` or the body, so the
      guard settles on the caller's own team; neither it nor the handler
      looks at the project's team. A member of one team passes for a project
      of another, which the guard on that project's own team refuses. */
  lemma MemberGuardIgnoresProject(teams: map<Id, T.Team>, me: Id, mine: Id, owner: Id)
    requires mine in teams && T.IsMember(teams[mine], me)
    requires owner in teams && !T.IsMember(teams[owner], me)
    ensures RoleMiddleware.IsTeamMember(teams, me, Some(mine), None, None) == RoleMiddleware.Next(mine)
    ensures RoleMiddleware.RouteMemberGuard(teams, me, Some(mine), owner, None).Stop?
  {
  }

  /** The guard the edit route evidently intends: a missing project is not
      found; otherwise only a member of the project's own team gets
      through. */
  function MemberOfProject(db: Store, me: Id, pid: Id): (g: RoleMiddleware.Guard<Id>)
    reads db, db.projects.Values
    requires me in db.users
    ensures pid !in db.projects ==> g == RoleMiddleware.Stop(Reply(404, "Project not found"))
    ensures g.Next? <==>
              pid in db.projects && db.projects[pid].team in db.teams && T.IsMember(db.teams[db.projects[pid].team], me)
    ensures g.Stop? ==> 400 <= g.reply.status <= 404
  {
    if pid !in db.projects then RoleMiddleware.Stop(Reply(404, "Project not found"))
    else RoleMiddleware.RouteMemberGuard(db.teams, me, db.users[me].team, db.projects[pid].team, None)
  }

  /** The guard the delete route's access note (team leader) evidently
      intends: only the leader of the project's own team gets through. */
  function LeaderOfProject(db: Store, me: Id, pid: Id): (g: RoleMiddleware.Guard<Id>)
    reads db, db.projects.Values
    ensures pid !in db.projects ==> g == RoleMiddleware.Stop(Reply(404, "Project not found"))
    ensures g.Next? <==>
              pid in db.projects && db.projects[pid].team in db.teams && db.teams[db.projects[pid].team].leader == me
    ensures g.Stop? ==> 400 <= g.reply.status <= 404
  {
    if pid !in db.projects then RoleMiddleware.Stop(Reply(404, "Project not found"))
    else RoleMiddleware.RouteLeaderGuard(db.teams, me, db.projects[pid].team, None)
  }

  /** `updateProject` behind the guard on the project's own team: a caller
      outside that team changes nothing. */
  method UpdateOwnProject(db: Store, me: Id, pid: Id, b: UpdateBody) returns (r: Reply)
    requires me in db.users
    modifies db.ProjectFrame(pid)`content
    ensures db.Aggregates() == old(db.Aggregates()) && Owners(db) == old(Owners(db))
    ensures old(MemberOfProject(db, me, pid)).Stop? ==>
              r == old(MemberOfProject(db, me, pid)).reply && unchanged(db.ProjectFrame(pid))
    ensures r.status == 200 ==> old(MemberOfProject(db, me, pid)).Next?
    ensures r.status == 200 ==> db.projects[pid].content == Patched(old(db.projects[pid].content), b.content)
  {
    var g := MemberOfProject(db, me, pid);
    if g.Stop? {
      return g.reply;
    }
    r := UpdateProjectFixed(db, pid, b);
  }

  /** `deleteProject` behind the guard on the project's own team leader: no
      one else deletes it. */
  method DeleteOwnProject(db: Store, me: Id, pid: Id) returns (r: Reply)
    modifies db`projects, db`teams
    ensures old(LeaderOfProject(db, me, pid)).Stop? ==>
              r == old(LeaderOfProject(db, me, pid)).reply && db.projects == old(db.projects) && db.teams == old(db.teams)
    ensures old(LeaderOfProject(db, me, pid)).Next? ==>
              && r == Reply(200, "Project deleted successfully")
              && old(db.teams)[old(db.projects)[pid].team].leader == me
              && db.projects == old(db.projects) - {pid}
              && db.teams == Unlinked(old(db.teams), old(db.projects)[pid].team)
  {
    var g := LeaderOfProject(db, me, pid);
    if g.Stop? {
      return g.reply;
    }
    r := DeleteProject(db, pid);
  }

  // ---------------------------------------------------------------------------
  // getProjects

  /** What the listing sorts on. */
  datatype Listed = Listed(id: Id, category: Id, status: P.Status, averageScore: real, submittedAt: Option<Time>)

  /** The `category` and `status` filters; an absent filter lets all
      through. */
  predicate Matches(l: Listed, category: Option<Id>, status: Option<P.Status>) {
    (category.None? || l.category == category.value) && (status.None? || l.status == status.value)
  }

  /** `submittedAt` descending: a missing date sorts after every date. */
  predicate NoEarlier(a: Option<Time>, b: Option<Time>) {
    b.None? || (a.Some? && a.value >= b.value)
  }

  /** `sort({averageScore: -1, submittedAt: -1})`: `a` may come before `b`. */
  predicate RanksBefore(a: Listed, b: Listed) {
    a.averageScore > b.averageScore || (a.averageScore == b.averageScore && NoEarlier(a.submittedAt, b.submittedAt))
  }

  /** A listing in the order the query returns it. */
  predicate Ranked(ls: seq<Listed>) {
    forall i, j :: 0 <= i < j < |ls| ==> RanksBefore(ls[i], ls[j])
  }

  /** The listing order is total and transitive, so any two listings of the
      same projects differ only in the order of ties. */
  lemma RankOrder(a: Listed, b: Listed, c: Listed)
    ensures RanksBefore(a, b) || RanksBefore(b, a)
    ensures RanksBefore(a, b) && RanksBefore(b, c) ==> RanksBefore(a, c)
    ensures RanksBefore(a, a)
  {
  }

  /** A higher average always comes first; among equal averages, the later
      submission. */
  lemma RankedHead(ls: seq<Listed>)
    requires Ranked(ls) && ls != []
    ensures forall i :: 0 <= i < |ls| ==> ls[i].averageScore <= ls[0].averageScore
  {
  }

  /** The projects the filters let through, in stored order. */
  function Filtered(all: seq<Listed>, category: Option<Id>, status: Option<P.Status>): (r: seq<Listed>)
    ensures |r| <= |all|
    ensures forall i :: 0 <= i < |r| ==> Matches(r[i], category, status) && r[i] in all
    ensures forall i :: 0 <= i < |all| && Matches(all[i], category, status) ==> all[i] in r
    ensures Subsequence(r, all)
    ensures forall l :: Matches(l, category, status) ==> multiset(r)[l] == multiset(all)[l]
  {
    if all == [] then []
    else
      assert all == [all[0]] + all[1..];
      var rest := Filtered(all[1..], category, status);
      if Matches(all[0], category, status) then
        assert ([all[0]] + rest)[1..] == rest;
        [all[0]] + rest
      else rest
  }
}
