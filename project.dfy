/** A team's project (backend/models/Project.js): its content, uploaded files,
    submission status and the score aggregates the judging updates. */
module ProjectModel {
  import opened Common
  import opened Text

  datatype Status = Draft | Submitted | UnderReview | Reviewed

  /** An uploaded project file as the project records it. */
  datatype FileRecord = FileRecord(filename: string, path: string, size: nat, mimetype: string)

  /** The descriptive fields a team fills in. A missing string is "". */
  datatype Content = Content(
    title: string,
    tagline: string,
    description: string,
    technologies: seq<string>,
    problemStatement: string,
    solution: string,
    features: seq<string>,
    demoUrl: string,
    videoUrl: string,
    githubUrl: string)

  /** The schema's `trim: true` paths, trimmed as the document stores them. */
  function Stored(c: Content): (r: Content)
    ensures r.title == Trim(c.title)
    ensures |r.technologies| == |c.technologies| && |r.features| == |c.features|
    ensures r.tagline == c.tagline && r.description == c.description
  {
    c.(title := Trim(c.title),
       technologies := TrimAll(c.technologies),
       features := TrimAll(c.features),
       demoUrl := Trim(c.demoUrl), videoUrl := Trim(c.videoUrl), githubUrl := Trim(c.githubUrl))
  }

  /** What storing does to each path: the title, every technology and
      feature, and the three URLs are trimmed; the other paths are kept. */
  lemma StoredMeans(c: Content)
    ensures var r := Stored(c);
            && r.title == Trim(c.title)
            && |r.technologies| == |c.technologies| && |r.features| == |c.features|
            && (forall i :: 0 <= i < |r.technologies| ==> r.technologies[i] == Trim(c.technologies[i]))
            && (forall i :: 0 <= i < |r.features| ==> r.features[i] == Trim(c.features[i]))
            && r.demoUrl == Trim(c.demoUrl) && r.videoUrl == Trim(c.videoUrl) && r.githubUrl == Trim(c.githubUrl)
            && r.tagline == c.tagline && r.description == c.description
            && r.problemStatement == c.problemStatement && r.solution == c.solution
  {
  }

  /** The first failing validator of one string path, in declaration order:
      required, then minimum length, then maximum length. */
  function FieldError(v: string, min: nat, max: nat, required: string, tooShort: string, tooLong: string): (errs: seq<string>)
    ensures |errs| <= 1
    ensures errs == [] <==> v != "" && min <= |v| <= max
  {
    if v == "" then [required]
    else if |v| < min then [tooShort]
    else if |v| > max then [tooLong]
    else []
  }

  /** The schema validators' messages for the stored content, in path order:
      the length validators, then the URL patterns. */
  function ContentErrors(c: Content): (errs: seq<string>)
    ensures errs == [] <==> ContentValid(c)
  {
    LengthErrors(c) + UrlErrors(c)
  }

  /** The `required`, `minlength` and `maxlength` validators' messages. */
  function LengthErrors(c: Content): (errs: seq<string>)
    ensures errs == [] <==> LengthsValid(c)
  {
    FieldError(c.title, 5, 100, "Please provide project title",
               "Title must be at least 5 characters", "Title cannot exceed 100 characters")
    + FieldError(c.tagline, 0, 200, "Please provide a tagline", "", "Tagline cannot exceed 200 characters")
    + FieldError(c.description, 50, 5000, "Please provide project description",
                 "Description must be at least 50 characters", "Description cannot exceed 5000 characters")
    + FieldError(c.problemStatement, 0, 2000, "Please describe the problem you are solving", "",
                 "Problem statement cannot exceed 2000 characters")
    + FieldError(c.solution, 0, 2000, "Please describe your solution", "", "Solution cannot exceed 2000 characters")
  }

  /** The `match` validators' messages: a URL path that is empty (absent)
      passes, any other must match its pattern. */
  function UrlErrors(c: Content): (errs: seq<string>)
    ensures errs == [] <==> UrlsValid(c)
    ensures |errs| <= 3
  {
    UrlError(c.demoUrl, UrlMatches(c.demoUrl), "Please provide a valid URL")
    + UrlError(c.videoUrl, UrlMatches(c.videoUrl), "Please provide a valid URL")
    + UrlError(c.githubUrl, GithubUrlMatches(c.githubUrl), "Please provide a valid GitHub URL")
  }

  /** One `match` validator: an empty value is not tested. */
  function UrlError(v: string, matches: bool, message: string): (errs: seq<string>)
    ensures errs == [] <==> v == "" || matches
    ensures errs != [] ==> errs == [message]
  {
    if v == "" || matches then [] else [message]
  }

  /** The schema's validators all pass. */
  predicate ContentValid(c: Content) {
    LengthsValid(c) && UrlsValid(c)
  }

  /** Every URL path is absent or matches its pattern. */
  predicate UrlsValid(c: Content) {
    (c.demoUrl == "" || UrlMatches(c.demoUrl)) && (c.videoUrl == "" || UrlMatches(c.videoUrl))
    && (c.githubUrl == "" || GithubUrlMatches(c.githubUrl))
  }

  // ---------------------------------------------------------------------------
  // The URL patterns (case-sensitive; `\w` is `[A-Za-z0-9_]`).

  /** `[\da-z\.-]`: a character of the host part. */
  predicate HostChar(ch: char) { IsDigit(ch) || IsLower(ch) || ch == '.' || ch == '-' }

  /** `[a-z\.]`: a character of the top-level part. */
  predicate TldChar(ch: char) { IsLower(ch) || ch == '.' }

  /** `[\/\w \.-]`: a character of the path part. */
  predicate PathChar(ch: char) { IsWordChar(ch) || ch == '/' || ch == ' ' || ch == '.' || ch == '-' }

  /** `[\w-]`: a character of a GitHub user or repository name. */
  predicate SlugChar(ch: char) { IsWordChar(ch) || ch == '-' }

  /** `s` starts with `prefix`. */
  predicate StartsWith(s: string, prefix: string) {
    |prefix| <= |s| && s[..|prefix|] == prefix
  }

  /** What follows the optional `(https?:\/\/)?`: `s` itself, or `s` without
      a scheme it starts with. */
  function Unschemed(s: string): (rests: seq<string>)
    ensures s in rests
    ensures forall r :: r in rests ==> |r| <= |s|
  {
    [s] + (if StartsWith(s, "http://") then [s[7..]] else []) + (if StartsWith(s, "https://") then [s[8..]] else [])
  }

  /** The demo and video URL pattern
      `^(https?:\/\/)?([\da-z\.-]+)\.([a-z\.]{2,6})([\/\w \.-]*)*\/?$`. */
  predicate UrlMatches(s: string) {
    exists r | r in Unschemed(s) :: SiteMatches(r)
  }

  /** `([\da-z\.-]+)\.` then the rest: a non-empty host, a dot, and a tail. The
      final optional slash adds nothing, since a slash is a path character. */
  predicate SiteMatches(r: string) {
    exists i | 0 < i < |r| :: r[i] == '.' && HostChars(r[..i]) && TailMatches(r[i + 1..])
  }

  /** `([a-z\.]{2,6})([\/\w \.-]*)*`: two to six top-level characters, then
      path characters. */
  predicate TailMatches(t: string) {
    exists k | 2 <= k <= 6 && k <= |t| :: TldChars(t[..k]) && PathChars(t[k..])
  }

  /** The GitHub URL pattern
      `^(https?:\/\/)?(www\.)?github\.com\/[\w-]+\/[\w-]+\/?$`. */
  predicate GithubUrlMatches(s: string) {
    exists r | r in Unschemed(s) :: GithubHostMatches(r)
  }

  /** `(www\.)?github\.com\/` then an owner and a repository. */
  predicate GithubHostMatches(r: string) {
    (StartsWith(r, "github.com/") && RepoMatches(r[11..]))
    || (StartsWith(r, "www.github.com/") && RepoMatches(r[15..]))
  }

  /** `[\w-]+\/[\w-]+\/?`: an owner, a slash, a repository and an optional
      final slash. */
  predicate RepoMatches(t: string) {
    exists j | 0 < j < |t| :: t[j] == '/' && Slug(t[..j])
      && (Slug(t[j + 1..]) || (j + 2 < |t| && t[|t| - 1] == '/' && Slug(t[j + 1..|t| - 1])))
  }

  /** `[\w-]+`. */
  predicate Slug(s: string) {
    s != [] && forall i :: 0 <= i < |s| ==> SlugChar(s[i])
  }

  predicate HostChars(s: string) { forall i :: 0 <= i < |s| ==> HostChar(s[i]) }

  predicate TldChars(s: string) { forall i :: 0 <= i < |s| ==> TldChar(s[i]) }

  predicate PathChars(s: string) { forall i :: 0 <= i < |s| ==> PathChar(s[i]) }

  /** The schema's length bounds on the descriptive fields. */
  predicate LengthsValid(c: Content) {
    5 <= |c.title| <= 100 && 1 <= |c.tagline| <= 200 && 50 <= |c.description| <= 5000
    && 1 <= |c.problemStatement| <= 2000 && 1 <= |c.solution| <= 2000
  }

  /** The average of `count` evaluations totalling `total`; 0 when there are
      none. */
  function Average(total: real, count: nat): real {
    if count == 0 then 0.0 else total / (count as real)
  }

  class Project {
    const id: Id
    var team: Id
    var category: Id
    var content: Content
    var files: seq<FileRecord>
    var screenshots: seq<string>
    var status: Status
    var submittedAt: Option<Time>
    var evaluations: seq<Id>
    var totalScore: real
    var averageScore: real

    /** A new project: a draft with no evaluations and zero scores. */
    constructor (id: Id, team: Id, category: Id, content: Content, files: seq<FileRecord>, screenshots: seq<string>)
      ensures this.id == id && this.team == team && this.category == category
      ensures this.content == Stored(content) && this.files == files && this.screenshots == screenshots
      ensures status == Draft && submittedAt.None?
      ensures evaluations == [] && totalScore == 0.0 && averageScore == 0.0
    {
      this.id := id;
      this.team := team;
      this.category := category;
      this.content := Stored(content);
      this.files := files;
      this.screenshots := screenshots;
      status := Draft;
      submittedAt := None;
      evaluations := [];
      totalScore := 0.0;
      averageScore := 0.0;
    }

    /** `submit`: marks the project submitted at `now`; nothing else changes. */
    method Submit(now: Time)
      modifies this`status, this`submittedAt
      ensures status == Submitted && submittedAt == Some(now)
    {
      status := Submitted;
      submittedAt := Some(now);
    }

    /** `calculateAverageScore`: only `averageScore` changes. */
    method CalculateAverageScore()
      modifies this`averageScore
      ensures averageScore == Average(totalScore, |evaluations|)
    {
      if |evaluations| == 0 {
        averageScore := 0.0;
        return;
      }
      averageScore := totalScore / (|evaluations| as real);
    }
  }

  // ---------------------------------------------------------------------------
  // Facts about the aggregates.

  /** The average is 0 without evaluations, and otherwise the value whose
      `count` copies make up the total. */
  lemma AverageMeaning(total: real, count: nat)
    ensures count == 0 ==> Average(total, count) == 0.0
    ensures count > 0 ==> Average(total, count) * (count as real) == total
  {
  }

  /** When no evaluation is worth more than `hi`, neither is the average. */
  lemma AverageBounds(total: real, count: nat, hi: real)
    requires count > 0 && 0.0 <= total <= hi * (count as real)
    ensures 0.0 <= Average(total, count) <= hi
  {
    var n := count as real;
    var a := Average(total, count);
    AverageMeaning(total, count);
    assert a * n == total;
    assert (a - hi) * n <= 0.0;
    assert a * n >= 0.0;
  }

  // ---------------------------------------------------------------------------
  // Facts about the URL patterns.

  /** A string differing from `p` at one of `p`'s positions does not start
      with `p`. */
  lemma NotPrefix(s: string, p: string, i: nat)
    requires i < |p| && i < |s| && s[i] != p[i]
    ensures !StartsWith(s, p)
  {
    if |p| <= |s| {
      assert s[..|p|][i] == s[i];
    }
  }

  /** A string that starts with neither scheme is its own rest. */
  lemma NoScheme(s: string)
    requires s != [] && s[0] != 'h'
    ensures Unschemed(s) == [s]
  {
    NotPrefix(s, "http://", 0);
    NotPrefix(s, "https://", 0);
  }

  /** A site with a scheme, a dotted host and a top-level part matches. */
  lemma SiteUrlMatches()
    ensures UrlMatches("http://a.io")
  {
    var s := "http://a.io";
    assert s == "http://" + "a.io";
    var r := "a.io";
    assert r in Unschemed(s);
    assert r[..1] == "a" && r[2..] == "io";
    assert r[1] == '.' && HostChars(r[..1]) && TailMatches(r[2..]) by {
      assert "io"[..2] == "io" && "io"[2..] == "";
    }
  }

  /** Words without a dot are not a URL. */
  lemma WordsNoUrl()
    ensures !UrlMatches("not a url")
  {
    var w := "not a url";
    NoScheme(w);
    assert forall i | 0 <= i < |w| :: w[i] != '.';
  }

  /** An owner and a repository after `github.com/` match the GitHub
      pattern. */
  lemma RepoUrlMatches()
    ensures GithubUrlMatches("github.com/u/r")
  {
    var s := "github.com/u/r";
    assert s == "github.com/" + "u/r";
    assert s in Unschemed(s);
    var t := "u/r";
    assert t[1] == '/' && t[..1] == "u" && t[2..] == "r";
    assert RepoMatches(t);
  }

  /** A page below a repository names github.com but does not match the
      GitHub pattern: after the owner, the rest holds another slash. */
  lemma TreeUrlNoRepo()
    ensures Contains("github.com/u/r/t", "github.com")
    ensures !GithubUrlMatches("github.com/u/r/t")
  {
    var s := "github.com/u/r/t";
    assert s == "github.com" + "/u/r/t";
    assert OccursAt(s, "github.com", 0);
    NoScheme(s);
    assert s == "github.com/" + "u/r/t";
    NotPrefix(s, "www.github.com/", 0);
    NotRepo("u/r/t");
  }

  /** `u/r/t` is not an owner and a repository. */
  lemma NotRepo(t: string)
    requires t == "u/r/t"
    ensures !RepoMatches(t)
  {
    assert forall j | 0 < j < |t| && t[j] == '/' :: j == 1 || j == 3;
    assert !Slug(t[..3]) by {
      assert t[..3][1] == '/';
    }
    assert !Slug(t[2..]) by {
      assert t[2..][1] == '/';
    }
  }

  /** Storing stored content again changes nothing: every trimmed path is
      already trimmed. */
  lemma StoredIdempotent(c: Content)
    ensures Stored(Stored(c)) == Stored(c)
  {
    var d := Stored(c);
    TrimIdempotent(c.title);
    TrimIdempotent(c.demoUrl);
    TrimIdempotent(c.videoUrl);
    TrimIdempotent(c.githubUrl);
    forall i | 0 <= i < |c.technologies| ensures Trim(d.technologies[i]) == d.technologies[i] {
      TrimIdempotent(c.technologies[i]);
    }
    forall i | 0 <= i < |c.features| ensures Trim(d.features[i]) == d.features[i] {
      TrimIdempotent(c.features[i]);
    }
    assert Stored(d).technologies == d.technologies;
    assert Stored(d).features == d.features;
  }
}
