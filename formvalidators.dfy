/** The browser-side form checks (frontend/src/utils/validators.js). Each
    `validate*` builds a map from field name to message, one field after the
    other, and the form is accepted when the map stays empty. A form field the
    user never filled in is `None`. `isValidUrl` (whether `new URL` accepts the
    text) is the parameter `validUrl`. */
module FormValidators {
  import opened Common
  import opened Text

  // ---------------------------------------------------------------------------
  // Field checks.

  /** `!v?.trim()`: absent, or nothing but white space. */
  predicate Blank(v: Option<string>) {
    v.None? || Trim(v.value) == ""
  }

  /** `!v`: absent or empty. */
  predicate Falsy(v: Option<string>) {
    v.None? || v.value == ""
  }

  /** A required text field whose trimmed length must lie in [min, max]
      (`max` absent for no upper bound). The first failing check gives the
      message. */
  function TrimmedError(v: Option<string>, min: nat, max: Option<nat>,
                        required: string, tooShort: string, tooLong: string): (e: Option<string>)
    ensures e.None? <==> !Blank(v) && min <= |Trim(v.value)| && (max.None? || |Trim(v.value)| <= max.value)
    ensures Blank(v) ==> e == Some(required)
    ensures !Blank(v) && |Trim(v.value)| < min ==> e == Some(tooShort)
    ensures !Blank(v) && min <= |Trim(v.value)| && e.Some? ==> e == Some(tooLong)
  {
    if Blank(v) then Some(required)
    else if |Trim(v.value)| < min then Some(tooShort)
    else if max.Some? && |Trim(v.value)| > max.value then Some(tooLong)
    else None
  }

  /** Neither white space nor '@' (the class `[^\s@]`). */
  predicate Plain(s: string) {
    forall i :: 0 <= i < |s| ==> !IsSpace(s[i]) && s[i] != '@'
  }

  /** The pattern `^[^\s@]+@[^\s@]+\.[^\s@]+$`: an '@' at `k` and a '.' at
      `d` split the text into three non-empty plain parts. */
  predicate EmailShaped(s: string) {
    exists k, d | 0 < k < |s| && k + 1 < d < |s| - 1 ::
      s[k] == '@' && s[d] == '.' && Plain(s[..k]) && Plain(s[k + 1..d]) && Plain(s[d + 1..])
  }

  /** A line terminator, which `.` in a pattern does not match. */
  predicate LineTerminator(c: char) {
    c == '\n' || c == '\r' || c == '\U{2028}' || c == '\U{2029}'
  }

  /** `.*` followed by a character satisfying `q` matches from `p`: such a
      character follows `p` on the same line. */
  predicate OnLineFrom(s: string, p: nat, q: char -> bool) {
    exists j | p <= j < |s| :: q(s[j]) && forall m | p <= m < j :: !LineTerminator(s[m])
  }

  /** The pattern `(?=.*[a-z])(?=.*[A-Z])(?=.*\d)`, which is not anchored: at
      some position a lower-case letter, an upper-case letter and a digit all
      follow on the same line. */
  predicate Mixed(s: string) {
    exists p | 0 <= p <= |s| :: OnLineFrom(s, p, IsLower) && OnLineFrom(s, p, IsUpper) && OnLineFrom(s, p, IsDigit)
  }

  predicate Has(s: string, q: char -> bool) {
    exists j | 0 <= j < |s| :: q(s[j])
  }

  /** On a single line the pattern asks only that each kind of character
      occurs somewhere. */
  lemma MixedOnOneLine(s: string)
    requires forall i :: 0 <= i < |s| ==> !LineTerminator(s[i])
    ensures Mixed(s) <==> Has(s, IsLower) && Has(s, IsUpper) && Has(s, IsDigit)
  {
    if Has(s, IsLower) && Has(s, IsUpper) && Has(s, IsDigit) {
      var a :| 0 <= a < |s| && IsLower(s[a]);
      var b :| 0 <= b < |s| && IsUpper(s[b]);
      var c :| 0 <= c < |s| && IsDigit(s[c]);
      assert OnLineFrom(s, 0, IsLower) && OnLineFrom(s, 0, IsUpper) && OnLineFrom(s, 0, IsDigit);
    }
  }

  /** A line break between the letters defeats the pattern although every
      kind of character occurs. */
  lemma LineBreakDefeatsMixed()
    ensures Has("a\nA1", IsLower) && Has("a\nA1", IsUpper) && Has("a\nA1", IsDigit)
    ensures !Mixed("a\nA1")
  {
    var s := "a\nA1";
    assert IsLower(s[0]) && IsUpper(s[2]) && IsDigit(s[3]);
    forall p | 0 <= p <= |s| ensures !(OnLineFrom(s, p, IsLower) && OnLineFrom(s, p, IsUpper)) {
      if p <= 1 {
        forall j | p <= j < |s| && IsUpper(s[j]) ensures p <= 1 < j && LineTerminator(s[1]) {
        }
      } else {
        forall j | p <= j < |s| ensures !IsLower(s[j]) {
        }
      }
    }
  }

  function NameError(v: Option<string>, which: string): (e: Option<string>)
    ensures e.Some? <==> Blank(v) || |Trim(v.value)| < 2
  {
    TrimmedError(v, 2, None, which + " name is required", which + " name must be at least 2 characters", "")
  }

  /** The e-mail check: required once trimmed, then the pattern on the text as
      typed. */
  function EmailError(v: Option<string>): (e: Option<string>)
    ensures e.Some? <==> Blank(v) || !EmailShaped(v.value)
    ensures Blank(v) ==> e == Some("Email is required")
    ensures !Blank(v) && !EmailShaped(v.value) ==> e == Some("Please enter a valid email")
  {
    if Blank(v) then Some("Email is required")
    else if !EmailShaped(v.value) then Some("Please enter a valid email")
    else None
  }

  /** The password checks in order: present, six characters, mixed. */
  function PasswordError(v: Option<string>): (e: Option<string>)
    ensures e.Some? <==> Falsy(v) || |v.value| < 6 || !Mixed(v.value)
    ensures Falsy(v) ==> e == Some("Password is required")
    ensures !Falsy(v) && |v.value| < 6 ==> e == Some("Password must be at least 6 characters")
    ensures !Falsy(v) && |v.value| >= 6 && !Mixed(v.value) ==>
              e == Some("Password must contain uppercase, lowercase, and number")
  {
    if Falsy(v) then Some("Password is required")
    else if |v.value| < 6 then Some("Password must be at least 6 characters")
    else if !Mixed(v.value) then Some("Password must contain uppercase, lowercase, and number")
    else None
  }

  function ConfirmError(password: Option<string>, confirm: Option<string>): (e: Option<string>)
    ensures e.Some? <==> Falsy(confirm) || password != confirm
    ensures Falsy(confirm) ==> e == Some("Please confirm your password")
  {
    if Falsy(confirm) then Some("Please confirm your password")
    else if password != confirm then Some("Passwords do not match")
    else None
  }

  /** `errors[key] = message` when the check failed. */
  function Put(errors: map<string, string>, key: string, e: Option<string>): (r: map<string, string>)
    ensures key in r <==> key in errors || e.Some?
    ensures e.Some? ==> r[key] == e.value
    ensures forall k :: k in errors && k != key ==> k in r && r[k] == errors[k]
    ensures e.None? ==> r == errors
  {
    if e.Some? then errors[key := e.value] else errors
  }

  // ---------------------------------------------------------------------------
  // The forms.

  datatype Registration = Registration(
    firstName: Option<string>,
    lastName: Option<string>,
    email: Option<string>,
    password: Option<string>,
    confirmPassword: Option<string>)

  /** The check of `key`'s value gives `e`: a message under `key` exactly
      when it fails. */
  predicate Reports(errors: map<string, string>, key: string, e: Option<string>) {
    (key in errors <==> e.Some?) && (e.Some? ==> errors[key] == e.value)
  }

  /** `validateRegistration`. */
  method ValidateRegistration(f: Registration) returns (errors: map<string, string>)
    ensures errors.Keys <= {"firstName", "lastName", "email", "password", "confirmPassword"}
    ensures Reports(errors, "firstName", NameError(f.firstName, "First"))
    ensures Reports(errors, "lastName", NameError(f.lastName, "Last"))
    ensures Reports(errors, "email", EmailError(f.email))
    ensures Reports(errors, "password", PasswordError(f.password))
    ensures Reports(errors, "confirmPassword", ConfirmError(f.password, f.confirmPassword))
  {
    errors := map[];
    errors := Put(errors, "firstName", NameError(f.firstName, "First"));
    errors := Put(errors, "lastName", NameError(f.lastName, "Last"));
    errors := Put(errors, "email", EmailError(f.email));
    errors := Put(errors, "password", PasswordError(f.password));
    errors := Put(errors, "confirmPassword", ConfirmError(f.password, f.confirmPassword));
  }

  /** `validateLogin`: the e-mail check, and a present password. */
  method ValidateLogin(email: Option<string>, password: Option<string>) returns (errors: map<string, string>)
    ensures errors.Keys <= {"email", "password"}
    ensures Reports(errors, "email", EmailError(email))
    ensures "password" in errors <==> Falsy(password)
    ensures "password" in errors ==> errors["password"] == "Password is required"
  {
    errors := map[];
    errors := Put(errors, "email", EmailError(email));
    if Falsy(password) {
      errors := errors["password" := "Password is required"];
    }
  }

  datatype TeamForm = TeamForm(name: Option<string>, category: Option<string>, description: Option<string>)

  function TeamNameError(v: Option<string>): (e: Option<string>)
    ensures e.None? <==> !Blank(v) && 3 <= |Trim(v.value)| <= 50
    ensures Blank(v) ==> e == Some("Team name is required")
    ensures !Blank(v) && |Trim(v.value)| < 3 ==> e == Some("Team name must be at least 3 characters")
    ensures !Blank(v) && |Trim(v.value)| > 50 ==> e == Some("Team name cannot exceed 50 characters")
  {
    TrimmedError(v, 3, Some(50), "Team name is required", "Team name must be at least 3 characters",
                 "Team name cannot exceed 50 characters")
  }

  /** `validateTeam`. The description is measured as typed, not trimmed. */
  method ValidateTeam(f: TeamForm) returns (errors: map<string, string>)
    ensures errors.Keys <= {"name", "category", "description"}
    ensures Reports(errors, "name", TeamNameError(f.name))
    ensures "category" in errors <==> Falsy(f.category)
    ensures "category" in errors ==> errors["category"] == "Please select a category"
    ensures "description" in errors <==> f.description.Some? && |f.description.value| > 500
    ensures "description" in errors ==> errors["description"] == "Description cannot exceed 500 characters"
  {
    errors := map[];
    errors := Put(errors, "name", TeamNameError(f.name));
    if Falsy(f.category) {
      errors := errors["category" := "Please select a category"];
    }
    if !Falsy(f.description) && |f.description.value| > 500 {
      errors := errors["description" := "Description cannot exceed 500 characters"];
    }
  }

  datatype ProjectForm = ProjectForm(
    title: Option<string>,
    tagline: Option<string>,
    description: Option<string>,
    problemStatement: Option<string>,
    solution: Option<string>,
    demoUrl: Option<string>,
    githubUrl: Option<string>)

  /** The repository link: a URL first, then one mentioning 'github.com'. */
  function GithubError(v: Option<string>, validUrl: string -> bool): (e: Option<string>)
    ensures e.Some? <==> !Falsy(v) && (!validUrl(v.value) || !Contains(v.value, "github.com"))
    ensures !Falsy(v) && !validUrl(v.value) ==> e == Some("Please enter a valid URL")
    ensures !Falsy(v) && validUrl(v.value) && e.Some? ==> e == Some("Must be a GitHub URL")
  {
    if Falsy(v) then None
    else if !validUrl(v.value) then Some("Please enter a valid URL")
    else if !Contains(v.value, "github.com") then Some("Must be a GitHub URL")
    else None
  }

  function TitleError(v: Option<string>): (e: Option<string>)
    ensures e.None? <==> !Blank(v) && 5 <= |Trim(v.value)| <= 100
    ensures Blank(v) ==> e == Some("Project title is required")
    ensures !Blank(v) && |Trim(v.value)| < 5 ==> e == Some("Title must be at least 5 characters")
    ensures !Blank(v) && |Trim(v.value)| > 100 ==> e == Some("Title cannot exceed 100 characters")
  {
    TrimmedError(v, 5, Some(100), "Project title is required", "Title must be at least 5 characters",
                 "Title cannot exceed 100 characters")
  }

  function DescriptionError(v: Option<string>): (e: Option<string>)
    ensures e.None? <==> !Blank(v) && 50 <= |Trim(v.value)| <= 5000
    ensures Blank(v) ==> e == Some("Description is required")
    ensures !Blank(v) && |Trim(v.value)| < 50 ==> e == Some("Description must be at least 50 characters")
    ensures !Blank(v) && |Trim(v.value)| > 5000 ==> e == Some("Description cannot exceed 5000 characters")
  {
    TrimmedError(v, 50, Some(5000), "Description is required", "Description must be at least 50 characters",
                 "Description cannot exceed 5000 characters")
  }

  function TaglineError(v: Option<string>): (e: Option<string>)
    ensures e.Some? <==> Blank(v) || |Trim(v.value)| > 200
    ensures Blank(v) ==> e == Some("Tagline is required")
    ensures !Blank(v) && |Trim(v.value)| > 200 ==> e == Some("Tagline cannot exceed 200 characters")
  {
    TrimmedError(v, 0, Some(200), "Tagline is required", "", "Tagline cannot exceed 200 characters")
  }

  /** The problem statement and the solution share their rules; `field`
      names the one checked ("Problem statement" or "Solution"). */
  function LongTextError(v: Option<string>, field: string): (e: Option<string>)
    ensures e.Some? <==> Blank(v) || |Trim(v.value)| > 2000
    ensures Blank(v) ==> e == Some(field + " is required")
    ensures !Blank(v) && |Trim(v.value)| > 2000 ==> e == Some(field + " cannot exceed 2000 characters")
  {
    TrimmedError(v, 0, Some(2000), field + " is required", "", field + " cannot exceed 2000 characters")
  }

  /** The demo link, checked only when given. */
  function DemoError(v: Option<string>, validUrl: string -> bool): (e: Option<string>)
    ensures e.Some? <==> !Falsy(v) && !validUrl(v.value)
    ensures e.Some? ==> e.value == "Please enter a valid URL"
  {
    if !Falsy(v) && !validUrl(v.value) then Some("Please enter a valid URL") else None
  }

  /** `validateProject`. */
  method ValidateProject(f: ProjectForm, validUrl: string -> bool) returns (errors: map<string, string>)
    ensures errors.Keys <= {"title", "tagline", "description", "problemStatement", "solution", "demoUrl", "githubUrl"}
    ensures Reports(errors, "title", TitleError(f.title))
    ensures Reports(errors, "tagline", TaglineError(f.tagline))
    ensures Reports(errors, "description", DescriptionError(f.description))
    ensures Reports(errors, "problemStatement", LongTextError(f.problemStatement, "Problem statement"))
    ensures Reports(errors, "solution", LongTextError(f.solution, "Solution"))
    ensures Reports(errors, "demoUrl", DemoError(f.demoUrl, validUrl))
    ensures Reports(errors, "githubUrl", GithubError(f.githubUrl, validUrl))
  {
    errors := map[];
    errors := Put(errors, "title", TitleError(f.title));
    errors := Put(errors, "tagline", TaglineError(f.tagline));
    errors := Put(errors, "description", DescriptionError(f.description));
    errors := Put(errors, "problemStatement", LongTextError(f.problemStatement, "Problem statement"));
    errors := Put(errors, "solution", LongTextError(f.solution, "Solution"));
    errors := Put(errors, "demoUrl", DemoError(f.demoUrl, validUrl));
    errors := Put(errors, "githubUrl", GithubError(f.githubUrl, validUrl));
  }

  // ---------------------------------------------------------------------------
  // validateEvaluation

  /** What `scores?.[criterion]?.score` holds: nothing, `null`, the empty
      string, a number, or a value that converts to `NaN`. */
  datatype ScoreField = Undefined | Null | EmptyText | Number(x: real) | NotANumber

  const Criteria: seq<string> := ["innovation", "technical", "implementation", "impact"]

  /** `capitalize` of this file: the first character upper-cased, the rest
      left as it is. */
  function CapitalizeFirst(s: string): (r: string)
    ensures |r| == |s| && (s != [] ==> r[0] == ToUpperChar(s[0]) && r[1..] == s[1..])
  {
    if s == [] then "" else [ToUpperChar(s[0])] + s[1..]
  }

  /** The score check: a missing score is required; a number outside [0, 10]
      is refused (a `NaN` compares false both ways and passes). */
  function ScoreError(criterion: string, s: ScoreField): (e: Option<string>)
    ensures e.Some? <==> s.Undefined? || s.Null? || s.EmptyText? || (s.Number? && (s.x < 0.0 || s.x > 10.0))
    ensures s.Undefined? || s.Null? || s.EmptyText? ==> e == Some(CapitalizeFirst(criterion) + " score is required")
    ensures s.Number? && e.Some? ==> e == Some("Score must be between 0 and 10")
  {
    match s
    case Undefined | Null | EmptyText => Some(CapitalizeFirst(criterion) + " score is required")
    case Number(x) => if x < 0.0 || x > 10.0 then Some("Score must be between 0 and 10") else None
    case NotANumber => None
  }

  function ScoreOf(scores: map<string, ScoreField>, criterion: string): ScoreField {
    if criterion in scores then scores[criterion] else Undefined
  }

  /** `validateEvaluation`: the four criteria in turn. */
  method ValidateEvaluation(scores: map<string, ScoreField>) returns (errors: map<string, string>)
    ensures errors.Keys <= set c | c in Criteria
    ensures forall c :: c in Criteria ==> Reports(errors, c, ScoreError(c, ScoreOf(scores, c)))
  {
    errors := map[];
    for i := 0 to |Criteria|
      invariant errors.Keys <= set c | c in Criteria[..i]
      invariant forall c :: c in Criteria[..i] ==> Reports(errors, c, ScoreError(c, ScoreOf(scores, c)))
    {
      var c := Criteria[i];
      errors := Put(errors, c, ScoreError(c, ScoreOf(scores, c)));
      assert Criteria[..i + 1] == Criteria[..i] + [c];
    }
    assert Criteria[..|Criteria|] == Criteria;
  }

  // ---------------------------------------------------------------------------
  // validateFile

  datatype FileInfo = FileInfo(size: nat, mimeType: string)

  const AllowedTypes: seq<string> := [
    "image/jpeg", "image/jpg", "image/png", "image/gif", "application/pdf", "application/msword",
    "application/vnd.openxmlformats-officedocument.wordprocessingml.document",
    "application/zip", "application/x-rar-compressed"]

  const DefaultMaxSize: nat := 10 * 1024 * 1024

  /** The problems `validateFile` reports. `TooLarge` carries the limit its
      message names in megabytes. */
  datatype FileProblem = NoFile | TooLarge(maxSize: nat) | TypeNotAllowed

  /** The message of a problem; a limit that is not a whole number of
      megabytes is printed with decimals, which this model does not spell
      out. */
  function ProblemText(p: FileProblem): (t: Option<string>)
    ensures p.TooLarge? ==> (t.Some? <==> p.maxSize % (1024 * 1024) == 0)
    ensures !p.TooLarge? ==> t.Some?
  {
    match p
    case NoFile => Some("No file selected")
    case TooLarge(m) =>
      if m % (1024 * 1024) == 0 then Some("File size exceeds " + NatToString(m / (1024 * 1024)) + "MB") else None
    case TypeNotAllowed => Some("File type not allowed")
  }

  /** `validateFile(file, maxSize = 10MB)`. */
  method ValidateFile(file: Option<FileInfo>, maxSize: Option<nat>) returns (problems: seq<FileProblem>)
    ensures file.None? ==> problems == [NoFile]
    ensures file.Some? ==>
              var limit := maxSize.GetOr(DefaultMaxSize);
              var big := file.value.size > limit;
              var badType := file.value.mimeType !in AllowedTypes;
              && |problems| == (if big then 1 else 0) + (if badType then 1 else 0)
              && (big ==> problems[0] == TooLarge(limit))
              && (badType ==> problems[|problems| - 1] == TypeNotAllowed)
  {
    problems := [];
    if file.None? {
      problems := problems + [NoFile];
      return;
    }
    var limit := maxSize.GetOr(DefaultMaxSize);
    if file.value.size > limit {
      problems := problems + [TooLarge(limit)];
    }
    if file.value.mimeType !in AllowedTypes {
      problems := problems + [TypeNotAllowed];
    }
  }

  /** With the default limit the size message names 10MB. */
  lemma DefaultSizeMessage()
    ensures ProblemText(TooLarge(DefaultMaxSize)) == Some("File size exceeds 10MB")
  {
    assert DefaultMaxSize % (1024 * 1024) == 0 && DefaultMaxSize / (1024 * 1024) == 10;
    assert DigitChar(1) == '1' && DigitChar(0) == '0';
    assert NatToString(10) == "10";
    assert ProblemText(TooLarge(DefaultMaxSize)) == Some("File size exceeds " + NatToString(10) + "MB");
    assert "File size exceeds " + "10" + "MB" == "File size exceeds 10MB";
  }
}
