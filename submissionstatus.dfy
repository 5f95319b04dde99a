/** The participant's submission panel (frontend/src/components/participant/SubmissionStatus.jsx):
    a placeholder when nothing was submitted; otherwise the status with its
    colour, icon and readable label, the submission time when there is one,
    and the evaluations when there are any. */
module SubmissionStatus {
  import opened Common
  import opened Text
  import P = ProjectModel

  datatype Icon = Clock | CheckCircle | Eye

  /** `getStatusColor`. */
  function StatusColor(status: string): (c: string)
    ensures status == "submitted" ==> c == "text-blue-600"
    ensures status == "under_review" ==> c == "text-yellow-600"
    ensures status == "reviewed" ==> c == "text-green-600"
    ensures status !in ["submitted", "under_review", "reviewed"] ==> c == "text-gray-600"
  {
    match status
    case "draft" => "text-gray-600"
    case "submitted" => "text-blue-600"
    case "under_review" => "text-yellow-600"
    case "reviewed" => "text-green-600"
    case _ => "text-gray-600"
  }

  /** `getStatusIcon`. */
  function StatusIcon(status: string): (i: Icon)
    ensures i == CheckCircle <==> status in ["submitted", "reviewed"]
    ensures i == Eye <==> status == "under_review"
    ensures i == Clock <==> status !in ["submitted", "under_review", "reviewed"]
  {
    match status
    case "draft" => Clock
    case "submitted" => CheckCircle
    case "under_review" => Eye
    case "reviewed" => CheckCircle
    case _ => Clock
  }

  /** `submissionStatus.replace('_', ' ')`: a status without an underscore
      is its own label; see `LabelReplacesFirst` for one with. */
  function Label(status: string): (l: string)
    ensures |l| == |status|
    ensures '_' !in status ==> l == status
  {
    ReplaceFirstLength(status);
    ReplaceFirst(status, '_', ' ')
  }

  lemma {:induction false} ReplaceFirstLength(s: string)
    ensures |ReplaceFirst(s, '_', ' ')| == |s|
    ensures '_' !in s ==> ReplaceFirst(s, '_', ' ') == s
  {
    if s != [] {
      ReplaceFirstLength(s[1..]);
    }
  }

  /** Only the first underscore becomes a space: whatever follows it, later
      underscores included, stays. */
  lemma {:induction false} LabelReplacesFirst(before: string, after: string)
    requires '_' !in before
    ensures Label(before + "_" + after) == before + " " + after
  {
    if before != [] {
      assert (before + "_" + after)[1..] == before[1..] + "_" + after;
      LabelReplacesFirst(before[1..], after);
    }
  }

  /** The status name the project stores. */
  function StatusName(s: P.Status): string {
    match s
    case Draft => "draft"
    case Submitted => "submitted"
    case UnderReview => "under_review"
    case Reviewed => "reviewed"
  }

  /** A status name without an underscore is its own label. */
  lemma PlainLabels()
    ensures Label(StatusName(P.Draft)) == "draft"
    ensures Label(StatusName(P.Submitted)) == "submitted"
    ensures Label(StatusName(P.Reviewed)) == "reviewed"
  {
    assert forall i :: 0 <= i < |"draft"| ==> "draft"[i] != '_';
    assert forall i :: 0 <= i < |"submitted"| ==> "submitted"[i] != '_';
    assert forall i :: 0 <= i < |"reviewed"| ==> "reviewed"[i] != '_';
  }

  /** The one status name with an underscore is shown with a space. */
  lemma UnderReviewLabel()
    ensures Label(StatusName(P.UnderReview)) == "under review"
  {
    assert "under" + "_" + "review" == "under_review";
    LabelReplacesFirst("under", "review");
    assert "under" + " " + "review" == "under review";
  }

  /** A stored status gets the check mark exactly when it is submitted or
      reviewed. */
  lemma CheckMarkStatuses(s: P.Status)
    ensures StatusIcon(StatusName(s)) == CheckCircle <==> s == P.Submitted || s == P.Reviewed
  {
  }

  datatype Panel =
    | NoSubmission
    | Shown(color: string, icon: Icon, text: string, submittedAt: Option<Time>, evaluations: Option<nat>)

  /** What the panel renders for the team's project, if any, and the number of
      evaluations loaded for it. */
  function Render(project: Option<(string, Option<Time>)>, evaluations: nat): (p: Panel)
    ensures p.NoSubmission? <==> project.None?
    ensures p.Shown? ==>
              && p.color == StatusColor(project.value.0) && p.icon == StatusIcon(project.value.0)
              && p.text == Label(project.value.0) && p.submittedAt == project.value.1
              && (p.evaluations.Some? <==> evaluations > 0)
              && (p.evaluations.Some? ==> p.evaluations.value == evaluations)
  {
    if project.None? then NoSubmission
    else
      var (status, at) := project.value;
      Shown(StatusColor(status), StatusIcon(status), Label(status), at,
            if evaluations > 0 then Some(evaluations) else None)
  }
}
