/** The record of a team handing in its project (backend/models/Submission.js):
    status, version and the late flag set by the pre-save hook. */
module SubmissionModel {
  import opened Common

  datatype Status = Pending | Submitted | UnderReview | Evaluated | Disqualified

  const DefaultVersion: nat := 1

  /** The late flag after the pre-save hook: set only for a new document, when
      an active hackathon exists (`deadline` is its submission deadline) and the
      submission is strictly after it; never cleared. */
  function LateAfterSave(wasLate: bool, isNew: bool, submittedAt: Time, deadline: Option<Time>): (late: bool)
    ensures wasLate ==> late
    ensures !isNew ==> late == wasLate
    ensures deadline.None? ==> late == wasLate
    ensures !wasLate && isNew && deadline.Some? ==> (late <==> submittedAt > deadline.value)
  {
    if isNew && deadline.Some? && submittedAt > deadline.value then true else wasLate
  }

  class Submission {
    const id: Id
    const team: Id
    const project: Id
    const submittedBy: Id
    const version: nat
    var status: Status
    var submittedAt: Time
    var isLate: bool

    /** A new submission, version 1, stamped at `now` and not late. */
    constructor (id: Id, team: Id, project: Id, submittedBy: Id, status: Status, now: Time)
      ensures this.id == id && this.team == team && this.project == project && this.submittedBy == submittedBy
      ensures this.status == status && version == DefaultVersion && submittedAt == now && !isLate
    {
      this.id := id;
      this.team := team;
      this.project := project;
      this.submittedBy := submittedBy;
      this.status := status;
      version := DefaultVersion;
      submittedAt := now;
      isLate := false;
    }

    /** The pre-save hook. The hook's query for an active hackathon is the
        parameter `deadline`: its submission deadline, or None when there is
        no active hackathon. */
    method PreSave(isNew: bool, deadline: Option<Time>)
      modifies this`isLate
      ensures isLate == LateAfterSave(old(isLate), isNew, submittedAt, deadline)
    {
      if isNew {
        if deadline.Some? && submittedAt > deadline.value {
          isLate := true;
        }
      }
    }
  }

  /** A submission exactly at the deadline is on time. */
  lemma AtDeadlineNotLate(t: Time)
    ensures !LateAfterSave(false, true, t, Some(t))
    ensures LateAfterSave(false, true, t + 1, Some(t))
  {
  }
}
