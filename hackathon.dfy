/** The hackathon configuration (backend/models/Hackathon.js): its calendar,
    the phase it is in, and its duration. */
module HackathonModel {
  import opened Common

  datatype Phase = Upcoming | RegistrationOpen | Ongoing | Judging | Completed

  /** The dates of the calendar, in milliseconds since the epoch. */
  datatype Calendar = Calendar(
    startDate: Time,
    endDate: Time,
    registrationStartDate: Time,
    registrationEndDate: Time,
    submissionDeadline: Time,
    judgingStartDate: Time,
    judgingEndDate: Time,
    resultsDate: Time)

  /** The schema's default calendar (1 March to 3 March 2025, UTC). */
  const DefaultCalendar := Calendar(
    1740787200000,   // 2025-03-01T00:00:00Z
    1741046399000,   // 2025-03-03T23:59:59Z
    1738368000000,   // 2025-02-01T00:00:00Z
    1740787199000,   // 2025-02-28T23:59:59Z
    1741046399000,   // 2025-03-03T23:59:59Z
    1741046400000,   // 2025-03-04T00:00:00Z
    1741219199000,   // 2025-03-05T23:59:59Z
    1741219200000)   // 2025-03-06T00:00:00Z

  const DefaultMaxTeamSize: int := 4

  /** The phase `updateStatus` selects at `now`: the first matching test of an
      if / else-if chain, and the current phase when no test matches. */
  function NextPhase(c: Calendar, now: Time, current: Phase): Phase {
    if now < c.registrationStartDate then Upcoming
    else if now >= c.registrationStartDate && now < c.startDate then RegistrationOpen
    else if now >= c.startDate && now < c.submissionDeadline then Ongoing
    else if now >= c.judgingStartDate && now < c.judgingEndDate then Judging
    else if now >= c.resultsDate then Completed
    else current
  }

  /** The `durationHours` virtual: whole hours from start to end, rounded down. */
  function DurationHours(c: Calendar): (h: int)
    ensures h * OneHour <= c.endDate - c.startDate < (h + 1) * OneHour
  {
    (c.endDate - c.startDate) / OneHour
  }

  /** The schema bounds on the maximum team size. */
  predicate TeamSizeValid(n: int) { 1 <= n <= 10 }

  class Hackathon {
    const id: Id
    var calendar: Calendar
    var status: Phase
    var maxTeamSize: int
    var isActive: bool

    /** A hackathon with every field at its default (as `getHackathonConfig`
        creates one). */
    constructor Default(id: Id)
      ensures this.id == id && calendar == DefaultCalendar && status == Upcoming
      ensures maxTeamSize == DefaultMaxTeamSize && isActive
    {
      this.id := id;
      calendar := DefaultCalendar;
      status := Upcoming;
      maxTeamSize := DefaultMaxTeamSize;
      isActive := true;
    }

    /** `updateStatus`, with the clock reading `now` as a parameter. */
    method UpdateStatus(now: Time)
      modifies this`status
      ensures status == NextPhase(calendar, now, old(status))
    {
      if now < calendar.registrationStartDate {
        status := Upcoming;
      } else if now >= calendar.registrationStartDate && now < calendar.startDate {
        status := RegistrationOpen;
      } else if now >= calendar.startDate && now < calendar.submissionDeadline {
        status := Ongoing;
      } else if now >= calendar.judgingStartDate && now < calendar.judgingEndDate {
        status := Judging;
      } else if now >= calendar.resultsDate {
        status := Completed;
      }
    }
  }

  // ---------------------------------------------------------------------------
  // Facts about phase selection.

  /** The dates follow each other in the order the chain assumes. */
  predicate Ordered(c: Calendar) {
    c.registrationStartDate <= c.startDate <= c.submissionDeadline
    <= c.judgingStartDate <= c.judgingEndDate <= c.resultsDate
  }

  /** For an ordered calendar each window selects its own phase, whatever the
      current one. */
  lemma PhaseWindows(c: Calendar, now: Time, current: Phase)
    requires Ordered(c)
    ensures now < c.registrationStartDate ==> NextPhase(c, now, current) == Upcoming
    ensures c.registrationStartDate <= now < c.startDate ==> NextPhase(c, now, current) == RegistrationOpen
    ensures c.startDate <= now < c.submissionDeadline ==> NextPhase(c, now, current) == Ongoing
    ensures c.judgingStartDate <= now < c.judgingEndDate ==> NextPhase(c, now, current) == Judging
    ensures now >= c.resultsDate ==> NextPhase(c, now, current) == Completed
  {
  }

  /** Between the submission deadline and the start of judging, and between the
      end of judging and the results, the phase is left as it was. */
  lemma PhaseGapsKeepStatus(c: Calendar, now: Time, current: Phase)
    requires Ordered(c)
    requires c.submissionDeadline <= now < c.judgingStartDate || c.judgingEndDate <= now < c.resultsDate
    ensures NextPhase(c, now, current) == current
  {
  }

  /** Out of order, the earlier test wins: a judging window that overlaps the
      submission window never yields `Judging` before the deadline. */
  lemma EarlierTestWins(c: Calendar, now: Time, current: Phase)
    requires c.registrationStartDate <= c.startDate <= now < c.submissionDeadline
    ensures NextPhase(c, now, current) == Ongoing
  {
  }

  /** The default calendar is ordered and lasts 71 hours (3 March 23:59:59 is
      one second short of the 72nd hour). */
  lemma DefaultCalendarFacts()
    ensures Ordered(DefaultCalendar)
    ensures DurationHours(DefaultCalendar) == 71
    ensures TeamSizeValid(DefaultMaxTeamSize)
  {
  }

  /** A calendar ending before it starts has a negative duration, rounded
      toward minus infinity like `Math.floor`. */
  lemma NegativeDurationFloors(c: Calendar)
    requires c.endDate - c.startDate == -1
    ensures DurationHours(c) == -1
  {
  }
}
