/** app/models/ticket.rb: the status default applied before validation, the four
    declared validations and the cross-entity `project_validator`. */
module TicketRules {
  import opened Base
  import opened Records
  import opened Validation

  const Statuses: set<string> := {"open", "closed", "finished"}

  /** A record after `valid?`: the callbacks' changes and the errors found. */
  datatype Validated<R> = Validated(record: R, errors: Errors)

  /** `before_validation :assign_status`, i.e. `status ||= 'open'`. Only nil is
      replaced; an empty or unknown string is left for the inclusion rule. */
  function AssignStatus(t: Ticket): (d: Ticket)
    ensures t.status.None? ==> d.status == Some("open")
    ensures t.status.Some? ==> d.status == t.status
    ensures d.status.Some?
    ensures d.(status := t.status) == t
  {
    if t.status.None? then t.(status := Some("open")) else t
  }

  /** The condition of `project_validator`: the ticket's project exists, belongs to
      someone other than the ticket's author and is closed. */
  predicate ClosedToAuthor(s: Store, t: Ticket) {
    var project := s.projects.Associated(t.projectId);
    project.Some? && project.value.userId != t.userId && project.value.status == Some("closed")
  }

  /** The errors the validators of ticket.rb:6-14 and :24-28 add to a ticket whose
      status default has already been applied. Every rule runs; each failing rule
      contributes its own entry. */
  function ErrorsOf(s: Store, t: Ticket): Errors {
    Check(Blank(t.content), "content", CantBeBlank)
    + Check(t.status.None? || t.status.value !in Statuses, "status", NotIncluded)
    + Check(s.projects.Associated(t.projectId).None?, "project", CantBeBlank)
    + Check(s.users.Associated(t.userId).None?, "user", CantBeBlank)
    + Check(ClosedToAuthor(s, t), "project", IsClosed)
  }

  /** `ticket.valid?`: default the status, then collect the errors. */
  function Validate(s: Store, t: Ticket): (v: Validated<Ticket>)
    ensures v.record == AssignStatus(t)
    ensures v.errors == {} ==> v.record.status.value in Statuses
    ensures Error("status", NotIncluded) in v.errors <==> t.status.Some? && t.status.value !in Statuses
  {
    var d := AssignStatus(t);
    Validated(d, ErrorsOf(s, d))
  }

  /** ticket.rb:16,20-22: applying the default twice is applying it once. */
  lemma AssignStatusIdempotent(t: Ticket)
    ensures AssignStatus(AssignStatus(t)) == AssignStatus(t)
  {
  }

  /** ticket.rb:6-14,24-28: a ticket is valid exactly when no rule fires, and each
      rule's entry is present exactly when that rule fails. */
  lemma ErrorsReportEachRule(s: Store, t: Ticket)
    ensures ErrorsOf(s, t) == {} <==>
              && !Blank(t.content)
              && t.status.Some? && t.status.value in Statuses
              && s.projects.Associated(t.projectId).Some?
              && s.users.Associated(t.userId).Some?
              && !ClosedToAuthor(s, t)
    ensures Error("content", CantBeBlank) in ErrorsOf(s, t) <==> Blank(t.content)
    ensures Error("status", NotIncluded) in ErrorsOf(s, t) <==> t.status.None? || t.status.value !in Statuses
    ensures Error("project", CantBeBlank) in ErrorsOf(s, t) <==> s.projects.Associated(t.projectId).None?
    ensures Error("user", CantBeBlank) in ErrorsOf(s, t) <==> s.users.Associated(t.userId).None?
    ensures Error("project", IsClosed) in ErrorsOf(s, t) <==> ClosedToAuthor(s, t)
    ensures forall e :: e in ErrorsOf(s, t) ==> e.field in {"content", "status", "project", "user"}
  {
  }

  /** ticket.rb:24-28: "is closed" is reported exactly when the project is present,
      is owned by someone other than the author, and is closed; the project's own
      owner may always file tickets. */
  lemma ClosedProjectRule(s: Store, t: Ticket)
    ensures Error("project", IsClosed) in Validate(s, t).errors <==>
              && t.projectId.Some? && t.projectId.value in s.projects.rows
              && s.projects.rows[t.projectId.value].userId != t.userId
              && s.projects.rows[t.projectId.value].status == Some("closed")
    ensures t.projectId.Some? && t.projectId.value in s.projects.rows
            && s.projects.rows[t.projectId.value].userId == t.userId ==>
              Error("project", IsClosed) !in Validate(s, t).errors
  {
  }

  /** The other fields of a ticket are acceptable: a known or defaulted status, the
      project and author present, and the closed-project rule silent. */
  predicate OtherwiseValid(s: Store, t: Ticket) {
    && (t.status.None? || t.status.value in Statuses)
    && s.projects.Associated(t.projectId).Some?
    && s.users.Associated(t.userId).Some?
    && !ClosedToAuthor(s, t)
  }

  /** ticket.rb:6: missing content, everything else valid, is the one error. */
  lemma MissingContentOnly(s: Store, t: Ticket)
    requires Blank(t.content) && OtherwiseValid(s, t)
    ensures Validate(s, t).errors == {Error("content", CantBeBlank)}
  {
  }

  /** ticket.rb:10,25: a missing project is the one error, and the closed-project
      rule cannot fire without a project. */
  lemma MissingProjectOnly(s: Store, t: Ticket)
    requires !Blank(t.content) && (t.status.None? || t.status.value in Statuses)
    requires s.projects.Associated(t.projectId).None? && s.users.Associated(t.userId).Some?
    ensures Validate(s, t).errors == {Error("project", CantBeBlank)}
  {
  }

  /** ticket.rb:12: a missing author on an open project is the one error. */
  lemma MissingUserOnly(s: Store, t: Ticket)
    requires !Blank(t.content) && (t.status.None? || t.status.value in Statuses)
    requires t.projectId.Some? && t.projectId.value in s.projects.rows
    requires s.projects.rows[t.projectId.value].status == Some("open")
    requires s.users.Associated(t.userId).None?
    ensures Validate(s, t).errors == {Error("user", CantBeBlank)}
  {
  }

  /** ticket.rb:8,16: an unknown status (also the empty string, which the default
      does not replace) is the one error when the rest is valid. */
  lemma UnknownStatusOnly(s: Store, t: Ticket)
    requires !Blank(t.content) && t.status.Some? && t.status.value !in Statuses
    requires s.projects.Associated(t.projectId).Some? && s.users.Associated(t.userId).Some?
    requires !ClosedToAuthor(s, t)
    ensures Validate(s, t).errors == {Error("status", NotIncluded)}
  {
  }
}
