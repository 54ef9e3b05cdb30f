/** app/controllers/api/v1/tickets_controller.rb. Every action first loads the
    URL's project and authorizes `show` on it (CanCan's treatment of a parent
    resource), then loads the ticket through that project, or builds one in it for
    `create`, and authorizes the action on the ticket.

    project.rb declares no `has_many :tickets`; the tickets "through" a project are
    modelled as the tickets whose `project_id` is that project's key. */
module TicketsController {
  import opened Base
  import opened Records
  import opened Ability
  import opened Validation
  import opened BaseController
  import opened Paging
  import TicketRules

  /** tickets_controller.rb:25-27: `permit(:subject, :content, :status)`. */
  const Permitted: set<string> := {"subject", "content", "status"}

  function ProjectSubject(id: Id, project: Project): Subject {
    Record(Projects, Some(id), project.userId)
  }

  function TicketSubject(id: Option<Id>, ticket: Ticket): Subject {
    Record(Tickets, id, ticket.userId)
  }

  /** Mass assignment of the permitted parameters: the author and the project
      never change. */
  function Apply(ticket: Ticket, attrs: Attrs): (r: Ticket)
    ensures r.userId == ticket.userId && r.projectId == ticket.projectId
    ensures "subject" in attrs ==> r.subject == Some(attrs["subject"])
    ensures "subject" !in attrs ==> r.subject == ticket.subject
    ensures "content" in attrs ==> r.content == Some(attrs["content"])
    ensures "content" !in attrs ==> r.content == ticket.content
    ensures "status" in attrs ==> r.status == Some(attrs["status"])
    ensures "status" !in attrs ==> r.status == ticket.status
  {
    var a := Permit(attrs, Permitted);
    ticket.(subject := Assigned(a, "subject", ticket.subject),
            content := Assigned(a, "content", ticket.content),
            status := Assigned(a, "status", ticket.status))
  }

  /** `@project.tickets.new(ticket_params)`: the project is the URL's. */
  function Built(projectId: Id, attrs: Attrs): (t: Ticket)
    ensures t.projectId == Some(projectId) && t.userId == None
  {
    Apply(Ticket(None, None, None, Some(projectId), None), attrs)
  }

  /** The keys among `ids` of the tickets filed against `projectId`, in order. */
  function OfProject(tickets: Table<Ticket>, ids: seq<Id>, projectId: Id): (r: seq<Id>)
    ensures forall id :: id in r <==> id in ids && id in tickets.rows && tickets.rows[id].projectId == Some(projectId)
  {
    if |ids| == 0 then []
    else
      var rest := OfProject(tickets, ids[1..], projectId);
      assert forall id :: id in ids <==> id == ids[0] || id in ids[1..];
      if ids[0] in tickets.rows && tickets.rows[ids[0]].projectId == Some(projectId) then [ids[0]] + rest
      else rest
  }

  /** Filtering keeps the keys in ascending order. */
  lemma {:induction false} OfProjectAscending(tickets: Table<Ticket>, ids: seq<Id>, projectId: Id)
    requires Ascending(ids)
    ensures Ascending(OfProject(tickets, ids, projectId))
  {
    if |ids| > 0 {
      var rest := OfProject(tickets, ids[1..], projectId);
      OfProjectAscending(tickets, ids[1..], projectId);
      forall id | id in rest ensures ids[0] < id {
        var k :| 0 <= k < |ids[1..]| && ids[1..][k] == id;
        assert ids[k + 1] == id;
      }
      if ids[0] in tickets.rows && tickets.rows[ids[0]].projectId == Some(projectId) {
        var r := [ids[0]] + rest;
        assert OfProject(tickets, ids, projectId) == r;
        forall i, j | 0 <= i < j < |r| ensures r[i] < r[j] {
          assert r[j] == rest[j - 1] && rest[j - 1] in rest;
          if i > 0 {
            assert r[i] == rest[i - 1];
          }
        }
      } else {
        assert OfProject(tickets, ids, projectId) == rest;
      }
    }
  }

  /** `@project.tickets.find(id)`: a ticket of another project is not found. */
  function FindTicket(s: Store, projectId: Id, id: Id): (o: Outcome<Ticket>)
    ensures o.Go? <==> id in s.tickets.rows && s.tickets.rows[id].projectId == Some(projectId)
    ensures o.Go? ==> o.value == s.tickets.rows[id]
    ensures o.Stop? ==> o.halt == RecordNotFound
  {
    if id in s.tickets.rows && s.tickets.rows[id].projectId == Some(projectId) then Go(s.tickets.rows[id])
    else Stop(RecordNotFound)
  }

  /** The parent step every action starts with. */
  function LoadProject(s: Store, p: Principal, projectId: Id): (o: Outcome<Project>)
    ensures o.Go? <==> projectId in s.projects.rows
    ensures o.Go? ==> o.value == s.projects.rows[projectId]
    ensures o.Stop? ==> o.halt == RecordNotFound
  {
    AnyoneReadsProjects(p, Show, ProjectSubject(projectId, if projectId in s.projects.rows then s.projects.rows[projectId] else Project(None, None, None, None)));
    var project :- Find(s.projects, projectId);
    match Authorize(p, Show, ProjectSubject(projectId, project))
    case Go(_) => Go(project)
    case Stop(h) => Stop(h)
  }

  /** tickets_controller.rb:6-8: the project's tickets, one page of them. */
  function IndexTickets(s: Store, per: nat, p: Principal, projectId: Id, page: Option<int>): (r: Response)
    requires per > 0
    ensures r.store == s
    ensures projectId !in s.projects.rows ==> r == Rescue(s, RecordNotFound)
    ensures projectId in s.projects.rows && !p.Admin? ==> r == Rescue(s, AccessDenied)
    ensures projectId in s.projects.rows && p.Admin? ==>
              var ids := OfProject(s.tickets, s.tickets.Ids(), projectId);
              r == Success(s, Listing(PageItems(ids, CurrentPage(page), per), CurrentPage(page), TotalPages(|ids|, per)))
  {
    OnlyAdminTouchesTickets(p, Index, AnyOf(Tickets));
    Finish(s, IndexSteps(s, per, p, projectId, page))
  }

  function IndexSteps(s: Store, per: nat, p: Principal, projectId: Id, page: Option<int>): Outcome<Response>
    requires per > 0
  {
    var _ :- LoadProject(s, p, projectId);
    var _ :- Authorize(p, Index, AnyOf(Tickets));
    var ids := OfProject(s.tickets, s.tickets.Ids(), projectId);
    Go(Success(s, Listing(PageItems(ids, CurrentPage(page), per), CurrentPage(page), TotalPages(|ids|, per))))
  }

  /** `show`: the ticket must belong to the URL's project. */
  function ShowTicket(s: Store, p: Principal, projectId: Id, id: Id): (r: Response)
    ensures r.store == s
    ensures projectId !in s.projects.rows ==> r == Rescue(s, RecordNotFound)
    ensures projectId in s.projects.rows && (id !in s.tickets.rows || s.tickets.rows[id].projectId != Some(projectId)) ==>
              r == Rescue(s, RecordNotFound)
    ensures projectId in s.projects.rows && FindTicket(s, projectId, id).Go? ==>
              r == (if p.Admin? then Success(s, Shown(id)) else Rescue(s, AccessDenied))
    ensures r.code == 200 ==> id in s.tickets.rows && s.tickets.rows[id].projectId == Some(projectId)
                              && r.body == Envelope("success", Shown(id))
  {
    OnlyAdminTouchesTickets(p, Show, TicketSubject(Some(id), if id in s.tickets.rows then s.tickets.rows[id] else Built(projectId, map[])));
    Finish(s, ShowSteps(s, p, projectId, id))
  }

  function ShowSteps(s: Store, p: Principal, projectId: Id, id: Id): Outcome<Response> {
    var _ :- LoadProject(s, p, projectId);
    var ticket :- FindTicket(s, projectId, id);
    var _ :- Authorize(p, Show, TicketSubject(Some(id), ticket));
    Go(Success(s, Shown(id)))
  }

  /** `ticket.save` for a new ticket: the status default, then INSERT or 400. */
  function SaveNew(s: Store, ticket: Ticket): (r: Response)
    ensures r.code == 200 <==> TicketRules.Validate(s, ticket).errors == {}
    ensures r.code == 200 ==>
              && r.store.users == s.users && r.store.projects == s.projects
              && r.store.tickets.rows.Keys == s.tickets.rows.Keys + {s.tickets.next}
              && r.store.tickets.rows[s.tickets.next] == TicketRules.AssignStatus(ticket)
              && (forall k :: k in s.tickets.rows && k != s.tickets.next ==> r.store.tickets.rows[k] == s.tickets.rows[k])
              && r.body == Envelope("success", Shown(s.tickets.next))
    ensures r.code != 200 ==>
              r.code == 400 && r.store == s && r.body == Envelope("failed", FieldErrors(TicketRules.Validate(s, ticket).errors))
  {
    var v := TicketRules.Validate(s, ticket);
    if v.errors == {} then Success(s.(tickets := s.tickets.Insert(v.record)), Shown(s.tickets.next))
    else Rejected(s, v.errors)
  }

  /** tickets_controller.rb:10-13: the author is the requester and the project is
      the URL's. */
  function CreateTicket(s: Store, p: Principal, projectId: Id, body: Option<Attrs>): (r: Response)
    ensures r.store.users == s.users && r.store.projects == s.projects
    ensures s.tickets.WellFormed() ==> r.store.tickets.WellFormed() && TicketLinksKept(s.tickets, r.store.tickets)
    ensures projectId !in s.projects.rows ==> r == Rescue(s, RecordNotFound)
    ensures projectId in s.projects.rows && Require(body).Stop? ==> r == Rescue(s, ParameterMissing)
    ensures projectId in s.projects.rows && Require(body).Go? && !p.Admin? ==> r == Rescue(s, AccessDenied)
    ensures projectId in s.projects.rows && Require(body).Go? && p.Admin? ==>
              r == SaveNew(s, Built(projectId, body.value).(userId := p.UserId()))
    ensures r.code == 200 ==>
              && r.store.tickets.rows.Keys == s.tickets.rows.Keys + {s.tickets.next}
              && r.store.tickets.rows[s.tickets.next].userId == p.UserId()
              && r.store.tickets.rows[s.tickets.next].projectId == Some(projectId)
              && r.body == Envelope("success", Shown(s.tickets.next))
    ensures r.code != 200 ==> r.store == s
  {
    OnlyAdminTouchesTickets(p, Create, TicketSubject(None, Built(projectId, if body.Some? then body.value else map[])));
    Finish(s, CreateSteps(s, p, projectId, body))
  }

  function CreateSteps(s: Store, p: Principal, projectId: Id, body: Option<Attrs>): Outcome<Response> {
    var _ :- LoadProject(s, p, projectId);
    var attrs :- Require(body);
    var built := Built(projectId, attrs);
    var _ :- Authorize(p, Create, TicketSubject(None, built));
    var owned := if p.Guest? then built else built.(userId := p.UserId());
    Go(SaveNew(s, owned))
  }

  /** `ticket.update(...)`: the status default and every rule run again. */
  function SaveExisting(s: Store, id: Id, ticket: Ticket): (r: Response)
    requires id in s.tickets.rows
    ensures r.code == 200 <==> TicketRules.Validate(s, ticket).errors == {}
    ensures r.code == 200 ==>
              && r.store.users == s.users && r.store.projects == s.projects
              && r.store.tickets.rows.Keys == s.tickets.rows.Keys
              && r.store.tickets.rows[id] == TicketRules.AssignStatus(ticket)
              && (forall k :: k in s.tickets.rows && k != id ==> r.store.tickets.rows[k] == s.tickets.rows[k])
              && r.body == Envelope("success", Shown(id))
    ensures r.code != 200 ==>
              r.code == 400 && r.store == s && r.body == Envelope("failed", FieldErrors(TicketRules.Validate(s, ticket).errors))
  {
    var v := TicketRules.Validate(s, ticket);
    if v.errors == {} then Success(s.(tickets := s.tickets.Put(id, v.record)), Shown(id))
    else Rejected(s, v.errors)
  }

  /** tickets_controller.rb:15-17: only subject, content and status change. */
  function UpdateTicket(s: Store, p: Principal, projectId: Id, id: Id, body: Option<Attrs>): (r: Response)
    ensures r.store.users == s.users && r.store.projects == s.projects
    ensures s.tickets.WellFormed() ==> r.store.tickets.WellFormed() && TicketLinksKept(s.tickets, r.store.tickets)
    ensures projectId !in s.projects.rows ==> r == Rescue(s, RecordNotFound)
    ensures projectId in s.projects.rows && FindTicket(s, projectId, id).Stop? ==> r == Rescue(s, RecordNotFound)
    ensures projectId in s.projects.rows && FindTicket(s, projectId, id).Go? && !p.Admin? ==> r == Rescue(s, AccessDenied)
    ensures projectId in s.projects.rows && FindTicket(s, projectId, id).Go? && p.Admin? ==>
              if Require(body).Stop? then r == Rescue(s, ParameterMissing)
              else r == SaveExisting(s, id, Apply(s.tickets.rows[id], body.value))
    ensures r.code == 200 ==>
              && id in s.tickets.rows
              && r.store.tickets.rows.Keys == s.tickets.rows.Keys
              && r.store.tickets.rows[id].userId == s.tickets.rows[id].userId
              && r.store.tickets.rows[id].projectId == s.tickets.rows[id].projectId
              && forall k :: k in s.tickets.rows && k != id ==> r.store.tickets.rows[k] == s.tickets.rows[k]
    ensures r.code != 200 ==> r.store == s
  {
    OnlyAdminTouchesTickets(p, Update, TicketSubject(Some(id), if id in s.tickets.rows then s.tickets.rows[id] else Built(projectId, map[])));
    Finish(s, UpdateSteps(s, p, projectId, id, body))
  }

  function UpdateSteps(s: Store, p: Principal, projectId: Id, id: Id, body: Option<Attrs>): Outcome<Response> {
    var _ :- LoadProject(s, p, projectId);
    var ticket :- FindTicket(s, projectId, id);
    var _ :- Authorize(p, Update, TicketSubject(Some(id), ticket));
    var attrs :- Require(body);
    Go(SaveExisting(s, id, Apply(ticket, attrs)))
  }

  /** tickets_controller.rb:19-21: exactly the target ticket is deleted. */
  function DestroyTicket(s: Store, p: Principal, projectId: Id, id: Id): (r: Response)
    ensures r.store.users == s.users && r.store.projects == s.projects
    ensures s.tickets.WellFormed() ==> r.store.tickets.WellFormed() && TicketLinksKept(s.tickets, r.store.tickets)
    ensures projectId !in s.projects.rows ==> r == Rescue(s, RecordNotFound)
    ensures projectId in s.projects.rows && FindTicket(s, projectId, id).Stop? ==> r == Rescue(s, RecordNotFound)
    ensures projectId in s.projects.rows && FindTicket(s, projectId, id).Go? && !p.Admin? ==> r == Rescue(s, AccessDenied)
    ensures projectId in s.projects.rows && FindTicket(s, projectId, id).Go? && p.Admin? ==>
              r == Success(s.(tickets := s.tickets.Delete(id)), Nothing)
    ensures r.code == 200 ==>
              && id in s.tickets.rows && s.tickets.rows[id].projectId == Some(projectId)
              && r.store.tickets.rows.Keys == s.tickets.rows.Keys - {id}
              && (forall k :: k in r.store.tickets.rows ==> r.store.tickets.rows[k] == s.tickets.rows[k])
              && r.body == Envelope("success", Nothing)
    ensures r.code != 200 ==> r.store == s
  {
    OnlyAdminTouchesTickets(p, Destroy, TicketSubject(Some(id), if id in s.tickets.rows then s.tickets.rows[id] else Built(projectId, map[])));
    Finish(s, DestroySteps(s, p, projectId, id))
  }

  function DestroySteps(s: Store, p: Principal, projectId: Id, id: Id): Outcome<Response> {
    var _ :- LoadProject(s, p, projectId);
    var ticket :- FindTicket(s, projectId, id);
    var _ :- Authorize(p, Destroy, TicketSubject(Some(id), ticket));
    Go(Success(s.(tickets := s.tickets.Delete(id)), Nothing))
  }

  /** tickets_controller.rb:10-13 with ticket.rb:24-28: on a closed project, a
      ticket filed by anyone but the project's owner is refused with 400 and
      project "is closed", and nothing is saved. */
  lemma ClosedProjectRefusesNewTicket(s: Store, p: Principal, projectId: Id, body: Option<Attrs>)
    requires p.Admin? && projectId in s.projects.rows && Require(body).Go?
    requires s.projects.rows[projectId].status == Some("closed") && s.projects.rows[projectId].userId != p.UserId()
    ensures var r := CreateTicket(s, p, projectId, body);
            && r.code == 400 && r.store == s
            && r.body.Envelope? && r.body.payload.FieldErrors?
            && Error("project", IsClosed) in r.body.payload.errors
  {
    TicketRules.ClosedProjectRule(s, Built(projectId, body.value).(userId := p.UserId()));
  }

  /** tickets_controller.rb:15-17 with ticket.rb:24-28: update validates again, so
      once a project is closed, a ticket whose author does not own the project can
      no longer be edited: 400 with project "is closed", nothing saved. */
  lemma ClosedProjectFreezesTicket(s: Store, p: Principal, projectId: Id, id: Id, body: Option<Attrs>)
    requires p.Admin? && projectId in s.projects.rows && FindTicket(s, projectId, id).Go? && Require(body).Go?
    requires s.projects.rows[projectId].status == Some("closed")
    requires s.projects.rows[projectId].userId != s.tickets.rows[id].userId
    ensures var r := UpdateTicket(s, p, projectId, id, body);
            && r.code == 400 && r.store == s
            && r.body.Envelope? && r.body.payload.FieldErrors?
            && Error("project", IsClosed) in r.body.payload.errors
  {
    TicketRules.ClosedProjectRule(s, Apply(s.tickets.rows[id], body.value));
  }
}
