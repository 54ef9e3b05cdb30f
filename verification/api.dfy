/** The API as a whole: the routes of config/routes.rb, `before_action :authenticate`
    followed by the routed action, and the properties that hold across every
    route. */
module Api {
  import opened Base
  import opened Records
  import opened Ability
  import opened Validation
  import opened BaseController
  import opened Invariants
  import ProjectRules
  import UserRules
  import TicketRules
  import ProjectsController
  import TicketsController
  import UsersController

  /** The five actions of `resources :users` (config/routes.rb:7). */
  datatype UserRoute =
    | ListUsers(page: Option<int>)
    | ShowUser(id: Id)
    | CreateUser(body: Option<Attrs>)
    | UpdateUser(id: Id, body: Option<Attrs>)
    | DestroyUser(id: Id)

  /** The five actions of `resources :projects` (config/routes.rb:8). */
  datatype ProjectRoute =
    | ListProjects(page: Option<int>)
    | ShowProject(id: Id)
    | CreateProject(body: Option<Attrs>)
    | UpdateProject(id: Id, body: Option<Attrs>)
    | DestroyProject(id: Id)

  /** The five actions of the nested `resources :tickets` (config/routes.rb:9). */
  datatype TicketRoute =
    | ListTickets(page: Option<int>)
    | ShowTicket(id: Id)
    | CreateTicket(body: Option<Attrs>)
    | UpdateTicket(id: Id, body: Option<Attrs>)
    | DestroyTicket(id: Id)

  /** One request: the route with its path ids, the `page` query parameter of an
      index, and the nested attribute hash of a write. */
  datatype Route =
    | OnUsers(user: UserRoute)
    | OnProjects(project: ProjectRoute)
    | OnTickets(projectId: Id, ticket: TicketRoute)

  /** users_controller.rb run as `p`. */
  function ServeUsers(s: Store, per: nat, p: Principal, route: UserRoute): (r: Response)
    requires per > 0
    ensures r.code in {200, 400, 401}
    ensures r.code == 401 <==> r.body == Empty
    ensures r.code != 200 ==> r.store == s
    ensures OwnersKept(s.projects, r.store.projects) && TicketLinksKept(s.tickets, r.store.tickets)
    ensures NoNewAdmins(s.users, r.store.users)
  {
    match route
    case ListUsers(page) => UsersController.IndexUsers(s, per, p, page)
    case ShowUser(id) => UsersController.ShowUser(s, p, id)
    case CreateUser(body) => UsersController.CreateUser(s, p, body)
    case UpdateUser(id, body) => UsersController.UpdateUser(s, p, id, body)
    case DestroyUser(id) => UsersController.DestroyUser(s, p, id)
  }

  /** projects_controller.rb run as `p`: it never writes the users or tickets tables. */
  function ServeProjects(s: Store, per: nat, p: Principal, route: ProjectRoute): (r: Response)
    requires per > 0
    ensures r.code in {200, 400, 401}
    ensures r.code == 401 <==> r.body == Empty
    ensures r.code != 200 ==> r.store == s
    ensures r.store.users == s.users && r.store.tickets == s.tickets
    ensures s.projects.WellFormed() ==> OwnersKept(s.projects, r.store.projects)
  {
    match route
    case ListProjects(page) => ProjectsController.IndexProjects(s, per, p, page)
    case ShowProject(id) => ProjectsController.ShowProject(s, p, id)
    case CreateProject(body) => ProjectsController.CreateProject(s, p, body)
    case UpdateProject(id, body) => ProjectsController.UpdateProject(s, p, id, body)
    case DestroyProject(id) => ProjectsController.DestroyProject(s, p, id)
  }

  /** tickets_controller.rb run as `p` under project `projectId`: it never writes the
      users or projects tables. */
  function ServeTickets(s: Store, per: nat, p: Principal, projectId: Id, route: TicketRoute): (r: Response)
    requires per > 0
    ensures r.code in {200, 400, 401}
    ensures r.code == 401 <==> r.body == Empty
    ensures r.code != 200 ==> r.store == s
    ensures r.store.users == s.users && r.store.projects == s.projects
    ensures s.tickets.WellFormed() ==> r.store.tickets.WellFormed()
    ensures s.tickets.WellFormed() ==> TicketLinksKept(s.tickets, r.store.tickets)
  {
    match route
    case ListTickets(page) => TicketsController.IndexTickets(s, per, p, projectId, page)
    case ShowTicket(id) => TicketsController.ShowTicket(s, p, projectId, id)
    case CreateTicket(body) => TicketsController.CreateTicket(s, p, projectId, body)
    case UpdateTicket(id, body) => TicketsController.UpdateTicket(s, p, projectId, id, body)
    case DestroyTicket(id) => TicketsController.DestroyTicket(s, p, projectId, id)
  }

  /** The routed action run as principal `p`, `per` records to an index page. Every
      response is a success, a validation failure or one of the rescued statuses, and
      only a success writes. */
  function Dispatch(s: Store, per: nat, p: Principal, route: Route): (r: Response)
    requires per > 0
    ensures r.code in {200, 400, 401}
    ensures r.code == 401 <==> r.body == Empty
    ensures r.code != 200 ==> r.store == s
  {
    match route
    case OnUsers(u) => ServeUsers(s, per, p, u)
    case OnProjects(q) => ServeProjects(s, per, p, q)
    case OnTickets(projectId, t) => ServeTickets(s, per, p, projectId, t)
  }

  /** base_controller.rb:12: authentication runs before every action, and whatever
      it finds, the action runs; failed credentials make the requester a guest. */
  function Handle(s: Store, per: nat, creds: Option<Credentials>, route: Route): (r: Response)
    requires per > 0
    ensures CurrentUser(s, creds).None? ==> r == Dispatch(s, per, Guest, route)
    ensures CurrentUser(s, creds).Some? ==>
              var id := CurrentUser(s, creds).value;
              r == Dispatch(s, per, if s.users.rows[id].admin then Admin(id) else Member(id), route)
  {
    Dispatch(s, per, Authenticate(s, creds), route)
  }

  /** base_controller.rb:21-29: wrong, unknown or absent credentials are all the
      same request as one without any. */
  lemma FailedLoginIsAnonymous(s: Store, per: nat, creds: Option<Credentials>, route: Route)
    requires per > 0
    requires creds.None? || CurrentUser(s, creds).None?
    ensures Handle(s, per, creds, route) == Handle(s, per, None, route)
  {
  }

  /** base_controller.rb:21-29 on any database the requests can reach: the
      requester is a guest exactly when no stored user has both the given username
      and password, and otherwise is that user. */
  lemma AuthenticationIsExact(s: Store, creds: Option<Credentials>)
    requires Invariant(s)
    ensures Authenticate(s, creds).Guest? <==>
              creds.None? || !exists id :: id in s.users.rows && s.users.rows[id].username == Some(creds.value.username)
                                               && Authenticates(s.users.rows[id], creds.value.password)
    ensures forall id :: creds.Some? && id in s.users.rows && s.users.rows[id].username == Some(creds.value.username)
                         && Authenticates(s.users.rows[id], creds.value.password) ==>
                           Authenticate(s, creds).UserId() == Some(id)
  {
    UsernamesUnique(s);
    AuthenticateResolvesCredentials(s, creds);
  }

  /** base_controller.rb:12,21-29 with ability.rb:8,13,18: whatever the
      credentials, anyone can list projects and read an existing one. */
  lemma AnyoneReadsProjectsAnyway(s: Store, per: nat, creds: Option<Credentials>, page: Option<int>, id: Id)
    requires per > 0
    ensures Handle(s, per, creds, OnProjects(ListProjects(page))).code == 200
    ensures id in s.projects.rows ==> Handle(s, per, creds, OnProjects(ShowProject(id))).code == 200
  {
    var p := Authenticate(s, creds);
    assert Handle(s, per, creds, OnProjects(ListProjects(page))) == ProjectsController.IndexProjects(s, per, p, page);
    assert Handle(s, per, creds, OnProjects(ShowProject(id))) == ProjectsController.ShowProject(s, p, id);
  }

  /** base_controller.rb:12,21-29 with ability.rb:8,11,16: whatever the credentials,
      anyone can register a user that passes validation. */
  lemma AnyoneRegistersAnyway(s: Store, per: nat, creds: Option<Credentials>, body: Attrs)
    requires per > 0
    ensures body != map[] && UserRules.ErrorsOf(s, None, UsersController.Built(body)) == {} ==>
              Handle(s, per, creds, OnUsers(CreateUser(Some(body)))).code == 200
  {
    var p := Authenticate(s, creds);
    assert Handle(s, per, creds, OnUsers(CreateUser(Some(body)))) == UsersController.CreateUser(s, p, Some(body));
  }

  /** base_controller.rb:5-6,31-37: a missing record and a forbidden one get the
      same response; a user asking for another user's record learns nothing of
      whether it exists. */
  lemma MissingLooksForbidden(s: Store, per: nat, uid: Id, id: Id, body: Option<Attrs>)
    requires per > 0 && id != uid
    ensures Rescue(s, RecordNotFound) == Rescue(s, AccessDenied)
    ensures Dispatch(s, per, Member(uid), OnUsers(ShowUser(id))) == Rescue(s, AccessDenied)
    ensures Dispatch(s, per, Member(uid), OnUsers(UpdateUser(id, body))) == Rescue(s, AccessDenied)
    ensures Dispatch(s, per, Member(uid), OnUsers(DestroyUser(id))) == Rescue(s, AccessDenied)
  {
  }

  /** ability.rb:9-19 against tickets_controller.rb:3-4: no principal but an
      administrator gets anything from a ticket route. The only answer other than an
      empty 401 is the 400 of a create without a `ticket` hash, which cancancan
      raises while building the ticket, before it authorizes. Nothing is written. */
  lemma {:induction false} TicketsAreAdminOnly(s: Store, per: nat, p: Principal, projectId: Id, route: TicketRoute)
    requires per > 0 && !p.Admin?
    ensures var r := Dispatch(s, per, p, OnTickets(projectId, route));
            && r.store == s
            && (r.code == 400 <==> route.CreateTicket? && projectId in s.projects.rows && Require(route.body).Stop?)
            && (r.code != 400 ==> r == Rescue(s, AccessDenied) || r == Rescue(s, RecordNotFound))
  {
    match route
    case ListTickets(page) =>
    case ShowTicket(id) =>
    case CreateTicket(body) =>
    case UpdateTicket(id, body) =>
    case DestroyTicket(id) =>
  }

  /** users_controller.rb:19-21 with user.rb: no request makes anyone an
      administrator; every administrator afterwards was one before. */
  lemma NoRouteGrantsAdmin(s: Store, per: nat, p: Principal, route: Route)
    requires per > 0
    ensures NoNewAdmins(s.users, Dispatch(s, per, p, route).store.users)
  {
  }

  /** From `s` to `t` no project changed owner, no ticket changed project, and a
      ticket's author changed, if at all, to nil. */
  predicate OwnershipKept(s: Store, t: Store) {
    OwnersKept(s.projects, t.projects) && TicketLinksKept(s.tickets, t.tickets)
  }

  /** No request moves a project to another owner or a ticket to another project,
      and a ticket's author only ever changes to nil, when that author is
      destroyed. */
  lemma {:induction false} OwnershipIsStable(s: Store, per: nat, p: Principal, route: Route)
    requires per > 0 && s.WellFormed()
    ensures OwnershipKept(s, Dispatch(s, per, p, route).store)
  {
  }

  /** users_controller.rb:5-15: the user routes keep the stored users and projects
      valid. */
  lemma {:induction false} UserRoutesKeepInvariant(s: Store, per: nat, p: Principal, route: UserRoute)
    requires per > 0 && Invariant(s)
    ensures Invariant(ServeUsers(s, per, p, route).store)
  {
    match route
    case CreateUser(body) =>
      if Require(body).Go? {
        var u := UsersController.Built(body.value);
        if UserRules.ErrorsOf(s, None, u) == {} {
          UserInserted(s, u);
        }
      }
    case UpdateUser(id, body) =>
      if id in s.users.rows && (p.Admin? || p == Member(id)) && Require(body).Go? {
        var u := UsersController.Apply(s.users.rows[id], body.value);
        if UserRules.ErrorsOf(s, Some(id), u) == {} {
          UserReplaced(s, id, u);
        }
      }
    case DestroyUser(id) =>
      if id in s.users.rows && (p.Admin? || p == Member(id)) {
        UserDestroyed(s, id);
      }
    case _ =>
  }

  /** projects_controller.rb:9-20: the project routes keep the stored users and
      projects valid. */
  lemma {:induction false} ProjectRoutesKeepInvariant(s: Store, per: nat, p: Principal, route: ProjectRoute)
    requires per > 0 && Invariant(s)
    ensures Invariant(ServeProjects(s, per, p, route).store)
  {
    match route
    case CreateProject(body) =>
      if Require(body).Go? && !p.Guest? {
        var project := ProjectsController.Built(body.value).(userId := p.UserId());
        if ProjectRules.ErrorsOf(s, None, project) == {} {
          ProjectInserted(s, project);
        }
      }
    case UpdateProject(id, body) =>
      if id in s.projects.rows && Can(p, Update, ProjectsController.SubjectOf(Some(id), s.projects.rows[id])) && Require(body).Go? {
        var project := ProjectsController.Apply(s.projects.rows[id], body.value);
        if ProjectRules.ErrorsOf(s, Some(id), project) == {} {
          ProjectReplaced(s, id, project);
        }
      }
    case DestroyProject(id) =>
      if id in s.projects.rows && Can(p, Destroy, ProjectsController.SubjectOf(Some(id), s.projects.rows[id])) {
        ProjectDeleted(s, id);
      }
    case _ =>
  }

  /** Every request leaves a database whose stored users and projects are all valid
      if it found one; the ticket routes write the tickets table only. */
  lemma {:induction false} DispatchKeepsInvariant(s: Store, per: nat, p: Principal, route: Route)
    requires per > 0 && Invariant(s)
    ensures Invariant(Dispatch(s, per, p, route).store)
  {
    match route
    case OnUsers(u) => UserRoutesKeepInvariant(s, per, p, u);
    case OnProjects(q) => ProjectRoutesKeepInvariant(s, per, p, q);
    case OnTickets(projectId, t) => TicketsOnly(s, ServeTickets(s, per, p, projectId, t).store);
  }

  /** The same for a whole request, authentication included. */
  lemma HandleKeepsInvariant(s: Store, per: nat, creds: Option<Credentials>, route: Route)
    requires per > 0 && Invariant(s)
    ensures Invariant(Handle(s, per, creds, route).store)
  {
    DispatchKeepsInvariant(s, per, Authenticate(s, creds), route);
  }
}
