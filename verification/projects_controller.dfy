/** app/controllers/api/v1/projects_controller.rb. `load_and_authorize_resource`
    loads the project (`find` for member actions, a new record built from the
    permitted parameters for `create`) and authorizes the action on it before the
    action body runs. */
module ProjectsController {
  import opened Base
  import opened Records
  import opened Ability
  import opened Validation
  import opened BaseController
  import opened Paging
  import ProjectRules

  /** projects_controller.rb:29-31: `permit(:name, :description, :status)`. */
  const Permitted: set<string> := {"name", "description", "status"}

  /** The attributes CanCan's conditions can see on a project. */
  function SubjectOf(id: Option<Id>, project: Project): Subject {
    Record(Projects, id, project.userId)
  }

  /** Mass assignment of the permitted parameters. Only name, description and
      status can change; the owner never does. */
  function Apply(project: Project, attrs: Attrs): (r: Project)
    ensures r.userId == project.userId
    ensures "name" in attrs ==> r.name == Some(attrs["name"])
    ensures "name" !in attrs ==> r.name == project.name
    ensures "description" in attrs ==> r.description == Some(attrs["description"])
    ensures "description" !in attrs ==> r.description == project.description
    ensures "status" in attrs ==> r.status == Some(attrs["status"])
    ensures "status" !in attrs ==> r.status == project.status
  {
    var a := Permit(attrs, Permitted);
    project.(name := Assigned(a, "name", project.name),
             description := Assigned(a, "description", project.description),
             status := Assigned(a, "status", project.status))
  }

  /** The project `create` builds from the request before authorizing it. */
  function Built(attrs: Attrs): Project {
    Apply(Project(None, None, None, None), attrs)
  }

  /** projects_controller.rb:5-7: every project, one page of them. */
  function IndexProjects(s: Store, per: nat, p: Principal, page: Option<int>): (r: Response)
    requires per > 0
    ensures r.store == s
    ensures r.code == 200
    ensures r.body.Envelope? && r.body.payload.Listing?
    ensures r.body.payload.ids == PageItems(s.projects.Ids(), CurrentPage(page), per)
    ensures r.body.payload.page == CurrentPage(page)
    ensures r.body.payload.totalPages == TotalPages(|s.projects.Ids()|, per)
  {
    AnyoneReadsProjects(p, Index, AnyOf(Projects));
    Finish(s, IndexSteps(s, per, p, page))
  }

  function IndexSteps(s: Store, per: nat, p: Principal, page: Option<int>): Outcome<Response>
    requires per > 0
  {
    var _ :- Authorize(p, Index, AnyOf(Projects));
    var ids := s.projects.Ids();
    Go(Success(s, Listing(PageItems(ids, CurrentPage(page), per), CurrentPage(page), TotalPages(|ids|, per))))
  }

  /** `show`: load, authorize, render. */
  function ShowProject(s: Store, p: Principal, id: Id): (r: Response)
    ensures r.store == s
    ensures id !in s.projects.rows ==> r == Rescue(s, RecordNotFound)
    ensures id in s.projects.rows ==> r == Success(s, Shown(id))
  {
    AnyoneReadsProjects(p, Show, SubjectOf(Some(id), if id in s.projects.rows then s.projects.rows[id] else Project(None, None, None, None)));
    Finish(s, ShowSteps(s, p, id))
  }

  function ShowSteps(s: Store, p: Principal, id: Id): Outcome<Response> {
    var project :- Find(s.projects, id);
    var _ :- Authorize(p, Show, SubjectOf(Some(id), project));
    Go(Success(s, Shown(id)))
  }

  /** `project.save` for a new project: INSERT when valid, otherwise 400. */
  function SaveNew(s: Store, project: Project): (r: Response)
    ensures r.code == 200 <==> ProjectRules.ErrorsOf(s, None, project) == {}
    ensures r.code == 200 ==>
              && r.store.users == s.users && r.store.tickets == s.tickets
              && r.store.projects.rows.Keys == s.projects.rows.Keys + {s.projects.next}
              && r.store.projects.rows[s.projects.next] == project
              && (forall k :: k in s.projects.rows && k != s.projects.next ==> r.store.projects.rows[k] == s.projects.rows[k])
              && r.body == Envelope("success", Shown(s.projects.next))
    ensures r.code != 200 ==>
              r.code == 400 && r.store == s && r.body == Envelope("failed", FieldErrors(ProjectRules.ErrorsOf(s, None, project)))
  {
    var errs := ProjectRules.ErrorsOf(s, None, project);
    if errs == {} then Success(s.(projects := s.projects.Insert(project)), Shown(s.projects.next))
    else Rejected(s, errs)
  }

  /** projects_controller.rb:9-12: the owner is forced to the requester. */
  function CreateProject(s: Store, p: Principal, body: Option<Attrs>): (r: Response)
    ensures r.store.users == s.users && r.store.tickets == s.tickets
    ensures s.projects.WellFormed() ==> OwnersKept(s.projects, r.store.projects)
    ensures Require(body).Stop? ==> r == Rescue(s, ParameterMissing)
    ensures Require(body).Go? && p.Guest? ==> r == Rescue(s, AccessDenied)
    ensures Require(body).Go? && !p.Guest? ==> r == SaveNew(s, Built(body.value).(userId := p.UserId()))
    ensures r.code == 200 ==>
              && !p.Guest?
              && r.store.projects.rows.Keys == s.projects.rows.Keys + {s.projects.next}
              && r.store.projects.rows[s.projects.next].userId == p.UserId()
              && r.body == Envelope("success", Shown(s.projects.next))
    ensures r.code != 200 ==> r.store == s
  {
    CreateProjectNeedsLogin(p, SubjectOf(None, Built(if body.Some? then body.value else map[])));
    Finish(s, CreateSteps(s, p, body))
  }

  function CreateSteps(s: Store, p: Principal, body: Option<Attrs>): Outcome<Response> {
    var attrs :- Require(body);
    var built := Built(attrs);
    var _ :- Authorize(p, Create, SubjectOf(None, built));
    var owned := if p.Guest? then built else built.(userId := p.UserId());
    Go(SaveNew(s, owned))
  }

  /** `project.update(...)` of an existing project: UPDATE when valid, else 400. */
  function SaveExisting(s: Store, id: Id, project: Project): (r: Response)
    requires id in s.projects.rows
    ensures r.code == 200 <==> ProjectRules.ErrorsOf(s, Some(id), project) == {}
    ensures r.code == 200 ==>
              && r.store.users == s.users && r.store.tickets == s.tickets
              && r.store.projects.rows.Keys == s.projects.rows.Keys
              && r.store.projects.rows[id] == project
              && (forall k :: k in s.projects.rows && k != id ==> r.store.projects.rows[k] == s.projects.rows[k])
              && r.body == Envelope("success", Shown(id))
    ensures r.code != 200 ==>
              r.code == 400 && r.store == s && r.body == Envelope("failed", FieldErrors(ProjectRules.ErrorsOf(s, Some(id), project)))
  {
    var errs := ProjectRules.ErrorsOf(s, Some(id), project);
    if errs == {} then Success(s.(projects := s.projects.Put(id, project)), Shown(id))
    else Rejected(s, errs)
  }

  /** projects_controller.rb:14-16: only the permitted fields change. */
  function UpdateProject(s: Store, p: Principal, id: Id, body: Option<Attrs>): (r: Response)
    ensures r.store.users == s.users && r.store.tickets == s.tickets
    ensures s.projects.WellFormed() ==> OwnersKept(s.projects, r.store.projects)
    ensures id !in s.projects.rows ==> r == Rescue(s, RecordNotFound)
    ensures id in s.projects.rows && !Can(p, Update, SubjectOf(Some(id), s.projects.rows[id])) ==>
              r == Rescue(s, AccessDenied)
    ensures id in s.projects.rows && Can(p, Update, SubjectOf(Some(id), s.projects.rows[id])) ==>
              if Require(body).Stop? then r == Rescue(s, ParameterMissing)
              else r == SaveExisting(s, id, Apply(s.projects.rows[id], body.value))
    ensures r.code == 200 ==>
              && id in s.projects.rows
              && r.store.projects.rows.Keys == s.projects.rows.Keys
              && r.store.projects.rows[id].userId == s.projects.rows[id].userId
              && forall k :: k in s.projects.rows && k != id ==> r.store.projects.rows[k] == s.projects.rows[k]
    ensures r.code != 200 ==> r.store == s
  {
    Finish(s, UpdateSteps(s, p, id, body))
  }

  function UpdateSteps(s: Store, p: Principal, id: Id, body: Option<Attrs>): Outcome<Response> {
    var project :- Find(s.projects, id);
    var _ :- Authorize(p, Update, SubjectOf(Some(id), project));
    var attrs :- Require(body);
    Go(SaveExisting(s, id, Apply(project, attrs)))
  }

  /** projects_controller.rb:18-20: exactly the target project is deleted; its
      tickets stay, because project.rb declares no association to cascade through. */
  function DestroyProject(s: Store, p: Principal, id: Id): (r: Response)
    ensures r.store.users == s.users && r.store.tickets == s.tickets
    ensures s.projects.WellFormed() ==> OwnersKept(s.projects, r.store.projects)
    ensures id !in s.projects.rows ==> r == Rescue(s, RecordNotFound)
    ensures id in s.projects.rows && !Can(p, Destroy, SubjectOf(Some(id), s.projects.rows[id])) ==>
              r == Rescue(s, AccessDenied)
    ensures id in s.projects.rows && Can(p, Destroy, SubjectOf(Some(id), s.projects.rows[id])) ==>
              r == Success(s.(projects := s.projects.Delete(id)), Nothing)
    ensures r.code == 200 ==>
              && id in s.projects.rows
              && r.store.projects.rows.Keys == s.projects.rows.Keys - {id}
              && (forall k :: k in r.store.projects.rows ==> r.store.projects.rows[k] == s.projects.rows[k])
              && r.body == Envelope("success", Nothing)
    ensures r.code != 200 ==> r.store == s
  {
    Finish(s, DestroySteps(s, p, id))
  }

  function DestroySteps(s: Store, p: Principal, id: Id): Outcome<Response> {
    var project :- Find(s.projects, id);
    var _ :- Authorize(p, Destroy, SubjectOf(Some(id), project));
    Go(Success(s.(projects := s.projects.Delete(id)), Nothing))
  }
}
