/** app/controllers/api/v1/users_controller.rb. As for projects,
    `load_and_authorize_resource` finds the user (or builds one from the permitted
    parameters for `create`) and authorizes the action before the body runs. The
    controller declares no `index` or `show`: those render what CanCan loaded. */
module UsersController {
  import opened Base
  import opened Records
  import opened Ability
  import opened Validation
  import opened BaseController
  import opened Paging
  import UserRules

  /** users_controller.rb:19-21: `permit(:username, :password)`. */
  const Permitted: set<string> := {"username", "password"}

  function SubjectOf(id: Option<Id>): Subject {
    Record(Users, id, None)
  }

  /** Mass assignment of the permitted parameters. `password=` of
      `has_secure_password` ignores an empty string; the admin flag is not
      assignable. */
  function Apply(u: User, attrs: Attrs): (r: User)
    ensures r.admin == u.admin
    ensures "username" in attrs ==> r.username == Some(attrs["username"])
    ensures "username" !in attrs ==> r.username == u.username
    ensures "password" in attrs && attrs["password"] != "" ==> r.credential == Some(attrs["password"])
    ensures "password" !in attrs || attrs["password"] == "" ==> r.credential == u.credential
  {
    var a := Permit(attrs, Permitted);
    u.(username := Assigned(a, "username", u.username),
       credential := if "password" in a && a["password"] != "" then Some(a["password"]) else u.credential)
  }

  /** The user `create` builds: never an administrator. */
  function Built(attrs: Attrs): (u: User)
    ensures !u.admin
  {
    Apply(User(None, None, false), attrs)
  }

  /** Users index: administrators only. */
  function IndexUsers(s: Store, per: nat, p: Principal, page: Option<int>): (r: Response)
    requires per > 0
    ensures r.store == s
    ensures !p.Admin? ==> r == Rescue(s, AccessDenied)
    ensures p.Admin? ==>
              r == Success(s, Listing(PageItems(s.users.Ids(), CurrentPage(page), per),
                                      CurrentPage(page), TotalPages(|s.users.Ids()|, per)))
  {
    OnlyAdminListsUsers(p, AnyOf(Users));
    Finish(s, IndexSteps(s, per, p, page))
  }

  function IndexSteps(s: Store, per: nat, p: Principal, page: Option<int>): Outcome<Response>
    requires per > 0
  {
    var _ :- Authorize(p, Index, AnyOf(Users));
    var ids := s.users.Ids();
    Go(Success(s, Listing(PageItems(ids, CurrentPage(page), per), CurrentPage(page), TotalPages(|ids|, per))))
  }

  /** Users show: an administrator, or the user themself. */
  function ShowUser(s: Store, p: Principal, id: Id): (r: Response)
    ensures r.store == s
    ensures id !in s.users.rows ==> r == Rescue(s, RecordNotFound)
    ensures id in s.users.rows && (p.Admin? || p == Member(id)) ==> r == Success(s, Shown(id))
    ensures id in s.users.rows && !(p.Admin? || p == Member(id)) ==> r == Rescue(s, AccessDenied)
  {
    UserRecordRule(p, Show, id);
    Finish(s, ShowSteps(s, p, id))
  }

  function ShowSteps(s: Store, p: Principal, id: Id): Outcome<Response> {
    var _ :- Find(s.users, id);
    var _ :- Authorize(p, Show, SubjectOf(Some(id)));
    Go(Success(s, Shown(id)))
  }

  /** ability.rb:7-19 for an existing user record: the admin or that user. */
  lemma UserRecordRule(p: Principal, a: Action, id: Id)
    requires a in {Show, Update, Destroy}
    ensures Can(p, a, SubjectOf(Some(id))) <==> p.Admin? || p == Member(id)
  {
    match p
    case Admin(aid) => AdminMayDoAnything(aid, a, SubjectOf(Some(id)));
    case Member(uid) => MemberOnUserRecords(uid, a, Some(id), None);
    case Guest =>
  }

  /** `user.save` for a new user: INSERT when valid, otherwise 400. */
  function SaveNew(s: Store, u: User): (r: Response)
    ensures r.code == 200 <==> UserRules.ErrorsOf(s, None, u) == {}
    ensures r.code == 200 ==>
              && r.store.projects == s.projects && r.store.tickets == s.tickets
              && r.store.users.rows.Keys == s.users.rows.Keys + {s.users.next}
              && r.store.users.rows[s.users.next] == u
              && (forall k :: k in s.users.rows && k != s.users.next ==> r.store.users.rows[k] == s.users.rows[k])
              && r.body == Envelope("success", Shown(s.users.next))
    ensures r.code != 200 ==>
              r.code == 400 && r.store == s && r.body == Envelope("failed", FieldErrors(UserRules.ErrorsOf(s, None, u)))
  {
    var errs := UserRules.ErrorsOf(s, None, u);
    if errs == {} then Success(s.(users := s.users.Insert(u)), Shown(s.users.next))
    else Rejected(s, errs)
  }

  /** users_controller.rb:5-7: anyone may register; 400 exactly when invalid. */
  function CreateUser(s: Store, p: Principal, body: Option<Attrs>): (r: Response)
    ensures r.store.projects == s.projects && r.store.tickets == s.tickets
    ensures Require(body).Stop? ==> r == Rescue(s, ParameterMissing)
    ensures Require(body).Go? ==> r == SaveNew(s, Built(body.value))
    ensures Require(body).Go? ==> (r.code == 400 <==> UserRules.ErrorsOf(s, None, Built(body.value)) != {})
    ensures r.code == 200 ==>
              && r.store.users.rows.Keys == s.users.rows.Keys + {s.users.next}
              && !r.store.users.rows[s.users.next].admin
    ensures r.code != 200 ==> r.store == s
    ensures NoNewAdmins(s.users, r.store.users)
  {
    AnyoneMayRegister(p, SubjectOf(None));
    Finish(s, CreateSteps(s, p, body))
  }

  function CreateSteps(s: Store, p: Principal, body: Option<Attrs>): Outcome<Response> {
    var attrs :- Require(body);
    var built := Built(attrs);
    var _ :- Authorize(p, Create, SubjectOf(None));
    Go(SaveNew(s, built))
  }

  /** `user.update(...)`: UPDATE when valid, otherwise 400. */
  function SaveExisting(s: Store, id: Id, u: User): (r: Response)
    requires id in s.users.rows
    ensures r.code == 200 <==> UserRules.ErrorsOf(s, Some(id), u) == {}
    ensures r.code == 200 ==>
              && r.store.projects == s.projects && r.store.tickets == s.tickets
              && r.store.users.rows.Keys == s.users.rows.Keys
              && r.store.users.rows[id] == u
              && (forall k :: k in s.users.rows && k != id ==> r.store.users.rows[k] == s.users.rows[k])
              && r.body == Envelope("success", Shown(id))
    ensures r.code != 200 ==>
              r.code == 400 && r.store == s && r.body == Envelope("failed", FieldErrors(UserRules.ErrorsOf(s, Some(id), u)))
  {
    var errs := UserRules.ErrorsOf(s, Some(id), u);
    if errs == {} then Success(s.(users := s.users.Put(id, u)), Shown(id))
    else Rejected(s, errs)
  }

  /** users_controller.rb:9-11: only username and password change. */
  function UpdateUser(s: Store, p: Principal, id: Id, body: Option<Attrs>): (r: Response)
    ensures r.store.projects == s.projects && r.store.tickets == s.tickets
    ensures id !in s.users.rows ==> r == Rescue(s, RecordNotFound)
    ensures id in s.users.rows && !(p.Admin? || p == Member(id)) ==> r == Rescue(s, AccessDenied)
    ensures id in s.users.rows && (p.Admin? || p == Member(id)) ==>
              if Require(body).Stop? then r == Rescue(s, ParameterMissing)
              else r == SaveExisting(s, id, Apply(s.users.rows[id], body.value))
    ensures r.code == 200 ==>
              && id in s.users.rows
              && r.store.users.rows.Keys == s.users.rows.Keys
              && r.store.users.rows[id].admin == s.users.rows[id].admin
              && forall k :: k in s.users.rows && k != id ==> r.store.users.rows[k] == s.users.rows[k]
    ensures r.code != 200 ==> r.store == s
    ensures NoNewAdmins(s.users, r.store.users)
  {
    UserRecordRule(p, Update, id);
    Finish(s, UpdateSteps(s, p, id, body))
  }

  function UpdateSteps(s: Store, p: Principal, id: Id, body: Option<Attrs>): Outcome<Response> {
    var user :- Find(s.users, id);
    var _ :- Authorize(p, Update, SubjectOf(Some(id)));
    var attrs :- Require(body);
    Go(SaveExisting(s, id, Apply(user, attrs)))
  }

  /** users_controller.rb:13-15: the user goes, with the user.rb:5-6 cascades. */
  function DestroyUser(s: Store, p: Principal, id: Id): (r: Response)
    ensures id !in s.users.rows ==> r == Rescue(s, RecordNotFound)
    ensures id in s.users.rows && !(p.Admin? || p == Member(id)) ==> r == Rescue(s, AccessDenied)
    ensures id in s.users.rows && (p.Admin? || p == Member(id)) ==>
              r == Success(UserRules.Destroy(s, id), Nothing)
    ensures r.code != 200 ==> r.store == s
    ensures OwnersKept(s.projects, r.store.projects) && TicketLinksKept(s.tickets, r.store.tickets)
    ensures NoNewAdmins(s.users, r.store.users)
  {
    UserRecordRule(p, Destroy, id);
    Finish(s, DestroySteps(s, p, id))
  }

  function DestroySteps(s: Store, p: Principal, id: Id): Outcome<Response> {
    var _ :- Find(s.users, id);
    var _ :- Authorize(p, Destroy, SubjectOf(Some(id)));
    Go(Success(UserRules.Destroy(s, id), Nothing))
  }
}
