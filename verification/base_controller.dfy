/** app/controllers/api/v1/base_controller.rb and the request plumbing every
    controller shares: HTTP Basic authentication into a principal, the three
    rescued exceptions and the statuses they render, `params.require(...).permit(...)`,
    and the responses the views produce. */
module BaseController {
  import opened Base
  import opened Records
  import opened Ability
  import opened Validation

  /** The decoded `Authorization: Basic` header. */
  datatype Credentials = Credentials(username: string, password: string)

  /** The exceptions `rescue_from` handles: CanCan::AccessDenied,
      ActiveRecord::RecordNotFound and ActionController::ParameterMissing. */
  datatype Halt = AccessDenied | RecordNotFound | ParameterMissing

  /** A step of an action: it either goes on with a value or raises one of the
      rescued exceptions. */
  datatype Outcome<+T> = Go(value: T) | Stop(halt: Halt) {
    predicate IsFailure() {
      Stop?
    }

    function PropagateFailure<U>(): Outcome<U>
      requires Stop?
    {
      Stop(halt)
    }

    function Extract(): T
      requires Go?
    {
      value
    }
  }

  /** What the JSON views render besides the envelope's status. */
  datatype Payload =
    | Nothing                                               // destroy
    | Shown(id: Id)                                         // show, create, update
    | Listing(ids: seq<Id>, page: nat, totalPages: nat)     // index
    | FieldErrors(errors: Errors)                           // a failed save

  datatype Body = Empty | Text(text: string) | Envelope(status: string, payload: Payload)

  /** The HTTP status, the body and the store after the request. */
  datatype Response = Response(code: nat, body: Body, store: Store)

  const ParamMissingText := "param is missing or the value is empty"

  /** `user.authenticate(password)`: the password matches the stored credential.
      bcrypt is abstracted to equality of the secret. */
  predicate Authenticates(u: User, password: string) {
    u.credential == Some(password)
  }

  /** `User.find_by username:` over the keys `ids`: the first one whose user has
      that username. */
  function FindByUsername(users: Table<User>, ids: seq<Id>, name: string): (r: Option<Id>)
    ensures r.Some? ==> r.value in ids && r.value in users.rows && users.rows[r.value].username == Some(name)
    ensures r.Some? ==> exists k :: 0 <= k < |ids| && ids[k] == r.value
                          && forall j :: 0 <= j < k ==> !(ids[j] in users.rows && users.rows[ids[j]].username == Some(name))
    ensures r.None? ==> forall id :: id in ids && id in users.rows ==> users.rows[id].username != Some(name)
  {
    if |ids| == 0 then None
    else if ids[0] in users.rows && users.rows[ids[0]].username == Some(name) then Some(ids[0])
    else
      var r := FindByUsername(users, ids[1..], name);
      if r.Some? then
        ghost var k :| 0 <= k < |ids[1..]| && ids[1..][k] == r.value
                       && forall j :: 0 <= j < k ==> !(ids[1..][j] in users.rows && users.rows[ids[1..][j]].username == Some(name));
        assert ids[k + 1] == r.value;
        r
      else
        assert forall id :: id in ids ==> id == ids[0] || id in ids[1..];
        r
  }

  /** base_controller.rb:21-29: `@current_user` is the user the Basic-auth
      username names, provided the password authenticates; otherwise it stays nil. */
  function CurrentUser(s: Store, creds: Option<Credentials>): (u: Option<Id>)
    ensures u.Some? ==> && creds.Some? && u.value in s.users.rows
                        && s.users.rows[u.value].username == Some(creds.value.username)
                        && Authenticates(s.users.rows[u.value], creds.value.password)
    ensures creds.None? ==> u.None?
  {
    if creds.None? then None
    else
      var found := FindByUsername(s.users, s.users.Ids(), creds.value.username);
      if found.Some? && Authenticates(s.users.rows[found.value], creds.value.password) then found
      else None
  }

  /** ability.rb:6-9: the branch `Ability#initialize` takes for `current_user`. */
  function PrincipalOf(s: Store, current: Option<Id>): (p: Principal)
    ensures current.None? || current.value !in s.users.rows ==> p == Guest
    ensures current.Some? && current.value in s.users.rows ==>
              p == (if s.users.rows[current.value].admin then Admin(current.value) else Member(current.value))
  {
    if current.Some? && current.value in s.users.rows then
      if s.users.rows[current.value].admin then Admin(current.value) else Member(current.value)
    else Guest
  }

  /** The principal every action runs as (`before_action :authenticate`). */
  function Authenticate(s: Store, creds: Option<Credentials>): (p: Principal)
    ensures p.Guest? <==> CurrentUser(s, creds).None?
    ensures !p.Guest? ==> p.UserId() == CurrentUser(s, creds)
  {
    PrincipalOf(s, CurrentUser(s, creds))
  }

  /** No two stored users share a username: what the uniqueness validation keeps. */
  predicate UniqueUsernames(users: Table<User>) {
    forall a, b :: a in users.rows && b in users.rows && users.rows[a].username == users.rows[b].username ==> a == b
  }

  /** base_controller.rb:21-29 with ability.rb:6: in a well-formed store with unique
      usernames, the requester is a stored user exactly when some user has the
      given username and password, and is that user; anything else is a guest. */
  lemma AuthenticateResolvesCredentials(s: Store, creds: Option<Credentials>)
    requires s.users.WellFormed() && UniqueUsernames(s.users)
    ensures Authenticate(s, creds).Guest? <==>
              creds.None? || !exists id :: id in s.users.rows && s.users.rows[id].username == Some(creds.value.username)
                                               && Authenticates(s.users.rows[id], creds.value.password)
    ensures forall id :: creds.Some? && id in s.users.rows && s.users.rows[id].username == Some(creds.value.username)
                         && Authenticates(s.users.rows[id], creds.value.password) ==>
                           Authenticate(s, creds).UserId() == Some(id)
  {
    if creds.Some? {
      var name := creds.value.username;
      var found := FindByUsername(s.users, s.users.Ids(), name);
      forall id | id in s.users.rows && s.users.rows[id].username == Some(name)
        ensures found == Some(id)
      {
        assert id in s.users.Ids();
      }
    }
  }

  /** base_controller.rb:5-7,31-41: the status and body each rescued exception
      renders. A denial and a missing record look the same; nothing is saved. */
  function Rescue(s: Store, h: Halt): (r: Response)
    ensures r.store == s
    ensures h != ParameterMissing ==> r.code == 401 && r.body == Empty
    ensures h == ParameterMissing ==> r.code == 400 && r.body == Text(ParamMissingText)
  {
    match h
    case AccessDenied => Response(401, Empty, s)
    case RecordNotFound => Response(401, Empty, s)
    case ParameterMissing => Response(400, Text(ParamMissingText), s)
  }

  /** Runs an action's steps, rendering a raised exception through `Rescue`. */
  function Finish(s: Store, o: Outcome<Response>): (r: Response)
    ensures o.Stop? ==> r == Rescue(s, o.halt)
    ensures o.Go? ==> r == o.value
  {
    match o
    case Go(r) => r
    case Stop(h) => Rescue(s, h)
  }

  /** `authorize!`: raises AccessDenied unless the ability allows the action. */
  function Authorize(p: Principal, a: Action, subject: Subject): (o: Outcome<Principal>)
    ensures o.Go? <==> Can(p, a, subject)
    ensures o.Stop? ==> o.halt == AccessDenied
    ensures o.Go? ==> o.value == p
  {
    if Can(p, a, subject) then Go(p) else Stop(AccessDenied)
  }

  /** `Model.find(id)`: raises RecordNotFound for a missing key. */
  function Find<R>(t: Table<R>, id: Id): (o: Outcome<R>)
    ensures o.Go? <==> id in t.rows
    ensures o.Go? ==> o.value == t.rows[id]
    ensures o.Stop? ==> o.halt == RecordNotFound
  {
    if id in t.rows then Go(t.rows[id]) else Stop(RecordNotFound)
  }

  /** `params.require(key)`: raises ParameterMissing when the key is absent or its
      hash is empty. */
  function Require(body: Option<Attrs>): (o: Outcome<Attrs>)
    ensures o.Go? <==> body.Some? && body.value != map[]
    ensures o.Go? ==> o.value == body.value
    ensures o.Stop? ==> o.halt == ParameterMissing
  {
    if body.None? || body.value == map[] then Stop(ParameterMissing) else Go(body.value)
  }

  /** `.permit(*keys)`: only the listed keys survive. */
  function Permit(attrs: Attrs, keys: set<string>): (r: Attrs)
    ensures r.Keys == attrs.Keys * keys
    ensures forall k :: k in r ==> r[k] == attrs[k]
  {
    map k | k in attrs && k in keys :: attrs[k]
  }

  /** The value mass assignment gives an attribute: the permitted parameter if
      present, otherwise the current value. */
  function Assigned(attrs: Attrs, key: string, current: Option<string>): (v: Option<string>)
    ensures key in attrs ==> v == Some(attrs[key])
    ensures key !in attrs ==> v == current
  {
    if key in attrs then Some(attrs[key]) else current
  }

  /** A 200 response; a record without errors renders `validation_status`
      "success". */
  function Success(s: Store, payload: Payload): (r: Response)
    ensures r.code == 200 && r.store == s && r.body == Envelope("success", payload)
  {
    Response(200, Envelope(ValidationStatus({}), payload), s)
  }

  /** `render status: 400` after a failed save: the store is untouched and the
      envelope carries "failed" with the errors. */
  function Rejected(s: Store, errs: Errors): (r: Response)
    requires errs != {}
    ensures r.code == 400 && r.store == s && r.body == Envelope("failed", FieldErrors(errs))
  {
    Response(400, Envelope(ValidationStatus(errs), FieldErrors(errs)), s)
  }
}
