/** The authorization table of app/models/ability.rb. The source builds a list of
    CanCan rules for the requesting principal; a request is allowed when some rule
    applies to its action and subject. There are no `cannot` rules, so the order of
    the list does not matter and anything no rule matches is denied. */
module Ability {
  import opened Base

  /** The requester once authentication has run. `Admin` and `Member` are
      persisted users (the admin flag set or not); `Guest` is the unsaved
      `User.new` the source substitutes when nobody is logged in. */
  datatype Principal = Admin(id: Id) | Member(id: Id) | Guest {
    /** `current_user`'s id, if there is a current user. */
    function UserId(): (u: Option<Id>)
      ensures u.None? <==> Guest?
      ensures !Guest? ==> u == Some(id)
    {
      if Guest? then None else Some(id)
    }
  }

  datatype Action = Index | Show | Create | Update | Destroy

  datatype Kind = Users | Projects | Tickets

  /** What a check is about: a whole kind (the class-level check CanCan makes for
      `index`) or one record, carrying the attributes rule conditions can name.
      A record being built for `create` has no id yet. */
  datatype Subject = AnyOf(kind: Kind) | Record(kind: Kind, id: Option<Id>, userId: Option<Id>)

  /** The `can` arguments: `:manage` or a list of actions, `:all` or one class,
      and an optional conditions hash. */
  datatype Actions = Manage | Only(actions: set<Action>)
  datatype Subjects = All | Of(kind: Kind)
  datatype Condition = Always | IdIs(id: Id) | UserIdIs(userId: Id)
  datatype Rule = Rule(actions: Actions, subjects: Subjects, condition: Condition)

  /** The rules `Ability#initialize` declares for a principal. */
  function Rules(p: Principal): seq<Rule> {
    match p
    case Admin(_) =>
      [Rule(Manage, All, Always)]
    case Member(uid) =>
      [Rule(Only({Show, Update, Destroy}), Of(Users), IdIs(uid)),
       Rule(Only({Create}), Of(Users), Always),
       Rule(Only({Index, Show, Create}), Of(Projects), Always),
       Rule(Only({Update, Destroy}), Of(Projects), UserIdIs(uid))]
    case Guest =>
      [Rule(Only({Create}), Of(Users), Always),
       Rule(Only({Index, Show}), Of(Projects), Always)]
  }

  /** CanCan's matching: the action and class must match; a conditions hash is
      compared with the record's attributes and ignored for a class-level check. */
  predicate Applies(r: Rule, a: Action, s: Subject) {
    && (r.actions.Manage? || a in r.actions.actions)
    && (r.subjects.All? || r.subjects.kind == s.kind)
    && match s
       case AnyOf(_) => true
       case Record(_, id, userId) =>
         match r.condition
         case Always => true
         case IdIs(v) => id == Some(v)
         case UserIdIs(v) => userId == Some(v)
  }

  /** `can?(action, subject)` for the ability built for `p`. */
  predicate Can(p: Principal, a: Action, s: Subject) {
    exists r :: r in Rules(p) && Applies(r, a, s)
  }

  /** ability.rb:7-8: an administrator may do anything to anything. */
  lemma AdminMayDoAnything(id: Id, a: Action, s: Subject)
    ensures Can(Admin(id), a, s)
  {
    assert Applies(Rules(Admin(id))[0], a, s);
  }

  /** ability.rb:10: a logged-in non-admin may show, update or destroy a user
      record exactly when it is their own. */
  lemma MemberOnUserRecords(uid: Id, a: Action, id: Option<Id>, userId: Option<Id>)
    requires a in {Show, Update, Destroy}
    ensures Can(Member(uid), a, Record(Users, id, userId)) <==> id == Some(uid)
  {
    var s := Record(Users, id, userId);
    if id == Some(uid) {
      assert Applies(Rules(Member(uid))[0], a, s);
    }
  }

  /** ability.rb:8,11,16: every principal, guests included, may create a user. */
  lemma AnyoneMayRegister(p: Principal, s: Subject)
    requires s.kind == Users
    ensures Can(p, Create, s)
  {
    match p
    case Admin(_) => assert Applies(Rules(p)[0], Create, s);
    case Member(_) => assert Applies(Rules(p)[1], Create, s);
    case Guest => assert Applies(Rules(p)[0], Create, s);
  }

  /** ability.rb:9-19: no rule lets a non-admin list users. */
  lemma OnlyAdminListsUsers(p: Principal, s: Subject)
    requires s.kind == Users
    ensures Can(p, Index, s) <==> p.Admin?
  {
    if p.Admin? {
      AdminMayDoAnything(p.id, Index, s);
    }
  }

  /** ability.rb:13-14: a logged-in non-admin may list, show and create any
      project, and update or destroy one only when its `user_id` is theirs. */
  lemma MemberOnProjects(uid: Id, a: Action, s: Subject)
    requires s.kind == Projects
    ensures a in {Index, Show, Create} ==> Can(Member(uid), a, s)
    ensures a in {Update, Destroy} && s.Record? ==>
              (Can(Member(uid), a, s) <==> s.userId == Some(uid))
  {
    var rules := Rules(Member(uid));
    if a in {Index, Show, Create} {
      assert Applies(rules[2], a, s);
    }
    if a in {Update, Destroy} && s.Record? && s.userId == Some(uid) {
      assert Applies(rules[3], a, s);
    }
  }

  /** ability.rb:18: a guest may only list and show projects. */
  lemma GuestOnProjects(a: Action, s: Subject)
    requires s.kind == Projects
    ensures Can(Guest, a, s) <==> a in {Index, Show}
  {
    if a in {Index, Show} {
      assert Applies(Rules(Guest)[1], a, s);
    }
  }

  /** ability.rb:9-19: deny by default; in particular no rule gives a non-admin
      any access to tickets. */
  lemma OnlyAdminTouchesTickets(p: Principal, a: Action, s: Subject)
    requires s.kind == Tickets
    ensures Can(p, a, s) <==> p.Admin?
  {
    if p.Admin? {
      AdminMayDoAnything(p.id, a, s);
    }
  }

  /** ability.rb:7-19: whatever a guest may do, any logged-in user may do. */
  lemma GuestWithinMember(uid: Id, a: Action, s: Subject)
    ensures Can(Guest, a, s) ==> Can(Member(uid), a, s)
  {
    if Can(Guest, a, s) {
      var r :| r in Rules(Guest) && Applies(r, a, s);
      if r == Rules(Guest)[0] {
        assert Applies(Rules(Member(uid))[1], a, s);
      } else {
        assert Applies(Rules(Member(uid))[2], a, s);
      }
    }
  }

  /** ability.rb:7-19: whatever a logged-in user may do, an administrator may do. */
  lemma MemberWithinAdmin(uid: Id, admin: Id, a: Action, s: Subject)
    ensures Can(Member(uid), a, s) ==> Can(Admin(admin), a, s)
  {
    AdminMayDoAnything(admin, a, s);
  }

  /** ability.rb:8,13,18: every principal may list and show projects. */
  lemma AnyoneReadsProjects(p: Principal, a: Action, s: Subject)
    requires s.kind == Projects && a in {Index, Show}
    ensures Can(p, a, s)
  {
    match p
    case Admin(id) => AdminMayDoAnything(id, a, s);
    case Member(id) => MemberOnProjects(id, a, s);
    case Guest => GuestOnProjects(a, s);
  }

  /** ability.rb:8,13,18: creating a project takes a logged-in user. */
  lemma CreateProjectNeedsLogin(p: Principal, s: Subject)
    requires s.kind == Projects
    ensures Can(p, Create, s) <==> !p.Guest?
  {
    match p
    case Admin(id) => AdminMayDoAnything(id, Create, s);
    case Member(id) => MemberOnProjects(id, Create, s);
    case Guest => GuestOnProjects(Create, s);
  }
}
