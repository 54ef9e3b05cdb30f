/** What the validations keep true of the database: every stored user and every
    stored project would pass validation again. Each write the controllers can make
    (INSERT or UPDATE of a validated record, DELETE of a project, the user destroy
    cascade, any change confined to the tickets table) preserves this. Tickets are
    deliberately absent: the user cascade orphans them and a project can be closed
    under them, so a stored ticket may stop being valid. */
module Invariants {
  import opened Base
  import opened Records
  import opened Validation
  import opened BaseController
  import ProjectRules
  import UserRules

  predicate UsersValid(s: Store) {
    forall id :: id in s.users.rows ==> UserRules.ErrorsOf(s, Some(id), s.users.rows[id]) == {}
  }

  predicate ProjectsValid(s: Store) {
    forall id :: id in s.projects.rows ==> ProjectRules.ErrorsOf(s, Some(id), s.projects.rows[id]) == {}
  }

  predicate Invariant(s: Store) {
    s.WellFormed() && UsersValid(s) && ProjectsValid(s)
  }

  /** A user is valid exactly when it has a credential, a username, and no other
      stored user has that username; only the users table is consulted. */
  lemma UserValidity(s: Store, self: Option<Id>, u: User)
    ensures UserRules.ErrorsOf(s, self, u) == {} <==>
              && u.credential.Some? && !Blank(u.username)
              && forall id :: id in s.users.rows && Some(id) != self ==> s.users.rows[id].username != u.username
  {
    UserRules.ErrorsReportEachRule(s, self, u);
  }

  /** A project is valid exactly when it has a name no other stored project has, an
      allowed status and an existing owner. */
  lemma ProjectValidity(s: Store, self: Option<Id>, p: Project)
    ensures ProjectRules.ErrorsOf(s, self, p) == {} <==>
              && !Blank(p.name) && p.status.Some? && p.status.value in ProjectRules.Statuses
              && p.userId.Some? && p.userId.value in s.users.rows
              && forall id :: id in s.projects.rows && Some(id) != self ==> s.projects.rows[id].name != p.name
  {
    ProjectRules.ErrorsReportEachRule(s, self, p);
  }

  /** The empty database satisfies the invariant: the base case every sequence of
      requests starts from. */
  lemma EmptyStoreHoldsInvariant()
    ensures Invariant(Store(EmptyTable(), EmptyTable(), EmptyTable()))
  {
  }

  /** user.rb:8: in a database where every user is valid, no two users share a
      username, which is what makes authentication exact. */
  lemma {:induction false} UsernamesUnique(s: Store)
    requires Invariant(s)
    ensures UniqueUsernames(s.users)
  {
    forall a, b | a in s.users.rows && b in s.users.rows && s.users.rows[a].username == s.users.rows[b].username
      ensures a == b
    {
      UserValidity(s, Some(a), s.users.rows[a]);
    }
  }

  /** Rewriting only the tickets table keeps the invariant. */
  lemma {:induction false} TicketsOnly(s: Store, t: Store)
    requires Invariant(s) && t.users == s.users && t.projects == s.projects && t.tickets.WellFormed()
    ensures Invariant(t)
  {
    forall id | id in t.users.rows ensures UserRules.ErrorsOf(t, Some(id), t.users.rows[id]) == {} {
      UserValidity(s, Some(id), s.users.rows[id]);
      UserValidity(t, Some(id), t.users.rows[id]);
    }
    forall id | id in t.projects.rows ensures ProjectRules.ErrorsOf(t, Some(id), t.projects.rows[id]) == {} {
      ProjectValidity(s, Some(id), s.projects.rows[id]);
      ProjectValidity(t, Some(id), t.projects.rows[id]);
    }
  }

  /** INSERT of a project that passed validation as a new record. */
  lemma {:induction false} ProjectInserted(s: Store, p: Project)
    requires Invariant(s) && ProjectRules.ErrorsOf(s, None, p) == {}
    ensures Invariant(s.(projects := s.projects.Insert(p)))
  {
    var t := s.(projects := s.projects.Insert(p));
    var n := s.projects.next;
    ProjectValidity(s, None, p);
    forall id | id in t.users.rows ensures UserRules.ErrorsOf(t, Some(id), t.users.rows[id]) == {} {
      UserValidity(s, Some(id), s.users.rows[id]);
      UserValidity(t, Some(id), t.users.rows[id]);
    }
    forall id | id in t.projects.rows ensures ProjectRules.ErrorsOf(t, Some(id), t.projects.rows[id]) == {} {
      var q := t.projects.rows[id];
      if id != n {
        ProjectValidity(s, Some(id), q);
      }
      forall j | j in t.projects.rows && j != id ensures t.projects.rows[j].name != q.name {
        if j != n {
          assert j in s.projects.rows;
        }
      }
      ProjectValidity(t, Some(id), q);
    }
  }

  /** UPDATE of a stored project with a version that passed validation against the
      others. */
  lemma {:induction false} ProjectReplaced(s: Store, id: Id, p: Project)
    requires Invariant(s) && id in s.projects.rows && ProjectRules.ErrorsOf(s, Some(id), p) == {}
    ensures Invariant(s.(projects := s.projects.Put(id, p)))
  {
    var t := s.(projects := s.projects.Put(id, p));
    ProjectValidity(s, Some(id), p);
    forall k | k in t.users.rows ensures UserRules.ErrorsOf(t, Some(k), t.users.rows[k]) == {} {
      UserValidity(s, Some(k), s.users.rows[k]);
      UserValidity(t, Some(k), t.users.rows[k]);
    }
    forall k | k in t.projects.rows ensures ProjectRules.ErrorsOf(t, Some(k), t.projects.rows[k]) == {} {
      var q := t.projects.rows[k];
      if k != id {
        ProjectValidity(s, Some(k), q);
      }
      forall j | j in t.projects.rows && j != k ensures t.projects.rows[j].name != q.name {
        if j != id {
          assert t.projects.rows[j] == s.projects.rows[j];
        }
      }
      ProjectValidity(t, Some(k), q);
    }
  }

  /** DELETE of a project. */
  lemma {:induction false} ProjectDeleted(s: Store, id: Id)
    requires Invariant(s)
    ensures Invariant(s.(projects := s.projects.Delete(id)))
  {
    var t := s.(projects := s.projects.Delete(id));
    forall k | k in t.users.rows ensures UserRules.ErrorsOf(t, Some(k), t.users.rows[k]) == {} {
      UserValidity(s, Some(k), s.users.rows[k]);
      UserValidity(t, Some(k), t.users.rows[k]);
    }
    forall k | k in t.projects.rows ensures ProjectRules.ErrorsOf(t, Some(k), t.projects.rows[k]) == {} {
      ProjectValidity(s, Some(k), s.projects.rows[k]);
      ProjectValidity(t, Some(k), t.projects.rows[k]);
    }
  }

  /** INSERT of a user that passed validation as a new record. */
  lemma {:induction false} UserInserted(s: Store, u: User)
    requires Invariant(s) && UserRules.ErrorsOf(s, None, u) == {}
    ensures Invariant(s.(users := s.users.Insert(u)))
  {
    var t := s.(users := s.users.Insert(u));
    var n := s.users.next;
    UserValidity(s, None, u);
    forall id | id in t.users.rows ensures UserRules.ErrorsOf(t, Some(id), t.users.rows[id]) == {} {
      var v := t.users.rows[id];
      if id != n {
        UserValidity(s, Some(id), v);
      }
      forall j | j in t.users.rows && j != id ensures t.users.rows[j].username != v.username {
        if j != n {
          assert j in s.users.rows;
        }
      }
      UserValidity(t, Some(id), v);
    }
    forall id | id in t.projects.rows ensures ProjectRules.ErrorsOf(t, Some(id), t.projects.rows[id]) == {} {
      ProjectValidity(s, Some(id), s.projects.rows[id]);
      ProjectValidity(t, Some(id), t.projects.rows[id]);
    }
  }

  /** UPDATE of a stored user with a version that passed validation against the
      others. */
  lemma {:induction false} UserReplaced(s: Store, id: Id, u: User)
    requires Invariant(s) && id in s.users.rows && UserRules.ErrorsOf(s, Some(id), u) == {}
    ensures Invariant(s.(users := s.users.Put(id, u)))
  {
    var t := s.(users := s.users.Put(id, u));
    UserValidity(s, Some(id), u);
    forall k | k in t.users.rows ensures UserRules.ErrorsOf(t, Some(k), t.users.rows[k]) == {} {
      var v := t.users.rows[k];
      if k != id {
        UserValidity(s, Some(k), v);
      }
      forall j | j in t.users.rows && j != k ensures t.users.rows[j].username != v.username {
        if j != id {
          assert t.users.rows[j] == s.users.rows[j];
        }
      }
      UserValidity(t, Some(k), v);
    }
    forall k | k in t.projects.rows ensures ProjectRules.ErrorsOf(t, Some(k), t.projects.rows[k]) == {} {
      ProjectValidity(s, Some(k), s.projects.rows[k]);
      ProjectValidity(t, Some(k), t.projects.rows[k]);
    }
  }

  /** The user destroy cascade: the surviving projects are exactly those whose owner
      survives, so none loses its owner. */
  lemma {:induction false} UserDestroyed(s: Store, uid: Id)
    requires Invariant(s)
    ensures Invariant(UserRules.Destroy(s, uid))
  {
    var t := UserRules.Destroy(s, uid);
    forall k | k in t.users.rows ensures UserRules.ErrorsOf(t, Some(k), t.users.rows[k]) == {} {
      UserValidity(s, Some(k), s.users.rows[k]);
      UserValidity(t, Some(k), t.users.rows[k]);
    }
    forall k | k in t.projects.rows ensures ProjectRules.ErrorsOf(t, Some(k), t.projects.rows[k]) == {} {
      ProjectValidity(s, Some(k), s.projects.rows[k]);
      ProjectValidity(t, Some(k), t.projects.rows[k]);
    }
  }
}
