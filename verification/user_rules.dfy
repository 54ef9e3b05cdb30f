/** app/models/user.rb: username presence and uniqueness, the password presence
    `has_secure_password` adds, and the two `dependent:` cascades run on destroy. */
module UserRules {
  import opened Base
  import opened Records
  import opened Validation
  import TicketRules

  /** Another stored user has the same username (exact, case-sensitive match). */
  predicate UsernameTaken(s: Store, self: Option<Id>, username: Option<string>) {
    exists id :: id in s.users.rows && Some(id) != self && s.users.rows[id].username == username
  }

  /** The errors of user.rb:3,8. */
  function ErrorsOf(s: Store, self: Option<Id>, u: User): Errors {
    Check(u.credential.None?, "password", CantBeBlank)
    + Check(Blank(u.username), "username", CantBeBlank)
    + Check(UsernameTaken(s, self, u.username), "username", Taken)
  }

  /** user.rb:3,8: a user is valid exactly when no rule fires; each entry is present
      exactly when its rule fails. The admin flag is never validated. */
  lemma ErrorsReportEachRule(s: Store, self: Option<Id>, u: User)
    ensures ErrorsOf(s, self, u) == {} <==>
              u.credential.Some? && !Blank(u.username) && !UsernameTaken(s, self, u.username)
    ensures Error("password", CantBeBlank) in ErrorsOf(s, self, u) <==> u.credential.None?
    ensures Error("username", CantBeBlank) in ErrorsOf(s, self, u) <==> Blank(u.username)
    ensures Error("username", Taken) in ErrorsOf(s, self, u) <==> UsernameTaken(s, self, u.username)
    ensures ErrorsOf(s, self, u.(admin := !u.admin)) == ErrorsOf(s, self, u)
  {
  }

  /** Every stored user has a username, as every user that passed validation does. */
  predicate UsernamesPresent(s: Store) {
    forall id :: id in s.users.rows ==> !Blank(s.users.rows[id].username)
  }

  /** user.rb:8: in a store of named users, a blank username is the one error. */
  lemma BlankUsernameOnly(s: Store, self: Option<Id>, u: User)
    requires UsernamesPresent(s) && Blank(u.username) && u.credential.Some?
    ensures ErrorsOf(s, self, u) == {Error("username", CantBeBlank)}
  {
  }

  /** user.rb:8: another user's username is the one error. */
  lemma DuplicateUsernameOnly(s: Store, self: Option<Id>, u: User, other: Id)
    requires other in s.users.rows && Some(other) != self && s.users.rows[other].username == u.username
    requires !Blank(u.username) && u.credential.Some?
    ensures ErrorsOf(s, self, u) == {Error("username", Taken)}
  {
  }

  /** user.rb:3: a user without a password is the one error. */
  lemma MissingPasswordOnly(s: Store, self: Option<Id>, u: User)
    requires !Blank(u.username) && !UsernameTaken(s, self, u.username) && u.credential.None?
    ensures ErrorsOf(s, self, u) == {Error("password", CantBeBlank)}
  {
  }

  /** `dependent: :nullify` applied to one ticket. */
  function Nullify(t: Ticket, uid: Id): (n: Ticket)
    ensures n.userId != Some(uid)
    ensures n.(userId := t.userId) == t
    ensures t.userId != Some(uid) ==> n == t
    ensures n.userId == t.userId || n.userId.None?
  {
    if t.userId == Some(uid) then t.(userId := None) else t
  }

  /** `user.destroy`: the user's projects are destroyed (user.rb:5), the user's
      tickets lose their author (user.rb:6), then the user row is deleted. Tickets are
      never deleted, not even those of the destroyed projects. */
  function Destroy(s: Store, uid: Id): (r: Store)
    ensures r.users.rows.Keys == s.users.rows.Keys - {uid}
    ensures forall id :: id in r.users.rows ==> r.users.rows[id] == s.users.rows[id]
    ensures forall id :: id in r.projects.rows <==> id in s.projects.rows && s.projects.rows[id].userId != Some(uid)
    ensures forall id :: id in r.projects.rows ==> r.projects.rows[id] == s.projects.rows[id]
    ensures r.tickets.rows.Keys == s.tickets.rows.Keys
    ensures forall id :: id in s.tickets.rows && s.tickets.rows[id].userId == Some(uid) ==>
                           r.tickets.rows[id] == s.tickets.rows[id].(userId := None)
    ensures forall id :: id in s.tickets.rows && s.tickets.rows[id].userId != Some(uid) ==>
                           r.tickets.rows[id] == s.tickets.rows[id]
    ensures OwnersKept(s.projects, r.projects) && TicketLinksKept(s.tickets, r.tickets)
    ensures s.WellFormed() ==> r.WellFormed()
  {
    var projects := map id | id in s.projects.rows && s.projects.rows[id].userId != Some(uid) :: s.projects.rows[id];
    var tickets := map id | id in s.tickets.rows :: Nullify(s.tickets.rows[id], uid);
    Store(s.users.Delete(uid), Table(projects, s.projects.next), Table(tickets, s.tickets.next))
  }

  /** user.rb:6 with ticket.rb:12: a ticket the cascade orphaned fails its author
      presence check if it is ever validated again. */
  lemma OrphanedTicketsLoseAuthor(s: Store, uid: Id, tid: Id)
    requires tid in s.tickets.rows && s.tickets.rows[tid].userId == Some(uid)
    ensures var r := Destroy(s, uid);
            tid in r.tickets.rows
            && Error("user", CantBeBlank) in TicketRules.ErrorsOf(r, r.tickets.rows[tid])
  {
  }
}
