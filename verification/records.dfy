/** The three persisted entities and the store that holds them. ActiveRecord
    persistence becomes one table per entity: a map from primary key to row and
    the next value of the auto-increment counter. */
module Records {
  import opened Base

  /** A user account. `credential` stands for `password_digest`: None until a
      password has been set. */
  datatype User = User(username: Option<string>, credential: Option<string>, admin: bool)

  /** A project, owned through the `user_id` foreign key. */
  datatype Project = Project(name: Option<string>, description: Option<string>,
                             status: Option<string>, userId: Option<Id>)

  /** A ticket, filed by `user_id` against `project_id`. */
  datatype Ticket = Ticket(subject: Option<string>, content: Option<string>, status: Option<string>,
                           projectId: Option<Id>, userId: Option<Id>)

  datatype Table<R> = Table(rows: map<Id, R>, next: Id) {

    /** Every stored key was handed out by the counter. */
    predicate WellFormed() {
      forall id :: id in rows ==> id < next
    }

    /** The row with primary key `id`, as `find_by id:` returns it. */
    function Get(id: Id): (r: Option<R>)
      ensures r.Some? <==> id in rows
      ensures r.Some? ==> r.value == rows[id]
    {
      if id in rows then Some(rows[id]) else None
    }

    /** The row a nullable foreign key refers to; None for a nil key or a
        dangling one. */
    function Associated(fk: Option<Id>): (r: Option<R>)
      ensures r.Some? <==> fk.Some? && fk.value in rows
      ensures r.Some? ==> r.value == rows[fk.value]
    {
      if fk.Some? then Get(fk.value) else None
    }

    /** INSERT: the row receives the counter's value as its key. */
    function Insert(r: R): (t: Table<R>)
      ensures t.rows.Keys == rows.Keys + {next} && t.rows[next] == r
      ensures forall id :: id in rows && id != next ==> t.rows[id] == rows[id]
      ensures WellFormed() ==> next !in rows && t.WellFormed()
      ensures t.next > next
    {
      Table(rows[next := r], next + 1)
    }

    /** UPDATE of an existing row. */
    function Put(id: Id, r: R): (t: Table<R>)
      requires id in rows
      ensures t.rows.Keys == rows.Keys && t.rows[id] == r && t.next == next
      ensures forall k :: k in rows && k != id ==> t.rows[k] == rows[k]
    {
      Table(rows[id := r], next)
    }

    /** DELETE of one row. */
    function Delete(id: Id): (t: Table<R>)
      ensures t.rows.Keys == rows.Keys - {id} && t.next == next
      ensures forall k :: k in t.rows ==> t.rows[k] == rows[k]
    {
      Table(rows - {id}, next)
    }

    /** The keys below `n`, ascending. */
    function IdsBelow(n: nat): (ids: seq<Id>)
      ensures Ascending(ids)
      ensures forall id :: id in ids <==> id in rows && id < n
    {
      if n == 0 then []
      else
        var lower := IdsBelow(n - 1);
        assert forall i :: 0 <= i < |lower| ==> lower[i] < n - 1 by {
          forall i | 0 <= i < |lower| ensures lower[i] < n - 1 {
            assert lower[i] in lower;
          }
        }
        lower + (if n - 1 in rows then [n - 1] else [])
    }

    /** The keys in primary-key order. The index queries carry no `ORDER BY`, so
        the database's own order is unspecified; key order stands in for it. */
    function Ids(): (ids: seq<Id>)
      ensures Ascending(ids)
      ensures forall id :: id in ids <==> id in rows && id < next
      ensures WellFormed() ==> forall id :: id in ids <==> id in rows
    {
      IdsBelow(next)
    }
  }

  /** A freshly migrated table: no rows, the counter at 1. */
  function EmptyTable<R>(): (t: Table<R>)
    ensures t.WellFormed() && t.rows == map[]
  {
    Table(map[], 1)
  }

  /** Every administrator afterwards was already an administrator before. */
  predicate NoNewAdmins(before: Table<User>, after: Table<User>) {
    forall id :: id in after.rows && after.rows[id].admin ==> id in before.rows && before.rows[id].admin
  }

  /** No project present before and after has changed owner. */
  predicate OwnersKept(before: Table<Project>, after: Table<Project>) {
    forall id :: id in after.rows && id in before.rows ==> after.rows[id].userId == before.rows[id].userId
  }

  /** No ticket present before and after has moved to another project, and its
      author is the same or has been cleared. */
  predicate TicketLinksKept(before: Table<Ticket>, after: Table<Ticket>) {
    forall id :: id in after.rows && id in before.rows ==>
                   && after.rows[id].projectId == before.rows[id].projectId
                   && (after.rows[id].userId == before.rows[id].userId || after.rows[id].userId.None?)
  }

  datatype Store = Store(users: Table<User>, projects: Table<Project>, tickets: Table<Ticket>) {
    predicate WellFormed() {
      users.WellFormed() && projects.WellFormed() && tickets.WellFormed()
    }
  }
}
