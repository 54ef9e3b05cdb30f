/** app/models/project.rb: name presence and uniqueness, status inclusion and the
    owner's presence. The description has no rule. */
module ProjectRules {
  import opened Base
  import opened Records
  import opened Validation

  const Statuses: set<string> := {"open", "closed"}

  /** The uniqueness query: some other stored project has the same name. `self` is
      the key of the project being revalidated, None for a new one; a nil name is
      compared as nil, as the generated `IS NULL` query does. */
  predicate NameTaken(s: Store, self: Option<Id>, name: Option<string>) {
    exists id :: id in s.projects.rows && Some(id) != self && s.projects.rows[id].name == name
  }

  /** The errors of project.rb:5-10. */
  function ErrorsOf(s: Store, self: Option<Id>, p: Project): Errors {
    Check(Blank(p.name), "name", CantBeBlank)
    + Check(NameTaken(s, self, p.name), "name", Taken)
    + Check(p.status.None? || p.status.value !in Statuses, "status", NotIncluded)
    + Check(s.users.Associated(p.userId).None?, "user", CantBeBlank)
  }

  /** project.rb:5-10: a project is valid exactly when no rule fires; each entry is
      present exactly when its rule fails. */
  lemma ErrorsReportEachRule(s: Store, self: Option<Id>, p: Project)
    ensures ErrorsOf(s, self, p) == {} <==>
              && !Blank(p.name) && !NameTaken(s, self, p.name)
              && p.status.Some? && p.status.value in Statuses
              && s.users.Associated(p.userId).Some?
    ensures Error("name", CantBeBlank) in ErrorsOf(s, self, p) <==> Blank(p.name)
    ensures Error("name", Taken) in ErrorsOf(s, self, p) <==> NameTaken(s, self, p.name)
    ensures Error("status", NotIncluded) in ErrorsOf(s, self, p) <==> p.status.None? || p.status.value !in Statuses
    ensures Error("user", CantBeBlank) in ErrorsOf(s, self, p) <==> s.users.Associated(p.userId).None?
    ensures forall e :: e in ErrorsOf(s, self, p) ==> e.field in {"name", "status", "user"}
  {
  }

  /** Every stored project has a name, as every project that passed validation does. */
  predicate NamesPresent(s: Store) {
    forall id :: id in s.projects.rows ==> !Blank(s.projects.rows[id].name)
  }

  /** project.rb:5-10: a named, unclashing, open project with an owner is valid. */
  lemma WellFormedProjectIsValid(s: Store, self: Option<Id>, name: string, description: Option<string>, owner: Id)
    requires !Blank(Some(name)) && !NameTaken(s, self, Some(name)) && owner in s.users.rows
    ensures ErrorsOf(s, self, Project(Some(name), description, Some("open"), Some(owner))) == {}
  {
  }

  /** project.rb:5: in a store of named projects, a blank name is the one error. */
  lemma BlankNameOnly(s: Store, self: Option<Id>, p: Project)
    requires NamesPresent(s) && Blank(p.name)
    requires p.status.Some? && p.status.value in Statuses && s.users.Associated(p.userId).Some?
    ensures ErrorsOf(s, self, p) == {Error("name", CantBeBlank)}
  {
  }

  /** project.rb:6: another project's name is the one error. */
  lemma DuplicateNameOnly(s: Store, self: Option<Id>, p: Project, other: Id)
    requires other in s.projects.rows && Some(other) != self && s.projects.rows[other].name == p.name
    requires !Blank(p.name)
    requires p.status.Some? && p.status.value in Statuses && s.users.Associated(p.userId).Some?
    ensures ErrorsOf(s, self, p) == {Error("name", Taken)}
  {
  }

  /** project.rb:8: nil, 'finished' or any other status outside {open, closed} is
      reported under status. */
  lemma StatusOutsideList(s: Store, self: Option<Id>, p: Project)
    requires p.status.None? || p.status.value !in Statuses
    ensures Error("status", NotIncluded) in ErrorsOf(s, self, p)
    ensures Error("status", NotIncluded) in ErrorsOf(s, self, p.(status := Some("finished")))
  {
  }

  /** project.rb:10: a missing owner is the one error. */
  lemma MissingUserOnly(s: Store, self: Option<Id>, p: Project)
    requires !Blank(p.name) && !NameTaken(s, self, p.name)
    requires p.status.Some? && p.status.value in Statuses && s.users.Associated(p.userId).None?
    ensures ErrorsOf(s, self, p) == {Error("user", CantBeBlank)}
  {
  }

  /** project.rb:1-13: the description never affects validation. */
  lemma DescriptionUnconstrained(s: Store, self: Option<Id>, p: Project, d: Option<string>)
    ensures ErrorsOf(s, self, p.(description := d)) == ErrorsOf(s, self, p)
  {
  }
}
