# Crystall issue tracker: authorization, validation and request pipeline in Dafny

Crystall is a small Rails JSON API for tracking issues. Users own projects, and tickets are filed against projects. This project models its core as pure Dafny functions over an abstract database and proves properties of them.

**Authorization.** `Ability` models the CanCan rule table of `app/models/ability.rb` as data:
- a list of rules per principal (`Admin`, `Member`, `Guest`);
- CanCan's matching, in which conditions are ignored for a class-level check;
- `Can`, which is true when some rule applies.

**Validation.** `TicketRules`, `ProjectRules` and `UserRules` model the validators. Each gives the set of (field, message) errors a record collects against the current store. `TicketRules` also applies the `status ||= 'open'` default first, and checks the closed-project rule. `Validation.ValidationStatus` models the `validation_status` concern. `UserRules.Destroy` models `user.destroy`: the user's projects are destroyed and their tickets lose their author.

**Requests.** `Records` models each ActiveRecord table as a map from primary key to row, plus the auto-increment counter. `BaseController` models the shared plumbing:
- HTTP Basic authentication into a principal;
- the three rescued exceptions and the responses they render;
- `params.require(...).permit(...)`;
- success and failure envelopes.

Each action of the projects, tickets and users controllers is a function from the store, the principal and the request to a `Response`: status, body and new store. Each follows the same steps as the source (for tickets, see the note on the project association below):
1. load the record, or build it for `create`;
2. authorize;
3. require and permit the parameters;
4. force the owner or project;
5. validate, then save or answer 400.

`Paging` models Kaminari's `page(params[:page])`. `Api` dispatches the routes of `config/routes.rb` after authentication. `Invariants` defines the database invariant that the validations maintain: every stored user and project is valid.

Properties proved over all inputs:
- Permission facts of the rule table, including monotonicity: guest ⊆ member ⊆ admin.
- Each validator reports an error exactly when its rule fails, and validity holds exactly when the error set is empty.
- The status default is idempotent.
- The destroy cascades remove and nullify exactly the right rows.
- Paging round trip: the pages up to `total_pages`, laid end to end, are the collection.
- Authentication resolves exactly the user whose username and password match.
- Each action's outcome for every combination of missing record, denied access, missing parameter and invalid record.
- No request:
  - makes anyone an administrator;
  - moves a project to another owner;
  - moves a ticket to another project.
- Every request preserves the database invariant.

### Where the code and its tests disagree

The model follows the code, with one substitution for tickets.

- **Tickets are admin-only.** `ability.rb:9-19` gives non-admins no rule on `Ticket`, so every ticket action by a member or a guest is refused. The request specs expect members and guests to read and file tickets. Under the substitution in the next point, `Api.TicketsAreAdminOnly` proves the rule table's effect: the only non-401 answer a non-admin can get is the 400 of a create without a `ticket` hash. CanCan builds the new ticket, and so calls `ticket_params`, before it authorizes.
- **Tickets through a project.** `tickets_controller.rb:4` loads tickets `through: :project`, so CanCan calls `@project.tickets`. `project.rb` declares no such association, so as written that call raises NoMethodError, which `base_controller.rb` does not rescue. Every ticket route on an existing project therefore fails with a server error in the code as given. The model instead scopes tickets by their `project_id`, the evidently intended association; see "## Left out".
- **A missing record answers 401, not 404.** `base_controller.rb:35-37` renders `:unauthorized` for `RecordNotFound`.
- **Destroying a project leaves its tickets.** `project.rb` declares no `has_many :tickets`. Only the users' cascades exist.
- **Index and show of users.** `users_controller.rb` declares neither action; see "## Left out".

## Model

| member | source | states |
|---|---|---|
| Ability.AdminMayDoAnything | app/models/ability.rb:7-8 | an administrator may perform every action on every subject |
| Ability.MemberOnUserRecords | app/models/ability.rb:10 | a logged-in non-admin may show, update or destroy a user record if and only if its id is their own |
| Ability.AnyoneMayRegister | app/models/ability.rb:7-16 | every principal, guest included, may create a user |
| Ability.OnlyAdminListsUsers | app/models/ability.rb:7-19 | listing users is allowed if and only if the principal is an administrator |
| Ability.MemberOnProjects | app/models/ability.rb:13-14 | a non-admin may list, show and create any project; they may update or destroy one if and only if its user_id is theirs |
| Ability.GuestOnProjects | app/models/ability.rb:18 | a guest's allowed project actions are exactly index and show |
| Ability.OnlyAdminTouchesTickets | app/models/ability.rb:9-19 | deny by default: any action on tickets is allowed if and only if the principal is an administrator |
| Ability.GuestWithinMember | app/models/ability.rb:9-18 | whatever a guest may do, any logged-in user may do |
| Ability.MemberWithinAdmin | app/models/ability.rb:7-14 | whatever a logged-in user may do, an administrator may do |
| Ability.AnyoneReadsProjects | app/models/ability.rb:7-18 | every principal may list and show projects |
| Ability.CreateProjectNeedsLogin | app/models/ability.rb:7-18 | creating a project is allowed if and only if someone is logged in |
| Validation.ValidationStatus | app/models/concerns/validation_status.rb:3-5 | the result is "failed" or "success": "failed" if and only if the error set is non-empty, "success" if and only if it is empty |
| TicketRules.AssignStatus | app/models/ticket.rb:20-22 | a nil status becomes "open"; any other status, including "" or an unknown one, is kept; no other field changes |
| TicketRules.Validate | app/models/ticket.rb:6-16 | validation runs on the defaulted record; a valid ticket's status is one of open, closed, finished; the status error appears if and only if the given status is present and unknown |
| TicketRules.AssignStatusIdempotent | app/models/ticket.rb:16-22 | applying the status default twice equals applying it once |
| TicketRules.ErrorsReportEachRule | app/models/ticket.rb:6-28 | a ticket has no errors if and only if every rule holds; each rule's error is present if and only if that rule fails; errors name only the ticket's fields |
| TicketRules.ClosedProjectRule | app/models/ticket.rb:24-28 | "is closed" is reported if and only if the project exists, is owned by someone other than the author, and is closed; never when the author owns it |
| TicketRules.MissingContentOnly | app/models/ticket.rb:6 | blank content with all else valid gives exactly the content "can't be blank" error |
| TicketRules.MissingProjectOnly | app/models/ticket.rb:10-25 | a missing project gives exactly the project "can't be blank" error; the closed rule cannot fire |
| TicketRules.MissingUserOnly | app/models/ticket.rb:12 | a missing author on an open project gives exactly the user "can't be blank" error |
| TicketRules.UnknownStatusOnly | app/models/ticket.rb:8 | an unknown status, the empty string included, gives exactly the status "is not included in the list" error |
| ProjectRules.ErrorsReportEachRule | app/models/project.rb:5-10 | a project has no errors if and only if every rule holds; each rule's error is present if and only if that rule fails |
| ProjectRules.WellFormedProjectIsValid | app/models/project.rb:5-10 | a project with an unclashing name, status "open" and an existing owner is valid, whatever its description |
| ProjectRules.BlankNameOnly | app/models/project.rb:5 | among named projects, a blank name gives exactly the name "can't be blank" error |
| ProjectRules.DuplicateNameOnly | app/models/project.rb:6 | another stored project's name gives exactly the name "has already been taken" error |
| ProjectRules.StatusOutsideList | app/models/project.rb:8 | a nil status, "finished", or any other status outside open and closed is reported under status |
| ProjectRules.MissingUserOnly | app/models/project.rb:10 | a missing owner gives exactly the user "can't be blank" error |
| ProjectRules.DescriptionUnconstrained | app/models/project.rb:1-13 | changing the description never changes the errors |
| UserRules.ErrorsReportEachRule | app/models/user.rb:3-8 | a user has no errors if and only if it has a password, a present username and an unclashing one; each error is present if and only if its rule fails; the admin flag never matters |
| UserRules.BlankUsernameOnly | app/models/user.rb:8 | among named users, a blank username gives exactly the username "can't be blank" error |
| UserRules.DuplicateUsernameOnly | app/models/user.rb:8 | another stored user's username gives exactly the username "has already been taken" error |
| UserRules.MissingPasswordOnly | app/models/user.rb:3 | a user without a password gives exactly the password "can't be blank" error |
| UserRules.Nullify | app/models/user.rb:6 | afterwards the ticket's author is never the destroyed user; only the author field can change, and only to nil; a ticket of another author is unchanged |
| UserRules.Destroy | app/models/user.rb:5-6 | the user row goes; exactly the projects owned by that user go and the rest are unchanged; every ticket stays, with the user's tickets' author cleared; ownership links and well-formedness are kept |
| UserRules.OrphanedTicketsLoseAuthor | app/models/user.rb:6 | a ticket orphaned by the cascade survives and fails the ticket's user presence rule |
| Paging.CurrentPage | app/controllers/api/v1/projects_controller.rb:6 | the page is at least 1; a positive page parameter is used as is; an absent, zero or negative one means page 1 |
| Paging.TotalPages | app/controllers/api/v1/projects_controller.rb:6 | the page count is the least n with n * per at least the record count; it is zero exactly for no records |
| Paging.PageItems | app/controllers/api/v1/projects_controller.rb:6 | page p holds at most per records: those at positions (p-1)*per up to p*per, cut at the end, in order |
| Paging.FirstPagesArePrefix | app/controllers/api/v1/projects_controller.rb:6 | the first k pages concatenated are the first k*per records, or all of them |
| Paging.PagesCoverCollection | app/controllers/api/v1/projects_controller.rb:6 | pages 1 to total_pages concatenated are the whole collection, and the page after them is empty |
| Paging.RecordOnItsPage | app/controllers/api/v1/projects_controller.rb:6 | the record at position i appears on page i/per+1, at position i mod per, and that page exists |
| Paging.SecondPageOfNine | spec/requests/projects_spec.rb:49-58 | nine records, five per page: two pages, page 2 holds the last four, page 1 holds five |
| BaseController.FindByUsername | app/controllers/api/v1/base_controller.rb:24 | the result is the first key in scan order whose user has the username; None if and only if no scanned user has it |
| BaseController.CurrentUser | app/controllers/api/v1/base_controller.rb:21-29 | a current user is a stored user with the header's username whose password authenticates; with no credentials there is none |
| BaseController.PrincipalOf | app/models/ability.rb:6-9 | no stored current user gives a guest; otherwise the admin flag chooses Admin or Member for that id |
| BaseController.Authenticate | app/controllers/api/v1/base_controller.rb:12-29 | the requester is a guest if and only if there is no current user; otherwise the requester's id is the current user's |
| BaseController.AuthenticateResolvesCredentials | app/controllers/api/v1/base_controller.rb:21-29 | with unique usernames, the requester is a guest if and only if no stored user matches both username and password; otherwise it is that user |
| BaseController.Rescue | app/controllers/api/v1/base_controller.rb:31-41 | denial and a missing record both give 401 with an empty body; a missing parameter gives 400 with the fixed text; the store is untouched |
| BaseController.Authorize | app/controllers/api/v1/projects_controller.rb:3 | the step proceeds if and only if the ability allows the action, and otherwise raises AccessDenied |
| BaseController.Find | app/controllers/api/v1/projects_controller.rb:3 | the step yields the stored row if and only if the key exists, and otherwise raises RecordNotFound |
| BaseController.Require | app/controllers/api/v1/projects_controller.rb:30 | the step yields the hash if and only if it is present and non-empty, and otherwise raises ParameterMissing |
| BaseController.Permit | app/controllers/api/v1/projects_controller.rb:30 | exactly the permitted keys that were sent survive, with their values |
| BaseController.Rejected | app/controllers/api/v1/projects_controller.rb:11 | a failed save gives 400, the "failed" envelope carrying the errors, and the store untouched |
| ProjectsController.Apply | app/controllers/api/v1/projects_controller.rb:29-31 | name, description and status take the sent values, or keep theirs; the owner never changes |
| ProjectsController.IndexProjects | app/controllers/api/v1/projects_controller.rb:5-7 | for every principal: 200, the requested page of all project keys in key order, the page number and total_pages; nothing written |
| ProjectsController.ShowProject | app/controllers/api/v1/projects_controller.rb:3 | a missing project gives the not-found response; an existing one is shown to anyone |
| ProjectsController.SaveNew | app/controllers/api/v1/projects_controller.rb:11 | 200 if and only if the project is valid; on 200 exactly one new key, holding the project, every other row and the users and tickets tables unchanged; otherwise 400, the "failed" envelope with the project's errors, and the store untouched |
| ProjectsController.CreateProject | app/controllers/api/v1/projects_controller.rb:9-12 | missing hash gives 400; a guest is denied; otherwise the sent project, owned by the requester, is saved or rejected; on 200 exactly one new row, owned by the requester |
| ProjectsController.SaveExisting | app/controllers/api/v1/projects_controller.rb:15 | 200 if and only if the new version is valid against the other rows; on 200 the same keys, that row replaced, every other row and the other tables unchanged; otherwise 400 with its errors and the store untouched |
| ProjectsController.UpdateProject | app/controllers/api/v1/projects_controller.rb:14-16 | load, then authorize, then require; on 200 only that row changed, with the same owner; no owner ever changes |
| ProjectsController.DestroyProject | app/controllers/api/v1/projects_controller.rb:18-20 | load, then authorize; when allowed, exactly that project is deleted and users and tickets are untouched |
| TicketsController.Apply | app/controllers/api/v1/tickets_controller.rb:25-27 | subject, content and status take the sent values, or keep theirs; author and project never change |
| TicketsController.Built | app/controllers/api/v1/tickets_controller.rb:4 | a ticket built through the URL's project belongs to that project and has no author yet |
| TicketsController.OfProject | app/controllers/api/v1/tickets_controller.rb:4 | a key is kept if and only if it is scanned and its ticket belongs to the project |
| TicketsController.OfProjectAscending | app/controllers/api/v1/tickets_controller.rb:7 | the project's tickets come in key order |
| TicketsController.FindTicket | app/controllers/api/v1/tickets_controller.rb:4 | a ticket is found if and only if it exists and belongs to the URL's project; otherwise RecordNotFound |
| TicketsController.LoadProject | app/controllers/api/v1/tickets_controller.rb:3 | the parent step proceeds if and only if the project exists; it yields that project |
| TicketsController.IndexTickets | app/controllers/api/v1/tickets_controller.rb:6-8 | missing project gives not-found; a non-admin is denied; an admin gets the requested page of that project's tickets |
| TicketsController.ShowTicket | app/controllers/api/v1/tickets_controller.rb:3-4 | missing project, or a ticket not in it, gives not-found; otherwise only an admin sees it |
| TicketsController.SaveNew | app/controllers/api/v1/tickets_controller.rb:12 | 200 if and only if the ticket is valid after its status default; on 200 exactly one new key holding the defaulted ticket, every other row and the users and projects tables unchanged; otherwise 400 with its errors and the store untouched |
| TicketsController.CreateTicket | app/controllers/api/v1/tickets_controller.rb:10-13 | project loaded first, then the hash required, then only an admin proceeds; on 200 the new row's author is the requester and its project the URL's |
| TicketsController.SaveExisting | app/controllers/api/v1/tickets_controller.rb:16 | 200 if and only if the new version is valid after its status default; on 200 the same keys, that row replaced by the defaulted version, everything else unchanged; otherwise 400 with its errors and the store untouched |
| TicketsController.UpdateTicket | app/controllers/api/v1/tickets_controller.rb:15-17 | load project, load ticket within it, authorize, require; on 200 only that ticket changed, with the same author and project |
| TicketsController.DestroyTicket | app/controllers/api/v1/tickets_controller.rb:19-21 | when allowed, exactly that ticket of that project is deleted; users and projects untouched |
| TicketsController.ClosedProjectRefusesNewTicket | app/controllers/api/v1/tickets_controller.rb:10-13 | on a closed project a ticket by someone other than its owner gets 400 with project "is closed"; nothing saved |
| TicketsController.ClosedProjectFreezesTicket | app/controllers/api/v1/tickets_controller.rb:15-17 | an update of a ticket whose author does not own the now-closed project gets 400 with project "is closed"; nothing saved |
| UsersController.Apply | app/controllers/api/v1/users_controller.rb:19-21 | username takes the sent value; a non-empty password replaces the credential; the admin flag never changes |
| UsersController.Built | app/controllers/api/v1/users_controller.rb:3 | a user built from request parameters is never an administrator |
| UsersController.IndexUsers | app/controllers/api/v1/users_controller.rb:3 | an administrator gets the requested page of all users; anyone else is denied; nothing written |
| UsersController.ShowUser | app/controllers/api/v1/users_controller.rb:3 | a missing user gives not-found; an existing one is shown if and only if the requester is an admin or that user |
| UsersController.UserRecordRule | app/models/ability.rb:7-10 | on an existing user record, show, update and destroy are allowed if and only if the requester is an admin or that user |
| UsersController.SaveNew | app/controllers/api/v1/users_controller.rb:6 | 200 if and only if the user is valid; on 200 exactly one new key holding the user, every other row and the projects and tickets tables unchanged; otherwise 400 with its errors and the store untouched |
| UsersController.CreateUser | app/controllers/api/v1/users_controller.rb:5-7 | missing hash gives 400; otherwise 400 if and only if the built user is invalid; on 200 exactly one new, non-admin row |
| UsersController.SaveExisting | app/controllers/api/v1/users_controller.rb:10 | 200 if and only if the new version is valid against the other users; on 200 the same keys, that row replaced, everything else unchanged; otherwise 400 with its errors and the store untouched |
| UsersController.UpdateUser | app/controllers/api/v1/users_controller.rb:9-11 | load, authorize, then require; on 200 only that user changed and its admin flag is kept |
| UsersController.DestroyUser | app/controllers/api/v1/users_controller.rb:13-15 | when the requester is an admin or that user, the destroy cascade runs; otherwise not-found or denied |
| Invariants.EmptyStoreHoldsInvariant | app/models/user.rb:3-8 | the empty database satisfies the invariant, so it holds on every database the requests can reach |
| Invariants.UsernamesUnique | app/models/user.rb:8 | where every stored user is valid, no two users share a username |
| Invariants.UserValidity | app/models/user.rb:3-8 | a user is valid if and only if it has a password, a present username, and no other stored user has it |
| Invariants.ProjectValidity | app/models/project.rb:5-10 | a project is valid if and only if its name is present and unclashing, its status allowed and its owner stored |
| Invariants.TicketsOnly | app/controllers/api/v1/tickets_controller.rb:10-21 | any well-formed rewrite of the tickets table alone keeps users and projects valid |
| Invariants.ProjectInserted | app/controllers/api/v1/projects_controller.rb:11 | inserting a project that validated as new keeps the invariant |
| Invariants.ProjectReplaced | app/controllers/api/v1/projects_controller.rb:15 | replacing a project by a version that validated keeps the invariant |
| Invariants.ProjectDeleted | app/controllers/api/v1/projects_controller.rb:19 | deleting a project keeps the invariant |
| Invariants.UserInserted | app/controllers/api/v1/users_controller.rb:6 | inserting a user that validated as new keeps the invariant |
| Invariants.UserReplaced | app/controllers/api/v1/users_controller.rb:10 | replacing a user by a version that validated keeps the invariant |
| Invariants.UserDestroyed | app/models/user.rb:5-6 | the destroy cascade keeps the invariant: no surviving project loses its owner |
| Api.ServeUsers | app/controllers/api/v1/users_controller.rb:3-15 | status is 200, 400 or 401; 401 if and only if the body is empty; only 200 writes; no ownership link moves; no new administrators |
| Api.ServeProjects | app/controllers/api/v1/projects_controller.rb:3-20 | status is 200, 400 or 401; 401 if and only if the body is empty; only 200 writes; users and tickets untouched; no project changes owner |
| Api.ServeTickets | app/controllers/api/v1/tickets_controller.rb:3-21 | status is 200, 400 or 401; 401 if and only if the body is empty; only 200 writes; users and projects untouched; no ticket changes project or author |
| Api.Dispatch | config/routes.rb:7-10 | every route answers 200, 400 or 401; 401 if and only if the body is empty; only a 200 writes |
| Api.Handle | app/controllers/api/v1/base_controller.rb:12 | the action runs as guest with no current user, and otherwise as that user, Admin or Member by their flag |
| Api.AuthenticationIsExact | app/controllers/api/v1/base_controller.rb:21-29 | on every reachable database the requester is a guest if and only if no stored user matches both username and password, and otherwise is that user |
| Api.FailedLoginIsAnonymous | app/controllers/api/v1/base_controller.rb:21-29 | wrong, unknown or absent credentials give the same response as no credentials |
| Api.AnyoneReadsProjectsAnyway | app/controllers/api/v1/base_controller.rb:12-29 | whatever the credentials, listing projects and showing an existing one answer 200 |
| Api.AnyoneRegistersAnyway | app/controllers/api/v1/base_controller.rb:12-29 | whatever the credentials, a valid registration answers 200 |
| Api.MissingLooksForbidden | app/controllers/api/v1/base_controller.rb:31-37 | not-found and denied responses are identical; a member acting on another user's record gets that response whether or not it exists |
| Api.TicketsAreAdminOnly | app/models/ability.rb:9-19 | for a non-admin every ticket route writes nothing; 400 if and only if it is a create under an existing project without a ticket hash; otherwise 401 |
| Api.NoRouteGrantsAdmin | app/controllers/api/v1/users_controller.rb:19-21 | after any request every administrator was one before |
| Api.OwnershipIsStable | app/controllers/api/v1/projects_controller.rb:10 | no request changes a project's owner or a ticket's project; a ticket's author only ever becomes nil |
| Api.UserRoutesKeepInvariant | app/controllers/api/v1/users_controller.rb:5-15 | every user route keeps all stored users and projects valid |
| Api.ProjectRoutesKeepInvariant | app/controllers/api/v1/projects_controller.rb:9-20 | every project route keeps all stored users and projects valid |
| Api.DispatchKeepsInvariant | config/routes.rb:7-10 | every routed request keeps all stored users and projects valid |
| Api.HandleKeepsInvariant | app/controllers/api/v1/base_controller.rb:12 | every authenticated request keeps all stored users and projects valid |

## Left out

- Password hashing: `has_secure_password` and `authenticate` are modelled as equality of the stored secret. bcrypt, its 72-byte limit and the confirmation attribute are not modelled.
- HTTP Basic header decoding: the decoded username and password are the input `Credentials`.
- Routing: URL matching, `respond_to :json` and format negotiation are not modelled. A request is a `Route` value.
- JSON views: the serialized field sets are not part of this model. A response carries the status, the `validation_status` string and the ids or errors shown.
- SQL and ActiveRecord: tables are maps with an auto-increment counter. The `includes` eager loading of the index does not change results and is not modelled.
- Uniqueness races between concurrent requests: each request runs alone.
- `ProjectsController#mine`: it has no route in `config/routes.rb`.
- `BaseController#fix_params`: nothing calls it.
- Project to ticket cascade: `project.rb` declares none, so none exists.
- Request values: only string values are modelled. A JSON null or a nested value as an attribute is not.
- Unicode: `Blank` knows Ruby's `[[:space:]]` characters. There is no other Unicode handling.
- `User.find_by username:` is modelled as the lowest matching key. The database's actual row order is unspecified.
- ProjectsController.IndexProjects / TicketsController.IndexTickets / UsersController.IndexUsers: the index queries carry no `order`, so the SQL row order, and so which records land on which page, is unspecified. The model lists records in primary-key order.
- TicketsController.OfProject / FindTicket / Built: these stand in for `@project.tickets`, which CanCan calls for `through: :project` at `tickets_controller.rb:4`. `project.rb` declares no `tickets` association, so in the code as given that call raises NoMethodError, which nothing rescues. The model scopes tickets by `project_id` instead, so `TicketsController.*` and `Api.TicketsAreAdminOnly` describe the evidently intended behaviour, not the server error the code produces.
- UsersController.IndexUsers / ShowUser: `users_controller.rb` defines neither `index` nor `show`. Both routes rely on the implicit render after `load_and_authorize_resource`. The admin-only paged listing follows the request specs (`spec/requests/users_spec.rb:20-60`); no view for either is part of this model.
- Kaminari's configured `default_per_page`: it is the parameter `per` of every index. `max_per_page` and `per` query parameters are not used by the source.
- The `page` query parameter is modelled after `to_i`. Non-numeric text is not modelled.
- The `skip_before_filter :verify_authenticity_token` line affects CSRF only and is not modelled.
- Ticket validity is not part of the database invariant `Invariants.Invariant`. The user cascade can orphan a stored ticket, and closing a project can invalidate a stored ticket, both as the source does.
