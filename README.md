# Bug tracker backend: membership ledger and request handlers

This project models the core of a bug-tracker backend built on Express and Mongoose. Users own projects. Each project keeps a team ledger: a list of `(user, role)` entries. Members file tickets in a project, attach files to tickets and comment on them.

Every request handler runs the same sequence:
- it loads the documents it needs, and answers 404 when one is missing;
- it takes an authorization decision from the ownership or the team ledger, and answers 403 when it refuses;
- it applies one change to the store;
- for tickets, it publishes one event on the project's channel.

A thrown error or a schema validation failure is answered with 500.

The model has six modules:
- `Basics`: `Option`, `Result` and the error kinds, one per HTTP status a handler sends.
- `Collections`: lookup, filtering, replacement and newest-first ordering over id-keyed sequences, with their lemmas.
- `Text`: the `trim` and `toLowerCase` string operations the schemas and handlers apply.
- `Models`: the three schemas. This covers the enums with their defaults, the required/trim rules, the ticket and project documents, the whole-body update of each, and the attachment records built from uploaded files.
- `Ledger`: the team ledger and every authorization predicate, plus the ledger invariant. The invariant is "one entry per user, and the owner's entry is Admin".
- `Tracker`: the `Store` class. It holds the users, projects, tickets and comments (in insertion order, as the database returns them), the log of published events and the id counter. It has one method per state-changing handler and one function per query handler. Each handler is one atomic step. The requester, the clock and the uploaded files are parameters.

`Scenarios` chains handler calls:
- adding and then removing a team member restores the project store;
- creating and then deleting a ticket restores the ticket list and publishes exactly two events.

Every state-changing method keeps the store invariant `Valid()`. It says that ids are unique per collection and below the id counter, and that emails are unique among users.

## Model

| member | source | states |
|---|---|---|
| Models.ParseRole | models/Project.js:25 | a role string is accepted exactly when it is the name of one of Admin, Manager, Developer, Viewer |
| Models.ParseStatus | models/Ticket.js:13-17 | a status string is accepted exactly when it is "To Do", "In Progress" or "Done" |
| Models.ParsePriority | models/Ticket.js:18-22 | a priority string is accepted exactly when it is "Low", "Medium", "High" or "Highest" |
| Models.SchemaRole | models/Project.js:24-26 | an absent role defaults to Developer; a present one must name a role (its name round-trips) or the save fails with 500 |
| Models.SchemaStatus | models/Ticket.js:13-17 | an absent status defaults to To Do; a present one must be in the set or the save fails with 500 |
| Models.SchemaPriority | models/Ticket.js:18-22 | an absent priority defaults to Medium; a present one must be in the set or the save fails with 500 |
| Models.RequestedRole | controllers/projectController.js:162-163 | the role falls back to Developer: an absent or empty role gives Developer, any other goes through the enum check |
| Models.RequiredText | models/Ticket.js:4-8 | a required trimmed field is accepted exactly when it holds a non-white-space character, and is stored trimmed and non-empty |
| Models.OptionalText | models/Project.js:9-12 | an optional trimmed field is stored trimmed when present and stays absent otherwise |
| Models.OrCurrent | controllers/authController.js:118-119 | an absent or empty value keeps the current one, any other replaces it |
| Models.NewTicket | controllers/ticketController.js:24-32 | a ticket is created exactly when the title, status and priority validate; it stores the trimmed title, the defaults, the reporter, the project, the assignee, no attachments and both timestamps |
| Models.ApplyTicketPatch | controllers/ticketController.js:89-92 | the whole-body update succeeds exactly when the fields present validate; every field present is written, reporter and project included; attachments and createdAt are kept; updatedAt is the current time |
| Models.MembersFromInput | models/Project.js:18-28 | a team array in an update body is cast entry by entry; it succeeds exactly when every role is absent or valid, and an absent role becomes Developer |
| Models.ApplyProjectPatch | controllers/projectController.js:91-94 | the whole-body update succeeds exactly when the name (if present) and the team (if present) validate; name, description, owner and team are written as sent |
| Models.Describe | controllers/ticketController.js:150-156 | one attachment record per uploaded file, in request order, with the original name, path, type, size and url `/uploads/<stored name>` |
| Text.Trim | models/Comment.js:4-8 | the result is the input without leading and trailing white space: its ends are not white space, what was cut is white space, and it is empty exactly when the input is all white space |
| Text.TrimIdempotent | models/Project.js:4-8 | trimming a trimmed value changes nothing |
| Text.ToLower | controllers/projectController.js:147 | each ASCII capital is replaced by its lowercase letter; every other character is kept |
| Ledger.IsMember | controllers/ticketController.js:20 | a user is a member exactly when some team entry names that user |
| Ledger.RoleOf | controllers/ticketController.js:181 | the role of the user's first entry (no earlier entry names the user), present exactly for members |
| Collections.FindFirst | controllers/ticketController.js:181 | a lookup returns the first element with the key: no earlier element has it |
| Ledger.RoleOfUniqueEntry | controllers/ticketController.js:181 | on a team with one entry per user, a member's role is the role of that entry |
| Ledger.AttachmentRole | controllers/ticketController.js:180-182 | a non-member, or anyone when the project is missing, acts as Viewer; a member acts with the role of their entry |
| Ledger.MayRemoveAttachments | controllers/ticketController.js:184 | every role except Viewer may remove attachments |
| Ledger.AttachmentRemovalGate | controllers/ticketController.js:180-186 | attachment removal is allowed exactly when the project exists and the requester's entry is Admin, Manager or Developer |
| Ledger.DeleteTicketCheck | controllers/ticketController.js:117-120 | deletion is allowed exactly for the reporter or the project owner; otherwise a missing project gives 500 and an existing one 403 |
| Ledger.ProjectsOf | controllers/projectController.js:37-39 | exactly the projects with a team entry for the user, no more than stored |
| Ledger.WithMember | controllers/projectController.js:163 | the old team is a prefix and the one new entry is last |
| Ledger.WithoutMember | controllers/projectController.js:204-206 | exactly the entries of other users remain |
| Ledger.CreatedProjectInvariant | controllers/projectController.js:16-17 | a new project's ledger has one entry per user and the owner as Admin |
| Ledger.AddMemberKeepsInvariant | controllers/projectController.js:153-164 | adding a user who is neither the owner nor a member keeps the ledger invariant, and the new entry carries the requested role |
| Ledger.RemoveMemberKeepsInvariant | controllers/projectController.js:195-207 | removing a user other than the owner keeps the ledger invariant, and that user is no longer a member |
| Ledger.AddRemoveRoundTrip | controllers/projectController.js:158-164 | adding a non-member and then filtering that user out gives back the identical team |
| Ledger.UpdateProjectCanDropOwnerEntry | controllers/projectController.js:91-94 | an update body with an empty team is accepted and leaves the owner without an Admin entry |
| Tracker.Store.CreateProject | controllers/projectController.js:13-18 | with a valid name, one project is appended with a fresh id, the trimmed name, the requester as owner and the team exactly `[(requester, Admin)]`; an invalid name gives 500 and changes nothing |
| Tracker.Store.GetProjects | controllers/projectController.js:37-39 | exactly the stored projects with a team entry for the requester |
| Tracker.Store.GetProjectById | controllers/projectController.js:58-67 | a missing project gives 404, a non-member gets 403, and otherwise the stored project is returned |
| Tracker.Store.UpdateProject | controllers/projectController.js:80-96 | 404, then 403 for anyone but the owner, then the whole-body update written in place; any failure changes nothing |
| Tracker.Store.DeleteProject | controllers/projectController.js:109-122 | 404, then 403 for anyone but the owner; success removes that project only and leaves tickets and comments in place |
| Tracker.Store.AddMember | controllers/projectController.js:137-164 | the checks in order: 404 project, 403 not owner, 500 no email, 404 no user with the lowercased email, 400 the owner, 400 already a member, 500 invalid role; success appends one entry and keeps the ledger invariant; any failure changes nothing |
| Tracker.Store.RemoveMember | controllers/projectController.js:185-207 | the checks in order: 404, 403 not owner, 400 the owner, 400 not a member; success filters out every entry of the user and keeps the ledger invariant |
| Tracker.Store.CreateTicket | controllers/ticketController.js:14-38 | 404 project, then 403 non-member, then validation; success stores the new ticket under a fresh id and publishes exactly one creation event on that project |
| Tracker.Store.GetTicketsByProject | controllers/ticketController.js:53-63 | a missing project and a non-member both give 403, never 404; otherwise exactly the project's tickets, a permutation of them, newest first |
| Tracker.Store.UpdateTicket | controllers/ticketController.js:78-98 | 404 ticket, 500 missing project, 403 non-member, then the whole-body update; success publishes one update event, carrying the stored result, on the project it now belongs to |
| Tracker.Store.DeleteTicket | controllers/ticketController.js:111-128 | 404, then the reporter or the owner only (no membership needed); success removes that ticket only and publishes its id on the ticket's project |
| Tracker.Store.AddAttachments | controllers/ticketController.js:141-159 | no files gives 400 before the ticket lookup, then 404; there is no membership check; the old list is a prefix, one record per file follows in order, and the length grows by the file count |
| Tracker.Store.RemoveAttachment | controllers/ticketController.js:174-193 | 404, then allowed exactly for Admin, Manager or Developer entries (others 403); success keeps every attachment with another id, in order; an absent id succeeds and changes nothing |
| Tracker.Store.AddComment | controllers/commentController.js:13-22 | 404 ticket, then text validation (absent or blank text gives 500); success appends a comment by the requester on that ticket; there is no membership check |
| Tracker.Store.GetCommentsByTicket | controllers/commentController.js:40-42 | exactly the ticket's comments, a permutation of them, newest first |
| Tracker.Store.DeleteComment | controllers/commentController.js:57-70 | 404 before the author test, 403 for anyone but the author; success removes that comment only |
| Tracker.Store.Register | controllers/authController.js:14-24 | an email already held gives 400 and changes nothing; otherwise exactly one user with the given name and email is added, and emails stay unique |
| Tracker.Store.Login | controllers/authController.js:53-77 | succeeds exactly when a user holds the email and the password check passes; both failures give the same 401 |
| Tracker.Store.UpdateProfile | controllers/authController.js:103-128 | 404 user, then 400 exactly when a new, non-empty, different email is held by someone; absent or empty fields keep the old values; the token presented is echoed; emails stay unique |
| Scenarios.AddThenRemoveMember | controllers/projectController.js:158-207 | a successful add of a user followed by the removal of that user succeeds and restores the stored projects exactly |
| Scenarios.CreateThenDeleteTicket | controllers/ticketController.js:24-128 | a member who creates a ticket may delete it as its reporter; the ticket list is restored, and the channel sees exactly the creation then the deletion |
| Scenarios.AttachmentRemovalByRole | controllers/ticketController.js:180-186 | on a team of an Admin owner, a Developer and a Viewer, the Admin and the Developer may remove attachments; the Viewer, an outsider and anyone on a missing project may not |
| Scenarios.DuplicateEntryFirstDecides | controllers/ticketController.js:180-186 | when a team holds a Viewer entry and then an Admin entry for one user, the first entry decides: that user may not remove attachments |

## Left out

- Token signing, the password hash and its comparison: the user model is not part of this model. `Login` takes the password check as a parameter, and `UpdateProfile` takes the bearer token as a parameter.
- `getMe` (controllers/authController.js:88-95) is a plain read with no check.
- Socket rooms and their delivery and disconnects are left out. The events the handlers publish are modelled as an append-only log whose entries name the room (project id).
- The routing layer and the authentication middleware are left out. The requester id is a parameter. The five-file upload cap is a precondition of `AddAttachments`.
- The file storage is left out. Uploaded files arrive as records.
- `populate` is a display projection and is not modelled.
- Logging is not modelled.
- Wall-clock time is replaced by a timestamp parameter.
- Concurrency is not modelled. Each handler is one atomic step, so lost updates between interleaved requests on `teamMembers` or `attachments` are not captured.
- Malformed ids are not modelled. Ids are natural numbers, so the cast error a malformed id raises (a 500) cannot arise.
- The user schema is not part of this model. `Register` stores the name and email as given, with no required/format/lowercase rules, and does not model a missing email in the body.
- Tracker.Store.GetProjectById: membership is tested on the raw team entries. The source tests populated entries, so an entry whose user document no longer exists would not count there.
- Text.ToLower: only ASCII letters are lowercased. `toLowerCase` also maps non-ASCII capitals.
- Models.ApplyTicketPatch: body fields set to `null`, and `attachments` sent in an update body, are not modelled. A field is either absent or given a value.
- Models.MembersFromInput: a team entry is always given a user. The project schema does not require one, so an update body may store an entry without a user; the handlers that then call `toString` on that entry's user (controllers/ticketController.js:20, 55, 85, 181 and controllers/projectController.js:158, 200) would throw and answer 500, which the model does not capture.
- Models.ApplyProjectPatch: `createdAt` in an update body and a `null` name are not modelled.
- Tracker.Store.GetTicketsByProject: tickets with equal `createdAt` keep their stored order. The database leaves the order of ties unspecified.
- Stored collections are sequences in insertion order, not maps. The order in which `getProjects` returns projects depends on it.
- The model follows the code in these places, where the code differs from a stricter reading of the design:
  - a missing project is answered 403 by `getTicketsByProject`;
  - `addAttachments` and `addComment` make no membership check;
  - a reporter who has left the team may still delete their ticket;
  - `updateTicket` answers 500 when the ticket's project no longer exists;
  - whole-body updates may overwrite `owner`, `teamMembers`, `reporter` and `project`.
