/**
 * The documents of the tracker (a project with its team, a ticket with its
 * attachments, a comment, a user), the closed value sets of their enum
 * fields with the defaults, and the required/trim rules a document must pass
 * before it is stored. A rule that fails at save is a thrown validation
 * error, which every handler answers with status 500 (`ServerError`).
 */
module Models {
  import opened Basics
  import opened Text

  /** A document id (an ObjectId in the store). */
  type Id = nat
  /** A point in time, supplied by the caller in place of the wall clock. */
  type Timestamp = int

  // ---------------------------------------------------------------------
  // Enums

  datatype Role = Admin | Manager | Developer | Viewer

  function RoleName(r: Role): string {
    match r
    case Admin => "Admin"
    case Manager => "Manager"
    case Developer => "Developer"
    case Viewer => "Viewer"
  }

  /** The enum check of `teamMembers.role`: only the four names are accepted. */
  function ParseRole(s: string): (r: Option<Role>)
    ensures forall x :: r == Some(x) <==> RoleName(x) == s
  {
    if s == "Admin" then Some(Admin)
    else if s == "Manager" then Some(Manager)
    else if s == "Developer" then Some(Developer)
    else if s == "Viewer" then Some(Viewer)
    else None
  }

  datatype Status = ToDo | InProgress | Done

  function StatusName(st: Status): string {
    match st
    case ToDo => "To Do"
    case InProgress => "In Progress"
    case Done => "Done"
  }

  function ParseStatus(s: string): (r: Option<Status>)
    ensures forall x :: r == Some(x) <==> StatusName(x) == s
  {
    if s == "To Do" then Some(ToDo)
    else if s == "In Progress" then Some(InProgress)
    else if s == "Done" then Some(Done)
    else None
  }

  datatype Priority = Low | Medium | High | Highest

  function PriorityName(p: Priority): string {
    match p
    case Low => "Low"
    case Medium => "Medium"
    case High => "High"
    case Highest => "Highest"
  }

  function ParsePriority(s: string): (r: Option<Priority>)
    ensures forall x :: r == Some(x) <==> PriorityName(x) == s
  {
    if s == "Low" then Some(Low)
    else if s == "Medium" then Some(Medium)
    else if s == "High" then Some(High)
    else if s == "Highest" then Some(Highest)
    else None
  }

  /**
   * A raw enum value as the schema stores it: an absent value takes the
   * default, any other value must be one of the names or the save fails.
   */
  function SchemaRole(raw: Option<string>): (r: Result<Role>)
    ensures raw.None? ==> r == Ok(Developer)
    ensures raw.Some? ==> (r.Ok? <==> ParseRole(raw.value).Some?)
    ensures r.Err? ==> r.error == ServerError
    ensures r.Ok? && raw.Some? ==> RoleName(r.value) == raw.value
  {
    match raw
    case None => Ok(Developer)
    case Some(s) => if ParseRole(s).Some? then Ok(ParseRole(s).value) else Err(ServerError)
  }

  function SchemaStatus(raw: Option<string>): (r: Result<Status>)
    ensures raw.None? ==> r == Ok(ToDo)
    ensures raw.Some? ==> (r.Ok? <==> ParseStatus(raw.value).Some?)
    ensures r.Err? ==> r.error == ServerError
    ensures r.Ok? && raw.Some? ==> StatusName(r.value) == raw.value
  {
    match raw
    case None => Ok(ToDo)
    case Some(s) => if ParseStatus(s).Some? then Ok(ParseStatus(s).value) else Err(ServerError)
  }

  function SchemaPriority(raw: Option<string>): (r: Result<Priority>)
    ensures raw.None? ==> r == Ok(Medium)
    ensures raw.Some? ==> (r.Ok? <==> ParsePriority(raw.value).Some?)
    ensures r.Err? ==> r.error == ServerError
    ensures r.Ok? && raw.Some? ==> PriorityName(r.value) == raw.value
  {
    match raw
    case None => Ok(Medium)
    case Some(s) => if ParsePriority(s).Some? then Ok(ParsePriority(s).value) else Err(ServerError)
  }

  /**
   * The role `addMember` stores: `role || 'Developer'`, so an absent or
   * empty role becomes Developer; anything else must pass the enum check.
   */
  function RequestedRole(raw: Option<string>): (r: Result<Role>)
    ensures raw.None? || raw.value == "" ==> r == Ok(Developer)
    ensures raw.Some? && raw.value != "" ==> r == SchemaRole(raw)
  {
    if raw.None? || raw.value == "" then Ok(Developer) else SchemaRole(raw)
  }

  // ---------------------------------------------------------------------
  // Text fields

  /** A `required: true, trim: true` string: stored trimmed, and empty after trimming is refused. */
  function RequiredText(raw: Option<string>): (r: Result<string>)
    ensures r.Ok? <==> raw.Some? && exists i :: 0 <= i < |raw.value| && !IsSpace(raw.value[i])
    ensures r.Ok? ==> r.value == Trim(raw.value) && r.value != ""
    ensures r.Err? ==> r.error == ServerError
  {
    match raw
    case None => Err(ServerError)
    case Some(s) => if Trim(s) == "" then Err(ServerError) else Ok(Trim(s))
  }

  /** An optional `trim: true` string. */
  function OptionalText(raw: Option<string>): (r: Option<string>)
    ensures r.Some? <==> raw.Some?
    ensures r.Some? ==> r.value == Trim(raw.value)
  {
    match raw
    case None => None
    case Some(s) => Some(Trim(s))
  }

  /** `value || current`: an absent or empty string keeps the current value. */
  function OrCurrent(value: Option<string>, current: string): (r: string)
    ensures value.Some? && value.value != "" ==> r == value.value
    ensures value.None? || value.value == "" ==> r == current
  {
    if value.Some? && value.value != "" then value.value else current
  }

  // ---------------------------------------------------------------------
  // Documents

  datatype TeamMember = TeamMember(user: Id, role: Role)

  datatype Project = Project(
    id: Id,
    name: string,
    description: Option<string>,
    owner: Id,
    teamMembers: seq<TeamMember>,
    createdAt: Timestamp)

  datatype Attachment = Attachment(
    id: Id,
    filename: string,
    path: string,
    mimetype: string,
    size: int,
    url: string)

  datatype Ticket = Ticket(
    id: Id,
    title: string,
    description: Option<string>,
    status: Status,
    priority: Priority,
    project: Id,
    assignee: Option<Id>,
    reporter: Id,
    attachments: seq<Attachment>,
    createdAt: Timestamp,
    updatedAt: Timestamp)

  datatype Comment = Comment(
    id: Id,
    text: string,
    user: Id,
    ticket: Id,
    createdAt: Timestamp,
    updatedAt: Timestamp)

  /** A user; the credential is kept as given, its hashing belongs to the user model. */
  datatype User = User(id: Id, name: string, email: string, password: string)

  /** What a ticket handler publishes on the project's channel. */
  datatype Event =
    | TicketCreated(room: Id, ticket: Ticket)
    | TicketUpdated(room: Id, ticket: Ticket)
    | TicketDeleted(room: Id, ticketId: Id)

  // Keys the handlers look documents up by.
  function ProjectKey(p: Project): Id { p.id }
  function TicketKey(t: Ticket): Id { t.id }
  function CommentKey(c: Comment): Id { c.id }
  function UserKey(u: User): Id { u.id }
  function UserEmail(u: User): string { u.email }
  function MemberUser(m: TeamMember): Id { m.user }
  function AttachmentKey(a: Attachment): Id { a.id }
  function TicketProject(t: Ticket): Id { t.project }
  function CommentTicket(c: Comment): Id { c.ticket }
  function TicketCreatedAt(t: Ticket): int { t.createdAt }
  function CommentCreatedAt(c: Comment): int { c.createdAt }

  // ---------------------------------------------------------------------
  // Building and updating documents as the schemas do

  /** The body of a ticket-creation request; absent fields are `None`. */
  datatype TicketInput = TicketInput(
    title: Option<string>,
    description: Option<string>,
    priority: Option<string>,
    status: Option<string>,
    assignee: Option<Id>,
    projectId: Id)

  /** A new ticket: defaults applied, text trimmed, enums and the title checked. */
  function NewTicket(id: Id, input: TicketInput, reporter: Id, now: Timestamp): (r: Result<Ticket>)
    ensures r.Ok? <==>
      RequiredText(input.title).Ok? && SchemaStatus(input.status).Ok? && SchemaPriority(input.priority).Ok?
    ensures r.Err? ==> r.error == ServerError
    ensures r.Ok? ==>
      && r.value.id == id
      && r.value.title == Trim(input.title.value)
      && r.value.description == OptionalText(input.description)
      && r.value.status == SchemaStatus(input.status).value
      && r.value.priority == SchemaPriority(input.priority).value
      && r.value.project == input.projectId
      && r.value.assignee == input.assignee
      && r.value.reporter == reporter
      && r.value.attachments == []
      && r.value.createdAt == now && r.value.updatedAt == now
  {
    var title := RequiredText(input.title);
    var status := SchemaStatus(input.status);
    var priority := SchemaPriority(input.priority);
    if title.Err? || status.Err? || priority.Err? then Err(ServerError)
    else Ok(Ticket(id, title.value, OptionalText(input.description), status.value, priority.value,
                   input.projectId, input.assignee, reporter, [], now, now))
  }

  /** The fields a ticket-update request body may carry; absent fields are `None`. */
  datatype TicketPatch = TicketPatch(
    title: Option<string>,
    description: Option<string>,
    status: Option<string>,
    priority: Option<string>,
    assignee: Option<Id>,
    project: Option<Id>,
    reporter: Option<Id>)

  function Pick<T>(v: Option<T>, current: T): T {
    match v
    case Some(x) => x
    case None => current
  }

  /**
   * `findByIdAndUpdate(id, body, {runValidators: true})` on a ticket: every
   * field the body carries is written, `reporter` and `project` included;
   * a title that trims to nothing or an enum outside its set fails; the
   * timestamps plugin sets `updatedAt`.
   */
  function ApplyTicketPatch(t: Ticket, patch: TicketPatch, now: Timestamp): (r: Result<Ticket>)
    ensures r.Ok? <==>
      && (patch.title.Some? ==> RequiredText(patch.title).Ok?)
      && (patch.status.Some? ==> ParseStatus(patch.status.value).Some?)
      && (patch.priority.Some? ==> ParsePriority(patch.priority.value).Some?)
    ensures r.Err? ==> r.error == ServerError
    ensures r.Ok? ==>
      && r.value.id == t.id
      && r.value.title == (if patch.title.Some? then Trim(patch.title.value) else t.title)
      && r.value.description == (if patch.description.Some? then OptionalText(patch.description) else t.description)
      && (patch.status.Some? ==> StatusName(r.value.status) == patch.status.value)
      && (patch.status.None? ==> r.value.status == t.status)
      && (patch.priority.Some? ==> PriorityName(r.value.priority) == patch.priority.value)
      && (patch.priority.None? ==> r.value.priority == t.priority)
      && r.value.assignee == (if patch.assignee.Some? then patch.assignee else t.assignee)
      && r.value.project == Pick(patch.project, t.project)
      && r.value.reporter == Pick(patch.reporter, t.reporter)
      && r.value.attachments == t.attachments
      && r.value.createdAt == t.createdAt && r.value.updatedAt == now
  {
    var title := if patch.title.Some? then RequiredText(patch.title) else Ok(t.title);
    var status := if patch.status.Some? then SchemaStatus(patch.status) else Ok(t.status);
    var priority := if patch.priority.Some? then SchemaPriority(patch.priority) else Ok(t.priority);
    if title.Err? || status.Err? || priority.Err? then Err(ServerError)
    else Ok(t.(
      title := title.value,
      description := if patch.description.Some? then OptionalText(patch.description) else t.description,
      status := status.value,
      priority := priority.value,
      assignee := if patch.assignee.Some? then patch.assignee else t.assignee,
      project := Pick(patch.project, t.project),
      reporter := Pick(patch.reporter, t.reporter),
      updatedAt := now))
  }

  /** One entry of a `teamMembers` array in an update body; the role may be absent. */
  datatype MemberInput = MemberInput(user: Id, role: Option<string>)

  /** Casting a body's `teamMembers` array: each absent role takes the default, each role is checked. */
  function MembersFromInput(ms: seq<MemberInput>): (r: Result<seq<TeamMember>>)
    ensures r.Ok? <==> forall i :: 0 <= i < |ms| ==> SchemaRole(ms[i].role).Ok?
    ensures r.Err? ==> r.error == ServerError
    ensures r.Ok? ==> |r.value| == |ms|
    ensures r.Ok? ==> forall i :: 0 <= i < |ms| ==>
      r.value[i] == TeamMember(ms[i].user, SchemaRole(ms[i].role).value)
  {
    if ms == [] then Ok([])
    else
      var head := SchemaRole(ms[0].role);
      var tail := MembersFromInput(ms[1..]);
      if head.Err? || tail.Err? then
        assert head.Err? ==> !SchemaRole(ms[0].role).Ok?;
        assert tail.Err? ==> exists i :: 1 <= i < |ms| && !SchemaRole(ms[i].role).Ok? by {
          if tail.Err? {
            var j :| 0 <= j < |ms[1..]| && !SchemaRole(ms[1..][j].role).Ok?;
            assert ms[1..][j] == ms[j + 1];
          }
        }
        Err(ServerError)
      else
        Ok([TeamMember(ms[0].user, head.value)] + tail.value)
  }

  /** The fields a project-update request body may carry; absent fields are `None`. */
  datatype ProjectPatch = ProjectPatch(
    name: Option<string>,
    description: Option<string>,
    owner: Option<Id>,
    teamMembers: Option<seq<MemberInput>>)

  /**
   * `findByIdAndUpdate(id, body, {runValidators: true})` on a project: every
   * field the body carries is written, `owner` and `teamMembers` included.
   */
  function ApplyProjectPatch(p: Project, patch: ProjectPatch): (r: Result<Project>)
    ensures r.Ok? <==>
      && (patch.name.Some? ==> RequiredText(patch.name).Ok?)
      && (patch.teamMembers.Some? ==> MembersFromInput(patch.teamMembers.value).Ok?)
    ensures r.Err? ==> r.error == ServerError
    ensures r.Ok? ==>
      && r.value.id == p.id
      && r.value.name == (if patch.name.Some? then Trim(patch.name.value) else p.name)
      && r.value.description == (if patch.description.Some? then OptionalText(patch.description) else p.description)
      && r.value.owner == Pick(patch.owner, p.owner)
      && (patch.teamMembers.None? ==> r.value.teamMembers == p.teamMembers)
      && (patch.teamMembers.Some? ==> r.value.teamMembers == MembersFromInput(patch.teamMembers.value).value)
      && r.value.createdAt == p.createdAt
  {
    var name := if patch.name.Some? then RequiredText(patch.name) else Ok(p.name);
    var members := if patch.teamMembers.Some? then MembersFromInput(patch.teamMembers.value) else Ok(p.teamMembers);
    if name.Err? || members.Err? then Err(ServerError)
    else Ok(p.(
      name := name.value,
      description := if patch.description.Some? then OptionalText(patch.description) else p.description,
      owner := Pick(patch.owner, p.owner),
      teamMembers := members.value))
  }

  /** A file as the upload middleware hands it over. */
  datatype UploadedFile = UploadedFile(
    originalname: string,
    path: string,
    mimetype: string,
    size: int,
    filename: string)

  /** The attachment records for an upload, ids drawn from `firstId` upward, in request order. */
  function Describe(files: seq<UploadedFile>, firstId: Id): (r: seq<Attachment>)
    ensures |r| == |files|
    ensures forall i :: 0 <= i < |files| ==>
      && r[i].id == firstId + i
      && r[i].filename == files[i].originalname
      && r[i].path == files[i].path
      && r[i].mimetype == files[i].mimetype
      && r[i].size == files[i].size
      && r[i].url == "/uploads/" + files[i].filename
  {
    seq(|files|, i requires 0 <= i < |files| =>
      Attachment(firstId + i, files[i].originalname, files[i].path, files[i].mimetype,
                 files[i].size, "/uploads/" + files[i].filename))
  }
}
