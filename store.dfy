/**
 * The request handlers of the tracker as one atomic step each on an
 * in-memory store of users, projects, tickets and comments, plus the log of
 * events published on the projects' channels. Every handler loads the
 * documents it needs, answers 404 when one is missing, takes its
 * authorization decision (403), applies one change and, for tickets,
 * appends one event. A failing handler leaves the whole store as it was.
 *
 * The authenticated requester arrives as the `requester` parameter; the
 * clock arrives as `now`; fresh document ids come from the `nextId` counter.
 */
module Tracker {
  import opened Basics
  import opened Collections
  import opened Text
  import opened Models
  import opened Ledger

  /** The upload middleware accepts at most five files per request. */
  const UploadLimit: nat := 5

  /** What `updateProfile` answers with: the saved user and the token presented. */
  datatype Profile = Profile(user: User, token: string)

  class Store {
    var users: seq<User>
    var projects: seq<Project>
    var tickets: seq<Ticket>
    var comments: seq<Comment>
    /** Every event published so far, in publishing order. */
    var events: seq<Event>
    var nextId: nat

    /** Ids are unique per collection and below `nextId`; emails are unique. */
    ghost predicate Valid()
      reads this
    {
      && Unique(users, UserKey) && KeysBelow(users, UserKey, nextId)
      && Unique(users, UserEmail)
      && Unique(projects, ProjectKey) && KeysBelow(projects, ProjectKey, nextId)
      && Unique(tickets, TicketKey) && KeysBelow(tickets, TicketKey, nextId)
      && Unique(comments, CommentKey) && KeysBelow(comments, CommentKey, nextId)
    }

    constructor ()
      ensures Valid()
      ensures users == [] && projects == [] && tickets == [] && comments == [] && events == []
    {
      users, projects, tickets, comments, events := [], [], [], [], [];
      nextId := 0;
    }

    function ProjectById(id: Id): Option<Project>
      reads this
    {
      Find(projects, ProjectKey, id)
    }

    function TicketById(id: Id): Option<Ticket>
      reads this
    {
      Find(tickets, TicketKey, id)
    }

    function CommentById(id: Id): Option<Comment>
      reads this
    {
      Find(comments, CommentKey, id)
    }

    function UserById(id: Id): Option<User>
      reads this
    {
      Find(users, UserKey, id)
    }

    function UserByEmail(email: string): Option<User>
      reads this
    {
      Find(users, UserEmail, email)
    }

    // =====================================================================
    // Projects

    /** `createProject`: the requester becomes the owner and the only member, as Admin. */
    method CreateProject(requester: Id, name: Option<string>, description: Option<string>, now: Timestamp)
      returns (r: Result<Project>)
      requires Valid()
      modifies this
      ensures Valid()
      ensures r.Ok? <==> RequiredText(name).Ok?
      ensures r.Err? ==> r.error == ServerError && unchanged(this)
      ensures r.Ok? ==>
        && r.value.id == old(nextId) && old(ProjectById(r.value.id)).None?
        && r.value.name == Trim(name.value)
        && r.value.description == OptionalText(description)
        && r.value.owner == requester
        && r.value.teamMembers == [TeamMember(requester, Admin)]
        && r.value.createdAt == now
        && LedgerInvariant(r.value)
        && projects == old(projects) + [r.value]
        && ProjectById(r.value.id) == Some(r.value)
        && users == old(users) && tickets == old(tickets)
        && comments == old(comments) && events == old(events)
    {
      var checked := RequiredText(name);
      if checked.Err? {
        return Err(ServerError);
      }
      var p := Project(nextId, checked.value, OptionalText(description), requester,
                       [TeamMember(requester, Admin)], now);
      UniqueAppendFresh(projects, ProjectKey, p, nextId);
      FindAppend(projects, ProjectKey, p, p.id);
      CreatedProjectInvariant(p);
      projects := projects + [p];
      nextId := nextId + 1;
      r := Ok(p);
    }

    /** `getProjects`: the stored projects in which the requester has an entry. */
    function GetProjects(requester: Id): (r: seq<Project>)
      reads this
      ensures forall p :: p in r <==> p in projects && exists m :: m in p.teamMembers && m.user == requester
    {
      ProjectsOf(projects, requester)
    }

    /** `getProjectById`: 404 for a missing project, 403 for a non-member. */
    function GetProjectById(requester: Id, id: Id): (r: Result<Project>)
      reads this
      ensures ProjectById(id).None? ==> r == Err(NotFound)
      ensures ProjectById(id).Some? && !IsMember(ProjectById(id).value, requester) ==> r == Err(Forbidden)
      ensures r.Ok? <==> ProjectById(id).Some? && IsMember(ProjectById(id).value, requester)
      ensures r.Ok? ==> r.value in projects && r.value.id == id
    {
      match ProjectById(id)
      case None => Err(NotFound)
      case Some(p) => if IsMember(p, requester) then Ok(p) else Err(Forbidden)
    }

    /**
     * `updateProject`: only the owner may update; the body is written as it
     * is, so it may change the owner and replace the whole team.
     */
    method UpdateProject(requester: Id, id: Id, patch: ProjectPatch) returns (r: Result<Project>)
      requires Valid()
      modifies this
      ensures Valid()
      ensures old(ProjectById(id)).None? ==> r == Err(NotFound)
      ensures old(ProjectById(id)).Some? && old(ProjectById(id)).value.owner != requester ==> r == Err(Forbidden)
      ensures old(ProjectById(id)).Some? && old(ProjectById(id)).value.owner == requester ==>
        r == ApplyProjectPatch(old(ProjectById(id)).value, patch)
      ensures r.Err? ==> unchanged(this)
      ensures r.Ok? ==>
        && r.value.id == id
        && projects == Replace(old(projects), ProjectKey, r.value)
        && ProjectById(id) == Some(r.value)
        && users == old(users) && tickets == old(tickets)
        && comments == old(comments) && events == old(events) && nextId == old(nextId)
    {
      var found := ProjectById(id);
      if found.None? {
        return Err(NotFound);
      }
      var p := found.value;
      if p.owner != requester {
        return Err(Forbidden);
      }
      r := ApplyProjectPatch(p, patch);
      if r.Ok? {
        ReplaceKeepsUnique(projects, ProjectKey, r.value);
        ReplaceKeepsKeysBelow(projects, ProjectKey, r.value, nextId);
        FindReplaced(projects, ProjectKey, r.value, id);
        projects := Replace(projects, ProjectKey, r.value);
      }
    }

    /** `deleteProject`: only the owner may delete; tickets and comments are not touched. */
    method DeleteProject(requester: Id, id: Id) returns (r: Result<()>)
      requires Valid()
      modifies this
      ensures Valid()
      ensures old(ProjectById(id)).None? ==> r == Err(NotFound)
      ensures old(ProjectById(id)).Some? && old(ProjectById(id)).value.owner != requester ==> r == Err(Forbidden)
      ensures r.Ok? <==> old(ProjectById(id)).Some? && old(ProjectById(id)).value.owner == requester
      ensures r.Err? ==> unchanged(this)
      ensures r.Ok? ==>
        && projects == Reject(old(projects), ProjectKey, id)
        && ProjectById(id).None?
        && (forall k :: k != id ==> ProjectById(k) == old(ProjectById(k)))
        && users == old(users) && tickets == old(tickets)
        && comments == old(comments) && events == old(events) && nextId == old(nextId)
    {
      var found := ProjectById(id);
      if found.None? {
        return Err(NotFound);
      }
      if found.value.owner != requester {
        return Err(Forbidden);
      }
      RejectKeepsUnique(projects, ProjectKey, id, ProjectKey);
      forall k ensures Find(Reject(projects, ProjectKey, id), ProjectKey, k) == (if k == id then None else Find(projects, ProjectKey, k)) {
        FindRejected(projects, ProjectKey, id, k);
      }
      projects := Reject(projects, ProjectKey, id);
      r := Ok(());
    }

    /**
     * `addMember`, with its checks in order: project (404), owner (403),
     * an email at all (500), a user with the lowercased email (404), target
     * not the owner (400), target not yet a member (400), role valid (500).
     * Success appends exactly one entry.
     */
    method AddMember(requester: Id, id: Id, email: Option<string>, role: Option<string>)
      returns (r: Result<Project>)
      requires Valid()
      modifies this
      ensures Valid()
      ensures old(ProjectById(id)).None? ==> r == Err(NotFound)
      ensures old(ProjectById(id)).Some? ==>
        var p := old(ProjectById(id)).value;
        && (p.owner != requester ==> r == Err(Forbidden))
        && (p.owner == requester && email.None? ==> r == Err(ServerError))
        && (p.owner == requester && email.Some? ==>
              var target := old(UserByEmail(ToLower(email.value)));
              && (target.None? ==> r == Err(NotFound))
              && (target.Some? && target.value.id == p.owner ==> r == Err(BadRequest))
              && (target.Some? && target.value.id != p.owner && IsMember(p, target.value.id) ==> r == Err(BadRequest))
              && (target.Some? && target.value.id != p.owner && !IsMember(p, target.value.id) ==>
                    && (r.Ok? <==> RequestedRole(role).Ok?)
                    && (RequestedRole(role).Err? ==> r == Err(ServerError))))
      ensures r.Err? ==> unchanged(this)
      ensures r.Ok? ==>
        var p := old(ProjectById(id)).value;
        var target := old(UserByEmail(ToLower(email.value))).value;
        && email.Some?
        && r.value == p.(teamMembers := WithMember(p.teamMembers, target.id, RequestedRole(role).value))
        && (LedgerInvariant(p) ==> LedgerInvariant(r.value))
        && projects == Replace(old(projects), ProjectKey, r.value)
        && ProjectById(id) == Some(r.value)
        && users == old(users) && tickets == old(tickets)
        && comments == old(comments) && events == old(events) && nextId == old(nextId)
    {
      var found := ProjectById(id);
      if found.None? {
        return Err(NotFound);
      }
      var p := found.value;
      if p.owner != requester {
        return Err(Forbidden);
      }
      if email.None? {
        return Err(ServerError);
      }
      var target := UserByEmail(ToLower(email.value));
      if target.None? {
        return Err(NotFound);
      }
      var u := target.value.id;
      if u == p.owner {
        return Err(BadRequest);
      }
      if IsMember(p, u) {
        return Err(BadRequest);
      }
      var resolved := RequestedRole(role);
      if resolved.Err? {
        return Err(ServerError);
      }
      var q := p.(teamMembers := WithMember(p.teamMembers, u, resolved.value));
      if LedgerInvariant(p) {
        AddMemberKeepsInvariant(p, u, resolved.value);
      }
      ReplaceKeepsUnique(projects, ProjectKey, q);
      ReplaceKeepsKeysBelow(projects, ProjectKey, q, nextId);
      FindReplaced(projects, ProjectKey, q, id);
      projects := Replace(projects, ProjectKey, q);
      r := Ok(q);
    }

    /**
     * `removeMember`, with its checks in order: project (404), owner (403),
     * target not the owner (400), target a member (400). Success filters out
     * every entry of the target, order kept.
     */
    method RemoveMember(requester: Id, id: Id, userId: Id) returns (r: Result<Project>)
      requires Valid()
      modifies this
      ensures Valid()
      ensures old(ProjectById(id)).None? ==> r == Err(NotFound)
      ensures old(ProjectById(id)).Some? ==>
        var p := old(ProjectById(id)).value;
        && (p.owner != requester ==> r == Err(Forbidden))
        && (p.owner == requester && userId == p.owner ==> r == Err(BadRequest))
        && (p.owner == requester && userId != p.owner && !IsMember(p, userId) ==> r == Err(BadRequest))
        && (r.Ok? <==> p.owner == requester && userId != p.owner && IsMember(p, userId))
      ensures r.Err? ==> unchanged(this)
      ensures r.Ok? ==>
        var p := old(ProjectById(id)).value;
        && r.value == p.(teamMembers := WithoutMember(p.teamMembers, userId))
        && !IsMember(r.value, userId)
        && (LedgerInvariant(p) ==> LedgerInvariant(r.value))
        && projects == Replace(old(projects), ProjectKey, r.value)
        && ProjectById(id) == Some(r.value)
        && users == old(users) && tickets == old(tickets)
        && comments == old(comments) && events == old(events) && nextId == old(nextId)
    {
      var found := ProjectById(id);
      if found.None? {
        return Err(NotFound);
      }
      var p := found.value;
      if p.owner != requester {
        return Err(Forbidden);
      }
      if userId == p.owner {
        return Err(BadRequest);
      }
      if !IsMember(p, userId) {
        return Err(BadRequest);
      }
      var q := p.(teamMembers := WithoutMember(p.teamMembers, userId));
      if LedgerInvariant(p) {
        RemoveMemberKeepsInvariant(p, userId);
      }
      ReplaceKeepsUnique(projects, ProjectKey, q);
      ReplaceKeepsKeysBelow(projects, ProjectKey, q, nextId);
      FindReplaced(projects, ProjectKey, q, id);
      projects := Replace(projects, ProjectKey, q);
      r := Ok(q);
    }

    // =====================================================================
    // Tickets

    /**
     * `createTicket`: project (404), membership (403), document validation
     * (500); success stores the ticket with the requester as reporter and
     * publishes `ticket-created` on the project's channel.
     */
    method CreateTicket(requester: Id, input: TicketInput, now: Timestamp) returns (r: Result<Ticket>)
      requires Valid()
      modifies this
      ensures Valid()
      ensures old(ProjectById(input.projectId)).None? ==> r == Err(NotFound)
      ensures old(ProjectById(input.projectId)).Some? && !IsMember(old(ProjectById(input.projectId)).value, requester) ==>
        r == Err(Forbidden)
      ensures old(ProjectById(input.projectId)).Some? && IsMember(old(ProjectById(input.projectId)).value, requester) ==>
        r == NewTicket(old(nextId), input, requester, now)
      ensures r.Err? ==> unchanged(this)
      ensures r.Ok? ==>
        && r.value.reporter == requester
        && r.value.project == input.projectId
        && r.value.assignee == input.assignee
        && r.value.attachments == []
        && old(TicketById(r.value.id)).None?
        && tickets == old(tickets) + [r.value]
        && TicketById(r.value.id) == Some(r.value)
        && events == old(events) + [TicketCreated(input.projectId, r.value)]
        && users == old(users) && projects == old(projects) && comments == old(comments)
    {
      var found := ProjectById(input.projectId);
      if found.None? {
        return Err(NotFound);
      }
      if !IsMember(found.value, requester) {
        return Err(Forbidden);
      }
      r := NewTicket(nextId, input, requester, now);
      if r.Ok? {
        UniqueAppendFresh(tickets, TicketKey, r.value, nextId);
        FindAppend(tickets, TicketKey, r.value, r.value.id);
        tickets := tickets + [r.value];
        nextId := nextId + 1;
        events := events + [TicketCreated(input.projectId, r.value)];
      }
    }

    /**
     * `getTicketsByProject`: a missing project and a non-member are both
     * answered 403 (never 404); otherwise exactly the project's tickets,
     * newest first.
     */
    function GetTicketsByProject(requester: Id, projectId: Id): (r: Result<seq<Ticket>>)
      reads this
      ensures r.Err? ==> r.error == Forbidden
      ensures r.Err? <==> ProjectById(projectId).None? || !IsMember(ProjectById(projectId).value, requester)
      ensures r.Ok? ==> forall t :: t in r.value <==> t in tickets && t.project == projectId
      ensures r.Ok? ==> multiset(r.value) == multiset(Select(tickets, TicketProject, projectId))
      ensures r.Ok? ==> SortedDesc(r.value, TicketCreatedAt)
    {
      var found := ProjectById(projectId);
      if found.None? || !IsMember(found.value, requester) then Err(Forbidden)
      else Ok(SelectNewestFirst(tickets, TicketProject, projectId, TicketCreatedAt))
    }

    /**
     * `updateTicket`: ticket (404), its project loaded (a missing one throws:
     * 500), membership (403), validation (500); success writes the body and
     * publishes `ticket-updated` with the stored result on the channel of
     * the ticket's project as it is after the update.
     */
    method UpdateTicket(requester: Id, id: Id, patch: TicketPatch, now: Timestamp) returns (r: Result<Ticket>)
      requires Valid()
      modifies this
      ensures Valid()
      ensures old(TicketById(id)).None? ==> r == Err(NotFound)
      ensures old(TicketById(id)).Some? ==>
        var t := old(TicketById(id)).value;
        var p := old(ProjectById(t.project));
        && (p.None? ==> r == Err(ServerError))
        && (p.Some? && !IsMember(p.value, requester) ==> r == Err(Forbidden))
        && (p.Some? && IsMember(p.value, requester) ==> r == ApplyTicketPatch(t, patch, now))
      ensures r.Err? ==> unchanged(this)
      ensures r.Ok? ==>
        && r.value.id == id
        && tickets == Replace(old(tickets), TicketKey, r.value)
        && TicketById(id) == Some(r.value)
        && events == old(events) + [TicketUpdated(r.value.project, r.value)]
        && users == old(users) && projects == old(projects)
        && comments == old(comments) && nextId == old(nextId)
    {
      var found := TicketById(id);
      if found.None? {
        return Err(NotFound);
      }
      var t := found.value;
      var project := ProjectById(t.project);
      if project.None? {
        return Err(ServerError);
      }
      if !IsMember(project.value, requester) {
        return Err(Forbidden);
      }
      r := ApplyTicketPatch(t, patch, now);
      if r.Ok? {
        ReplaceKeepsUnique(tickets, TicketKey, r.value);
        ReplaceKeepsKeysBelow(tickets, TicketKey, r.value, nextId);
        FindReplaced(tickets, TicketKey, r.value, id);
        tickets := Replace(tickets, TicketKey, r.value);
        events := events + [TicketUpdated(r.value.project, r.value)];
      }
    }

    /**
     * `deleteTicket`: ticket (404), then the reporter or the project owner
     * may delete, members or not; success removes that ticket only and
     * publishes `ticket-deleted` with its id.
     */
    method DeleteTicket(requester: Id, id: Id) returns (r: Result<()>)
      requires Valid()
      modifies this
      ensures Valid()
      ensures old(TicketById(id)).None? ==> r == Err(NotFound)
      ensures old(TicketById(id)).Some? ==>
        var t := old(TicketById(id)).value;
        r == DeleteTicketCheck(t, old(ProjectById(t.project)), requester)
      ensures r.Err? ==> unchanged(this)
      ensures r.Ok? ==>
        var t := old(TicketById(id)).value;
        && (t.reporter == requester || old(ProjectById(t.project)).value.owner == requester)
        && tickets == Reject(old(tickets), TicketKey, id)
        && TicketById(id).None?
        && (forall k :: k != id ==> TicketById(k) == old(TicketById(k)))
        && events == old(events) + [TicketDeleted(t.project, id)]
        && users == old(users) && projects == old(projects)
        && comments == old(comments) && nextId == old(nextId)
    {
      var found := TicketById(id);
      if found.None? {
        return Err(NotFound);
      }
      var t := found.value;
      r := DeleteTicketCheck(t, ProjectById(t.project), requester);
      if r.Ok? {
        RejectKeepsUnique(tickets, TicketKey, id, TicketKey);
        forall k ensures Find(Reject(tickets, TicketKey, id), TicketKey, k) == (if k == id then None else Find(tickets, TicketKey, k)) {
          FindRejected(tickets, TicketKey, id, k);
        }
        tickets := Reject(tickets, TicketKey, id);
        events := events + [TicketDeleted(t.project, id)];
      }
    }

    /**
     * `addAttachments`: an empty upload is refused (400) before the ticket is
     * looked up; there is no membership check; success appends one record
     * per file, in request order.
     */
    method AddAttachments(id: Id, files: seq<UploadedFile>, now: Timestamp) returns (r: Result<Ticket>)
      requires Valid()
      requires |files| <= UploadLimit
      modifies this
      ensures Valid()
      ensures files == [] ==> r == Err(BadRequest)
      ensures files != [] && old(TicketById(id)).None? ==> r == Err(NotFound)
      ensures r.Ok? <==> files != [] && old(TicketById(id)).Some?
      ensures r.Err? ==> unchanged(this)
      ensures r.Ok? ==>
        var t := old(TicketById(id)).value;
        && r.value == t.(attachments := t.attachments + Describe(files, old(nextId)), updatedAt := now)
        && |r.value.attachments| == |t.attachments| + |files|
        && r.value.attachments[..|t.attachments|] == t.attachments
        && (forall i :: 0 <= i < |files| ==>
              r.value.attachments[|t.attachments| + i].url == "/uploads/" + files[i].filename)
        && tickets == Replace(old(tickets), TicketKey, r.value)
        && TicketById(id) == Some(r.value)
        && nextId == old(nextId) + |files|
        && users == old(users) && projects == old(projects)
        && comments == old(comments) && events == old(events)
    {
      if files == [] {
        return Err(BadRequest);
      }
      var found := TicketById(id);
      if found.None? {
        return Err(NotFound);
      }
      var t := found.value;
      var u := t.(attachments := t.attachments + Describe(files, nextId), updatedAt := now);
      ReplaceKeepsUnique(tickets, TicketKey, u);
      ReplaceKeepsKeysBelow(tickets, TicketKey, u, nextId + |files|);
      FindReplaced(tickets, TicketKey, u, id);
      tickets := Replace(tickets, TicketKey, u);
      nextId := nextId + |files|;
      r := Ok(u);
    }

    /**
     * `removeAttachment`: ticket (404), then the requester's role in the
     * ticket's project (Viewer for a non-member or a missing project) must
     * be Admin, Manager or Developer (403); success filters out every
     * attachment with that id, order kept. An id that is not there still
     * succeeds and changes nothing.
     */
    method RemoveAttachment(requester: Id, id: Id, attachmentId: Id, now: Timestamp) returns (r: Result<Ticket>)
      requires Valid()
      modifies this
      ensures Valid()
      ensures old(TicketById(id)).None? ==> r == Err(NotFound)
      ensures old(TicketById(id)).Some? ==>
        var t := old(TicketById(id)).value;
        && (r.Ok? <==> MayRemoveAttachments(AttachmentRole(old(ProjectById(t.project)), requester)))
        && (!MayRemoveAttachments(AttachmentRole(old(ProjectById(t.project)), requester)) ==> r == Err(Forbidden))
      ensures r.Err? ==> r.error in {NotFound, Forbidden} && unchanged(this)
      ensures r.Ok? ==>
        var t := old(TicketById(id)).value;
        var kept := Reject(t.attachments, AttachmentKey, attachmentId);
        && r.value.attachments == kept
        && (forall a :: a in kept <==> a in t.attachments && a.id != attachmentId)
        && (kept == t.attachments ==> r.value == t)
        && (kept != t.attachments ==> r.value == t.(attachments := kept, updatedAt := now))
        && tickets == Replace(old(tickets), TicketKey, r.value)
        && TicketById(id) == Some(r.value)
        && users == old(users) && projects == old(projects)
        && comments == old(comments) && events == old(events) && nextId == old(nextId)
    {
      var found := TicketById(id);
      if found.None? {
        return Err(NotFound);
      }
      var t := found.value;
      if !MayRemoveAttachments(AttachmentRole(ProjectById(t.project), requester)) {
        return Err(Forbidden);
      }
      var kept := Reject(t.attachments, AttachmentKey, attachmentId);
      // Assigning an equal array does not mark the document modified, so the
      // timestamp moves only when something was removed.
      var u := if kept == t.attachments then t else t.(attachments := kept, updatedAt := now);
      ReplaceKeepsUnique(tickets, TicketKey, u);
      ReplaceKeepsKeysBelow(tickets, TicketKey, u, nextId);
      FindReplaced(tickets, TicketKey, u, id);
      tickets := Replace(tickets, TicketKey, u);
      r := Ok(u);
    }

    // =====================================================================
    // Comments

    /** `addComment`: ticket (404), text validation (500); no membership check. */
    method AddComment(requester: Id, text: Option<string>, ticketId: Id, now: Timestamp) returns (r: Result<Comment>)
      requires Valid()
      modifies this
      ensures Valid()
      ensures old(TicketById(ticketId)).None? ==> r == Err(NotFound)
      ensures old(TicketById(ticketId)).Some? ==> (r.Ok? <==> RequiredText(text).Ok?)
      ensures old(TicketById(ticketId)).Some? && RequiredText(text).Err? ==> r == Err(ServerError)
      ensures r.Err? ==> unchanged(this)
      ensures r.Ok? ==>
        && r.value == Comment(old(nextId), Trim(text.value), requester, ticketId, now, now)
        && old(CommentById(r.value.id)).None?
        && comments == old(comments) + [r.value]
        && CommentById(r.value.id) == Some(r.value)
        && users == old(users) && projects == old(projects)
        && tickets == old(tickets) && events == old(events)
    {
      if TicketById(ticketId).None? {
        return Err(NotFound);
      }
      var checked := RequiredText(text);
      if checked.Err? {
        return Err(ServerError);
      }
      var c := Comment(nextId, checked.value, requester, ticketId, now, now);
      UniqueAppendFresh(comments, CommentKey, c, nextId);
      FindAppend(comments, CommentKey, c, c.id);
      comments := comments + [c];
      nextId := nextId + 1;
      r := Ok(c);
    }

    /** `getCommentsByTicket`: exactly the ticket's comments, newest first; no check. */
    function GetCommentsByTicket(ticketId: Id): (r: seq<Comment>)
      reads this
      ensures forall c :: c in r <==> c in comments && c.ticket == ticketId
      ensures multiset(r) == multiset(Select(comments, CommentTicket, ticketId))
      ensures SortedDesc(r, CommentCreatedAt)
    {
      SelectNewestFirst(comments, CommentTicket, ticketId, CommentCreatedAt)
    }

    /** `deleteComment`: comment (404) before the author test (403); success removes that comment only. */
    method DeleteComment(requester: Id, id: Id) returns (r: Result<()>)
      requires Valid()
      modifies this
      ensures Valid()
      ensures old(CommentById(id)).None? ==> r == Err(NotFound)
      ensures old(CommentById(id)).Some? && old(CommentById(id)).value.user != requester ==> r == Err(Forbidden)
      ensures r.Ok? <==> old(CommentById(id)).Some? && old(CommentById(id)).value.user == requester
      ensures r.Err? ==> unchanged(this)
      ensures r.Ok? ==>
        && comments == Reject(old(comments), CommentKey, id)
        && CommentById(id).None?
        && (forall k :: k != id ==> CommentById(k) == old(CommentById(k)))
        && users == old(users) && projects == old(projects)
        && tickets == old(tickets) && events == old(events) && nextId == old(nextId)
    {
      var found := CommentById(id);
      if found.None? {
        return Err(NotFound);
      }
      if found.value.user != requester {
        return Err(Forbidden);
      }
      RejectKeepsUnique(comments, CommentKey, id, CommentKey);
      forall k ensures Find(Reject(comments, CommentKey, id), CommentKey, k) == (if k == id then None else Find(comments, CommentKey, k)) {
        FindRejected(comments, CommentKey, id, k);
      }
      comments := Reject(comments, CommentKey, id);
      r := Ok(());
    }

    // =====================================================================
    // Users

    /** `register`: an email already held (exact match) is refused (400); otherwise one user is added. */
    method Register(name: string, email: string, password: string) returns (r: Result<User>)
      requires Valid()
      modifies this
      ensures Valid()
      ensures r.Ok? <==> old(UserByEmail(email)).None?
      ensures r.Err? ==> r.error == BadRequest && unchanged(this)
      ensures r.Ok? ==>
        && r.value.name == name && r.value.email == email && r.value.password == password
        && r.value.id == old(nextId) && old(UserById(r.value.id)).None?
        && users == old(users) + [r.value]
        && UserByEmail(email) == Some(r.value)
        && projects == old(projects) && tickets == old(tickets)
        && comments == old(comments) && events == old(events)
    {
      if UserByEmail(email).Some? {
        return Err(BadRequest);
      }
      var u := User(nextId, name, email, password);
      UniqueAppendFresh(users, UserKey, u, nextId);
      UniqueAppend(users, UserEmail, u);
      FindAppend(users, UserKey, u, u.id);
      FindAppend(users, UserEmail, u, email);
      users := users + [u];
      nextId := nextId + 1;
      r := Ok(u);
    }

    /**
     * `login`: succeeds exactly when a user holds the email and the password
     * check passes; both failures give the same 401. The password check is
     * the user model's and is passed in.
     */
    function Login(email: string, password: string, passwordMatches: (User, string) -> bool): (r: Result<User>)
      reads this
      ensures r.Ok? <==> UserByEmail(email).Some? && passwordMatches(UserByEmail(email).value, password)
      ensures r.Err? ==> r.error == Unauthorized
      ensures r.Ok? ==> r.value in users && r.value.email == email
    {
      match UserByEmail(email)
      case None => Err(Unauthorized)
      case Some(u) => if passwordMatches(u, password) then Ok(u) else Err(Unauthorized)
    }

    /**
     * `updateProfile`: user (404); a new, different email held by another
     * user is refused (400); an absent or empty name or email keeps the old
     * value; the token presented is echoed back unchanged.
     */
    method UpdateProfile(requester: Id, name: Option<string>, email: Option<string>, token: string)
      returns (r: Result<Profile>)
      requires Valid()
      modifies this
      ensures Valid()
      ensures old(UserById(requester)).None? ==> r == Err(NotFound)
      ensures old(UserById(requester)).Some? ==>
        var u := old(UserById(requester)).value;
        var taken := email.Some? && email.value != "" && email.value != u.email
                     && old(UserByEmail(email.value)).Some?;
        && (r.Err? <==> taken)
        && (taken ==> r == Err(BadRequest))
      ensures r.Err? ==> r.error in {NotFound, BadRequest} && unchanged(this)
      ensures r.Ok? ==>
        var u := old(UserById(requester)).value;
        && r.value.token == token
        && r.value.user == u.(name := OrCurrent(name, u.name), email := OrCurrent(email, u.email))
        && users == Replace(old(users), UserKey, r.value.user)
        && UserById(requester) == Some(r.value.user)
        && projects == old(projects) && tickets == old(tickets)
        && comments == old(comments) && events == old(events) && nextId == old(nextId)
    {
      var found := UserById(requester);
      if found.None? {
        return Err(NotFound);
      }
      var u := found.value;
      if email.Some? && email.value != "" && email.value != u.email && UserByEmail(email.value).Some? {
        return Err(BadRequest);
      }
      var saved := u.(name := OrCurrent(name, u.name), email := OrCurrent(email, u.email));
      forall y | y in users && y.id != saved.id ensures y.email != saved.email {
        if saved.email == u.email {
          var i :| 0 <= i < |users| && users[i] == y;
          var j :| 0 <= j < |users| && users[j] == u;
          assert i != j;
        }
      }
      ReplaceKeepsUnique(users, UserKey, saved);
      ReplaceKeepsUniqueOther(users, UserKey, saved, UserEmail);
      ReplaceKeepsKeysBelow(users, UserKey, saved, nextId);
      FindReplaced(users, UserKey, saved, requester);
      users := Replace(users, UserKey, saved);
      r := Ok(Profile(saved, token));
    }
  }
}
