/**
 * The membership ledger of a project and the authorization decisions the
 * handlers take from it: who is a member and with which role, who may remove
 * attachments, who may delete a ticket, which projects a user sees. Each
 * decision is a pure function of the freshly loaded documents.
 */
module Ledger {
  import opened Basics
  import opened Collections
  import opened Models

  /** `teamMembers.some(m => m.user == u)`. */
  function IsMember(p: Project, u: Id): (b: bool)
    ensures b <==> exists m :: m in p.teamMembers && m.user == u
  {
    Find(p.teamMembers, MemberUser, u).Some?
  }

  /** The role of `u`'s first entry (`teamMembers.find(...)`), absent for a non-member. */
  function RoleOf(p: Project, u: Id): (r: Option<Role>)
    ensures r.Some? <==> IsMember(p, u)
    ensures r.Some? ==> TeamMember(u, r.value) in p.teamMembers
    ensures r.Some? ==> exists i :: (0 <= i < |p.teamMembers| && p.teamMembers[i] == TeamMember(u, r.value)
                                     && forall j :: 0 <= j < i ==> p.teamMembers[j].user != u)
  {
    match Find(p.teamMembers, MemberUser, u)
    case None => None
    case Some(m) =>
      assert exists i :: (0 <= i < |p.teamMembers| && p.teamMembers[i] == m
                          && forall j :: 0 <= j < i ==> p.teamMembers[j].user != u) by {
        FindFirst(p.teamMembers, MemberUser, u);
      }
      Some(m.role)
  }

  /** On a team with one entry per user, a member's role is the role of that entry. */
  lemma RoleOfUniqueEntry(p: Project, m: TeamMember)
    requires NoDuplicateMembers(p) && m in p.teamMembers
    ensures RoleOf(p, m.user) == Some(m.role)
  {
    FindUnique(p.teamMembers, MemberUser, m);
  }

  /**
   * The role `removeAttachment` acts on: the requester's entry in the
   * ticket's project, or `Viewer` when there is no entry or no project.
   */
  function AttachmentRole(p: Option<Project>, u: Id): (r: Role)
    ensures p.None? || !IsMember(p.value, u) ==> r == Viewer
    ensures p.Some? && IsMember(p.value, u) ==> Some(r) == RoleOf(p.value, u)
  {
    match p
    case None => Viewer
    case Some(q) => if RoleOf(q, u).Some? then RoleOf(q, u).value else Viewer
  }

  /** The allow-list `['Admin', 'Manager', 'Developer'].includes(role)`. */
  function MayRemoveAttachments(role: Role): (b: bool)
    ensures b <==> role != Viewer
  {
    role == Admin || role == Manager || role == Developer
  }

  /** Attachment removal is granted exactly to members whose role is Admin, Manager or Developer. */
  lemma AttachmentRemovalGate(p: Option<Project>, u: Id)
    ensures MayRemoveAttachments(AttachmentRole(p, u)) <==>
      p.Some? && RoleOf(p.value, u) in {Some(Admin), Some(Manager), Some(Developer)}
  {
    if p.Some? && RoleOf(p.value, u).Some? {
      assert AttachmentRole(p, u) == RoleOf(p.value, u).value;
    }
  }

  /**
   * The `deleteTicket` check: the reporter is let through before the project
   * is consulted; otherwise a missing project throws (500) and only the
   * owner is let through. Membership plays no part.
   */
  function DeleteTicketCheck(t: Ticket, p: Option<Project>, u: Id): (r: Result<()>)
    ensures r.Ok? <==> t.reporter == u || (p.Some? && p.value.owner == u)
    ensures r.Err? ==> r.error == (if p.None? then ServerError else Forbidden)
  {
    if t.reporter == u then Ok(())
    else if p.None? then Err(ServerError)
    else if p.value.owner == u then Ok(())
    else Err(Forbidden)
  }

  /** The projects `u` has an entry in, in stored order (`find({'teamMembers.user': u})`). */
  function ProjectsOf(ps: seq<Project>, u: Id): (r: seq<Project>)
    ensures |r| <= |ps|
    ensures forall p :: p in r <==> p in ps && IsMember(p, u)
  {
    if ps == [] then []
    else if IsMember(ps[0], u) then [ps[0]] + ProjectsOf(ps[1..], u)
    else ProjectsOf(ps[1..], u)
  }

  // ---------------------------------------------------------------------
  // The ledger invariant: one entry per user, the owner's entry is Admin

  ghost predicate NoDuplicateMembers(p: Project) {
    Unique(p.teamMembers, MemberUser)
  }

  ghost predicate OwnerIsAdmin(p: Project) {
    RoleOf(p, p.owner) == Some(Admin)
  }

  ghost predicate LedgerInvariant(p: Project) {
    NoDuplicateMembers(p) && OwnerIsAdmin(p)
  }

  /** The team `addMember` writes: the old entries, then one new entry at the end. */
  function WithMember(team: seq<TeamMember>, u: Id, role: Role): (r: seq<TeamMember>)
    ensures |r| == |team| + 1 && r[..|team|] == team && r[|team|] == TeamMember(u, role)
  {
    team + [TeamMember(u, role)]
  }

  /** The team `removeMember` writes: every entry of `u` filtered out, order kept. */
  function WithoutMember(team: seq<TeamMember>, u: Id): (r: seq<TeamMember>)
    ensures |r| <= |team|
    ensures forall m :: m in r <==> m in team && m.user != u
  {
    Reject(team, MemberUser, u)
  }

  /** A project as `createProject` stores it satisfies the invariant. */
  lemma CreatedProjectInvariant(p: Project)
    requires p.teamMembers == [TeamMember(p.owner, Admin)]
    ensures LedgerInvariant(p)
  {
  }

  /**
   * `addMember` refuses the owner and existing members, so the entry it
   * appends keeps the invariant and gives the new user exactly that role.
   */
  lemma AddMemberKeepsInvariant(p: Project, u: Id, role: Role)
    requires LedgerInvariant(p) && u != p.owner && !IsMember(p, u)
    ensures LedgerInvariant(p.(teamMembers := WithMember(p.teamMembers, u, role)))
    ensures RoleOf(p.(teamMembers := WithMember(p.teamMembers, u, role)), u) == Some(role)
  {
    var team := p.teamMembers;
    var x := TeamMember(u, role);
    FindAppend(team, MemberUser, x, p.owner);
    FindAppend(team, MemberUser, x, u);
    forall i | 0 <= i < |team| ensures MemberUser(team[i]) != u {
      assert team[i] in team;
    }
  }

  /**
   * `removeMember` refuses the owner, so filtering out `u` keeps the
   * invariant, and `u` is no longer a member afterwards.
   */
  lemma RemoveMemberKeepsInvariant(p: Project, u: Id)
    requires LedgerInvariant(p) && u != p.owner
    ensures LedgerInvariant(p.(teamMembers := WithoutMember(p.teamMembers, u)))
    ensures !IsMember(p.(teamMembers := WithoutMember(p.teamMembers, u)), u)
  {
    RejectKeepsUnique(p.teamMembers, MemberUser, u, MemberUser);
    FindRejected(p.teamMembers, MemberUser, u, p.owner);
  }

  /** Adding a non-member and then removing the same user restores the team exactly. */
  lemma AddRemoveRoundTrip(team: seq<TeamMember>, u: Id, role: Role)
    requires forall m :: m in team ==> m.user != u
    ensures WithoutMember(WithMember(team, u, role), u) == team
  {
    AppendThenReject(team, MemberUser, TeamMember(u, role));
  }

  /**
   * The whole-body project update protects nothing: an owner who sends an
   * empty `teamMembers` array leaves the project without the owner's entry.
   */
  lemma UpdateProjectCanDropOwnerEntry(p: Project)
    ensures ApplyProjectPatch(p, ProjectPatch(None, None, None, Some([]))).Ok?
    ensures !OwnerIsAdmin(ApplyProjectPatch(p, ProjectPatch(None, None, None, Some([]))).value)
  {
  }
}
