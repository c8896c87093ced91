/**
 * Sequences of requests against one store, and what the handlers'
 * contracts let a client conclude about them.
 */
module Scenarios {
  import opened Basics
  import opened Collections
  import opened Text
  import opened Models
  import opened Ledger
  import opened Tracker

  /**
   * The owner adds a user who is not yet on the team and then removes that
   * same user: the project store is back to exactly what it was.
   */
  method AddThenRemoveMember(s: Store, owner: Id, id: Id, email: string, role: Option<string>)
    returns (added: Result<Project>, removed: Result<Project>)
    requires s.Valid()
    modifies s
    ensures s.Valid()
    ensures added.Ok? ==> removed.Ok? && s.projects == old(s.projects)
    ensures added.Err? ==> removed == added && unchanged(s)
  {
    var target := s.UserByEmail(ToLower(email));
    added := s.AddMember(owner, id, Some(email), role);
    if added.Err? {
      removed := added;
      return;
    }
    var p := old(s.ProjectById(id)).value;
    var u := target.value.id;
    assert forall m :: m in p.teamMembers ==> m.user != u;
    AddRemoveRoundTrip(p.teamMembers, u, RequestedRole(role).value);
    assert IsMember(added.value, u) by {
      assert added.value.teamMembers[|p.teamMembers|].user == u;
    }
    removed := s.RemoveMember(owner, id, u);
    assert removed.value == p;
    ReplaceTwice(old(s.projects), ProjectKey, added.value, p);
    ReplaceWithStored(old(s.projects), ProjectKey, p);
  }

  /**
   * A member files a ticket and, as its reporter, deletes it again: the
   * ticket list is as before, and the project's channel saw exactly a
   * creation followed by a deletion of that ticket.
   */
  method CreateThenDeleteTicket(s: Store, member: Id, input: TicketInput, now: Timestamp)
    returns (created: Result<Ticket>, deleted: Result<()>)
    requires s.Valid()
    modifies s
    ensures s.Valid()
    ensures created.Ok? ==>
      && deleted.Ok?
      && s.tickets == old(s.tickets)
      && s.events == old(s.events) + [TicketCreated(input.projectId, created.value),
                                      TicketDeleted(input.projectId, created.value.id)]
    ensures created.Err? ==> deleted == Err(created.error) && unchanged(s)
  {
    created := s.CreateTicket(member, input, now);
    if created.Err? {
      deleted := Err(created.error);
      return;
    }
    var t := created.value;
    deleted := s.DeleteTicket(member, t.id);
    AppendThenReject(old(s.tickets), TicketKey, t);
  }

  /**
   * On a team of an Admin owner, a Developer and a Viewer, the Developer
   * may remove attachments; the Viewer and an outsider may not.
   */
  lemma AttachmentRemovalByRole(p: Project)
    requires p.owner == 1 && p.teamMembers == [TeamMember(1, Admin), TeamMember(2, Developer), TeamMember(3, Viewer)]
    ensures MayRemoveAttachments(AttachmentRole(Some(p), 1))
    ensures MayRemoveAttachments(AttachmentRole(Some(p), 2))
    ensures !MayRemoveAttachments(AttachmentRole(Some(p), 3))
    ensures !MayRemoveAttachments(AttachmentRole(Some(p), 4))
    ensures !MayRemoveAttachments(AttachmentRole(None, 1))
  {
    // Each user has one entry, so the entry found is that one.
    assert p.teamMembers[1] in p.teamMembers && p.teamMembers[2] in p.teamMembers;
    assert RoleOf(p, 2) == Some(Developer);
    assert RoleOf(p, 3) == Some(Viewer);
  }

  /**
   * A whole-body update may store the same user twice; the first entry then
   * decides the role, so a Viewer entry ahead of an Admin entry denies
   * attachment removal.
   */
  lemma DuplicateEntryFirstDecides(p: Project)
    requires p.teamMembers == [TeamMember(2, Viewer), TeamMember(2, Admin)]
    ensures RoleOf(p, 2) == Some(Viewer)
    ensures !MayRemoveAttachments(AttachmentRole(Some(p), 2))
  {
    var r := RoleOf(p, 2);
    var i :| 0 <= i < |p.teamMembers| && p.teamMembers[i] == TeamMember(2, r.value)
      && forall j :: 0 <= j < i ==> p.teamMembers[j].user != 2;
    assert i == 0;
  }
}
