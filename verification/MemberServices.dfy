/** Membership and project services, as functions of the tables before the call. */
module MemberServices {
  import opened Base
  import opened Workflow
  import opened Relationships
  import opened Tracker
  import opened BugServices

  function RemainingAdministrators(members: map<UserId, Role>, excluding: UserId): nat {
    |set u | u in members && members[u] == Administrator && u != excluding|
  }

  /** Taking the role away from `u` would leave no administrator. */
  predicate IsLastAdministrator(members: map<UserId, Role>, u: UserId) {
    u in members && members[u] == Administrator && RemainingAdministrators(members, u) == 0
  }

  function ChangeMemberRoleRefusal(c: Config, w: World, u: UserId, newRole: Role, bypassDemo: bool): Option<Error> {
    if u !in w.members then Some(DoesNotExist)
    else if u in c.demoUsers && !bypassDemo then Some(ProtectedDemoAccount)
    else if newRole != Administrator && IsLastAdministrator(w.members, u) then Some(LastAdministrator)
    else None
  }

  function ChangeMemberRole(c: Config, w: World, u: UserId, newRole: Role, bypassDemo: bool): World {
    if ChangeMemberRoleRefusal(c, w, u, newRole, bypassDemo).Some? then w
    else w.(members := w.members[u := newRole])
  }

  function RemoveMemberRefusal(c: Config, w: World, u: UserId): Option<Error> {
    if u !in w.members then Some(DoesNotExist)
    else if u in c.demoUsers then Some(ProtectedDemoAccount)
    else if IsLastAdministrator(w.members, u) then Some(LastAdministrator)
    else None
  }

  function RemoveMember(c: Config, w: World, u: UserId, now: int): World {
    if RemoveMemberRefusal(c, w, u).Some? then w
    else
      var cleared := ClearBugAssignments(c, ClearProjectLeadership(w, u), u, now);
      cleared.(members := cleared.members - {u})
  }

  /** Setup and accepted invitations: get_or_create of the membership. */
  function Join(w: World, u: UserId, role: Role): World {
    if u in w.members then w else w.(members := w.members[u := role])
  }

  /** A lead is validated to be a current member. */
  predicate IsEligibleLead(w: World, lead: Option<UserId>) {
    lead.Some? ==> lead.value in w.members
  }

  /** The validator's pattern: a capital letter, then one to nine capital letters or digits. */
  predicate IsProjectKey(key: string) {
    2 <= |key| <= 10 && 'A' <= key[0] <= 'Z' &&
    forall i | 0 <= i < |key| :: 'A' <= key[i] <= 'Z' || '0' <= key[i] <= '9'
  }

  predicate KeyIsTaken(w: World, key: string) {
    exists i | 0 <= i < |w.projects| :: w.projects[i].key == key
  }

  function CreateProjectRefusal(w: World, key: string, lead: Option<UserId>): Option<Error> {
    if !IsProjectKey(key) then Some(InvalidProjectKey)
    else if KeyIsTaken(w, key) then Some(DuplicateProjectKey)
    else if !IsEligibleLead(w, lead) then Some(InvalidProjectLead)
    else None
  }

  function CreateProject(w: World, key: string, lead: Option<UserId>): World {
    if CreateProjectRefusal(w, key, lead).Some? then w
    else w.(projects := w.projects + [Project(key, None, 1, lead)])
  }

  function SetLeadRefusal(w: World, p: ProjectId, lead: Option<UserId>): Option<Error> {
    if |w.projects| <= p then Some(DoesNotExist)
    else if !IsEligibleLead(w, lead) then Some(InvalidProjectLead)
    else if w.projects[p].archivedAt.Some? then Some(ArchivedProjectNotEditable)
    else None
  }

  function SetLead(w: World, p: ProjectId, lead: Option<UserId>): World {
    if SetLeadRefusal(w, p, lead).Some? then w
    else w.(projects := w.projects[p := w.projects[p].(lead := lead)])
  }

  function ArchiveProjectRefusal(w: World, p: ProjectId): Option<Error> {
    if |w.projects| <= p then Some(DoesNotExist)
    else if w.projects[p].archivedAt.Some? then Some(ProjectAlreadyArchived)
    else None
  }

  function ArchiveProject(w: World, p: ProjectId, now: int): World {
    if ArchiveProjectRefusal(w, p).Some? then w
    else w.(projects := w.projects[p := w.projects[p].(archivedAt := Some(now))])
  }

  function RestoreProjectRefusal(w: World, p: ProjectId): Option<Error> {
    if |w.projects| <= p then Some(DoesNotExist)
    else if w.projects[p].archivedAt.None? then Some(ProjectNotArchived)
    else None
  }

  function RestoreProject(w: World, p: ProjectId): World {
    if RestoreProjectRefusal(w, p).Some? then w
    else w.(projects := w.projects[p := w.projects[p].(archivedAt := None)])
  }
}
