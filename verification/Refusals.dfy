/** Why a call is refused: for every service the reasons in the order in which they are looked at, each stated
    on the tables and the caller alone. The first that applies is the error raised. */
module Refusals {
  import opened Base
  import opened Workflow
  import opened Relationships
  import opened Tracker
  import opened BugServices
  import opened MemberServices
  import opened Guards
  import Administrators
  import Attachments
  import Comments
  import Invitations
  import Lifecycle

  /** An earlier reason, or this one if it applies. */
  function Or<E>(earlier: Option<E>, applies: bool, error: E): Option<E> {
    if earlier.Some? then earlier else if applies then Some(error) else None
  }

  // ---------------------------------------------------------------------------------------------
  // Who is calling

  /** The words used below. */
  lemma PoliciesSpelled(w: World, m: Option<Member>, s: Status, u: UserId)
    ensures IsStaff(m) <==>
            m.Some? && (m.value.role == Administrator || m.value.role == Developer || m.value.role == Qa)
    ensures IsAdministrator(m) <==> m.Some? && m.value.role == Administrator
    ensures IsOpen(s) <==>
            s in {New, Triaged, Assigned, InProgress, ReadyForQa, Reopened, Blocked, Deferred}
    ensures IsEligibleAssignee(w, u) <==>
            u in w.members && (w.members[u] == Administrator || w.members[u] == Developer || w.members[u] == Qa)
  {
  }

  predicate MayEdit(row: Bug, m: Option<Member>, f: Field) {
    || IsStaff(m)
    || (IsReporterOf(row, m) && row.status in {New, Triaged} && f != DueDate && f != Priority && f != Severity)
  }

  // ---------------------------------------------------------------------------------------------
  // Services on an existing bug

  /** An archived bug, then an archived project. */
  function Frozen(w: World, row: Bug): Option<Error> {
    Or(Or(None, row.archivedAt.Some?, BugArchived),
       row.project < |w.projects| && w.projects[row.project].archivedAt.Some?, ProjectArchivedForBugMutation)
  }

  lemma EditReasons(w: World, row: Bug, m: Option<Member>, fields: Content)
    requires forall f: Field :: f in row.fields
    ensures UpdateBugRefusal(w, row, m, fields) ==
            Or(Or(Frozen(w, row), exists f :: f in fields && !MayEdit(row, m, f), BugPermissionDenied),
               exists f :: f in fields && fields[f] != row.fields[f] && (|fields[f]| > 255 || |row.fields[f]| > 255),
               ValueTooLongForLog)
  {
    forall f: Field ensures f in EditableFieldsFor(row, m) <==> MayEdit(row, m, f) {
      EditableExactly(row, m, f);
    }
    assert fields.Keys <= EditableFieldsFor(row, m) <==> !exists f :: f in fields && !MayEdit(row, m, f);
    var events := ChangeEvents(row.fields, fields, ALL_FIELDS);
    Lifecycle.ChangesFitTheLog(row.fields, fields);
    assert (exists i | 0 <= i < |events| :: !FitsLog(events[i])) <==> exists e :: e in events && !FitsLog(e) by {
      if e :| e in events && !FitsLog(e) {
        var i :| 0 <= i < |events| && events[i] == e;
        assert !FitsLog(events[i]);
      }
    }
  }

  /** The reasons of a marking: it names no bug, none there is, itself, or an archived one; the chain of that bug
      leads back within 25 bugs, or goes on behind them; or the new row's id is taken. */
  lemma MarkingReasons(w: World, b: BugId, target: Option<BugId>, id: RelId, budget: nat)
    requires budget == 25
    ensures DuplicateRefusal(w, b, target, id) ==
            if target.None? then Some(DuplicateTargetRequired)
            else if |w.bugs| <= target.value then Some(RelatedBugNotFound)
            else
              Or(Or(Or(Or(Or(None, target.value == b, SelfRelationshipNotAllowed),
                          w.bugs[target.value].archivedAt.Some?, DuplicateTargetArchived),
                       Walk(w.rels, target.value, b, budget) == Reaches, DuplicateCycleDetected),
                    Walk(w.rels, target.value, b, budget) == Unverifiable, DuplicateChainUnverifiable),
                 id in w.rels, IdTaken)
  {
  }

  lemma TransitionReasons(
    c: Config, w: World, b: BugId, row: Bug, m: Option<Member>, to: Status, target: Option<BugId>, arg: AssigneeArg,
    id: RelId)
    ensures var matrix := if row.project in c.providers then c.providers[row.project] else COMMUNITY_TRANSITIONS;
            var named := if arg.SetTo? then arg.user else None;
            var reasons :=
              Or(Or(Or(Or(Or(Frozen(w, row),
                             !IsStaff(m) && !(IsReporterOf(row, m) && !IsOpen(row.status) && to == Reopened),
                             BugPermissionDenied),
                          !(row.status in matrix && to in matrix[row.status]), InvalidWorkflowTransition),
                       arg.SetTo? && !IsStaff(m), BugPermissionDenied),
                    named.Some? && !IsEligibleAssignee(w, named.value),
                    IneligibleAssignee),
                 (to == Assigned || to == InProgress) && (if arg.SetTo? then arg.user else row.assignee).None?,
                 AssigneeRequiredForTransition);
            TransitionBugRefusal(c, w, b, row, m, to, target, arg, id) ==
            if reasons.None? && to == Duplicate then DuplicateRefusal(w, b, target, id) else reasons
  {
  }

  lemma AssignmentReasons(w: World, row: Bug, user: Option<UserId>)
    ensures AssignBugRefusal(w, row, user) ==
            Or(Frozen(w, row),
               user.Some? && !IsEligibleAssignee(w, user.value),
               IneligibleAssignee)
  {
  }

  lemma ArchivingReasons(w: World, row: Bug)
    ensures var inArchive := row.project < |w.projects| && w.projects[row.project].archivedAt.Some?;
            && ArchiveBugRefusal(w, row) ==
               Or(Or(None, inArchive, ProjectArchivedForBugMutation), row.archivedAt.Some?, BugAlreadyArchived)
            && RestoreBugRefusal(w, row) ==
               Or(Or(None, inArchive, ProjectArchivedForBugMutation), row.archivedAt.None?, BugNotArchived)
  {
  }

  lemma TagReasons(c: Config, w: World, row: Bug, m: Option<Member>, name: string)
    ensures var denied := Or(Frozen(w, row), !MayEdit(row, m, Title), BugPermissionDenied);
            && TagsRefusal(w, row, m) == denied
            && AddTagRefusal(c, w, row, m, name) ==
               Or(denied, |c.lower(name)| > 50 && forall t | 0 <= t < |w.tags| :: w.tags[t].normalized != c.lower(name),
                  TagKeyTooLong)
  {
    assert EditableFieldsFor(row, m) == {} <==> Title !in EditableFieldsFor(row, m);
    var t := FindTag(w.tags, c.lower(name));
  }

  lemma RelationshipReasons(
    w: World, b: BugId, row: Bug, related: BugId, kind: RelKind, id: RelId)
    ensures CreateRelationshipRefusal(w, b, row, related, kind, id) ==
            Or(Or(Or(Or(Frozen(w, row), |w.bugs| <= related, RelatedBugNotFound),
                     related == b, SelfRelationshipNotAllowed),
                  id in w.rels, IdTaken),
               exists i | i in w.rels ::
                 w.rels[i] == if kind == RelatesTo && related < b then Rel(related, b, kind) else Rel(b, related, kind),
               DuplicateBugRelationship)
    ensures RemoveRelationshipRefusal(w, b, row, id) ==
            Or(Frozen(w, row), id !in w.rels || (w.rels[id].from != b && w.rels[id].to != b), RelationshipNotFound)
  {
  }

  /** Before the row is locked: permission where it does not depend on the row, and the shape of the request;
      then a missing bug, and a stale version. */
  lemma CallReasons(c: Config, w: World, b: BugId, m: Option<Member>, v: nat, q: Request)
    ensures Refusal(c, w, b, m, v, q) ==
            var early := match q
                         case AssignBug(_) => Or(None, !IsStaff(m), BugPermissionDenied)
                         case ArchiveBug => Or(None, !IsAdministrator(m), BugPermissionDenied)
                         case RestoreBug => Or(None, !IsAdministrator(m), BugPermissionDenied)
                         case AddTag(name) => Or(None, |c.strip(name)| == 0 || |c.strip(name)| > 50, InvalidTagName)
                         case CreateRelationship(_, kind, _) =>
                           Or(Or(None, kind == DuplicateOf, InvalidRelationshipType), !IsStaff(m), BugPermissionDenied)
                         case RemoveRelationship(_) => Or(None, !IsStaff(m), BugPermissionDenied)
                         case UpdateBug(_) => None
                         case TransitionBug(_, _, _, _) => None
                         case RemoveTag(_) => None;
            if early.Some? then early
            else if |w.bugs| <= b then Some(DoesNotExist)
            else if w.bugs[b].version != v then Some(BugVersionConflict)
            else LockedRefusal(c, w, b, w.bugs[b], m, q)
  {
  }

  lemma CreationReasons(w: World, p: ProjectId, m: Option<Member>)
    ensures CreateBugRefusal(w, p, m) ==
            if !IsStaff(m) && !(m.Some? && m.value.role == Reporter) then Some(BugPermissionDenied)
            else if |w.projects| <= p then Some(DoesNotExist)
            else Or(None, w.projects[p].archivedAt.Some?, ProjectArchivedForBugCreation)
  {
  }

  // ---------------------------------------------------------------------------------------------
  // Members and projects

  predicate AnotherAdministrates(w: World, u: UserId) {
    exists a :: a in w.members && a != u && w.members[a] == Administrator
  }

  lemma MemberReasons(c: Config, w: World, u: UserId, role: Role, bypassDemo: bool)
    ensures ChangeMemberRoleRefusal(c, w, u, role, bypassDemo) ==
            if u !in w.members then Some(DoesNotExist)
            else Or(Or(None, u in c.demoUsers && !bypassDemo, ProtectedDemoAccount),
                    role != Administrator && w.members[u] == Administrator && !AnotherAdministrates(w, u),
                    LastAdministrator)
    ensures RemoveMemberRefusal(c, w, u) ==
            if u !in w.members then Some(DoesNotExist)
            else Or(Or(None, u in c.demoUsers, ProtectedDemoAccount),
                    w.members[u] == Administrator && !AnotherAdministrates(w, u), LastAdministrator)
  {
    if u in w.members && w.members[u] == Administrator {
      Administrators.NotLastMeansAnother(w.members, u);
    }
  }

  lemma ProjectReasons(w: World, key: string, p: ProjectId, lead: Option<UserId>)
    ensures CreateProjectRefusal(w, key, lead) ==
            Or(Or(Or(None, !IsProjectKey(key), InvalidProjectKey),
                  exists q | 0 <= q < |w.projects| :: w.projects[q].key == key, DuplicateProjectKey),
               lead.Some? && lead.value !in w.members, InvalidProjectLead)
    ensures SetLeadRefusal(w, p, lead) ==
            if |w.projects| <= p then Some(DoesNotExist)
            else Or(Or(None, lead.Some? && lead.value !in w.members, InvalidProjectLead),
                    w.projects[p].archivedAt.Some?, ArchivedProjectNotEditable)
    ensures ArchiveProjectRefusal(w, p) ==
            if |w.projects| <= p then Some(DoesNotExist)
            else Or(None, w.projects[p].archivedAt.Some?, ProjectAlreadyArchived)
    ensures RestoreProjectRefusal(w, p) ==
            if |w.projects| <= p then Some(DoesNotExist)
            else Or(None, w.projects[p].archivedAt.None?, ProjectNotArchived)
  {
  }

  // ---------------------------------------------------------------------------------------------
  // Comments, attachments, invitations

  lemma CommentReasons(s: Comments.Settings, d: Comments.Desk, q: Comments.Call)
    ensures Comments.Serve(s, d, q).1 ==
            var text := if q.request.Create? || q.request.Edit? then s.strip(q.request.body) else "";
            var unfit := |text| == 0 || |text| > 10_000;
            var late := (c: Comments.Comment) => q.now > c.createdAt + s.editWindow;
            var isAdministrator := q.role == Some(Administrator);
            var archived := Or(Or(None, q.around.bugArchived, Comments.BugIsArchived),
                               q.around.projectArchived, Comments.ProjectIsArchived);
            match q.request
            case Create(_, _) =>
              if q.role.None? || q.role == Some(Viewer) then Some(Comments.CommentPermissionDenied)
              else Or(archived, unfit, Comments.InvalidCommentBody)
            case Edit(id, _) =>
              if |d.comments| <= id then Some(Comments.CommentNotFound)
              else if q.actor != d.comments[id].author then Some(Comments.CommentPermissionDenied)
              else Or(Or(Or(archived, d.comments[id].status != Comments.Active, Comments.CommentNotActive),
                         late(d.comments[id]), Comments.EditWindowExpired),
                      unfit, Comments.InvalidCommentBody)
            case Delete(id) =>
              if |d.comments| <= id then Some(Comments.CommentNotFound)
              else if q.actor != d.comments[id].author && !isAdministrator then Some(Comments.CommentPermissionDenied)
              else if d.comments[id].status != Comments.Active then Some(Comments.CommentNotActive)
              else if isAdministrator then None
              else Or(archived, late(d.comments[id]), Comments.EditWindowExpired)
            case Redact(id) =>
              if |d.comments| <= id then Some(Comments.CommentNotFound)
              else Or(Or(None, !isAdministrator, Comments.CommentPermissionDenied),
                      d.comments[id].status != Comments.Active, Comments.CommentNotActive)
  {
    assert forall r: Role :: r in Comments.CAN_COMMENT_ROLES <==> r != Viewer;
  }

  lemma AttachmentReasons(
    c: Attachments.Settings, a: Attachments.Action, row: Attachments.Attachment, actor: UserId, role: Option<Role>,
    archived: Attachments.Archived, file: Attachments.File)
    ensures var frozen := Or(Or(None, archived.bug, Attachments.BugIsArchived),
                             archived.project, Attachments.ProjectIsArchived);
            var isAdministrator := role == Some(Administrator);
            && Attachments.UploadRefusal(c, row, actor, archived, file) ==
               (if actor != row.uploader then Some(Attachments.AttachmentPermissionDenied)
                else if row.status != Attachments.Pending then Some(Attachments.AttachmentNotPending)
                else Or(Or(frozen, file.size != row.size, Attachments.UploadVerificationFailed),
                        !c.passes(row.contentType, file.content), Attachments.SignatureMismatch))
            && Attachments.RemoveRefusal(row, actor, role, archived) ==
               (if actor != row.uploader && !isAdministrator then Some(Attachments.AttachmentPermissionDenied)
                else if row.status != Attachments.Uploaded || row.removedAt.Some?
                then Some(Attachments.AttachmentNotAvailable)
                else if isAdministrator then None else frozen)
    ensures a.Initiate? ==>
              Attachments.InitiateRefusal(c, a) ==
              if a.role.None? || a.role == Some(Viewer) then Some(Attachments.AttachmentPermissionDenied)
              else Or(Or(Or(Or(None, a.archived.bug, Attachments.BugIsArchived),
                            a.archived.project, Attachments.ProjectIsArchived),
                         a.contentType !in c.extensions, Attachments.UnsupportedContentType),
                      a.size < 1 || a.size > c.maxSize, Attachments.AttachmentTooLarge)
  {
    assert forall r: Role :: r in Attachments.CAN_UPLOAD_ROLES <==> r != Viewer;
  }

  lemma InvitationReasons(s: Invitations.State, i: Invitations.Invitation, email: Invitations.Email, now: int)
    requires Invitations.Sound(s)
    ensures Invitations.AcceptRefusal(i, now) ==
            Or(None, i.acceptedAt.Some? || i.revokedAt.Some? || now >= i.expiresAt, Invitations.InvitationInvalid)
    ensures Invitations.CreateRefusal(s, email, now) ==
            Or(None, exists k | 0 <= k < |s.invitations| ::
                       s.invitations[k].email == email && s.invitations[k].acceptedAt.None?
                       && s.invitations[k].revokedAt.None? && now < s.invitations[k].expiresAt,
               Invitations.InvitationAlreadyPending)
  {
    Invitations.OpenForFinds(s.invitations, email);
  }
}
