/** Who may change what: the exact conditions under which a call on a bug takes effect, and what any
    change of a bug's row says about the caller. */
module Guards {
  import opened Base
  import opened Workflow
  import opened Relationships
  import opened Tracker
  import opened BugServices
  import opened MemberServices
  import opened History
  import opened Lifecycle

  /** The bug is the caller's own report. */
  predicate IsReporterOf(row: Bug, m: Option<Member>) {
    m.Some? && m.value.role == Reporter && m.value.user == row.reporter
  }

  /** What each change of a row takes, given the caller's membership. */
  ghost predicate IsAuthorised(c: Config, w: World, m: Option<Member>, was: Bug, now: Bug)
    requires forall f: Field :: f in was.fields && f in now.fields
  {
    && (now.archivedAt != was.archivedAt ==> IsAdministrator(m))
    && (now.status != was.status ==>
          && (IsStaff(m) || (IsReporterOf(was, m) && !IsOpen(was.status) && now.status == Reopened))
          && IsValidTransition(MatrixOf(c, was), was.status, now.status)
          && (now.status in {Assigned, InProgress} ==> now.assignee.Some?))
    && (now.assignee != was.assignee ==>
          IsStaff(m) && (now.assignee.Some? ==> IsEligibleAssignee(w, now.assignee.value)))
    && (now.tags != was.tags ==> IsStaff(m) || (IsReporterOf(was, m) && was.status in {New, Triaged}))
    && (forall f: Field | now.fields[f] != was.fields[f] ::
          || IsStaff(m)
          || (IsReporterOf(was, m) && was.status in {New, Triaged} && f !in {DueDate, Priority, Severity}))
  }

  lemma EditIsAuthorised(c: Config, w: World, row: Bug, m: Option<Member>, fields: Content)
    requires UpdateBugRefusal(w, row, m, fields).None? && forall f: Field :: f in row.fields
    ensures forall f: Field :: f in UpdateBugEffect(w, row, fields).row.fields
    ensures IsAuthorised(c, w, m, row, UpdateBugEffect(w, row, fields).row)
  {
    var now := UpdateBugEffect(w, row, fields).row;
    forall f: Field ensures f in now.fields && (now.fields[f] != row.fields[f] ==> f in EditableFieldsFor(row, m)) {
      assert f in row.fields;
    }
    forall f: Field | f in EditableFieldsFor(row, m)
      ensures IsStaff(m)
        || (IsReporterOf(row, m) && row.status in {New, Triaged} && f !in {DueDate, Priority, Severity})
    {
      EditableExactly(row, m, f);
    }
    assert now == row.(fields := now.fields, version := now.version);
  }

  /** Who may edit which field of which bug. */
  lemma EditableExactly(row: Bug, m: Option<Member>, f: Field)
    ensures f in EditableFieldsFor(row, m) <==>
            IsStaff(m) || (IsReporterOf(row, m) && row.status in {New, Triaged} && f !in {DueDate, Priority, Severity})
  {
  }

  lemma OtherEffectIsAuthorised(c: Config, w: World, b: BugId, row: Bug, m: Option<Member>, now: int, q: Request)
    requires EarlyRefusal(c, m, q).None? && LockedRefusal(c, w, b, row, m, q).None? && !q.UpdateBug?
    requires forall f: Field :: f in row.fields
    ensures EffectOf(c, w, b, row, m, now, q).row.fields == row.fields
    ensures IsAuthorised(c, w, m, row, EffectOf(c, w, b, row, m, now, q).row)
  {
  }

  /** Every change of a bug's row was open to the caller: only staff assign, move and edit, except that a
      reporter may describe a fresh report and reopen a finished one; only administrators archive; and
      nothing changes under another version, in an archived bug, or in an archived project. */
  lemma EveryChangeIsAuthorised(c: Config, w: World, op: Op)
    requires TablesSound(c, w) && op.Call? && TakesEffect(c, w, op)
    ensures var was, now := w.bugs[op.bug], Step(c, w, op).bugs[op.bug];
            && was.version == op.expected
            && (was.archivedAt.Some? ==> op.request.RestoreBug?)
            && !ProjectIsArchived(w, was.project)
            && (forall f: Field :: f in was.fields && f in now.fields)
            && IsAuthorised(c, w, op.membership, was, now)
  {
    var row := w.bugs[op.bug];
    assert History.RowSound(w, row);
    match op.request
    case UpdateBug(fields) => EditIsAuthorised(c, w, row, op.membership, fields);
    case _ => OtherEffectIsAuthorised(c, w, op.bug, row, op.membership, op.now, op.request);
  }

  // ---------------------------------------------------------------------------------------------
  // When each service takes effect

  /** The target of a marking: another live bug whose verified chain of duplicates does not lead back. */
  predicate IsDuplicateTarget(w: World, b: BugId, target: Option<BugId>) {
    && target.Some? && target.value < |w.bugs| && target.value != b
    && w.bugs[target.value].archivedAt.None?
    && Walk(w.rels, target.value, b, MAX_DUPLICATE_CHAIN_DEPTH).Ends?
  }

  /** The guard of a transition, with the permission, the edge and the two side conditions. */
  predicate MayMove(
    c: Config, w: World, b: BugId, row: Bug, m: Option<Member>, to: Status, target: Option<BugId>, arg: AssigneeArg)
  {
    && row.archivedAt.None? && !ProjectIsArchived(w, row.project)
    && (IsStaff(m) || (IsReporterOf(row, m) && !IsOpen(row.status) && to == Reopened && arg.Unset?))
    && IsValidTransition(MatrixOf(c, row), row.status, to)
    && (arg.SetTo? && arg.user.Some? ==> IsEligibleAssignee(w, arg.user.value))
    && (to in {Assigned, InProgress} ==> if arg.SetTo? then arg.user.Some? else row.assignee.Some?)
    && (to == Duplicate ==> IsDuplicateTarget(w, b, target))
  }

  lemma MoveAllowedExactly(
    c: Config, w: World, b: BugId, row: Bug, m: Option<Member>, to: Status, target: Option<BugId>,
    arg: AssigneeArg, relId: RelId)
    requires relId !in w.rels
    ensures TransitionBugRefusal(c, w, b, row, m, to, target, arg, relId).None?
      <==> MayMove(c, w, b, row, m, to, target, arg)
  {
  }

  lemma TransitionTakesEffectExactly(
    c: Config, w: World, b: BugId, actor: Option<UserId>, m: Option<Member>, v: nat, now: int,
    to: Status, target: Option<BugId>, arg: AssigneeArg, relId: RelId)
    requires b < |w.bugs| && relId !in w.rels
    ensures TakesEffect(c, w, Call(b, actor, m, v, now, TransitionBug(to, target, arg, relId))) <==>
            w.bugs[b].version == v && MayMove(c, w, b, w.bugs[b], m, to, target, arg)
  {
    MoveAllowedExactly(c, w, b, w.bugs[b], m, to, target, arg, relId);
  }

  lemma AssignmentTakesEffectExactly(
    c: Config, w: World, b: BugId, actor: Option<UserId>, m: Option<Member>, v: nat, now: int, user: Option<UserId>)
    requires b < |w.bugs|
    ensures TakesEffect(c, w, Call(b, actor, m, v, now, AssignBug(user))) <==>
            && w.bugs[b].version == v && !IsFrozen(w, b) && IsStaff(m)
            && (user.Some? ==> IsEligibleAssignee(w, user.value))
            && user != w.bugs[b].assignee
  {
  }

  lemma ArchivingTakesEffectExactly(
    c: Config, w: World, b: BugId, actor: Option<UserId>, m: Option<Member>, v: nat, now: int)
    requires b < |w.bugs|
    ensures TakesEffect(c, w, Call(b, actor, m, v, now, ArchiveBug)) <==>
            w.bugs[b].version == v && !IsFrozen(w, b) && IsAdministrator(m)
    ensures TakesEffect(c, w, Call(b, actor, m, v, now, RestoreBug)) <==>
            && w.bugs[b].version == v && IsAdministrator(m)
            && w.bugs[b].archivedAt.Some? && !ProjectIsArchived(w, w.bugs[b].project)
  {
  }

  /** Whoever may edit some field may tag. */
  predicate MayTag(row: Bug, m: Option<Member>) {
    IsStaff(m) || (IsReporterOf(row, m) && row.status in {New, Triaged})
  }

  lemma MayTagExactly(row: Bug, m: Option<Member>)
    ensures MayTag(row, m) <==> EditableFieldsFor(row, m) != {}
  {
    EditableExactly(row, m, Title);
    forall f | f in EditableFieldsFor(row, m) ensures MayTag(row, m) {
      EditableExactly(row, m, f);
    }
  }

  lemma TaggingTakesEffectExactly(
    c: Config, w: World, b: BugId, actor: Option<UserId>, m: Option<Member>, v: nat, now: int, name: string)
    requires TablesSound(c, w) && b < |w.bugs|
    ensures var row := w.bugs[b];
            TakesEffect(c, w, Call(b, actor, m, v, now, AddTag(name))) <==>
            && 1 <= |c.strip(name)| <= 50 && row.version == v && !IsFrozen(w, b) && MayTag(row, m)
            && (forall t | t in row.tags :: w.tags[t].normalized != c.lower(c.strip(name)))
            && (|c.lower(c.strip(name))| <= 50
                  || exists t :: 0 <= t < |w.tags| && w.tags[t].normalized == c.lower(c.strip(name)))
  {
    assert History.RowSound(w, w.bugs[b]);
    MayTagExactly(w.bugs[b], m);
  }

  lemma UntaggingTakesEffectExactly(
    c: Config, w: World, b: BugId, actor: Option<UserId>, m: Option<Member>, v: nat, now: int, t: TagId)
    requires TablesSound(c, w) && b < |w.bugs|
    ensures TakesEffect(c, w, Call(b, actor, m, v, now, RemoveTag(t))) <==>
            w.bugs[b].version == v && !IsFrozen(w, b) && MayTag(w.bugs[b], m) && t in w.bugs[b].tags
  {
    assert History.RowSound(w, w.bugs[b]);
    MayTagExactly(w.bugs[b], m);
  }

  lemma LinkingTakesEffectExactly(
    c: Config, w: World, b: BugId, actor: Option<UserId>, m: Option<Member>, v: nat, now: int,
    related: BugId, kind: RelKind, relId: RelId)
    requires b < |w.bugs| && relId !in w.rels
    ensures TakesEffect(c, w, Call(b, actor, m, v, now, CreateRelationship(related, kind, relId))) <==>
            && kind != DuplicateOf && IsStaff(m)
            && w.bugs[b].version == v && !IsFrozen(w, b)
            && related < |w.bugs| && related != b
            && forall i | i in w.rels && w.rels[i].kind == kind ::
                 if kind == RelatesTo && related < b then w.rels[i].from != related || w.rels[i].to != b
                 else w.rels[i].from != b || w.rels[i].to != related
  {
  }

  lemma UnlinkingTakesEffectExactly(
    c: Config, w: World, b: BugId, actor: Option<UserId>, m: Option<Member>, v: nat, now: int, id: RelId)
    requires b < |w.bugs|
    ensures TakesEffect(c, w, Call(b, actor, m, v, now, RemoveRelationship(id))) <==>
            && IsStaff(m) && w.bugs[b].version == v && !IsFrozen(w, b)
            && id in w.rels && (w.rels[id].from == b || w.rels[id].to == b)
  {
  }
}
