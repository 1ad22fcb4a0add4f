/** The bug services as they run: each locks a row, checks, assigns to the row object, saves the named
    columns and appends to the activity log. Every method is proved to do what `BugServices` says. */
module TrackerStore {
  import opened Base
  import opened Workflow
  import opened Relationships
  import opened Tracker
  import opened BugServices
  import opened MemberServices

  /** The Python object `_lock_bug` returns; only `save` copies its columns back to the table. */
  class LockedBug {
    const loaded: Bug
    var fields: Content
    var status: Status
    var assignee: Option<UserId>
    var resolvedAt: Option<int>
    var closedAt: Option<int>
    var archivedAt: Option<int>
    var version: nat

    constructor (row: Bug)
      ensures loaded == row && Row() == row
    {
      loaded := row;
      fields, status, assignee := row.fields, row.status, row.assignee;
      resolvedAt, closedAt, archivedAt := row.resolvedAt, row.closedAt, row.archivedAt;
      version := row.version;
    }

    /** The row with every column as the object has it. */
    function Row(): Bug
      reads this
    {
      loaded.(fields := fields, status := status, assignee := assignee, resolvedAt := resolvedAt,
              closedAt := closedAt, archivedAt := archivedAt, version := version)
    }

    method ApplyTimestampSideEffects(to: Status, now: int)
      modifies this`resolvedAt, this`closedAt
      ensures Row().Stamps() == StampsAfter(old(Row()).Stamps(), to, now)
    {
      if to in RESOLUTION_STATUSES {
        resolvedAt := Some(now);
      } else if to == Closed {
        closedAt := Some(now);
      } else if to == Reopened {
        resolvedAt := None;
        closedAt := None;
      }
    }
  }

  class Store {
    const config: Config
    var members: map<UserId, Role>
    var projects: seq<Project>
    var bugs: seq<Bug>
    var tags: seq<Tag>
    var rels: Rels
    var log: seq<Activity>

    constructor (config: Config, w: World)
      ensures State() == w && this.config == config
    {
      this.config := config;
      members, projects, bugs, tags, rels, log := w.members, w.projects, w.bugs, w.tags, w.rels, w.log;
    }

    function State(): World
      reads this
    {
      World(members, projects, bugs, tags, rels, log)
    }

    method Record(b: BugId, actor: Option<UserId>, now: int, event: Event)
      modifies this`log
      ensures log == old(log) + Entries(b, actor, now, [event])
    {
      log := log + [Activity(b, actor, now, event)];
    }

    /** `_lock_bug` and `_check_version`. */
    method LockBug(b: BugId, expectedVersion: nat) returns (r: Outcome<LockedBug, Error>)
      ensures r.Ok? ==> fresh(r.value) && IsLocked(b, r.value) && r.value.version == expectedVersion
      ensures r.Err? ==> r.error == if b < |bugs| then BugVersionConflict else DoesNotExist
      ensures r.Err? <==> |bugs| <= b || bugs[b].version != expectedVersion
    {
      if |bugs| <= b {
        return Err(DoesNotExist);
      }
      var locked := new LockedBug(bugs[b]);
      if locked.version != expectedVersion {
        return Err(BugVersionConflict);
      }
      return Ok(locked);
    }

    method CheckMutable(locked: LockedBug) returns (refusal: Option<Error>)
      ensures refusal == FrozenRefusal(State(), locked.Row())
    {
      if locked.archivedAt.Some? {
        return Some(BugArchived);
      }
      if ProjectIsArchived(State(), locked.loaded.project) {
        return Some(ProjectArchivedForBugMutation);
      }
      return None;
    }

    /** The loop of `update_bug` over `fields.items()`. */
    method AssignFields(locked: LockedBug, fields: Content, todo: seq<Field>) returns (changed: seq<Event>)
      requires NoRepeats(todo)
      modifies locked`fields
      ensures changed == ChangeEvents(old(locked.fields), fields, todo)
      ensures locked.fields == OverwriteSome(old(locked.fields), fields, todo)
    {
      ghost var was := locked.fields;
      changed := [];
      for i := 0 to |todo|
        invariant changed == ChangeEvents(was, fields, todo[..i])
        invariant locked.fields == OverwriteSome(was, fields, todo[..i])
      {
        var f := todo[i];
        AssignOneMore(was, fields, todo, i);
        if f in fields && f in locked.fields && locked.fields[f] != fields[f] {
          changed := changed + [ChangeEvent(f, locked.fields[f], fields[f])];
          locked.fields := locked.fields[f := fields[f]];
        }
      }
      assert todo[..|todo|] == todo;
    }

    /** The recording loop of `update_bug`; a value too wide for its column aborts the transaction. */
    method RecordChanges(b: BugId, actor: Option<UserId>, now: int, changed: seq<Event>) returns (ok: bool)
      modifies this`log
      ensures ok <==> forall i | 0 <= i < |changed| :: FitsLog(changed[i])
      ensures ok ==> log == old(log) + Entries(b, actor, now, changed)
    {
      for i := 0 to |changed|
        invariant log == old(log) + Entries(b, actor, now, changed[..i])
        invariant forall k | 0 <= k < i :: FitsLog(changed[k])
      {
        if !FitsLog(changed[i]) {
          return false;
        }
        assert changed[..i] + [changed[i]] == changed[..i + 1];
        EntriesAppend(b, actor, now, changed[..i], changed[i]);
        Record(b, actor, now, changed[i]);
      }
      assert changed[..|changed|] == changed;
      return true;
    }

    /** The call ended with the effect stored, or with the refusal raised and every table alone. */
    ghost predicate Stored(before: World, after: World, b: BugId, actor: Option<UserId>, now: int, e: Effect) {
      b < |before.bugs| && after == BugServices.Store(before, b, actor, now, e)
    }

    /** The object was loaded from the row of `b` and not assigned to since. */
    predicate IsLocked(b: BugId, locked: LockedBug)
      reads this, locked
    {
      b < |bugs| && locked.Row() == locked.loaded == bugs[b]
    }

    method UpdateBug(b: BugId, locked: LockedBug, actor: Option<UserId>, m: Option<Member>, now: int, fields: Content)
      returns (refusal: Option<Error>)
      requires IsLocked(b, locked)
      modifies this, locked
      ensures refusal == UpdateBugRefusal(old(State()), old(bugs[b]), m, fields)
      ensures refusal.Some? ==> State() == old(State())
      ensures refusal.None? ==>
                Stored(old(State()), State(), b, actor, now, UpdateBugEffect(old(State()), old(bugs[b]), fields))
    {
      refusal := CheckMutable(locked);
      if refusal.Some? {
        return;
      }
      if !(fields.Keys <= EditableFieldsFor(locked.loaded, m)) {
        return Some(BugPermissionDenied);
      }
      EveryFieldIsListed(locked.fields, fields);
      var changed := AssignFields(locked, fields, ALL_FIELDS);
      if changed == [] {
        EmptyEffectChangesNothing(State(), b, actor, now);
        return None;
      }
      var bugsBefore, logBefore := bugs, log;
      locked.version := locked.version + 1;
      bugs := bugs[b := bugs[b].(fields := locked.fields, version := locked.version)];
      var recorded := RecordChanges(b, actor, now, changed);
      if !recorded {
        bugs, log := bugsBefore, logBefore;
        return Some(ValueTooLongForLog);
      }
      return None;
    }

    method ResolveAssignee(u: Option<UserId>) returns (refusal: Option<Error>)
      ensures refusal == AssigneeRefusal(State(), u)
    {
      if u.Some? && !IsEligibleAssignee(State(), u.value) {
        return Some(IneligibleAssignee);
      }
      return None;
    }

    method ValidateDuplicateTarget(b: BugId, target: BugId) returns (refusal: Option<Error>)
      ensures refusal == DuplicateTargetRefusal(State(), b, target)
    {
      if |bugs| <= target {
        return Some(RelatedBugNotFound);
      }
      if target == b {
        return Some(SelfRelationshipNotAllowed);
      }
      if bugs[target].archivedAt.Some? {
        return Some(DuplicateTargetArchived);
      }
      var answer := DuplicateChainReaches(rels, target, b);
      match answer
      case Reaches => return Some(DuplicateCycleDetected);
      case Unverifiable => return Some(DuplicateChainUnverifiable);
      case Ends => return None;
    }
  
    /** Everything `transition_bug` checks before it assigns to the row. */
    method CheckTransition(
      b: BugId, locked: LockedBug, m: Option<Member>, newStatus: Status, duplicateOf: Option<BugId>,
      arg: AssigneeArg, relId: RelId)
      returns (refusal: Option<Error>)
      requires IsLocked(b, locked)
      ensures refusal == TransitionBugRefusal(config, State(), b, bugs[b], m, newStatus, duplicateOf, arg, relId)
    {
      refusal := CheckMutable(locked);
      if refusal.Some? {
        return;
      }
      if !CanChangeStatus(locked.loaded, m, newStatus) {
        return Some(BugPermissionDenied);
      }
      if !IsValidTransition(TransitionMatrix(config.providers, locked.loaded.project), locked.status, newStatus) {
        return Some(InvalidWorkflowTransition);
      }
      var assignee, assigneeChanged := locked.assignee, false;
      if arg.SetTo? {
        if !IsStaff(m) {
          return Some(BugPermissionDenied);
        }
        refusal := ResolveAssignee(arg.user);
        if refusal.Some? {
          return;
        }
        assigneeChanged := locked.assignee != arg.user;
        assignee := arg.user;
      }
      if newStatus in ASSIGNEE_REQUIRED_STATUSES {
        var effective := if assigneeChanged then assignee else locked.assignee;
        if effective.None? {
          return Some(AssigneeRequiredForTransition);
        }
      }
      if newStatus == Duplicate {
        if duplicateOf.None? {
          return Some(DuplicateTargetRequired);
        }
        refusal := ValidateDuplicateTarget(b, duplicateOf.value);
        if refusal.None? && relId in rels {
          refusal := Some(IdTaken);
        }
      }
    }

    method TransitionBug(
      b: BugId, locked: LockedBug, actor: Option<UserId>, m: Option<Member>, now: int, newStatus: Status,
      duplicateOf: Option<BugId>, arg: AssigneeArg, relId: RelId)
      returns (refusal: Option<Error>)
      requires IsLocked(b, locked)
      modifies this, locked
      ensures refusal ==
              TransitionBugRefusal(config, old(State()), b, old(bugs[b]), m, newStatus, duplicateOf, arg, relId)
      ensures refusal.Some? ==> State() == old(State())
      ensures refusal.None? ==>
                Stored(old(State()), State(), b, actor, now,
                       TransitionBugEffect(config, old(State()), b, old(bugs[b]),
                         newStatus, duplicateOf, arg, relId, now))
    {
      refusal := CheckTransition(b, locked, m, newStatus, duplicateOf, arg, relId);
      if refusal.Some? {
        return;
      }
      var assignee := if arg.SetTo? then arg.user else locked.assignee;
      var assigneeChanged := locked.assignee != assignee;
      var target := if newStatus == Duplicate then duplicateOf else None;
      var fromStatus := locked.status;
      if target.Some? {
        rels := MarkDuplicate(rels, b, target.value, relId);
      }
      SaveTransition(b, locked, newStatus, assignee, now);
      RecordTransition(b, actor, now, if assigneeChanged then [AssignmentEvent(config, "", assignee)] else [],
                       target, StatusChanged(fromStatus, newStatus));
    }

    /** The assignments to the row object, and the columns they save. */
    method SaveTransition(b: BugId, locked: LockedBug, newStatus: Status, assignee: Option<UserId>, now: int)
      requires IsLocked(b, locked)
      modifies this`bugs, locked
      ensures var stamps := StampsAfter(old(bugs[b]).Stamps(), newStatus, now);
              bugs == old(bugs)[b := old(bugs[b]).(status := newStatus, resolvedAt := stamps.resolvedAt,
                                                   closedAt := stamps.closedAt, assignee := assignee,
                                                   version := old(bugs[b]).version + 1)]
    {
      locked.status := newStatus;
      locked.ApplyTimestampSideEffects(newStatus, now);
      locked.version := locked.version + 1;
      bugs := bugs[b := bugs[b].(status := locked.status, resolvedAt := locked.resolvedAt,
                                 closedAt := locked.closedAt, version := locked.version)];
      if locked.assignee != assignee {
        locked.assignee := assignee;
        bugs := bugs[b := bugs[b].(assignee := locked.assignee)];
      }
    }

    /** The three `_record` calls at the end of `transition_bug`. */
    method RecordTransition(
      b: BugId, actor: Option<UserId>, now: int, assignment: seq<Event>, target: Option<BugId>, change: Event)
      requires |assignment| <= 1
      modifies this`log
      ensures log == old(log) + Entries(b, actor, now, assignment + LinkEvents(State(), target) + [change])
    {
      assert log == old(log) + Entries(b, actor, now, []);
      if |assignment| == 1 {
        Record(b, actor, now, assignment[0]);
      }
      assert log == old(log) + Entries(b, actor, now, assignment);
      if target.Some? && target.value < |bugs| {
        EntriesAppend(b, actor, now, assignment, RelationshipAdded(DuplicateOf, bugs[target.value].key));
        Record(b, actor, now, RelationshipAdded(DuplicateOf, bugs[target.value].key));
      } else {
        assert assignment + [] == assignment;
      }
      EntriesAppend(b, actor, now, assignment + LinkEvents(State(), target), change);
      Record(b, actor, now, change);
    }

    method AssignBug(b: BugId, locked: LockedBug, actor: Option<UserId>, now: int, user: Option<UserId>)
      returns (refusal: Option<Error>)
      requires IsLocked(b, locked)
      modifies this, locked
      ensures refusal == AssignBugRefusal(old(State()), old(bugs[b]), user)
      ensures refusal.Some? ==> State() == old(State())
      ensures refusal.None? ==>
                Stored(old(State()), State(), b, actor, now, AssignBugEffect(config, old(State()), old(bugs[b]), user))
    {
      refusal := CheckMutable(locked);
      if refusal.Some? {
        return;
      }
      refusal := ResolveAssignee(user);
      if refusal.Some? {
        return;
      }
      if locked.assignee == user {
        EmptyEffectChangesNothing(State(), b, actor, now);
        return;
      }
      var previous := locked.assignee;
      locked.assignee := user;
      locked.version := locked.version + 1;
      bugs := bugs[b := bugs[b].(assignee := locked.assignee, version := locked.version)];
      Record(b, actor, now, AssignmentEvent(config, EmailOf(config, previous), user));
    }

    method ArchiveBug(b: BugId, locked: LockedBug, actor: Option<UserId>, now: int) returns (refusal: Option<Error>)
      requires IsLocked(b, locked)
      modifies this, locked
      ensures refusal == ArchiveBugRefusal(old(State()), old(bugs[b]))
      ensures refusal.Some? ==> State() == old(State())
      ensures refusal.None? ==>
                Stored(old(State()), State(), b, actor, now, ArchiveBugEffect(old(State()), old(bugs[b]), now))
    {
      if ProjectIsArchived(State(), locked.loaded.project) {
        return Some(ProjectArchivedForBugMutation);
      }
      if locked.archivedAt.Some? {
        return Some(BugAlreadyArchived);
      }
      locked.archivedAt := Some(now);
      locked.version := locked.version + 1;
      bugs := bugs[b := bugs[b].(archivedAt := locked.archivedAt, version := locked.version)];
      Record(b, actor, now, BugWasArchived);
      return None;
    }

    method RestoreBug(b: BugId, locked: LockedBug, actor: Option<UserId>, now: int) returns (refusal: Option<Error>)
      requires IsLocked(b, locked)
      modifies this, locked
      ensures refusal == RestoreBugRefusal(old(State()), old(bugs[b]))
      ensures refusal.Some? ==> State() == old(State())
      ensures refusal.None? ==>
                Stored(old(State()), State(), b, actor, now, RestoreBugEffect(old(State()), old(bugs[b])))
    {
      if ProjectIsArchived(State(), locked.loaded.project) {
        return Some(ProjectArchivedForBugMutation);
      }
      if locked.archivedAt.None? {
        return Some(BugNotArchived);
      }
      locked.archivedAt := None;
      locked.version := locked.version + 1;
      bugs := bugs[b := bugs[b].(archivedAt := locked.archivedAt, version := locked.version)];
      Record(b, actor, now, BugWasRestored);
      return None;
    }

    method CheckTags(b: BugId, locked: LockedBug, m: Option<Member>) returns (refusal: Option<Error>)
      requires IsLocked(b, locked)
      ensures refusal == TagsRefusal(State(), bugs[b], m)
    {
      refusal := CheckMutable(locked);
      if refusal.None? && EditableFieldsFor(locked.loaded, m) == {} {
        refusal := Some(BugPermissionDenied);
      }
    }

    /** `get_or_create` of a tag by its key; None when the key does not fit the column of a new row. */
    method GetOrCreateTag(name: string) returns (found: Option<TagId>)
      modifies `tags
      ensures found.None? <==> FindTag(old(tags), config.lower(name)) == |old(tags)|
                               && |config.lower(name)| > MAX_TAG_NAME_LENGTH
      ensures tags == if found.None? then old(tags) else TagsWith(config, old(tags), name)
      ensures found.Some? ==> found.value == FindTag(old(tags), config.lower(name)) < |tags|
    {
      var key := config.lower(name);
      var tag := FindTag(tags, key);
      if tag == |tags| {
        if |key| > MAX_TAG_NAME_LENGTH {
          return None;
        }
        tags := tags + [Tag(name, key)];
      }
      found := Some(tag);
    }

    method AddTag(b: BugId, locked: LockedBug, actor: Option<UserId>, m: Option<Member>, now: int, name: string)
      returns (refusal: Option<Error>)
      requires IsLocked(b, locked)
      modifies this, locked
      ensures refusal == AddTagRefusal(config, old(State()), old(bugs[b]), m, name)
      ensures refusal.Some? ==> State() == old(State())
      ensures refusal.None? ==>
                Stored(old(State()), State(), b, actor, now, AddTagEffect(config, old(State()), old(bugs[b]), name))
    {
      refusal := CheckTags(b, locked, m);
      if refusal.Some? {
        return;
      }
      var found := GetOrCreateTag(name);
      if found.None? {
        return Some(TagKeyTooLong);
      }
      var tag := found.value;
      if tag in bugs[b].tags {
        assert bugs[b := bugs[b]] == bugs && log + Entries(b, actor, now, []) == log;
        return;
      }
      bugs := bugs[b := bugs[b].(tags := bugs[b].tags + {tag})];
      locked.version := locked.version + 1;
      bugs := bugs[b := bugs[b].(version := locked.version)];
      assert bugs == old(bugs)[b := old(bugs[b]).(tags := old(bugs[b].tags) + {tag},
        version := old(bugs[b].version) + 1)];
      Record(b, actor, now, TagAdded(tags[tag].name));
    }

    method RemoveTag(b: BugId, locked: LockedBug, actor: Option<UserId>, m: Option<Member>, now: int, tag: TagId)
      returns (refusal: Option<Error>)
      requires IsLocked(b, locked)
      modifies this, locked
      ensures refusal == TagsRefusal(old(State()), old(bugs[b]), m)
      ensures refusal.Some? ==> State() == old(State())
      ensures refusal.None? ==>
                Stored(old(State()), State(), b, actor, now, RemoveTagEffect(old(State()), old(bugs[b]), tag))
    {
      refusal := CheckTags(b, locked, m);
      if refusal.Some? {
        return;
      }
      if |tags| <= tag || tag !in bugs[b].tags {
        EmptyEffectChangesNothing(State(), b, actor, now);
        return;
      }
      bugs := bugs[b := bugs[b].(tags := bugs[b].tags - {tag})];
      locked.version := locked.version + 1;
      bugs := bugs[b := bugs[b].(version := locked.version)];
      Record(b, actor, now, TagRemoved(tags[tag].name));
    }

    method CreateRelationship(
      b: BugId, locked: LockedBug, actor: Option<UserId>, now: int, related: BugId, kind: RelKind, relId: RelId)
      returns (refusal: Option<Error>)
      requires IsLocked(b, locked)
      modifies this, locked
      ensures refusal == CreateRelationshipRefusal(old(State()), b, old(bugs[b]), related, kind, relId)
      ensures refusal.Some? ==> State() == old(State())
      ensures refusal.None? ==> related < |old(bugs)|
      ensures refusal.None? ==>
                Stored(old(State()), State(), b, actor, now,
                       CreateRelationshipEffect(old(State()), b, old(bugs[b]), related, kind, relId))
    {
      refusal := CheckMutable(locked);
      if refusal.Some? {
        return;
      }
      if |bugs| <= related {
        return Some(RelatedBugNotFound);
      }
      if related == b {
        return Some(SelfRelationshipNotAllowed);
      }
      if relId in rels {
        return Some(IdTaken);
      }
      var added := AddRow(rels, Canonical(b, related, kind), relId);
      if added.None? {
        return Some(DuplicateBugRelationship);
      }
      rels := added.value;
      locked.version := locked.version + 1;
      bugs := bugs[b := bugs[b].(version := locked.version)];
      Record(b, actor, now, RelationshipAdded(kind, bugs[related].key));
    }

    method RemoveRelationship(b: BugId, locked: LockedBug, actor: Option<UserId>, now: int, id: RelId)
      returns (refusal: Option<Error>)
      requires IsLocked(b, locked)
      modifies this, locked
      ensures refusal == RemoveRelationshipRefusal(old(State()), b, old(bugs[b]), id)
      ensures refusal.Some? ==> State() == old(State())
      ensures refusal.None? ==> id in old(rels)
      ensures refusal.None? ==>
                Stored(old(State()), State(), b, actor, now,
                       RemoveRelationshipEffect(old(State()), b, old(bugs[b]), id))
    {
      refusal := CheckMutable(locked);
      if refusal.Some? {
        return;
      }
      if id !in rels || (rels[id].from != b && rels[id].to != b) {
        return Some(RelationshipNotFound);
      }
      var relationship := rels[id];
      var other := if relationship.from == b then relationship.to else relationship.from;
      rels := rels - {id};
      locked.version := locked.version + 1;
      bugs := bugs[b := bugs[b].(version := locked.version)];
      Record(b, actor, now, RelationshipRemoved(relationship.kind, KeyOf(State(), other)));
    }

    /** One service call from outside: early checks, the row lock, the version check, then the body. */
    method Serve(
      b: BugId, actor: Option<UserId>, m: Option<Member>, expectedVersion: nat, now: int, q: Request)
      returns (refusal: Option<Error>)
      modifies this
      ensures refusal == Refusal(config, old(State()), b, m, expectedVersion, q)
      ensures State() == BugServices.Serve(config, old(State()), b, actor, m, expectedVersion, now, q)
    {
      refusal := EarlyRefusal(config, m, q);
      if refusal.Some? {
        return;
      }
      var lock := LockBug(b, expectedVersion);
      if lock.Err? {
        return Some(lock.error);
      }
      var locked := lock.value;
      match q
      case UpdateBug(fields) => refusal := UpdateBug(b, locked, actor, m, now, fields);
      case TransitionBug(newStatus, duplicateOf, assignee, relId) =>
        refusal := TransitionBug(b, locked, actor, m, now, newStatus, duplicateOf, assignee, relId);
      case AssignBug(user) => refusal := AssignBug(b, locked, actor, now, user);
      case ArchiveBug => refusal := ArchiveBug(b, locked, actor, now);
      case RestoreBug => refusal := RestoreBug(b, locked, actor, now);
      case AddTag(name) => refusal := AddTag(b, locked, actor, m, now, config.strip(name));
      case RemoveTag(tag) => refusal := RemoveTag(b, locked, actor, m, now, tag);
      case CreateRelationship(related, kind, relId) =>
        refusal := CreateRelationship(b, locked, actor, now, related, kind, relId);
      case RemoveRelationship(id) => refusal := RemoveRelationship(b, locked, actor, now, id);
    }

    method CreateBug(p: ProjectId, reporter: UserId, m: Option<Member>, fields: Content, now: int)
      returns (refusal: Option<Error>)
      modifies this
      ensures refusal == CreateBugRefusal(old(State()), p, m)
      ensures State() == BugServices.CreateBug(old(State()), p, reporter, m, fields, now)
    {
      if m.None? || m.value.role !in CREATE_ROLES {
        return Some(BugPermissionDenied);
      }
      if |projects| <= p {
        return Some(DoesNotExist);
      }
      if projects[p].archivedAt.Some? {
        return Some(ProjectArchivedForBugCreation);
      }
      var number := projects[p].nextBugNumber;
      var key := BugKey(projects[p].key, number);
      projects := projects[p := projects[p].(nextBugNumber := number + 1)];
      bugs := bugs + [Bug(p, number, key, reporter, now, InitialContent(fields), New, None, None, None, None, 1, {})];
      Record(|bugs| - 1, Some(reporter), now, Created(key));
      return None;
    }

    /** `clear_bug_assignments`: one bulk update, then one bulk insert of the activity rows. */
    method ClearBugAssignments(u: UserId, now: int)
      modifies this`bugs, this`log
      ensures State() == BugServices.ClearBugAssignments(config, old(State()), u, now)
    {
      ghost var before := bugs;
      var entries: seq<Activity> := [];
      for i := 0 to |bugs|
        invariant |bugs| == |before| && log == old(log)
        invariant forall k | 0 <= k < |before| :: bugs[k] == if k < i then Cleared(before[k], u) else before[k]
        invariant entries == ClearedEntries(before, u, config.email(u), now, i)
      {
        if bugs[i].assignee == Some(u) {
          entries := entries + [Activity(i, None, now, Unassigned(config.email(u)))];
          bugs := bugs[i := bugs[i].(assignee := None, version := bugs[i].version + 1)];
        }
      }
      assert bugs == ClearedBugs(before, u);
      log := log + entries;
    }

    method ClearProjectLeadership(u: UserId)
      modifies this`projects
      ensures State() == BugServices.ClearProjectLeadership(old(State()), u)
    {
      projects := seq(|projects|, i requires 0 <= i < |projects| reads this =>
                        if projects[i].lead == Some(u) then projects[i].(lead := None) else projects[i]);
    }

    /** The count `_remaining_administrators` makes over the locked membership rows. */
    method RemainingAdministrators(excluding: UserId) returns (n: nat)
      ensures n == MemberServices.RemainingAdministrators(members, excluding)
    {
      var todo := members.Keys;
      ghost var found := {};
      n := 0;
      while todo != {}
        invariant todo <= members.Keys && n == |found|
        invariant found == set u | u in members.Keys - todo && members[u] == Administrator && u != excluding
        decreases |todo|
      {
        var u :| u in todo;
        if members[u] == Administrator && u != excluding {
          n := n + 1;
          found := found + {u};
        }
        todo := todo - {u};
      }
      assert found == set u | u in members && members[u] == Administrator && u != excluding;
    }

    method ChangeMemberRole(u: UserId, newRole: Role, bypassDemo: bool) returns (refusal: Option<Error>)
      modifies this`members
      ensures refusal == ChangeMemberRoleRefusal(config, old(State()), u, newRole, bypassDemo)
      ensures State() == MemberServices.ChangeMemberRole(config, old(State()), u, newRole, bypassDemo)
    {
      if u !in members {
        return Some(DoesNotExist);
      }
      if u in config.demoUsers && !bypassDemo {
        return Some(ProtectedDemoAccount);
      }
      if members[u] == Administrator && newRole != Administrator {
        var remaining := RemainingAdministrators(u);
        if remaining == 0 {
          return Some(LastAdministrator);
        }
      }
      members := members[u := newRole];
      return None;
    }

    method RemoveMember(u: UserId, now: int) returns (refusal: Option<Error>)
      modifies this
      ensures refusal == RemoveMemberRefusal(config, old(State()), u)
      ensures State() == MemberServices.RemoveMember(config, old(State()), u, now)
    {
      if u !in members {
        return Some(DoesNotExist);
      }
      if u in config.demoUsers {
        return Some(ProtectedDemoAccount);
      }
      if members[u] == Administrator {
        var remaining := RemainingAdministrators(u);
        if remaining == 0 {
          return Some(LastAdministrator);
        }
      }
      ClearProjectLeadership(u);
      ClearBugAssignments(u, now);
      members := members - {u};
      return None;
    }

    method CreateProject(key: string, lead: Option<UserId>) returns (refusal: Option<Error>)
      modifies this`projects
      ensures refusal == CreateProjectRefusal(old(State()), key, lead)
      ensures State() == MemberServices.CreateProject(old(State()), key, lead)
    {
      if !IsProjectKey(key) {
        return Some(InvalidProjectKey);
      }
      for i := 0 to |projects|
        invariant projects == old(projects) && forall k | 0 <= k < i :: projects[k].key != key
      {
        if projects[i].key == key {
          return Some(DuplicateProjectKey);
        }
      }
      if lead.Some? && lead.value !in members {
        return Some(InvalidProjectLead);
      }
      projects := projects + [Project(key, None, 1, lead)];
      return None;
    }

    method UpdateProjectLead(p: ProjectId, lead: Option<UserId>) returns (refusal: Option<Error>)
      modifies this`projects
      ensures refusal == SetLeadRefusal(old(State()), p, lead)
      ensures State() == MemberServices.SetLead(old(State()), p, lead)
    {
      if |projects| <= p {
        return Some(DoesNotExist);
      }
      if lead.Some? && lead.value !in members {
        return Some(InvalidProjectLead);
      }
      if projects[p].archivedAt.Some? {
        return Some(ArchivedProjectNotEditable);
      }
      projects := projects[p := projects[p].(lead := lead)];
      return None;
    }

    method ArchiveProject(p: ProjectId, now: int) returns (refusal: Option<Error>)
      modifies this`projects
      ensures refusal == ArchiveProjectRefusal(old(State()), p)
      ensures State() == MemberServices.ArchiveProject(old(State()), p, now)
    {
      if |projects| <= p {
        return Some(DoesNotExist);
      }
      if projects[p].archivedAt.Some? {
        return Some(ProjectAlreadyArchived);
      }
      projects := projects[p := projects[p].(archivedAt := Some(now))];
      return None;
    }

    method RestoreProject(p: ProjectId) returns (refusal: Option<Error>)
      modifies this`projects
      ensures refusal == RestoreProjectRefusal(old(State()), p)
      ensures State() == MemberServices.RestoreProject(old(State()), p)
    {
      if |projects| <= p {
        return Some(DoesNotExist);
      }
      if projects[p].archivedAt.None? {
        return Some(ProjectNotArchived);
      }
      projects := projects[p := projects[p].(archivedAt := None)];
      return None;
    }
  }

  lemma EntriesAppend(b: BugId, actor: Option<UserId>, now: int, events: seq<Event>, e: Event)
    ensures Entries(b, actor, now, events + [e]) == Entries(b, actor, now, events) + Entries(b, actor, now, [e])
  {
  }

  lemma EmptyEffectChangesNothing(w: World, b: BugId, actor: Option<UserId>, now: int)
    requires b < |w.bugs|
    ensures BugServices.Store(w, b, actor, now, NoEffect(w, w.bugs[b])) == w
  {
    assert w.bugs[b := w.bugs[b]] == w.bugs;
    assert w.log + Entries(b, actor, now, []) == w.log;
  }
}
