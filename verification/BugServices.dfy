/** What each bug service does to the tables, as functions of the tables before the call.

    A service on an existing bug locks its row, and then either raises, or answers with an `Effect`:
    the row to store, the events to log, and the tag and relationship tables it leaves. */
module BugServices {
  import opened Base
  import opened Workflow
  import opened Relationships
  import opened Tracker

  datatype Effect = Effect(row: Bug, events: seq<Event>, tags: seq<Tag>, rels: Rels)

  datatype AssigneeArg = Unset | SetTo(user: Option<UserId>)

  /** The arguments of the service calls on an existing bug, beyond bug, actor, membership and version. */
  datatype Request =
    | UpdateBug(fields: Content)
    | TransitionBug(newStatus: Status, duplicateOf: Option<BugId>, assignee: AssigneeArg, relId: RelId)
    | AssignBug(user: Option<UserId>)
    | ArchiveBug
    | RestoreBug
    | AddTag(name: string)
    | RemoveTag(tag: TagId)
    | CreateRelationship(related: BugId, kind: RelKind, relId: RelId)
    | RemoveRelationship(id: RelId)

  function NoEffect(w: World, row: Bug): Effect {
    Effect(row, [], w.tags, w.rels)
  }

  /** `_check_mutable`: neither the bug nor its project may be archived. */
  function FrozenRefusal(w: World, row: Bug): Option<Error> {
    if row.archivedAt.Some? then Some(BugArchived)
    else if ProjectIsArchived(w, row.project) then Some(ProjectArchivedForBugMutation)
    else None
  }

  // ---------------------------------------------------------------------------------------------
  // Content

  predicate IsChanged(was: Content, fields: Content, f: Field) {
    f in fields && f in was && was[f] != fields[f]
  }

  function ChangeEvent(f: Field, was: string, now: string): Event {
    match f
    case Priority => PriorityChanged(was, now)
    case Severity => SeverityChanged(was, now)
    case _ => FieldUpdated(f, was, now)
  }

  /** One event per changed field, among the first fields of `todo`. */
  function ChangeEvents(was: Content, fields: Content, todo: seq<Field>): seq<Event> {
    if todo == [] then []
    else
      var f := Last(todo);
      ChangeEvents(was, fields, todo[..|todo| - 1]) +
      if IsChanged(was, fields, f) then [ChangeEvent(f, was[f], fields[f])] else []
  }

  /** The values fit the from_value and to_value columns. */
  predicate FitsLog(e: Event) {
    match e
    case PriorityChanged(was, now) => |was| <= MAX_LOG_VALUE_LENGTH && |now| <= MAX_LOG_VALUE_LENGTH
    case SeverityChanged(was, now) => |was| <= MAX_LOG_VALUE_LENGTH && |now| <= MAX_LOG_VALUE_LENGTH
    case FieldUpdated(_, was, now) => |was| <= MAX_LOG_VALUE_LENGTH && |now| <= MAX_LOG_VALUE_LENGTH
    case _ => true
  }

  function Overwrite(was: Content, fields: Content): Content {
    map f | f in was :: if f in fields then fields[f] else was[f]
  }

  ghost function OverwriteSome(was: Content, fields: Content, done: seq<Field>): Content {
    map f | f in was :: if f in fields && f in done then fields[f] else was[f]
  }

  lemma EveryFieldIsListed(was: Content, fields: Content)
    ensures NoRepeats(ALL_FIELDS) && forall f: Field :: f in ALL_FIELDS
    ensures OverwriteSome(was, fields, ALL_FIELDS) == Overwrite(was, fields)
  {
    forall f: Field ensures f in ALL_FIELDS {
      match f
      case Title => assert ALL_FIELDS[0] == f;
      case Description => assert ALL_FIELDS[1] == f;
      case StepsToReproduce => assert ALL_FIELDS[2] == f;
      case ExpectedResult => assert ALL_FIELDS[3] == f;
      case ActualResult => assert ALL_FIELDS[4] == f;
      case Environment => assert ALL_FIELDS[5] == f;
      case Category => assert ALL_FIELDS[6] == f;
      case DueDate => assert ALL_FIELDS[7] == f;
      case Priority => assert ALL_FIELDS[8] == f;
      case Severity => assert ALL_FIELDS[9] == f;
    }
  }

  lemma OverwriteOneMore(was: Content, fields: Content, done: seq<Field>, f: Field)
    requires f !in done
    ensures f in was ==> OverwriteSome(was, fields, done)[f] == was[f]
    ensures OverwriteSome(was, fields, done + [f])
         == if IsChanged(was, fields, f) then OverwriteSome(was, fields, done)[f := fields[f]]
            else OverwriteSome(was, fields, done)
  {
    assert forall g :: g in done + [f] <==> g in done || g == f;
  }

  /** One round of the assignment loop. */
  lemma AssignOneMore(was: Content, fields: Content, todo: seq<Field>, i: nat)
    requires i < |todo| && todo[i] !in todo[..i]
    ensures ChangeEvents(was, fields, todo[..i + 1])
         == ChangeEvents(was, fields, todo[..i])
            + if IsChanged(was, fields, todo[i]) then [ChangeEvent(todo[i], was[todo[i]], fields[todo[i]])] else []
    ensures todo[i] in was ==> OverwriteSome(was, fields, todo[..i])[todo[i]] == was[todo[i]]
    ensures OverwriteSome(was, fields, todo[..i + 1])
         == if IsChanged(was, fields, todo[i])
            then OverwriteSome(was, fields, todo[..i])[todo[i] := fields[todo[i]]]
            else OverwriteSome(was, fields, todo[..i])
  {
    assert todo[..i + 1][..i] == todo[..i] && todo[..i + 1] == todo[..i] + [todo[i]];
    OverwriteOneMore(was, fields, todo[..i], todo[i]);
  }

  function UpdateBugRefusal(w: World, row: Bug, m: Option<Member>, fields: Content): Option<Error> {
    var events := ChangeEvents(row.fields, fields, ALL_FIELDS);
    if FrozenRefusal(w, row).Some? then FrozenRefusal(w, row)
    else if !(fields.Keys <= EditableFieldsFor(row, m)) then Some(BugPermissionDenied)
    else if exists i | 0 <= i < |events| :: !FitsLog(events[i]) then Some(ValueTooLongForLog)
    else None
  }

  function UpdateBugEffect(w: World, row: Bug, fields: Content): Effect {
    var events := ChangeEvents(row.fields, fields, ALL_FIELDS);
    if events == [] then NoEffect(w, row)
    else
      Effect(row.(fields := Overwrite(row.fields, fields), version := row.version + 1), events, w.tags, w.rels)
  }

  // ---------------------------------------------------------------------------------------------
  // Workflow transitions and assignment

  function AssigneeRefusal(w: World, u: Option<UserId>): Option<Error> {
    if u.Some? && !IsEligibleAssignee(w, u.value) then Some(IneligibleAssignee) else None
  }

  function AssignmentEvent(c: Config, was: string, now: Option<UserId>): Event {
    match now
    case Some(u) => AssignedTo(was, c.email(u))
    case None => Unassigned(was)
  }

  function DuplicateTargetRefusal(w: World, b: BugId, target: BugId): Option<Error> {
    if |w.bugs| <= target then Some(RelatedBugNotFound)
    else if target == b then Some(SelfRelationshipNotAllowed)
    else if w.bugs[target].archivedAt.Some? then Some(DuplicateTargetArchived)
    else
      match Walk(w.rels, target, b, MAX_DUPLICATE_CHAIN_DEPTH)
      case Reaches => Some(DuplicateCycleDetected)
      case Unverifiable => Some(DuplicateChainUnverifiable)
      case Ends => None
  }

  /** The refusals of the DUPLICATE branch; an id already in the table is no fresh UUID. */
  function DuplicateRefusal(w: World, b: BugId, duplicateOf: Option<BugId>, relId: RelId): Option<Error> {
    if duplicateOf.None? then Some(DuplicateTargetRequired)
    else if DuplicateTargetRefusal(w, b, duplicateOf.value).Some? then DuplicateTargetRefusal(w, b, duplicateOf.value)
    else if relId in w.rels then Some(IdTaken)
    else None
  }

  function AssigneeAfter(row: Bug, arg: AssigneeArg): Option<UserId> {
    if arg.SetTo? then arg.user else row.assignee
  }

  function TransitionBugRefusal(
    c: Config, w: World, b: BugId, row: Bug, m: Option<Member>, newStatus: Status,
    duplicateOf: Option<BugId>, arg: AssigneeArg, relId: RelId)
    : Option<Error>
  {
    if FrozenRefusal(w, row).Some? then FrozenRefusal(w, row)
    else if !CanChangeStatus(row, m, newStatus) then Some(BugPermissionDenied)
    else if !IsValidTransition(TransitionMatrix(c.providers, row.project), row.status, newStatus)
    then Some(InvalidWorkflowTransition)
    else if arg.SetTo? && !IsStaff(m) then Some(BugPermissionDenied)
    else if arg.SetTo? && AssigneeRefusal(w, arg.user).Some? then AssigneeRefusal(w, arg.user)
    else if newStatus in ASSIGNEE_REQUIRED_STATUSES && AssigneeAfter(row, arg).None?
    then Some(AssigneeRequiredForTransition)
    else if newStatus == Duplicate then DuplicateRefusal(w, b, duplicateOf, relId)
    else None
  }

  /** The event for the duplicate_of link, if the transition made one. */
  function LinkEvents(w: World, target: Option<BugId>): seq<Event> {
    if target.Some? && target.value < |w.bugs| then [RelationshipAdded(DuplicateOf, w.bugs[target.value].key)] else []
  }

  function TransitionEvents(
    c: Config, w: World, row: Bug, newStatus: Status, target: Option<BugId>, assignee: Option<UserId>): seq<Event>
  {
    (if row.assignee != assignee then [AssignmentEvent(c, "", assignee)] else [])
    + LinkEvents(w, target)
    + [StatusChanged(row.status, newStatus)]
  }

  function TransitionBugEffect(
    c: Config, w: World, b: BugId, row: Bug, newStatus: Status,
    duplicateOf: Option<BugId>, arg: AssigneeArg, relId: RelId, now: int)
    : Effect
  {
    var target := if newStatus == Duplicate then duplicateOf else None;
    var stamps := StampsAfter(row.Stamps(), newStatus, now);
    Effect(
      row.(status := newStatus, resolvedAt := stamps.resolvedAt, closedAt := stamps.closedAt,
           assignee := AssigneeAfter(row, arg), version := row.version + 1),
      TransitionEvents(c, w, row, newStatus, target, AssigneeAfter(row, arg)),
      w.tags,
      if target.Some? then MarkDuplicate(w.rels, b, target.value, relId) else w.rels)
  }

  function EmailOf(c: Config, u: Option<UserId>): string {
    if u.Some? then c.email(u.value) else ""
  }

  function AssignBugRefusal(w: World, row: Bug, user: Option<UserId>): Option<Error> {
    if FrozenRefusal(w, row).Some? then FrozenRefusal(w, row) else AssigneeRefusal(w, user)
  }

  function AssignBugEffect(c: Config, w: World, row: Bug, user: Option<UserId>): Effect {
    if row.assignee == user then NoEffect(w, row)
    else
      Effect(row.(assignee := user, version := row.version + 1),
             [AssignmentEvent(c, EmailOf(c, row.assignee), user)], w.tags, w.rels)
  }

  // ---------------------------------------------------------------------------------------------
  // Archive, restore, tags

  function ArchiveBugRefusal(w: World, row: Bug): Option<Error> {
    if ProjectIsArchived(w, row.project) then Some(ProjectArchivedForBugMutation)
    else if row.archivedAt.Some? then Some(BugAlreadyArchived)
    else None
  }

  function ArchiveBugEffect(w: World, row: Bug, now: int): Effect {
    Effect(row.(archivedAt := Some(now), version := row.version + 1), [BugWasArchived], w.tags, w.rels)
  }

  function RestoreBugRefusal(w: World, row: Bug): Option<Error> {
    if ProjectIsArchived(w, row.project) then Some(ProjectArchivedForBugMutation)
    else if row.archivedAt.None? then Some(BugNotArchived)
    else None
  }

  function RestoreBugEffect(w: World, row: Bug): Effect {
    Effect(row.(archivedAt := None, version := row.version + 1), [BugWasRestored], w.tags, w.rels)
  }

  /** The position of the tag with this normalized name, or the end of the table. */
  function FindTag(tags: seq<Tag>, normalized: string): (t: TagId)
    ensures t <= |tags|
    ensures t < |tags| ==> tags[t].normalized == normalized
    ensures forall i | 0 <= i < t :: tags[i].normalized != normalized
  {
    if tags == [] then 0
    else
      var t := FindTag(tags[..|tags| - 1], normalized);
      if t < |tags| - 1 then t
      else if Last(tags).normalized == normalized then |tags| - 1
      else |tags|
  }

  predicate TagNameIsValid(name: string) {
    0 < |name| <= MAX_TAG_NAME_LENGTH
  }

  function TagsRefusal(w: World, row: Bug, m: Option<Member>): Option<Error> {
    if FrozenRefusal(w, row).Some? then FrozenRefusal(w, row)
    else if EditableFieldsFor(row, m) == {} then Some(BugPermissionDenied)
    else None
  }

  /** The tag table after get_or_create. */
  function TagsWith(c: Config, tags: seq<Tag>, name: string): seq<Tag> {
    if FindTag(tags, c.lower(name)) < |tags| then tags else tags + [Tag(name, c.lower(name))]
  }

  /** Lower-casing can lengthen a name, and a new row needs the key to fit its column. */
  function AddTagRefusal(c: Config, w: World, row: Bug, m: Option<Member>, name: string): Option<Error> {
    if TagsRefusal(w, row, m).Some? then TagsRefusal(w, row, m)
    else if FindTag(w.tags, c.lower(name)) == |w.tags| && |c.lower(name)| > MAX_TAG_NAME_LENGTH then Some(TagKeyTooLong)
    else None
  }

  function AddTagEffect(c: Config, w: World, row: Bug, name: string): Effect {
    var t := FindTag(w.tags, c.lower(name));
    var tags := TagsWith(c, w.tags, name);
    if t in row.tags then Effect(row, [], tags, w.rels)
    else Effect(row.(tags := row.tags + {t}, version := row.version + 1), [TagAdded(tags[t].name)], tags, w.rels)
  }

  function RemoveTagEffect(w: World, row: Bug, t: TagId): Effect {
    if |w.tags| <= t || t !in row.tags then NoEffect(w, row)
    else
      Effect(row.(tags := row.tags - {t}, version := row.version + 1), [TagRemoved(w.tags[t].name)], w.tags, w.rels)
  }

  // ---------------------------------------------------------------------------------------------
  // Relationships

  function CreateRelationshipRefusal(w: World, b: BugId, row: Bug, related: BugId, kind: RelKind, relId: RelId)
    : Option<Error>
  {
    if FrozenRefusal(w, row).Some? then FrozenRefusal(w, row)
    else if |w.bugs| <= related then Some(RelatedBugNotFound)
    else if related == b then Some(SelfRelationshipNotAllowed)
    else if relId in w.rels then Some(IdTaken)
    else if AddRow(w.rels, Canonical(b, related, kind), relId).None? then Some(DuplicateBugRelationship)
    else None
  }

  function CreateRelationshipEffect(w: World, b: BugId, row: Bug, related: BugId, kind: RelKind, relId: RelId): Effect
    requires related < |w.bugs|
  {
    Effect(row.(version := row.version + 1), [RelationshipAdded(kind, w.bugs[related].key)], w.tags,
           w.rels[relId := Canonical(b, related, kind)])
  }

  function RemoveRelationshipRefusal(w: World, b: BugId, row: Bug, id: RelId): Option<Error> {
    if FrozenRefusal(w, row).Some? then FrozenRefusal(w, row)
    else if id !in w.rels || b !in {w.rels[id].from, w.rels[id].to} then Some(RelationshipNotFound)
    else None
  }

  function KeyOf(w: World, b: BugId): string {
    if b < |w.bugs| then w.bugs[b].key else ""
  }

  function RemoveRelationshipEffect(w: World, b: BugId, row: Bug, id: RelId): Effect
    requires id in w.rels
  {
    var r := w.rels[id];
    Effect(row.(version := row.version + 1),
           [RelationshipRemoved(r.kind, KeyOf(w, if r.from == b then r.to else r.from))],
           w.tags, w.rels - {id})
  }

  // ---------------------------------------------------------------------------------------------
  // Every service on an existing bug

  /** What a service refuses before it opens its transaction. */
  function EarlyRefusal(c: Config, m: Option<Member>, q: Request): Option<Error> {
    match q
    case AssignBug(_) => if IsStaff(m) then None else Some(BugPermissionDenied)
    case ArchiveBug => if IsAdministrator(m) then None else Some(BugPermissionDenied)
    case RestoreBug => if IsAdministrator(m) then None else Some(BugPermissionDenied)
    case AddTag(name) => if TagNameIsValid(c.strip(name)) then None else Some(InvalidTagName)
    case CreateRelationship(_, kind, _) =>
      if kind == DuplicateOf then Some(InvalidRelationshipType)
      else if IsStaff(m) then None else Some(BugPermissionDenied)
    case RemoveRelationship(_) => if IsStaff(m) then None else Some(BugPermissionDenied)
    case _ => None
  }

  /** What it refuses while holding the lock on the row. */
  function LockedRefusal(c: Config, w: World, b: BugId, row: Bug, m: Option<Member>, q: Request): Option<Error> {
    match q
    case UpdateBug(fields) => UpdateBugRefusal(w, row, m, fields)
    case TransitionBug(newStatus, duplicateOf, assignee, relId) =>
      TransitionBugRefusal(c, w, b, row, m, newStatus, duplicateOf, assignee, relId)
    case AssignBug(user) => AssignBugRefusal(w, row, user)
    case ArchiveBug => ArchiveBugRefusal(w, row)
    case RestoreBug => RestoreBugRefusal(w, row)
    case AddTag(name) => AddTagRefusal(c, w, row, m, c.strip(name))
    case RemoveTag(_) => TagsRefusal(w, row, m)
    case CreateRelationship(related, kind, relId) => CreateRelationshipRefusal(w, b, row, related, kind, relId)
    case RemoveRelationship(id) => RemoveRelationshipRefusal(w, b, row, id)
  }

  function EffectOf(c: Config, w: World, b: BugId, row: Bug, m: Option<Member>, now: int, q: Request): Effect
    requires LockedRefusal(c, w, b, row, m, q).None?
  {
    match q
    case UpdateBug(fields) => UpdateBugEffect(w, row, fields)
    case TransitionBug(newStatus, duplicateOf, assignee, relId) =>
      TransitionBugEffect(c, w, b, row, newStatus, duplicateOf, assignee, relId, now)
    case AssignBug(user) => AssignBugEffect(c, w, row, user)
    case ArchiveBug => ArchiveBugEffect(w, row, now)
    case RestoreBug => RestoreBugEffect(w, row)
    case AddTag(name) => AddTagEffect(c, w, row, c.strip(name))
    case RemoveTag(tag) => RemoveTagEffect(w, row, tag)
    case CreateRelationship(related, kind, relId) => CreateRelationshipEffect(w, b, row, related, kind, relId)
    case RemoveRelationship(id) => RemoveRelationshipEffect(w, b, row, id)
  }

  /** Why the whole call is refused, if it is: early checks, the row lock, the version, the rest. */
  function Refusal(c: Config, w: World, b: BugId, m: Option<Member>, expectedVersion: nat, q: Request): Option<Error> {
    if EarlyRefusal(c, m, q).Some? then EarlyRefusal(c, m, q)
    else if |w.bugs| <= b then Some(DoesNotExist)
    else if w.bugs[b].version != expectedVersion then Some(BugVersionConflict)
    else LockedRefusal(c, w, b, w.bugs[b], m, q)
  }

  function Entries(b: BugId, actor: Option<UserId>, now: int, events: seq<Event>): seq<Activity> {
    seq(|events|, i requires 0 <= i < |events| => Activity(b, actor, now, events[i]))
  }

  function Store(w: World, b: BugId, actor: Option<UserId>, now: int, e: Effect): World
    requires b < |w.bugs|
  {
    w.(bugs := w.bugs[b := e.row], tags := e.tags, rels := e.rels, log := w.log + Entries(b, actor, now, e.events))
  }

  /** A service call on bug `b`: commits its effect, or raises and leaves the tables alone. */
  function Serve(
    c: Config, w: World, b: BugId, actor: Option<UserId>, m: Option<Member>, expectedVersion: nat, now: int, q: Request)
    : World
  {
    if Refusal(c, w, b, m, expectedVersion, q).Some? then w
    else Store(w, b, actor, now, EffectOf(c, w, b, w.bugs[b], m, now, q))
  }

  // ---------------------------------------------------------------------------------------------
  // Creation, and the cascade of a member's removal

  function BugKey(projectKey: string, number: nat): string {
    projectKey + "-" + Decimal(number)
  }

  function DefaultValue(f: Field): string {
    match f
    case Priority => "medium"
    case Severity => "major"
    case _ => ""
  }

  function InitialContent(fields: Content): Content {
    map f | f in ALL_FIELDS :: if f in fields then fields[f] else DefaultValue(f)
  }

  function CreateBugRefusal(w: World, p: ProjectId, m: Option<Member>): Option<Error> {
    if m.None? || m.value.role !in CREATE_ROLES then Some(BugPermissionDenied)
    else if |w.projects| <= p then Some(DoesNotExist)
    else if w.projects[p].archivedAt.Some? then Some(ProjectArchivedForBugCreation)
    else None
  }

  function NewBug(w: World, p: ProjectId, reporter: UserId, fields: Content, now: int): Bug
    requires p < |w.projects|
  {
    var number := w.projects[p].nextBugNumber;
    Bug(p, number, BugKey(w.projects[p].key, number), reporter, now, InitialContent(fields),
        New, None, None, None, None, 1, {})
  }

  function CreateBug(w: World, p: ProjectId, reporter: UserId, m: Option<Member>, fields: Content, now: int): World {
    if CreateBugRefusal(w, p, m).Some? then w
    else
      var bug := NewBug(w, p, reporter, fields, now);
      w.(projects := w.projects[p := w.projects[p].(nextBugNumber := bug.number + 1)],
         bugs := w.bugs + [bug],
         log := w.log + Entries(|w.bugs|, Some(reporter), now, [Created(bug.key)]))
  }

  function Cleared(row: Bug, u: UserId): Bug {
    if row.assignee == Some(u) then row.(assignee := None, version := row.version + 1) else row
  }

  /** The activity rows bulk-created for the bugs among the first `n` that were assigned to `u`. */
  function ClearedEntries(bugs: seq<Bug>, u: UserId, email: string, now: int, n: nat): seq<Activity>
    requires n <= |bugs|
  {
    if n == 0 then []
    else
      ClearedEntries(bugs, u, email, now, n - 1) +
      if bugs[n - 1].assignee == Some(u) then [Activity(n - 1, None, now, Unassigned(email))] else []
  }

  function ClearedBugs(bugs: seq<Bug>, u: UserId): seq<Bug> {
    seq(|bugs|, i requires 0 <= i < |bugs| => Cleared(bugs[i], u))
  }

  function ClearBugAssignments(c: Config, w: World, u: UserId, now: int): World {
    w.(bugs := ClearedBugs(w.bugs, u),
       log := w.log + ClearedEntries(w.bugs, u, c.email(u), now, |w.bugs|))
  }

  function ClearProjectLeadership(w: World, u: UserId): World {
    w.(projects := seq(|w.projects|, i requires 0 <= i < |w.projects| =>
                         if w.projects[i].lead == Some(u) then w.projects[i].(lead := None) else w.projects[i]))
  }
}
