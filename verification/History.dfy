/** Whole runs of the tracker: any interleaving of service calls, each atomic under its row lock.

    The activity log is read back as events of one bug. Proved over every run: the log replays
    each earlier state of a bug to every later one, versions determine the shared state, and of all calls
    quoting one version at most one takes effect. */
module History {
  import opened Base
  import opened Workflow
  import opened Relationships
  import opened Tracker
  import opened BugServices
  import opened MemberServices

  datatype Op =
    | Call(bug: BugId, actor: Option<UserId>, membership: Option<Member>, expected: nat, now: int, request: Request)
    | NewBug(project: ProjectId, reporter: UserId, membership: Option<Member>, fields: Content, now: int)
    | NewProject(key: string, lead: Option<UserId>)
    | ChangeLead(project: ProjectId, lead: Option<UserId>)
    | FreezeProject(project: ProjectId, now: int)
    | ThawProject(project: ProjectId)
    | Joins(user: UserId, role: Role)
    | ChangesRole(user: UserId, role: Role, bypassDemo: bool)
    | Leaves(user: UserId, now: int)

  function Step(c: Config, w: World, op: Op): World {
    match op
    case Call(b, actor, m, expected, now, q) => Serve(c, w, b, actor, m, expected, now, q)
    case NewBug(p, reporter, m, fields, now) => CreateBug(w, p, reporter, m, fields, now)
    case NewProject(key, lead) => CreateProject(w, key, lead)
    case ChangeLead(p, lead) => SetLead(w, p, lead)
    case FreezeProject(p, now) => ArchiveProject(w, p, now)
    case ThawProject(p) => RestoreProject(w, p)
    case Joins(u, role) => Join(w, u, role)
    case ChangesRole(u, role, bypassDemo) => ChangeMemberRole(c, w, u, role, bypassDemo)
    case Leaves(u, now) => RemoveMember(c, w, u, now)
  }

  function Run(c: Config, w: World, ops: seq<Op>): World {
    if ops == [] then w else Step(c, Run(c, w, ops[..|ops| - 1]), Last(ops))
  }

  // ---------------------------------------------------------------------------------------------
  // The log of one bug

  function LogOf(log: seq<Activity>, b: BugId): seq<Event> {
    if log == [] then []
    else LogOf(log[..|log| - 1], b) + if Last(log).bug == b then [Last(log).event] else []
  }

  lemma {:induction false} LogOfConcat(l: seq<Activity>, k: seq<Activity>, b: BugId)
    ensures LogOf(l + k, b) == LogOf(l, b) + LogOf(k, b)
  {
    if k == [] {
      assert l + k == l;
    } else {
      LogOfConcat(l, k[..|k| - 1], b);
      assert (l + k)[..|l + k| - 1] == l + k[..|k| - 1];
    }
  }

  lemma {:induction false} LogOfEntries(b: BugId, actor: Option<UserId>, now: int, events: seq<Event>, a: BugId)
    ensures LogOf(Entries(b, actor, now, events), a) == if a == b then events else []
  {
    if events != [] {
      var es := Entries(b, actor, now, events);
      assert es[..|es| - 1] == Entries(b, actor, now, events[..|events| - 1]);
      LogOfEntries(b, actor, now, events[..|events| - 1], a);
    }
  }

  lemma LogOfOne(a: Activity, b: BugId)
    ensures LogOf([a], b) == if a.bug == b then [a.event] else []
  {
    assert [a][..0] == [];
  }

  lemma {:induction false} LogOfCleared(bugs: seq<Bug>, u: UserId, email: string, now: int, n: nat, b: BugId)
    requires n <= |bugs|
    ensures LogOf(ClearedEntries(bugs, u, email, now, n), b)
         == if b < n && bugs[b].assignee == Some(u) then [Unassigned(email)] else []
  {
    if n > 0 {
      LogOfCleared(bugs, u, email, now, n - 1, b);
      if bugs[n - 1].assignee == Some(u) {
        var last := Activity(n - 1, None, now, Unassigned(email));
        LogOfOne(last, b);
        LogOfConcat(ClearedEntries(bugs, u, email, now, n - 1), [last], b);
      } else {
        assert ClearedEntries(bugs, u, email, now, n - 1) + [] == ClearedEntries(bugs, u, email, now, n - 1);
      }
    }
  }

  // ---------------------------------------------------------------------------------------------
  // Replay

  /** What the log is claimed to determine about a bug. */
  datatype BugView = BugView(
    status: Status, assigneeEmail: Option<string>, archived: bool, tags: set<string>, fields: Content)

  function ApplyEvent(v: BugView, e: Event): BugView {
    match e
    case StatusChanged(_, to) => v.(status := to)
    case AssignedTo(_, email) => v.(assigneeEmail := Some(email))
    case Unassigned(_) => v.(assigneeEmail := None)
    case PriorityChanged(_, now) => v.(fields := v.fields[Priority := now])
    case SeverityChanged(_, now) => v.(fields := v.fields[Severity := now])
    case FieldUpdated(f, _, now) => v.(fields := v.fields[f := now])
    case TagAdded(name) => v.(tags := v.tags + {name})
    case TagRemoved(name) => v.(tags := v.tags - {name})
    case BugWasArchived => v.(archived := true)
    case BugWasRestored => v.(archived := false)
    case Created(_) => v
    case RelationshipAdded(_, _) => v
    case RelationshipRemoved(_, _) => v
  }

  function Replay(v: BugView, es: seq<Event>): BugView {
    if es == [] then v else ApplyEvent(Replay(v, es[..|es| - 1]), Last(es))
  }

  lemma {:induction false} ReplayConcat(v: BugView, es: seq<Event>, fs: seq<Event>)
    ensures Replay(v, es + fs) == Replay(Replay(v, es), fs)
  {
    if fs == [] {
      assert es + fs == es;
    } else {
      ReplayConcat(v, es, fs[..|fs| - 1]);
      assert (es + fs)[..|es + fs| - 1] == es + fs[..|fs| - 1];
    }
  }

  /** The STATUS_CHANGED events are a contiguous path of the matrix, starting at the status of `v`. */
  ghost predicate Chained(m: Matrix, v: BugView, es: seq<Event>) {
    forall i | 0 <= i < |es| && es[i].StatusChanged? ::
      es[i].fromStatus == Replay(v, es[..i]).status && IsValidTransition(m, es[i].fromStatus, es[i].toStatus)
  }

  lemma ChainedConcat(m: Matrix, v: BugView, es: seq<Event>, fs: seq<Event>)
    requires Chained(m, v, es) && Chained(m, Replay(v, es), fs)
    ensures Chained(m, v, es + fs)
  {
    var all := es + fs;
    forall i | 0 <= i < |all| && all[i].StatusChanged?
      ensures all[i].fromStatus == Replay(v, all[..i]).status &&
              IsValidTransition(m, all[i].fromStatus, all[i].toStatus)
    {
      if i < |es| {
        assert all[..i] == es[..i];
      } else {
        assert all[..i] == es + fs[..i - |es|];
        ReplayConcat(v, es, fs[..i - |es|]);
      }
    }
  }

  function TagNames(tags: seq<Tag>, ids: set<TagId>): set<string> {
    set t | t in ids && t < |tags| :: tags[t].name
  }

  function ViewOf(c: Config, tags: seq<Tag>, row: Bug): BugView {
    BugView(row.status, if row.assignee.Some? then Some(c.email(row.assignee.value)) else None,
            row.archivedAt.Some?, TagNames(tags, row.tags), row.fields)
  }

  function MatrixOf(c: Config, row: Bug): Matrix {
    TransitionMatrix(c.providers, row.project)
  }

  /** References stay inside their tables, and tag names are distinct because normalized names are. */
  ghost predicate TablesSound(c: Config, w: World) {
    && TagsSound(c, w.tags)
    && (forall b | 0 <= b < |w.bugs| :: RowSound(w, w.bugs[b]))
    && (forall i | 0 <= i < |w.log| :: w.log[i].bug < |w.bugs|)
  }

  ghost predicate TagsSound(c: Config, tags: seq<Tag>) {
    && (forall t | 0 <= t < |tags| :: tags[t].normalized == c.lower(tags[t].name))
    && (forall s, t | 0 <= s < |tags| && 0 <= t < |tags| :: tags[s].normalized == tags[t].normalized ==> s == t)
  }

  ghost predicate RowSound(w: World, row: Bug) {
    && row.project < |w.projects|
    && (forall t | t in row.tags :: t < |w.tags|)
    && (forall f: Field :: f in row.fields)
  }

  // ---------------------------------------------------------------------------------------------
  // One effect on one bug

  ghost predicate SameIdentity(r: Bug, s: Bug) {
    r.project == s.project && r.number == s.number && r.key == s.key && r.reporter == s.reporter &&
    r.createdAt == s.createdAt
  }

  /** Nothing happened, or one version went by and the new events account for the new row. */
  ghost predicate Accounts(c: Config, tags: seq<Tag>, row: Bug, now: Bug, es: seq<Event>) {
    || (now == row && es == [])
    || (&& now.version == row.version + 1
        && es != []
        && SameIdentity(row, now)
        && Replay(ViewOf(c, tags, row), es) == ViewOf(c, tags, now)
        && Chained(MatrixOf(c, row), ViewOf(c, tags, row), es))
  }

  lemma ReplayOne(v: BugView, e: Event)
    ensures Replay(v, [e]) == ApplyEvent(v, e)
  {
    assert [e][..0] == [];
  }

  /** A single event that is not a status change. */
  lemma OneEventAccounts(c: Config, tags: seq<Tag>, row: Bug, now: Bug, e: Event)
    requires now.version == row.version + 1 && SameIdentity(row, now) && !e.StatusChanged?
    requires ApplyEvent(ViewOf(c, tags, row), e) == ViewOf(c, tags, now)
    ensures Accounts(c, tags, row, now, [e])
  {
    ReplayOne(ViewOf(c, tags, row), e);
  }

  /** One more changed field, replayed. */
  lemma ReplayOneChange(v: BugView, es: seq<Event>, f: Field, was: string, now: string)
    requires f in Replay(v, es).fields
    ensures Replay(v, es + [ChangeEvent(f, was, now)])
         == Replay(v, es).(fields := Replay(v, es).fields[f := now])
  {
    ReplayConcat(v, es, [ChangeEvent(f, was, now)]);
    ReplayOne(Replay(v, es), ChangeEvent(f, was, now));
  }

  lemma {:induction false} ReplayChanges(v: BugView, fields: Content, todo: seq<Field>, n: nat)
    requires NoRepeats(todo) && n <= |todo|
    ensures Replay(v, ChangeEvents(v.fields, fields, todo[..n]))
      == v.(fields := OverwriteSome(v.fields, fields, todo[..n]))
  {
    if n == 0 {
      assert OverwriteSome(v.fields, fields, todo[..0]) == v.fields;
    } else {
      ReplayChanges(v, fields, todo, n - 1);
      var f := todo[n - 1];
      var es := ChangeEvents(v.fields, fields, todo[..n - 1]);
      AssignOneMore(v.fields, fields, todo, n - 1);
      if IsChanged(v.fields, fields, f) {
        ReplayOneChange(v, es, f, v.fields[f], fields[f]);
      } else {
        assert es + [] == es;
      }
    }
  }

  lemma {:induction false} ChangesAreNotStatusChanges(was: Content, fields: Content, todo: seq<Field>)
    ensures forall e | e in ChangeEvents(was, fields, todo) :: !e.StatusChanged?
  {
    if todo != [] {
      ChangesAreNotStatusChanges(was, fields, todo[..|todo| - 1]);
    }
  }

  lemma UpdateAccounts(c: Config, w: World, row: Bug, fields: Content)
    ensures var e := UpdateBugEffect(w, row, fields);
            Accounts(c, w.tags, row, e.row, e.events)
  {
    EveryFieldIsListed(row.fields, fields);
    ReplayChanges(ViewOf(c, w.tags, row), fields, ALL_FIELDS, |ALL_FIELDS|);
    assert ALL_FIELDS[..|ALL_FIELDS|] == ALL_FIELDS;
    ChangesAreNotStatusChanges(row.fields, fields, ALL_FIELDS);
  }

  /** Events that leave the status alone are chained by default. */
  lemma QuietThenChange(m: Matrix, v: BugView, quiet: seq<Event>, to: Status)
    requires forall e | e in quiet :: !e.StatusChanged?
    requires Replay(v, quiet).status == v.status && IsValidTransition(m, v.status, to)
    ensures Replay(v, quiet + [StatusChanged(v.status, to)]) == Replay(v, quiet).(status := to)
    ensures Chained(m, v, quiet + [StatusChanged(v.status, to)])
  {
    var es := quiet + [StatusChanged(v.status, to)];
    assert es[..|quiet|] == quiet;
    forall i | 0 <= i < |quiet| ensures !es[i].StatusChanged? {
      assert quiet[i] in quiet;
    }
  }

  lemma LinkReplays(w: World, v: BugView, target: Option<BugId>)
    ensures Replay(v, LinkEvents(w, target)) == v
  {
    if LinkEvents(w, target) != [] {
      ReplayOne(v, LinkEvents(w, target)[0]);
    }
  }

  lemma TransitionAccounts(
    c: Config, w: World, b: BugId, row: Bug, newStatus: Status,
    duplicateOf: Option<BugId>, arg: AssigneeArg, relId: RelId, now: int)
    requires IsValidTransition(MatrixOf(c, row), row.status, newStatus)
    ensures var e := TransitionBugEffect(c, w, b, row, newStatus, duplicateOf, arg, relId, now);
            Accounts(c, w.tags, row, e.row, e.events)
  {
    var e := TransitionBugEffect(c, w, b, row, newStatus, duplicateOf, arg, relId, now);
    var target := if newStatus == Duplicate then duplicateOf else None;
    var assignee := AssigneeAfter(row, arg);
    var v := ViewOf(c, w.tags, row);
    var assignment := if row.assignee != assignee then [AssignmentEvent(c, "", assignee)] else [];
    var quiet := assignment + LinkEvents(w, target);
    if assignment != [] {
      ReplayOne(v, assignment[0]);
    }
    ReplayConcat(v, assignment, LinkEvents(w, target));
    LinkReplays(w, Replay(v, assignment), target);
    QuietThenChange(MatrixOf(c, row), v, quiet, newStatus);
    assert e.events == quiet + [StatusChanged(v.status, newStatus)];
  }

  lemma TagNamesAreInjective(c: Config, tags: seq<Tag>, ids: set<TagId>, t: TagId)
    requires TagsSound(c, tags) && t < |tags|
    ensures t !in ids ==> tags[t].name !in TagNames(tags, ids)
    ensures TagNames(tags, ids + {t}) == TagNames(tags, ids) + {tags[t].name}
    ensures TagNames(tags, ids - {t}) == TagNames(tags, ids) - {tags[t].name}
  {
    forall s | s in ids && s < |tags| && tags[s].name == tags[t].name ensures s == t {
      assert tags[s].normalized == tags[t].normalized;
    }
  }

  lemma AddTagAccounts(c: Config, w: World, row: Bug, name: string)
    requires TagsSound(c, w.tags) && RowSound(w, row)
    ensures var e := AddTagEffect(c, w, row, name);
            && TagsSound(c, e.tags) && w.tags <= e.tags
            && Accounts(c, e.tags, row, e.row, e.events)
            && (e.events == [] ==> e.tags == w.tags)
  {
    var e := AddTagEffect(c, w, row, name);
    var t := FindTag(w.tags, c.lower(name));
    TagNamesAreInjective(c, e.tags, row.tags, t);
    if t !in row.tags {
      OneEventAccounts(c, e.tags, row, e.row, TagAdded(e.tags[t].name));
    }
  }

  lemma RemoveTagAccounts(c: Config, w: World, row: Bug, t: TagId)
    requires TagsSound(c, w.tags)
    ensures var e := RemoveTagEffect(w, row, t);
            Accounts(c, w.tags, row, e.row, e.events)
  {
    if t < |w.tags| && t in row.tags {
      TagNamesAreInjective(c, w.tags, row.tags, t);
      OneEventAccounts(c, w.tags, row, RemoveTagEffect(w, row, t).row, TagRemoved(w.tags[t].name));
    }
  }

  predicate IsPlain(q: Request) {
    q.AssignBug? || q.ArchiveBug? || q.RestoreBug? || q.CreateRelationship? || q.RemoveRelationship?
  }

  /** The services that log at most one event and leave the tags alone. */
  lemma PlainEffectAccounts(c: Config, w: World, b: BugId, row: Bug, m: Option<Member>, now: int, q: Request)
    requires IsPlain(q) && LockedRefusal(c, w, b, row, m, q).None?
    ensures var e := EffectOf(c, w, b, row, m, now, q);
            && e.tags == w.tags
            && Accounts(c, w.tags, row, e.row, e.events)
            && (e.events == [] ==> e.rels == w.rels)
  {
    var e := EffectOf(c, w, b, row, m, now, q);
    if e.events != [] {
      assert e.events == [e.events[0]];
      OneEventAccounts(c, w.tags, row, e.row, e.events[0]);
    }
  }

  /** Whatever a service does to its bug, its events account for it. */
  lemma EffectAccounts(c: Config, w: World, b: BugId, row: Bug, m: Option<Member>, now: int, q: Request)
    requires TagsSound(c, w.tags) && RowSound(w, row)
    requires LockedRefusal(c, w, b, row, m, q).None?
    ensures var e := EffectOf(c, w, b, row, m, now, q);
            && TagsSound(c, e.tags) && w.tags <= e.tags
            && Accounts(c, e.tags, row, e.row, e.events)
            && (e.events == [] ==> e.tags == w.tags && e.rels == w.rels)
  {
    match q
    case UpdateBug(fields) => UpdateAccounts(c, w, row, fields);
    case TransitionBug(newStatus, duplicateOf, assignee, relId) =>
      TransitionAccounts(c, w, b, row, newStatus, duplicateOf, assignee, relId, now);
    case AddTag(name) => AddTagAccounts(c, w, row, c.strip(name));
    case RemoveTag(tag) => RemoveTagAccounts(c, w, row, tag);
    case _ => PlainEffectAccounts(c, w, b, row, m, now, q);
  }

  lemma EffectKeepsRowSound(c: Config, w: World, b: BugId, row: Bug, m: Option<Member>, now: int, q: Request)
    requires RowSound(w, row) && LockedRefusal(c, w, b, row, m, q).None?
    ensures var e := EffectOf(c, w, b, row, m, now, q);
            RowSound(w.(tags := e.tags), e.row)
  {
  }

  // ---------------------------------------------------------------------------------------------
  // One step of the whole tracker, seen from one bug

  lemma ViewIsStable(c: Config, tags: seq<Tag>, more: seq<Tag>, row: Bug)
    requires tags <= more && forall t | t in row.tags :: t < |tags|
    ensures ViewOf(c, tags, row) == ViewOf(c, more, row)
  {
    assert TagNames(tags, row.tags) == TagNames(more, row.tags);
  }

  ghost predicate StepAccounts(c: Config, w: World, v: World, b: BugId)
    requires b < |w.bugs|
  {
    && w.tags <= v.tags
    && |w.bugs| <= |v.bugs|
    && exists es ::
         LogOf(v.log, b) == LogOf(w.log, b) + es && Accounts(c, v.tags, w.bugs[b], v.bugs[b], es)
  }

  lemma QuietStepAccounts(c: Config, w: World, v: World, b: BugId)
    requires b < |w.bugs| <= |v.bugs| && w.tags <= v.tags
    requires v.bugs[b] == w.bugs[b] && LogOf(v.log, b) == LogOf(w.log, b)
    ensures StepAccounts(c, w, v, b)
  {
    assert LogOf(v.log, b) == LogOf(w.log, b) + [];
    assert Accounts(c, v.tags, w.bugs[b], v.bugs[b], []);
  }

  lemma CallAccounts(c: Config, w: World, op: Op, b: BugId)
    requires TablesSound(c, w) && b < |w.bugs| && op.Call?
    ensures StepAccounts(c, w, Step(c, w, op), b)
  {
    var v := Step(c, w, op);
    if Refusal(c, w, op.bug, op.membership, op.expected, op.request).Some? {
      QuietStepAccounts(c, w, v, b);
    } else {
      var row := w.bugs[op.bug];
      var e := EffectOf(c, w, op.bug, row, op.membership, op.now, op.request);
      EffectAccounts(c, w, op.bug, row, op.membership, op.now, op.request);
      var added := Entries(op.bug, op.actor, op.now, e.events);
      LogOfConcat(w.log, added, b);
      LogOfEntries(op.bug, op.actor, op.now, e.events, b);
      if b == op.bug {
        assert LogOf(v.log, b) == LogOf(w.log, b) + e.events;
      } else {
        assert LogOf(w.log, b) + [] == LogOf(w.log, b);
        QuietStepAccounts(c, w, v, b);
      }
    }
  }

  lemma LeaveChanges(c: Config, w: World, u: UserId, now: int, b: BugId)
    requires b < |w.bugs| && RemoveMemberRefusal(c, w, u).None?
    ensures var v := RemoveMember(c, w, u, now);
            && |v.bugs| == |w.bugs| && v.tags == w.tags
            && v.bugs[b] == Cleared(w.bugs[b], u)
            && v.log == w.log + ClearedEntries(w.bugs, u, c.email(u), now, |w.bugs|)
  {
  }

  lemma ClearAccounts(c: Config, w: World, v: World, u: UserId, b: BugId)
    requires b < |w.bugs| == |v.bugs| && v.tags == w.tags
    requires v.bugs[b] == Cleared(w.bugs[b], u)
    requires LogOf(v.log, b)
          == LogOf(w.log, b) + if w.bugs[b].assignee == Some(u) then [Unassigned(c.email(u))] else []
    ensures StepAccounts(c, w, v, b)
  {
    if w.bugs[b].assignee == Some(u) {
      OneEventAccounts(c, w.tags, w.bugs[b], v.bugs[b], Unassigned(c.email(u)));
    } else {
      assert LogOf(w.log, b) + [] == LogOf(w.log, b);
      QuietStepAccounts(c, w, v, b);
    }
  }

  lemma LeaveAccounts(c: Config, w: World, u: UserId, now: int, b: BugId)
    requires b < |w.bugs|
    ensures StepAccounts(c, w, RemoveMember(c, w, u, now), b)
  {
    var v := RemoveMember(c, w, u, now);
    if RemoveMemberRefusal(c, w, u).Some? {
      QuietStepAccounts(c, w, v, b);
    } else {
      LeaveChanges(c, w, u, now, b);
      LogOfConcat(w.log, ClearedEntries(w.bugs, u, c.email(u), now, |w.bugs|), b);
      LogOfCleared(w.bugs, u, c.email(u), now, |w.bugs|, b);
      ClearAccounts(c, w, v, u, b);
    }
  }

  lemma AnyStepAccounts(c: Config, w: World, op: Op, b: BugId)
    requires TablesSound(c, w) && b < |w.bugs|
    ensures StepAccounts(c, w, Step(c, w, op), b)
  {
    match op
    case Call(_, _, _, _, _, _) => CallAccounts(c, w, op, b);
    case Leaves(u, now) => LeaveAccounts(c, w, u, now, b);
    case NewBug(p, reporter, m, fields, now) =>
      if CreateBugRefusal(w, p, m).None? {
        var key := BugServices.NewBug(w, p, reporter, fields, now).key;
        LogOfConcat(w.log, Entries(|w.bugs|, Some(reporter), now, [Created(key)]), b);
        LogOfEntries(|w.bugs|, Some(reporter), now, [Created(key)], b);
        assert LogOf(w.log, b) + [] == LogOf(w.log, b);
      }
      QuietStepAccounts(c, w, Step(c, w, op), b);
    case _ => QuietStepAccounts(c, w, Step(c, w, op), b);
  }

  lemma StepKeepsTablesSound(c: Config, w: World, op: Op)
    requires TablesSound(c, w)
    ensures TablesSound(c, Step(c, w, op))
  {
    match op
    case Call(b, actor, m, expected, now, q) =>
      if Refusal(c, w, b, m, expected, q).None? {
        EffectAccounts(c, w, b, w.bugs[b], m, now, q);
        EffectKeepsRowSound(c, w, b, w.bugs[b], m, now, q);
      }
    case NewBug(p, reporter, m, fields, now) =>
      if CreateBugRefusal(w, p, m).None? {
        NewBugIsSound(w, p, reporter, fields, now);
      }
    case Leaves(u, now) =>
      ClearedEntriesAreInTable(w.bugs, u, c.email(u), now, |w.bugs|);
    case _ =>
  }

  lemma NewBugIsSound(w: World, p: ProjectId, reporter: UserId, fields: Content, now: int)
    requires p < |w.projects|
    ensures RowSound(w, BugServices.NewBug(w, p, reporter, fields, now))
  {
    EveryFieldIsListed(fields, fields);
  }

  lemma {:induction false} ClearedEntriesAreInTable(bugs: seq<Bug>, u: UserId, email: string, now: int, n: nat)
    requires n <= |bugs|
    ensures forall i | 0 <= i < |ClearedEntries(bugs, u, email, now, n)| ::
              ClearedEntries(bugs, u, email, now, n)[i].bug < n
  {
    if n > 0 {
      ClearedEntriesAreInTable(bugs, u, email, now, n - 1);
    }
  }

  // ---------------------------------------------------------------------------------------------
  // From any moment of a run to any later one

  ghost function NewEvents(w: World, v: World, b: BugId): seq<Event>
    requires LogOf(w.log, b) <= LogOf(v.log, b)
  {
    LogOf(v.log, b)[|LogOf(w.log, b)|..]
  }

  /** `v` is a later state than `w`: what was logged about `b` in between replays its view in `w` to
      its view in `v` along a path of its matrix, and its version counts that something happened. */
  ghost predicate Follows(c: Config, w: World, v: World, b: BugId) {
    && b < |w.bugs| && b < |v.bugs|
    && w.tags <= v.tags
    && LogOf(w.log, b) <= LogOf(v.log, b)
    && SameIdentity(w.bugs[b], v.bugs[b])
    && Replay(ViewOf(c, w.tags, w.bugs[b]), NewEvents(w, v, b)) == ViewOf(c, v.tags, v.bugs[b])
    && Chained(MatrixOf(c, w.bugs[b]), ViewOf(c, w.tags, w.bugs[b]), NewEvents(w, v, b))
    && w.bugs[b].version <= v.bugs[b].version
    && (w.bugs[b].version == v.bugs[b].version ==> v.bugs[b] == w.bugs[b] && NewEvents(w, v, b) == [])
  }

  lemma FollowsSelf(c: Config, w: World, b: BugId)
    requires b < |w.bugs|
    ensures Follows(c, w, w, b)
  {
    assert NewEvents(w, w, b) == [];
  }

  lemma FollowsStep(c: Config, w: World, op: Op, b: BugId)
    requires TablesSound(c, w) && b < |w.bugs|
    ensures Follows(c, w, Step(c, w, op), b)
  {
    var v := Step(c, w, op);
    AnyStepAccounts(c, w, op, b);
    var es :| LogOf(v.log, b) == LogOf(w.log, b) + es && Accounts(c, v.tags, w.bugs[b], v.bugs[b], es);
    assert RowSound(w, w.bugs[b]);
    ViewIsStable(c, w.tags, v.tags, w.bugs[b]);
    assert NewEvents(w, v, b) == es;
  }

  lemma FollowsTrans(c: Config, w: World, v: World, u: World, b: BugId)
    requires Follows(c, w, v, b) && Follows(c, v, u, b)
    ensures Follows(c, w, u, b)
  {
    var es, fs := NewEvents(w, v, b), NewEvents(v, u, b);
    assert LogOf(u.log, b) == LogOf(v.log, b) + fs && LogOf(v.log, b) == LogOf(w.log, b) + es;
    assert NewEvents(w, u, b) == es + fs;
    var view := ViewOf(c, w.tags, w.bugs[b]);
    ReplayConcat(view, es, fs);
    ChainedConcat(MatrixOf(c, w.bugs[b]), view, es, fs);
  }

  lemma {:induction false} RunFollows(c: Config, w: World, ops: seq<Op>)
    requires TablesSound(c, w)
    ensures TablesSound(c, Run(c, w, ops))
    ensures forall b: BugId | b < |w.bugs| :: Follows(c, w, Run(c, w, ops), b)
  {
    if ops == [] {
      forall b: BugId | b < |w.bugs| ensures Follows(c, w, Run(c, w, ops), b) {
        FollowsSelf(c, w, b);
      }
    } else {
      var before := Run(c, w, ops[..|ops| - 1]);
      RunFollows(c, w, ops[..|ops| - 1]);
      StepKeepsTablesSound(c, before, Last(ops));
      forall b: BugId | b < |w.bugs| ensures Follows(c, w, Run(c, w, ops), b) {
        assert Follows(c, w, before, b);
        FollowsStep(c, before, Last(ops), b);
        FollowsTrans(c, w, before, Run(c, w, ops), b);
      }
    }
  }

  lemma {:induction false} RunConcat(c: Config, w: World, ops: seq<Op>, more: seq<Op>)
    ensures Run(c, w, ops + more) == Run(c, Run(c, w, ops), more)
  {
    if more == [] {
      assert ops + more == ops;
    } else {
      RunConcat(c, w, ops, more[..|more| - 1]);
      assert (ops + more)[..|ops + more| - 1] == ops + more[..|more| - 1];
    }
  }

  /** Log replay: take any two moments of any run; the events logged about a bug in between turn its
      first view into its second, and its status changes are a path of its transition matrix. */
  lemma LogReplays(c: Config, w: World, ops: seq<Op>, i: nat, j: nat, b: BugId)
    requires TablesSound(c, w) && i <= j <= |ops| && b < |Run(c, w, ops[..i]).bugs|
    ensures Follows(c, Run(c, w, ops[..i]), Run(c, w, ops[..j]), b)
  {
    RunFollows(c, w, ops[..i]);
    RunFollows(c, Run(c, w, ops[..i]), ops[i..j]);
    assert ops[..j] == ops[..i] + ops[i..j];
    RunConcat(c, w, ops[..i], ops[i..j]);
  }

  // ---------------------------------------------------------------------------------------------
  // Optimistic versions

  /** Two observations of a bug with the same version agree on every shared column and on its log. */
  lemma VersionDeterminesState(c: Config, w: World, ops: seq<Op>, i: nat, j: nat, b: BugId)
    requires TablesSound(c, w) && i <= |ops| && j <= |ops|
    requires b < |Run(c, w, ops[..i]).bugs| && b < |Run(c, w, ops[..j]).bugs|
    requires Run(c, w, ops[..i]).bugs[b].version == Run(c, w, ops[..j]).bugs[b].version
    ensures Run(c, w, ops[..i]).bugs[b] == Run(c, w, ops[..j]).bugs[b]
    ensures LogOf(Run(c, w, ops[..i]).log, b) == LogOf(Run(c, w, ops[..j]).log, b)
  {
    if i <= j {
      LogReplays(c, w, ops, i, j, b);
    } else {
      LogReplays(c, w, ops, j, i, b);
    }
  }

  ghost predicate TakesEffect(c: Config, w: World, op: Op)
    requires op.Call?
  {
    op.bug < |w.bugs| && Step(c, w, op).bugs[op.bug] != w.bugs[op.bug]
  }

  /** A call either takes effect, raising the version of its bug by exactly one and logging at least
      one event about it, or it changes no table at all. */
  lemma EffectiveOrNoOp(c: Config, w: World, op: Op)
    requires TablesSound(c, w) && op.Call?
    ensures var v := Step(c, w, op);
            if TakesEffect(c, w, op)
            then
              && w.bugs[op.bug].version == op.expected
              && v.bugs[op.bug].version == op.expected + 1
              && LogOf(w.log, op.bug) < LogOf(v.log, op.bug)
            else v == w
  {
    var v := Step(c, w, op);
    if op.bug < |w.bugs| {
      CallAccounts(c, w, op, op.bug);
      if Refusal(c, w, op.bug, op.membership, op.expected, op.request).None? {
        var row := w.bugs[op.bug];
        var e := EffectOf(c, w, op.bug, row, op.membership, op.now, op.request);
        EffectAccounts(c, w, op.bug, row, op.membership, op.now, op.request);
        if e.events == [] {
          assert w.bugs[op.bug := row] == w.bugs;
          assert w.log + Entries(op.bug, op.actor, op.now, []) == w.log;
        }
      }
    }
  }

  /** No lost updates: of all calls quoting one version of a bug, at most one takes effect. */
  lemma AtMostOneWriterPerVersion(c: Config, w: World, ops: seq<Op>, i: nat, j: nat)
    requires TablesSound(c, w) && i < j < |ops| && ops[i].Call? && ops[j].Call?
    requires ops[i].bug == ops[j].bug && ops[i].expected == ops[j].expected
    ensures !(TakesEffect(c, Run(c, w, ops[..i]), ops[i]) && TakesEffect(c, Run(c, w, ops[..j]), ops[j]))
  {
    var wi, wj := Run(c, w, ops[..i]), Run(c, w, ops[..j]);
    RunFollows(c, w, ops[..i]);
    RunFollows(c, w, ops[..j]);
    EffectiveOrNoOp(c, wi, ops[i]);
    EffectiveOrNoOp(c, wj, ops[j]);
    if TakesEffect(c, wi, ops[i]) {
      assert ops[..i + 1][..i] == ops[..i];
      CallAccounts(c, wi, ops[i], ops[i].bug);
      LogReplays(c, w, ops, i + 1, j, ops[i].bug);
    }
  }
}
