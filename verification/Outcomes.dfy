/** What an accepted call leaves behind, told without the functions that compute it: every table, the whole
    row, and the entries written. */
module Outcomes {
  import opened Base
  import opened Workflow
  import opened Relationships
  import opened Tracker
  import opened BugServices
  import opened MemberServices
  import opened History
  import opened Lifecycle
  import Administrators

  predicate IsAccepted(c: Config, w: World, op: Op) {
    op.Call? && Refusal(c, w, op.bug, op.membership, op.expected, op.request).None?
  }

  /** A call that is refused changes nothing. */
  lemma RefusedCallChangesNothing(c: Config, w: World, op: Op)
    requires op.Call? && !IsAccepted(c, w, op)
    ensures Step(c, w, op) == w
  {
  }

  lemma EntriesOfOne(b: BugId, actor: Option<UserId>, now: int, e: Event)
    ensures Entries(b, actor, now, [e]) == [Activity(b, actor, now, e)]
  {
  }

  lemma EntriesConcat(b: BugId, actor: Option<UserId>, now: int, es: seq<Event>, fs: seq<Event>)
    ensures Entries(b, actor, now, es + fs) == Entries(b, actor, now, es) + Entries(b, actor, now, fs)
  {
  }

  // ---------------------------------------------------------------------------------------------
  // Relationship rows as both sides list them

  lemma AddedRowIsListed(rels: Rels, id: RelId, r: Rel, x: BugId)
    requires id !in rels
    ensures ViewsOf(rels[id := r], x) == ViewsOf(rels, x) + if x in {r.from, r.to} then {ViewFrom(x, id, r)} else {}
  {
    var now := rels[id := r];
    forall v ensures v in ViewsOf(now, x) <==>
                     v in ViewsOf(rels, x) || (x in {r.from, r.to} && v == ViewFrom(x, id, r)) {
      if v in ViewsOf(rels, x) {
        var i :| i in rels && x in {rels[i].from, rels[i].to} && v == ViewFrom(x, i, rels[i]);
        assert now[i] == rels[i];
      }
      if x in {r.from, r.to} {
        assert now[id] == r;
      }
    }
  }

  lemma RemovedRowIsNotListed(rels: Rels, id: RelId, x: BugId)
    ensures ViewsOf(rels - {id}, x) == set v | v in ViewsOf(rels, x) && v.id != id
  {
    var now := rels - {id};
    forall v ensures v in ViewsOf(now, x) <==> v in ViewsOf(rels, x) && v.id != id {
      if v in ViewsOf(rels, x) {
        var i :| i in rels && x in {rels[i].from, rels[i].to} && v == ViewFrom(x, i, rels[i]);
        assert i != id ==> now[i] == rels[i];
      }
    }
  }

  // ---------------------------------------------------------------------------------------------
  // Transition and assignment

  /** An accepted transition: the named status; the assignee the call names, if it names one, and otherwise
      the old one; the stamps of the status; the next version; and nothing else about any bug, member,
      project or tag. The rows stay, but for the new link of a marking. */
  lemma TransitionOutcome(c: Config, w: World, op: Op, to: Status, target: Option<BugId>, arg: AssigneeArg, id: RelId)
    requires IsAccepted(c, w, op) && op.request == TransitionBug(to, target, arg, id)
    ensures op.bug < |w.bugs|
    ensures var row, v := w.bugs[op.bug], Step(c, w, op);
            && v == w.(bugs := v.bugs, rels := v.rels, log := v.log)
            && v.bugs == w.bugs[op.bug := row.(
                 status := to, version := row.version + 1,
                 assignee := match arg case Unset => row.assignee case SetTo(u) => u,
                 resolvedAt := if to in {Resolved, Duplicate, CannotReproduce, WontFix} then Some(op.now)
                               else if to == Reopened then None else row.resolvedAt,
                 closedAt := if to == Closed then Some(op.now) else if to == Reopened then None else row.closedAt)]
            && (to != Duplicate ==> v.rels == w.rels)
            && (to == Duplicate ==>
                  && target.Some? && target.value < |w.bugs|
                  && (exists i :: i in v.rels && v.rels[i] == Rel(op.bug, target.value, DuplicateOf))
                  && v.rels in {w.rels, w.rels[id := Rel(op.bug, target.value, DuplicateOf)]})
            && v.log == w.log
                 + (if v.bugs[op.bug].assignee == row.assignee then []
                    else [Activity(op.bug, op.actor, op.now,
                                   match v.bugs[op.bug].assignee
                                   case Some(u) => AssignedTo("", c.email(u))
                                   case None => Unassigned(""))])
                 + (if to != Duplicate then []
                    else [Activity(op.bug, op.actor, op.now, RelationshipAdded(DuplicateOf, w.bugs[target.value].key))])
                 + [Activity(op.bug, op.actor, op.now, StatusChanged(row.status, to))]
  {
    TransitionEntries(c, w, op, to, target, arg, id);
    TransitionRow(c, w, op, to, target, arg, id);
    TransitionRels(c, w, op, to, target, arg, id);
    if to == Duplicate {
      MarkingAddsTheLink(w.rels, op.bug, target.value, id);
    }
  }

  lemma TransitionRow(c: Config, w: World, op: Op, to: Status, target: Option<BugId>, arg: AssigneeArg, id: RelId)
    requires IsAccepted(c, w, op) && op.request == TransitionBug(to, target, arg, id)
    ensures op.bug < |w.bugs|
    ensures var row, v := w.bugs[op.bug], Step(c, w, op);
            && v == w.(bugs := v.bugs, rels := v.rels, log := v.log)
            && v.bugs == w.bugs[op.bug := row.(
                 status := to, version := row.version + 1,
                 assignee := match arg case Unset => row.assignee case SetTo(u) => u,
                 resolvedAt := if to in {Resolved, Duplicate, CannotReproduce, WontFix} then Some(op.now)
                               else if to == Reopened then None else row.resolvedAt,
                 closedAt := if to == Closed then Some(op.now) else if to == Reopened then None else row.closedAt)]
  {
  }

  lemma TransitionRels(c: Config, w: World, op: Op, to: Status, target: Option<BugId>, arg: AssigneeArg, id: RelId)
    requires IsAccepted(c, w, op) && op.request == TransitionBug(to, target, arg, id)
    ensures var v := Step(c, w, op);
            && (to != Duplicate ==> v.rels == w.rels)
            && (to == Duplicate ==>
                  && target.Some? && target.value < |w.bugs| && id !in w.rels
                  && v.rels == MarkDuplicate(w.rels, op.bug, target.value, id))
  {
  }

  lemma TransitionEntries(c: Config, w: World, op: Op, to: Status, target: Option<BugId>, arg: AssigneeArg, id: RelId)
    requires IsAccepted(c, w, op) && op.request == TransitionBug(to, target, arg, id)
    ensures op.bug < |w.bugs| && (to == Duplicate ==> target.Some? && target.value < |w.bugs|)
    ensures var row, now := w.bugs[op.bug], if arg.SetTo? then arg.user else w.bugs[op.bug].assignee;
            Step(c, w, op).log == w.log
              + (if now == row.assignee then []
                 else [Activity(op.bug, op.actor, op.now,
                                match now case Some(u) => AssignedTo("", c.email(u)) case None => Unassigned(""))])
              + (if to != Duplicate then []
                 else [Activity(op.bug, op.actor, op.now, RelationshipAdded(DuplicateOf, w.bugs[target.value].key))])
              + [Activity(op.bug, op.actor, op.now, StatusChanged(row.status, to))]
  {
    var row := w.bugs[op.bug];
    var assignee := AssigneeAfter(row, arg);
    var moved := if row.assignee != assignee then [AssignmentEvent(c, "", assignee)] else [];
    var linked := LinkEvents(w, if to == Duplicate then target else None);
    EntriesConcat(op.bug, op.actor, op.now, moved + linked, [StatusChanged(row.status, to)]);
    EntriesConcat(op.bug, op.actor, op.now, moved, linked);
    EntriesOfOne(op.bug, op.actor, op.now, StatusChanged(row.status, to));
    EntriesOfOne(op.bug, op.actor, op.now, AssignmentEvent(c, "", assignee));
    if to == Duplicate {
      EntriesOfOne(op.bug, op.actor, op.now, RelationshipAdded(DuplicateOf, w.bugs[target.value].key));
    }
    LogOfThree(w.log, Entries(op.bug, op.actor, op.now, moved), Entries(op.bug, op.actor, op.now, linked),
               Entries(op.bug, op.actor, op.now, [StatusChanged(row.status, to)]));
  }

  lemma LogOfThree(log: seq<Activity>, a: seq<Activity>, b: seq<Activity>, d: seq<Activity>)
    ensures log + (a + b + d) == log + a + b + d
  {
  }

  lemma MarkingAddsTheLink(rels: Rels, b: BugId, target: BugId, id: RelId)
    requires id !in rels
    ensures var now := MarkDuplicate(rels, b, target, id);
            && (exists i :: i in now && now[i] == Rel(b, target, DuplicateOf))
            && now in {rels, rels[id := Rel(b, target, DuplicateOf)]}
  {
    var now := MarkDuplicate(rels, b, target, id);
    if Edge(rels, b, target) {
      var i :| i in rels && rels[i] == Rel(b, target, DuplicateOf);
      assert i in now && now[i] == Rel(b, target, DuplicateOf);
    } else {
      assert now[id] == Rel(b, target, DuplicateOf);
    }
  }

  /** An accepted assignment to somebody else: that assignee, one version, one entry; to the same: nothing. */
  lemma AssignmentOutcome(c: Config, w: World, op: Op, user: Option<UserId>)
    requires IsAccepted(c, w, op) && op.request == AssignBug(user)
    ensures op.bug < |w.bugs|
    ensures var row, v := w.bugs[op.bug], Step(c, w, op);
            var from := if row.assignee.Some? then c.email(row.assignee.value) else "";
            if user == row.assignee then v == w
            else
              v == w.(bugs := w.bugs[op.bug := row.(assignee := user, version := row.version + 1)],
                      log := w.log + [Activity(op.bug, op.actor, op.now,
                                               if user.Some? then AssignedTo(from, c.email(user.value))
                                               else Unassigned(from))])
  {
    var row := w.bugs[op.bug];
    EntriesOfOne(op.bug, op.actor, op.now, AssignmentEvent(c, EmailOf(c, row.assignee), user));
    if user == row.assignee {
      assert w.log + Entries(op.bug, op.actor, op.now, []) == w.log && w.bugs[op.bug := row] == w.bugs;
    }
  }

  // ---------------------------------------------------------------------------------------------
  // Content

  /** The event reports that a field went from one text to another. */
  predicate Reports(e: Event, f: Field, from: string, to: string) {
    match e
    case PriorityChanged(a, b) => f == Priority && a == from && b == to
    case SeverityChanged(a, b) => f == Severity && a == from && b == to
    case FieldUpdated(g, a, b) => g == f && f != Priority && f != Severity && a == from && b == to
    case _ => false
  }

  /** The place of the reported field in the order in which an edit's fields are looked at. */
  function Place(e: Event): nat {
    match e
    case PriorityChanged(_, _) => 8
    case SeverityChanged(_, _) => 9
    case FieldUpdated(f, _, _) => PlaceOf(f)
    case _ => 10
  }

  function PlaceOf(f: Field): nat {
    match f
    case Title => 0
    case Description => 1
    case StepsToReproduce => 2
    case ExpectedResult => 3
    case ActualResult => 4
    case Environment => 5
    case Category => 6
    case DueDate => 7
    case Priority => 8
    case Severity => 9
  }

  ghost predicate InOrder(es: seq<Event>) {
    forall i, j | 0 <= i < j < |es| :: Place(es[i]) < Place(es[j])
  }

  lemma FieldsAreInOrder()
    ensures forall i | 0 <= i < |ALL_FIELDS| :: PlaceOf(ALL_FIELDS[i]) == i
  {
    assert PlaceOf(ALL_FIELDS[0]) == 0 && PlaceOf(ALL_FIELDS[1]) == 1 && PlaceOf(ALL_FIELDS[2]) == 2;
    assert PlaceOf(ALL_FIELDS[3]) == 3 && PlaceOf(ALL_FIELDS[4]) == 4 && PlaceOf(ALL_FIELDS[5]) == 5;
    assert PlaceOf(ALL_FIELDS[6]) == 6 && PlaceOf(ALL_FIELDS[7]) == 7 && PlaceOf(ALL_FIELDS[8]) == 8;
    assert PlaceOf(ALL_FIELDS[9]) == 9;
  }

  lemma {:induction false} ChangesAreInOrder(was: Content, fields: Content, todo: seq<Field>)
    requires forall i | 0 <= i < |todo| :: PlaceOf(todo[i]) == i
    ensures InOrder(ChangeEvents(was, fields, todo))
    ensures forall e <- ChangeEvents(was, fields, todo) :: Place(e) < |todo|
  {
    if todo != [] {
      var n := |todo| - 1;
      ChangesAreInOrder(was, fields, todo[..n]);
      if IsChanged(was, fields, todo[n]) {
        assert Place(ChangeEvent(todo[n], was[todo[n]], fields[todo[n]])) == n;
      } else {
        assert ChangeEvents(was, fields, todo[..n]) + [] == ChangeEvents(was, fields, todo[..n]);
      }
    }
  }

  lemma {:induction false} OneEntryEach(was: Content, fields: Content, todo: seq<Field>)
    requires NoRepeats(todo)
    ensures var es := ChangeEvents(was, fields, todo);
            && NoRepeats(es)
            && forall e: Event :: e in es <==> exists f ::
                 f in todo && f in was && f in fields && was[f] != fields[f] && Reports(e, f, was[f], fields[f])
  {
    if todo != [] {
      var n := |todo| - 1;
      OneEntryEach(was, fields, todo[..n]);
      var f, before := todo[n], ChangeEvents(was, fields, todo[..n]);
      assert todo == todo[..n] + [f];
      if IsChanged(was, fields, f) {
        var x := ChangeEvent(f, was[f], fields[f]);
        assert forall e: Event :: Reports(e, f, was[f], fields[f]) <==> e == x;
        assert x !in before;
      } else {
        assert before + [] == before;
      }
    }
  }

  /** An accepted edit: each given field has the given value and each other its old one; and if anything
      changed, one version and exactly one entry per changed field, with its old and its new text, in the order
      of the fields. */
  lemma EditOutcome(c: Config, w: World, op: Op, fields: Content)
    requires TablesSound(c, w) && IsAccepted(c, w, op) && op.request == UpdateBug(fields)
    ensures op.bug < |w.bugs|
    ensures var row, v := w.bugs[op.bug], Step(c, w, op);
            && (forall f: Field :: f in row.fields && f in v.bugs[op.bug].fields
                  && v.bugs[op.bug].fields[f] == if f in fields then fields[f] else row.fields[f])
            && v == w.(bugs := v.bugs, log := v.log)
            && v.bugs == w.bugs[op.bug := row.(
                 fields := v.bugs[op.bug].fields,
                 version := if v.bugs[op.bug].fields == row.fields then row.version else row.version + 1)]
            && w.log <= v.log && NoRepeats(v.log[|w.log|..])
            && (forall i, j | |w.log| <= i < j < |v.log| :: Place(v.log[i].event) < Place(v.log[j].event))
            && forall a: Activity :: a in v.log[|w.log|..] <==>
                 && a.bug == op.bug && a.actor == op.actor && a.at == op.now
                 && exists f: Field ::
                      f in row.fields && f in fields && row.fields[f] != fields[f]
                      && Reports(a.event, f, row.fields[f], fields[f])
  {
    EditRow(c, w, op, fields);
    EditEntries(c, w, op, fields);
  }

  lemma EditRow(c: Config, w: World, op: Op, fields: Content)
    requires TablesSound(c, w) && IsAccepted(c, w, op) && op.request == UpdateBug(fields)
    ensures op.bug < |w.bugs|
    ensures var row, v := w.bugs[op.bug], Step(c, w, op);
            && (forall f: Field :: f in row.fields && f in v.bugs[op.bug].fields
                  && v.bugs[op.bug].fields[f] == if f in fields then fields[f] else row.fields[f])
            && v == w.(bugs := v.bugs, log := v.log)
            && v.bugs == w.bugs[op.bug := row.(
                 fields := v.bugs[op.bug].fields,
                 version := if v.bugs[op.bug].fields == row.fields then row.version else row.version + 1)]
  {
    assert History.RowSound(w, w.bugs[op.bug]);
    EditedContent(w.bugs[op.bug].fields, fields);
  }

  lemma EditEntries(c: Config, w: World, op: Op, fields: Content)
    requires TablesSound(c, w) && IsAccepted(c, w, op) && op.request == UpdateBug(fields)
    ensures op.bug < |w.bugs|
    ensures var row, v := w.bugs[op.bug], Step(c, w, op);
            && w.log <= v.log && NoRepeats(v.log[|w.log|..])
            && (forall i, j | |w.log| <= i < j < |v.log| :: Place(v.log[i].event) < Place(v.log[j].event))
            && forall a: Activity :: a in v.log[|w.log|..] <==>
                 && a.bug == op.bug && a.actor == op.actor && a.at == op.now
                 && exists f: Field ::
                      f in row.fields && f in fields && row.fields[f] != fields[f]
                      && Reports(a.event, f, row.fields[f], fields[f])
  {
    var row := w.bugs[op.bug];
    EditLog(c, w, op, fields);
    EveryFieldIsListed(row.fields, fields);
    OneEntryEach(row.fields, fields, ALL_FIELDS);
    FieldsAreInOrder();
    ChangesAreInOrder(row.fields, fields, ALL_FIELDS);
    EntriesHaveTheEvents(w.log, op.bug, op.actor, op.now, ChangeEvents(row.fields, fields, ALL_FIELDS));
  }

  lemma EditLog(c: Config, w: World, op: Op, fields: Content)
    requires IsAccepted(c, w, op) && op.request == UpdateBug(fields)
    ensures op.bug < |w.bugs|
    ensures Step(c, w, op).log ==
            w.log + Entries(op.bug, op.actor, op.now, ChangeEvents(w.bugs[op.bug].fields, fields, ALL_FIELDS))
  {
  }

  lemma EntriesHaveTheEvents(log: seq<Activity>, b: BugId, actor: Option<UserId>, now: int, es: seq<Event>)
    requires NoRepeats(es) && InOrder(es)
    ensures var v := log + Entries(b, actor, now, es);
            && log <= v && NoRepeats(v[|log|..])
            && (forall i, j | |log| <= i < j < |v| :: Place(v[i].event) < Place(v[j].event))
            && forall a: Activity :: a in v[|log|..] <==> a.bug == b && a.actor == actor && a.at == now && a.event in es
  {
    var entries := Entries(b, actor, now, es);
    var v := log + entries;
    assert v[|log|..] == entries;
    forall i, j | |log| <= i < j < |v| ensures Place(v[i].event) < Place(v[j].event) {
      assert v[i].event == es[i - |log|] && v[j].event == es[j - |log|];
    }
    forall a: Activity | a.bug == b && a.actor == actor && a.at == now && a.event in es ensures a in entries {
      var i :| 0 <= i < |es| && es[i] == a.event;
      assert entries[i] == a;
    }
  }

  lemma EditedContent(was: Content, fields: Content)
    requires forall f: Field :: f in was
    ensures var now := if ChangeEvents(was, fields, ALL_FIELDS) == [] then was else Overwrite(was, fields);
            && (forall f: Field :: f in now && now[f] == if f in fields then fields[f] else was[f])
            && (now == was <==> ChangeEvents(was, fields, ALL_FIELDS) == [])
  {
    EveryFieldIsListed(was, fields);
    SomeChangeIsLogged(was, fields);
    if ChangeEvents(was, fields, ALL_FIELDS) == [] {
      forall f: Field ensures f in was && was[f] == if f in fields then fields[f] else was[f] {
        assert !IsChanged(was, fields, f);
      }
    } else {
      var f :| IsChanged(was, fields, f);
      assert Overwrite(was, fields)[f] != was[f];
    }
  }

  /** An accepted creation appends one bug, as filed: its project's next number and key, the given fields
      and the documented defaults, new, unassigned, unarchived and untagged; and raises the counter. */
  lemma CreationOutcome(
    c: Config, w: World, p: ProjectId, reporter: UserId, m: Option<Member>, fields: Content, now: int)
    requires CreateBugRefusal(w, p, m).None?
    ensures p < |w.projects|
    ensures var v, project := Step(c, w, Op.NewBug(p, reporter, m, fields, now)), w.projects[p];
            && |v.bugs| == |w.bugs| + 1
            && var bug := Last(v.bugs);
               && v == w.(bugs := w.bugs + [bug],
                          projects := w.projects[p := project.(nextBugNumber := project.nextBugNumber + 1)],
                          log := w.log + [Activity(|w.bugs|, Some(reporter), now, Created(bug.key))])
               && bug == Bug(p, project.nextBugNumber, project.key + "-" + Decimal(project.nextBugNumber), reporter,
                             now, bug.fields, New, None, None, None, None, 1, {})
               && IsFiled(bug.fields, fields)
  {
    var v := Step(c, w, Op.NewBug(p, reporter, m, fields, now));
    InitialContentIsFiled(fields);
    EntriesOfOne(|w.bugs|, Some(reporter), now, Created(Last(v.bugs).key));
  }

  // ---------------------------------------------------------------------------------------------
  // Archive, tags, relationships

  lemma ArchivingOutcome(c: Config, w: World, op: Op)
    requires IsAccepted(c, w, op) && (op.request.ArchiveBug? || op.request.RestoreBug?)
    ensures op.bug < |w.bugs|
    ensures var row := w.bugs[op.bug];
            var archived := op.request.ArchiveBug?;
            Step(c, w, op) ==
            w.(bugs := w.bugs[op.bug := row.(archivedAt := if archived then Some(op.now) else None,
                                             version := row.version + 1)],
               log := w.log + [Activity(op.bug, op.actor, op.now, if archived then BugWasArchived else BugWasRestored)])
  {
    EntriesOfOne(op.bug, op.actor, op.now, BugWasArchived);
    EntriesOfOne(op.bug, op.actor, op.now, BugWasRestored);
  }

  /** After an accepted tagging the bug has the one tag with that key, which keeps the name it was first
      created with, besides those it had. */
  lemma TaggingOutcome(c: Config, w: World, op: Op, name: string)
    requires TablesSound(c, w) && IsAccepted(c, w, op) && op.request == AddTag(name)
    ensures op.bug < |w.bugs|
    ensures var row, v, key := w.bugs[op.bug], Step(c, w, op), c.lower(c.strip(name));
            && w.tags <= v.tags
            && v.tags[|w.tags|..] == (if exists t | 0 <= t < |w.tags| :: w.tags[t].normalized == key then []
                                      else [Tag(c.strip(name), key)])
            && exists t :: 0 <= t < |v.tags| && v.tags[t].normalized == key
                 && if t in row.tags then v == w
                    else v == w.(tags := v.tags,
                                 bugs := w.bugs[op.bug := row.(tags := row.tags + {t}, version := row.version + 1)],
                                 log := w.log + [Activity(op.bug, op.actor, op.now, TagAdded(v.tags[t].name))])
  {
    var row, v := w.bugs[op.bug], Step(c, w, op);
    assert History.RowSound(w, row);
    var t := FindTag(w.tags, c.lower(c.strip(name)));
    EntriesOfOne(op.bug, op.actor, op.now, TagAdded(TagsWith(c, w.tags, c.strip(name))[t].name));
    if t in row.tags {
      assert w.log + Entries(op.bug, op.actor, op.now, []) == w.log && w.bugs[op.bug := row] == w.bugs;
    }
    assert v.tags[t].normalized == c.lower(c.strip(name));
  }

  lemma UntaggingOutcome(c: Config, w: World, op: Op, t: TagId)
    requires TablesSound(c, w) && IsAccepted(c, w, op) && op.request == RemoveTag(t)
    ensures op.bug < |w.bugs|
    ensures var row := w.bugs[op.bug];
            Step(c, w, op) ==
            if t !in row.tags then w
            else w.(bugs := w.bugs[op.bug := row.(tags := row.tags - {t}, version := row.version + 1)],
                    log := w.log + [Activity(op.bug, op.actor, op.now,
                                             TagRemoved(if t < |w.tags| then w.tags[t].name else ""))])
  {
    var row := w.bugs[op.bug];
    assert History.RowSound(w, row);
    if t in row.tags {
      EntriesOfOne(op.bug, op.actor, op.now, TagRemoved(w.tags[t].name));
    } else {
      assert w.log + Entries(op.bug, op.actor, op.now, []) == w.log && w.bugs[op.bug := row] == w.bugs;
    }
  }

  /** How the bug that is linked lists the other one, and is listed by it. */
  function ListedAs(kind: RelKind): ViewKind {
    if kind == Blocks then IsBlocking else IsRelatedTo
  }

  function ListedBackAs(kind: RelKind): ViewKind {
    if kind == Blocks then IsBlockedBy else IsRelatedTo
  }

  /** An accepted link, across the service and the listing: the bug lists the other as blocking it or
      related to it, the other lists the bug back, both under the new id, and every other view stays. */
  lemma LinkingOutcome(c: Config, w: World, op: Op, other: BugId, kind: RelKind, id: RelId)
    requires IsAccepted(c, w, op) && op.request == CreateRelationship(other, kind, id)
    ensures op.bug < |w.bugs| && other < |w.bugs| && kind in {Blocks, RelatesTo}
    ensures var row, v := w.bugs[op.bug], Step(c, w, op);
            && v == w.(bugs := w.bugs[op.bug := row.(version := row.version + 1)], rels := v.rels,
                       log := w.log + [Activity(op.bug, op.actor, op.now, RelationshipAdded(kind, w.bugs[other].key))])
            && id !in w.rels && v.rels - {id} == w.rels
            && ViewsOf(v.rels, op.bug) == ViewsOf(w.rels, op.bug) + {View(id, ListedAs(kind), other)}
            && ViewsOf(v.rels, other) == ViewsOf(w.rels, other) + {View(id, ListedBackAs(kind), op.bug)}
            && forall x | x != op.bug && x != other :: ViewsOf(v.rels, x) == ViewsOf(w.rels, x)
  {
    EntriesOfOne(op.bug, op.actor, op.now, RelationshipAdded(kind, w.bugs[other].key));
    var r := Canonical(op.bug, other, kind);
    assert w.rels[id := r] - {id} == w.rels;
    forall x: BugId
      ensures ViewsOf(w.rels[id := r], x) ==
              ViewsOf(w.rels, x) + if x in {r.from, r.to} then {ViewFrom(x, id, r)} else {}
    {
      AddedRowIsListed(w.rels, id, r, x);
    }
  }

  /** An accepted removal: the row disappears from the lists of both bugs, and from no other list. */
  lemma UnlinkingOutcome(c: Config, w: World, op: Op, id: RelId)
    requires IsAccepted(c, w, op) && op.request == RemoveRelationship(id)
    ensures op.bug < |w.bugs| && id in w.rels && op.bug in {w.rels[id].from, w.rels[id].to}
    ensures var row, v, r := w.bugs[op.bug], Step(c, w, op), w.rels[id];
            var other := if r.from == op.bug then r.to else r.from;
            && v == w.(bugs := w.bugs[op.bug := row.(version := row.version + 1)], rels := w.rels - {id}, log := v.log)
            && v.log == w.log + [Activity(op.bug, op.actor, op.now,
                 RelationshipRemoved(r.kind, if other < |w.bugs| then w.bugs[other].key else ""))]
            && forall x :: ViewsOf(v.rels, x) == set view | view in ViewsOf(w.rels, x) && view.id != id
  {
    var r := w.rels[id];
    EntriesOfOne(op.bug, op.actor, op.now,
                 RelationshipRemoved(r.kind, KeyOf(w, if r.from == op.bug then r.to else r.from)));
    forall x: BugId ensures ViewsOf(w.rels - {id}, x) == set view | view in ViewsOf(w.rels, x) && view.id != id {
      RemovedRowIsNotListed(w.rels, id, x);
    }
  }

  // ---------------------------------------------------------------------------------------------
  // Members and projects

  lemma {:induction false} ClearedEntriesExactly(bugs: seq<Bug>, u: UserId, email: string, now: int, n: nat)
    requires n <= |bugs|
    ensures var entries := ClearedEntries(bugs, u, email, now, n);
            && NoRepeats(entries)
            && forall a: Activity :: a in entries <==>
                 a.bug < n && bugs[a.bug].assignee == Some(u) && a == Activity(a.bug, None, now, Unassigned(email))
  {
    if n > 0 {
      ClearedEntriesExactly(bugs, u, email, now, n - 1);
      var before := ClearedEntries(bugs, u, email, now, n - 1);
      if bugs[n - 1].assignee == Some(u) {
        assert Activity(n - 1, None, now, Unassigned(email)) !in before;
      } else {
        assert before + [] == before;
      }
    }
  }

  /** Removing a member: allowed for any member who is no demo persona and not the only administrator. Exactly
      that membership ends; exactly the projects the user led lose their lead, and exactly the bugs assigned to
      the user lose their assignee, each with one version and one entry; nothing else changes. */
  lemma MemberRemovalOutcome(c: Config, w: World, u: UserId, now: int)
    ensures var v := Step(c, w, Leaves(u, now));
            if u in w.members && u !in c.demoUsers
               && (w.members[u] != Administrator ||
                   exists a :: a in w.members && a != u && w.members[a] == Administrator)
            then
              && v == World(w.members - {u}, v.projects, v.bugs, w.tags, w.rels, v.log)
              && |v.projects| == |w.projects| && |v.bugs| == |w.bugs|
              && (forall p | 0 <= p < |w.projects| ::
                    v.projects[p] == if w.projects[p].lead == Some(u) then w.projects[p].(lead := None)
                                     else w.projects[p])
              && (forall b | 0 <= b < |w.bugs| ::
                    v.bugs[b] == if w.bugs[b].assignee == Some(u)
                                 then w.bugs[b].(assignee := None, version := w.bugs[b].version + 1) else w.bugs[b])
              && w.log <= v.log && NoRepeats(v.log[|w.log|..])
              && forall a: Activity :: a in v.log[|w.log|..] <==>
                   && a.bug < |w.bugs| && w.bugs[a.bug].assignee == Some(u)
                   && a == Activity(a.bug, None, now, Unassigned(c.email(u)))
            else v == w
  {
    var v := Step(c, w, Leaves(u, now));
    if u in w.members && w.members[u] == Administrator {
      Administrators.NotLastMeansAnother(w.members, u);
    }
    if RemoveMemberRefusal(c, w, u).None? {
      var entries := ClearedEntries(w.bugs, u, c.email(u), now, |w.bugs|);
      ClearedEntriesExactly(w.bugs, u, c.email(u), now, |w.bugs|);
      assert v.log == w.log + entries && v.log[|w.log|..] == entries;
    }
  }

  /** Changing a role stores exactly that role of exactly that member, unless it takes the last administrator
      away or touches a demo persona; joining never changes an existing membership. */
  lemma MembershipOutcome(c: Config, w: World, op: Op)
    requires op.ChangesRole? || op.Joins?
    ensures var v := Step(c, w, op);
            match op
            case ChangesRole(u, role, bypassDemo) =>
              v == (if && u in w.members && (u !in c.demoUsers || bypassDemo)
                       && (role == Administrator || w.members[u] != Administrator ||
                           exists a :: a in w.members && a != u && w.members[a] == Administrator)
                    then w.(members := w.members[u := role]) else w)
            case Joins(u, role) => v == (if u in w.members then w else w.(members := w.members[u := role]))
            case _ => true
  {
    if op.ChangesRole? && op.user in w.members && w.members[op.user] == Administrator {
      Administrators.NotLastMeansAnother(w.members, op.user);
    }
  }

  /** A project is created under an unused well-formed key with its counter at 1; only a live one gets another
      lead, who is a member; archiving and restoring change its one flag; no project's key ever changes. */
  lemma ProjectOutcome(c: Config, w: World, op: Op)
    requires op.NewProject? || op.ChangeLead? || op.FreezeProject? || op.ThawProject?
    ensures var v := Step(c, w, op);
            match op
            case NewProject(key, lead) =>
              v == (if 2 <= |key| <= 10 && 'A' <= key[0] <= 'Z'
                       && (forall i | 0 <= i < |key| :: 'A' <= key[i] <= 'Z' || '0' <= key[i] <= '9')
                       && (forall p | 0 <= p < |w.projects| :: w.projects[p].key != key)
                       && (lead.Some? ==> lead.value in w.members)
                    then w.(projects := w.projects + [Project(key, None, 1, lead)]) else w)
            case ChangeLead(p, lead) =>
              v == (if p < |w.projects| && w.projects[p].archivedAt.None? && (lead.Some? ==> lead.value in w.members)
                    then w.(projects := w.projects[p := w.projects[p].(lead := lead)]) else w)
            case FreezeProject(p, now) =>
              v == (if p < |w.projects| && w.projects[p].archivedAt.None?
                    then w.(projects := w.projects[p := w.projects[p].(archivedAt := Some(now))]) else w)
            case ThawProject(p) =>
              v == (if p < |w.projects| && w.projects[p].archivedAt.Some?
                    then w.(projects := w.projects[p := w.projects[p].(archivedAt := None)]) else w)
            case _ => true
  {
  }

  // ---------------------------------------------------------------------------------------------
  // Over a run, every bug is as it was last told to be

  /** What the callers said about a bug. */
  datatype Told = Told(
    project: ProjectId, reporter: UserId, filedAt: int, given: Content, edited: Content, status: Status,
    assignee: Option<UserId>, archivedAt: Option<int>)

  /** What a call adds to it: an accepted one on this bug, or the removal of its assignee. */
  function Retold(c: Config, w: World, op: Op, b: BugId, t: Told): Told {
    if op.Leaves? && RemoveMemberRefusal(c, w, op.user).None? && t.assignee == Some(op.user) then t.(assignee := None)
    else if !IsAccepted(c, w, op) || op.bug != b then t
    else
      match op.request
      case UpdateBug(fields) => t.(edited := t.edited + fields)
      case TransitionBug(to, _, SetTo(user), _) => t.(status := to, assignee := user)
      case TransitionBug(to, _, Unset, _) => t.(status := to)
      case AssignBug(user) => t.(assignee := user)
      case ArchiveBug => t.(archivedAt := Some(op.now))
      case RestoreBug => t.(archivedAt := None)
      case _ => t
  }

  /** What was said about each bug in a run from setup. */
  function Tales(c: Config, admin: UserId, ops: seq<Op>): seq<Told> {
    if ops == [] then []
    else
      var before, op := ops[..|ops| - 1], Last(ops);
      var w, tales := Run(c, SetUp(admin), before), Tales(c, admin, before);
      seq(|tales|, b requires 0 <= b < |tales| => Retold(c, w, op, b, tales[b])) +
      if op.NewBug? && CreateBugRefusal(w, op.project, op.membership).None?
      then [Told(op.project, op.reporter, op.now, op.fields, map[], New, None, None)]
      else []
  }

  /** Each field has its last given text, or what it was filed with, or its default. */
  ghost predicate IsAsTold(row: Bug, t: Told) {
    && row.project == t.project && row.reporter == t.reporter && row.createdAt == t.filedAt
    && row.status == t.status && row.assignee == t.assignee && row.archivedAt == t.archivedAt
    && IsFiled(row.fields, t.given + t.edited)
  }

  lemma EditIsAsTold(was: Content, now: Content, t: Told, fields: Content)
    requires IsFiled(was, t.given + t.edited)
    requires forall f: Field :: f in now && f in was && now[f] == if f in fields then fields[f] else was[f]
    ensures IsFiled(now, t.given + (t.edited + fields))
  {
  }

  lemma EditCallIsAsTold(c: Config, w: World, op: Op, t: Told)
    requires TablesSound(c, w) && IsAccepted(c, w, op) && op.bug < |w.bugs| && IsAsTold(w.bugs[op.bug], t)
    requires op.request.UpdateBug?
    ensures op.bug < |Step(c, w, op).bugs| && IsAsTold(Step(c, w, op).bugs[op.bug], Retold(c, w, op, op.bug, t))
  {
    EditOutcome(c, w, op, op.request.fields);
    EditIsAsTold(w.bugs[op.bug].fields, Step(c, w, op).bugs[op.bug].fields, t, op.request.fields);
  }

  lemma MoveCallIsAsTold(c: Config, w: World, op: Op, t: Told)
    requires IsAccepted(c, w, op) && op.bug < |w.bugs| && IsAsTold(w.bugs[op.bug], t)
    requires op.request.TransitionBug? || op.request.AssignBug?
    ensures op.bug < |Step(c, w, op).bugs| && IsAsTold(Step(c, w, op).bugs[op.bug], Retold(c, w, op, op.bug, t))
  {
    match op.request
    case TransitionBug(to, target, arg, id) => TransitionOutcome(c, w, op, to, target, arg, id);
    case AssignBug(user) => AssignmentOutcome(c, w, op, user);
  }

  lemma TagOrRowCallIsAsTold(c: Config, w: World, op: Op, t: Told)
    requires TablesSound(c, w) && IsAccepted(c, w, op) && op.bug < |w.bugs| && IsAsTold(w.bugs[op.bug], t)
    requires || op.request.AddTag? || op.request.RemoveTag?
             || op.request.CreateRelationship? || op.request.RemoveRelationship?
    ensures op.bug < |Step(c, w, op).bugs| && IsAsTold(Step(c, w, op).bugs[op.bug], t)
  {
    match op.request
    case AddTag(name) => TaggingOutcome(c, w, op, name);
    case RemoveTag(tag) => UntaggingOutcome(c, w, op, tag);
    case CreateRelationship(other, kind, id) => LinkingOutcome(c, w, op, other, kind, id);
    case RemoveRelationship(id) => UnlinkingOutcome(c, w, op, id);
  }

  lemma CallIsAsTold(c: Config, w: World, op: Op, t: Told)
    requires TablesSound(c, w) && IsAccepted(c, w, op) && op.bug < |w.bugs| && IsAsTold(w.bugs[op.bug], t)
    ensures op.bug < |Step(c, w, op).bugs| && IsAsTold(Step(c, w, op).bugs[op.bug], Retold(c, w, op, op.bug, t))
  {
    if op.request.UpdateBug? {
      EditCallIsAsTold(c, w, op, t);
    } else if op.request.TransitionBug? || op.request.AssignBug? {
      MoveCallIsAsTold(c, w, op, t);
    } else if op.request.ArchiveBug? || op.request.RestoreBug? {
      ArchivingOutcome(c, w, op);
    } else {
      TagOrRowCallIsAsTold(c, w, op, t);
    }
  }

  lemma OtherBugsStay(c: Config, w: World, op: Op, b: BugId)
    requires b < |w.bugs| && !(op.Call? && op.bug == b) && !op.Leaves?
    ensures b < |Step(c, w, op).bugs| && Step(c, w, op).bugs[b] == w.bugs[b]
  {
  }

  lemma StepIsAsTold(c: Config, w: World, op: Op, b: BugId, t: Told)
    requires TablesSound(c, w) && b < |w.bugs| && IsAsTold(w.bugs[b], t)
    ensures b < |Step(c, w, op).bugs| && IsAsTold(Step(c, w, op).bugs[b], Retold(c, w, op, b, t))
  {
    if op.Leaves? {
      MemberRemovalOutcome(c, w, op.user, op.now);
      if RemoveMemberRefusal(c, w, op.user).Some? {
        assert Step(c, w, op) == w;
      } else {
        assert Step(c, w, op).bugs == ClearedBugs(w.bugs, op.user);
      }
    } else if op.Call? && op.bug == b {
      if IsAccepted(c, w, op) {
        CallIsAsTold(c, w, op, t);
      } else {
        RefusedCallChangesNothing(c, w, op);
      }
    } else {
      OtherBugsStay(c, w, op, b);
    }
  }

  /** In every reachable state every bug has the project, reporter and time it was filed with, the status its
      last accepted transition named, the assignee last named by a transition or an assignment unless that
      member was removed since, the archive time last set, and in each field the text last given to it. */
  lemma {:induction false} RunIsAsTold(c: Config, admin: UserId, ops: seq<Op>)
    ensures TablesSound(c, Run(c, SetUp(admin), ops))
    ensures var w, tales := Run(c, SetUp(admin), ops), Tales(c, admin, ops);
            |tales| == |w.bugs| && forall b: BugId | b < |w.bugs| :: IsAsTold(w.bugs[b], tales[b])
  {
    RunExplains(c, admin, ops);
    if ops != [] {
      var before, op := ops[..|ops| - 1], Last(ops);
      var w, tales := Run(c, SetUp(admin), before), Tales(c, admin, before);
      RunIsAsTold(c, admin, before);
      BugsStayInTheTable(c, w, op);
      forall b: BugId | b < |w.bugs|
        ensures IsAsTold(Run(c, SetUp(admin), ops).bugs[b], Retold(c, w, op, b, tales[b]))
      {
        StepIsAsTold(c, w, op, b, tales[b]);
      }
      if op.NewBug? && CreateBugRefusal(w, op.project, op.membership).None? {
        CreationOutcome(c, w, op.project, op.reporter, op.membership, op.fields, op.now);
        assert op.fields + map[] == op.fields;
      } else {
        NoNewBug(c, w, op);
      }
    }
  }

  lemma NoNewBug(c: Config, w: World, op: Op)
    requires !(op.NewBug? && CreateBugRefusal(w, op.project, op.membership).None?)
    ensures |Step(c, w, op).bugs| == |w.bugs|
  {
  }
}
