/** The notifications that bug services ask for, against the activity entries they write. */
module Dispatch {
  import opened Base
  import opened Workflow
  import opened Relationships
  import opened Tracker
  import opened BugServices
  import opened History
  import Notifications

  /** The calls of a transition whose entries start at position `first`. */
  function TransitionCalls(
    b: BugId, actor: Option<UserId>, was: Option<UserId>, now: Option<UserId>, newStatus: Status, first: nat)
    : seq<Notifications.Event>
  {
    var moved := if was != now then 1 else 0;
    var linked := if newStatus == Duplicate then 1 else 0;
    (if was != now && now.Some?
     then [Notifications.Event(Notifications.BugAssigned, b, actor, Some(first), None, now)] else []) +
    [Notifications.Event(if newStatus == Reopened then Notifications.BugReopened else Notifications.StatusChanged,
                         b, actor, Some(first + moved + linked), None, None)]
  }

  /** The `notify` calls after a service call has committed. An activity's id is its position in the log. */
  function NotifyCalls(c: Config, w: World, op: Op): seq<Notifications.Event>
    requires op.Call?
  {
    if Refusal(c, w, op.bug, op.membership, op.expected, op.request).Some? then []
    else
      var row := w.bugs[op.bug];
      match op.request
      case TransitionBug(newStatus, _, arg, _) =>
        TransitionCalls(op.bug, op.actor, row.assignee, if arg.SetTo? then arg.user else row.assignee, newStatus,
                        |w.log|)
      case AssignBug(user) =>
        if row.assignee != user && user.Some?
        then [Notifications.Event(Notifications.BugAssigned, op.bug, op.actor, Some(|w.log|), None, user)] else []
      case _ => []
  }

  /** What an entry of the log announces. */
  function Announces(bugs: seq<Bug>, a: Activity, id: nat): seq<Notifications.Event> {
    match a.event
    case AssignedTo(_, _) =>
      [Notifications.Event(Notifications.BugAssigned, a.bug, a.actor, Some(id), None,
                           if a.bug < |bugs| then bugs[a.bug].assignee else None)]
    case StatusChanged(_, to) =>
      [Notifications.Event(if to == Reopened then Notifications.BugReopened else Notifications.StatusChanged,
                           a.bug, a.actor, Some(id), None, None)]
    case _ => []
  }

  function AnnouncedFrom(v: World, from: nat): seq<Notifications.Event>
    decreases |v.log| - from
  {
    if |v.log| <= from then [] else Announces(v.bugs, v.log[from], from) + AnnouncedFrom(v, from + 1)
  }

  lemma {:induction false} QuietEntriesAnnounceNothing(v: World, from: nat)
    requires forall i | from <= i < |v.log| :: !v.log[i].event.AssignedTo? && !v.log[i].event.StatusChanged?
    ensures AnnouncedFrom(v, from) == []
    decreases |v.log| - from
  {
    if from < |v.log| {
      QuietEntriesAnnounceNothing(v, from + 1);
    }
  }

  lemma LoggedAfter(w: World, v: World, b: BugId, actor: Option<UserId>, now: int, events: seq<Event>)
    requires v.log == w.log + Entries(b, actor, now, events)
    ensures |v.log| == |w.log| + |events|
    ensures forall i | 0 <= i < |events| :: v.log[|w.log| + i] == Activity(b, actor, now, events[i])
  {
  }

  /** An assignment entry or none, a link entry or none, and a status entry. */
  lemma TransitionEntriesAnnounce(v: World, from: nat, moved: nat, linked: nat)
    requires moved <= 1 && linked <= 1 && |v.log| == from + moved + linked + 1
    requires linked == 1 ==> v.log[from + moved].event.RelationshipAdded?
    ensures AnnouncedFrom(v, from) ==
            (if moved == 1 then Announces(v.bugs, v.log[from], from) else []) +
            Announces(v.bugs, v.log[from + moved + linked], from + moved + linked)
  {
    var last := from + moved + linked;
    assert AnnouncedFrom(v, last + 1) == [];
    assert AnnouncedFrom(v, last) == Announces(v.bugs, v.log[last], last);
    if linked == 1 {
      assert AnnouncedFrom(v, last - 1) == AnnouncedFrom(v, last);
    }
  }

  lemma TransitionAnnounces(c: Config, w: World, op: Op)
    requires op.Call? && op.request.TransitionBug?
    requires Refusal(c, w, op.bug, op.membership, op.expected, op.request).None?
    ensures NotifyCalls(c, w, op) == AnnouncedFrom(Step(c, w, op), |w.log|)
  {
    var v, row, q := Step(c, w, op), w.bugs[op.bug], op.request;
    var assignee := AssigneeAfter(row, q.assignee);
    var target := if q.newStatus == Duplicate then q.duplicateOf else None;
    var events := TransitionEvents(c, w, row, q.newStatus, target, assignee);
    LoggedAfter(w, v, op.bug, op.actor, op.now, events);
    TransitionLogAnnounces(c, w, v, row, op, assignee, target);
  }

  lemma TransitionLogAnnounces(
    c: Config, w: World, v: World, row: Bug, op: Op, assignee: Option<UserId>, target: Option<BugId>)
    requires op.Call? && op.request.TransitionBug? && op.bug < |v.bugs| && v.bugs[op.bug].assignee == assignee
    requires target.Some? <==> op.request.newStatus == Duplicate
    requires target.Some? ==> target.value < |w.bugs|
    requires var events := TransitionEvents(c, w, row, op.request.newStatus, target, assignee);
             |v.log| == |w.log| + |events| &&
             forall i | 0 <= i < |events| :: v.log[|w.log| + i] == Activity(op.bug, op.actor, op.now, events[i])
    ensures AnnouncedFrom(v, |w.log|) ==
            TransitionCalls(op.bug, op.actor, row.assignee, assignee, op.request.newStatus, |w.log|)
  {
    var events := TransitionEvents(c, w, row, op.request.newStatus, target, assignee);
    var moved := if row.assignee != assignee then 1 else 0;
    var linked := if op.request.newStatus == Duplicate then 1 else 0;
    assert moved == 1 ==> events[0] == AssignmentEvent(c, "", assignee);
    assert linked == 1 ==> events[moved].RelationshipAdded?;
    assert events[moved + linked] == StatusChanged(row.status, op.request.newStatus);
    TransitionEntriesAnnounce(v, |w.log|, moved, linked);
  }

  lemma OtherCallsAnnounceNothing(c: Config, w: World, op: Op)
    requires op.Call? && !op.request.TransitionBug? && !op.request.AssignBug?
    requires Refusal(c, w, op.bug, op.membership, op.expected, op.request).None?
    ensures AnnouncedFrom(Step(c, w, op), |w.log|) == []
  {
    var v := Step(c, w, op);
    var e := EffectOf(c, w, op.bug, w.bugs[op.bug], op.membership, op.now, op.request);
    LoggedAfter(w, v, op.bug, op.actor, op.now, e.events);
    if op.request.UpdateBug? {
      ChangesAreNotAnnounced(w.bugs[op.bug].fields, op.request.fields, ALL_FIELDS);
    }
    QuietEntriesAnnounceNothing(v, |w.log|);
  }

  /** Every committed call asks for one notification per status change and per assignment it logs, with the
      entry's id, and for nothing else. */
  lemma NotificationsFollowTheLog(c: Config, w: World, op: Op)
    requires op.Call?
    ensures NotifyCalls(c, w, op) == AnnouncedFrom(Step(c, w, op), |w.log|)
  {
    if Refusal(c, w, op.bug, op.membership, op.expected, op.request).None? {
      if op.request.TransitionBug? {
        TransitionAnnounces(c, w, op);
      } else if op.request.AssignBug? {
        AssignmentAnnounces(c, w, op);
      } else {
        OtherCallsAnnounceNothing(c, w, op);
      }
    }
  }

  lemma AssignmentAnnounces(c: Config, w: World, op: Op)
    requires op.Call? && op.request.AssignBug?
    requires Refusal(c, w, op.bug, op.membership, op.expected, op.request).None?
    ensures NotifyCalls(c, w, op) == AnnouncedFrom(Step(c, w, op), |w.log|)
  {
    var v, row := Step(c, w, op), w.bugs[op.bug];
    var events := AssignBugEffect(c, w, row, op.request.user).events;
    LoggedAfter(w, v, op.bug, op.actor, op.now, events);
    if row.assignee != op.request.user {
      assert AnnouncedFrom(v, |w.log| + 1) == [];
    }
  }

  lemma {:induction false} ChangesAreNotAnnounced(was: Content, fields: Content, todo: seq<Field>)
    ensures forall e <- ChangeEvents(was, fields, todo) :: !e.AssignedTo? && !e.StatusChanged?
  {
    if todo != [] {
      ChangesAreNotAnnounced(was, fields, todo[..|todo| - 1]);
    }
  }
}
