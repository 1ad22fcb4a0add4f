/** From an event to the rows and messages it leaves: when two events share a row, what one creation task, one
    send task and one reading leave behind, and whom a comment reaches. */
module Delivery {
  import opened Base
  import opened Mentions
  import opened Relationships
  import Tracker
  import opened Notifications
  import Comments

  type UserId = Tracker.UserId

  // ---------------------------------------------------------------------------------------------
  // When two events share a row

  /** Two events share their key exactly if they are of one kind and of one activity entry, or, when neither
      names an entry, of one comment. */
  lemma KeysAgreeExactly(e: Event, f: Event)
    requires IsWellFormed(e) && IsWellFormed(f)
    ensures KeyOf(e) == KeyOf(f) <==>
            && e.kind == f.kind
            && e.activity == f.activity
            && (e.activity.None? ==> e.comment == f.comment)
  {
  }

  /** The row tells the user of an event: about this bug, by this actor, not read yet, not mailed yet. */
  predicate Tells(r: Row, u: UserId, e: Event, comment: Option<CommentId>) {
    && r.recipient == u && r.key.kind == e.kind && r.bug == e.bug && r.actor == e.actor && r.comment == comment
    && r.readAt.None? && r.emailedAt.None? && r.error == ""
  }

  /** What one creation task leaves behind. Every row there was stays; each new row tells a recipient who had
      no row for the event; the e-mail is pending unless the recipient turned this kind off; and exactly the
      pending ones among the new rows get one send task each, but for those the broker lost. */
  lemma CreationOutcome(s: System, e: Event, users: seq<UserId>, lost: set<RowId>)
    requires OneEach(s.rows)
    requires Lists(users, Recipients(s.desk, s.around, e, Lookup(s.desk, e.comment)))
    ensures var t, comment := CreateAll(s, e, users, lost), Lookup(s.desk, e.comment);
            && s.rows <= t.rows && t == s.(rows := t.rows, queue := t.queue, dispatched := t.dispatched)
            && (forall i | |s.rows| <= i < |t.rows| ::
                  && Tells(t.rows[i], t.rows[i].recipient, e, comment) && t.rows[i].recipient in users
                  && t.rows[i].email == (if (t.rows[i].recipient, e.kind) in s.around.preferences
                                            && !s.around.preferences[(t.rows[i].recipient, e.kind)] then Disabled
                                         else Pending))
            && (if e.kind in {Mentioned, CommentAdded} && comment.None? then t.rows == s.rows
                else forall u <- users :: Holds(t.rows, u, KeyOf(e)))
            && forall m :: t.queue[m] == s.queue[m] +
                 if m.Send? && |s.rows| <= m.row < |t.rows| && t.rows[m.row].email == Pending && m.row !in lost
                 then 1 else 0
  {
    var comment := Lookup(s.desk, e.comment);
    if users != [] && !BreaksConstraint(e, comment) {
      InsertedRows(s.around, s.rows, e, comment, users);
      CreationQueues(s, e, users, lost);
    }
  }

  lemma CreationQueues(s: System, e: Event, users: seq<UserId>, lost: set<RowId>)
    requires users != [] && !BreaksConstraint(e, Lookup(s.desk, e.comment))
    requires s.rows <= CreateAll(s, e, users, lost).rows
    ensures var t := CreateAll(s, e, users, lost);
            forall m :: t.queue[m] == s.queue[m] +
              if m.Send? && |s.rows| <= m.row < |t.rows| && t.rows[m.row].email == Pending && m.row !in lost
              then 1 else 0
  {
    var t := CreateAll(s, e, users, lost);
    var ids := NewPending(s.rows, t.rows);
    PendingIds(t.rows, |s.rows|);
    assert t.queue == s.queue + SendTasks(ids, lost);
    forall m ensures SendTasks(ids, lost)[m] == if m.Send? && m.row in ids && m.row !in lost then 1 else 0 {
      TasksExactly(ids, lost, m);
    }
  }

  lemma {:induction false} TasksExactly(ids: seq<RowId>, lost: set<RowId>, m: Message)
    requires NoRepeats(ids)
    ensures SendTasks(ids, lost)[m] == if m.Send? && m.row in ids && m.row !in lost then 1 else 0
  {
    if ids != [] {
      var n := |ids| - 1;
      TasksExactly(ids[..n], lost, m);
      assert ids == ids[..n] + [ids[n]];
    }
  }

  lemma NewcomerGetsARow(s: System, e: Event, users: seq<UserId>, lost: set<RowId>, u: UserId)
    requires OneEach(s.rows) && u in users
    requires Lists(users, Recipients(s.desk, s.around, e, Lookup(s.desk, e.comment)))
    requires !(e.kind in COMMENT_KINDS && Lookup(s.desk, e.comment).None?) && !Holds(s.rows, u, KeyOf(e))
    ensures var t := CreateAll(s, e, users, lost);
            exists i :: |s.rows| <= i < |t.rows| && Tells(t.rows[i], u, e, Lookup(s.desk, e.comment))
  {
    var t := CreateAll(s, e, users, lost);
    CreationOutcome(s, e, users, lost);
    var i :| 0 <= i < |t.rows| && t.rows[i].recipient == u && t.rows[i].key == KeyOf(e);
    if i < |s.rows| {
      HeldBefore(s.rows, t.rows, u, KeyOf(e), i);
    }
  }

  lemma HeldBefore(was: seq<Row>, now: seq<Row>, u: UserId, k: Key, i: nat)
    requires was <= now && i < |was| && now[i].recipient == u && now[i].key == k
    ensures Holds(was, u, k)
  {
    assert was[i] == now[i];
  }

  /** Nothing has been said yet about an activity entry. */
  predicate IsNews(rows: seq<Row>, activity: Option<nat>) {
    activity.Some? && forall r <- rows :: r.key.source != Some(OfActivity(activity.value))
  }

  /** Events of different activity entries never swallow each other: whoever is to be told of both ends with
      a row for each, even if they are of the same kind. */
  lemma TwoEventsTwoRows(
    s: System, e: Event, f: Event, users: seq<UserId>, others: seq<UserId>, lost: set<RowId>, u: UserId)
    requires OneEach(s.rows) && IsNews(s.rows, e.activity) && IsNews(s.rows, f.activity) && e.activity != f.activity
    requires e.kind !in COMMENT_KINDS && f.kind !in COMMENT_KINDS && u in users && u in others
    requires Lists(users, Recipients(s.desk, s.around, e, Lookup(s.desk, e.comment)))
    requires Lists(others, Recipients(s.desk, s.around, f, Lookup(s.desk, f.comment)))
    ensures var rows := CreateAll(CreateAll(s, e, users, lost), f, others, lost).rows;
            exists i, j :: |s.rows| <= i < j < |rows|
              && Tells(rows[i], u, e, Lookup(s.desk, e.comment)) && Tells(rows[j], u, f, Lookup(s.desk, f.comment))
  {
    var t := CreateAll(s, e, users, lost);
    CreationOutcome(s, e, users, lost);
    InsertedRows(s.around, s.rows, e, Lookup(s.desk, e.comment), users);
    NewsIsNotHeld(s.rows, e, u);
    NewsIsNotHeld(s.rows, f, u);
    HoldsOfOtherKey(s.rows, t.rows, u, KeyOf(f), KeyOf(e));
    NewcomerGetsARow(s, e, users, lost, u);
    NewcomerGetsARow(t, f, others, lost, u);
    CreationOutcome(t, f, others, lost);
    RowsOfBoth(s.rows, t.rows, CreateAll(t, f, others, lost).rows, u, e, f, Lookup(s.desk, e.comment),
               Lookup(s.desk, f.comment));
  }

  lemma NewsIsNotHeld(rows: seq<Row>, e: Event, u: UserId)
    requires IsNews(rows, e.activity)
    ensures !Holds(rows, u, KeyOf(e))
  {
  }

  lemma RowsOfBoth(
    was: seq<Row>, between: seq<Row>, now: seq<Row>, u: UserId, e: Event, f: Event, c: Option<CommentId>,
    d: Option<CommentId>)
    requires was <= between <= now
    requires exists i :: |was| <= i < |between| && Tells(between[i], u, e, c)
    requires exists j :: |between| <= j < |now| && Tells(now[j], u, f, d)
    ensures exists i, j :: |was| <= i < j < |now| && Tells(now[i], u, e, c) && Tells(now[j], u, f, d)
  {
    var i :| |was| <= i < |between| && Tells(between[i], u, e, c);
    var j :| |between| <= j < |now| && Tells(now[j], u, f, d);
    assert now[i] == between[i];
  }

  // ---------------------------------------------------------------------------------------------
  // Sending and reading

  /** A send task acts on a pending row only: a message the server takes marks the row sent, one it will take
      later is queued again and leaves the row pending, and one it gives up on marks it failed. */
  lemma SendingOutcome(s: System, id: RowId, outcome: SmtpOutcome, now: int)
    ensures var t := SendAll(s, id, outcome, now);
            if id < |s.rows| && s.rows[id].email == Pending then
              match outcome
              case Success =>
                t == s.(mails := s.mails + [id],
                        rows := s.rows[id := s.rows[id].(email := Sent, emailedAt := Some(now))])
              case Retry => t == s.(queue := s.queue + multiset{Send(id)})
              case GiveUp(summary) => t == s.(rows := s.rows[id := s.rows[id].(email := Failed, error := summary)])
            else t == s
  {
  }

  /** Reading marks a row read at its first reading and never again; reading all does so for the unread rows
      of one recipient, and touches nobody else's. */
  lemma ReadingOutcome(settings: Comments.Settings, s: System, id: RowId, u: UserId, now: int)
    requires id < |s.rows|
    ensures Act(settings, s, MarkRead(id, now)) ==
            if s.rows[id].readAt.Some? then s else s.(rows := s.rows[id := s.rows[id].(readAt := Some(now))])
    ensures var t := Act(settings, s, MarkAllRead(u, now));
            && t == s.(rows := t.rows) && |t.rows| == |s.rows|
            && forall i | 0 <= i < |s.rows| ::
                 t.rows[i] == if s.rows[i].recipient == u && s.rows[i].readAt.None?
                              then s.rows[i].(readAt := Some(now)) else s.rows[i]
  {
    if s.rows[id].readAt.Some? {
      assert s.rows[id := s.rows[id]] == s.rows;
    }
  }

  /** A request for a notification reaches the queue exactly if it names a comment for the kinds that are about
      one and an activity entry for the others, and the broker takes it. */
  lemma RequestOutcome(settings: Comments.Settings, s: System, e: Event, lost: bool)
    ensures Act(settings, s, Notify(e, lost)) ==
            if (if e.kind == Mentioned || e.kind == CommentAdded then e.comment.Some? else e.activity.Some?) && !lost
            then s.(queue := s.queue + multiset{Create(e)}) else s
  {
  }

  // ---------------------------------------------------------------------------------------------
  // Whom a comment reaches

  function AddedEvent(q: Comments.Call, id: CommentId): Event
    requires q.request.Create?
  {
    Event(CommentAdded, q.request.bug, Some(q.actor), None, Some(id), None)
  }

  function MentionedEvent(q: Comments.Call, id: CommentId): Event
    requires q.request.Create?
  {
    Event(Mentioned, q.request.bug, Some(q.actor), None, Some(id), None)
  }

  /** A member who is no viewer writes a text of proper length on a live bug. */
  predicate IsAppearing(settings: Comments.Settings, q: Comments.Call) {
    && q.request.Create? && q.role.Some? && q.role != Some(Tracker.Viewer)
    && !q.around.bugArchived && !q.around.projectArchived && 1 <= |settings.strip(q.request.body)| <= 10_000
  }

  /** A comment that appears asks for one notification that it was added and, exactly if it mentions a member,
      one that it mentions; no other request about comments asks for any. */
  lemma CommentRequests(
    settings: Comments.Settings, s: System, q: Comments.Call, lost: set<Comments.Notice>)
    ensures var t, id := Act(settings, s, Comment(q, lost)), |s.desk.comments|;
            if IsAppearing(settings, q) then
              && |t.desk.comments| == id + 1
              && t.queue == s.queue
                   + (if t.desk.comments[id].mentioned == [] || Comments.Mentioned(id) in lost then multiset{}
                      else multiset{Create(MentionedEvent(q, id))})
                   + (if Comments.Added(id) in lost then multiset{} else multiset{Create(AddedEvent(q, id))})
            else t.queue == s.queue && |t.desk.comments| == id
  {
    var t, id := Act(settings, s, Comment(q, lost)), |s.desk.comments|;
    CommentQueues(settings, s, q, lost);
    DeskAfterwards(settings, s.desk, q.(around := q.around.(members := s.around.members)));
    if IsAppearing(settings, q) {
      TasksOfComment(t.desk, q, id, lost);
      SumOfThree(s.queue,
                 if t.desk.comments[id].mentioned == [] || Comments.Mentioned(id) in lost then multiset{}
                 else multiset{Create(MentionedEvent(q, id))},
                 if Comments.Added(id) in lost then multiset{} else multiset{Create(AddedEvent(q, id))});
    }
  }

  lemma SumOfThree<T>(a: multiset<T>, b: multiset<T>, c: multiset<T>)
    ensures a + (b + c) == a + b + c
  {
  }

  lemma CommentQueues(settings: Comments.Settings, s: System, q: Comments.Call, lost: set<Comments.Notice>)
    ensures var t := Act(settings, s, Comment(q, lost));
            var call := q.(around := q.around.(members := s.around.members));
            && t.desk == Comments.Serve(settings, s.desk, call).0
            && t.queue == s.queue + TasksFor(t.desk, t.desk.outbox[|s.desk.outbox|..], lost)
  {
  }

  lemma TasksOfComment(desk: Comments.Desk, q: Comments.Call, id: CommentId, lost: set<Comments.Notice>)
    requires q.request.Create? && id < |desk.comments|
    requires desk.comments[id].bug == q.request.bug && desk.comments[id].author == q.actor
    ensures var silent := desk.comments[id].mentioned == [];
            var notices := if silent then [Comments.Added(id)] else [Comments.Mentioned(id), Comments.Added(id)];
            TasksFor(desk, notices, lost) ==
            (if silent || Comments.Mentioned(id) in lost then multiset{} else multiset{Create(MentionedEvent(q, id))})
            + (if Comments.Added(id) in lost then multiset{} else multiset{Create(AddedEvent(q, id))})
  {
    if desk.comments[id].mentioned == [] {
      TasksOfOne(desk, Comments.Added(id), lost);
    } else {
      TasksOfTwo(desk, Comments.Mentioned(id), Comments.Added(id), lost);
    }
  }

  lemma DeskAfterwards(settings: Comments.Settings, d: Comments.Desk, q: Comments.Call)
    ensures var e, id := Comments.Serve(settings, d, q).0, |d.comments|;
            var notices := e.outbox[|d.outbox|..];
            if IsAppearing(settings, q) then
              && |e.comments| == id + 1 && e.comments[id].bug == q.request.bug && e.comments[id].author == q.actor
              && notices == if e.comments[id].mentioned == [] then [Comments.Added(id)]
                            else [Comments.Mentioned(id), Comments.Added(id)]
            else |e.comments| == id && notices == []
  {
    if q.request.Create? {
      Comments.CommentAppearsExactly(settings, d, q);
    }
  }

  lemma TasksOfOne(desk: Comments.Desk, n: Comments.Notice, lost: set<Comments.Notice>)
    requires n.comment < |desk.comments|
    ensures TasksFor(desk, [n], lost) == if n in lost then multiset{} else multiset{Create(EventOfNotice(desk, n))}
  {
    assert [n][..0] == [] && Last([n]) == n;
  }

  lemma TasksOfTwo(desk: Comments.Desk, m: Comments.Notice, n: Comments.Notice, lost: set<Comments.Notice>)
    requires m.comment < |desk.comments| && n.comment < |desk.comments|
    ensures TasksFor(desk, [m, n], lost) ==
            (if m in lost then multiset{} else multiset{Create(EventOfNotice(desk, m))})
            + (if n in lost then multiset{} else multiset{Create(EventOfNotice(desk, n))})
  {
    TasksOfOne(desk, m, lost);
    assert [m, n][..1] == [m] && Last([m, n]) == n;
  }

  /** Nobody has a row about a comment yet. */
  predicate IsUntold(rows: seq<Row>, id: CommentId) {
    forall r <- rows :: r.key.source != Some(OfComment(id))
  }

  /** End to end: once a comment has appeared and its two tasks have run, in this order, everybody other than
      its author who is a member has exactly the row that is due: a mention if the text names them, and
      otherwise the news of the comment if they watch the bug. */
  lemma CommentReachesItsReaders(
    settings: Comments.Settings, s: System, q: Comments.Call, mentioned: seq<UserId>, watching: seq<UserId>,
    lost: set<RowId>, u: UserId)
    requires IsAppearing(settings, q) && OneEach(s.rows) && IsUntold(s.rows, |s.desk.comments|)
    requires var t, id := Act(settings, s, Comment(q, {})), |s.desk.comments|;
             && Lists(mentioned, Recipients(t.desk, t.around, MentionedEvent(q, id), Some(id)))
             && Lists(watching, Recipients(t.desk, t.around, AddedEvent(q, id), Some(id)))
    ensures var t, id := Act(settings, s, Comment(q, {})), |s.desk.comments|;
            var rows := CreateAll(CreateAll(t, MentionedEvent(q, id), mentioned, lost), AddedEvent(q, id), watching,
                                  lost).rows;
            var named := u in Ids(settings.strip(q.request.body));
            var watches := q.request.bug in s.around.watchers && u in s.around.watchers[q.request.bug];
            var mayBeTold := u in s.around.members && u != q.actor;
            && (Holds(rows, u, Key(Mentioned, Some(OfComment(id)))) <==> mayBeTold && named)
            && (Holds(rows, u, Key(CommentAdded, Some(OfComment(id)))) <==> mayBeTold && watches && !named)
  {
    var id := |s.desk.comments|;
    var t := Act(settings, s, Comment(q, {}));
    var call := q.(around := q.around.(members := s.around.members));
    Comments.CommentAppearsExactly(settings, s.desk, call);
    assert t.rows == s.rows && t.around == s.around && |t.desk.comments| == id + 1;
    var m, a := MentionedEvent(q, id), AddedEvent(q, id);
    var t1 := CreateAll(t, m, mentioned, lost);
    EveryRecipientIsNotified(t, m, mentioned, lost, u);
    EveryRecipientIsNotified(t1, a, watching, lost, u);
    RecipientsExactly(t.desk, t.around, m, u);
    RecipientsExactly(t.desk, t.around, a, u);
    var t2 := CreateAll(t1, a, watching, lost);
    NobodyToldBefore(s.rows, id, u);
    HoldsOfOtherKey(t1.rows, t2.rows, u, KeyOf(m), KeyOf(a));
    HoldsOfOtherKey(t.rows, t1.rows, u, KeyOf(a), KeyOf(m));
  }

  lemma NobodyToldBefore(rows: seq<Row>, id: CommentId, u: UserId)
    requires IsUntold(rows, id)
    ensures forall k: Kind :: !Holds(rows, u, Key(k, Some(OfComment(id))))
  {
  }

  /** Rows added for one key do not change who holds another. */
  lemma HoldsOfOtherKey(was: seq<Row>, now: seq<Row>, u: UserId, k: Key, added: Key)
    requires was <= now && k != added && forall i | |was| <= i < |now| :: now[i].key == added
    ensures Holds(now, u, k) <==> Holds(was, u, k)
  {
    if Holds(was, u, k) {
      StillHolds(was, now, u, k);
    }
    if Holds(now, u, k) {
      var i :| 0 <= i < |now| && now[i].recipient == u && now[i].key == k;
      assert was[i] == now[i];
    }
  }
}
