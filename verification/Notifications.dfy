/** The notification pipeline as an interleaving of worker processes.

    Services commit and then put a task on the queue; workers take tasks in any order, a task may be
    delivered again or lost, and a worker may stop between any two of its steps. A worker resolves the
    recipients when it runs, inserts their rows in one transaction, and only then queues the e-mails. */
module Notifications {
  import opened Base
  import opened Mentions
  import opened Relationships
  import opened Tracker
  import Comments

  type CommentId = Comments.CommentId
  type RowId = nat
  type Worker = nat

  datatype Kind = BugAssigned | Mentioned | CommentAdded | StatusChanged | BugReopened

  const COMMENT_KINDS: set<Kind> := {Mentioned, CommentAdded}

  /** The arguments of a creation task: ids only, everything else is read when the task runs. */
  datatype Event = Event(
    kind: Kind, bug: BugId, actor: Option<UserId>, activity: Option<nat>, comment: Option<CommentId>,
    assignee: Option<UserId>)

  datatype Source = OfActivity(activity: nat) | OfComment(comment: CommentId)
  datatype Key = Key(kind: Kind, source: Option<Source>)

  datatype EmailStatus = Pending | Sent | Failed | Disabled

  datatype Row = Row(
    recipient: UserId, key: Key, actor: Option<UserId>, bug: BugId, comment: Option<CommentId>,
    readAt: Option<int>, email: EmailStatus, error: string, emailedAt: Option<int>)

  datatype Message = Create(event: Event) | Send(row: RowId)

  /** Where a worker is in its task. */
  datatype Work =
    | Resolved(event: Event, comment: Option<CommentId>, recipients: seq<UserId>)
    | Dispatching(ids: seq<RowId>)
    | Sending(id: RowId)
    | Accepted(id: RowId)
    | OutOfRetries(id: RowId, summary: string)

  /** What the pipeline reads but does not write. */
  datatype Around = Around(
    members: set<UserId>, watchers: map<BugId, set<UserId>>, preferences: map<(UserId, Kind), bool>)

  /** `dispatched` and `mails` record what left the pipeline: the send tasks queued by creation tasks,
      and the messages the mail server accepted. */
  datatype System = System(
    desk: Comments.Desk, around: Around, rows: seq<Row>, queue: multiset<Message>, workers: map<Worker, Work>,
    dispatched: seq<RowId>, mails: seq<RowId>)

  datatype SmtpOutcome = Success | Retry | GiveUp(summary: string)

  datatype Action =
    | Notify(event: Event, lost: bool)
    | Comment(call: Comments.Call, undelivered: set<Comments.Notice>)
    | ChangeAround(around: Around)
    | Lose(message: Message)
    | Deliver(worker: Worker, message: Message, redelivered: bool, order: seq<UserId>)
    | Commit(worker: Worker)
    | Dispatch(worker: Worker, lost: bool)
    | Mail(worker: Worker, outcome: SmtpOutcome)
    | Settle(worker: Worker, now: int)
    | Crash(worker: Worker)
    | MarkRead(row: RowId, now: int)
    | MarkAllRead(recipient: UserId, now: int)

  const NOTHING_YET := System(Comments.EMPTY_DESK, Around({}, map[], map[]), [], multiset{}, map[], [], [])

  // ---------------------------------------------------------------------------------------------
  // Dispatching events

  /** `notify` raises a ValueError on any other shape. */
  predicate IsWellFormed(e: Event) {
    if e.kind in COMMENT_KINDS then e.comment.Some? else e.activity.Some?
  }

  function KeyOf(e: Event): Key {
    Key(e.kind,
        match e.activity
        case Some(a) => Some(OfActivity(a))
        case None => (match e.comment case Some(c) => Some(OfComment(c)) case None => None))
  }

  function EventOfNotice(desk: Comments.Desk, n: Comments.Notice): Event
    requires n.comment < |desk.comments|
  {
    var c := desk.comments[n.comment];
    Event(if n.Mentioned? then Mentioned else CommentAdded, c.bug, Some(c.author), None, Some(n.comment), None)
  }

  /** The creation tasks for the notices that reach the broker. */
  function TasksFor(desk: Comments.Desk, notices: seq<Comments.Notice>, lost: set<Comments.Notice>): multiset<Message>
    requires forall n <- notices :: n.comment < |desk.comments|
  {
    if notices == [] then multiset{}
    else
      TasksFor(desk, notices[..|notices| - 1], lost) +
      if Last(notices) in lost then multiset{} else multiset{Create(EventOfNotice(desk, Last(notices)))}
  }

  // ---------------------------------------------------------------------------------------------
  // Recipients

  function Watchers(a: Around, b: BugId): set<UserId> {
    if b in a.watchers then a.watchers[b] else {}
  }

  function Without(users: set<UserId>, actor: Option<UserId>): set<UserId> {
    match actor
    case Some(u) => users - {u}
    case None => users
  }

  function MentionedIn(desk: Comments.Desk, c: Option<CommentId>): set<UserId> {
    if c.Some? && c.value < |desk.comments| then set u | u in desk.comments[c.value].mentioned else {}
  }

  function Recipients(desk: Comments.Desk, a: Around, e: Event, comment: Option<CommentId>): set<UserId> {
    a.members *
    match e.kind
    case BugAssigned => if e.assignee.None? || e.assignee == e.actor then {} else {e.assignee.value}
    case Mentioned => Without(MentionedIn(desk, comment), e.actor)
    case CommentAdded => Without(Watchers(a, e.bug), e.actor) - MentionedIn(desk, comment)
    case StatusChanged => Without(Watchers(a, e.bug), e.actor)
    case BugReopened => Without(Watchers(a, e.bug), e.actor)
  }

  /** A query result lists its users in some order. */
  predicate Lists(order: seq<UserId>, users: set<UserId>) {
    NoRepeats(order) && (forall u <- order :: u in users) && forall u <- users :: u in order
  }

  /** The comment a task looks up by its id. */
  function Lookup(desk: Comments.Desk, c: Option<CommentId>): Option<CommentId> {
    if c.Some? && c.value < |desk.comments| then c else None
  }

  // ---------------------------------------------------------------------------------------------
  // Rows

  predicate IsEmailEnabled(a: Around, u: UserId, k: Kind) {
    (u, k) in a.preferences ==> a.preferences[(u, k)]
  }

  predicate Holds(rows: seq<Row>, u: UserId, k: Key) {
    exists i | 0 <= i < |rows| :: rows[i].recipient == u && rows[i].key == k
  }

  function NewRow(a: Around, e: Event, comment: Option<CommentId>, u: UserId): Row {
    Row(u, KeyOf(e), e.actor, e.bug, comment, None,
        if IsEmailEnabled(a, u, e.kind) then Pending else Disabled, "", None)
  }

  /** `get_or_create` for each recipient in turn. */
  function Inserted(a: Around, rows: seq<Row>, e: Event, comment: Option<CommentId>, users: seq<UserId>): seq<Row> {
    if users == [] then rows
    else
      var before := Inserted(a, rows, e, comment, users[..|users| - 1]);
      if Holds(before, Last(users), KeyOf(e)) then before else before + [NewRow(a, e, comment, Last(users))]
  }

  /** The rows from `from` on that are to be mailed. */
  function PendingFrom(rows: seq<Row>, from: RowId): seq<RowId>
    requires from <= |rows|
    decreases |rows|
  {
    if |rows| == from then []
    else PendingFrom(rows[..|rows| - 1], from) + if Last(rows).email == Pending then [|rows| - 1] else []
  }

  /** The check constraint on comment rows: without its comment the whole transaction fails. */
  predicate BreaksConstraint(e: Event, comment: Option<CommentId>) {
    e.kind in COMMENT_KINDS && comment.None?
  }

  /** `UPDATE ... WHERE email_status = 'pending'` */
  function Flip(rows: seq<Row>, id: RowId, email: EmailStatus, error: string, at: Option<int>): seq<Row>
    requires id < |rows|
  {
    if rows[id].email == Pending then rows[id := rows[id].(email := email, error := error, emailedAt := at)] else rows
  }

  function Read(r: Row, now: int): Row {
    if r.readAt.None? then r.(readAt := Some(now)) else r
  }

  function ReadAll(rows: seq<Row>, u: UserId, now: int): seq<Row> {
    seq(|rows|, i requires 0 <= i < |rows| => if rows[i].recipient == u then Read(rows[i], now) else rows[i])
  }

  // ---------------------------------------------------------------------------------------------
  // The machine

  function Idle(s: System, w: Worker): System {
    s.(workers := s.workers - {w})
  }

  function Start(s: System, w: Worker, m: Message, order: seq<UserId>): System {
    match m
    case Create(e) =>
      var comment := Lookup(s.desk, e.comment);
      if order != [] && Lists(order, Recipients(s.desk, s.around, e, comment))
      then s.(workers := s.workers[w := Resolved(e, comment, order)])
      else s
    case Send(id) =>
      if id < |s.rows| && s.rows[id].email == Pending then s.(workers := s.workers[w := Sending(id)]) else s
  }

  function Continue(s: System, w: Worker, a: Action): System
    requires w in s.workers
  {
    match (s.workers[w], a)
    case (Resolved(e, comment, users), Commit(_)) =>
      if BreaksConstraint(e, comment) then Idle(s, w)
      else
        var rows := Inserted(s.around, s.rows, e, comment, users);
        s.(rows := rows, workers := s.workers[w := Dispatching(NewPending(s.rows, rows))])
    case (Dispatching(ids), Dispatch(_, lost)) =>
      if ids == [] then Idle(s, w)
      else
        s.(queue := s.queue + if lost then multiset{} else multiset{Send(ids[0])},
           dispatched := s.dispatched + if lost then [] else [ids[0]],
           workers := s.workers[w := Dispatching(ids[1..])])
    case (Sending(id), Mail(_, Success)) => s.(mails := s.mails + [id], workers := s.workers[w := Accepted(id)])
    case (Sending(id), Mail(_, Retry)) => Idle(s.(queue := s.queue + multiset{Send(id)}), w)
    case (Sending(id), Mail(_, GiveUp(summary))) => s.(workers := s.workers[w := OutOfRetries(id, summary)])
    case (Accepted(id), Settle(_, now)) =>
      if id < |s.rows| then Idle(s.(rows := Flip(s.rows, id, Sent, s.rows[id].error, Some(now))), w) else s
    case (OutOfRetries(id, summary), Settle(_, _)) =>
      if id < |s.rows| then Idle(s.(rows := Flip(s.rows, id, Failed, summary, s.rows[id].emailedAt)), w) else s
    case _ => s
  }

  function NewPending(was: seq<Row>, now: seq<Row>): seq<RowId> {
    if |was| <= |now| then PendingFrom(now, |was|) else []
  }

  function ServeComment(settings: Comments.Settings, s: System, q: Comments.Call, lost: set<Comments.Notice>): System {
    var call := q.(around := q.around.(members := s.around.members));
    var desk := Comments.Serve(settings, s.desk, call).0;
    s.(desk := desk, queue := s.queue + TasksFor(desk, desk.outbox[|s.desk.outbox|..], lost))
  }

  /** One step of one process; a step that is not possible now leaves the state alone. */
  function Act(settings: Comments.Settings, s: System, a: Action): System {
    match a
    case Notify(e, lost) =>
      if IsWellFormed(e) && !lost then s.(queue := s.queue + multiset{Create(e)}) else s
    case Comment(q, lost) => ServeComment(settings, s, q, lost)
    case ChangeAround(around) => s.(around := around)
    case Lose(m) => s.(queue := s.queue - multiset{m})
    case Deliver(w, m, redelivered, order) =>
      if m !in s.queue || w in s.workers then s
      else Start(s.(queue := if redelivered then s.queue else s.queue - multiset{m}), w, m, order)
    case Crash(w) => Idle(s, w)
    case MarkRead(id, now) => if id < |s.rows| then s.(rows := s.rows[id := Read(s.rows[id], now)]) else s
    case MarkAllRead(u, now) =>
      s.(rows := ReadAll(s.rows, u, now))
    case _ => if a.worker in s.workers then Continue(s, a.worker, a) else s
  }

  function Play(settings: Comments.Settings, s: System, actions: seq<Action>): System {
    if actions == [] then s
    else Act(settings, Play(settings, s, actions[..|actions| - 1]), Last(actions))
  }

  // ---------------------------------------------------------------------------------------------
  // How rows change

  /** A row keeps what it is about; reading it is final; only a pending e-mail may still change, and not
      to disabled. */
  predicate MayTurnInto(r: Row, n: Row) {
    && n.recipient == r.recipient && n.key == r.key && n.actor == r.actor && n.bug == r.bug && n.comment == r.comment
    && (r.readAt.Some? ==> n.readAt == r.readAt)
    && (if r.email == Pending then n.email != Disabled
        else n.email == r.email && n.error == r.error && n.emailedAt == r.emailedAt)
  }

  predicate RowsEvolve(was: seq<Row>, now: seq<Row>) {
    |was| <= |now| && forall i | 0 <= i < |was| :: MayTurnInto(was[i], now[i])
  }

  lemma {:induction false} InsertedGrows(a: Around, rows: seq<Row>, e: Event, c: Option<CommentId>, users: seq<UserId>)
    ensures rows <= Inserted(a, rows, e, c, users)
  {
    if users != [] {
      InsertedGrows(a, rows, e, c, users[..|users| - 1]);
    }
  }

  lemma FlipEvolves(rows: seq<Row>, id: RowId, email: EmailStatus, error: string, at: Option<int>)
    requires id < |rows| && email != Disabled
    ensures RowsEvolve(rows, Flip(rows, id, email, error, at))
  {
  }

  lemma ReadEvolves(rows: seq<Row>, id: RowId, u: UserId, now: int)
    ensures id < |rows| ==> RowsEvolve(rows, rows[id := Read(rows[id], now)])
    ensures RowsEvolve(rows, ReadAll(rows, u, now))
  {
  }

  lemma PrefixEvolves(rows: seq<Row>, now: seq<Row>)
    requires rows <= now
    ensures RowsEvolve(rows, now)
  {
  }

  lemma ContinueEvolvesRows(s: System, w: Worker, a: Action)
    requires w in s.workers
    ensures RowsEvolve(s.rows, Continue(s, w, a).rows)
  {
    PrefixEvolves(s.rows, s.rows);
    match (s.workers[w], a)
    case (Resolved(e, c, users), Commit(_)) =>
      InsertedGrows(s.around, s.rows, e, c, users);
      PrefixEvolves(s.rows, Inserted(s.around, s.rows, e, c, users));
    case (Accepted(id), Settle(_, now)) =>
      if id < |s.rows| {
        FlipEvolves(s.rows, id, Sent, s.rows[id].error, Some(now));
      }
    case (OutOfRetries(id, summary), Settle(_, _)) =>
      if id < |s.rows| {
        FlipEvolves(s.rows, id, Failed, summary, s.rows[id].emailedAt);
      }
    case _ =>
  }

  lemma ActEvolvesRows(settings: Comments.Settings, s: System, a: Action)
    ensures RowsEvolve(s.rows, Act(settings, s, a).rows)
  {
    PrefixEvolves(s.rows, s.rows);
    match a
    case MarkRead(id, now) => ReadEvolves(s.rows, id, 0, now);
    case MarkAllRead(u, now) => ReadEvolves(s.rows, 0, u, now);
    case Commit(w) => if w in s.workers { ContinueEvolvesRows(s, w, a); }
    case Settle(w, _) => if w in s.workers { ContinueEvolvesRows(s, w, a); }
    case _ =>
  }

  lemma EvolveTransitive(r: seq<Row>, s: seq<Row>, t: seq<Row>)
    requires RowsEvolve(r, s) && RowsEvolve(s, t)
    ensures RowsEvolve(r, t)
  {
    forall i | 0 <= i < |r| ensures MayTurnInto(r[i], t[i]) {
      assert MayTurnInto(r[i], s[i]) && MayTurnInto(s[i], t[i]);
    }
  }

  /** Over any run, a row is never lost, and e-mail status moves only from pending, to sent or failed. */
  lemma {:induction false} EmailStatusMovesForward(settings: Comments.Settings, s: System, actions: seq<Action>)
    ensures RowsEvolve(s.rows, Play(settings, s, actions).rows)
  {
    if actions != [] {
      EmailStatusMovesForward(settings, s, actions[..|actions| - 1]);
      ActEvolvesRows(settings, Play(settings, s, actions[..|actions| - 1]), Last(actions));
      EvolveTransitive(s.rows, Play(settings, s, actions[..|actions| - 1]).rows, Play(settings, s, actions).rows);
    }
  }

  // ---------------------------------------------------------------------------------------------
  // Soundness of rows

  /** The check constraint on e-mail columns. */
  predicate EmailFits(r: Row) {
    match r.email
    case Pending => r.emailedAt.None? && r.error == ""
    case Sent => r.emailedAt.Some? && r.error == ""
    case Disabled => r.emailedAt.None? && r.error == ""
    case Failed => r.emailedAt.None?
  }

  /** About a comment, only those it mentions are told that they are, and only the others that it exists. */
  predicate RespectsMentions(desk: Comments.Desk, k: Kind, u: UserId, c: Option<CommentId>) {
    c.Some? && k in COMMENT_KINDS ==>
      c.value < |desk.comments| && (k == Mentioned <==> u in desk.comments[c.value].mentioned)
  }

  predicate RowSound(desk: Comments.Desk, r: Row) {
    && r.actor != Some(r.recipient)
    && EmailFits(r)
    && (r.key.kind in COMMENT_KINDS ==> r.comment.Some?)
    && RespectsMentions(desk, r.key.kind, r.recipient, r.comment)
  }

  /** The uniqueness constraint. */
  predicate OneEach(rows: seq<Row>) {
    forall i, j | 0 <= i < j < |rows| :: rows[i].recipient == rows[j].recipient ==> rows[i].key != rows[j].key
  }

  predicate Mailable(rows: seq<Row>, id: RowId) {
    id < |rows| && rows[id].email != Disabled
  }

  predicate MayReceive(desk: Comments.Desk, e: Event, c: Option<CommentId>, u: UserId) {
    e.actor != Some(u) && RespectsMentions(desk, e.kind, u, c)
  }

  predicate WorkSound(s: System, work: Work) {
    match work
    case Resolved(e, c, users) => forall u <- users :: MayReceive(s.desk, e, c, u)
    case Dispatching(ids) => NoRepeats(ids) && forall id <- ids :: Mailable(s.rows, id) && id !in s.dispatched
    case Sending(id) => Mailable(s.rows, id)
    case Accepted(id) => Mailable(s.rows, id) && id in s.mails
    case OutOfRetries(id, _) => Mailable(s.rows, id)
  }

  ghost predicate Apart(workers: map<Worker, Work>) {
    forall v, w | v in workers && w in workers && workers[v].Dispatching? && workers[w].Dispatching? && v != w ::
      forall id <- workers[v].ids :: id !in workers[w].ids
  }

  ghost predicate RecordsSound(s: System) {
    && NoRepeats(s.dispatched)
    && (forall id <- s.dispatched :: Mailable(s.rows, id))
    && (forall id <- s.mails :: Mailable(s.rows, id))
    && (forall id: RowId | Send(id) in s.queue :: Mailable(s.rows, id))
    && (forall i | 0 <= i < |s.rows| :: s.rows[i].email == Sent ==> i in s.mails)
  }

  ghost predicate TableSound(desk: Comments.Desk, rows: seq<Row>) {
    OneEach(rows) && forall i | 0 <= i < |rows| :: RowSound(desk, rows[i])
  }

  ghost predicate Sound(s: System) {
    && TableSound(s.desk, s.rows)
    && (forall w | w in s.workers :: WorkSound(s, s.workers[w]))
    && Apart(s.workers)
    && RecordsSound(s)
  }

  // Insertion

  lemma AppendKeepsOneEach(rows: seq<Row>, r: Row)
    requires OneEach(rows) && !Holds(rows, r.recipient, r.key)
    ensures OneEach(rows + [r]) && Holds(rows + [r], r.recipient, r.key)
  {
    var now := rows + [r];
    assert now[|rows|] == r;
  }

  /** Insertion gives each recipient exactly one row with the key, and touches no other row. */
  lemma {:induction false} InsertedRows(a: Around, rows: seq<Row>, e: Event, c: Option<CommentId>, users: seq<UserId>)
    requires OneEach(rows)
    ensures var now := Inserted(a, rows, e, c, users);
            && rows <= now && OneEach(now)
            && (forall u <- users :: Holds(now, u, KeyOf(e)))
            && forall i | |rows| <= i < |now| ::
                 && now[i].recipient in users && now[i] == NewRow(a, e, c, now[i].recipient)
                 && !Holds(rows, now[i].recipient, KeyOf(e))
  {
    if users != [] {
      var n := |users| - 1;
      InsertedRows(a, rows, e, c, users[..n]);
      var before, now := Inserted(a, rows, e, c, users[..n]), Inserted(a, rows, e, c, users);
      assert users == users[..n] + [users[n]];
      if !Holds(before, users[n], KeyOf(e)) {
        AppendKeepsOneEach(before, NewRow(a, e, c, users[n]));
        if Holds(rows, users[n], KeyOf(e)) {
          StillHolds(rows, before, users[n], KeyOf(e));
        }
      }
      forall u <- users[..n] ensures Holds(now, u, KeyOf(e)) {
        StillHolds(before, now, u, KeyOf(e));
      }
    }
  }

  lemma StillHolds(before: seq<Row>, now: seq<Row>, u: UserId, k: Key)
    requires before <= now && Holds(before, u, k)
    ensures Holds(now, u, k)
  {
    var i :| 0 <= i < |before| && before[i].recipient == u && before[i].key == k;
    assert now[i] == before[i];
  }

  lemma InsertKeepsTable(
    desk: Comments.Desk, a: Around, rows: seq<Row>, e: Event, c: Option<CommentId>, users: seq<UserId>)
    requires TableSound(desk, rows) && !BreaksConstraint(e, c) && forall u <- users :: MayReceive(desk, e, c, u)
    ensures TableSound(desk, Inserted(a, rows, e, c, users))
  {
    InsertedRows(a, rows, e, c, users);
    var now := Inserted(a, rows, e, c, users);
    forall i | 0 <= i < |now| ensures RowSound(desk, now[i]) {
      if i < |rows| {
        assert now[i] == rows[i];
      } else {
        assert MayReceive(desk, e, c, now[i].recipient);
      }
    }
  }

  lemma FlipKeepsTable(
    desk: Comments.Desk, rows: seq<Row>, id: RowId, email: EmailStatus, error: string, at: Option<int>)
    requires TableSound(desk, rows) && id < |rows|
    requires match email
             case Sent => at.Some? && error == rows[id].error
             case Failed => at == rows[id].emailedAt
             case _ => false
    ensures TableSound(desk, Flip(rows, id, email, error, at))
  {
    assert RowSound(desk, rows[id]);
  }

  lemma ReadKeepsTable(desk: Comments.Desk, rows: seq<Row>, id: RowId, u: UserId, now: int)
    requires TableSound(desk, rows)
    ensures id < |rows| ==> TableSound(desk, rows[id := Read(rows[id], now)])
    ensures TableSound(desk, ReadAll(rows, u, now))
  {
    forall i | 0 <= i < |rows| ensures RowSound(desk, Read(rows[i], now)) {
      assert RowSound(desk, rows[i]);
    }
  }

  lemma DeskGrowthKeepsTable(d: Comments.Desk, e: Comments.Desk, rows: seq<Row>)
    requires Comments.Extends(d, e) && TableSound(d, rows)
    ensures TableSound(e, rows)
  {
    forall i | 0 <= i < |rows| ensures RowSound(e, rows[i]) {
      assert RowSound(d, rows[i]);
      MentionsStayRespected(d, e, rows[i].key.kind, rows[i].recipient, rows[i].comment);
    }
  }

  lemma MentionsStayRespected(d: Comments.Desk, e: Comments.Desk, k: Kind, u: UserId, c: Option<CommentId>)
    requires Comments.Extends(d, e) && RespectsMentions(d, k, u, c)
    ensures RespectsMentions(e, k, u, c)
  {
    if c.Some? && c.value < |d.comments| {
      assert Comments.MayBecome(d.comments[c.value], e.comments[c.value]);
    }
  }

  // The other parts of a step

  /** What a worker knows stays true while others act. */
  lemma WorkStaysSound(s: System, t: System, work: Work)
    requires Comments.Extends(s.desk, t.desk) && RowsEvolve(s.rows, t.rows) && s.mails <= t.mails
    requires WorkSound(s, work)
    requires work.Dispatching? ==> forall id <- work.ids :: id !in t.dispatched
    ensures WorkSound(t, work)
  {
    match work
    case Resolved(e, c, users) =>
      forall u <- users ensures MayReceive(t.desk, e, c, u) {
        assert MayReceive(s.desk, e, c, u);
        MentionsStayRespected(s.desk, t.desk, e.kind, u, c);
      }
    case Dispatching(ids) =>
      forall id <- ids ensures Mailable(t.rows, id) {
        assert MayTurnInto(s.rows[id], t.rows[id]);
      }
    case Sending(id) => assert MayTurnInto(s.rows[id], t.rows[id]);
    case Accepted(id) => assert MayTurnInto(s.rows[id], t.rows[id]);
    case OutOfRetries(id, _) => assert MayTurnInto(s.rows[id], t.rows[id]);
  }

  lemma MailableStays(was: seq<Row>, now: seq<Row>, id: RowId)
    requires RowsEvolve(was, now) && Mailable(was, id)
    ensures Mailable(now, id)
  {
    assert MayTurnInto(was[id], now[id]);
  }

  lemma ExtendsSelf(d: Comments.Desk)
    ensures Comments.Extends(d, d)
  {
  }

  /** The parts a step leaves alone: workers other than `w`, and the records. */
  lemma OthersStaySound(s: System, t: System, w: Worker)
    requires forall v | v in s.workers :: WorkSound(s, s.workers[v])
    requires Comments.Extends(s.desk, t.desk) && RowsEvolve(s.rows, t.rows) && s.mails <= t.mails
    requires t.workers - {w} == s.workers - {w}
    requires t.dispatched == s.dispatched
    requires w in t.workers ==> WorkSound(t, t.workers[w])
    ensures forall v | v in t.workers :: WorkSound(t, t.workers[v])
  {
    forall v | v in t.workers ensures WorkSound(t, t.workers[v]) {
      if v != w {
        assert v in t.workers - {w};
        assert v in s.workers && t.workers[v] == (t.workers - {w})[v] == (s.workers - {w})[v] == s.workers[v];
        WorkStaysSound(s, t, s.workers[v]);
      }
    }
  }

  /** Growing rows keep the records sound. */
  lemma RecordsStaySound(s: System, t: System)
    requires RecordsSound(s) && RowsEvolve(s.rows, t.rows)
    requires t.dispatched == s.dispatched && t.mails == s.mails
    requires forall id: RowId | Send(id) in t.queue :: Send(id) in s.queue || Mailable(s.rows, id)
    requires forall i | 0 <= i < |t.rows| && t.rows[i].email == Sent :: i in s.mails
    ensures RecordsSound(t)
  {
    forall id: RowId | Mailable(s.rows, id) ensures Mailable(t.rows, id) {
      MailableStays(s.rows, t.rows, id);
    }
  }

  lemma IdleKeepsSound(s: System, w: Worker)
    requires Sound(s)
    ensures Sound(Idle(s, w))
  {
  }

  lemma QueueKeepsSound(s: System, queue: multiset<Message>)
    requires Sound(s)
    requires forall id: RowId | Send(id) in queue :: Send(id) in s.queue || Mailable(s.rows, id)
    ensures Sound(s.(queue := queue))
  {
    var t := s.(queue := queue);
    forall w | w in t.workers ensures WorkSound(t, t.workers[w]) {
      assert WorkSound(s, s.workers[w]);
    }
  }

  /** Putting a worker at a point where it holds no undispatched ids. */
  lemma WorkKeepsSound(s: System, w: Worker, work: Work)
    requires Sound(s) && !work.Dispatching? && WorkSound(s, work)
    ensures Sound(s.(workers := s.workers[w := work]))
  {
    var t := s.(workers := s.workers[w := work]);
    forall v | v in t.workers ensures WorkSound(t, t.workers[v]) {
      assert v != w ==> WorkSound(s, s.workers[v]);
    }
  }

  /** Whoever a task resolves may receive the notification: never the actor, and about a comment either
      those it mentions or only the others. */
  lemma RecipientsMayReceive(desk: Comments.Desk, a: Around, e: Event, u: UserId)
    requires u in Recipients(desk, a, e, Lookup(desk, e.comment))
    ensures MayReceive(desk, e, Lookup(desk, e.comment), u) && u in a.members
  {
  }

  lemma StartKeepsSound(s: System, w: Worker, m: Message, order: seq<UserId>)
    requires Sound(s) && (m.Send? ==> Mailable(s.rows, m.row))
    ensures Sound(Start(s, w, m, order))
  {
    match m
    case Create(e) =>
      var c := Lookup(s.desk, e.comment);
      if order != [] && Lists(order, Recipients(s.desk, s.around, e, c)) {
        forall u <- order ensures MayReceive(s.desk, e, c, u) {
          RecipientsMayReceive(s.desk, s.around, e, u);
        }
        WorkKeepsSound(s, w, Resolved(e, c, order));
      }
    case Send(id) => WorkKeepsSound(s, w, Sending(id));
  }

  lemma {:induction false} PendingIds(rows: seq<Row>, from: RowId)
    requires from <= |rows|
    ensures var ids := PendingFrom(rows, from);
            && NoRepeats(ids)
            && forall id :: id in ids <==> from <= id < |rows| && rows[id].email == Pending
    decreases |rows|
  {
    if from < |rows| {
      var n := |rows| - 1;
      var before := PendingFrom(rows[..n], from);
      PendingIds(rows[..n], from);
      assert n !in before && before + [] == before;
      assert forall id | from <= id < n :: rows[..n][id] == rows[id];
    }
  }

  /** What a committed transaction adds: sound rows, and the fresh ids of those to be mailed. */
  lemma CommitAdds(s: System, e: Event, c: Option<CommentId>, users: seq<UserId>)
    requires Sound(s) && !BreaksConstraint(e, c) && forall u <- users :: MayReceive(s.desk, e, c, u)
    ensures var rows := Inserted(s.around, s.rows, e, c, users);
            && s.rows <= rows && TableSound(s.desk, rows)
            && (forall i | 0 <= i < |rows| && rows[i].email == Sent :: i in s.mails)
            && NoRepeats(NewPending(s.rows, rows))
            && forall id <- NewPending(s.rows, rows) :: |s.rows| <= id && Mailable(rows, id)
  {
    var rows := Inserted(s.around, s.rows, e, c, users);
    InsertKeepsTable(s.desk, s.around, s.rows, e, c, users);
    InsertedRows(s.around, s.rows, e, c, users);
    PendingIds(rows, |s.rows|);
    forall i | 0 <= i < |rows| && rows[i].email == Sent ensures i in s.mails {
      if i < |s.rows| {
        assert rows[i] == s.rows[i];
      }
    }
  }

  lemma CommitKeepsSound(s: System, w: Worker)
    requires Sound(s) && w in s.workers && s.workers[w].Resolved?
    ensures Sound(Continue(s, w, Commit(w)))
  {
    var e, c, users := s.workers[w].event, s.workers[w].comment, s.workers[w].recipients;
    var t := Continue(s, w, Commit(w));
    assert WorkSound(s, s.workers[w]);
    if BreaksConstraint(e, c) {
      IdleKeepsSound(s, w);
    } else {
      CommitAdds(s, e, c, users);
      PrefixEvolves(s.rows, t.rows);
      ExtendsSelf(s.desk);
      OthersStaySound(s, t, w);
      CommitStaysApart(s, t, w);
      RecordsStaySound(s, t);
    }
  }

  lemma CommitStaysApart(s: System, t: System, w: Worker)
    requires (forall v | v in s.workers :: WorkSound(s, s.workers[v])) && Apart(s.workers)
    requires w in t.workers && t.workers == s.workers[w := t.workers[w]]
    requires t.workers[w].Dispatching? ==> forall id <- t.workers[w].ids :: id >= |s.rows|
    ensures Apart(t.workers)
  {
    forall v | v in s.workers && s.workers[v].Dispatching?
      ensures forall id <- s.workers[v].ids :: id < |s.rows|
    {
      assert WorkSound(s, s.workers[v]);
    }
  }

  lemma DispatchKeepsSound(s: System, w: Worker, lost: bool)
    requires Sound(s) && w in s.workers && s.workers[w].Dispatching?
    ensures Sound(Continue(s, w, Dispatch(w, lost)))
  {
    var ids, t := s.workers[w].ids, Continue(s, w, Dispatch(w, lost));
    assert WorkSound(s, s.workers[w]);
    if ids == [] {
      IdleKeepsSound(s, w);
    } else {
      assert ids == [ids[0]] + ids[1..] && ids[0] in ids;
      forall v | v in t.workers ensures WorkSound(t, t.workers[v]) {
        if v != w {
          WorkStaysSound(s.(dispatched := t.dispatched), t, s.workers[v]) by {
            assert WorkSound(s, s.workers[v]);
            ExtendsSelf(s.desk);
            PrefixEvolves(s.rows, s.rows);
            if s.workers[v].Dispatching? {
              assert ids[0] !in s.workers[v].ids;
            }
          }
        }
      }
    }
  }

  lemma MailKeepsSound(s: System, w: Worker, outcome: SmtpOutcome)
    requires Sound(s) && w in s.workers && s.workers[w].Sending?
    ensures Sound(Continue(s, w, Mail(w, outcome)))
  {
    var id, t := s.workers[w].id, Continue(s, w, Mail(w, outcome));
    assert WorkSound(s, s.workers[w]);
    match outcome
    case Success =>
      ExtendsSelf(s.desk);
      PrefixEvolves(s.rows, s.rows);
      OthersStaySound(s, t, w);
    case Retry =>
      QueueKeepsSound(s, s.queue + multiset{Send(id)});
      IdleKeepsSound(s.(queue := s.queue + multiset{Send(id)}), w);
    case GiveUp(summary) => WorkKeepsSound(s, w, OutOfRetries(id, summary));
  }

  lemma RowsKeepSound(s: System, rows: seq<Row>)
    requires Sound(s) && TableSound(s.desk, rows) && RowsEvolve(s.rows, rows)
    requires forall i | 0 <= i < |rows| && rows[i].email == Sent :: i in s.mails
    ensures Sound(s.(rows := rows))
  {
    var t := s.(rows := rows);
    ExtendsSelf(s.desk);
    RecordsStaySound(s, t);
    forall w | w in t.workers ensures WorkSound(t, t.workers[w]) {
      WorkStaysSound(s, t, s.workers[w]);
    }
  }

  lemma FlipKeepsSound(s: System, id: RowId, email: EmailStatus, error: string, at: Option<int>)
    requires Sound(s) && id < |s.rows|
    requires match email
             case Sent => at.Some? && error == s.rows[id].error && id in s.mails
             case Failed => at == s.rows[id].emailedAt
             case _ => false
    ensures Sound(s.(rows := Flip(s.rows, id, email, error, at)))
  {
    FlipKeepsTable(s.desk, s.rows, id, email, error, at);
    FlipEvolves(s.rows, id, email, error, at);
    RowsKeepSound(s, Flip(s.rows, id, email, error, at));
  }

  lemma SettleKeepsSound(s: System, w: Worker, now: int)
    requires Sound(s) && w in s.workers && (s.workers[w].Accepted? || s.workers[w].OutOfRetries?)
    ensures Sound(Continue(s, w, Settle(w, now)))
  {
    assert WorkSound(s, s.workers[w]);
    match s.workers[w]
    case Accepted(id) =>
      FlipKeepsSound(s, id, Sent, s.rows[id].error, Some(now));
      IdleKeepsSound(s.(rows := Flip(s.rows, id, Sent, s.rows[id].error, Some(now))), w);
    case OutOfRetries(id, summary) =>
      FlipKeepsSound(s, id, Failed, summary, s.rows[id].emailedAt);
      IdleKeepsSound(s.(rows := Flip(s.rows, id, Failed, summary, s.rows[id].emailedAt)), w);
    case _ =>
  }

  lemma {:induction false} TasksAreCreations(
    desk: Comments.Desk, notices: seq<Comments.Notice>, lost: set<Comments.Notice>)
    requires forall n <- notices :: n.comment < |desk.comments|
    ensures forall m <- TasksFor(desk, notices, lost) :: m.Create?
  {
    if notices != [] {
      TasksAreCreations(desk, notices[..|notices| - 1], lost);
    }
  }

  lemma CommentKeepsSound(settings: Comments.Settings, s: System, q: Comments.Call, lost: set<Comments.Notice>)
    requires Sound(s)
    ensures Sound(ServeComment(settings, s, q, lost))
  {
    var call := q.(around := q.around.(members := s.around.members));
    var desk := Comments.Serve(settings, s.desk, call).0;
    Comments.ServeExtends(settings, s.desk, call);
    var t := s.(desk := desk);
    DeskGrowthKeepsTable(s.desk, desk, s.rows);
    PrefixEvolves(s.rows, s.rows);
    forall w | w in t.workers ensures WorkSound(t, t.workers[w]) {
      WorkStaysSound(s, t, s.workers[w]);
    }
    var tasks := TasksFor(desk, desk.outbox[|s.desk.outbox|..], lost);
    TasksAreCreations(desk, desk.outbox[|s.desk.outbox|..], lost);
    QueueKeepsSound(t, s.queue + tasks);
  }

  lemma ContinueKeepsSound(s: System, w: Worker, a: Action)
    requires Sound(s) && w in s.workers && (a.Commit? || a.Dispatch? || a.Mail? || a.Settle?) && a.worker == w
    ensures Sound(Continue(s, w, a))
  {
    match (s.workers[w], a)
    case (Resolved(_, _, _), Commit(_)) => CommitKeepsSound(s, w);
    case (Dispatching(_), Dispatch(_, lost)) => DispatchKeepsSound(s, w, lost);
    case (Sending(_), Mail(_, outcome)) => MailKeepsSound(s, w, outcome);
    case (Accepted(_), Settle(_, now)) => SettleKeepsSound(s, w, now);
    case (OutOfRetries(_, _), Settle(_, now)) => SettleKeepsSound(s, w, now);
    case _ =>
  }

  lemma DeliverKeepsSound(settings: Comments.Settings, s: System, a: Action)
    requires Sound(s) && a.Deliver?
    ensures Sound(Act(settings, s, a))
  {
    if a.message in s.queue && a.worker !in s.workers {
      var queue := if a.redelivered then s.queue else s.queue - multiset{a.message};
      QueueKeepsSound(s, queue);
      StartKeepsSound(s.(queue := queue), a.worker, a.message, a.order);
    }
  }

  lemma ReadKeepsSound(s: System, id: RowId, u: UserId, now: int)
    requires Sound(s)
    ensures id < |s.rows| ==> Sound(s.(rows := s.rows[id := Read(s.rows[id], now)]))
    ensures Sound(s.(rows := ReadAll(s.rows, u, now)))
  {
    ReadKeepsTable(s.desk, s.rows, id, u, now);
    ReadEvolves(s.rows, id, u, now);
    if id < |s.rows| {
      RowsKeepSound(s, s.rows[id := Read(s.rows[id], now)]);
    }
    RowsKeepSound(s, ReadAll(s.rows, u, now));
  }

  lemma AroundKeepsSound(s: System, around: Around)
    requires Sound(s)
    ensures Sound(s.(around := around))
  {
    var t := s.(around := around);
    forall w | w in t.workers ensures WorkSound(t, t.workers[w]) {
      assert WorkSound(s, s.workers[w]);
    }
  }

  /** The steps of the broker and of the services around the pipeline. */
  lemma OutsideKeepsSound(settings: Comments.Settings, s: System, a: Action)
    requires Sound(s) && (a.Notify? || a.ChangeAround? || a.Lose? || a.Crash?)
    ensures Sound(Act(settings, s, a))
  {
    match a
    case Notify(e, _) => QueueKeepsSound(s, s.queue + multiset{Create(e)});
    case ChangeAround(around) => AroundKeepsSound(s, around);
    case Lose(m) => QueueKeepsSound(s, s.queue - multiset{m});
    case Crash(w) => IdleKeepsSound(s, w);
  }

  lemma ActKeepsSound(settings: Comments.Settings, s: System, a: Action)
    requires Sound(s)
    ensures Sound(Act(settings, s, a))
  {
    match a
    case Comment(q, lost) => CommentKeepsSound(settings, s, q, lost);
    case Deliver(_, _, _, _) => DeliverKeepsSound(settings, s, a);
    case MarkRead(id, now) => ReadKeepsSound(s, id, 0, now);
    case MarkAllRead(u, now) => ReadKeepsSound(s, 0, u, now);
    case Notify(_, _) => OutsideKeepsSound(settings, s, a);
    case ChangeAround(_) => OutsideKeepsSound(settings, s, a);
    case Lose(_) => OutsideKeepsSound(settings, s, a);
    case Crash(_) => OutsideKeepsSound(settings, s, a);
    case _ => if a.worker in s.workers { ContinueKeepsSound(s, a.worker, a); }
  }

  lemma {:induction false} RunStaysSound(settings: Comments.Settings, actions: seq<Action>)
    ensures Sound(Play(settings, NOTHING_YET, actions))
  {
    if actions != [] {
      RunStaysSound(settings, actions[..|actions| - 1]);
      ActKeepsSound(settings, Play(settings, NOTHING_YET, actions[..|actions| - 1]), Last(actions));
    }
  }

  // ---------------------------------------------------------------------------------------------
  // What every run guarantees

  /** Whatever is redelivered, lost or retried: a recipient has at most one row for an event, is never its
      actor, and the row's e-mail columns fit its status. */
  lemma OneRowPerRecipient(settings: Comments.Settings, actions: seq<Action>)
    ensures var rows := Play(settings, NOTHING_YET, actions).rows;
            && (forall i, j | 0 <= i < j < |rows| && rows[i].recipient == rows[j].recipient
                  :: rows[i].key != rows[j].key)
            && forall r <- rows :: r.actor != Some(r.recipient) && EmailFits(r)
  {
    RunStaysSound(settings, actions);
    var rows := Play(settings, NOTHING_YET, actions).rows;
    forall r <- rows ensures r.actor != Some(r.recipient) && EmailFits(r) {
      var i :| 0 <= i < |rows| && rows[i] == r;
      assert RowSound(Play(settings, NOTHING_YET, actions).desk, rows[i]);
    }
  }

  /** Nobody is told both that a comment mentions them and that it was added, in whatever order its two
      tasks run. */
  lemma MentionTakesPrecedence(settings: Comments.Settings, actions: seq<Action>, i: RowId, j: RowId)
    requires var rows := Play(settings, NOTHING_YET, actions).rows;
             i < |rows| && j < |rows| && rows[i].key.kind == Mentioned && rows[j].key.kind == CommentAdded &&
             rows[i].comment == rows[j].comment
    ensures var rows := Play(settings, NOTHING_YET, actions).rows;
            rows[i].recipient != rows[j].recipient
  {
    RunStaysSound(settings, actions);
    var s := Play(settings, NOTHING_YET, actions);
    assert RowSound(s.desk, s.rows[i]) && RowSound(s.desk, s.rows[j]);
  }

  /** Creation tasks queue at most one send task per row, and none for a disabled one; a row counts as
      sent only if the mail server took its message, and no message goes out for a disabled row. */
  lemma OneSendTaskPerRow(settings: Comments.Settings, actions: seq<Action>)
    ensures var s := Play(settings, NOTHING_YET, actions);
            && NoRepeats(s.dispatched)
            && (forall i | 0 <= i < |s.rows| :: s.rows[i].email == Sent ==> i in s.mails)
            && (forall i | 0 <= i < |s.rows| :: s.rows[i].email == Disabled ==> i !in s.mails && i !in s.dispatched)
  {
    RunStaysSound(settings, actions);
  }

  /** The row is not pending and no worker is about to mail it. */
  ghost predicate IsSettled(s: System, id: RowId) {
    && id < |s.rows| && s.rows[id].email != Pending
    && forall w | w in s.workers :: s.workers[w] != Sending(id)
  }

  lemma SettledWhileContinuing(s: System, w: Worker, a: Action, id: RowId)
    requires w in s.workers && (a.Commit? || a.Dispatch? || a.Mail? || a.Settle?) && a.worker == w && IsSettled(s, id)
    ensures var t := Continue(s, w, a);
            && (forall v | v in t.workers :: t.workers[v] != Sending(id))
            && Times(t.mails, id) == Times(s.mails, id)
  {
    var t := Continue(s, w, a);
    if s.workers[w].Sending? && t.mails != s.mails {
      TimesAppend(s.mails, [s.workers[w].id], id);
    }
  }

  lemma SettledWhileDelivering(settings: Comments.Settings, s: System, a: Action, id: RowId)
    requires a.Deliver? && IsSettled(s, id)
    ensures var t := Act(settings, s, a);
            t.mails == s.mails && forall v | v in t.workers :: t.workers[v] != Sending(id)
  {
  }

  lemma SettledMeanwhile(settings: Comments.Settings, s: System, a: Action, id: RowId)
    requires !a.Deliver? && !a.Commit? && !a.Dispatch? && !a.Mail? && !a.Settle? && IsSettled(s, id)
    ensures var t := Act(settings, s, a);
            t.mails == s.mails && forall v | v in t.workers :: v in s.workers && t.workers[v] == s.workers[v]
  {
  }

  lemma ActKeepsSettled(settings: Comments.Settings, s: System, a: Action, id: RowId)
    requires IsSettled(s, id)
    ensures IsSettled(Act(settings, s, a), id) && Times(Act(settings, s, a).mails, id) == Times(s.mails, id)
  {
    var t := Act(settings, s, a);
    assert MayTurnInto(s.rows[id], t.rows[id]) by {
      ActEvolvesRows(settings, s, a);
    }
    if a.Commit? || a.Dispatch? || a.Mail? || a.Settle? {
      if a.worker in s.workers {
        SettledWhileContinuing(s, a.worker, a, id);
      }
    } else if a.Deliver? {
      SettledWhileDelivering(settings, s, a, id);
    } else {
      SettledMeanwhile(settings, s, a, id);
    }
  }

  /** Once a send has been recorded, no redelivered or retried task mails the row again. */
  lemma {:induction false} NothingIsMailedAfterwards(
    settings: Comments.Settings, s: System, actions: seq<Action>, id: RowId)
    requires IsSettled(s, id)
    ensures IsSettled(Play(settings, s, actions), id)
    ensures Times(Play(settings, s, actions).mails, id) == Times(s.mails, id)
  {
    if actions != [] {
      NothingIsMailedAfterwards(settings, s, actions[..|actions| - 1], id);
      ActKeepsSettled(settings, Play(settings, s, actions[..|actions| - 1]), Last(actions), id);
    }
  }

  // ---------------------------------------------------------------------------------------------
  // The tasks as written

  function SendTasks(ids: seq<RowId>, lost: set<RowId>): multiset<Message> {
    if ids == [] then multiset{}
    else SendTasks(ids[..|ids| - 1], lost) + if Last(ids) in lost then multiset{} else multiset{Send(Last(ids))}
  }

  function Surviving(ids: seq<RowId>, lost: set<RowId>): seq<RowId> {
    if ids == [] then []
    else Surviving(ids[..|ids| - 1], lost) + if Last(ids) in lost then [] else [Last(ids)]
  }

  lemma OneMoreTask(ids: seq<RowId>, i: nat, lost: set<RowId>, before: seq<RowId>)
    requires i < |ids|
    ensures SendTasks(ids[..i + 1], lost) ==
            SendTasks(ids[..i], lost) + if ids[i] in lost then multiset{} else multiset{Send(ids[i])}
    ensures before + Surviving(ids[..i + 1], lost) ==
            before + Surviving(ids[..i], lost) + if ids[i] in lost then [] else [ids[i]]
  {
    assert ids[..i + 1][..i] == ids[..i];
  }

  /** A creation task from start to end, the broker failing for the ids in `lost`. */
  function CreateAll(s: System, e: Event, users: seq<UserId>, lost: set<RowId>): System {
    var comment := Lookup(s.desk, e.comment);
    if users == [] || BreaksConstraint(e, comment) then s
    else
      var rows := Inserted(s.around, s.rows, e, comment, users);
      var ids := NewPending(s.rows, rows);
      s.(rows := rows, queue := s.queue + SendTasks(ids, lost), dispatched := s.dispatched + Surviving(ids, lost))
  }

  /** A send task from start to end. */
  function SendAll(s: System, id: RowId, outcome: SmtpOutcome, now: int): System {
    if |s.rows| <= id || s.rows[id].email != Pending then s
    else
      match outcome
      case Success =>
        s.(mails := s.mails + [id], rows := Flip(s.rows, id, Sent, s.rows[id].error, Some(now)))
      case Retry => s.(queue := s.queue + multiset{Send(id)})
      case GiveUp(summary) => s.(rows := Flip(s.rows, id, Failed, summary, s.rows[id].emailedAt))
  }

  class Pipeline {
    const desk: Comments.Desk
    const around: Around
    var rows: seq<Row>
    var queue: multiset<Message>
    var dispatched: seq<RowId>
    var mails: seq<RowId>

    constructor (desk: Comments.Desk, around: Around, rows: seq<Row>)
      ensures State() == System(desk, around, rows, multiset{}, map[], [], [])
    {
      this.desk, this.around, this.rows := desk, around, rows;
      queue, dispatched, mails := multiset{}, [], [];
    }

    ghost function State(): System
      reads this
    {
      System(desk, around, rows, queue, map[], dispatched, mails)
    }

    method GetOrCreate(recipient: UserId, e: Event, comment: Option<CommentId>) returns (id: RowId, created: bool)
      modifies `rows
      ensures created <==> !Holds(old(rows), recipient, KeyOf(e))
      ensures rows == if created then old(rows) + [NewRow(around, e, comment, recipient)] else old(rows)
      ensures id < |rows| && rows[id].recipient == recipient && rows[id].key == KeyOf(e)
      ensures created ==> id == |old(rows)|
    {
      id := 0;
      while id < |rows|
        invariant id <= |rows| && rows == old(rows)
        invariant forall i | 0 <= i < id :: rows[i].recipient != recipient || rows[i].key != KeyOf(e)
      {
        if rows[id].recipient == recipient && rows[id].key == KeyOf(e) {
          return id, false;
        }
        id := id + 1;
      }
      rows := rows + [NewRow(around, e, comment, recipient)];
      created := true;
    }

    /** The transaction of a creation task. */
    method InsertRows(e: Event, comment: Option<CommentId>, recipients: seq<UserId>) returns (pending: seq<RowId>)
      modifies `rows
      ensures rows == Inserted(around, old(rows), e, comment, recipients)
      ensures pending == NewPending(old(rows), rows)
    {
      pending := [];
      assert PendingFrom(rows, |rows|) == [];
      for i := 0 to |recipients|
        invariant rows == Inserted(around, old(rows), e, comment, recipients[..i])
        invariant |old(rows)| <= |rows| && pending == PendingFrom(rows, |old(rows)|)
      {
        assert recipients[..i + 1][..i] == recipients[..i];
        ghost var before := rows;
        var id, created := GetOrCreate(recipients[i], e, comment);
        if created {
          assert rows[..|rows| - 1] == before;
          if rows[id].email == Pending {
            pending := pending + [id];
          }
        }
      }
      assert recipients[..|recipients|] == recipients;
    }

    /** After the transaction: each dispatch on its own, so that one failure skips no other. */
    method DispatchEmails(ids: seq<RowId>, lost: set<RowId>)
      modifies `queue, `dispatched
      ensures queue == old(queue) + SendTasks(ids, lost)
      ensures dispatched == old(dispatched) + Surviving(ids, lost)
    {
      for i := 0 to |ids|
        invariant queue == old(queue) + SendTasks(ids[..i], lost)
        invariant dispatched == old(dispatched) + Surviving(ids[..i], lost)
      {
        OneMoreTask(ids, i, lost, old(dispatched));
        if ids[i] !in lost {
          queue := queue + multiset{Send(ids[i])};
          dispatched := dispatched + [ids[i]];
        }
      }
      assert ids[..|ids|] == ids;
    }

    method CreateNotificationsForEvent(e: Event, recipients: seq<UserId>, lost: set<RowId>)
      requires Lists(recipients, Recipients(desk, around, e, Lookup(desk, e.comment)))
      modifies `rows, `queue, `dispatched
      ensures State() == CreateAll(old(State()), e, recipients, lost)
    {
      if recipients == [] {
        return;
      }
      var comment := Lookup(desk, e.comment);
      if BreaksConstraint(e, comment) {
        return;
      }
      var pending := InsertRows(e, comment, recipients);
      DispatchEmails(pending, lost);
    }

    method MarkEmailFailed(id: RowId, summary: string)
      requires id < |rows|
      modifies `rows
      ensures rows == Flip(old(rows), id, Failed, summary, old(rows)[id].emailedAt)
    {
      if rows[id].email == Pending {
        rows := rows[id := rows[id].(email := Failed, error := summary)];
      }
    }

    method SendNotificationEmail(id: RowId, outcome: SmtpOutcome, now: int)
      modifies `rows, `queue, `mails
      ensures State() == SendAll(old(State()), id, outcome, now)
    {
      if |rows| <= id || rows[id].email != Pending {
        return;
      }
      match outcome
      case Retry =>
        queue := queue + multiset{Send(id)};
      case GiveUp(summary) =>
        MarkEmailFailed(id, summary);
      case Success =>
        mails := mails + [id];
        if rows[id].email == Pending {
          rows := rows[id := rows[id].(email := Sent, emailedAt := Some(now))];
        }
    }
  }

  /** Who is told about an event: members other than the actor, namely the new assignee, those a comment
      mentions, or the watchers of the bug, of whom a new comment spares those it mentions. */
  lemma RecipientsExactly(desk: Comments.Desk, a: Around, e: Event, u: UserId)
    ensures var comment := Lookup(desk, e.comment);
            var mentioned := comment.Some? && u in desk.comments[comment.value].mentioned;
            var watches := e.bug in a.watchers && u in a.watchers[e.bug];
            u in Recipients(desk, a, e, comment) <==>
            && u in a.members && e.actor != Some(u)
            && (e.kind == BugAssigned ==> e.assignee == Some(u))
            && (e.kind == Mentioned ==> mentioned)
            && (e.kind == CommentAdded ==> watches && !mentioned)
            && (e.kind.StatusChanged? || e.kind.BugReopened? ==> watches)
  {
  }

  /** After a creation task exactly its recipients, and those who had a row before, have a row for the
      event; rows of other events are untouched. */
  lemma EveryRecipientIsNotified(s: System, e: Event, users: seq<UserId>, lost: set<RowId>, u: UserId)
    requires OneEach(s.rows) && !BreaksConstraint(e, Lookup(s.desk, e.comment))
    requires Lists(users, Recipients(s.desk, s.around, e, Lookup(s.desk, e.comment)))
    ensures var t := CreateAll(s, e, users, lost);
            && s.rows <= t.rows && OneEach(t.rows)
            && (Holds(t.rows, u, KeyOf(e)) <==>
                  Holds(s.rows, u, KeyOf(e)) || u in Recipients(s.desk, s.around, e, Lookup(s.desk, e.comment)))
            && forall i | |s.rows| <= i < |t.rows| ::
                 var r, choice := t.rows[i], (t.rows[i].recipient, e.kind);
                 && r.key == KeyOf(e) && r.readAt.None?
                 && r.email == (if choice in s.around.preferences && !s.around.preferences[choice] then Disabled
                       else Pending)
  {
    InsertedRows(s.around, s.rows, e, Lookup(s.desk, e.comment), users);
    var t := CreateAll(s, e, users, lost);
    if Holds(s.rows, u, KeyOf(e)) {
      StillHolds(s.rows, t.rows, u, KeyOf(e));
    }
    if Holds(t.rows, u, KeyOf(e)) {
      var i :| 0 <= i < |t.rows| && t.rows[i].recipient == u && t.rows[i].key == KeyOf(e);
      if i < |s.rows| {
        assert s.rows[i] == t.rows[i];
      }
    }
  }

  // The tasks as written are runs of the machine with nobody in between

  lemma {:induction false} PlayConcat(settings: Comments.Settings, s: System, a: seq<Action>, b: seq<Action>)
    ensures Play(settings, s, a + b) == Play(settings, Play(settings, s, a), b)
  {
    if b == [] {
      assert a + b == a;
    } else {
      PlayConcat(settings, s, a, b[..|b| - 1]);
      assert (a + b)[..|a + b| - 1] == a + b[..|b| - 1];
    }
  }

  lemma PlayOne(settings: Comments.Settings, s: System, a: Action)
    ensures Play(settings, s, [a]) == Act(settings, s, a)
  {
    assert [a][..0] == [];
  }

  function DispatchesOf(w: Worker, ids: seq<RowId>, lost: set<RowId>): seq<Action> {
    seq(|ids|, i requires 0 <= i < |ids| => Dispatch(w, ids[i] in lost))
  }

  /** A worker with the first `n` of its ids dispatched. */
  function AfterDispatches(s: System, w: Worker, ids: seq<RowId>, n: nat, lost: set<RowId>): System
    requires n <= |ids|
  {
    s.(queue := s.queue + SendTasks(ids[..n], lost),
       dispatched := s.dispatched + Surviving(ids[..n], lost),
       workers := s.workers[w := Dispatching(ids[n..])])
  }

  lemma DispatchStep(settings: Comments.Settings, s: System, w: Worker, ids: seq<RowId>, lost: bool)
    requires w in s.workers && s.workers[w] == Dispatching(ids) && ids != []
    ensures Act(settings, s, Dispatch(w, lost)) ==
            s.(queue := s.queue + if lost then multiset{} else multiset{Send(ids[0])},
               dispatched := s.dispatched + if lost then [] else [ids[0]],
               workers := s.workers[w := Dispatching(ids[1..])])
  {
    assert Act(settings, s, Dispatch(w, lost)) == Continue(s, w, Dispatch(w, lost));
  }

  lemma OneDispatch(settings: Comments.Settings, s: System, w: Worker, ids: seq<RowId>, n: nat, lost: set<RowId>)
    requires n < |ids|
    ensures Act(settings, AfterDispatches(s, w, ids, n, lost), Dispatch(w, ids[n] in lost))
         == AfterDispatches(s, w, ids, n + 1, lost)
  {
    var some := AfterDispatches(s, w, ids, n, lost);
    DispatchStep(settings, some, w, ids[n..], ids[n] in lost);
    OneMoreTask(ids, n, lost, s.dispatched);
    assert ids[n..][1..] == ids[n + 1..];
    assert some.workers[w := Dispatching(ids[n + 1..])] == s.workers[w := Dispatching(ids[n + 1..])];
  }

  lemma {:induction false} DispatchesRun(
    settings: Comments.Settings, s: System, w: Worker, ids: seq<RowId>, n: nat, lost: set<RowId>)
    requires n <= |ids| && w in s.workers && s.workers[w] == Dispatching(ids)
    ensures Play(settings, s, DispatchesOf(w, ids, lost)[..n]) == AfterDispatches(s, w, ids, n, lost)
  {
    var steps := DispatchesOf(w, ids, lost);
    if n > 0 {
      DispatchesRun(settings, s, w, ids, n - 1, lost);
      OneDispatch(settings, s, w, ids, n - 1, lost);
      assert steps[..n][..n - 1] == steps[..n - 1] && Last(steps[..n]) == Dispatch(w, ids[n - 1] in lost);
    } else {
      assert s.dispatched + [] == s.dispatched && ids[0..] == ids && s.workers[w := Dispatching(ids)] == s.workers;
    }
  }

  /** The steps of a creation task with nobody in between. */
  function CreationSteps(s: System, w: Worker, e: Event, users: seq<UserId>, lost: set<RowId>): seq<Action> {
    var start := [Deliver(w, Create(e), true, users), Commit(w)];
    if users == [] || BreaksConstraint(e, Lookup(s.desk, e.comment)) then start
    else
      var rows := Inserted(s.around, s.rows, e, Lookup(s.desk, e.comment), users);
      start + (DispatchesOf(w, NewPending(s.rows, rows), lost) + [Dispatch(w, false)])
  }

  lemma PlayTwo(settings: Comments.Settings, s: System, a: Action, b: Action)
    ensures Play(settings, s, [a, b]) == Act(settings, Act(settings, s, a), b)
  {
    PlayOne(settings, s, a);
    assert [a, b][..1] == [a];
  }

  lemma CreationStarts(settings: Comments.Settings, s: System, w: Worker, e: Event, users: seq<UserId>)
    requires Create(e) in s.queue && w !in s.workers
    requires Lists(users, Recipients(s.desk, s.around, e, Lookup(s.desk, e.comment)))
    requires users != [] && !BreaksConstraint(e, Lookup(s.desk, e.comment))
    ensures var rows := Inserted(s.around, s.rows, e, Lookup(s.desk, e.comment), users);
            Play(settings, s, [Deliver(w, Create(e), true, users), Commit(w)]) ==
            s.(rows := rows, workers := s.workers[w := Dispatching(NewPending(s.rows, rows))])
  {
    PlayTwo(settings, s, Deliver(w, Create(e), true, users), Commit(w));
    var resolved := s.(workers := s.workers[w := Resolved(e, Lookup(s.desk, e.comment), users)]);
    assert Act(settings, s, Deliver(w, Create(e), true, users)) == resolved;
    assert Act(settings, resolved, Commit(w)) == Continue(resolved, w, Commit(w));
  }

  lemma DispatchesEnd(settings: Comments.Settings, s: System, w: Worker, ids: seq<RowId>, lost: set<RowId>)
    requires w in s.workers && s.workers[w] == Dispatching(ids)
    ensures Play(settings, s, DispatchesOf(w, ids, lost) + [Dispatch(w, false)]) ==
            s.(queue := s.queue + SendTasks(ids, lost), dispatched := s.dispatched + Surviving(ids, lost),
               workers := s.workers - {w})
  {
    var steps := DispatchesOf(w, ids, lost);
    PlayConcat(settings, s, steps, [Dispatch(w, false)]);
    DispatchesRun(settings, s, w, ids, |ids|, lost);
    assert steps[..|ids|] == steps && ids[..|ids|] == ids && ids[|ids|..] == [];
    var done := AfterDispatches(s, w, ids, |ids|, lost);
    PlayOne(settings, done, Dispatch(w, false));
    assert done.workers - {w} == s.workers - {w};
  }

  /** With nobody to tell, or without its comment, a task changes no table. */
  lemma CreationWithoutRows(settings: Comments.Settings, s: System, w: Worker, e: Event, users: seq<UserId>)
    requires Create(e) in s.queue && w !in s.workers
    requires users == [] || BreaksConstraint(e, Lookup(s.desk, e.comment))
    ensures Play(settings, s, [Deliver(w, Create(e), true, users), Commit(w)]) == s
  {
    PlayTwo(settings, s, Deliver(w, Create(e), true, users), Commit(w));
    var resolved := s.(workers := s.workers[w := Resolved(e, Lookup(s.desk, e.comment), users)]);
    assert resolved.workers - {w} == s.workers;
    assert Act(settings, s, Deliver(w, Create(e), true, users)) in {s, resolved};
    assert Act(settings, resolved, Commit(w)) == Continue(resolved, w, Commit(w));
  }

  lemma CreationWithRows(
    settings: Comments.Settings, s: System, w: Worker, e: Event, users: seq<UserId>, lost: set<RowId>)
    requires Create(e) in s.queue && w !in s.workers
    requires Lists(users, Recipients(s.desk, s.around, e, Lookup(s.desk, e.comment)))
    requires users != [] && !BreaksConstraint(e, Lookup(s.desk, e.comment))
    ensures Play(settings, s, CreationSteps(s, w, e, users, lost)) == CreateAll(s, e, users, lost)
  {
    var rows := Inserted(s.around, s.rows, e, Lookup(s.desk, e.comment), users);
    var ids := NewPending(s.rows, rows);
    var committed := s.(rows := rows, workers := s.workers[w := Dispatching(ids)]);
    PlayConcat(settings, s, [Deliver(w, Create(e), true, users), Commit(w)],
               DispatchesOf(w, ids, lost) + [Dispatch(w, false)]);
    CreationStarts(settings, s, w, e, users);
    DispatchesEnd(settings, committed, w, ids, lost);
    assert committed.workers - {w} == s.workers;
  }

  /** The creation task is a run of the machine with nobody in between. */
  lemma UninterruptedCreation(
    settings: Comments.Settings, s: System, w: Worker, e: Event, users: seq<UserId>, lost: set<RowId>)
    requires Create(e) in s.queue && w !in s.workers
    requires Lists(users, Recipients(s.desk, s.around, e, Lookup(s.desk, e.comment)))
    ensures Play(settings, s, CreationSteps(s, w, e, users, lost)) == CreateAll(s, e, users, lost)
  {
    if users == [] || BreaksConstraint(e, Lookup(s.desk, e.comment)) {
      CreationWithoutRows(settings, s, w, e, users);
    } else {
      CreationWithRows(settings, s, w, e, users, lost);
    }
  }

  /** The steps of a send task with nobody in between. */
  lemma UninterruptedSending(
    settings: Comments.Settings, s: System, w: Worker, id: RowId, outcome: SmtpOutcome, now: int)
    requires Send(id) in s.queue && w !in s.workers
    ensures Play(settings, s, [Deliver(w, Send(id), true, []), Mail(w, outcome), Settle(w, now)]) ==
            SendAll(s, id, outcome, now)
  {
    var deliver, mail, settle := Deliver(w, Send(id), true, []), Mail(w, outcome), Settle(w, now);
    PlayTwo(settings, s, deliver, mail);
    assert [deliver, mail, settle][..2] == [deliver, mail];
    var a := Act(settings, s, deliver);
    if id < |s.rows| && s.rows[id].email == Pending {
      assert a == s.(workers := s.workers[w := Sending(id)]);
      assert Act(settings, a, mail) == Continue(a, w, mail);
      MailThenSettle(settings, s, a, w, id, outcome, now);
    } else {
      assert a == s && Act(settings, a, mail) == s && Act(settings, s, settle) == s;
    }
  }

  lemma MailThenSettle(
    settings: Comments.Settings, s: System, a: System, w: Worker, id: RowId, outcome: SmtpOutcome, now: int)
    requires w !in s.workers && id < |s.rows| && s.rows[id].email == Pending
    requires a == s.(workers := s.workers[w := Sending(id)])
    ensures Act(settings, Continue(a, w, Mail(w, outcome)), Settle(w, now)) == SendAll(s, id, outcome, now)
  {
    var b := Continue(a, w, Mail(w, outcome));
    assert a.workers - {w} == s.workers;
    match outcome
    case Retry =>
    case Success => assert b.workers - {w} == s.workers;
    case GiveUp(summary) => assert b.workers - {w} == s.workers;
  }
}
