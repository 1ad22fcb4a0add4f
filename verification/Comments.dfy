/** Comments on bugs: creation with its mention rows, the author's edit window, deletion and redaction,
    and the notices each call leaves for the notification pipeline. */
module Comments {
  import opened Base
  import opened Mentions
  import opened Relationships
  import opened Tracker

  type CommentId = nat

  datatype CommentStatus = Active | Deleted | Redacted

  /** A comment with its mention rows. */
  datatype Comment = Comment(
    bug: BugId, author: UserId, createdAt: int, body: string, status: CommentStatus,
    editedAt: Option<int>, deletedAt: Option<int>, redactedAt: Option<int>, mentioned: seq<UserId>)

  datatype Entry =
    | CommentAdded(comment: CommentId)
    | MentionCreated(comment: CommentId, user: UserId)
    | CommentEdited(comment: CommentId)
    | CommentDeleted(comment: CommentId)
    | CommentRedacted(comment: CommentId)

  /** A `notify` call, dispatched when the transaction has committed. */
  datatype Notice = Mentioned(comment: CommentId) | Added(comment: CommentId)

  /** Comments by position (rows are never deleted), their activity entries, and the notices sent. */
  datatype Desk = Desk(comments: seq<Comment>, log: seq<Entry>, outbox: seq<Notice>)

  const EMPTY_DESK := Desk([], [], [])

  datatype Settings = Settings(strip: string -> string, editWindow: int)

  datatype CommentError =
    | CommentPermissionDenied | CommentNotFound | BugIsArchived | ProjectIsArchived | InvalidCommentBody
    | CommentNotActive | EditWindowExpired

  const MAX_COMMENT_BODY_LENGTH: nat := 10_000
  const CAN_COMMENT_ROLES: set<Role> := {Administrator, Developer, Qa, Reporter}

  /** The tables outside this module as a request finds them: membership, and the bug's archive flags. */
  datatype Around = Around(members: set<UserId>, bugArchived: bool, projectArchived: bool)

  datatype Request =
    | Create(bug: BugId, body: string)
    | Edit(comment: CommentId, body: string)
    | Delete(comment: CommentId)
    | Redact(comment: CommentId)

  datatype Call = Call(around: Around, actor: UserId, role: Option<Role>, now: int, request: Request)

  // ---------------------------------------------------------------------------------------------
  // Guards

  predicate IsModerator(role: Option<Role>) {
    role == Some(Administrator)
  }

  predicate IsWithinEditWindow(s: Settings, c: Comment, now: int) {
    now <= c.createdAt + s.editWindow
  }

  function NotCommentable(a: Around): Option<CommentError> {
    if a.bugArchived then Some(BugIsArchived) else if a.projectArchived then Some(ProjectIsArchived) else None
  }

  function Normalize(s: Settings, body: string): Option<string> {
    var normalized := s.strip(body);
    if normalized == "" || |normalized| > MAX_COMMENT_BODY_LENGTH then None else Some(normalized)
  }

  function CreateRefusal(s: Settings, q: Call): Option<CommentError>
    requires q.request.Create?
  {
    if q.role.None? || q.role.value !in CAN_COMMENT_ROLES then Some(CommentPermissionDenied)
    else if NotCommentable(q.around).Some? then NotCommentable(q.around)
    else if Normalize(s, q.request.body).None? then Some(InvalidCommentBody)
    else None
  }

  function EditRefusal(s: Settings, c: Comment, q: Call): Option<CommentError>
    requires q.request.Edit?
  {
    if q.actor != c.author then Some(CommentPermissionDenied)
    else if NotCommentable(q.around).Some? then NotCommentable(q.around)
    else if c.status != Active then Some(CommentNotActive)
    else if !IsWithinEditWindow(s, c, q.now) then Some(EditWindowExpired)
    else if Normalize(s, q.request.body).None? then Some(InvalidCommentBody)
    else None
  }

  function DeleteRefusal(s: Settings, c: Comment, q: Call): Option<CommentError> {
    if q.actor != c.author && !IsModerator(q.role) then Some(CommentPermissionDenied)
    else if c.status != Active then Some(CommentNotActive)
    else if IsModerator(q.role) then None
    else if NotCommentable(q.around).Some? then NotCommentable(q.around)
    else if !IsWithinEditWindow(s, c, q.now) then Some(EditWindowExpired)
    else None
  }

  function RedactRefusal(c: Comment, q: Call): Option<CommentError> {
    if !IsModerator(q.role) then Some(CommentPermissionDenied)
    else if c.status != Active then Some(CommentNotActive)
    else None
  }

  // ---------------------------------------------------------------------------------------------
  // What a call does

  function NewComment(q: Call, body: string): Comment
    requires q.request.Create?
  {
    Comment(q.request.bug, q.actor, q.now, body, Active, None, None, None,
            ResolveMentions(q.around.members, Dedup(Ids(body))))
  }

  function MentionEntries(id: CommentId, users: seq<UserId>): seq<Entry> {
    seq(|users|, i requires 0 <= i < |users| => MentionCreated(id, users[i]))
  }

  function NoticesFor(id: CommentId, c: Comment): seq<Notice> {
    (if c.mentioned == [] then [] else [Mentioned(id)]) + [Added(id)]
  }

  function Append(d: Desk, c: Comment): Desk {
    var id := |d.comments|;
    Desk(d.comments + [c],
         d.log + ([CommentAdded(id)] + MentionEntries(id, c.mentioned)),
         d.outbox + NoticesFor(id, c))
  }

  function Change(d: Desk, id: CommentId, c: Comment, e: Entry): Desk
    requires id < |d.comments|
  {
    d.(comments := d.comments[id := c], log := d.log + [e])
  }

  function Serve(s: Settings, d: Desk, q: Call): (r: (Desk, Option<CommentError>))
    ensures |d.comments| <= |r.0.comments| && |d.outbox| <= |r.0.outbox|
    ensures forall n <- r.0.outbox[|d.outbox|..] :: n.comment == |d.comments| < |r.0.comments|
  {
    match q.request
    case Create(_, body) =>
      var refusal := CreateRefusal(s, q);
      if refusal.Some? then (d, refusal)
      else
        (Append(d, NewComment(q, Normalize(s, body).value)), None)
    case Edit(id, body) =>
      if |d.comments| <= id then (d, Some(CommentNotFound))
      else
        var c := d.comments[id];
        var refusal := EditRefusal(s, c, q);
        if refusal.Some? then (d, refusal)
        else
          var text := Normalize(s, body).value;
          if text == c.body then (d, None)
          else (Change(d, id, c.(body := text, editedAt := Some(q.now)), CommentEdited(id)), None)
    case Delete(id) =>
      if |d.comments| <= id then (d, Some(CommentNotFound))
      else
        var c := d.comments[id];
        var refusal := DeleteRefusal(s, c, q);
        if refusal.Some? then (d, refusal)
        else (Change(d, id, c.(body := "", status := Deleted, deletedAt := Some(q.now)), CommentDeleted(id)), None)
    case Redact(id) =>
      if |d.comments| <= id then (d, Some(CommentNotFound))
      else
        var c := d.comments[id];
        var refusal := RedactRefusal(c, q);
        if refusal.Some? then (d, refusal)
        else (Change(d, id, c.(body := "", status := Redacted, redactedAt := Some(q.now)), CommentRedacted(id)), None)
  }

  function Run(s: Settings, d: Desk, calls: seq<Call>): Desk {
    if calls == [] then d else Serve(s, Run(s, d, calls[..|calls| - 1]), Last(calls)).0
  }

  lemma NoMoreMentions(id: CommentId, log: seq<Entry>)
    ensures log + MentionEntries(id, []) == log
  {
  }

  lemma OneMoreMention(id: CommentId, users: seq<UserId>, i: nat, log: seq<Entry>)
    requires i < |users|
    ensures log + MentionEntries(id, users[..i]) + [MentionCreated(id, users[i])]
      == log + MentionEntries(id, users[..i + 1])
  {
  }

  // ---------------------------------------------------------------------------------------------
  // The services

  class CommentDesk {
    var comments: seq<Comment>
    var log: seq<Entry>
    var outbox: seq<Notice>
    const settings: Settings

    constructor (settings: Settings)
      ensures State() == EMPTY_DESK && this.settings == settings
    {
      comments, log, outbox := [], [], [];
      this.settings := settings;
    }

    ghost function State(): Desk
      reads this
    {
      Desk(comments, log, outbox)
    }

    method Notify(n: Notice)
      modifies `outbox
      ensures outbox == old(outbox) + [n]
    {
      outbox := outbox + [n];
    }

    method CreateMentions(id: CommentId, body: string, members: set<UserId>) returns (users: seq<UserId>)
      modifies `log
      ensures users == ResolveMentions(members, Dedup(Ids(body)))
      ensures log == old(log) + MentionEntries(id, users)
    {
      var candidates := ExtractMentionUserIds(body);
      users := ResolveMentions(members, candidates);
      if users == [] {
        NoMoreMentions(id, old(log));
        return;
      }
      NoMoreMentions(id, old(log));
      for i := 0 to |users|
        invariant log == old(log) + MentionEntries(id, users[..i])
      {
        OneMoreMention(id, users, i, old(log));
        log := log + [MentionCreated(id, users[i])];
      }
      assert users[..|users|] == users;
    }

    method CreateComment(q: Call) returns (error: Option<CommentError>)
      requires q.request.Create?
      modifies this
      ensures (State(), error) == Serve(settings, old(State()), q)
    {
      if q.role.None? || q.role.value !in CAN_COMMENT_ROLES {
        return Some(CommentPermissionDenied);
      }
      error := NotCommentable(q.around);
      if error.Some? {
        return;
      }
      var normalized := Normalize(settings, q.request.body);
      if normalized.None? {
        return Some(InvalidCommentBody);
      }
      var id := |comments|;
      comments := comments + [Comment(q.request.bug, q.actor, q.now, normalized.value, Active, None, None, None, [])];
      log := log + [CommentAdded(id)];
      var users := CreateMentions(id, normalized.value, q.around.members);
      comments := comments[id := comments[id].(mentioned := users)];
      assert comments == old(comments) + [NewComment(q, normalized.value)];
      if users != [] {
        Notify(Mentioned(id));
      }
      Notify(Added(id));
      assert outbox == old(outbox) + NoticesFor(id, NewComment(q, normalized.value));
      Associate(old(log), [CommentAdded(id)], MentionEntries(id, users));
    }

    method EditComment(id: CommentId, q: Call) returns (error: Option<CommentError>)
      requires q.request.Edit? && q.request.comment == id
      modifies this
      ensures (State(), error) == Serve(settings, old(State()), q)
    {
      if |comments| <= id {
        return Some(CommentNotFound);
      }
      var locked := comments[id];
      error := EditRefusal(settings, locked, q);
      if error.Some? {
        return;
      }
      var normalized := Normalize(settings, q.request.body).value;
      if normalized == locked.body {
        return;
      }
      locked := locked.(body := normalized);
      locked := locked.(editedAt := Some(q.now));
      comments := comments[id := locked];
      log := log + [CommentEdited(id)];
    }

    method DeleteComment(id: CommentId, q: Call) returns (error: Option<CommentError>)
      requires q.request.Delete? && q.request.comment == id
      modifies this
      ensures (State(), error) == Serve(settings, old(State()), q)
    {
      if |comments| <= id {
        return Some(CommentNotFound);
      }
      var locked := comments[id];
      if q.actor != locked.author && !IsModerator(q.role) {
        return Some(CommentPermissionDenied);
      }
      if locked.status != Active {
        return Some(CommentNotActive);
      }
      if !IsModerator(q.role) {
        error := NotCommentable(q.around);
        if error.Some? {
          return;
        }
        if !IsWithinEditWindow(settings, locked, q.now) {
          return Some(EditWindowExpired);
        }
      }
      locked := locked.(body := "", status := Deleted, deletedAt := Some(q.now));
      comments := comments[id := locked];
      log := log + [CommentDeleted(id)];
      error := None;
    }

    method RedactComment(id: CommentId, q: Call) returns (error: Option<CommentError>)
      requires q.request.Redact? && q.request.comment == id
      modifies this
      ensures (State(), error) == Serve(settings, old(State()), q)
    {
      if |comments| <= id {
        return Some(CommentNotFound);
      }
      var locked := comments[id];
      error := RedactRefusal(locked, q);
      if error.Some? {
        return;
      }
      locked := locked.(body := "", status := Redacted, redactedAt := Some(q.now));
      comments := comments[id := locked];
      log := log + [CommentRedacted(id)];
    }
  }

  // ---------------------------------------------------------------------------------------------
  // What every run keeps

  /** What a comment may become: its identity and mention rows never change, it leaves the active state
      once, and nothing changes after that. */
  predicate MayBecome(c: Comment, d: Comment) {
    && d.bug == c.bug && d.author == c.author && d.createdAt == c.createdAt && d.mentioned == c.mentioned
    && (c.status != Active ==> d == c)
  }

  predicate Extends(d: Desk, e: Desk) {
    && |d.comments| <= |e.comments|
    && d.log <= e.log && d.outbox <= e.outbox
    && forall i | 0 <= i < |d.comments| :: MayBecome(d.comments[i], e.comments[i])
  }

  lemma ServeExtends(s: Settings, d: Desk, q: Call)
    ensures Extends(d, Serve(s, d, q).0)
  {
  }

  /** Mention rows are fixed when the comment is created, and deletion and redaction are final. */
  lemma {:induction false} CommentsOnlyMoveForward(s: Settings, d: Desk, calls: seq<Call>)
    ensures Extends(d, Run(s, d, calls))
  {
    if calls != [] {
      CommentsOnlyMoveForward(s, d, calls[..|calls| - 1]);
      ServeExtends(s, Run(s, d, calls[..|calls| - 1]), Last(calls));
    }
  }

  /** The row constraint on status and timestamps, the body's bounds, and the entries and notices that
      belong to a comment. */
  ghost predicate CommentSound(d: Desk, id: CommentId)
    requires id < |d.comments|
  {
    var c := d.comments[id];
    && (c.deletedAt.Some? <==> c.status == Deleted)
    && (c.redactedAt.Some? <==> c.status == Redacted)
    && (if c.status == Active then 1 <= |c.body| <= MAX_COMMENT_BODY_LENGTH else c.body == "")
    && NoRepeats(c.mentioned)
    && Times(d.log, CommentAdded(id)) == 1
    && Times(d.log, CommentDeleted(id)) == (if c.status == Deleted then 1 else 0)
    && Times(d.log, CommentRedacted(id)) == (if c.status == Redacted then 1 else 0)
    && (CommentEdited(id) in d.log <==> c.editedAt.Some?)
    && (forall u: UserId :: Times(d.log, MentionCreated(id, u)) == if u in c.mentioned then 1 else 0)
    && Times(d.outbox, Added(id)) == 1
    && Times(d.outbox, Mentioned(id)) == (if c.mentioned == [] then 0 else 1)
  }

  ghost predicate DeskSound(d: Desk) {
    && (forall id | 0 <= id < |d.comments| :: CommentSound(d, id))
    && (forall e <- d.log :: e.comment < |d.comments|)
    && (forall n <- d.outbox :: n.comment < |d.comments|)
  }

  lemma {:induction false} MentionEntryTimes(id: CommentId, users: seq<UserId>, u: UserId)
    requires NoRepeats(users)
    ensures Times(MentionEntries(id, users), MentionCreated(id, u)) == if u in users then 1 else 0
  {
    var entries := MentionEntries(id, users);
    if users == [] {
      assert entries == [];
    } else {
      var n := |users| - 1;
      MentionEntryTimes(id, users[..n], u);
      assert entries == MentionEntries(id, users[..n]) + [MentionCreated(id, users[n])];
      assert users == users[..n] + [users[n]];
    }
  }

  /** What is written about one comment is not written about another. */
  lemma OthersKeepSound(d: Desk, e: Desk, id: CommentId, other: CommentId, entries: seq<Entry>, notices: seq<Notice>)
    requires e.log == d.log + entries && e.outbox == d.outbox + notices
    requires (forall x <- entries :: x.comment == id) && forall n <- notices :: n.comment == id
    requires other != id && other < |d.comments| <= |e.comments| && e.comments[other] == d.comments[other]
    requires CommentSound(d, other)
    ensures CommentSound(e, other)
  {
    forall x: Entry | x.comment == other ensures Times(e.log, x) == Times(d.log, x) {
      TimesAppend(d.log, entries, x);
      NeverWritten(entries, x);
    }
    forall n: Notice | n.comment == other ensures Times(e.outbox, n) == Times(d.outbox, n) {
      TimesAppend(d.outbox, notices, n);
      NeverWritten(notices, n);
    }
    var x := CommentEdited(other);
    assert x in e.log <==> x in d.log;
  }

  lemma EntriesOfNew(log: seq<Entry>, id: CommentId, users: seq<UserId>, x: Entry)
    requires NoRepeats(users) && x.comment == id && x !in log
    ensures var now := log + ([CommentAdded(id)] + MentionEntries(id, users));
            Times(now, x) == match x
                             case CommentAdded(_) => 1
                             case MentionCreated(_, u) => if u in users then 1 else 0
                             case _ => 0
  {
    var entries := MentionEntries(id, users);
    TimesAppend(log, [CommentAdded(id)] + entries, x);
    TimesAppend([CommentAdded(id)], entries, x);
    NeverWritten(log, x);
    match x
    case MentionCreated(_, u) => MentionEntryTimes(id, users, u);
    case _ => NeverWritten(entries, x);
  }

  predicate IsNew(c: Comment) {
    && c.status == Active && c.editedAt.None? && c.deletedAt.None? && c.redactedAt.None?
    && 1 <= |c.body| <= MAX_COMMENT_BODY_LENGTH && NoRepeats(c.mentioned)
  }

  lemma AppendedIsSound(d: Desk, c: Comment)
    requires DeskSound(d) && IsNew(c)
    ensures CommentSound(Append(d, c), |d.comments|)
  {
    var e, id := Append(d, c), |d.comments|;
    forall u: UserId ensures Times(e.log, MentionCreated(id, u)) == if u in c.mentioned then 1 else 0 {
      EntriesOfNew(d.log, id, c.mentioned, MentionCreated(id, u));
    }
    EntriesOfNew(d.log, id, c.mentioned, CommentAdded(id));
    EntriesOfNew(d.log, id, c.mentioned, CommentDeleted(id));
    EntriesOfNew(d.log, id, c.mentioned, CommentRedacted(id));
    EntriesOfNew(d.log, id, c.mentioned, CommentEdited(id));
    forall n: Notice | n.comment == id ensures Times(e.outbox, n) == Times(NoticesFor(id, c), n) {
      TimesAppend(d.outbox, NoticesFor(id, c), n);
      NeverWritten(d.outbox, n);
    }
  }

  lemma OthersAfterAppend(d: Desk, c: Comment, other: CommentId)
    requires other < |d.comments| && CommentSound(d, other)
    ensures CommentSound(Append(d, c), other)
  {
    var id := |d.comments|;
    var entries := [CommentAdded(id)] + MentionEntries(id, c.mentioned);
    OthersKeepSound(d, Append(d, c), id, other, entries, NoticesFor(id, c));
  }

  lemma AppendRefersBack(d: Desk, c: Comment)
    requires (forall e <- d.log :: e.comment < |d.comments|) && forall n <- d.outbox :: n.comment < |d.comments|
    ensures forall e <- Append(d, c).log :: e.comment <= |d.comments|
    ensures forall n <- Append(d, c).outbox :: n.comment <= |d.comments|
  {
  }

  lemma AppendKeepsDeskSound(d: Desk, c: Comment)
    requires DeskSound(d) && IsNew(c)
    ensures DeskSound(Append(d, c))
  {
    forall id | 0 <= id < |Append(d, c).comments| ensures CommentSound(Append(d, c), id) {
      if id < |d.comments| {
        OthersAfterAppend(d, c, id);
      } else {
        AppendedIsSound(d, c);
      }
    }
    AppendRefersBack(d, c);
  }

  /** Editing, deleting and redacting each write one entry, which tells what became of the comment. */
  predicate Tells(was: Comment, now: Comment, x: Entry) {
    && was.status == Active && now.mentioned == was.mentioned
    && (now.deletedAt.Some? <==> x.CommentDeleted?) && (now.redactedAt.Some? <==> x.CommentRedacted?)
    && match x
       case CommentEdited(_) => now.status == Active && now.editedAt.Some? && 1 <= |now.body| <= MAX_COMMENT_BODY_LENGTH
       case CommentDeleted(_) => now.status == Deleted && now.body == "" && now.editedAt == was.editedAt
       case CommentRedacted(_) => now.status == Redacted && now.body == "" && now.editedAt == was.editedAt
       case _ => false
  }

  lemma ChangedIsSound(d: Desk, id: CommentId, c: Comment, x: Entry)
    requires id < |d.comments| && CommentSound(d, id) && x.comment == id && Tells(d.comments[id], c, x)
    ensures CommentSound(Change(d, id, c, x), id)
  {
    var e := Change(d, id, c, x);
    forall y: Entry ensures Times(e.log, y) == Times(d.log, y) + if y == x then 1 else 0 {
      TimesAppend(d.log, [x], y);
    }
    var y := CommentEdited(id);
    assert y in e.log <==> y in d.log || y == x;
  }

  lemma ChangeKeepsDeskSound(d: Desk, id: CommentId, c: Comment, x: Entry)
    requires DeskSound(d) && id < |d.comments| && x.comment == id && Tells(d.comments[id], c, x)
    ensures DeskSound(Change(d, id, c, x))
  {
    var e := Change(d, id, c, x);
    assert CommentSound(d, id);
    ChangedIsSound(d, id, c, x);
    forall other | 0 <= other < |d.comments| ensures CommentSound(e, other) {
      if other != id {
        assert d.outbox + [] == d.outbox;
        OthersKeepSound(d, e, id, other, [x], []);
      }
    }
  }

  /** A request that is refused, or edits a comment to what it already says, leaves everything as it is. */
  predicate ChangesComment(s: Settings, d: Desk, q: Call) {
    match q.request
    case Create(_, _) => false
    case Edit(id, body) =>
      id < |d.comments| && EditRefusal(s, d.comments[id], q).None? && Normalize(s, body) != Some(d.comments[id].body)
    case Delete(id) => id < |d.comments| && DeleteRefusal(s, d.comments[id], q).None?
    case Redact(id) => id < |d.comments| && RedactRefusal(d.comments[id], q).None?
  }

  lemma ServedChangeTells(s: Settings, d: Desk, q: Call)
    requires DeskSound(d) && ChangesComment(s, d, q)
    ensures var id, e := q.request.comment, Serve(s, d, q).0;
            && id < |e.comments| && e.log != [] && Last(e.log).comment == id
            && e == Change(d, id, e.comments[id], Last(e.log)) && Tells(d.comments[id], e.comments[id], Last(e.log))
  {
    assert CommentSound(d, q.request.comment);
  }

  lemma ServeKeepsDeskSound(s: Settings, d: Desk, q: Call)
    requires DeskSound(d)
    ensures DeskSound(Serve(s, d, q).0)
  {
    if q.request.Create? {
      if CreateRefusal(s, q).None? {
        MentionedExactly(q.around.members, Normalize(s, q.request.body).value);
        AppendKeepsDeskSound(d, NewComment(q, Normalize(s, q.request.body).value));
      }
    } else if ChangesComment(s, d, q) {
      ServedChangeTells(s, d, q);
      var id, e := q.request.comment, Serve(s, d, q).0;
      ChangeKeepsDeskSound(d, id, e.comments[id], Last(e.log));
    }
  }

  lemma {:induction false} RunKeepsDeskSound(s: Settings, calls: seq<Call>)
    ensures DeskSound(Run(s, EMPTY_DESK, calls))
  {
    if calls != [] {
      RunKeepsDeskSound(s, calls[..|calls| - 1]);
      ServeKeepsDeskSound(s, Run(s, EMPTY_DESK, calls[..|calls| - 1]), Last(calls));
    }
  }

  // ---------------------------------------------------------------------------------------------
  // Who may change a comment, and until when

  predicate IsCommentable(a: Around) {
    !a.bugArchived && !a.projectArchived
  }

  /** A comment is edited by its author only, and it is withdrawn by its author within the same limits or
      by an administrator at any time; an edit to the same text changes nothing. Each change writes its one
      entry, and no other comment changes. */
  lemma CommentChangesExactly(s: Settings, d: Desk, q: Call)
    requires !q.request.Create? && q.request.comment < |d.comments|
    ensures var was := d.comments[q.request.comment];
            var now := Serve(s, d, q).0.comments[q.request.comment];
            var authorInTime := q.actor == was.author && IsCommentable(q.around) &&
              q.now <= was.createdAt + s.editWindow;
            match q.request
            case Edit(_, body) =>
              now == (if was.status == Active && authorInTime && 1 <= |s.strip(body)| <= 10_000
                && s.strip(body) != was.body
                      then was.(body := s.strip(body), editedAt := Some(q.now)) else was)
            case Delete(_) =>
              now == (if was.status == Active && (authorInTime || q.role == Some(Administrator))
                      then was.(body := "", status := Deleted, deletedAt := Some(q.now)) else was)
            case Redact(_) =>
              now == (if was.status == Active && q.role == Some(Administrator)
                      then was.(body := "", status := Redacted, redactedAt := Some(q.now)) else was)
    ensures var id, e := q.request.comment, Serve(s, d, q).0;
            && e.comments == d.comments[id := e.comments[id]] && e.outbox == d.outbox
            && e.log == d.log + if e.comments[id] == d.comments[id] then []
                                else [match q.request
                                      case Edit(_, _) => CommentEdited(id)
                                      case Delete(_) => CommentDeleted(id)
                                      case Redact(_) => CommentRedacted(id)]
  {
    assert d.comments[q.request.comment := d.comments[q.request.comment]] == d.comments;
  }

  /** A comment appears exactly when a member who is not a viewer writes a text of proper length on a live
      bug; it mentions the members its text names, with one entry for itself and one for each of them. */
  lemma CommentAppearsExactly(s: Settings, d: Desk, q: Call)
    requires q.request.Create?
    ensures var e, text := Serve(s, d, q).0, s.strip(q.request.body);
            if q.role.Some? && q.role != Some(Viewer) && IsCommentable(q.around) && 1 <= |text| <= 10_000
            then
              && |e.comments| == |d.comments| + 1
              && var id, c := |d.comments|, e.comments[|d.comments|];
                 && e.comments == d.comments + [c]
                 && c == Comment(q.request.bug, q.actor, q.now, text, Active, None, None, None, c.mentioned)
                 && NoRepeats(c.mentioned)
                 && (forall u :: u in c.mentioned <==> u in q.around.members && u in Ids(text))
                 && |e.log| == |d.log| + 1 + |c.mentioned| && d.log + [CommentAdded(id)] <= e.log
                 && (forall i | 0 <= i < |c.mentioned| :: e.log[|d.log| + 1 + i] == MentionCreated(id, c.mentioned[i]))
                 && e.outbox == d.outbox + (if c.mentioned == [] then [] else [Mentioned(id)]) + [Added(id)]
            else e == d
  {
    var text := s.strip(q.request.body);
    MentionedExactly(q.around.members, text);
    assert forall r: Role :: r in CAN_COMMENT_ROLES <==> r != Viewer;
    if CreateRefusal(s, q).None? {
      AppendedDesk(d, NewComment(q, text));
    }
  }

  lemma AppendedDesk(d: Desk, c: Comment)
    ensures var e, id := Append(d, c), |d.comments|;
            && |e.log| == |d.log| + 1 + |c.mentioned| && d.log + [CommentAdded(id)] <= e.log
            && (forall i | 0 <= i < |c.mentioned| :: e.log[|d.log| + 1 + i] == MentionCreated(id, c.mentioned[i]))
            && e.outbox == d.outbox + (if c.mentioned == [] then [] else [Mentioned(id)]) + [Added(id)]
  {
    var id := |d.comments|;
    Associate(d.outbox, if c.mentioned == [] then [] else [Mentioned(id)], [Added(id)]);
    Associate(d.log, [CommentAdded(id)], MentionEntries(id, c.mentioned));
  }
}
