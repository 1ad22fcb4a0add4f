/** Attachments: the upload lifecycle as an interleaving of requests, removals and cleanup tasks over one
    storage. Nothing is locked while an upload is checked, stored and measured; only the final status
    change locks the row and looks at the status again. */
module Attachments {
  import opened Base
  import opened Filenames
  import opened Mentions
  import opened Tracker

  type Bytes = seq<bv8>
  type Client = nat
  /** The text form of a UUID. */
  type Id = string

  datatype Status = Pending | Uploaded | Failed

  datatype Attachment = Attachment(
    bug: Id, uploader: UserId, name: string, contentType: string, size: nat, key: string, status: Status,
    uploadedAt: Option<int>, failedAt: Option<int>, removedAt: Option<int>)

  /** An uploaded file: the size it reports, and its bytes. */
  datatype File = File(size: nat, content: Bytes)

  datatype Entry = AttachmentAdded(id: Id) | AttachmentRemoved(id: Id)

  datatype AttachmentError =
    | AttachmentPermissionDenied | BugIsArchived | ProjectIsArchived | UnsupportedContentType | AttachmentTooLarge
    | AttachmentNotPending | UploadVerificationFailed | SignatureMismatch | AttachmentNotAvailable

  /** The organization, the size limit, the allowed content types with their file extensions, and
      `verify_uploaded_content` on bytes. */
  datatype Settings = Settings(
    organization: Id, maxSize: nat, extensions: map<string, string>, passes: (string, Bytes) -> bool)

  datatype Archived = Archived(bug: bool, project: bool)

  const CAN_UPLOAD_ROLES: set<Role> := {Administrator, Developer, Qa, Reporter}

  /** Where a request is between its checks and its status change. */
  datatype Upload =
    | Checked(id: Id, content: Bytes)
    | Stored(id: Id)
    | Measured(id: Id)
    | Failing(id: Id, error: AttachmentError)

  datatype State = State(
    attachments: map<Id, Attachment>, storage: map<string, Bytes>, log: seq<Entry>,
    cleanups: multiset<string>, uploads: map<Client, Upload>)

  datatype Action =
    | Initiate(
        id: Id, bug: Id, uploader: UserId, role: Option<Role>, filename: string, contentType: string, size: nat,
        archived: Archived)
    | Begin(client: Client, id: Id, actor: UserId, archived: Archived, file: File)
    | Save(client: Client)
    | Measure(client: Client)
    | Flip(client: Client, now: int)
    | Fail(client: Client, now: int)
    | Abort(client: Client)
    | Remove(id: Id, actor: UserId, role: Option<Role>, archived: Archived, now: int, brokerUp: bool)
    | Cleanup(key: string, redelivered: bool)
    | Lose(key: string)

  const NOTHING := State(map[], map[], [], multiset{}, map[])

  // ---------------------------------------------------------------------------------------------
  // Services

  function NotAttachable(a: Archived): Option<AttachmentError> {
    if a.bug then Some(BugIsArchived) else if a.project then Some(ProjectIsArchived) else None
  }

  function StorageKey(organization: Id, bug: Id, id: Id, extension: string): string {
    "attachments/" + organization + "/" + bug + "/" + id + extension
  }

  function InitiateRefusal(c: Settings, a: Action): Option<AttachmentError>
    requires a.Initiate?
  {
    if a.role.None? || a.role.value !in CAN_UPLOAD_ROLES then Some(AttachmentPermissionDenied)
    else if NotAttachable(a.archived).Some? then NotAttachable(a.archived)
    else if a.contentType !in c.extensions then Some(UnsupportedContentType)
    else if a.size == 0 || a.size > c.maxSize then Some(AttachmentTooLarge)
    else None
  }

  function NewAttachment(c: Settings, a: Action): Attachment
    requires a.Initiate? && a.contentType in c.extensions
  {
    Attachment(a.bug, a.uploader, SafeFilename(a.filename), a.contentType, a.size,
               StorageKey(c.organization, a.bug, a.id, c.extensions[a.contentType]), Pending, None, None, None)
  }

  /** The checks of an upload, in order; the last two mark the attachment failed. */
  function UploadRefusal(
    c: Settings, a: Attachment, actor: UserId, archived: Archived, file: File): Option<AttachmentError> {
    if actor != a.uploader then Some(AttachmentPermissionDenied)
    else if a.status != Pending then Some(AttachmentNotPending)
    else if NotAttachable(archived).Some? then NotAttachable(archived)
    else if file.size != a.size then Some(UploadVerificationFailed)
    else if !c.passes(a.contentType, file.content) then Some(SignatureMismatch)
    else None
  }

  predicate MarksFailed(e: AttachmentError) {
    e == UploadVerificationFailed || e == SignatureMismatch
  }

  function MarkedFailed(s: State, id: Id, now: int): State {
    if id in s.attachments && s.attachments[id].status == Pending
    then s.(attachments := s.attachments[id := s.attachments[id].(status := Failed, failedAt := Some(now))])
    else s
  }

  function Finish(s: State, id: Id, now: int): State {
    if id in s.attachments && s.attachments[id].status == Pending
    then s.(attachments := s.attachments[id := s.attachments[id].(status := Uploaded, uploadedAt := Some(now))],
            log := s.log + [AttachmentAdded(id)])
    else s
  }

  function RemoveRefusal(
    a: Attachment, actor: UserId, role: Option<Role>, archived: Archived): Option<AttachmentError> {
    if actor != a.uploader && role != Some(Administrator) then Some(AttachmentPermissionDenied)
    else if a.status != Uploaded || a.removedAt.Some? then Some(AttachmentNotAvailable)
    else if role != Some(Administrator) then NotAttachable(archived)
    else None
  }

  function Removed(s: State, id: Id, now: int, brokerUp: bool): State
    requires id in s.attachments
  {
    var a := s.attachments[id];
    s.(attachments := s.attachments[id := a.(removedAt := Some(now))],
       log := s.log + [AttachmentRemoved(id)],
       cleanups := s.cleanups + if brokerUp then multiset{a.key} else multiset{})
  }

  // ---------------------------------------------------------------------------------------------
  // The machine

  function EndUpload(s: State, client: Client): State {
    s.(uploads := s.uploads - {client})
  }

  function Begun(c: Settings, s: State, a: Action): State
    requires a.Begin?
  {
    if a.client in s.uploads || a.id !in s.attachments then s
    else
      match UploadRefusal(c, s.attachments[a.id], a.actor, a.archived, a.file)
      case None => s.(uploads := s.uploads[a.client := Checked(a.id, a.file.content)])
      case Some(e) => if MarksFailed(e) then s.(uploads := s.uploads[a.client := Failing(a.id, e)]) else s
  }

  function Withdrawn(s: State, a: Action): State
    requires a.Remove?
  {
    if a.id !in s.attachments || RemoveRefusal(s.attachments[a.id], a.actor, a.role, a.archived).Some? then s
    else Removed(s, a.id, a.now, a.brokerUp)
  }

  function CleanedUp(s: State, key: string, redelivered: bool): State {
    if key !in s.cleanups then s
    else s.(storage := s.storage - {key}, cleanups := if redelivered then s.cleanups else s.cleanups - multiset{key})
  }

  function Continue(s: State, u: Upload, a: Action): State {
    match (u, a)
    case (Checked(id, content), Save(client)) =>
      if id !in s.attachments then s
      else s.(storage := s.storage[s.attachments[id].key := content], uploads := s.uploads[client := Stored(id)])
    case (Stored(id), Measure(client)) =>
      if id !in s.attachments then s
      else
        var next := if HasSize(s, id) then Measured(id) else Failing(id, UploadVerificationFailed);
        s.(uploads := s.uploads[client := next])
    case (Measured(id), Flip(client, now)) => EndUpload(Finish(s, id, now), client)
    case (Failing(id, _), Fail(client, now)) => EndUpload(MarkedFailed(s, id, now), client)
    case _ => s
  }

  /** The stored object has the declared size. */
  predicate HasSize(s: State, id: Id)
    requires id in s.attachments
  {
    var a := s.attachments[id];
    a.key in s.storage && |s.storage[a.key]| == a.size
  }

  /** One step of one process; a step that is not possible now leaves the state alone. */
  function Act(c: Settings, s: State, a: Action): State {
    match a
    case Initiate(id, _, _, _, _, _, _, _) =>
      if InitiateRefusal(c, a).Some? || id in s.attachments || !IsUuidText(id) || !IsUuidText(a.bug) then s
      else s.(attachments := s.attachments[id := NewAttachment(c, a)])
    case Begin(_, _, _, _, _) => Begun(c, s, a)
    case Abort(client) => EndUpload(s, client)
    case Remove(_, _, _, _, _, _) => Withdrawn(s, a)
    case Cleanup(key, redelivered) => CleanedUp(s, key, redelivered)
    case Lose(key) => s.(cleanups := s.cleanups - multiset{key})
    case _ => if a.client in s.uploads then Continue(s, s.uploads[a.client], a) else s
  }

  function Play(c: Settings, s: State, actions: seq<Action>): State {
    if actions == [] then s
    else Act(c, Play(c, s, actions[..|actions| - 1]), Last(actions))
  }

  // ---------------------------------------------------------------------------------------------
  // Storage keys

  lemma KeyHasId(organization: Id, bug: Id, id: Id, extension: string)
    requires IsUuidText(organization) && IsUuidText(bug) && IsUuidText(id)
    ensures |StorageKey(organization, bug, id, extension)| >= 122
    ensures StorageKey(organization, bug, id, extension)[86..122] == id
  {
  }

  /** Different attachments never share a storage object. */
  lemma StorageKeysDiffer(
    organization: Id, bug1: Id, id1: Id, extension1: string, bug2: Id, id2: Id, extension2: string)
    requires IsUuidText(organization) && IsUuidText(bug1) && IsUuidText(bug2) && IsUuidText(id1) && IsUuidText(id2)
    requires id1 != id2
    ensures StorageKey(organization, bug1, id1, extension1) != StorageKey(organization, bug2, id2, extension2)
  {
    KeyHasId(organization, bug1, id1, extension1);
    KeyHasId(organization, bug2, id2, extension2);
  }

  // ---------------------------------------------------------------------------------------------
  // What every run keeps

  predicate IsVisible(a: Attachment) {
    a.status == Uploaded && a.removedAt.None?
  }

  /** The attachment's object is there, has the declared size, and passed the check for its type. */
  predicate ObjectSound(c: Settings, s: State, id: Id)
    requires id in s.attachments
  {
    var a := s.attachments[id];
    HasSize(s, id) && c.passes(a.contentType, s.storage[a.key])
  }

  /** What a row may become: pending is left once, to uploaded or failed, and removal is final. */
  predicate MayTurnInto(a: Attachment, b: Attachment) {
    && b.(status := a.status, uploadedAt := a.uploadedAt, failedAt := a.failedAt, removedAt := a.removedAt) == a
    && (a.status != Pending ==> b.status == a.status && b.uploadedAt == a.uploadedAt && b.failedAt == a.failedAt)
    && (a.removedAt.Some? ==> b.removedAt == a.removedAt)
  }

  ghost predicate Evolves(s: State, t: State) {
    s.log <= t.log &&
      forall id | id in s.attachments :: id in t.attachments && MayTurnInto(s.attachments[id], t.attachments[id])
  }

  lemma EvolvesSelf(s: State, t: State)
    requires t.attachments == s.attachments && t.log == s.log
    ensures Evolves(s, t)
  {
  }

  lemma RowEvolves(s: State, t: State, id: Id)
    requires s.log <= t.log && id in t.attachments && t.attachments == s.attachments[id := t.attachments[id]]
    requires id in s.attachments ==> MayTurnInto(s.attachments[id], t.attachments[id])
    ensures Evolves(s, t)
  {
  }

  lemma ContinueEvolves(s: State, u: Upload, a: Action)
    ensures Evolves(s, Continue(s, u, a))
  {
    var t := Continue(s, u, a);
    if t.attachments == s.attachments && t.log == s.log {
      EvolvesSelf(s, t);
    } else {
      RowEvolves(s, t, u.id);
    }
  }

  lemma RequestEvolves(c: Settings, s: State, a: Action)
    requires a.Initiate? || a.Remove?
    ensures Evolves(s, Act(c, s, a))
  {
    if Act(c, s, a) == s {
      EvolvesSelf(s, s);
    } else {
      RowEvolves(s, Act(c, s, a), a.id);
    }
  }

  lemma ActEvolves(c: Settings, s: State, a: Action)
    ensures Evolves(s, Act(c, s, a))
  {
    if a.Save? || a.Measure? || a.Flip? || a.Fail? {
      if a.client in s.uploads {
        ContinueEvolves(s, s.uploads[a.client], a);
      } else {
        EvolvesSelf(s, s);
      }
    } else if a.Initiate? || a.Remove? {
      RequestEvolves(c, s, a);
    } else {
      EvolvesSelf(s, Act(c, s, a));
    }
  }

  lemma {:induction false} StatusMovesForward(c: Settings, s: State, actions: seq<Action>)
    ensures Evolves(s, Play(c, s, actions))
  {
    if actions != [] {
      var t := Play(c, s, actions[..|actions| - 1]);
      StatusMovesForward(c, s, actions[..|actions| - 1]);
      ActEvolves(c, t, Last(actions));
      var u := Play(c, s, actions);
      forall id | id in s.attachments ensures MayTurnInto(s.attachments[id], u.attachments[id]) {
        assert MayTurnInto(s.attachments[id], t.attachments[id]) && MayTurnInto(t.attachments[id], u.attachments[id]);
      }
    }
  }

  // ---------------------------------------------------------------------------------------------
  // Soundness

  predicate RowSound(c: Settings, id: Id, a: Attachment) {
    && IsUuidText(id) && IsUuidText(a.bug) && a.contentType in c.extensions
    && a.key == StorageKey(c.organization, a.bug, id, c.extensions[a.contentType])
    && a.size > 0
    && (a.uploadedAt.Some? <==> a.status == Uploaded) && (a.failedAt.Some? <==> a.status == Failed)
    && (a.removedAt.Some? ==> a.status == Uploaded)
  }

  /** The stored object passed the check for the attachment's type and, if files report their true size,
      has the declared one. */
  predicate Intact(c: Settings, s: State, honest: bool, id: Id)
    requires id in s.attachments
  {
    var a := s.attachments[id];
    a.key in s.storage && c.passes(a.contentType, s.storage[a.key]) && (honest ==> HasSize(s, id))
  }

  predicate UploadSound(c: Settings, s: State, honest: bool, u: Upload) {
    u.id in s.attachments &&
    var a := s.attachments[u.id];
    match u
    case Checked(_, content) => c.passes(a.contentType, content) && (honest ==> |content| == a.size)
    case Stored(_) => a.removedAt.None? ==> Intact(c, s, honest, u.id)
    case Measured(_) => a.removedAt.None? ==> Intact(c, s, honest, u.id)
    case Failing(_, _) => true
  }

  predicate LogSound(s: State, id: Id)
    requires id in s.attachments
  {
    var a := s.attachments[id];
    && Times(s.log, AttachmentAdded(id)) == (if a.status == Uploaded then 1 else 0)
    && Times(s.log, AttachmentRemoved(id)) == (if a.removedAt.Some? then 1 else 0)
  }

  ghost predicate RowsSound(c: Settings, s: State) {
    && IsUuidText(c.organization)
    && (forall id | id in s.attachments :: RowSound(c, id, s.attachments[id]))
    && (forall key | key in s.cleanups :: IsOfRemoved(s.attachments, key))
  }

  ghost predicate IsOfRemoved(attachments: map<Id, Attachment>, key: string) {
    exists id :: id in attachments && attachments[id].key == key && attachments[id].removedAt.Some?
  }

  ghost predicate LogsSound(s: State) {
    && (forall id | id in s.attachments :: LogSound(s, id))
    && (forall e <- s.log :: e.id in s.attachments)
  }

  ghost predicate ObjectsSound(c: Settings, s: State, honest: bool) {
    && (forall k | k in s.uploads :: UploadSound(c, s, honest, s.uploads[k]))
    && (forall id | id in s.attachments && IsVisible(s.attachments[id]) :: Intact(c, s, honest, id))
  }

  ghost predicate Sound(c: Settings, s: State, honest: bool) {
    RowsSound(c, s) && LogsSound(s) && ObjectsSound(c, s, honest)
  }

  predicate IsHonest(a: Action) {
    a.Begin? ==> a.file.size == |a.file.content|
  }

  lemma KeysDiffer(c: Settings, s: State, id1: Id, id2: Id)
    requires RowsSound(c, s) && id1 in s.attachments && id2 in s.attachments && id1 != id2
    ensures s.attachments[id1].key != s.attachments[id2].key
  {
    var a, b := s.attachments[id1], s.attachments[id2];
    StorageKeysDiffer(c.organization, a.bug, id1, c.extensions[a.contentType], b.bug, id2, c.extensions[b.contentType]);
  }

  /** An entry about one attachment, when its status or removal changes accordingly. */
  lemma LogGrows(s: State, t: State, id: Id, e: Entry)
    requires LogsSound(s) && t.log == s.log + [e] && e.id == id && id in s.attachments && id in t.attachments
    requires t.attachments == s.attachments[id := t.attachments[id]]
    requires var a, b := s.attachments[id], t.attachments[id];
             match e
             case AttachmentAdded(_) =>
               a.status != Uploaded && b.status == Uploaded && (a.removedAt.Some? <==> b.removedAt.Some?)
             case AttachmentRemoved(_) => a.status == b.status && a.removedAt.None? && b.removedAt.Some?
    ensures LogsSound(t)
  {
    forall other | other in t.attachments ensures LogSound(t, other) {
      TimesAppend(s.log, [e], AttachmentAdded(other));
      TimesAppend(s.log, [e], AttachmentRemoved(other));
      assert LogSound(s, other);
    }
  }

  /** What is left untouched by a step that changes one row: every other attachment's object, and what
      other requests know. */
  lemma RowChangeKeepsObjects(c: Settings, s: State, t: State, honest: bool, id: Id)
    requires ObjectsSound(c, s, honest) && id in s.attachments && id in t.attachments
    requires t.attachments == s.attachments[id := t.attachments[id]] &&
      MayTurnInto(s.attachments[id], t.attachments[id])
    requires t.storage == s.storage && t.uploads == s.uploads
    requires IsVisible(t.attachments[id]) ==> Intact(c, s, honest, id)
    ensures ObjectsSound(c, t, honest)
  {
    forall k | k in t.uploads ensures UploadSound(c, t, honest, t.uploads[k]) {
      assert UploadSound(c, s, honest, s.uploads[k]);
    }
    forall other | other in t.attachments && IsVisible(t.attachments[other]) ensures Intact(c, t, honest, other) {
      if other != id {
        assert Intact(c, s, honest, other);
      }
    }
  }

  /** A cleanup task never names the object of an attachment that is not removed. */
  lemma CleanupsAreOfRemoved(c: Settings, s: State, id: Id)
    requires RowsSound(c, s) && id in s.attachments && s.attachments[id].key in s.cleanups
    ensures s.attachments[id].removedAt.Some?
  {
    var key := s.attachments[id].key;
    assert IsOfRemoved(s.attachments, key);
    var other :| other in s.attachments && s.attachments[other].key == key && s.attachments[other].removedAt.Some?;
    if other != id {
      KeysDiffer(c, s, id, other);
    }
  }

  lemma RemovedStays(was: map<Id, Attachment>, now: map<Id, Attachment>, key: string)
    requires IsOfRemoved(was, key) && forall id | id in was :: id in now && MayTurnInto(was[id], now[id])
    ensures IsOfRemoved(now, key)
  {
    var id :| id in was && was[id].key == key && was[id].removedAt.Some?;
    assert MayTurnInto(was[id], now[id]);
  }

  /** A row changed as `MayTurnInto` allows, possibly with a cleanup task once it is removed. */
  lemma RowChangeKeepsRows(c: Settings, s: State, t: State, id: Id)
    requires RowsSound(c, s) && id in t.attachments && RowSound(c, id, t.attachments[id])
    requires t.attachments == s.attachments[id := t.attachments[id]]
    requires id in s.attachments ==> MayTurnInto(s.attachments[id], t.attachments[id])
    requires forall key | key in t.cleanups ::
               key in s.cleanups || (key == t.attachments[id].key && t.attachments[id].removedAt.Some?)
    ensures RowsSound(c, t)
  {
    forall key | key in t.cleanups ensures IsOfRemoved(t.attachments, key) {
      if key in s.cleanups {
        RemovedStays(s.attachments, t.attachments, key);
      } else {
        assert t.attachments[id].key == key;
      }
    }
  }

  lemma NewRowKeepsLogs(s: State, id: Id, a: Attachment)
    requires LogsSound(s) && id !in s.attachments && a.status == Pending && a.removedAt.None?
    ensures LogsSound(s.(attachments := s.attachments[id := a]))
  {
    var t := s.(attachments := s.attachments[id := a]);
    NeverWritten(s.log, AttachmentAdded(id));
    NeverWritten(s.log, AttachmentRemoved(id));
    forall other | other in t.attachments ensures LogSound(t, other) {
      assert other != id ==> LogSound(s, other);
    }
  }

  lemma NewRowKeepsObjects(c: Settings, s: State, honest: bool, id: Id, a: Attachment)
    requires ObjectsSound(c, s, honest) && id !in s.attachments && a.status == Pending
    ensures ObjectsSound(c, s.(attachments := s.attachments[id := a]), honest)
  {
    var t := s.(attachments := s.attachments[id := a]);
    forall k | k in t.uploads ensures UploadSound(c, t, honest, t.uploads[k]) {
      assert UploadSound(c, s, honest, s.uploads[k]);
    }
    forall other | other in t.attachments && IsVisible(t.attachments[other]) ensures Intact(c, t, honest, other) {
      assert Intact(c, s, honest, other);
    }
  }

  /** A new row, which no request, entry or cleanup task knows yet. */
  lemma NewRowKeepsSound(c: Settings, s: State, honest: bool, id: Id, a: Attachment)
    requires Sound(c, s, honest) && id !in s.attachments && RowSound(c, id, a) &&
      a.status == Pending && a.removedAt.None?
    ensures Sound(c, s.(attachments := s.attachments[id := a]), honest)
  {
    RowChangeKeepsRows(c, s, s.(attachments := s.attachments[id := a]), id);
    NewRowKeepsLogs(s, id, a);
    NewRowKeepsObjects(c, s, honest, id, a);
  }

  lemma InitiateKeepsSound(c: Settings, s: State, honest: bool, a: Action)
    requires Sound(c, s, honest) && a.Initiate?
    ensures Sound(c, Act(c, s, a), honest)
  {
    if Act(c, s, a) != s {
      assert RowSound(c, a.id, NewAttachment(c, a));
      NewRowKeepsSound(c, s, honest, a.id, NewAttachment(c, a));
    }
  }

  /** A request moving on to a point it has reached. */
  lemma UploadKeepsSound(c: Settings, s: State, honest: bool, client: Client, u: Upload)
    requires Sound(c, s, honest) && UploadSound(c, s, honest, u)
    ensures Sound(c, s.(uploads := s.uploads[client := u]), honest)
  {
    var t := s.(uploads := s.uploads[client := u]);
    forall k | k in t.uploads ensures UploadSound(c, t, honest, t.uploads[k]) {
      assert k != client ==> UploadSound(c, s, honest, s.uploads[k]);
    }
    forall id | id in t.attachments && IsVisible(t.attachments[id]) ensures Intact(c, t, honest, id) {
      assert Intact(c, s, honest, id);
    }
  }

  lemma EndKeepsSound(c: Settings, s: State, honest: bool, client: Client)
    requires Sound(c, s, honest)
    ensures Sound(c, EndUpload(s, client), honest)
  {
    var t := EndUpload(s, client);
    forall k | k in t.uploads ensures UploadSound(c, t, honest, t.uploads[k]) {
      assert UploadSound(c, s, honest, s.uploads[k]);
    }
    forall id | id in t.attachments && IsVisible(t.attachments[id]) ensures Intact(c, t, honest, id) {
      assert Intact(c, s, honest, id);
    }
  }

  /** Storing a checked file leaves every other object alone, and this one intact, whoever owns it now. */
  lemma StoreKeepsSound(c: Settings, s: State, honest: bool, id: Id, content: Bytes)
    requires Sound(c, s, honest) && UploadSound(c, s, honest, Checked(id, content))
    ensures var t := s.(storage := s.storage[s.attachments[id].key := content]);
            Sound(c, t, honest) && Intact(c, t, honest, id)
  {
    var t := s.(storage := s.storage[s.attachments[id].key := content]);
    forall other | other in s.attachments && (other == id || Intact(c, s, honest, other))
      ensures Intact(c, t, honest, other) {
      if other != id {
        KeysDiffer(c, s, id, other);
      }
    }
    forall k | k in t.uploads ensures UploadSound(c, t, honest, t.uploads[k]) {
      assert UploadSound(c, s, honest, s.uploads[k]);
    }
    forall other | other in t.attachments && IsVisible(t.attachments[other]) ensures Intact(c, t, honest, other) {
      assert Intact(c, s, honest, other);
    }
  }

  lemma FinishKeepsSound(c: Settings, s: State, honest: bool, id: Id, now: int)
    requires Sound(c, s, honest) && id in s.attachments &&
      (s.attachments[id].removedAt.None? ==> Intact(c, s, honest, id))
    ensures Sound(c, Finish(s, id, now), honest)
  {
    var t := Finish(s, id, now);
    if s.attachments[id].status == Pending {
      assert RowSound(c, id, s.attachments[id]);
      RowChangeKeepsRows(c, s, t, id);
      RowChangeKeepsObjects(c, s, t, honest, id);
      LogGrows(s, t, id, AttachmentAdded(id));
    }
  }

  lemma MarkFailedKeepsSound(c: Settings, s: State, honest: bool, id: Id, now: int)
    requires Sound(c, s, honest)
    ensures Sound(c, MarkedFailed(s, id, now), honest)
  {
    var t := MarkedFailed(s, id, now);
    if id in s.attachments && s.attachments[id].status == Pending {
      assert RowSound(c, id, s.attachments[id]);
      RowChangeKeepsRows(c, s, t, id);
      RowChangeKeepsObjects(c, s, t, honest, id);
      forall other | other in t.attachments ensures LogSound(t, other) {
        assert LogSound(s, other);
      }
    }
  }

  lemma RemovedKeepsSound(c: Settings, s: State, honest: bool, id: Id, now: int, brokerUp: bool)
    requires Sound(c, s, honest) && id in s.attachments && IsVisible(s.attachments[id])
    ensures Sound(c, Removed(s, id, now, brokerUp), honest)
  {
    var t := Removed(s, id, now, brokerUp);
    assert RowSound(c, id, s.attachments[id]);
    RowChangeKeepsRows(c, s, t, id);
    RowChangeKeepsObjects(c, s, t, honest, id);
    LogGrows(s, t, id, AttachmentRemoved(id));
  }

  /** Cleanup deletes no object that an attachment still shows or an upload still relies on. */
  lemma CleanupKeepsSound(c: Settings, s: State, honest: bool, key: string)
    requires Sound(c, s, honest) && key in s.cleanups
    ensures Sound(c, s.(storage := s.storage - {key}), honest)
  {
    var t := s.(storage := s.storage - {key});
    forall id | id in s.attachments && s.attachments[id].removedAt.None? && Intact(c, s, honest, id)
      ensures Intact(c, t, honest, id)
    {
      if s.attachments[id].key == key {
        CleanupsAreOfRemoved(c, s, id);
      }
    }
    forall k | k in t.uploads ensures UploadSound(c, t, honest, t.uploads[k]) {
      assert UploadSound(c, s, honest, s.uploads[k]);
    }
    forall id | id in t.attachments && IsVisible(t.attachments[id]) ensures Intact(c, t, honest, id) {
      assert Intact(c, s, honest, id);
    }
  }

  lemma FewerCleanupsKeepSound(c: Settings, s: State, honest: bool, cleanups: multiset<string>)
    requires Sound(c, s, honest) && forall key | key in cleanups :: key in s.cleanups
    ensures Sound(c, s.(cleanups := cleanups), honest)
  {
    var t := s.(cleanups := cleanups);
    forall id | id in t.attachments ensures LogSound(t, id) {
      assert LogSound(s, id);
    }
    forall k | k in t.uploads ensures UploadSound(c, t, honest, t.uploads[k]) {
      assert UploadSound(c, s, honest, s.uploads[k]);
    }
    forall id | id in t.attachments && IsVisible(t.attachments[id]) ensures Intact(c, t, honest, id) {
      assert Intact(c, s, honest, id);
    }
  }

  lemma BeginKeepsSound(c: Settings, s: State, honest: bool, a: Action)
    requires Sound(c, s, honest) && a.Begin? && (honest ==> IsHonest(a))
    ensures Sound(c, Begun(c, s, a), honest)
  {
    if a.client !in s.uploads && a.id in s.attachments {
      match UploadRefusal(c, s.attachments[a.id], a.actor, a.archived, a.file)
      case None => UploadKeepsSound(c, s, honest, a.client, Checked(a.id, a.file.content));
      case Some(e) => UploadKeepsSound(c, s, honest, a.client, Failing(a.id, e));
    }
  }

  lemma SaveKeepsSound(c: Settings, s: State, honest: bool, client: Client, id: Id, content: Bytes)
    requires Sound(c, s, honest) && UploadSound(c, s, honest, Checked(id, content))
    ensures Sound(c, Continue(s, Checked(id, content), Save(client)), honest)
  {
    StoreKeepsSound(c, s, honest, id, content);
    UploadKeepsSound(c, s.(storage := s.storage[s.attachments[id].key := content]), honest, client, Stored(id));
  }

  lemma MeasureKeepsSound(c: Settings, s: State, honest: bool, client: Client, id: Id)
    requires Sound(c, s, honest) && UploadSound(c, s, honest, Stored(id))
    ensures Sound(c, Continue(s, Stored(id), Measure(client)), honest)
  {
    var next := if HasSize(s, id) then Measured(id) else Failing(id, UploadVerificationFailed);
    UploadKeepsSound(c, s, honest, client, next);
  }

  lemma FlipKeepsSound(c: Settings, s: State, honest: bool, client: Client, id: Id, now: int)
    requires Sound(c, s, honest) && UploadSound(c, s, honest, Measured(id))
    ensures Sound(c, EndUpload(Finish(s, id, now), client), honest)
  {
    FinishKeepsSound(c, s, honest, id, now);
    EndKeepsSound(c, Finish(s, id, now), honest, client);
  }

  lemma FailKeepsSound(c: Settings, s: State, honest: bool, client: Client, u: Upload, now: int)
    requires Sound(c, s, honest) && u.Failing?
    ensures Sound(c, EndUpload(MarkedFailed(s, u.id, now), client), honest)
  {
    MarkFailedKeepsSound(c, s, honest, u.id, now);
    EndKeepsSound(c, MarkedFailed(s, u.id, now), honest, client);
  }

  lemma ContinueKeepsSound(c: Settings, s: State, honest: bool, client: Client, a: Action)
    requires Sound(c, s, honest) && client in s.uploads
    requires (a.Save? || a.Measure? || a.Flip? || a.Fail?) && a.client == client
    ensures Sound(c, Continue(s, s.uploads[client], a), honest)
  {
    var u := s.uploads[client];
    assert UploadSound(c, s, honest, u);
    if u.Checked? && a.Save? {
      SaveKeepsSound(c, s, honest, client, u.id, u.content);
    } else if u.Stored? && a.Measure? {
      MeasureKeepsSound(c, s, honest, client, u.id);
    } else if u.Measured? && a.Flip? {
      FlipKeepsSound(c, s, honest, client, u.id, a.now);
    } else if u.Failing? && a.Fail? {
      FailKeepsSound(c, s, honest, client, u, a.now);
    } else {
      assert Continue(s, u, a) == s;
    }
  }

  lemma WithdrawnKeepsSound(c: Settings, s: State, honest: bool, a: Action)
    requires Sound(c, s, honest) && a.Remove?
    ensures Sound(c, Withdrawn(s, a), honest)
  {
    if a.id in s.attachments && RemoveRefusal(s.attachments[a.id], a.actor, a.role, a.archived).None? {
      RemovedKeepsSound(c, s, honest, a.id, a.now, a.brokerUp);
    }
  }

  lemma CleanedUpKeepsSound(c: Settings, s: State, honest: bool, key: string, redelivered: bool)
    requires Sound(c, s, honest)
    ensures Sound(c, CleanedUp(s, key, redelivered), honest)
  {
    if key in s.cleanups {
      CleanupKeepsSound(c, s, honest, key);
      FewerCleanupsKeepSound(c, s.(storage := s.storage - {key}), honest, CleanedUp(s, key, redelivered).cleanups);
    }
  }

  lemma RequestKeepsSound(c: Settings, s: State, honest: bool, a: Action)
    requires Sound(c, s, honest) && (honest ==> IsHonest(a)) && (a.Initiate? || a.Begin? || a.Remove?)
    ensures Sound(c, Act(c, s, a), honest)
  {
    if a.Initiate? {
      InitiateKeepsSound(c, s, honest, a);
    } else if a.Begin? {
      BeginKeepsSound(c, s, honest, a);
    } else {
      WithdrawnKeepsSound(c, s, honest, a);
    }
  }

  lemma LostKeepsSound(c: Settings, s: State, honest: bool, key: string)
    requires Sound(c, s, honest)
    ensures Sound(c, s.(cleanups := s.cleanups - multiset{key}), honest)
  {
    var fewer := s.cleanups - multiset{key};
    assert forall k | k in fewer :: k in s.cleanups;
    FewerCleanupsKeepSound(c, s, honest, fewer);
  }

  lemma ActKeepsSound(c: Settings, s: State, honest: bool, a: Action)
    requires Sound(c, s, honest) && (honest ==> IsHonest(a))
    ensures Sound(c, Act(c, s, a), honest)
  {
    if a.Initiate? || a.Begin? || a.Remove? {
      RequestKeepsSound(c, s, honest, a);
    } else if a.Abort? {
      EndKeepsSound(c, s, honest, a.client);
    } else if a.Cleanup? {
      CleanedUpKeepsSound(c, s, honest, a.key, a.redelivered);
    } else if a.Lose? {
      LostKeepsSound(c, s, honest, a.key);
    } else if a.client in s.uploads {
      ContinueKeepsSound(c, s, honest, a.client, a);
    } else {
      assert Act(c, s, a) == s;
    }
  }

  lemma {:induction false} RunStaysSound(c: Settings, honest: bool, actions: seq<Action>)
    requires IsUuidText(c.organization) && (honest ==> forall a <- actions :: IsHonest(a))
    ensures Sound(c, Play(c, NOTHING, actions), honest)
  {
    if actions != [] {
      RunStaysSound(c, honest, actions[..|actions| - 1]);
      ActKeepsSound(c, Play(c, NOTHING, actions[..|actions| - 1]), honest, Last(actions));
    }
  }

  // ---------------------------------------------------------------------------------------------
  // Who may do what

  /** An upload gets past its checks exactly if its uploader sends, for a pending attachment of a live
      bug, a file of the declared size whose bytes pass; a wrong size or wrong bytes fail the attachment. */
  lemma UploadBeginsExactly(c: Settings, s: State, a: Action)
    requires a.Begin? && a.client !in s.uploads && a.id in s.attachments
    ensures var row, t := s.attachments[a.id], Act(c, s, a);
            var mayStart := a.actor == row.uploader && row.status == Pending && !a.archived.bug && !a.archived.project;
            var fits := a.file.size == row.size && c.passes(row.contentType, a.file.content);
            && (a.client in t.uploads <==> mayStart)
            && (mayStart ==>
                  var u := t.uploads[a.client];
                  u.id == a.id && (u.Checked? <==> fits) && (u.Failing? <==> !fits))
            && t.attachments == s.attachments && t.storage == s.storage
  {
  }

  /** An attachment is removed exactly if it is shown, by its uploader on a live bug or by an administrator
      anywhere. */
  lemma RemovedExactly(c: Settings, s: State, a: Action)
    requires a.Remove? && a.id in s.attachments
    ensures var was, t := s.attachments[a.id], Act(c, s, a);
            if && IsVisible(was)
               && (a.role == Some(Administrator) || (a.actor == was.uploader && !a.archived.bug && !a.archived.project))
            then t.attachments == s.attachments[a.id := was.(removedAt := Some(a.now))] && t.storage == s.storage
            else t == s
  {
  }

  // ---------------------------------------------------------------------------------------------
  // What every run guarantees

  /** Whatever overlaps, fails, is removed, cleaned up or redelivered: an attachment that is shown has its
      object, of the declared size and with bytes that passed the check, and exactly one log entry says
      that it was added (none for any other). */
  lemma VisibleMeansStored(c: Settings, actions: seq<Action>, id: Id)
    requires IsUuidText(c.organization) && forall a <- actions :: IsHonest(a)
    requires id in Play(c, NOTHING, actions).attachments
    ensures var s := Play(c, NOTHING, actions);
            && (IsVisible(s.attachments[id]) ==>
                  ObjectSound(c, s, id) && Times(s.log, AttachmentAdded(id)) == 1 &&
                    Times(s.log, AttachmentRemoved(id)) == 0)
            && (s.attachments[id].status != Uploaded ==> Times(s.log, AttachmentAdded(id)) == 0)
  {
    RunStaysSound(c, true, actions);
    assert LogSound(Play(c, NOTHING, actions), id);
  }

  /** The stored names are display names in every reachable state: no path, nothing reserved, never empty. */
  lemma {:induction false} StoredNamesAreSafe(c: Settings, actions: seq<Action>, id: Id)
    requires id in Play(c, NOTHING, actions).attachments
    ensures IsSafeName(Play(c, NOTHING, actions).attachments[id].name)
  {
    if actions != [] {
      var s, a := Play(c, NOTHING, actions[..|actions| - 1]), Last(actions);
      if id in s.attachments {
        StoredNamesAreSafe(c, actions[..|actions| - 1], id);
        ActEvolves(c, s, a);
        assert MayTurnInto(s.attachments[id], Act(c, s, a).attachments[id]);
      } else {
        NewRowsAreInitiated(c, s, a, id);
        SafeFilenameIsSafe(a.filename);
      }
    }
  }

  lemma NewRowsAreInitiated(c: Settings, s: State, a: Action, id: Id)
    requires id !in s.attachments && id in Act(c, s, a).attachments
    ensures a.Initiate? && a.contentType in c.extensions && Act(c, s, a).attachments[id] == NewAttachment(c, a)
  {
  }

  datatype Download = NotFound | ObjectMissing | Served(content: Bytes)

  function GetDownload(s: State, id: Id): Download
    requires id in s.attachments
  {
    var a := s.attachments[id];
    if !IsVisible(a) then NotFound
    else if a.key !in s.storage then ObjectMissing
    else Served(s.storage[a.key])
  }

  /** The branch that logs a missing object is never taken, even if files lie about their size. */
  lemma DownloadsAreNeverMissing(c: Settings, actions: seq<Action>, id: Id)
    requires IsUuidText(c.organization) && id in Play(c, NOTHING, actions).attachments
    ensures var s := Play(c, NOTHING, actions);
            match GetDownload(s, id)
            case NotFound => !IsVisible(s.attachments[id])
            case ObjectMissing => false
            case Served(content) => IsVisible(s.attachments[id]) && c.passes(s.attachments[id].contentType, content)
  {
    RunStaysSound(c, false, actions);
  }

  // A file that misreports its size is caught only after it has been stored

  ghost predicate SizesHold(s: State) {
    forall id | id in s.attachments && IsVisible(s.attachments[id]) :: HasSize(s, id)
  }

  /** Storing over a shown attachment needs the right size, and so does showing what was measured before. */
  predicate IsSizeSafe(s: State, a: Action) {
    match a
    case Save(k) =>
      if k in s.uploads && s.uploads[k].Checked? && s.uploads[k].id in s.attachments then
        var shown := s.attachments[s.uploads[k].id];
        IsVisible(shown) ==> |s.uploads[k].content| == shown.size
      else true
    case Flip(k, _) =>
      if k in s.uploads && s.uploads[k].Measured? && s.uploads[k].id in s.attachments then
        s.attachments[s.uploads[k].id].status == Pending ==> HasSize(s, s.uploads[k].id)
      else true
    case _ => true
  }

  lemma SaveKeepsSizesExactly(c: Settings, s: State, k: Client)
    requires Sound(c, s, false) && SizesHold(s)
    ensures SizesHold(Act(c, s, Save(k))) <==> IsSizeSafe(s, Save(k))
  {
    var t := Act(c, s, Save(k));
    if k in s.uploads && s.uploads[k].Checked? && s.uploads[k].id in s.attachments {
      var id := s.uploads[k].id;
      forall other | other in s.attachments && other != id ensures HasSize(t, other) <==> HasSize(s, other) {
        KeysDiffer(c, s, id, other);
      }
      assert HasSize(t, id) <==> |s.uploads[k].content| == s.attachments[id].size;
    }
  }

  lemma FlipKeepsSizesExactly(c: Settings, s: State, k: Client, now: int)
    requires Sound(c, s, false) && SizesHold(s)
    ensures SizesHold(Act(c, s, Flip(k, now))) <==> IsSizeSafe(s, Flip(k, now))
  {
    if k in s.uploads && s.uploads[k].Measured? && s.uploads[k].id in s.attachments {
      FinishKeepsSizesExactly(c, s, s.uploads[k].id, now);
    }
  }

  lemma FinishKeepsSizesExactly(c: Settings, s: State, id: Id, now: int)
    requires RowsSound(c, s) && SizesHold(s) && id in s.attachments
    ensures SizesHold(Finish(s, id, now)) <==> (s.attachments[id].status == Pending ==> HasSize(s, id))
  {
    var t := Finish(s, id, now);
    if s.attachments[id].status == Pending {
      assert RowSound(c, id, s.attachments[id]);
      assert IsVisible(t.attachments[id]) && (HasSize(t, id) <==> HasSize(s, id));
      forall other | other in t.attachments && other != id ensures HasSize(t, other) <==> HasSize(s, other) {
      }
    }
  }

  lemma ContinueShowsNothingNew(s: State, u: Upload, a: Action, id: Id)
    requires !a.Flip? && id in Continue(s, u, a).attachments && IsVisible(Continue(s, u, a).attachments[id])
    ensures id in s.attachments && s.attachments[id] == Continue(s, u, a).attachments[id]
    ensures !a.Save? ==> Continue(s, u, a).storage == s.storage
  {
  }

  /** Only the final status change shows an attachment, and only storing and cleaning up touch storage. */
  lemma OtherStepsShowNothingNew(c: Settings, s: State, a: Action, id: Id)
    requires !a.Flip? && id in Act(c, s, a).attachments && IsVisible(Act(c, s, a).attachments[id])
    ensures id in s.attachments && s.attachments[id] == Act(c, s, a).attachments[id]
    ensures !a.Save? && !a.Cleanup? ==> Act(c, s, a).storage == s.storage
  {
    if a.Save? || a.Measure? || a.Fail? {
      if a.client in s.uploads {
        ContinueShowsNothingNew(s, s.uploads[a.client], a, id);
      }
    }
  }

  lemma StepKeepsSizesExactly(c: Settings, s: State, a: Action)
    requires Sound(c, s, false) && SizesHold(s)
    ensures SizesHold(Act(c, s, a)) <==> IsSizeSafe(s, a)
  {
    if a.Save? {
      SaveKeepsSizesExactly(c, s, a.client);
    } else if a.Flip? {
      FlipKeepsSizesExactly(c, s, a.client, a.now);
    } else {
      forall id | id in Act(c, s, a).attachments && IsVisible(Act(c, s, a).attachments[id])
        ensures HasSize(Act(c, s, a), id)
      {
        OtherStepsKeepSize(c, s, a, id);
      }
    }
  }

  lemma OtherStepsKeepSize(c: Settings, s: State, a: Action, id: Id)
    requires Sound(c, s, false) && SizesHold(s) && !a.Save? && !a.Flip?
    requires id in Act(c, s, a).attachments && IsVisible(Act(c, s, a).attachments[id])
    ensures HasSize(Act(c, s, a), id)
  {
    OtherStepsShowNothingNew(c, s, a, id);
    assert HasSize(s, id);
    if a.Cleanup? && a.key in s.cleanups {
      assert Act(c, s, a).storage == s.storage - {a.key};
      if s.attachments[id].key == a.key {
        CleanupsAreOfRemoved(c, s, id);
      }
    } else {
      assert Act(c, s, a).storage == s.storage;
    }
  }

  /** Every object is some attachment's. */
  ghost predicate StorageSound(s: State) {
    forall key | key in s.storage :: exists id :: id in s.attachments && s.attachments[id].key == key
  }

  lemma ActKeepsStorageSound(c: Settings, s: State, a: Action)
    requires StorageSound(s)
    ensures StorageSound(Act(c, s, a))
  {
    var t := Act(c, s, a);
    ActEvolves(c, s, a);
    forall key | key in t.storage ensures exists id :: id in t.attachments && t.attachments[id].key == key {
      if key in s.storage {
        var id :| id in s.attachments && s.attachments[id].key == key;
        assert id in t.attachments && MayTurnInto(s.attachments[id], t.attachments[id]);
      } else {
        StoredKeyIsOfRow(c, s, a, key);
      }
    }
  }

  lemma StoredKeyIsOfRow(c: Settings, s: State, a: Action, key: string)
    requires key in Act(c, s, a).storage && key !in s.storage
    ensures exists id :: id in Act(c, s, a).attachments && Act(c, s, a).attachments[id].key == key
  {
    assert a.Save? && a.client in s.uploads;
    var id := s.uploads[a.client].id;
    assert id in Act(c, s, a).attachments && Act(c, s, a).attachments[id].key == key;
  }

  lemma {:induction false} RunKeepsStorageSound(c: Settings, actions: seq<Action>)
    ensures StorageSound(Play(c, NOTHING, actions))
  {
    if actions != [] {
      RunKeepsStorageSound(c, actions[..|actions| - 1]);
      ActKeepsStorageSound(c, Play(c, NOTHING, actions[..|actions| - 1]), Last(actions));
    }
  }

  /** The bytes the step stores for an attachment. */
  function SavedBy(s: State, a: Action, id: Id): Option<Bytes> {
    if a.Save? && a.client in s.uploads && s.uploads[a.client].Checked? && s.uploads[a.client].id == id
       && id in s.attachments
    then Some(s.uploads[a.client].content)
    else None
  }

  /** The bytes that were stored last. */
  function LastSaved(c: Settings, actions: seq<Action>, id: Id): Option<Bytes> {
    if actions == [] then None
    else
      var before := actions[..|actions| - 1];
      var saved := SavedBy(Play(c, NOTHING, before), Last(actions), id);
      if saved.Some? then saved else LastSaved(c, before, id)
  }

  function ObjectOf(s: State, key: string): Option<Bytes> {
    if key in s.storage then Some(s.storage[key]) else None
  }

  lemma SaveOnObject(c: Settings, s: State, a: Action, id: Id)
    requires RowsSound(c, s) && id in s.attachments && a.Save?
    ensures ObjectOf(Act(c, s, a), s.attachments[id].key) ==
            if SavedBy(s, a, id).Some? then SavedBy(s, a, id) else ObjectOf(s, s.attachments[id].key)
  {
    if a.client in s.uploads && s.uploads[a.client].Checked? && s.uploads[a.client].id in s.attachments {
      if s.uploads[a.client].id != id {
        KeysDiffer(c, s, s.uploads[a.client].id, id);
      }
    }
  }

  lemma CleanupOnObject(c: Settings, s: State, key: string, redelivered: bool, id: Id)
    requires RowsSound(c, s) && id in s.attachments && s.attachments[id].removedAt.None?
    ensures ObjectOf(CleanedUp(s, key, redelivered), s.attachments[id].key) == ObjectOf(s, s.attachments[id].key)
  {
    if key in s.cleanups && key == s.attachments[id].key {
      CleanupsAreOfRemoved(c, s, id);
    }
  }

  lemma ContinueKeepsStorage(s: State, u: Upload, a: Action)
    requires !a.Save?
    ensures Continue(s, u, a).storage == s.storage
  {
  }

  lemma RequestKeepsStorage(c: Settings, s: State, a: Action)
    requires a.Initiate? || a.Remove? || a.Begin?
    ensures Act(c, s, a).storage == s.storage
  {
  }

  lemma OthersKeepStorage(c: Settings, s: State, a: Action)
    requires !a.Save? && !a.Cleanup?
    ensures Act(c, s, a).storage == s.storage
  {
    if a.Measure? || a.Flip? || a.Fail? {
      if a.client in s.uploads {
        ContinueKeepsStorage(s, s.uploads[a.client], a);
      }
    } else if a.Initiate? || a.Remove? || a.Begin? {
      RequestKeepsStorage(c, s, a);
    }
  }

  lemma ActOnObject(c: Settings, s: State, a: Action, id: Id)
    requires RowsSound(c, s) && id in s.attachments && s.attachments[id].removedAt.None?
    ensures ObjectOf(Act(c, s, a), s.attachments[id].key) ==
            if SavedBy(s, a, id).Some? then SavedBy(s, a, id) else ObjectOf(s, s.attachments[id].key)
  {
    if a.Save? {
      SaveOnObject(c, s, a, id);
    } else if a.Cleanup? {
      CleanupOnObject(c, s, a.key, a.redelivered, id);
    } else {
      OthersKeepStorage(c, s, a);
    }
  }

  lemma {:induction false} NothingSavedYet(c: Settings, actions: seq<Action>, id: Id)
    requires id !in Play(c, NOTHING, actions).attachments
    ensures LastSaved(c, actions, id).None?
  {
    if actions != [] {
      var s := Play(c, NOTHING, actions[..|actions| - 1]);
      ActEvolves(c, s, Last(actions));
      NothingSavedYet(c, actions[..|actions| - 1], id);
    }
  }

  lemma KeyStays(c: Settings, s: State, a: Action, id: Id)
    requires id in s.attachments
    ensures id in Act(c, s, a).attachments
    ensures Act(c, s, a).attachments[id].key == s.attachments[id].key
    ensures Act(c, s, a).attachments[id].removedAt.None? ==> s.attachments[id].removedAt.None?
  {
    ActEvolves(c, s, a);
    assert MayTurnInto(s.attachments[id], Act(c, s, a).attachments[id]);
  }

  lemma NewRowHasNoObject(c: Settings, s: State, a: Action, id: Id)
    requires id !in s.attachments && id in Act(c, s, a).attachments
    requires RowsSound(c, Act(c, s, a)) && StorageSound(s)
    ensures ObjectOf(Act(c, s, a), Act(c, s, a).attachments[id].key).None?
    ensures SavedBy(s, a, id).None?
  {
    var t := Act(c, s, a);
    NewRowsAreInitiated(c, s, a, id);
    assert t.storage == s.storage;
    if t.attachments[id].key in s.storage {
      var other :| other in s.attachments && s.attachments[other].key == t.attachments[id].key;
      KeyStays(c, s, a, other);
      KeysDiffer(c, t, id, other);
    }
  }

  /** The object of an attachment that is not removed is what was stored last for it. */
  lemma {:induction false} ObjectIsLastSaved(c: Settings, actions: seq<Action>, id: Id)
    requires IsUuidText(c.organization) && id in Play(c, NOTHING, actions).attachments
    requires Play(c, NOTHING, actions).attachments[id].removedAt.None?
    ensures var s := Play(c, NOTHING, actions);
            ObjectOf(s, s.attachments[id].key) == LastSaved(c, actions, id)
  {
    if actions != [] {
      var before, a := actions[..|actions| - 1], Last(actions);
      var s := Play(c, NOTHING, before);
      assert Play(c, NOTHING, actions) == Act(c, s, a);
      RunStaysSound(c, false, before);
      if id in s.attachments {
        KeyStays(c, s, a, id);
        ObjectIsLastSaved(c, before, id);
        ActOnObject(c, s, a, id);
      } else {
        NothingSavedYet(c, before, id);
        RunStaysSound(c, false, actions);
        RunKeepsStorageSound(c, before);
        NewRowHasNoObject(c, s, a, id);
      }
    }
  }

  /** The same condition in terms of what was stored: over a shown attachment only bytes of the declared
      size are stored, and one is shown only if the bytes stored last have it. */
  predicate StoresAndShowsRightSize(c: Settings, before: seq<Action>, a: Action) {
    var s := Play(c, NOTHING, before);
    match a
    case Save(k) =>
      (k in s.uploads && s.uploads[k].Checked? && s.uploads[k].id in s.attachments
       && IsVisible(s.attachments[s.uploads[k].id])) ==>
        |s.uploads[k].content| == s.attachments[s.uploads[k].id].size
    case Flip(k, _) =>
      (k in s.uploads && s.uploads[k].Measured? && s.uploads[k].id in s.attachments
       && s.attachments[s.uploads[k].id].status == Pending) ==>
        (var last := LastSaved(c, before, s.uploads[k].id);
         last.Some? && |last.value| == s.attachments[s.uploads[k].id].size)
    case _ => true
  }

  lemma ConditionsAgree(c: Settings, before: seq<Action>, a: Action)
    requires IsUuidText(c.organization)
    ensures StoresAndShowsRightSize(c, before, a) <==> IsSizeSafe(Play(c, NOTHING, before), a)
  {
    var s := Play(c, NOTHING, before);
    if a.Flip? && a.client in s.uploads && s.uploads[a.client].Measured? && s.uploads[a.client].id in s.attachments {
      var id := s.uploads[a.client].id;
      RunStaysSound(c, false, before);
      assert RowSound(c, id, s.attachments[id]);
      if s.attachments[id].status == Pending {
        ObjectIsLastSaved(c, before, id);
      }
    }
  }

  ghost predicate SizesHoldThroughout(c: Settings, actions: seq<Action>) {
    SizesHold(Play(c, NOTHING, actions)) && (actions != [] ==> SizesHoldThroughout(c, actions[..|actions| - 1]))
  }

  ghost predicate AllStoreAndShowRightSize(c: Settings, actions: seq<Action>) {
    actions != [] ==>
      && AllStoreAndShowRightSize(c, actions[..|actions| - 1])
      && StoresAndShowsRightSize(c, actions[..|actions| - 1], Last(actions))
  }

  /** For files of any kind: every shown object keeps its declared size throughout a run exactly if no step
      of the run stores over a shown one, or shows, bytes of another size. */
  lemma {:induction false} SizesOverRunsExactly(c: Settings, actions: seq<Action>)
    requires IsUuidText(c.organization)
    ensures SizesHoldThroughout(c, actions) <==> AllStoreAndShowRightSize(c, actions)
  {
    if actions != [] {
      var before := actions[..|actions| - 1];
      SizesOverRunsExactly(c, before);
      ConditionsAgree(c, before, Last(actions));
      if SizesHoldThroughout(c, before) {
        RunStaysSound(c, false, before);
        StepKeepsSizesExactly(c, Play(c, NOTHING, before), Last(actions));
      }
    }
  }

  lemma PlayOn(c: Settings, s: State, actions: seq<Action>, a: Action)
    ensures Play(c, s, actions + [a]) == Act(c, Play(c, s, actions), a)
  {
    assert (actions + [a])[..|actions|] == actions;
  }

  lemma AppendThree<T>(s: seq<T>, a: T, b: T, c: T)
    ensures s + [a, b, c] == s + [a] + [b] + [c]
  {
  }

  lemma PlayThree(c: Settings, s: State, actions: seq<Action>, a1: Action, a2: Action, a3: Action)
    ensures Play(c, s, actions + [a1, a2, a3]) == Act(c, Act(c, Act(c, Play(c, s, actions), a1), a2), a3)
  {
    PlayOn(c, s, actions, a1);
    PlayOn(c, s, actions + [a1], a2);
    PlayOn(c, s, actions + [a1] + [a2], a3);
    AppendThree(actions, a1, a2, a3);
  }

  /** Two overlapping uploads of one attachment, the second misreporting its size: the first finishes, the
      second then overwrites the shown object before its own size check fails. */
  lemma MisreportedSizeBreaksShownObject(c: Settings, id: Id, u: UserId, good: Bytes, bad: Bytes)
    requires IsUuidText(id) && "text/plain" in c.extensions && 0 < |good| <= c.maxSize && |bad| != |good|
    requires c.passes("text/plain", good) && c.passes("text/plain", bad)
    ensures var open := Archived(false, false);
            var s := Play(c, NOTHING,
              [Initiate(id, id, u, Some(Reporter), "a.txt", "text/plain", |good|, open),
               Begin(0, id, u, open, File(|good|, good)), Begin(1, id, u, open, File(|good|, bad))] +
              [Save(0), Measure(0), Flip(0, 0)] + [Save(1), Measure(1), Fail(1, 0)]);
            id in s.attachments && IsVisible(s.attachments[id]) && !HasSize(s, id)
  {
    var open := Archived(false, false);
    var initiate := Initiate(id, id, u, Some(Reporter), "a.txt", "text/plain", |good|, open);
    var begin0, begin1 := Begin(0, id, u, open, File(|good|, good)), Begin(1, id, u, open, File(|good|, bad));
    var a := NewAttachment(c, initiate);
    assert [] + [initiate, begin0, begin1] == [initiate, begin0, begin1];
    PlayThree(c, NOTHING, [], initiate, begin0, begin1);
    PlayThree(c, NOTHING, [initiate, begin0, begin1], Save(0), Measure(0), Flip(0, 0));
    PlayThree(c, NOTHING, [initiate, begin0, begin1] + [Save(0), Measure(0), Flip(0, 0)],
      Save(1), Measure(1), Fail(1, 0));
    BothChecked(c, initiate, begin0, begin1);
    FinishWhileChecked(c, id, a, good, bad);
    Overwrite(c, id, a.(status := Uploaded, uploadedAt := Some(0)), good, bad);
  }

  lemma BothChecked(c: Settings, initiate: Action, begin0: Action, begin1: Action)
    requires initiate.Initiate? && InitiateRefusal(c, initiate).None? &&
      IsUuidText(initiate.id) && IsUuidText(initiate.bug)
    requires begin0.Begin? && begin1.Begin? && begin0.client == 0 && begin1.client == 1
    requires begin0.id == initiate.id == begin1.id
    requires UploadRefusal(c, NewAttachment(c, initiate), begin0.actor, begin0.archived, begin0.file).None?
    requires UploadRefusal(c, NewAttachment(c, initiate), begin1.actor, begin1.archived, begin1.file).None?
    ensures Act(c, Act(c, Act(c, NOTHING, initiate), begin0), begin1) ==
            State(map[initiate.id := NewAttachment(c, initiate)], map[], [], multiset{},
                  map[0 := Checked(begin0.id, begin0.file.content), 1 := Checked(begin1.id, begin1.file.content)])
  {
    var s1 := Act(c, NOTHING, initiate);
    assert s1 == State(map[initiate.id := NewAttachment(c, initiate)], map[], [], multiset{}, map[]);
    assert Act(c, s1, begin0) == s1.(uploads := map[0 := Checked(begin0.id, begin0.file.content)]);
  }

  lemma FinishWhileChecked(c: Settings, id: Id, a: Attachment, good: Bytes, bad: Bytes)
    requires a.status == Pending && a.size == |good|
    ensures var s := State(map[id := a], map[], [], multiset{}, map[0 := Checked(id, good), 1 := Checked(id, bad)]);
            Act(c, Act(c, Act(c, s, Save(0)), Measure(0)), Flip(0, 0)) ==
            State(map[id := a.(status := Uploaded, uploadedAt := Some(0))], map[a.key := good], [AttachmentAdded(id)],
                  multiset{}, map[1 := Checked(id, bad)])
  {
    var s := State(map[id := a], map[], [], multiset{}, map[0 := Checked(id, good), 1 := Checked(id, bad)]);
    SaveAndMeasure(c, id, a, good, bad);
    var u := Act(c, Act(c, s, Save(0)), Measure(0));
    assert u.uploads - {0} == map[1 := Checked(id, bad)];
  }

  lemma SaveAndMeasure(c: Settings, id: Id, a: Attachment, good: Bytes, bad: Bytes)
    requires a.status == Pending && a.size == |good|
    ensures var s := State(map[id := a], map[], [], multiset{}, map[0 := Checked(id, good), 1 := Checked(id, bad)]);
            Act(c, Act(c, s, Save(0)), Measure(0)) ==
            s.(storage := map[a.key := good], uploads := map[0 := Measured(id), 1 := Checked(id, bad)])
  {
    var s := State(map[id := a], map[], [], multiset{}, map[0 := Checked(id, good), 1 := Checked(id, bad)]);
    var t := Act(c, s, Save(0));
    assert t == s.(storage := map[a.key := good], uploads := map[0 := Stored(id), 1 := Checked(id, bad)]);
  }

  lemma Overwrite(c: Settings, id: Id, a: Attachment, good: Bytes, bad: Bytes)
    requires IsVisible(a) && a.size == |good| && |bad| != |good|
    ensures var s := State(map[id := a], map[a.key := good], [AttachmentAdded(id)],
      multiset{}, map[1 := Checked(id, bad)]);
            var t := Act(c, Act(c, Act(c, s, Save(1)), Measure(1)), Fail(1, 0));
            t.attachments == map[id := a] && !HasSize(t, id)
  {
    var s := State(map[id := a], map[a.key := good], [AttachmentAdded(id)], multiset{}, map[1 := Checked(id, bad)]);
    var t := Act(c, s, Save(1));
    assert t == s.(storage := map[a.key := bad], uploads := map[1 := Stored(id)]);
  }

  // ---------------------------------------------------------------------------------------------
  // The services as written

  function Concat(chunks: seq<Bytes>): Bytes {
    if chunks == [] then [] else Concat(chunks[..|chunks| - 1]) + Last(chunks)
  }

  /** An upload from start to end, and what it raises. */
  function Received(c: Settings, s: State, id: Id, actor: UserId, archived: Archived, file: File, now: int)
    : (State, Option<AttachmentError>)
    requires id in s.attachments
  {
    var a := s.attachments[id];
    match UploadRefusal(c, a, actor, archived, file)
    case Some(e) => (if MarksFailed(e) then MarkedFailed(s, id, now) else s, Some(e))
    case None =>
      var stored := s.(storage := s.storage[a.key := file.content]);
      if |file.content| != a.size then (MarkedFailed(stored, id, now), Some(UploadVerificationFailed))
      else (Finish(stored, id, now), None)
  }

  class AttachmentStore {
    const settings: Settings
    var attachments: map<Id, Attachment>
    var storage: map<string, Bytes>
    var log: seq<Entry>
    var cleanups: multiset<string>

    constructor (settings: Settings)
      ensures Tables() == NOTHING && this.settings == settings
    {
      this.settings := settings;
      attachments, storage, log, cleanups := map[], map[], [], multiset{};
    }

    ghost function Tables(): State
      reads this
    {
      State(attachments, storage, log, cleanups, map[])
    }

    method InitiateUpload(a: Action) returns (error: Option<AttachmentError>)
      requires a.Initiate? && a.id !in attachments && IsUuidText(a.id) && IsUuidText(a.bug)
      modifies `attachments
      ensures error == InitiateRefusal(settings, a)
      ensures Tables() == Act(settings, old(Tables()), a)
    {
      if a.role.None? || a.role.value !in CAN_UPLOAD_ROLES {
        return Some(AttachmentPermissionDenied);
      }
      error := NotAttachable(a.archived);
      if error.Some? {
        return;
      }
      if a.contentType !in settings.extensions {
        return Some(UnsupportedContentType);
      }
      if a.size == 0 || a.size > settings.maxSize {
        return Some(AttachmentTooLarge);
      }
      attachments := attachments[a.id := NewAttachment(settings, a)];
    }

    /** Chunks go to a temporary file, which replaces the object only when all of them are written. */
    method SaveStream(key: string, chunks: seq<Bytes>)
      modifies `storage
      ensures storage == old(storage)[key := Concat(chunks)]
    {
      var part: Bytes := [];
      for i := 0 to |chunks|
        invariant part == Concat(chunks[..i]) && storage == old(storage)
      {
        assert chunks[..i + 1][..i] == chunks[..i];
        part := part + chunks[i];
      }
      assert chunks[..|chunks|] == chunks;
      storage := storage[key := part];
    }

    method Head(key: string) returns (size: Option<nat>)
      ensures size == if key in storage then Some(|storage[key]|) else None
    {
      size := if key in storage then Some(|storage[key]|) else None;
    }

    method MarkFailed(id: Id, now: int)
      requires id in attachments
      modifies `attachments
      ensures Tables() == MarkedFailed(old(Tables()), id, now)
    {
      var locked := attachments[id];
      if locked.status != Pending {
        return;
      }
      locked := locked.(status := Failed);
      locked := locked.(failedAt := Some(now));
      attachments := attachments[id := locked];
    }

    method ReceiveLocalUpload(id: Id, actor: UserId, archived: Archived, size: nat, chunks: seq<Bytes>, now: int)
      returns (error: Option<AttachmentError>)
      requires id in attachments
      modifies `attachments, `storage, `log
      ensures (Tables(), error) ==
        Received(settings, old(Tables()), id, actor, archived, File(size, Concat(chunks)), now)
    {
      var attachment := attachments[id];
      if actor != attachment.uploader {
        return Some(AttachmentPermissionDenied);
      }
      if attachment.status != Pending {
        return Some(AttachmentNotPending);
      }
      error := NotAttachable(archived);
      if error.Some? {
        return;
      }
      if size != attachment.size {
        MarkFailed(id, now);
        return Some(UploadVerificationFailed);
      }
      if !settings.passes(attachment.contentType, Concat(chunks)) {
        MarkFailed(id, now);
        return Some(SignatureMismatch);
      }
      SaveStream(attachment.key, chunks);
      var actual := Head(attachment.key);
      if actual != Some(attachment.size) {
        MarkFailed(id, now);
        return Some(UploadVerificationFailed);
      }
      var locked := attachments[id];
      if locked.status != Pending {
        return Some(AttachmentNotPending);
      }
      locked := locked.(status := Uploaded);
      locked := locked.(uploadedAt := Some(now));
      attachments := attachments[id := locked];
      log := log + [AttachmentAdded(id)];
      error := None;
    }

    method RemoveAttachment(a: Action) returns (error: Option<AttachmentError>)
      requires a.Remove? && a.id in attachments
      modifies `attachments, `log, `cleanups
      ensures error == RemoveRefusal(old(attachments)[a.id], a.actor, a.role, a.archived)
      ensures Tables() == Withdrawn(old(Tables()), a)
    {
      var locked := attachments[a.id];
      var isModerator := a.role == Some(Administrator);
      if a.actor != locked.uploader && !isModerator {
        return Some(AttachmentPermissionDenied);
      }
      if locked.status != Uploaded || locked.removedAt.Some? {
        return Some(AttachmentNotAvailable);
      }
      if !isModerator {
        error := NotAttachable(a.archived);
        if error.Some? {
          return;
        }
      }
      locked := locked.(removedAt := Some(a.now));
      attachments := attachments[a.id := locked];
      log := log + [AttachmentRemoved(a.id)];
      if a.brokerUp {
        cleanups := cleanups + multiset{locked.key};
      }
      error := None;
    }

    /** The cleanup task; deleting an absent object is not an error. */
    method DeleteAttachmentObject(key: string, redelivered: bool)
      requires key in cleanups
      modifies `storage, `cleanups
      ensures Tables() == CleanedUp(old(Tables()), key, redelivered)
    {
      storage := storage - {key};
      if !redelivered {
        cleanups := cleanups - multiset{key};
      }
    }
  }

  /** The upload service is a run of the machine with nobody in between. */
  lemma UninterruptedUpload(
    c: Settings, s: State, k: Client, id: Id, actor: UserId, archived: Archived, file: File, now: int)
    requires k !in s.uploads && id in s.attachments
    ensures Play(c, s, [Begin(k, id, actor, archived, file), Save(k), Measure(k), Flip(k, now), Fail(k, now)]) ==
            Received(c, s, id, actor, archived, file, now).0
  {
    var begin := Begin(k, id, actor, archived, file);
    PlayThree(c, s, [], begin, Save(k), Measure(k));
    var three := [] + [begin, Save(k), Measure(k)];
    PlayOn(c, s, three, Flip(k, now));
    PlayOn(c, s, three + [Flip(k, now)], Fail(k, now));
    assert [begin, Save(k), Measure(k), Flip(k, now), Fail(k, now)] == three + [Flip(k, now)] + [Fail(k, now)];
    UploadSteps(c, s, k, id, actor, archived, file, now);
  }

  lemma UploadSteps(
    c: Settings, s: State, k: Client, id: Id, actor: UserId, archived: Archived, file: File, now: int)
    requires k !in s.uploads && id in s.attachments
    ensures var s3 := Act(c, Act(c, Act(c, s, Begin(k, id, actor, archived, file)), Save(k)), Measure(k));
            Act(c, Act(c, s3, Flip(k, now)), Fail(k, now)) == Received(c, s, id, actor, archived, file, now).0
  {
    var s1 := Act(c, s, Begin(k, id, actor, archived, file));
    match UploadRefusal(c, s.attachments[id], actor, archived, file)
    case Some(e) =>
      if MarksFailed(e) {
        assert s1 == s.(uploads := s.uploads[k := Failing(id, e)]);
        assert Act(c, Act(c, Act(c, s1, Save(k)), Measure(k)), Flip(k, now)) == s1;
        assert s1.uploads - {k} == s.uploads;
      }
    case None =>
      assert s1 == s.(uploads := s.uploads[k := Checked(id, file.content)]);
      CheckedSteps(c, s, k, id, file.content, now);
  }

  /** From the checks on. */
  lemma CheckedSteps(c: Settings, s: State, k: Client, id: Id, content: Bytes, now: int)
    requires k !in s.uploads && id in s.attachments
    ensures var s1 := s.(uploads := s.uploads[k := Checked(id, content)]);
            var stored := s.(storage := s.storage[s.attachments[id].key := content]);
            Act(c, Act(c, Act(c, Act(c, s1, Save(k)), Measure(k)), Flip(k, now)), Fail(k, now)) ==
            if |content| != s.attachments[id].size then MarkedFailed(stored, id, now) else Finish(stored, id, now)
  {
    var s1 := s.(uploads := s.uploads[k := Checked(id, content)]);
    var stored := s.(storage := s.storage[s.attachments[id].key := content]);
    assert Act(c, s1, Save(k)) == stored.(uploads := s.uploads[k := Stored(id)]);
    var next := if |content| == s.attachments[id].size then Measured(id) else Failing(id, UploadVerificationFailed);
    var s3 := stored.(uploads := s.uploads[k := next]);
    assert Act(c, stored.(uploads := s.uploads[k := Stored(id)]), Measure(k)) == s3;
    assert s3.uploads - {k} == s.uploads;
  }
}
