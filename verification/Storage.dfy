/** What each attachment request leaves in the tables and in the storage, and how long removed bytes stay. */
module Storage {
  import opened Base
  import opened Filenames
  import opened Mentions
  import opened Tracker
  import opened Attachments

  // ---------------------------------------------------------------------------------------------
  // One request

  /** An upload is begun exactly for somebody who may upload, on a live bug, with an allowed type and a size
      within the limit: then one pending row appears as declared, under a key made of the ids. */
  lemma InitiationOutcome(c: Settings, s: State, a: Action)
    requires a.Initiate? && a.id !in s.attachments && IsUuidText(a.id) && IsUuidText(a.bug)
    ensures Act(c, s, a) ==
            if && a.role in {Some(Administrator), Some(Developer), Some(Qa), Some(Reporter)}
               && !a.archived.bug && !a.archived.project
               && a.contentType in c.extensions && 1 <= a.size <= c.maxSize
            then
              s.(attachments := s.attachments[a.id := Attachment(
                a.bug, a.uploader, SafeFilename(a.filename), a.contentType, a.size,
                "attachments/" + c.organization + "/" + a.bug + "/" + a.id + c.extensions[a.contentType],
                Pending, None, None, None)])
            else s
  {
  }

  /** An upload from start to end: shown, with its bytes stored and one entry, exactly if its uploader sends a
      file for a pending attachment of a live bug and the declared size, the reported size and the bytes all
      agree; what fails a check fails the attachment; what is turned away leaves everything. */
  lemma UploadOutcome(c: Settings, s: State, id: Id, actor: UserId, archived: Archived, file: File, now: int)
    requires id in s.attachments
    ensures var a, t := s.attachments[id], Received(c, s, id, actor, archived, file, now).0;
            var passes := file.size == a.size && c.passes(a.contentType, file.content);
            if actor != a.uploader || a.status != Pending || archived.bug || archived.project then t == s
            else if passes && |file.content| == a.size then
              t == s.(attachments := s.attachments[id := a.(status := Uploaded, uploadedAt := Some(now))],
                      storage := s.storage[a.key := file.content], log := s.log + [AttachmentAdded(id)])
            else
              t == s.(attachments := s.attachments[id := a.(status := Failed, failedAt := Some(now))],
                      storage := if passes then s.storage[a.key := file.content] else s.storage)
  {
  }

  /** A removal hides a shown attachment, writes one entry, and queues one cleanup of its object if the broker
      takes it; the object itself stays for now. */
  lemma RemovalOutcome(c: Settings, s: State, a: Action)
    requires a.Remove? && a.id in s.attachments
    ensures var was := s.attachments[a.id];
            Act(c, s, a) ==
            if && was.status == Uploaded && was.removedAt.None?
               && (a.role == Some(Administrator) || (a.actor == was.uploader && !a.archived.bug && !a.archived.project))
            then
              s.(attachments := s.attachments[a.id := was.(removedAt := Some(a.now))],
                 log := s.log + [AttachmentRemoved(a.id)],
                 cleanups := s.cleanups + if a.brokerUp then multiset{was.key} else multiset{})
            else s
  {
    RemovedExactly(c, s, a);
  }

  /** Once a cleanup task for a key has run, the key is not in the storage; every other object is as before, and
      so is everything else, but for the task itself unless it is delivered again. */
  lemma CleanupOutcome(c: Settings, s: State, key: string, redelivered: bool)
    requires key in s.cleanups
    ensures var t := Act(c, s, Cleanup(key, redelivered));
            && key !in t.storage && t.storage.Keys == s.storage.Keys - {key}
            && (forall k | k in t.storage :: t.storage[k] == s.storage[k])
            && t == s.(storage := t.storage, cleanups := t.cleanups)
            && t.cleanups[key] == s.cleanups[key] - (if redelivered then 0 else 1)
            && forall k | k != key :: t.cleanups[k] == s.cleanups[k]
  {
  }

  /** The chunks are joined in order, none lost and none twice. */
  lemma {:induction false} ChunksInOrder(first: seq<Bytes>, second: seq<Bytes>, chunk: Bytes)
    ensures Concat(first + [chunk] + second) == Concat(first) + chunk + Concat(second)
    ensures Concat([chunk]) == chunk
  {
    assert [chunk][..0] == [] && [] + chunk == chunk;
    if second == [] {
      assert first + [chunk] + second == first + [chunk] && (first + [chunk])[..|first|] == first;
      assert Concat(first) + chunk + [] == Concat(first) + chunk;
    } else {
      var n := |second| - 1;
      ChunksInOrder(first, second[..n], chunk);
      assert (first + [chunk] + second)[..|first| + 1 + n] == first + [chunk] + second[..n];
      Associate(Concat(first) + chunk, Concat(second[..n]), Last(second));
    }
  }

  /** What is downloaded, in every reachable state: of a shown attachment what was last stored for it, of any
      other nothing. */
  lemma DownloadsAreWhatWasStored(c: Settings, actions: seq<Action>, id: Id)
    requires IsUuidText(c.organization) && id in Play(c, NOTHING, actions).attachments
    ensures var s := Play(c, NOTHING, actions);
            var a, last := s.attachments[id], LastSaved(c, actions, id);
            GetDownload(s, id) ==
            if a.status == Uploaded && a.removedAt.None? && last.Some? then Served(last.value) else NotFound
  {
    var s := Play(c, NOTHING, actions);
    DownloadsAreNeverMissing(c, actions, id);
    if s.attachments[id].removedAt.None? {
      ObjectIsLastSaved(c, actions, id);
    }
  }

  // ---------------------------------------------------------------------------------------------
  // Removed bytes do not stay

  /** The step is a reason why a removed attachment may keep an object: the broker did not take its cleanup
      task, a task for its key was lost, or an upload of it stores after the removal. */
  predicate Excuses(s: State, a: Action, id: Id) {
    && id in s.attachments
    && match a
       case Remove(other, _, _, _, _, brokerUp) => other == id && !brokerUp
       case Lose(key) => key == s.attachments[id].key
       case Save(k) =>
         && s.attachments[id].removedAt.Some?
         && k in s.uploads && s.uploads[k].Checked? && s.uploads[k].id == id
       case _ => false
  }

  ghost predicate IsExcused(c: Settings, actions: seq<Action>, id: Id) {
    actions != [] &&
    (|| IsExcused(c, actions[..|actions| - 1], id)
     || Excuses(Play(c, NOTHING, actions[..|actions| - 1]), Last(actions), id))
  }

  /** The object of a removed attachment is gone, or its cleanup is still queued. */
  predicate IsSwept(s: State, id: Id)
    requires id in s.attachments
  {
    s.attachments[id].removedAt.Some? && s.attachments[id].key in s.storage ==> s.attachments[id].key in s.cleanups
  }

  lemma SaveKeepsSwept(c: Settings, s: State, a: Action, id: Id)
    requires RowsSound(c, s) && id in s.attachments && a.Save? && IsSwept(s, id) && !Excuses(s, a, id)
    ensures id in Act(c, s, a).attachments && IsSwept(Act(c, s, a), id)
  {
    KeyStays(c, s, a, id);
    SaveOnObject(c, s, a, id);
    SaveTouchesStorageOnly(c, s, a);
  }

  lemma SaveTouchesStorageOnly(c: Settings, s: State, a: Action)
    requires a.Save?
    ensures Act(c, s, a).attachments == s.attachments && Act(c, s, a).cleanups == s.cleanups
  {
  }

  lemma ContinueKeepsRemovals(s: State, u: Upload, a: Action, id: Id)
    requires id in s.attachments
    ensures var t := Continue(s, u, a);
            && id in t.attachments && t.attachments[id].removedAt == s.attachments[id].removedAt
            && t.cleanups == s.cleanups
  {
  }

  lemma RequestsKeepRemovals(c: Settings, s: State, a: Action, id: Id)
    requires id in s.attachments && (a.Initiate? || a.Begin? || a.Abort?)
    ensures var t := Act(c, s, a);
            id in t.attachments && t.attachments[id] == s.attachments[id] && t.cleanups == s.cleanups
  {
  }

  lemma TasksKeepSwept(c: Settings, s: State, a: Action, id: Id)
    requires id in s.attachments && IsSwept(s, id) && !Excuses(s, a, id) && (a.Cleanup? || a.Lose?)
    ensures id in Act(c, s, a).attachments && IsSwept(Act(c, s, a), id)
  {
    if a.Cleanup? && a.key in s.cleanups {
      CleanupOutcome(c, s, a.key, a.redelivered);
    }
  }

  lemma ActKeepsSwept(c: Settings, s: State, a: Action, id: Id)
    requires RowsSound(c, s) && id in s.attachments && IsSwept(s, id) && !Excuses(s, a, id)
    ensures id in Act(c, s, a).attachments && IsSwept(Act(c, s, a), id)
  {
    KeyStays(c, s, a, id);
    if a.Save? {
      SaveKeepsSwept(c, s, a, id);
    } else if a.Cleanup? || a.Lose? {
      TasksKeepSwept(c, s, a, id);
    } else {
      OthersKeepStorage(c, s, a);
      if a.Remove? {
        if a.id in s.attachments {
          RemovalOutcome(c, s, a);
        }
      } else if a.Initiate? || a.Begin? || a.Abort? {
        RequestsKeepRemovals(c, s, a, id);
      } else if a.client in s.uploads {
        ContinueKeepsRemovals(s, s.uploads[a.client], a, id);
      }
    }
  }

  /** In every run: a removed attachment has an object in the storage only while a cleanup of it is queued,
      unless the broker did not take or lost one, or an upload stored it again after the removal. */
  lemma {:induction false} RemovedBytesDoNotStay(c: Settings, actions: seq<Action>, id: Id)
    requires IsUuidText(c.organization) && id in Play(c, NOTHING, actions).attachments
    ensures IsExcused(c, actions, id) || IsSwept(Play(c, NOTHING, actions), id)
  {
    if actions != [] {
      var before, a := actions[..|actions| - 1], Last(actions);
      var s := Play(c, NOTHING, before);
      RunStaysSound(c, false, before);
      if id in s.attachments {
        RemovedBytesDoNotStay(c, before, id);
        if !IsExcused(c, actions, id) {
          ActKeepsSwept(c, s, a, id);
        }
      } else {
        NewRowsAreInitiated(c, s, a, id);
      }
    }
  }
}
