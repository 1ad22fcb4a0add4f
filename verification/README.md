# Quorfix Community, modelled and verified

This project models the domain services of the Quorfix issue tracker and proves what they promise. One
organization is modelled: its members and invitations, projects, bugs with their relationships and
activity log, comments with mentions, notifications, attachments, and the dashboard aggregates.

`dafny verify dfyconfig.toml` checks everything.

## How it is organised

Services that update rows in place are methods of classes (`TrackerStore.Store`, `TrackerStore.LockedBug`,
`Comments.CommentDesk`, `Invitations.InvitationDesk`, `Notifications.Pipeline`,
`Attachments.AttachmentStore`), each proved to turn the tables into exactly what a specification function
says, refusals included. The laws are then proved about those functions, over every run:

- `Workflow`, `Relationships`, `Tracker`, `BugServices`, `MemberServices`: statuses and matrices,
  relationship rows, the tables, and the specification functions of the services.
- `History`, `Lifecycle`, `Guards`: whole runs of service calls, each atomic under its row lock: replay of
  the log, versions, timestamps, conservation, the duplicate forest, references, permissions.
- `Outcomes`, `Refusals`: what an accepted call leaves in every table, what a run has told about each bug, and
  the reasons for refusing a call in their order, all without the functions that compute them.
- `Scenarios`: concrete runs from setup that reach the failing side of two exact conditions.
- `Numbering`, `Administrators`, `Invitations`, `Markings`, `Assignments`, `Attachments`, `Notifications`: the
  transactions and the task pipeline as interleavings of processes, in which any step of any process may
  come next. Where a lock matters, a switch turns it off and a lemma shows what then goes wrong; where the
  code takes none, the exact condition on the interleaving is proved. A last lemma in each says that the
  service as written is such a run with nobody in between (or, for numbering, that every run of the
  tracker is one).
- `Mentions`, `Rendering`: the mention printer, the backend's parser and the renderer's loop, the first and
  the last counting UTF-16 units and the parser characters.
- `Comments`, `Dispatch`, `Delivery`: comments with their fixed mention rows, the notifications each service
  asks for, and whom an event reaches.
- `Storage`: what each attachment request leaves behind, and how long removed bytes stay.
- `Analytics`: grouped and bucketed counts against direct counts.
- `Slugs`, `Filenames`, `Base`: the slug search, the cleaning of file names, and shared vocabulary.

## Modelling decisions

- A user is the number `uuid.UUID` compares by. Projects, bugs, tags, comments, notifications and
  invitations are positions in their tables, whose rows are never deleted. Relationship rows keep ids,
  because they are deleted, and because `.first()` takes the one with the least primary key. The canonical
  order of a relates_to row is the order of positions; only its being a total order matters.
- What comes from outside the tables is a parameter: e-mail addresses, `strip` and `lower`, workflow
  providers, demo personas, slugify, the clock, new ids, query order, the signature check on bytes,
  failures of the broker and the mail server.
- Timestamp laws assume that the clock does not run backwards between calls (`Lifecycle.Timely`); the
  other laws assume nothing about it.
- A new relationship row waits, when its foreign keys are checked, for any transaction that holds one of its
  bugs, because PostgreSQL's `FOR UPDATE` excludes the `FOR KEY SHARE` of that check. `Markings` has this.
- `get_or_create` under a unique constraint is insert-if-absent, `transaction.atomic` is all or nothing, and
  `select_for_update` is a lock held until commit. A new primary key that is taken refuses the call
  (`IdTaken`).
- `clear_bug_assignments` and the eligibility check of an assignee read without locks. In runs of the tracker
  each call is atomic; `Assignments` and `Markings` take the calls concerned apart.
- Watchers and `updated_at` are not part of a bug's row: versions do not cover them.
- Due dates are kept in the text form the log records.
- A body is a sequence of Unicode characters. JavaScript counts one above U+FFFF as two units; where the
  printer cuts such a character in two, the half that is left stands as U+FFFD.

## Where the code and its documentation part

- `workflow.py:113-117` says that the timestamp side effects are right for any transition path. They are
  right exactly for the matrices of `Workflow.StampLawExactly`; an edge CLOSED -> RESOLVED leaves
  `closed_at` set in a bug that is not closed.
- The activity columns hold 255 characters and `update_bug` records whole texts, so an edit of a longer
  description cannot be stored: `Lifecycle.EditTakesEffectExactly` gives the exact condition.
- The duplicate check follows only the first row of a bug. Over serialised calls the forest law holds exactly
  under the condition of `Lifecycle.ForestOverRunsExactly`, whose failing side
  `Scenarios.ReopenedRunLosesTheForest` reaches. A marking locks only its own bug, so markings can overlap. Two
  markings of each other's bug wait for each other (`Markings.CrossedMarkingsWait`), but longer chains need not
  (`Markings.OverlappingMarkingsCanCloseACycle`). Over all interleavings the law holds exactly under the
  condition of `Markings.ForestOverInterleavingsExactly`, which a walk made in one step with the insert would
  test; and a marking that no other one overtakes is as good as a serialised one
  (`Markings.UndisturbedMarkingsExactly`).
- An assignee's membership is checked without a lock and bugs are listed before they are cleared, so that a
  removal that overlaps an assignment can leave its user assigned: `Assignments` has the exact condition.
- A tag's normalized name can be longer than its name, which is what is checked against the 50 characters
  of both columns: `Guards.TaggingTakesEffectExactly` has the condition.
- `render-mentions.tsx:3-6` says that it mirrors the backend exactly. The backend takes an id segment with
  its four hyphens anywhere, the renderer only in the canonical places; and the renderer's `{1,100}`, in a
  pattern without the `u` flag, counts UTF-16 units where the backend counts characters.
  `Rendering.StyledIsExtractedExactly` gives the exact condition.
- A revocation that was looked up before an acceptance marks the accepted invitation as revoked
  (`Invitations.RevocationOverwritesExactly`, and over whole runs `Invitations.NeverBothExactly`).
- The stored size of an attachment is checked only after the object has been replaced. That is harmless as
  long as files report their true size (`Attachments.VisibleMeansStored`), as those of Django's upload
  handlers do, which count the bytes; `Attachments.SizesOverRunsExactly` is the exact condition for files of
  any kind, a hand-made `UploadedFile` included.

## Model

| member | source | states |
|---|---|---|
| `Workflow.TransitionKeepsStamps` | backend/apps/bugs/workflow.py:113-126 | One transition keeps the timestamp law (open iff `resolved_at` is empty, CLOSED iff `closed_at` is set and not earlier) iff its edge satisfies a static condition |
| `Workflow.StampLawExactly` | backend/apps/bugs/workflow.py:95-126 | For every transition matrix: all histories from NEW satisfy the timestamp law iff every edge out of a reachable status satisfies the condition |
| `Workflow.BalanceLawExactly` | backend/apps/bugs/workflow.py:24-33 | For every matrix: resolutions minus reopenings count the terminal status along all histories iff every reachable edge balances |
| `Workflow.CommunityMatrixIsSound` | backend/apps/bugs/workflow.py:42-92 | The community matrix meets both conditions, on every edge |
| `Workflow.EnteredFromExactly` | backend/apps/bugs/workflow.py:42-92 | The community table read the other way round: from where each status is entered |
| `Workflow.EveryBugCanBeClosed` | backend/apps/bugs/workflow.py:42-92 | From every status a path of the community matrix leads to CLOSED |
| `Workflow.EveryStatusCanBeReached` | backend/apps/bugs/workflow.py:42-92 | From NEW a path of the community matrix leads to every status |
| `Workflow.ClosedToResolvedBreaksStamps` | backend/apps/bugs/workflow.py:113-118 | With an edge CLOSED -> RESOLVED the law fails although terminal statuses are left only for REOPENED and CLOSED is entered only from resolutions |
| `TrackerStore.LockedBug.ApplyTimestampSideEffects` | backend/apps/bugs/workflow.py:113-126 | The in-place side effects leave exactly the stamps that the target status and the clock determine |
| `TrackerStore.Store.LockBug` | backend/apps/bugs/services.py:113-128 | The locked object carries the stored row and the quoted version, or the call is refused for a missing bug or a stale version |
| `TrackerStore.Store.CheckMutable` | backend/apps/bugs/services.py:131-139 | Refuses for an archived bug first, then for an archived project |
| `TrackerStore.Store.AssignFields` | backend/apps/bugs/services.py:245-249 | The assignment loop overwrites exactly the changed fields and collects one change per field in order |
| `TrackerStore.Store.RecordChanges` | backend/apps/bugs/services.py:257-275 | One entry per change is appended, unless a value is wider than its log column |
| `TrackerStore.Store.UpdateBug` | backend/apps/bugs/services.py:234-276 | Content update: refused with every table unchanged, or exactly the row, version and entries of the effect |
| `TrackerStore.Store.ValidateDuplicateTarget` | backend/apps/bugs/services.py:279-293 | Accepts a duplicate target iff it exists, is another bug, is not archived, and its chain provably ends elsewhere |
| `TrackerStore.Store.TransitionBug` | backend/apps/bugs/services.py:319-409 | Transition with its checks in order, stamps, optional assignee, duplicate link and entries: all stored together or nothing |
| `TrackerStore.Store.AssignBug` | backend/apps/bugs/services.py:451-476 | Assignment: a no-op for the current assignee, else row, version and one entry naming both e-mails |
| `TrackerStore.Store.ArchiveBug` | backend/apps/bugs/services.py:497-515 | Archiving stores the time, one version and one entry |
| `TrackerStore.Store.RestoreBug` | backend/apps/bugs/services.py:518-536 | Restoring clears the time, with one version and one entry |
| `TrackerStore.Store.AddTag` | backend/apps/bugs/services.py:542-573 | Tagging finds or creates the tag by normalized name, refusing a new one that outgrows its column; already tagged is a no-op |
| `TrackerStore.Store.RemoveTag` | backend/apps/bugs/services.py:576-594 | Removing an absent tag is a no-op, otherwise tag, version and entry change together |
| `TrackerStore.Store.CreateRelationship` | backend/apps/bugs/services.py:613-661 | Adds the canonical row unless it exists, with version and entry |
| `TrackerStore.Store.RemoveRelationship` | backend/apps/bugs/services.py:664-700 | Removes a row that touches the bug, with version and entry |
| `TrackerStore.Store.Serve` | backend/apps/bugs/services.py:234-700 | Every service on an existing bug turns the tables into exactly the state the specification gives |
| `TrackerStore.Store.CreateBug` | backend/apps/bugs/services.py:174-229 | Creation takes the project's next number, increments the counter, adds the row and its CREATED entry |
| `TrackerStore.Store.ClearBugAssignments` | backend/apps/bugs/services.py:706-740 | Every bug of the user loses its assignee, gains one version and one UNASSIGNED entry; no other bug changes |
| `TrackerStore.Store.ClearProjectLeadership` | backend/apps/projects/services.py:96-101 | Clears the lead of exactly the projects the user leads |
| `TrackerStore.Store.RemainingAdministrators` | backend/apps/organizations/services.py:248-251 | The loop counts the administrators other than one member |
| `TrackerStore.Store.ChangeMemberRole` | backend/apps/organizations/services.py:255-277 | Changes the role, or refuses demo personas and the last administrator, changing nothing |
| `TrackerStore.Store.RemoveMember` | backend/apps/organizations/services.py:281-300 | Removes the membership together with leads and assignments, or changes nothing |
| `TrackerStore.Store.CreateProject` | backend/apps/projects/services.py:38-62 | Adds a live project with counter 1 iff the key is well formed and unused and the lead is a member |
| `TrackerStore.Store.UpdateProjectLead` | backend/apps/projects/services.py:66-73 | Sets a member as lead of a live project, else refuses |
| `TrackerStore.Store.ArchiveProject` | backend/apps/projects/services.py:77-83 | Archives a live project, refuses an archived one |
| `TrackerStore.Store.RestoreProject` | backend/apps/projects/services.py:87-93 | Restores an archived project, refuses a live one |
| `Guards.EveryChangeIsAuthorised` | backend/apps/bugs/policies.py:49-109 | Whatever call changed a bug's row, the caller was entitled to that change: status, assignee, tags, fields, archive flag; under the quoted version, never in an archived project |
| `Guards.TransitionTakesEffectExactly` | backend/apps/bugs/services.py:342-377 | A transition takes effect iff version, freeze, permission, edge, assignee and duplicate conditions hold |
| `Guards.AssignmentTakesEffectExactly` | backend/apps/bugs/services.py:451-463 | An assignment takes effect iff staff assigns an eligible, different member on a live bug under the current version |
| `Guards.ArchivingTakesEffectExactly` | backend/apps/bugs/services.py:497-536 | Archiving and restoring take effect iff an administrator meets the opposite state in a live project |
| `Guards.TaggingTakesEffectExactly` | backend/apps/bugs/services.py:542-573 | Tagging takes effect iff the trimmed name has a proper length, no tag of the bug has that normalized name, and a new normalized name fits its 50 characters, for those who may edit |
| `Guards.UntaggingTakesEffectExactly` | backend/apps/bugs/services.py:576-594 | Untagging takes effect iff the bug has the tag, for those who may edit |
| `Guards.LinkingTakesEffectExactly` | backend/apps/bugs/services.py:613-654 | Linking takes effect iff staff relates two different bugs by a new non-duplicate row |
| `Guards.UnlinkingTakesEffectExactly` | backend/apps/bugs/services.py:664-700 | Unlinking takes effect iff the row touches the bug |
| `Guards.EditableExactly` | backend/apps/bugs/policies.py:63-75 | Which field of which bug who may edit, both directions |
| `Outcomes.TransitionOutcome` | backend/apps/bugs/services.py:339-409 | After an accepted transition: the named status, the assignee the call names or else the old one, the stamps, the next version, the entries in order, the new link of a marking; nothing else in any table |
| `Outcomes.AssignmentOutcome` | backend/apps/bugs/services.py:457-476 | After an accepted assignment: that assignee, one version and one entry with both e-mails, or nothing if it was the same |
| `Outcomes.EditOutcome` | backend/apps/bugs/services.py:239-276 | After an accepted edit each given field has the given text and each other its old one; one version, and exactly one entry per changed field with old and new text |
| `Outcomes.CreationOutcome` | backend/apps/bugs/services.py:196-229 | An accepted creation appends one bug with the next number and key, that reporter and time, the given fields and the defaults, and raises that project's counter |
| `Outcomes.ArchivingOutcome` | backend/apps/bugs/services.py:497-536 | Archiving and restoring set and clear the archive time, with one version and one entry |
| `Outcomes.TaggingOutcome` | backend/apps/bugs/services.py:545-573 | After an accepted tagging the bug has the tag of that key besides its others; a tag row appears iff there was none, with the trimmed name |
| `Outcomes.UntaggingOutcome` | backend/apps/bugs/services.py:576-594 | After an accepted untagging the bug has its other tags, with one entry iff it had this one |
| `Outcomes.LinkingOutcome` | backend/apps/bugs/services.py:624-661 | After an accepted link, across the service and the listing: the bug lists the other as blocked or related, the other lists it back, under the new id; all other views stay |
| `Outcomes.UnlinkingOutcome` | backend/apps/bugs/services.py:671-700 | After an accepted removal no list has the row and every other view stays; the entry names the other bug |
| `Outcomes.MemberRemovalOutcome` | backend/apps/organizations/services.py:281-300 | A removal ends exactly that membership, takes the lead off exactly the projects the user led and the assignee off exactly the user's bugs, with one entry each; or it is refused and nothing changes |
| `Outcomes.MembershipOutcome` | backend/apps/organizations/services.py:255-277 | A role change stores that role of that member iff it leaves an administrator and the member is no protected persona; joining changes no existing membership |
| `Outcomes.ProjectOutcome` | backend/apps/projects/services.py:38-93 | When a project is created, gets another lead, is archived or restored, and that nothing else changes then |
| `Outcomes.RunIsAsTold` | backend/apps/bugs/services.py:174-594 | In every reachable state each bug is as the accepted calls last said: project, reporter and time of filing, status, assignee unless removed since, archive time, and in each field the last given text |
| `Refusals.CallReasons` | backend/apps/bugs/services.py:113-139 | The order of reasons common to all calls: early permission and shape, missing bug, stale version, then the service's own |
| `Refusals.EditReasons` | backend/apps/bugs/services.py:236-243 | An edit is refused for an archived bug, an archived project, a field the caller may not edit, or a text too long to log, in this order |
| `Refusals.TransitionReasons` | backend/apps/bugs/services.py:339-364 | The seven reasons of a transition in order, before those of a marking |
| `Refusals.MarkingReasons` | backend/apps/bugs/services.py:279-316 | The reasons of a marking in order, in terms of the bounded walk of 25 bugs |
| `Refusals.AssignmentReasons` | backend/apps/bugs/services.py:457-463 | The reasons of an assignment in order |
| `Refusals.ArchivingReasons` | backend/apps/bugs/services.py:497-536 | The reasons of archiving and restoring in order |
| `Refusals.TagReasons` | backend/apps/bugs/services.py:550-555 | The reasons of tagging and untagging in order |
| `Refusals.RelationshipReasons` | backend/apps/bugs/services.py:618-655 | The reasons of linking and unlinking in order |
| `Refusals.CreationReasons` | backend/apps/bugs/services.py:199-204 | The reasons of a creation in order |
| `Refusals.MemberReasons` | backend/apps/organizations/services.py:233-300 | A role change or removal is refused for a missing member, a protected persona, or if nobody else administers, in this order |
| `Refusals.ProjectReasons` | backend/apps/projects/services.py:38-93 | The reasons of the project services in order |
| `Refusals.CommentReasons` | backend/apps/comments/services.py:94-217 | The reasons of the comment services in order |
| `Refusals.AttachmentReasons` | backend/apps/attachments/services.py:109-241 | The reasons of beginning, sending and removing an attachment in order |
| `Refusals.InvitationReasons` | backend/apps/organizations/services.py:142-195 | An invitation is turned away iff it is closed or expired, and a new one iff another of the address is open and still valid |
| `Refusals.PoliciesSpelled` | backend/apps/bugs/policies.py:1-63 | Which roles and statuses the policies mean |
| `History.LogReplays` | backend/apps/bugs/services.py:234-594 | Over any run and any two of its points: the entries in between replay the earlier state of a bug to the later one, and its status changes are a path of its matrix |
| `Lifecycle.RunExplains` | backend/apps/bugs/services.py:210-594 | In every reachable state the whole log of each bug, replayed from the fields its creation was given and the defaults for the others, gives its status, assignee, archived flag, tags and content |
| `History.VersionDeterminesState` | backend/apps/bugs/services.py:113-128 | Two observations of a bug with equal versions agree on the whole row and its log |
| `History.EffectiveOrNoOp` | backend/apps/bugs/services.py:234-594 | A call raises the version by exactly one and logs, or changes no table at all |
| `History.AtMostOneWriterPerVersion` | backend/apps/bugs/services.py:126-128 | Of all calls quoting one version of a bug, at most one takes effect in a run |
| `Lifecycle.ResolutionsBalance` | backend/apps/bugs/services.py:379-409 | In every reachable state, under providers whose reachable edges balance: for each bug, resolutions logged minus reopenings is 1 if its status is terminal, else 0 |
| `Lifecycle.RunKeepsStamps` | backend/apps/bugs/workflow.py:113-126 | In every reachable state, under a clock that does not run backwards and any workflow providers whose reachable edges keep the timestamp law, the law holds for every bug |
| `Lifecycle.FrozenBugsStay` | backend/apps/bugs/services.py:131-139 | An archived bug, or a bug of an archived project, changes only by losing a removed assignee or by being restored in a live project |
| `Lifecycle.EditTakesEffectExactly` | backend/apps/bugs/services.py:257-275 | A permitted edit takes effect iff it changes something and every changed text, old and new, fits the 255 characters of the log columns |
| `Scenarios.LongEditIsTurnedAwayExactly` | backend/apps/bugs/services.py:257-275 | A fresh bug filed with one description and edited by staff to another: turned away for its log entry iff the text changes and one of the two is longer than 255 characters |
| `Lifecycle.NoDanglingReferences` | backend/apps/organizations/services.py:280-300 | Over any run of atomic calls every assignee and every project lead is a current member |
| `Assignments.MembersOverInterleavingsExactly` | backend/apps/bugs/services.py:451-469 | For every interleaving of assignments and removals: assignees are members after every step iff each save finds its user still a member and each removal has listed all bugs of its user |
| `Assignments.WithoutOverlapAssigneesAreMembers` | backend/apps/bugs/services.py:706-726 | If no assignment is saved while its user's removal is open, nor the other way round, every assignee is a member after any run |
| `Assignments.OverlapsCanLeaveAGoneAssignee` | backend/apps/bugs/services.py:706-726 | Either overlap can leave a bug assigned to somebody who has gone |
| `Assignments.UninterruptedAssignment` | backend/apps/bugs/services.py:451-469 | The assignment service is its transaction run alone |
| `Assignments.UninterruptedRemoval` | backend/apps/organizations/services.py:280-300 | So is the removal of a member |
| `Assignments.UninterruptedOthers` | backend/apps/bugs/services.py:174-229 | So is what creations, joins and role changes do to members and assignees; no other call touches them |
| `Relationships.DuplicateChainReaches` | backend/apps/bugs/services.py:296-316 | The 25-step loop computes the bounded walk |
| `Relationships.FirstRowExactly` | backend/apps/bugs/services.py:306-312 | The walk goes on along the row with the least id, of those that mark the bug |
| `Relationships.WalkExactly` | backend/apps/bugs/services.py:296-316 | The walk ends iff the chain ends within 25 rows without meeting the bug, reaches iff it meets it within 25, and is unverifiable otherwise |
| `Relationships.AcceptedMarkingExactly` | backend/apps/bugs/services.py:363-377 | In a forest, an accepted marking keeps `duplicate_of` a forest iff the bug has no row to a different target |
| `Relationships.InsertKeepsForestExactly` | backend/apps/bugs/services.py:363-377 | In any forest, writing the row keeps a forest iff the row is there already, or the bug has no row to another target and the target's chain, however long, does not meet the bug |
| `Lifecycle.ForestOverRunsExactly` | backend/apps/bugs/services.py:279-316 | Over any serialised run `duplicate_of` is a forest after every call iff every accepted marking found no row of its bug to a different target |
| `Markings.ForestOverInterleavingsExactly` | backend/apps/bugs/services.py:279-316 | For every interleaving of markings that walk one query at a time, of other rows and of removals: `duplicate_of` is a forest after every step iff each row was safe in the table it was written to |
| `Markings.OverlappingMarkingsCanCloseACycle` | backend/apps/bugs/services.py:113-123 | Such a run, from an empty table, in which two checks pass before either row is written, neither waits for the other, and the rows close a cycle of four bugs |
| `Markings.UndisturbedMarkingsExactly` | backend/apps/bugs/services.py:296-316 | If no other marking commits between the start of a marking and its row, the forest survives iff the bug has no row to another target, whatever else is interleaved |
| `Markings.LooksAreTheWalk` | backend/apps/bugs/services.py:296-316 | The queries of a walk that nobody interrupts give the answer of the bounded walk |
| `Markings.TrackerMarksUninterrupted` | backend/apps/bugs/services.py:363-377 | A marking of the tracker is such a transaction with nobody in between |
| `Markings.TrackerLinksUninterrupted` | backend/apps/bugs/services.py:613-700 | So are the tracker's links and removals of rows; no other call touches the rows |
| `Scenarios.ReopenedRunLosesTheForest` | backend/apps/bugs/services.py:306-377 | A run from setup of accepted, serialised calls that ends in a cycle: the failing side of the condition over runs is reached |
| `Relationships.CanonicalRoot` | backend/apps/bugs/services.py:296-316 | In a forest every bug has exactly one root, reached by following first rows |
| `Relationships.ForestHasNoCycle` | backend/apps/bugs/services.py:296-316 | A forest has no cycle of rows of any length |
| `Relationships.RemovalKeepsForest` | backend/apps/bugs/services.py:664-700 | Removing any row keeps a forest |
| `Relationships.ReopenedBugCanCloseACycle` | backend/apps/bugs/services.py:306-312 | Each walk of three markings accepts, and the rows of a bug that was reopened in between close a cycle |
| `Lifecycle.RunKeepsRowsSound` | backend/apps/bugs/services.py:638-652 | Over any run: no self-row, no repeated row, and relates_to rows in canonical order |
| `Relationships.RelatesToIsSymmetric` | backend/apps/bugs/services.py:638-641 | At most one relates_to row per unordered pair, in every sound table |
| `Relationships.ListBugRelationships` | backend/apps/bugs/selectors.py:154-179 | The loop lists exactly one view per row that touches the bug |
| `Relationships.ViewsAreDual` | backend/apps/bugs/selectors.py:154-179 | A lists B as X exactly when B lists A as the inverse of X |
| `Numbering.NumbersAreSequential` | backend/apps/bugs/services.py:202-208 | In every interleaving of locked creations with rollbacks, each project's numbers are exactly 1 to next_bug_number - 1 |
| `Numbering.KeysAreUnique` | backend/apps/bugs/services.py:210-214 | Bug keys never repeat across the organization |
| `Numbering.BugKeyIsInjective` | backend/apps/projects/models.py:9-13 | Project key and number can be read back from a bug key |
| `Base.DecimalReadsBack` | backend/apps/bugs/services.py:214-214 | The numeral in a bug key denotes the bug's number |
| `Numbering.UnlockedCreatesRepeatANumber` | backend/apps/bugs/services.py:202-208 | Without the row lock two creations take the same number |
| `Numbering.TrackerNumbersBugs` | backend/apps/bugs/services.py:174-229 | Every run of the tracker is one of these interleavings, so its numbers are sequential and its keys unique |
| `Administrators.AnAdministratorRemains` | backend/apps/organizations/services.py:233-300 | In every interleaving of role changes, removals, acceptances and setups: one setup at most, and from then on always an administrator |
| `Administrators.UnlockedDemotionsLoseBoth` | backend/apps/organizations/services.py:233-245 | Without waiting for the locked rows two demotions remove both administrators |
| `Administrators.UninterruptedChange` | backend/apps/organizations/services.py:255-300 | A transaction run alone does what the member service does |
| `Administrators.UninterruptedSetup` | backend/apps/organizations/services.py:82-112 | First-run setup run alone makes one organization with one administrator, a second one changes nothing, and an acceptance adds its own membership only |
| `Administrators.TrackerKeepsAnAdministrator` | backend/apps/organizations/services.py:255-300 | Every run of the tracker keeps an administrator |
| `Invitations.AdmittedAtMostOnce` | backend/apps/organizations/services.py:185-224 | In every interleaving: an invitation admits at most once and in time, a revoked one never afterwards, one open invitation per address, and no password is overwritten |
| `Invitations.UnlockedAcceptancesAdmitTwice` | backend/apps/organizations/services.py:187-192 | Without the row lock two acceptances both go through |
| `Invitations.RevocationOverwritesExactly` | backend/apps/organizations/services.py:228-230 | Revocation marks an accepted invitation as revoked iff the acceptance came after it was looked up |
| `Invitations.CommitOutcome` | backend/apps/organizations/services.py:185-230 | In every interleaving, what an acceptance or revocation leaves: membership with the old or the invited role, account with the old or the new password, the row closed; or nothing |
| `Invitations.OtherStepsOutcome` | backend/apps/organizations/services.py:113-240 | A step that does not commit touches no table, but that somebody may leave |
| `Invitations.MembersAreInvited` | backend/apps/organizations/services.py:212-220 | In every interleaving each member has accepted an invitation of that address and has the role it offered |
| `Invitations.NeverBothExactly` | backend/apps/organizations/services.py:178-230 | Over any interleaving no invitation is ever both accepted and revoked iff no revocation was overtaken by an acceptance after its look-up |
| `Invitations.OtherStepsKeepAcceptances` | backend/apps/organizations/services.py:147-163 | No other step marks an accepted invitation as revoked |
| `Invitations.AcceptedThenRevoked` | backend/apps/organizations/services.py:228-230 | A run that ends with an invitation both accepted and revoked |
| `Invitations.InvitedExactly` | backend/apps/organizations/services.py:142-173 | Creation is allowed iff no open invitation of the address is still valid; an expired one is revoked and nothing else changes |
| `Invitations.InvitationDesk.CreateInvitation` | backend/apps/organizations/services.py:116-173 | Refuses the closed demo organization, members and valid open invitations, else replaces an expired one |
| `Invitations.InvitationDesk.AcceptInvitation` | backend/apps/organizations/services.py:185-224 | Refuses closed and expired invitations, else creates what is missing of account and membership and closes the invitation |
| `Invitations.InvitationDesk.RevokeInvitation` | backend/apps/organizations/services.py:228-230 | Sets the revocation time of one invitation |
| `Invitations.UninterruptedCreation` | backend/apps/organizations/services.py:116-173 | The creation service is its transaction run alone |
| `Invitations.UninterruptedAcceptance` | backend/apps/organizations/services.py:185-224 | The acceptance service is its transaction run alone |
| `Invitations.UninterruptedRevocation` | backend/apps/organizations/views.py:260-263 | The revocation endpoint is its transaction run alone |
| `Slugs.UniqueSlug` | backend/apps/organizations/services.py:67-74 | Stops after at most one more try than there are slugs, at the bare name or the first free number from 2 on |
| `Slugs.CandidatesDiffer` | backend/apps/organizations/services.py:73-73 | Different suffixes give different slugs |
| `Mentions.ExtractMentionUserIds` | backend/apps/comments/mentions.py:24-36 | The loop returns the first-seen deduplication of the ids in match order |
| `Mentions.RawIdsFollowSearch` | backend/apps/comments/mentions.py:31-31 | `findall` is the leftmost search iterated behind each match |
| `Mentions.OneMatchPerPosition` | backend/apps/comments/mentions.py:21-21 | At most one length matches at a position |
| `Mentions.TokenAtExactly` | backend/apps/comments/mentions.py:21-21 | What the pattern matches, spelled out on the text |
| `Mentions.SameUserExactly` | backend/apps/comments/mentions.py:31-35 | An id segment denotes somebody iff it has 32 digits, and two denote the same user iff they agree but for hyphens and case |
| `Mentions.MentionedExactly` | backend/apps/comments/mentions.py:39-54 | A body mentions exactly the members whose ids it contains, nobody twice |
| `Mentions.DedupKeepsFirstSeenOrder` | backend/apps/comments/mentions.py:24-36 | Of two ids kept, the earlier one was seen before the later one was seen at all |
| `Mentions.ResolveKeepsOrder` | backend/apps/comments/mentions.py:54-54 | Resolved ids keep the order in which they were listed |
| `Mentions.HexNumberIsInjective` | backend/apps/comments/mentions.py:31-35 | Id segments denote the same user iff their digits agree |
| `Mentions.UuidTextParses` | frontend/src/lib/api/comments.ts:35-44 | Every UUID in the text form of RFC 9562, section 4, is accepted by the backend |
| `Mentions.PrintedTokenParses` | frontend/src/lib/api/comments.ts:35-44 | For every prefix and suffix: the ids of prefix + printed token + suffix are those of the prefix, the token's id, those of the suffix |
| `Mentions.PrintedTokenExtracts` | frontend/src/lib/api/comments.ts:35-44 | The same for the deduplicated lists the backend returns |
| `Mentions.PrintedListParses` | frontend/src/lib/api/comments.ts:35-44 | A printed list of mentions with any text between parses back in order |
| `Mentions.TokenIsRecognisedExactly` | frontend/src/lib/api/comments.ts:38-44 | The printed token is recognised iff the display name has a safe character |
| `Mentions.PrintedNameExactly` | frontend/src/lib/api/comments.ts:38-44 | The printed name is the display name without what would break the token, whole if it has at most 100 UTF-16 units and otherwise cut there |
| `Mentions.StripUnsafeKeepsOrder` | frontend/src/lib/api/comments.ts:42-42 | Characters that would break the token are left out and the others stay in their order |
| `Rendering.RenderCommentBody` | frontend/src/lib/comments/render-mentions.tsx:23-65 | The loop returns the nodes cut at the successive leftmost matches |
| `Rendering.RenderingPartitions` | frontend/src/lib/comments/render-mentions.tsx:23-65 | The source texts of the nodes, concatenated in order, are the body |
| `Rendering.StyledAreTheCanonicalOnes` | frontend/src/lib/comments/render-mentions.tsx:42-55 | Of the tokens the backend reads exactly those with a canonical id and a name of at most 100 UTF-16 units are styled, in order, with keys 0, 1, 2, ... |
| `Rendering.StyledIsExtractedExactly` | frontend/src/lib/comments/render-mentions.tsx:3-13 | Every styled id is one the backend extracts, and both sides take the same mentions iff every token that denotes a UUID has its hyphens in the usual places and a name of at most 100 UTF-16 units |
| `Rendering.LooseHyphensAreNotStyled` | frontend/src/lib/comments/render-mentions.tsx:9-13 | Any 32 digits behind four hyphens are extracted by the backend and shown as plain text |
| `Rendering.LongNamesAreNotStyled` | frontend/src/lib/comments/render-mentions.tsx:3-13 | Any token with a name of at most 100 characters and more than 100 UTF-16 units is extracted by the backend and shown as plain text |
| `Rendering.PrintedTokensAreStyled` | frontend/src/lib/comments/render-mentions.tsx:42-55 | What the printer prints for a canonical id is always styled |
| `Rendering.ShownAreTheShort` | frontend/src/lib/comments/render-mentions.tsx:7-13 | The renderer's pattern finds exactly the backend's tokens whose names are short enough, in order |
| `Comments.CommentDesk.CreateMentions` | backend/apps/comments/services.py:63-87 | Creates one mention row and one entry per resolved id, in order |
| `Comments.CommentDesk.CreateComment` | backend/apps/comments/services.py:94-133 | Comment, mention rows, entries and notices together, or a refusal that changes nothing |
| `Comments.CommentDesk.EditComment` | backend/apps/comments/services.py:140-162 | Checks in order; an equal text is a no-op; mention rows stay |
| `Comments.CommentDesk.DeleteComment` | backend/apps/comments/services.py:168-194 | Author within limits or administrator at any time; the body is cleared |
| `Comments.CommentDesk.RedactComment` | backend/apps/comments/services.py:198-217 | Administrators only, also on archived bugs; the body is cleared |
| `Comments.CommentsOnlyMoveForward` | backend/apps/comments/models.py:19-24 | Over any run: bug, author, time and mention rows never change, and a deleted or redacted comment stays exactly as it is |
| `Comments.RunKeepsDeskSound` | backend/apps/comments/models.py:39-62 | Over any run: status and timestamps agree, one entry and one notice per fact, one MENTION_CREATED entry per mention row and no user twice |
| `Comments.CommentChangesExactly` | backend/apps/comments/policies.py:41-60 | What each request makes of a comment, in terms of author, moderator, archive flags and the inclusive edit window, with its one entry; other comments stay |
| `Comments.CommentAppearsExactly` | backend/apps/comments/services.py:94-108 | A comment appears iff a member who is no viewer writes a text of proper length on a live bug; it has that text, author and time, mentions exactly the members it names, and writes one entry for itself and one for each of them |
| `Notifications.OneRowPerRecipient` | backend/apps/notifications/tasks.py:109-146 | Under any redelivery, loss, retry and crash: at most one row per recipient and event, never for the actor, e-mail columns consistent |
| `Notifications.MentionTakesPrecedence` | backend/apps/notifications/tasks.py:28-50 | In every run nobody holds both a mentioned and a comment_added row of one comment |
| `Notifications.OneSendTaskPerRow` | backend/apps/notifications/tasks.py:131-161 | Creation tasks queue at most one send task per row; SENT implies an accepted message; a disabled row is never queued or mailed |
| `Notifications.NothingIsMailedAfterwards` | backend/apps/notifications/tasks.py:200-204 | Once a row is no longer pending and no worker is about to mail it, no redelivered or retried task mails it again, in any run |
| `Notifications.EmailStatusMovesForward` | backend/apps/notifications/tasks.py:199-251 | Over any run rows are never lost, e-mail status moves only from PENDING to SENT or FAILED, and SENT, FAILED and DISABLED are final |
| `Notifications.InsertedRows` | backend/apps/notifications/tasks.py:121-146 | Insert-if-absent leaves one row with the key for each recipient and touches no other |
| `Notifications.RecipientsExactly` | backend/apps/notifications/resolvers.py:32-86 | Who is told: current members other than the actor, by assignment, mention or watching minus mention, both directions |
| `Notifications.EveryRecipientIsNotified` | backend/apps/notifications/tasks.py:54-146 | After a creation task exactly its recipients and earlier holders have a row for the event; new rows are unread, and pending unless the recipient turned this kind off |
| `Delivery.KeysAgreeExactly` | backend/apps/notifications/tasks.py:119-120 | Two events share their key iff they are of one kind and of one activity entry or, without one, of one comment |
| `Delivery.CreationOutcome` | backend/apps/notifications/tasks.py:119-161 | What one creation task leaves: each new row tells a recipient of this event, unread, pending unless turned off, and exactly the new pending rows get one send task each but for lost ones |
| `Delivery.TwoEventsTwoRows` | backend/apps/notifications/tasks.py:119-146 | Whoever is a recipient of events of two activity entries ends with a row for each, even if they are of one kind |
| `Delivery.SendingOutcome` | backend/apps/notifications/tasks.py:199-251 | A send task marks a pending row sent, queues it again or marks it failed; any other row it leaves alone |
| `Delivery.ReadingOutcome` | backend/apps/notifications/services.py:79-91 | Rows are marked read once, at the first reading, one by one or all unread ones of one recipient |
| `Delivery.RequestOutcome` | backend/apps/notifications/services.py:45-56 | A request is queued iff it names a comment or an activity entry as its kind needs and the broker takes it |
| `Delivery.CommentRequests` | backend/apps/comments/services.py:119-133 | A comment that appears asks for one notification that it was added and, iff it mentions a member, one that it mentions; no other request asks for any |
| `Delivery.CommentReachesItsReaders` | backend/apps/notifications/tasks.py:28-50 | End to end, once a comment and its two tasks have run: every member other than the author has a mention iff the text names them, and the news of the comment iff they watch the bug and are not named |
| `Notifications.Pipeline.GetOrCreate` | backend/apps/notifications/tasks.py:126-141 | Creates a row iff none has the recipient and key, and returns the row |
| `Notifications.Pipeline.InsertRows` | backend/apps/notifications/tasks.py:119-146 | The loop inserts the missing rows and collects exactly the new pending ones |
| `Notifications.Pipeline.DispatchEmails` | backend/apps/notifications/tasks.py:148-161 | Each new pending row is queued once unless the broker fails for it; one failure skips no other |
| `Notifications.Pipeline.CreateNotificationsForEvent` | backend/apps/notifications/tasks.py:54-161 | The creation task as one big step of the machine |
| `Notifications.Pipeline.MarkEmailFailed` | backend/apps/notifications/tasks.py:164-173 | The conditional update fails pending rows only |
| `Notifications.Pipeline.SendNotificationEmail` | backend/apps/notifications/tasks.py:199-251 | Acts on pending rows only: sent, retried or failed |
| `Notifications.UninterruptedCreation` | backend/apps/notifications/tasks.py:54-161 | The creation task is a run of the machine with nobody in between |
| `Notifications.UninterruptedSending` | backend/apps/notifications/tasks.py:199-251 | So is the send task |
| `Dispatch.NotificationsFollowTheLog` | backend/apps/bugs/services.py:411-438 | Every committed call asks for one notification per status change and per assignment it logs, with that entry's id, and for nothing else |
| `Attachments.VisibleMeansStored` | backend/apps/attachments/services.py:141-195 | Under any overlap of uploads, failures, removals and cleanups: a shown attachment has its object, of the declared size and with bytes that passed, and exactly one ATTACHMENT_ADDED entry |
| `Attachments.StatusMovesForward` | backend/apps/attachments/models.py:24-33 | Over any run pending is left once, uploaded and failed are final, and so is removal |
| `Attachments.DownloadsAreNeverMissing` | backend/apps/attachments/services.py:201-219 | The branch for a missing object is never taken, whatever sizes files report |
| `Attachments.SizesOverRunsExactly` | backend/apps/attachments/services.py:167-186 | For files of any reported size: shown objects keep their declared size throughout a run iff no step stores other bytes over a shown one or shows an attachment whose last stored bytes have another size |
| `Attachments.ObjectIsLastSaved` | backend/apps/attachments/services.py:168-171 | In every reachable state the object of an attachment that is not removed is what was last stored for it |
| `Attachments.MisreportedSizeBreaksShownObject` | backend/apps/attachments/services.py:170-175 | An overlapping upload that misreports its size overwrites a shown object before its own check fails |
| `Attachments.CleanupsAreOfRemoved` | backend/apps/attachments/tasks.py:12-26 | No cleanup task ever names the object of an attachment that is not removed |
| `Attachments.StorageKeysDiffer` | backend/apps/attachments/services.py:78-80 | Different attachments never share a storage object |
| `Storage.InitiationOutcome` | backend/apps/attachments/services.py:109-135 | One pending row as declared appears, under a key of the ids, iff the caller may upload, the bug is live, and type and size are allowed |
| `Storage.UploadOutcome` | backend/apps/attachments/services.py:141-195 | An upload ends shown with its bytes stored and one entry iff uploader, status, archive flags, both sizes and the bytes agree; what fails a check fails the attachment; what is turned away leaves everything |
| `Storage.RemovalOutcome` | backend/apps/attachments/services.py:226-270 | A removal hides the attachment, writes one entry and queues one cleanup if the broker takes it; the object stays for now |
| `Storage.CleanupOutcome` | backend/apps/attachments/tasks.py:12-26 | Once a cleanup has run its key is not in the storage and every other object is as before |
| `Storage.RemovedBytesDoNotStay` | backend/apps/attachments/tasks.py:12-40 | In every run a removed attachment has an object only while a cleanup is queued, unless one was not taken or lost or an upload stored it again after the removal |
| `Storage.DownloadsAreWhatWasStored` | backend/apps/attachments/services.py:201-219 | In every reachable state a download serves what was last stored for a shown attachment, and nothing for any other |
| `Storage.ChunksInOrder` | backend/apps/attachments/providers.py:65-80 | Chunks are joined in order, none lost and none twice |
| `Attachments.StoredNamesAreSafe` | backend/apps/attachments/services.py:117-135 | In every reachable state a stored file name has no path, no control or reserved character, and 1 to 255 characters |
| `Filenames.KeptExactly` | backend/apps/attachments/validators.py:70-80 | A name is kept as it is iff it is safe and does not end in a dot or a space |
| `Filenames.CleanedAgainExactly` | backend/apps/attachments/validators.py:70-80 | Cleaning twice changes a name iff the first time left a dot or a space at its end, which only the cut at 255 can |
| `Filenames.PathIsDropped` | backend/apps/attachments/validators.py:77-77 | Whatever path is in front, with either separator, does not matter |
| `Filenames.PaddingIsDropped` | backend/apps/attachments/validators.py:78-78 | Dots and spaces at either end do not matter |
| `Filenames.CleaningReplaces` | backend/apps/attachments/validators.py:78-80 | Of any other name each reserved or control character becomes an underscore and each other stays, up to 255; an empty one becomes generic |
| `Attachments.UploadBeginsExactly` | backend/apps/attachments/services.py:152-168 | When an upload passes its checks, fails the attachment, or is turned away |
| `Attachments.RemovedExactly` | backend/apps/attachments/services.py:226-241 | An attachment is removed iff it is shown, by its uploader on a live bug or an administrator |
| `Attachments.AttachmentStore.InitiateUpload` | backend/apps/attachments/services.py:109-135 | Creates a pending row under a fresh id, with the cleaned file name, or refuses in order |
| `Attachments.AttachmentStore.SaveStream` | backend/apps/attachments/providers.py:65-80 | The chunks, in order, become the object in one replacement |
| `Attachments.AttachmentStore.MarkFailed` | backend/apps/attachments/services.py:83-90 | Fails a pending row and leaves any other alone |
| `Attachments.AttachmentStore.ReceiveLocalUpload` | backend/apps/attachments/services.py:141-195 | The upload service as one big step, with what it raises |
| `Attachments.AttachmentStore.RemoveAttachment` | backend/apps/attachments/services.py:226-270 | Soft removal with entry and cleanup task, or a refusal |
| `Attachments.AttachmentStore.DeleteAttachmentObject` | backend/apps/attachments/tasks.py:12-40 | Deletes the object; deleting again changes nothing |
| `Attachments.UninterruptedUpload` | backend/apps/attachments/services.py:141-195 | The upload service is a run of the machine with nobody in between |
| `Analytics.TrendsAddUp` | backend/apps/analytics/selectors.py:148-176 | For every date range the created and resolved columns add up to the summary counts |
| `Analytics.TrendRowIsDaysCount` | backend/apps/analytics/selectors.py:148-176 | Each row of the trends equals the summary counts of that single day |
| `Analytics.BoundsAreListedDays` | backend/apps/analytics/selectors.py:36-52 | An instant lies within the half-open bounds iff its day is listed, and no day is listed twice |
| `Analytics.DistributionAddsUp` | backend/apps/analytics/selectors.py:204-209 | The open entries of the status distribution add up to the open count, all entries to all bugs in scope |
| `Analytics.SummaryCountsExactly` | backend/apps/analytics/selectors.py:55-142 | The three summary counts are the numbers of open bugs, of bugs created and of resolutions logged within the days, in live bugs of live projects |
| `Analytics.StatusDistributionExactly` | backend/apps/analytics/selectors.py:204-209 | Every status has an entry, the number of bugs in scope with it |
| `Analytics.ProjectRowExactly` | backend/apps/analytics/selectors.py:307-321 | A project's row has that project's live and open bugs |
| `Analytics.WorkEntryExactly` | backend/apps/analytics/selectors.py:230-287 | A user's entry has the current role and the number of the user's open bugs in scope |
| `Analytics.Workload` | backend/apps/analytics/selectors.py:230-287 | The three groups add up to the open count, each listed user is in the group of their role with the number of their open bugs, largest first |
| `Analytics.EveryEntryHasARole` | backend/apps/analytics/selectors.py:252-276 | In every reachable state each workload entry has a role |
| `Analytics.ActiveProjectsAddUp` | backend/apps/analytics/selectors.py:307-321 | In every reachable state the project rows add up to the open count and to all bugs in scope |
| `Analytics.ThroughputBalances` | backend/apps/analytics/selectors.py:67-99 | In every reachable state and for any choice of bugs: resolutions ever logged minus reopenings are the bugs terminal now |
| `Analytics.AllTimeThroughputBalances` | backend/apps/analytics/selectors.py:67-142 | The same for what the dashboard counts, of one project or of all |

## Left out

- Assignments.MembersOverInterleavingsExactly: project leads, which are validated and cleared in the same way, are not interleaved; a removal's own refusals are in `Administrators`.
- Lifecycle.RunExplains: relationships are not replayed, because an added entry is written even when the row existed and removal is logged on one side only; created_at, number and key never change after creation.
- Notifications.OneSendTaskPerRow: says nothing about how often the mail server is given one message; overlapping or crashed send tasks may repeat it, as the source itself notes.
- Attachments.AttachmentStore.SaveStream: the replacement is one step; two writers sharing the temporary file are not modelled.
- Rendering.RenderCommentBody: nodes carry the id that the page does not show; markup and class names are left out.
- Invitations.InvitationDesk.CreateInvitation: the sending of the message is left out; whether the organization is the demo one and the caller is not the seeding command is a parameter; addresses are already in lower case.
- TrackerStore.Store.UpdateProjectLead: of a project's fields only the lead and the archive flag are modelled.
- Column widths of the bug table, which the serializers check before a service is called; a project key and number longer than the key column roll the creation back, which is a rollback in `Numbering`.
- First-run setup creates an account and a slug as well; `Administrators` keeps its lock, its membership and its count of organizations, and `Slugs` the slug.
- Several organizations side by side: every query is scoped to one.
- Resolution time by priority, severity distribution, overdue counts and the recent-activity feed: further filters and an average over the same rows.
- Watching, reading state and preferences beyond what the pipeline reads; preferences are data of `Notifications.Around`.
- The signature checks on uploaded bytes themselves, which are a parameter.
- HTTP views, serializers, sessions, throttling, pagination and list filters, caches, React pages, seeding, backup and measurement commands.
- Liveness of the task queue, SMTP, Django, PostgreSQL, Redis and Celery internals.
