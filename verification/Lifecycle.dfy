/** What holds in every state a run of the tracker reaches from the state setup leaves. */
module Lifecycle {
  import opened Base
  import opened Workflow
  import opened Relationships
  import opened Tracker
  import opened BugServices
  import opened MemberServices
  import opened History

  /** The tables after first-run setup: one administrator, nothing else. */
  function SetUp(admin: UserId): World {
    EMPTY_WORLD.(members := map[admin := Administrator])
  }

  lemma SetUpIsSound(c: Config, admin: UserId)
    ensures TablesSound(c, SetUp(admin))
  {
  }

  // ---------------------------------------------------------------------------------------------
  // The whole log of a bug explains it

  /** A bug as created: new, unassigned, unarchived, untagged, with its initial content. */
  function FreshView(fields: Content): BugView {
    BugView(New, None, false, {}, fields)
  }

  ghost predicate ExplainedFrom(c: Config, w: World, b: BugId, fields: Content)
    requires b < |w.bugs|
  {
    && Replay(FreshView(fields), LogOf(w.log, b)) == ViewOf(c, w.tags, w.bugs[b])
    && Chained(MatrixOf(c, w.bugs[b]), FreshView(fields), LogOf(w.log, b))
  }

  /** The content of a bug filed with some fields: those, and the model's defaults. */
  ghost predicate IsFiled(content: Content, given: Content) {
    forall f: Field ::
      f in content && content[f] == if f in given then given[f]
                                    else if f == Priority then "medium"
                                    else if f == Severity then "major"
                                    else ""
  }

  ghost predicate Explained(c: Config, w: World, b: BugId, given: Content)
    requires b < |w.bugs|
  {
    exists fields :: IsFiled(fields, given) && ExplainedFrom(c, w, b, fields)
  }

  lemma FollowsKeepsExplained(c: Config, w: World, v: World, b: BugId, given: Content)
    requires Follows(c, w, v, b) && Explained(c, w, b, given)
    ensures Explained(c, v, b, given)
  {
    var fields :| IsFiled(fields, given) && ExplainedFrom(c, w, b, fields);
    var es, fs := LogOf(w.log, b), NewEvents(w, v, b);
    assert LogOf(v.log, b) == es + fs;
    ReplayConcat(FreshView(fields), es, fs);
    ChainedConcat(MatrixOf(c, w.bugs[b]), FreshView(fields), es, fs);
    assert ExplainedFrom(c, v, b, fields);
  }

  lemma {:induction false} NoEventsBeforeCreation(log: seq<Activity>, b: BugId)
    requires forall i | 0 <= i < |log| :: log[i].bug < b
    ensures LogOf(log, b) == []
  {
    if log != [] {
      NoEventsBeforeCreation(log[..|log| - 1], b);
    }
  }

  /** A bug whose only entry says that it was created, and that is as created. */
  lemma CreatedBugIsExplained(c: Config, w: World, b: BugId, fields: Content, given: Content, key: string)
    requires b < |w.bugs| && LogOf(w.log, b) == [Created(key)] && ViewOf(c, w.tags, w.bugs[b]) == FreshView(fields)
    requires IsFiled(fields, given)
    ensures Explained(c, w, b, given)
  {
    ReplayOne(FreshView(fields), Created(key));
    assert ExplainedFrom(c, w, b, fields);
  }

  lemma CreationIsLogged(w: World, p: ProjectId, reporter: UserId, m: Option<Member>, fields: Content, now: int)
    requires (forall i | 0 <= i < |w.log| :: w.log[i].bug < |w.bugs|) && CreateBugRefusal(w, p, m).None?
    ensures var v := CreateBug(w, p, reporter, m, fields, now);
            |v.bugs| == |w.bugs| + 1 && LogOf(v.log, |w.bugs|) == [Created(v.bugs[|w.bugs|].key)]
  {
    var b := |w.bugs|;
    var created := Created(CreateBug(w, p, reporter, m, fields, now).bugs[b].key);
    NoEventsBeforeCreation(w.log, b);
    LogOfConcat(w.log, Entries(b, Some(reporter), now, [created]), b);
    LogOfEntries(b, Some(reporter), now, [created], b);
  }

  lemma InitialContentIsFiled(given: Content)
    ensures IsFiled(InitialContent(given), given)
  {
    EveryFieldIsListed(given, given);
  }

  lemma CreationExplains(
    c: Config, w: World, p: ProjectId, reporter: UserId, m: Option<Member>, fields: Content, now: int)
    requires TablesSound(c, w) && CreateBugRefusal(w, p, m).None?
    ensures Explained(c, CreateBug(w, p, reporter, m, fields, now), |w.bugs|, fields)
  {
    var v, b := CreateBug(w, p, reporter, m, fields, now), |w.bugs|;
    CreationIsLogged(w, p, reporter, m, fields, now);
    InitialContentIsFiled(fields);
    assert TagNames(v.tags, {}) == {};
    CreatedBugIsExplained(c, v, b, InitialContent(fields), fields, v.bugs[b].key);
  }

  lemma StepExplains(c: Config, w: World, op: Op, given: seq<Content>)
    requires TablesSound(c, w) && |given| == |w.bugs| && forall b: BugId | b < |w.bugs| :: Explained(c, w, b, given[b])
    ensures var v := Step(c, w, op);
            var now := if |v.bugs| > |w.bugs| && op.NewBug? then given + [op.fields] else given;
            |now| == |v.bugs| && forall b: BugId | b < |v.bugs| :: Explained(c, v, b, now[b])
  {
    var v := Step(c, w, op);
    if |v.bugs| > |w.bugs| {
      BugsAppearByCreation(c, w, op);
      CreationExplains(c, w, op.project, op.reporter, op.membership, op.fields, op.now);
    }
    forall b: BugId | b < |w.bugs| ensures b < |v.bugs| && Explained(c, v, b, given[b]) {
      FollowsStep(c, w, op, b);
      FollowsKeepsExplained(c, w, v, b, given[b]);
    }
    BugsStayInTheTable(c, w, op);
  }

  lemma BugsStayInTheTable(c: Config, w: World, op: Op)
    ensures |w.bugs| <= |Step(c, w, op).bugs| && (|w.bugs| < |Step(c, w, op).bugs| ==> op.NewBug?)
  {
  }

  lemma BugsAppearByCreation(c: Config, w: World, op: Op)
    requires |Step(c, w, op).bugs| > |w.bugs|
    ensures op.NewBug? && CreateBugRefusal(w, op.project, op.membership).None?
    ensures |Step(c, w, op).bugs| == |w.bugs| + 1
  {
  }

  /** The fields that the accepted creations of a run were given, bug by bug. */
  function Filings(c: Config, admin: UserId, ops: seq<Op>): seq<Content> {
    if ops == [] then []
    else
      var before, op := ops[..|ops| - 1], Last(ops);
      var given := Filings(c, admin, before);
      if op.NewBug? && |Run(c, SetUp(admin), ops).bugs| > |Run(c, SetUp(admin), before).bugs| then given + [op.fields]
      else given
  }

  /** Every bug of every reachable state: replaying its whole log from what its creation was given, completed
      by the defaults, gives its status, assignee, archived flag, tags and content, and its status changes are
      a path from NEW. */
  lemma {:induction false} RunExplains(c: Config, admin: UserId, ops: seq<Op>)
    ensures TablesSound(c, Run(c, SetUp(admin), ops))
    ensures var w, given := Run(c, SetUp(admin), ops), Filings(c, admin, ops);
            |given| == |w.bugs| && forall b: BugId | b < |w.bugs| :: Explained(c, w, b, given[b])
  {
    SetUpIsSound(c, admin);
    RunFollows(c, SetUp(admin), ops);
    if ops != [] {
      var before := ops[..|ops| - 1];
      RunExplains(c, admin, before);
      StepExplains(c, Run(c, SetUp(admin), before), Last(ops), Filings(c, admin, before));
    }
  }

  // ---------------------------------------------------------------------------------------------
  // Resolution events against reopenings

  function CountInto(es: seq<Event>, to: set<Status>): nat {
    if es == [] then 0
    else CountInto(es[..|es| - 1], to) + if Last(es).StatusChanged? && Last(es).toStatus in to then 1 else 0
  }

  ghost predicate ProvidersBalance(c: Config) {
    forall p | p in c.providers :: Balances(c.providers[p])
  }

  lemma MatricesBalance(c: Config, p: ProjectId)
    requires ProvidersBalance(c)
    ensures Balances(TransitionMatrix(c.providers, p))
  {
    CommunityMatrixIsSound();
  }

  lemma ChainedPrefix(m: Matrix, v: BugView, es: seq<Event>, n: nat)
    requires Chained(m, v, es) && n <= |es|
    ensures Chained(m, v, es[..n])
  {
    var some := es[..n];
    forall i | 0 <= i < n && some[i].StatusChanged?
      ensures some[i].fromStatus == Replay(v, some[..i]).status
        && IsValidTransition(m, some[i].fromStatus, some[i].toStatus)
    {
      assert some[..i] == es[..i] && some[i] == es[i];
    }
  }

  lemma {:induction false} ChainedBalances(m: Matrix, v: BugView, es: seq<Event>)
    requires Balances(m) && Reachable(m, v.status) && Chained(m, v, es)
    ensures Reachable(m, Replay(v, es).status)
    ensures CountInto(es, RESOLUTION_STATUSES) - CountInto(es, {Reopened})
         == TerminalCount(Replay(v, es).status) - TerminalCount(v.status)
  {
    if es != [] {
      var n := |es| - 1;
      ChainedPrefix(m, v, es, n);
      ChainedBalances(m, v, es[..n]);
      if es[n].StatusChanged? {
        ReachableStep(m, es[n].fromStatus, es[n].toStatus);
        TransitionBalances(es[n].fromStatus, es[n].toStatus);
      }
    }
  }

  lemma ExplainedBalances(c: Config, w: World, b: BugId, given: Content)
    requires ProvidersBalance(c) && b < |w.bugs| && Explained(c, w, b, given)
    ensures CountInto(LogOf(w.log, b), RESOLUTION_STATUSES) - CountInto(LogOf(w.log, b), {Reopened})
            == TerminalCount(w.bugs[b].status)
  {
    var fields :| IsFiled(fields, given) && ExplainedFrom(c, w, b, fields);
    MatricesBalance(c, w.bugs[b].project);
    ReachableStart(MatrixOf(c, w.bugs[b]));
    ChainedBalances(MatrixOf(c, w.bugs[b]), FreshView(fields), LogOf(w.log, b));
  }

  /** Conservation, for each bug of every reachable state: the resolutions it went through, minus its
      reopenings, is 1 while it is in a terminal status and 0 otherwise. */
  lemma ResolutionsBalance(c: Config, admin: UserId, ops: seq<Op>, b: BugId)
    requires ProvidersBalance(c) && b < |Run(c, SetUp(admin), ops).bugs|
    ensures var w := Run(c, SetUp(admin), ops);
            CountInto(LogOf(w.log, b), RESOLUTION_STATUSES) - CountInto(LogOf(w.log, b), {Reopened})
            == TerminalCount(w.bugs[b].status)
  {
    RunExplains(c, admin, ops);
    ExplainedBalances(c, Run(c, SetUp(admin), ops), b, Filings(c, admin, ops)[b]);
  }

  // ---------------------------------------------------------------------------------------------
  // Timestamps

  function Clock(op: Op, t: int): int {
    match op
    case Call(_, _, _, _, now, _) => now
    case NewBug(_, _, _, _, now) => now
    case FreezeProject(_, now) => now
    case Leaves(_, now) => now
    case _ => t
  }

  function EndTime(ops: seq<Op>, t: int): int {
    if ops == [] then t else Clock(Last(ops), EndTime(ops[..|ops| - 1], t))
  }

  /** The clock the services read never runs backwards. */
  ghost predicate Timely(ops: seq<Op>, t: int) {
    forall i | 0 <= i < |ops| :: EndTime(ops[..i], t) <= EndTime(ops[..i + 1], t)
  }

  ghost predicate StampsSound(w: World, t: int) {
    forall b | 0 <= b < |w.bugs| ::
      StampsFit(w.bugs[b].status, w.bugs[b].Stamps()) && StampsBefore(w.bugs[b].Stamps(), t)
  }

  lemma OtherEffectsKeepStamps(c: Config, w: World, b: BugId, row: Bug, m: Option<Member>, now: int, q: Request)
    requires LockedRefusal(c, w, b, row, m, q).None? && !q.TransitionBug?
    ensures var e := EffectOf(c, w, b, row, m, now, q);
            e.row.status == row.status && e.row.Stamps() == row.Stamps()
  {
  }

  /** A service leaves status and timestamps alone, or moves them along an edge together. */
  lemma EffectStamps(c: Config, w: World, b: BugId, row: Bug, m: Option<Member>, now: int, q: Request)
    requires LockedRefusal(c, w, b, row, m, q).None?
    ensures var e := EffectOf(c, w, b, row, m, now, q);
            || (e.row.status == row.status && e.row.Stamps() == row.Stamps())
            || (IsValidTransition(MatrixOf(c, row), row.status, e.row.status) &&
                e.row.Stamps() == StampsAfter(row.Stamps(), e.row.status, now))
  {
    if !q.TransitionBug? {
      OtherEffectsKeepStamps(c, w, b, row, m, now, q);
    }
  }

  ghost predicate ProvidersKeepStamps(c: Config) {
    forall p | p in c.providers :: KeepsStamps(c.providers[p])
  }

  lemma MatricesKeepStamps(c: Config, p: ProjectId)
    requires ProvidersKeepStamps(c)
    ensures KeepsStamps(TransitionMatrix(c.providers, p))
  {
    CommunityMatrixIsSound();
  }

  ghost predicate StatusesReachable(c: Config, w: World) {
    forall b | 0 <= b < |w.bugs| :: Reachable(MatrixOf(c, w.bugs[b]), w.bugs[b].status)
  }

  lemma CallKeepsStamps(c: Config, w: World, op: Op, t: int)
    requires ProvidersKeepStamps(c) && StatusesReachable(c, w) && StampsSound(w, t) && op.Call? && t <= op.now
    requires Refusal(c, w, op.bug, op.membership, op.expected, op.request).None?
    ensures StampsSound(Step(c, w, op), op.now)
  {
    var row, now := w.bugs[op.bug], Step(c, w, op).bugs[op.bug];
    EffectStamps(c, w, op.bug, row, op.membership, op.now, op.request);
    MatricesKeepStamps(c, row.project);
    assert Reachable(MatrixOf(c, row), row.status);
    TransitionKeepsStamps(row.status, now.status, row.Stamps(), op.now);
    assert StampsFit(now.status, now.Stamps());
  }

  lemma CallKeepsReachable(c: Config, w: World, op: Op)
    requires StatusesReachable(c, w) && op.Call?
    requires Refusal(c, w, op.bug, op.membership, op.expected, op.request).None?
    ensures StatusesReachable(c, Step(c, w, op))
  {
    var row, v := w.bugs[op.bug], Step(c, w, op);
    var now := v.bugs[op.bug];
    assert Reachable(MatrixOf(c, row), row.status);
    EffectStamps(c, w, op.bug, row, op.membership, op.now, op.request);
    EffectKeepsProject(c, w, op.bug, row, op.membership, op.now, op.request);
    if now.status != row.status {
      ReachableStep(MatrixOf(c, row), row.status, now.status);
    }
    forall b | 0 <= b < |v.bugs| ensures Reachable(MatrixOf(c, v.bugs[b]), v.bugs[b].status) {
      assert b != op.bug ==> v.bugs[b] == w.bugs[b];
    }
  }

  lemma EffectKeepsProject(c: Config, w: World, b: BugId, row: Bug, m: Option<Member>, now: int, q: Request)
    requires LockedRefusal(c, w, b, row, m, q).None?
    ensures EffectOf(c, w, b, row, m, now, q).row.project == row.project
  {
  }

  lemma StepKeepsReachable(c: Config, w: World, op: Op)
    requires StatusesReachable(c, w)
    ensures StatusesReachable(c, Step(c, w, op))
  {
    if op.Call? {
      if Refusal(c, w, op.bug, op.membership, op.expected, op.request).None? {
        CallKeepsReachable(c, w, op);
      }
    } else {
      var v := Step(c, w, op);
      forall b | 0 <= b < |v.bugs| ensures Reachable(MatrixOf(c, v.bugs[b]), v.bugs[b].status) {
        if b < |w.bugs| {
          assert Reachable(MatrixOf(c, w.bugs[b]), w.bugs[b].status);
        } else {
          ReachableStart(MatrixOf(c, v.bugs[b]));
        }
      }
    }
  }

  lemma OtherOpsKeepStamps(c: Config, w: World, op: Op, t: int)
    requires StampsSound(w, t) && !op.Call? && t <= Clock(op, t)
    ensures StampsSound(Step(c, w, op), Clock(op, t))
  {
    var v := Step(c, w, op);
    forall b | 0 <= b < |v.bugs|
      ensures StampsFit(v.bugs[b].status, v.bugs[b].Stamps()) && StampsBefore(v.bugs[b].Stamps(), Clock(op, t))
    {
      if b < |w.bugs| {
        assert v.bugs[b].Stamps() == w.bugs[b].Stamps() && v.bugs[b].status == w.bugs[b].status;
      }
    }
  }

  lemma StepKeepsStamps(c: Config, w: World, op: Op, t: int)
    requires ProvidersKeepStamps(c) && StatusesReachable(c, w) && StampsSound(w, t) && t <= Clock(op, t)
    ensures StampsSound(Step(c, w, op), Clock(op, t))
  {
    if !op.Call? {
      OtherOpsKeepStamps(c, w, op, t);
    } else if Refusal(c, w, op.bug, op.membership, op.expected, op.request).None? {
      CallKeepsStamps(c, w, op, t);
    } else {
      assert Step(c, w, op) == w;
    }
  }

  /** In every reachable state, for any providers whose reachable edges keep the law: open iff resolved_at
      is empty, CLOSED iff closed_at is set, and then resolved_at is set and not later. */
  lemma {:induction false} RunKeepsStamps(c: Config, admin: UserId, ops: seq<Op>, t: int)
    requires ProvidersKeepStamps(c) && Timely(ops, t)
    ensures StatusesReachable(c, Run(c, SetUp(admin), ops))
    ensures StampsSound(Run(c, SetUp(admin), ops), EndTime(ops, t))
  {
    if ops != [] {
      var before := ops[..|ops| - 1];
      forall i | 0 <= i < |before| ensures EndTime(before[..i], t) <= EndTime(before[..i + 1], t) {
        assert before[..i] == ops[..i] && before[..i + 1] == ops[..i + 1];
      }
      RunKeepsStamps(c, admin, before, t);
      assert ops[..|ops| - 1 + 1] == ops;
      StepKeepsReachable(c, Run(c, SetUp(admin), before), Last(ops));
      StepKeepsStamps(c, Run(c, SetUp(admin), before), Last(ops), EndTime(before, t));
    }
  }

  // ---------------------------------------------------------------------------------------------
  // Frozen bugs

  predicate IsFrozen(w: World, b: BugId)
    requires b < |w.bugs|
  {
    w.bugs[b].archivedAt.Some? || ProjectIsArchived(w, w.bugs[b].project)
  }

  /** While a bug or its project is archived, its row changes in two ways only: its assignee is cleared
      by a member leaving, or, in a live project, it is restored. */
  lemma FrozenBugsStay(c: Config, w: World, op: Op, b: BugId)
    requires b < |w.bugs| && IsFrozen(w, b)
    ensures var v := Step(c, w, op);
            && b < |v.bugs|
            && v.bugs[b] ==
               if op.Leaves? && RemoveMemberRefusal(c, w, op.user).None? then Cleared(w.bugs[b], op.user)
               else if && op.Call? && op.bug == b && op.request.RestoreBug?
                       && Refusal(c, w, b, op.membership, op.expected, op.request).None?
               then w.bugs[b].(archivedAt := None, version := w.bugs[b].version + 1)
               else w.bugs[b]
    ensures ProjectIsArchived(w, w.bugs[b].project) && op.Call? && op.bug == b ==>
              Refusal(c, w, b, op.membership, op.expected, op.request).Some?
  {
  }

  // ---------------------------------------------------------------------------------------------
  // Content edits and the width of the log

  lemma {:induction false} ChangeEventsListed(was: Content, fields: Content, todo: seq<Field>)
    ensures forall f | f in todo && IsChanged(was, fields, f) ::
              ChangeEvent(f, was[f], fields[f]) in ChangeEvents(was, fields, todo)
    ensures forall e | e in ChangeEvents(was, fields, todo) ::
              exists f | f in todo :: IsChanged(was, fields, f) && e == ChangeEvent(f, was[f], fields[f])
  {
    if todo != [] {
      var rest := todo[..|todo| - 1];
      ChangeEventsListed(was, fields, rest);
      assert forall f | f in todo :: f in rest || f == Last(todo);
      assert Last(todo) in todo && forall f | f in rest :: f in todo;
    }
  }

  ghost predicate SomeChange(was: Content, fields: Content) {
    exists f: Field :: IsChanged(was, fields, f)
  }

  /** Every changed text, old and new, fits a log column. */
  ghost predicate ChangesFit(was: Content, fields: Content) {
    forall f: Field | IsChanged(was, fields, f) ::
      |was[f]| <= MAX_LOG_VALUE_LENGTH && |fields[f]| <= MAX_LOG_VALUE_LENGTH
  }

  lemma SomeChangeIsLogged(was: Content, fields: Content)
    ensures SomeChange(was, fields) <==> ChangeEvents(was, fields, ALL_FIELDS) != []
  {
    var events := ChangeEvents(was, fields, ALL_FIELDS);
    EveryFieldIsListed(was, fields);
    ChangeEventsListed(was, fields, ALL_FIELDS);
    if events != [] {
      assert events[0] in events;
    }
  }

  lemma ChangesFitTheLog(was: Content, fields: Content)
    ensures ChangesFit(was, fields) <==> forall e | e in ChangeEvents(was, fields, ALL_FIELDS) :: FitsLog(e)
  {
    var events := ChangeEvents(was, fields, ALL_FIELDS);
    EveryFieldIsListed(was, fields);
    ChangeEventsListed(was, fields, ALL_FIELDS);
    forall f: Field | IsChanged(was, fields, f)
      ensures FitsLog(ChangeEvent(f, was[f], fields[f])) <==>
              |was[f]| <= MAX_LOG_VALUE_LENGTH && |fields[f]| <= MAX_LOG_VALUE_LENGTH
    {
    }
  }

  /** The log columns hold 255 characters and nothing truncates the recorded texts: an edit that is
      otherwise allowed takes effect iff it changes something and each changed text, old and new, is
      that short. */
  lemma EditTakesEffectExactly(
    c: Config, w: World, b: BugId, actor: Option<UserId>, m: Option<Member>, now: int, fields: Content)
    requires b < |w.bugs| && !IsFrozen(w, b) && fields.Keys <= EditableFieldsFor(w.bugs[b], m)
    ensures TakesEffect(c, w, Call(b, actor, m, w.bugs[b].version, now, UpdateBug(fields))) <==>
            SomeChange(w.bugs[b].fields, fields) && ChangesFit(w.bugs[b].fields, fields)
  {
    var row := w.bugs[b];
    var events := ChangeEvents(row.fields, fields, ALL_FIELDS);
    SomeChangeIsLogged(row.fields, fields);
    ChangesFitTheLog(row.fields, fields);
    assert (forall e | e in events :: FitsLog(e)) <==> UpdateBugRefusal(w, row, m, fields).None? by {
      assert forall i | 0 <= i < |events| :: events[i] in events;
    }
  }

  // ---------------------------------------------------------------------------------------------
  // References to members

  ghost predicate RefsSound(w: World) {
    && (forall b | 0 <= b < |w.bugs| && w.bugs[b].assignee.Some? :: w.bugs[b].assignee.value in w.members)
    && (forall p | 0 <= p < |w.projects| && w.projects[p].lead.Some? :: w.projects[p].lead.value in w.members)
  }

  lemma EffectAssignee(c: Config, w: World, b: BugId, row: Bug, m: Option<Member>, now: int, q: Request)
    requires LockedRefusal(c, w, b, row, m, q).None?
    ensures var e := EffectOf(c, w, b, row, m, now, q);
            e.row.assignee == row.assignee || e.row.assignee.None? || IsEligibleAssignee(w, e.row.assignee.value)
  {
  }

  lemma StepKeepsRefs(c: Config, w: World, op: Op)
    requires RefsSound(w)
    ensures RefsSound(Step(c, w, op))
  {
    match op
    case Call(b, actor, m, expected, now, q) =>
      if Refusal(c, w, b, m, expected, q).None? {
        EffectAssignee(c, w, b, w.bugs[b], m, now, q);
      }
    case _ =>
  }

  /** Through assignments, lead changes, demotions and removals, every assignee and every project lead
      is a current member. */
  lemma {:induction false} NoDanglingReferences(c: Config, admin: UserId, ops: seq<Op>)
    ensures RefsSound(Run(c, SetUp(admin), ops))
  {
    if ops != [] {
      NoDanglingReferences(c, admin, ops[..|ops| - 1]);
      StepKeepsRefs(c, Run(c, SetUp(admin), ops[..|ops| - 1]), Last(ops));
    }
  }

  // ---------------------------------------------------------------------------------------------
  // Relationship rows

  /** If this call marks a bug as a duplicate, the bug has no row left to a different target. */
  ghost predicate MarksSafely(c: Config, w: World, op: Op) {
    op.Call? && op.request.TransitionBug? && op.request.newStatus == Duplicate &&
    Refusal(c, w, op.bug, op.membership, op.expected, op.request).None?
    ==> NoOtherTarget(w.rels, op.bug, op.request.duplicateOf.value)
  }

  /** One call keeps the duplicate forest exactly when it marks safely. */
  lemma StepKeepsForestExactly(c: Config, w: World, op: Op)
    requires Forest(w.rels)
    ensures Forest(Step(c, w, op).rels) <==> MarksSafely(c, w, op)
  {
    if op.Call? && Refusal(c, w, op.bug, op.membership, op.expected, op.request).None? {
      match op.request
      case TransitionBug(newStatus, duplicateOf, _, relId) =>
        if newStatus == Duplicate {
          AcceptedMarkingExactly(w.rels, op.bug, duplicateOf.value, relId);
        }
      case CreateRelationship(related, kind, relId) =>
        OtherKindsKeepForest(w.rels, relId, Canonical(op.bug, related, kind));
      case RemoveRelationship(id) => RemovalKeepsForest(w.rels, id);
      case _ =>
    }
  }

  lemma EmptyIsForest()
    ensures Forest(map[])
  {
    var none: Rels := map[];
    forall b: BugId ensures ChainEnds(none, b) {
      assert DuplicateRows(none, b) == {};
      assert Hop(none, b, 0) == Some(b);
      assert Hop(none, b, 1).None?;
    }
  }

  ghost predicate ForestThroughout(c: Config, w: World, ops: seq<Op>) {
    Forest(Run(c, w, ops).rels) && (ops != [] ==> ForestThroughout(c, w, ops[..|ops| - 1]))
  }

  ghost predicate AllMarkSafely(c: Config, w: World, ops: seq<Op>) {
    ops != [] ==> AllMarkSafely(c, w, ops[..|ops| - 1]) && MarksSafely(c, Run(c, w, ops[..|ops| - 1]), Last(ops))
  }

  /** Over serialised calls: duplicate_of is a forest after every call of a run iff every accepted marking
      in it found no row of its bug to a different target. */
  lemma {:induction false} ForestOverRunsExactly(c: Config, admin: UserId, ops: seq<Op>)
    ensures ForestThroughout(c, SetUp(admin), ops) <==> AllMarkSafely(c, SetUp(admin), ops)
  {
    if ops == [] {
      EmptyIsForest();
    } else {
      var before := ops[..|ops| - 1];
      ForestOverRunsExactly(c, admin, before);
      if ForestThroughout(c, SetUp(admin), before) {
        StepKeepsForestExactly(c, Run(c, SetUp(admin), before), Last(ops));
      }
    }
  }

  lemma EffectKeepsRows(c: Config, w: World, b: BugId, m: Option<Member>, now: int, q: Request)
    requires RowsSound(w.rels, |w.bugs|) && b < |w.bugs|
    requires EarlyRefusal(c, m, q).None? && LockedRefusal(c, w, b, w.bugs[b], m, q).None?
    ensures RowsSound(EffectOf(c, w, b, w.bugs[b], m, now, q).rels, |w.bugs|)
  {
    match q
    case TransitionBug(newStatus, duplicateOf, _, relId) =>
      if newStatus == Duplicate && MarkDuplicate(w.rels, b, duplicateOf.value, relId) != w.rels {
        NewRowKeepsRowsSound(w.rels, |w.bugs|, Rel(b, duplicateOf.value, DuplicateOf), relId);
      }
    case CreateRelationship(related, kind, relId) =>
      NewRowKeepsRowsSound(w.rels, |w.bugs|, Canonical(b, related, kind), relId);
    case RemoveRelationship(id) =>
      assert RowsSound(w.rels - {id}, |w.bugs|);
    case _ =>
  }

  lemma StepKeepsRowsSound(c: Config, w: World, op: Op)
    requires RowsSound(w.rels, |w.bugs|)
    ensures RowsSound(Step(c, w, op).rels, |Step(c, w, op).bugs|)
  {
    if op.Call? && Refusal(c, w, op.bug, op.membership, op.expected, op.request).None? {
      EffectKeepsRows(c, w, op.bug, op.membership, op.now, op.request);
    }
  }

  /** In every reachable state: no self row, no row twice, and relates_to stored once per pair. */
  lemma {:induction false} RunKeepsRowsSound(c: Config, admin: UserId, ops: seq<Op>)
    ensures var w := Run(c, SetUp(admin), ops);
            RowsSound(w.rels, |w.bugs|)
  {
    if ops != [] {
      RunKeepsRowsSound(c, admin, ops[..|ops| - 1]);
      StepKeepsRowsSound(c, Run(c, SetUp(admin), ops[..|ops| - 1]), Last(ops));
    }
  }
}
