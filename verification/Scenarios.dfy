/** Concrete runs from setup that reach the failing side of two exact conditions. */
module Scenarios {
  import opened Base
  import opened Workflow
  import opened Relationships
  import opened Tracker
  import opened BugServices
  import opened MemberServices
  import opened History
  import opened Lifecycle
  import opened Guards

  function Staff(admin: UserId): Option<Member> {
    Some(Member(admin, Administrator))
  }

  function Files(admin: UserId, fields: Content): Op {
    Op.NewBug(0, admin, Staff(admin), fields, 0)
  }

  function Moves(admin: UserId, b: BugId, version: nat, to: Status, target: Option<BugId>, relId: RelId): Op {
    Call(b, Some(admin), Staff(admin), version, 0, TransitionBug(to, target, Unset, relId))
  }

  function Edits(admin: UserId, version: nat, text: string): Op {
    Call(0, Some(admin), Staff(admin), version, 0, UpdateBug(map[Description := text]))
  }

  /** One live project, and live bugs in it. */
  ghost predicate AllLive(w: World) {
    && |w.projects| == 1 && w.projects[0].archivedAt.None?
    && forall b | 0 <= b < |w.bugs| :: w.bugs[b].project == 0 && w.bugs[b].archivedAt.None?
  }

  lemma RunOn(c: Config, w: World, ops: seq<Op>, op: Op)
    ensures Run(c, w, ops + [op]) == Step(c, Run(c, w, ops), op)
  {
    assert (ops + [op])[..|ops|] == ops;
  }

  lemma FilingAppends(c: Config, w: World, admin: UserId, fields: Content)
    requires AllLive(w)
    ensures var v := Step(c, w, Files(admin, fields));
            && AllLive(v) && |v.bugs| == |w.bugs| + 1 && v.bugs[..|w.bugs|] == w.bugs && v.rels == w.rels
            && Last(v.bugs).status == New && Last(v.bugs).version == 1
            && Last(v.bugs).fields == InitialContent(fields)
  {
  }

  lemma ProjectIsMade(c: Config, admin: UserId)
    ensures var w := Run(c, SetUp(admin), [NewProject("AB", None)]);
            AllLive(w) && w.bugs == [] && w.rels == map[]
  {
    RunOn(c, SetUp(admin), [], NewProject("AB", None));
    assert [] + [NewProject("AB", None)] == [NewProject("AB", None)];
    assert IsProjectKey("AB");
  }

  // ---------------------------------------------------------------------------------------------
  // A reopened bug

  function ThreeBugs(admin: UserId): seq<Op> {
    [NewProject("AB", None)] + [Files(admin, map[])] + [Files(admin, map[])] + [Files(admin, map[])]
  }

  lemma ThreeBugsAreNew(c: Config, admin: UserId)
    ensures var w := Run(c, SetUp(admin), ThreeBugs(admin));
            && AllLive(w) && |w.bugs| == 3 && w.rels == map[]
            && forall b | 0 <= b < 3 :: w.bugs[b].status == New && w.bugs[b].version == 1
  {
    var files, one := Files(admin, map[]), [NewProject("AB", None)];
    ProjectIsMade(c, admin);
    RunOn(c, SetUp(admin), one, files);
    FilingAppends(c, Run(c, SetUp(admin), one), admin, map[]);
    RunOn(c, SetUp(admin), one + [files], files);
    FilingAppends(c, Run(c, SetUp(admin), one + [files]), admin, map[]);
    RunOn(c, SetUp(admin), one + [files] + [files], files);
    var w, v := Run(c, SetUp(admin), one + [files] + [files]), Run(c, SetUp(admin), ThreeBugs(admin));
    FilingAppends(c, w, admin, map[]);
    assert v.bugs[0] == v.bugs[..2][0] && v.bugs[1] == v.bugs[..2][1];
    assert w.bugs[0] == w.bugs[..1][0];
  }

  lemma MoveGoes(c: Config, w: World, admin: UserId, b: BugId, to: Status, target: Option<BugId>, relId: RelId)
    requires AllLive(w) && b < |w.bugs| && relId !in w.rels && 0 !in c.providers
    requires IsValidTransition(COMMUNITY_TRANSITIONS, w.bugs[b].status, to) && to !in ASSIGNEE_REQUIRED_STATUSES
    requires to == Duplicate ==> IsDuplicateTarget(w, b, target)
    ensures var v := Step(c, w, Moves(admin, b, w.bugs[b].version, to, target, relId));
            && AllLive(v) && |v.bugs| == |w.bugs|
            && v.bugs[b].status == to && v.bugs[b].version == w.bugs[b].version + 1
            && (forall a | 0 <= a < |w.bugs| && a != b :: v.bugs[a] == w.bugs[a])
            && v.rels == if to == Duplicate then MarkDuplicate(w.rels, b, target.value, relId) else w.rels
  {
    MoveAllowedExactly(c, w, b, w.bugs[b], Staff(admin), to, target, Unset, relId);
  }

  /** Three live bugs, the second still new. */
  ghost predicate Stands(w: World, status: Status, version: nat, rels: Rels) {
    && AllLive(w) && |w.bugs| == 3 && w.bugs[0].status == status && w.bugs[0].version == version
    && w.bugs[1].status == New && w.bugs[1].version == 1 && w.rels == rels
  }

  lemma FirstBugMoves(
    c: Config, w: World, admin: UserId, was: Status, version: nat, rels: Rels, to: Status, target: Option<BugId>,
    relId: RelId)
    requires Stands(w, was, version, rels) && relId !in rels && 0 !in c.providers
    requires IsValidTransition(COMMUNITY_TRANSITIONS, was, to) && to !in ASSIGNEE_REQUIRED_STATUSES
    requires to == Duplicate ==>
               target.Some? && target.value in {1, 2} && Walk(rels, target.value, 0, MAX_DUPLICATE_CHAIN_DEPTH) == Ends
    ensures Stands(Step(c, w, Moves(admin, 0, version, to, target, relId)), to, version + 1,
                   if to == Duplicate then MarkDuplicate(rels, 0, target.value, relId) else rels)
  {
    MoveGoes(c, w, admin, 0, to, target, relId);
  }

  lemma SecondBugIsMarked(
    c: Config, w: World, admin: UserId, was: Status, version: nat, rels: Rels, relId: RelId)
    requires Stands(w, was, version, rels) && relId !in rels && 0 !in c.providers
    requires Walk(rels, 0, 1, MAX_DUPLICATE_CHAIN_DEPTH) == Ends
    ensures Step(c, w, Moves(admin, 1, 1, Duplicate, Some(0), relId)).rels == MarkDuplicate(rels, 1, 0, relId)
  {
    MoveGoes(c, w, admin, 1, Duplicate, Some(0), relId);
  }

  function FirstMarking(): Rels {
    MarkDuplicate(map[], 0, 1, 5)
  }

  function MarkedThenReopened(admin: UserId): seq<Op> {
    ThreeBugs(admin) + [Moves(admin, 0, 1, Duplicate, Some(1), 5)] + [Moves(admin, 0, 2, Reopened, None, 7)]
    + [Moves(admin, 0, 3, Triaged, None, 7)]
  }

  /** Bug 0 is marked as a duplicate of bug 1, reopened and triaged, and marked as a duplicate of bug 2;
      then bug 1 is marked as a duplicate of bug 0. The second row's id sorts before the first's. */
  function ReopenedRun(admin: UserId): seq<Op> {
    MarkedThenReopened(admin)
    + [Moves(admin, 0, 4, Duplicate, Some(2), 4)] + [Moves(admin, 1, 1, Duplicate, Some(0), 6)]
  }

  lemma FirstMarkingIsOneRow()
    ensures FirstMarking() == map[5 := Rel(0, 1, DuplicateOf)]
  {
    var none: Rels := map[];
    assert DuplicateRows(none, 0) == {};
  }

  lemma FirstMarkingGoes(c: Config, w: World, admin: UserId)
    requires Stands(w, New, 1, map[]) && 0 !in c.providers
    ensures Stands(Step(c, w, Moves(admin, 0, 1, Duplicate, Some(1), 5)), Duplicate, 2, FirstMarking())
  {
    ReopenedBugCanCloseACycle();
    FirstBugMoves(c, w, admin, New, 1, map[], Duplicate, Some(1), 5);
  }

  lemma ReopeningGoes(c: Config, w: World, admin: UserId)
    requires Stands(w, Duplicate, 2, FirstMarking()) && 0 !in c.providers
    ensures var reopen, triage := Moves(admin, 0, 2, Reopened, None, 7), Moves(admin, 0, 3, Triaged, None, 7);
            Stands(Step(c, Step(c, w, reopen), triage), Triaged, 4, FirstMarking())
  {
    var reopen := Moves(admin, 0, 2, Reopened, None, 7);
    FirstMarkingIsOneRow();
    FirstBugMoves(c, w, admin, Duplicate, 2, FirstMarking(), Reopened, None, 7);
    FirstBugMoves(c, Step(c, w, reopen), admin, Reopened, 3, FirstMarking(), Triaged, None, 7);
  }

  lemma MarkedThenReopenedGoes(c: Config, admin: UserId)
    requires 0 !in c.providers
    ensures Stands(Run(c, SetUp(admin), MarkedThenReopened(admin)), Triaged, 4, FirstMarking())
  {
    var s, ops := SetUp(admin), ThreeBugs(admin);
    var mark, reopen := Moves(admin, 0, 1, Duplicate, Some(1), 5), Moves(admin, 0, 2, Reopened, None, 7);
    ThreeBugsAreNew(c, admin);
    FirstMarkingGoes(c, Run(c, s, ops), admin);
    RunOn(c, s, ops, mark);
    ReopeningGoes(c, Run(c, s, ops + [mark]), admin);
    RunOn(c, s, ops + [mark], reopen);
    RunOn(c, s, ops + [mark] + [reopen], Moves(admin, 0, 3, Triaged, None, 7));
  }

  function SecondMarking(): Rels {
    MarkDuplicate(FirstMarking(), 0, 2, 4)
  }

  lemma SecondMarkingIsTwoRows()
    ensures SecondMarking() == map[5 := Rel(0, 1, DuplicateOf), 4 := Rel(0, 2, DuplicateOf)]
  {
    FirstMarkingIsOneRow();
  }

  lemma SecondMarkingGoes(c: Config, w: World, admin: UserId)
    requires Stands(w, Triaged, 4, FirstMarking()) && 0 !in c.providers
    ensures Stands(Step(c, w, Moves(admin, 0, 4, Duplicate, Some(2), 4)), Duplicate, 5, SecondMarking())
  {
    ReopenedBugCanCloseACycle();
    FirstMarkingIsOneRow();
    FirstBugMoves(c, w, admin, Triaged, 4, FirstMarking(), Duplicate, Some(2), 4);
  }

  lemma MarkingBackGoes(c: Config, w: World, admin: UserId)
    requires Stands(w, Duplicate, 5, SecondMarking()) && 0 !in c.providers
    ensures Step(c, w, Moves(admin, 1, 1, Duplicate, Some(0), 6)).rels == MarkDuplicate(SecondMarking(), 1, 0, 6)
  {
    ReopenedBugCanCloseACycle();
    SecondMarkingIsTwoRows();
    SecondBugIsMarked(c, w, admin, Duplicate, 5, SecondMarking(), 6);
  }

  lemma TwoRowCycleIsNoForest()
    ensures var rels := MarkDuplicate(SecondMarking(), 1, 0, 6);
            Edge(rels, 0, 1) && Edge(rels, 1, 0) && !Forest(rels)
  {
    ReopenedBugCanCloseACycle();
    var rels := MarkDuplicate(SecondMarking(), 1, 0, 6);
    if Forest(rels) {
      ForestHasNoCycle(rels, [0, 1, 0]);
    }
  }

  /** Every call of this run is accepted and none overlaps another, and it ends in a cycle: the failing
      side of the forest condition over runs is reached. */
  lemma ReopenedRunLosesTheForest(c: Config, admin: UserId)
    requires 0 !in c.providers
    ensures var rels := Run(c, SetUp(admin), ReopenedRun(admin)).rels;
            Edge(rels, 0, 1) && Edge(rels, 1, 0) && !Forest(rels)
    ensures !AllMarkSafely(c, SetUp(admin), ReopenedRun(admin))
  {
    var s, ops := SetUp(admin), MarkedThenReopened(admin);
    var again, back := Moves(admin, 0, 4, Duplicate, Some(2), 4), Moves(admin, 1, 1, Duplicate, Some(0), 6);
    MarkedThenReopenedGoes(c, admin);
    RunOn(c, s, ops, again);
    RunOn(c, s, ops + [again], back);
    SecondMarkingGoes(c, Run(c, s, ops), admin);
    MarkingBackGoes(c, Run(c, s, ops + [again]), admin);
    TwoRowCycleIsNoForest();
    ForestOverRunsExactly(c, admin, ReopenedRun(admin));
  }

  // ---------------------------------------------------------------------------------------------
  // A long text

  /** A fresh bug filed with one description and edited to another by staff: the edit is turned away
      exactly if the text changes and either text is longer than a log column. */
  lemma LongEditIsTurnedAwayExactly(c: Config, admin: UserId, filed: string, text: string)
    ensures var w := Run(c, SetUp(admin), [NewProject("AB", None)] + [Files(admin, map[Description := filed])]);
            && |w.bugs| == 1 && w.bugs[0].fields == InitialContent(map[Description := filed])
            && (Refusal(c, w, 0, Staff(admin), 1, Edits(admin, 1, text).request) == Some(ValueTooLongForLog)
                <==> filed != text && (|filed| > 255 || |text| > 255))
            && (TakesEffect(c, w, Edits(admin, 1, text)) <==> filed != text && |filed| <= 255 && |text| <= 255)
  {
    var one, files := [NewProject("AB", None)], Files(admin, map[Description := filed]);
    ProjectIsMade(c, admin);
    RunOn(c, SetUp(admin), one, files);
    FilingAppends(c, Run(c, SetUp(admin), one), admin, map[Description := filed]);
    var w, fields: Content := Run(c, SetUp(admin), one + [files]), map[Description := text];
    EveryFieldIsListed(map[], map[]);
    assert InitialContent(map[Description := filed])[Description] == filed;
    assert fields.Keys <= EditableFieldsFor(w.bugs[0], Staff(admin));
    EditTakesEffectExactly(c, w, 0, Some(admin), Staff(admin), 0, fields);
    assert IsChanged(w.bugs[0].fields, fields, Description) <==> filed != text;
    assert SomeChange(w.bugs[0].fields, fields) <==> filed != text;
    SomeChangeIsLogged(w.bugs[0].fields, fields);
  }
}
