/** Assignments against removals of the assignee, as an interleaving of transactions. An assignment locks
    its bug, checks the user's membership, which it does not lock, and saves. A removal locks the memberships,
    lists the user's bugs, clears those it listed, and deletes the membership. */
module Assignments {
  import opened Base
  import opened Relationships
  import opened Tracker
  import opened BugServices
  import opened MemberServices
  import opened History
  import opened Lifecycle

  /** The one removal that holds the memberships: before or after its update of the bugs it listed, whose
      rows it holds from then on. */
  datatype Removal = Listed(user: UserId, bugs: set<BugId>) | Updated(user: UserId, bugs: set<BugId>)

  /** Committed members and assignees; `open` has the bugs locked by an assignment that is past its check. */
  datatype State = State(
    members: map<UserId, Role>, assignees: seq<Option<UserId>>, open: map<BugId, Option<UserId>>,
    removal: Option<Removal>)

  datatype Action =
    | File
    | Joins(user: UserId, role: Role)
    | ChangesRole(user: UserId, role: Role)
    | Check(bug: BugId, assignee: Option<UserId>)
    | Save(bug: BugId)
    | GiveUp(bug: BugId)
    | List(user: UserId)
    | Update
    | Remove
    | Abandon

  function AssignedTo(assignees: seq<Option<UserId>>, u: UserId): set<BugId> {
    set b | 0 <= b < |assignees| && assignees[b] == Some(u)
  }

  function WithoutAssignee(assignees: seq<Option<UserId>>, bugs: set<BugId>): seq<Option<UserId>> {
    seq(|assignees|, i requires 0 <= i < |assignees| => if i in bugs then None else assignees[i])
  }

  predicate IsEligible(s: State, u: UserId) {
    u in s.members && s.members[u] in STAFF_ROLES
  }

  predicate IsHeldByRemoval(s: State, b: BugId) {
    s.removal.Some? && s.removal.value.Updated? && b in s.removal.value.bugs
  }

  predicate CanSave(s: State, b: BugId) {
    b in s.open && b < |s.assignees|
  }

  predicate CanRemove(s: State) {
    s.removal.Some? && s.removal.value.Updated?
  }

  /** One step of one transaction; a step that is not possible now leaves the state alone. */
  function Act(s: State, a: Action): State {
    match a
    case File => s.(assignees := s.assignees + [None])
    case Joins(u, role) => if u in s.members then s else s.(members := s.members[u := role])
    case ChangesRole(u, role) =>
      if u !in s.members || s.removal.Some? then s else s.(members := s.members[u := role])
    case Check(b, user) =>
      if |s.assignees| <= b || b in s.open || IsHeldByRemoval(s, b) || (user.Some? && !IsEligible(s, user.value)) then s
      else s.(open := s.open[b := user])
    case Save(b) =>
      if !CanSave(s, b) then s else s.(assignees := s.assignees[b := s.open[b]], open := s.open - {b})
    case GiveUp(b) => s.(open := s.open - {b})
    case List(u) =>
      if s.removal.Some? || u !in s.members then s
      else s.(removal := Some(Listed(u, AssignedTo(s.assignees, u))))
    case Update =>
      if s.removal.None? || s.removal.value.Updated? || !(s.removal.value.bugs !! s.open.Keys) then s
      else s.(removal := Some(Updated(s.removal.value.user, s.removal.value.bugs)))
    case Remove =>
      if !CanRemove(s) then s
      else
        s.(members := s.members - {s.removal.value.user},
           assignees := WithoutAssignee(s.assignees, s.removal.value.bugs), removal := None)
    case Abandon => s.(removal := None)
  }

  function Play(s: State, actions: seq<Action>): State {
    if actions == [] then s else Act(Play(s, actions[..|actions| - 1]), Last(actions))
  }

  predicate AssigneesAreMembers(s: State) {
    forall b | 0 <= b < |s.assignees| && s.assignees[b].Some? :: s.assignees[b].value in s.members
  }

  // ---------------------------------------------------------------------------------------------
  // Exactly when every assignee stays a member

  /** A save finds its user still a member, and a removal has listed all that is assigned to its user. */
  predicate IsTimely(s: State, a: Action) {
    match a
    case Save(b) => CanSave(s, b) && s.open[b].Some? ==> s.open[b].value in s.members
    case Remove => CanRemove(s) ==> AssignedTo(s.assignees, s.removal.value.user) <= s.removal.value.bugs
    case _ => true
  }

  lemma SaveKeepsMembersExactly(s: State, b: BugId)
    requires AssigneesAreMembers(s) && CanSave(s, b)
    ensures AssigneesAreMembers(Act(s, Save(b))) <==> (s.open[b].Some? ==> s.open[b].value in s.members)
  {
    var t := Act(s, Save(b));
    assert t.assignees[b] == s.open[b];
  }

  lemma RemoveKeepsMembersExactly(s: State)
    requires AssigneesAreMembers(s) && CanRemove(s)
    ensures AssigneesAreMembers(Act(s, Remove)) <==>
            AssignedTo(s.assignees, s.removal.value.user) <= s.removal.value.bugs
  {
    var t, u, bugs := Act(s, Remove), s.removal.value.user, s.removal.value.bugs;
    if b :| b in AssignedTo(s.assignees, u) && b !in bugs {
      assert t.assignees[b] == Some(u);
    } else {
      forall b | 0 <= b < |t.assignees| && t.assignees[b].Some? ensures t.assignees[b].value in t.members {
        assert b !in bugs && b !in AssignedTo(s.assignees, u);
      }
    }
  }

  lemma ActKeepsMembersExactly(s: State, a: Action)
    requires AssigneesAreMembers(s)
    ensures AssigneesAreMembers(Act(s, a)) <==> IsTimely(s, a)
  {
    match a
    case Save(b) => if CanSave(s, b) { SaveKeepsMembersExactly(s, b); }
    case Remove => if CanRemove(s) { RemoveKeepsMembersExactly(s); }
    case _ =>
  }

  ghost predicate MembersThroughout(s: State, actions: seq<Action>) {
    AssigneesAreMembers(Play(s, actions)) && (actions != [] ==> MembersThroughout(s, actions[..|actions| - 1]))
  }

  ghost predicate AllTimely(s: State, actions: seq<Action>) {
    actions != [] ==>
      AllTimely(s, actions[..|actions| - 1]) && IsTimely(Play(s, actions[..|actions| - 1]), Last(actions))
  }

  /** For every interleaving: every assignee is a member after every step iff every save found its user
      still a member and every removal had listed all that was assigned to its user. */
  lemma {:induction false} MembersOverInterleavingsExactly(s: State, actions: seq<Action>)
    requires AssigneesAreMembers(s)
    ensures MembersThroughout(s, actions) <==> AllTimely(s, actions)
  {
    if actions != [] {
      var before := actions[..|actions| - 1];
      MembersOverInterleavingsExactly(s, before);
      if MembersThroughout(s, before) {
        ActKeepsMembersExactly(Play(s, before), Last(actions));
      }
    }
  }

  // ---------------------------------------------------------------------------------------------
  // Without overlap

  /** An assignment to a user is saved while a removal of that user is open, or the other way round. */
  predicate Overlaps(s: State, a: Action) {
    match a
    case Save(b) => CanSave(s, b) && s.removal.Some? && s.open[b] == Some(s.removal.value.user)
    case Remove => CanRemove(s) && exists b | b in s.open :: s.open[b] == Some(s.removal.value.user)
    case _ => false
  }

  ghost predicate NoneOverlaps(s: State, actions: seq<Action>) {
    actions != [] ==>
      NoneOverlaps(s, actions[..|actions| - 1]) && !Overlaps(Play(s, actions[..|actions| - 1]), Last(actions))
  }

  predicate IsOrderly(s: State) {
    && AssigneesAreMembers(s)
    && (forall b | b in s.open && s.open[b].Some? :: s.open[b].value in s.members)
    && (s.removal.Some? ==> AssignedTo(s.assignees, s.removal.value.user) <= s.removal.value.bugs)
  }

  lemma ActKeepsOrder(s: State, a: Action)
    requires IsOrderly(s) && !Overlaps(s, a)
    ensures IsOrderly(Act(s, a))
  {
    var t := Act(s, a);
    ActKeepsMembersExactly(s, a);
    if t.removal.Some? && s.removal.Some? {
      var u := s.removal.value.user;
      forall b | b in AssignedTo(t.assignees, u) ensures b in AssignedTo(s.assignees, u) {
        assert t.assignees[b] == Some(u);
      }
    }
  }

  /** If no assignment is saved while its user's removal is open, and no removal commits while an assignment
      to its user is open, every assignee is a member after any run, whatever else is interleaved. */
  lemma {:induction false} WithoutOverlapAssigneesAreMembers(s: State, actions: seq<Action>)
    requires AssigneesAreMembers(s) && s.open == map[] && s.removal.None? && NoneOverlaps(s, actions)
    ensures IsOrderly(Play(s, actions))
  {
    if actions != [] {
      WithoutOverlapAssigneesAreMembers(s, actions[..|actions| - 1]);
      ActKeepsOrder(Play(s, actions[..|actions| - 1]), Last(actions));
    }
  }

  lemma PlayOn(s: State, actions: seq<Action>, a: Action)
    ensures Play(s, actions + [a]) == Act(Play(s, actions), a)
  {
    assert (actions + [a])[..|actions|] == actions;
  }

  lemma PlayTwo(s: State, a1: Action, a2: Action)
    ensures Play(s, [a1, a2]) == Act(Act(s, a1), a2)
  {
    PlayOn(s, [], a1);
    PlayOn(s, [a1], a2);
    assert [] + [a1] == [a1] && [a1] + [a2] == [a1, a2];
  }

  lemma PlayThree(s: State, a1: Action, a2: Action, a3: Action)
    ensures Play(s, [a1, a2, a3]) == Act(Act(Act(s, a1), a2), a3)
  {
    PlayTwo(s, a1, a2);
    PlayOn(s, [a1, a2], a3);
    assert [a1, a2] + [a3] == [a1, a2, a3];
  }

  /** The removal commits between check and save. */
  lemma SavedTooLate(u: UserId, role: Role)
    requires role in STAFF_ROLES
    ensures var s := State(map[u := role], [None], map[], None);
            !AssigneesAreMembers(Play(s, [Check(0, Some(u)), List(u)] + [Update] + [Remove] + [Save(0)]))
  {
    var s := State(map[u := role], [None], map[], None);
    var first := [Check(0, Some(u)), List(u)];
    PlayTwo(s, Check(0, Some(u)), List(u));
    PlayOn(s, first, Update);
    PlayOn(s, first + [Update], Remove);
    PlayOn(s, first + [Update] + [Remove], Save(0));
    assert Play(s, first + [Update] + [Remove] + [Save(0)]).assignees[0] == Some(u);
  }

  /** The assignment is checked and saved between the listing and the update. */
  lemma ListedTooEarly(u: UserId, role: Role)
    requires role in STAFF_ROLES
    ensures var s := State(map[u := role], [None], map[], None);
            !AssigneesAreMembers(Play(s, [List(u), Check(0, Some(u))] + [Save(0)] + [Update] + [Remove]))
  {
    var s := State(map[u := role], [None], map[], None);
    var first := [List(u), Check(0, Some(u))];
    PlayTwo(s, List(u), Check(0, Some(u)));
    PlayOn(s, first, Save(0));
    PlayOn(s, first + [Save(0)], Update);
    PlayOn(s, first + [Save(0)] + [Update], Remove);
    assert Play(s, first + [Save(0)] + [Update] + [Remove]).assignees[0] == Some(u);
  }

  /** Either overlap leaves a bug assigned to somebody who has gone. */
  lemma OverlapsCanLeaveAGoneAssignee(u: UserId, role: Role)
    requires role in STAFF_ROLES
    ensures var s := State(map[u := role], [None], map[], None);
            && !AssigneesAreMembers(Play(s, [Check(0, Some(u)), List(u)] + [Update] + [Remove] + [Save(0)]))
            && !AssigneesAreMembers(Play(s, [List(u), Check(0, Some(u))] + [Save(0)] + [Update] + [Remove]))
  {
    SavedTooLate(u, role);
    ListedTooEarly(u, role);
  }

  // ---------------------------------------------------------------------------------------------
  // The services are these transactions with nobody in between

  function Assignees(bugs: seq<Bug>): seq<Option<UserId>> {
    seq(|bugs|, i requires 0 <= i < |bugs| => bugs[i].assignee)
  }

  /** The tables between calls: nothing is open. */
  function Committed(w: World): State {
    State(w.members, Assignees(w.bugs), map[], None)
  }

  lemma UninterruptedAssignment(c: Config, w: World, op: Op, user: Option<UserId>)
    requires op.Call? && op.request == AssignBug(user)
    requires Refusal(c, w, op.bug, op.membership, op.expected, op.request).None?
    ensures Play(Committed(w), [Check(op.bug, user), Save(op.bug)]) == Committed(Step(c, w, op))
  {
    var s, v := Committed(w), Step(c, w, op);
    PlayTwo(s, Check(op.bug, user), Save(op.bug));
    assert Assignees(v.bugs) == Assignees(w.bugs)[op.bug := user];
    assert Act(s, Check(op.bug, user)).open - {op.bug} == map[];
  }

  lemma UninterruptedRemoval(c: Config, w: World, u: UserId, now: int)
    requires RemoveMemberRefusal(c, w, u).None?
    ensures Play(Committed(w), [List(u), Update, Remove]) == Committed(RemoveMember(c, w, u, now))
  {
    var s, v := Committed(w), RemoveMember(c, w, u, now);
    PlayThree(s, List(u), Update, Remove);
    assert Assignees(v.bugs) == WithoutAssignee(Assignees(w.bugs), AssignedTo(Assignees(w.bugs), u));
  }

  /** What else the tracker does to members, assignees and the table of bugs. */
  lemma UninterruptedOthers(c: Config, w: World, op: Op)
    requires !op.Leaves? && !op.Call?
    ensures var s, t := Committed(w), Committed(Step(c, w, op));
            match op
            case Joins(u, role) => t == Act(s, Action.Joins(u, role))
            case ChangesRole(u, role, _) => t in {s, Act(s, Action.ChangesRole(u, role))}
            case NewBug(_, _, _, _, _) => t in {s, Act(s, File)}
            case _ => t == s
  {
    var v := Step(c, w, op);
    if op.NewBug? && |v.bugs| > |w.bugs| {
      assert Assignees(v.bugs) == Assignees(w.bugs) + [None];
    } else {
      assert v.bugs == w.bugs;
    }
  }
}
