/** The last-administrator guard as an interleaving of transactions on the membership rows.

    A role change or removal issues one locking query, waits until no other transaction holds a row it
    selected, reads the rows that are still there, and commits or gives up while holding them. Rows that
    accepted invitations insert in the meantime are neither locked nor seen. First-run setup competes for
    its own lock row. */
module Administrators {
  import opened Base
  import opened Workflow
  import opened Tracker
  import opened BugServices
  import opened MemberServices
  import opened History
  import opened Lifecycle

  type Client = nat
  type Row = nat

  datatype Change = NewRole(role: Role) | Removal

  datatype Transaction =
    | Waiting(target: Row, change: Change, selected: set<Row>)
    | Holding(target: Row, change: Change, view: map<Row, Role>)

  datatype State = State(
    members: map<Row, Role>,
    open: map<Client, Transaction>,
    setupHolder: Option<Client>,
    setupCompleted: bool,
    organizations: nat)

  datatype Action =
    | Query(client: Client, target: Row, change: Change)
    | Lock(client: Client)
    | Commit(client: Client)
    | GiveUp(client: Client)
    | Accept(row: Row, role: Role)
    | LockSetup(client: Client)
    | CommitSetup(client: Client, row: Row)
    | GiveUpSetup(client: Client)

  const BEFORE_SETUP := State(map[], map[], None, false, 0)

  predicate AreFree(s: State, rows: set<Row>) {
    forall c | c in s.open && s.open[c].Holding? :: s.open[c].view.Keys !! rows
  }

  predicate IsRefused(view: map<Row, Role>, target: Row, change: Change) {
    change != NewRole(Administrator) && IsLastAdministrator(view, target)
  }

  function Apply(members: map<Row, Role>, target: Row, change: Change): map<Row, Role> {
    match change
    case NewRole(role) => members[target := role]
    case Removal => members - {target}
  }

  /** One action; an action that is not possible now leaves the state alone. With `locking` false a
      transaction reads without waiting for the holders of its rows. */
  function Act(locking: bool, s: State, a: Action): State {
    match a
    case Query(c, target, change) =>
      if c in s.open then s else s.(open := s.open[c := Waiting(target, change, s.members.Keys)])
    case Lock(c) =>
      if c !in s.open || !s.open[c].Waiting? then s
      else
        var t := s.open[c];
        var rows := t.selected * s.members.Keys;
        if locking && !AreFree(s, rows) then s
        else if t.target !in rows then s.(open := s.open - {c})
        else s.(open := s.open[c := Holding(t.target, t.change, map r | r in rows :: s.members[r])])
    case Commit(c) =>
      if c !in s.open || !s.open[c].Holding? then s
      else
        var t := s.open[c];
        s.(open := s.open - {c},
           members := if IsRefused(t.view, t.target, t.change) then s.members else Apply(s.members, t.target, t.change))
    case GiveUp(c) => s.(open := s.open - {c})
    case Accept(row, role) =>
      if !s.setupCompleted || row in s.members then s else s.(members := s.members[row := role])
    case LockSetup(c) =>
      if s.setupHolder.Some? || s.setupCompleted then s else s.(setupHolder := Some(c))
    case CommitSetup(c, row) =>
      if s.setupHolder != Some(c) then s
      else s.(setupHolder := None, setupCompleted := true, organizations := s.organizations + 1,
              members := s.members[row := Administrator])
    case GiveUpSetup(c) => if s.setupHolder == Some(c) then s.(setupHolder := None) else s
  }

  function Play(locking: bool, s: State, actions: seq<Action>): State {
    if actions == [] then s
    else Act(locking, Play(locking, s, actions[..|actions| - 1]), Last(actions))
  }

  ghost predicate HasAdministrator(members: map<Row, Role>) {
    exists r :: r in members && members[r] == Administrator
  }

  ghost predicate SeesCurrent(s: State, c: Client)
    requires c in s.open && s.open[c].Holding?
  {
    var t := s.open[c];
    t.target in t.view && forall r | r in t.view :: r in s.members && s.members[r] == t.view[r]
  }

  /** Setup happens at most once, every lock holder sees its rows as they are, and once there is an
      organization it has an administrator. */
  ghost predicate Guarded(s: State) {
    && s.organizations == (if s.setupCompleted then 1 else 0)
    && (s.setupCompleted ==> HasAdministrator(s.members) && s.setupHolder.None?)
    && (!s.setupCompleted ==> s.members == map[])
    && (forall c | c in s.open && s.open[c].Holding? :: SeesCurrent(s, c))
    && (forall c, d | c in s.open && d in s.open && s.open[c].Holding? && s.open[d].Holding? && c != d ::
          s.open[c].view.Keys !! s.open[d].view.Keys)
  }

  /** The guard counts exactly the other administrators of the rows it looks at. */
  lemma NotLastMeansAnother(view: map<Row, Role>, target: Row)
    requires target in view && view[target] == Administrator
    ensures !IsLastAdministrator(view, target) <==>
            exists r :: r in view && r != target && view[r] == Administrator
  {
    var others := set r | r in view && view[r] == Administrator && r != target;
    if others != {} {
      var r :| r in others;
    }
    if r :| r in view && r != target && view[r] == Administrator {
      assert r in others;
    }
  }

  lemma ApplyKeepsAdministrator(members: map<Row, Role>, view: map<Row, Role>, target: Row, change: Change)
    requires HasAdministrator(members) && target in view
    requires forall r | r in view :: r in members && members[r] == view[r]
    requires !IsRefused(view, target, change)
    ensures HasAdministrator(Apply(members, target, change))
  {
    var after := Apply(members, target, change);
    if change == NewRole(Administrator) {
      assert after[target] == Administrator;
    } else if members[target] == Administrator {
      NotLastMeansAnother(view, target);
      var r :| r in view && r != target && view[r] == Administrator;
      assert after[r] == Administrator;
    } else {
      var r :| r in members && members[r] == Administrator;
      assert after[r] == Administrator;
    }
  }

  lemma CommitStaysGuarded(s: State, c: Client)
    requires Guarded(s) && c in s.open && s.open[c].Holding?
    ensures Guarded(Act(true, s, Commit(c)))
  {
    var v, t := Act(true, s, Commit(c)), s.open[c];
    assert SeesCurrent(s, c) && t.target in s.members;
    if !IsRefused(t.view, t.target, t.change) {
      ApplyKeepsAdministrator(s.members, t.view, t.target, t.change);
    }
    forall d | d in v.open && v.open[d].Holding? ensures SeesCurrent(v, d) {
      assert SeesCurrent(s, d) && s.open[d].view.Keys !! t.view.Keys;
    }
  }

  lemma ActStaysGuarded(s: State, a: Action)
    requires Guarded(s)
    ensures Guarded(Act(true, s, a))
  {
    var v := Act(true, s, a);
    match a
    case Commit(c) =>
      if c in s.open && s.open[c].Holding? {
        CommitStaysGuarded(s, c);
      }
    case Accept(row, role) =>
      if s.setupCompleted {
        var r :| r in s.members && s.members[r] == Administrator;
        assert r in v.members && v.members[r] == Administrator;
      }
      forall d | d in v.open && v.open[d].Holding? ensures SeesCurrent(v, d) {
        assert SeesCurrent(s, d);
      }
    case CommitSetup(c, row) =>
      if s.setupHolder == Some(c) {
        assert v.members[row] == Administrator;
      }
      forall d | d in v.open && v.open[d].Holding? ensures SeesCurrent(v, d) {
        assert SeesCurrent(s, d);
      }
    case _ =>
      forall d | d in v.open && v.open[d].Holding? ensures SeesCurrent(v, d) {
        assert d in s.open && s.open[d].Holding? ==> SeesCurrent(s, d);
      }
  }

  /** In every interleaving of role changes, removals, acceptances and setups: at most one setup
      completes, and from then on the organization always has an administrator. */
  lemma {:induction false} AnAdministratorRemains(actions: seq<Action>)
    ensures var s := Play(true, BEFORE_SETUP, actions);
            && Guarded(s)
            && s.organizations <= 1
            && (s.organizations == 1 ==> HasAdministrator(s.members))
  {
    if actions != [] {
      AnAdministratorRemains(actions[..|actions| - 1]);
      ActStaysGuarded(Play(true, BEFORE_SETUP, actions[..|actions| - 1]), Last(actions));
    }
  }

  /** Reading without waiting for the rows loses the last administrator: two demotions each see the
      other administrator remaining. */
  lemma UnlockedDemotionsLoseBoth(a: Row, b: Row, c: Client, d: Client)
    requires a != b && c != d
    ensures var s := State(map[a := Administrator, b := Administrator], map[], None, true, 1);
            var queried := Act(false, Act(false, s, Query(c, a, NewRole(Viewer))), Query(d, b, NewRole(Viewer)));
            var read := Act(false, Act(false, queried, Lock(c)), Lock(d));
            !HasAdministrator(Act(false, Act(false, read, Commit(c)), Commit(d)).members)
  {
    var s := State(map[a := Administrator, b := Administrator], map[], None, true, 1);
    var queried := Act(false, Act(false, s, Query(c, a, NewRole(Viewer))), Query(d, b, NewRole(Viewer)));
    assert {a, b} * s.members.Keys == {a, b};
    var one := Act(false, queried, Lock(c));
    assert one.open[c] == Holding(a, NewRole(Viewer), s.members);
    var read := Act(false, one, Lock(d));
    assert read.open[c] == one.open[c] && read.open[d] == Holding(b, NewRole(Viewer), s.members);
    NotLastMeansAnother(s.members, a);
    NotLastMeansAnother(s.members, b);
    assert s.members[b] == Administrator && s.members[a] == Administrator;
  }

  // ---------------------------------------------------------------------------------------------
  // The tracker's own member services are these transactions, run without interruption

  lemma UninterruptedChange(members: map<Row, Role>, u: Row, change: Change)
    requires u in members
    ensures var s := State(members, map[], None, true, 1);
            Act(true, Act(true, Act(true, s, Query(0, u, change)), Lock(0)), Commit(0)).members
            == if IsRefused(members, u, change) then members else Apply(members, u, change)
  {
    var s := State(members, map[], None, true, 1);
    var queried := Act(true, s, Query(0, u, change));
    assert members.Keys * members.Keys == members.Keys;
    assert AreFree(queried, members.Keys);
    var held := Act(true, queried, Lock(0));
    assert held.open[0].view == members;
  }

  lemma StepKeepsAdministrator(c: Config, w: World, op: Op)
    requires HasAdministrator(w.members)
    ensures HasAdministrator(Step(c, w, op).members)
  {
    match op
    case ChangesRole(u, role, bypassDemo) =>
      if ChangeMemberRoleRefusal(c, w, u, role, bypassDemo).None? {
        ApplyKeepsAdministrator(w.members, w.members, u, NewRole(role));
      }
    case Leaves(u, now) =>
      if RemoveMemberRefusal(c, w, u).None? {
        ApplyKeepsAdministrator(w.members, w.members, u, Removal);
      }
    case Joins(u, role) =>
      var r :| r in w.members && w.members[r] == Administrator;
      assert Step(c, w, op).members[r] == Administrator;
    case _ =>
  }

  lemma {:induction false} TrackerKeepsAnAdministrator(c: Config, admin: UserId, ops: seq<Op>)
    ensures HasAdministrator(Run(c, SetUp(admin), ops).members)
  {
    if ops == [] {
      assert SetUp(admin).members[admin] == Administrator;
    } else {
      TrackerKeepsAnAdministrator(c, admin, ops[..|ops| - 1]);
      StepKeepsAdministrator(c, Run(c, SetUp(admin), ops[..|ops| - 1]), Last(ops));
    }
  }

  /** First-run setup with nobody in between, and the memberships that acceptances add afterwards. */
  lemma UninterruptedSetup(c: Client, row: Row, other: Row, role: Role)
    ensures var s := Act(true, Act(true, BEFORE_SETUP, LockSetup(c)), CommitSetup(c, row));
            && s == State(map[row := Administrator], map[], None, true, 1)
            && Act(true, s, Accept(other, role)) ==
               (if other == row then s else s.(members := map[row := Administrator, other := role]))
            && Act(true, Act(true, s, LockSetup(c)), CommitSetup(c, other)) == s
  {
  }
}
