/** Bug numbering as an interleaving of create transactions: each locks its project's row, reads the
    counter, and later commits its bug together with the incremented counter, or rolls both back. */
module Numbering {
  import opened Base
  import opened Workflow
  import opened Relationships
  import opened Tracker
  import opened BugServices
  import opened MemberServices
  import opened History
  import opened Lifecycle

  type Client = nat

  datatype Counter = Counter(key: string, archived: bool, next: nat)
  datatype Numbered = Numbered(project: ProjectId, number: nat, key: string)

  /** A transaction that holds the row lock of `project` and has read `number` from its counter. */
  datatype Transaction = Transaction(project: ProjectId, number: nat)

  datatype State = State(projects: seq<Counter>, bugs: seq<Numbered>, open: map<Client, Transaction>)

  datatype Action =
    | AddProject(key: string)
    | SetArchived(project: ProjectId, archived: bool)
    | Lock(client: Client, project: ProjectId)
    | Commit(client: Client)
    | Rollback(client: Client)

  predicate IsUnlocked(s: State, p: ProjectId) {
    forall c | c in s.open :: s.open[c].project != p
  }

  /** One action of one client; an action that is not possible now leaves the state alone. With
      `locking` false the row lock is not respected. */
  function Act(locking: bool, s: State, a: Action): State {
    match a
    case AddProject(key) =>
      if IsProjectKey(key) && forall i | 0 <= i < |s.projects| :: s.projects[i].key != key
      then s.(projects := s.projects + [Counter(key, false, 1)])
      else s
    case SetArchived(p, archived) =>
      if p < |s.projects| then s.(projects := s.projects[p := s.projects[p].(archived := archived)]) else s
    case Lock(c, p) =>
      if p < |s.projects| && c !in s.open && (locking ==> IsUnlocked(s, p)) && !s.projects[p].archived
      then s.(open := s.open[c := Transaction(p, s.projects[p].next)])
      else s
    case Commit(c) =>
      if c !in s.open || |s.projects| <= s.open[c].project then s
      else
        var t := s.open[c];
        var project := s.projects[t.project];
        State(s.projects[t.project := project.(next := t.number + 1)],
              s.bugs + [Numbered(t.project, t.number, BugKey(project.key, t.number))],
              s.open - {c})
    case Rollback(c) => s.(open := s.open - {c})
  }

  const NOTHING := State([], [], map[])

  function Play(locking: bool, s: State, actions: seq<Action>): State {
    if actions == [] then s
    else Act(locking, Play(locking, s, actions[..|actions| - 1]), Last(actions))
  }

  /** The numbers of a project's bugs, in the order they were committed. */
  function NumbersOf(bugs: seq<Numbered>, p: ProjectId): seq<nat> {
    if bugs == [] then []
    else NumbersOf(bugs[..|bugs| - 1], p) + if Last(bugs).project == p then [Last(bugs).number] else []
  }

  function FromOneTo(n: nat): seq<nat> {
    seq(n, i => i + 1)
  }

  lemma NumbersOfAppend(bugs: seq<Numbered>, b: Numbered, p: ProjectId)
    ensures NumbersOf(bugs + [b], p) == NumbersOf(bugs, p) + if b.project == p then [b.number] else []
  {
    assert (bugs + [b])[..|bugs|] == bugs;
  }

  /** Each project's numbers are 1, 2, ..., next - 1 in this order, and every lock holder has read the
      current counter. */
  ghost predicate Sequential(s: State) {
    && (forall p | 0 <= p < |s.projects| ::
          s.projects[p].next > 0 && NumbersOf(s.bugs, p) == FromOneTo(s.projects[p].next - 1))
    && (forall c | c in s.open :: HoldsCurrent(s, c))
    && (forall c, d | c in s.open && d in s.open :: s.open[c].project == s.open[d].project ==> c == d)
  }

  ghost predicate HoldsCurrent(s: State, c: Client)
    requires c in s.open
  {
    s.open[c].project < |s.projects| && s.open[c].number == s.projects[s.open[c].project].next
  }

  ghost predicate KeysSound(s: State) {
    && (forall p | 0 <= p < |s.projects| :: IsProjectKey(s.projects[p].key))
    && (forall p, q | 0 <= p < |s.projects| && 0 <= q < |s.projects|
          :: s.projects[p].key == s.projects[q].key ==> p == q)
    && (forall b | 0 <= b < |s.bugs| ::
          s.bugs[b].project < |s.projects| &&
          s.bugs[b].key == BugKey(s.projects[s.bugs[b].project].key, s.bugs[b].number))
  }

  lemma CommitStaysSequential(s: State, c: Client)
    requires Sequential(s) && c in s.open
    ensures Sequential(Act(true, s, Commit(c)))
  {
    var v, t := Act(true, s, Commit(c)), s.open[c];
    assert HoldsCurrent(s, c);
    forall p | 0 <= p < |v.projects|
      ensures v.projects[p].next > 0 && NumbersOf(v.bugs, p) == FromOneTo(v.projects[p].next - 1)
    {
      NumbersOfAppend(s.bugs, Last(v.bugs), p);
      assert s.projects[p].next > 0 && NumbersOf(s.bugs, p) == FromOneTo(s.projects[p].next - 1);
      if p == t.project {
        assert FromOneTo(t.number) == FromOneTo(t.number - 1) + [t.number];
      }
    }
    forall d | d in v.open ensures HoldsCurrent(v, d) {
      assert HoldsCurrent(s, d);
    }
  }

  lemma ActStaysSequential(s: State, a: Action)
    requires Sequential(s) && forall b | 0 <= b < |s.bugs| :: s.bugs[b].project < |s.projects|
    ensures Sequential(Act(true, s, a))
  {
    match a
    case Commit(c) => if c in s.open { CommitStaysSequential(s, c); }
    case AddProject(key) => AddProjectStaysSequential(s, key);
    case SetArchived(p, archived) => SetArchivedStaysSequential(s, p, archived);
    case Lock(c, p) => LockStaysSequential(s, c, p);
    case Rollback(c) =>
      forall d | d in s.open && d != c ensures HoldsCurrent(Act(true, s, a), d) {
        assert HoldsCurrent(s, d);
      }
  }

  lemma AddProjectStaysSequential(s: State, key: string)
    requires Sequential(s) && forall b | 0 <= b < |s.bugs| :: s.bugs[b].project < |s.projects|
    ensures Sequential(Act(true, s, AddProject(key)))
  {
    var v := Act(true, s, AddProject(key));
    NoNumbersYet(s.bugs, |s.projects|);
    forall c | c in v.open ensures HoldsCurrent(v, c) {
      assert HoldsCurrent(s, c);
    }
  }

  lemma SetArchivedStaysSequential(s: State, p: ProjectId, archived: bool)
    requires Sequential(s)
    ensures Sequential(Act(true, s, SetArchived(p, archived)))
  {
    var v := Act(true, s, SetArchived(p, archived));
    assert forall q | 0 <= q < |s.projects| :: v.projects[q].next == s.projects[q].next;
    forall c | c in v.open ensures HoldsCurrent(v, c) {
      assert HoldsCurrent(s, c);
    }
  }

  lemma LockStaysSequential(s: State, c: Client, p: ProjectId)
    requires Sequential(s)
    ensures Sequential(Act(true, s, Lock(c, p)))
  {
    var v := Act(true, s, Lock(c, p));
    forall d | d in v.open ensures HoldsCurrent(v, d) {
      assert d in s.open ==> HoldsCurrent(s, d);
    }
  }

  lemma {:induction false} NoNumbersYet(bugs: seq<Numbered>, p: ProjectId)
    requires forall b | 0 <= b < |bugs| :: bugs[b].project < p
    ensures NumbersOf(bugs, p) == []
  {
    if bugs != [] {
      NoNumbersYet(bugs[..|bugs| - 1], p);
    }
  }

  lemma ActKeepsKeysSound(s: State, a: Action)
    requires KeysSound(s)
    ensures KeysSound(Act(true, s, a))
  {
  }

  /** In every interleaving of creates, commits and rollbacks, each project's numbers are exactly
      1..next_bug_number-1, without gap or repeat. */
  lemma {:induction false} NumbersAreSequential(actions: seq<Action>)
    ensures Sequential(Play(true, NOTHING, actions)) && KeysSound(Play(true, NOTHING, actions))
  {
    if actions != [] {
      var s := Play(true, NOTHING, actions[..|actions| - 1]);
      NumbersAreSequential(actions[..|actions| - 1]);
      ActStaysSequential(s, Last(actions));
      ActKeepsKeysSound(s, Last(actions));
    }
  }

  // ---------------------------------------------------------------------------------------------
  // Keys

  lemma BugKeyIsInjective(k: string, n: nat, l: string, m: nat)
    requires IsProjectKey(k) && IsProjectKey(l) && BugKey(k, n) == BugKey(l, m)
    ensures k == l && n == m
  {
    var x, y := BugKey(k, n), BugKey(l, m);
    assert x[|k|] == '-' && forall i | 0 <= i < |k| :: x[i] == k[i] != '-';
    assert y[|l|] == '-' && forall i | 0 <= i < |l| :: y[i] == l[i] != '-';
    assert |k| == |l|;
    assert x[..|k|] == k && y[..|l|] == l;
    assert x[|k| + 1..] == Decimal(n) && y[|l| + 1..] == Decimal(m);
    DecimalIsInjective(n, m);
  }

  lemma {:induction false} NumberAtIndex(bugs: seq<Numbered>, b: nat) returns (k: nat)
    requires b < |bugs|
    ensures k < |NumbersOf(bugs, bugs[b].project)|
    ensures NumbersOf(bugs, bugs[b].project)[k] == bugs[b].number
    ensures k == |NumbersOf(bugs[..b], bugs[b].project)|
  {
    var p, last := bugs[b].project, |bugs| - 1;
    if b == last {
      k := |NumbersOf(bugs[..b], p)|;
    } else {
      assert bugs[..last][..b] == bugs[..b];
      k := NumberAtIndex(bugs[..last], b);
    }
  }

  lemma {:induction false} NumbersGrow(bugs: seq<Numbered>, p: ProjectId, a: nat, b: nat)
    requires a <= b <= |bugs|
    ensures |NumbersOf(bugs[..a], p)| <= |NumbersOf(bugs[..b], p)|
  {
    if a < b {
      NumbersGrow(bugs, p, a, b - 1);
      assert bugs[..b] == bugs[..b - 1] + [bugs[b - 1]];
      NumbersOfAppend(bugs[..b - 1], bugs[b - 1], p);
    }
  }

  /** No two bugs of the organization share a key. */
  lemma KeysAreUnique(s: State, a: nat, b: nat)
    requires Sequential(s) && KeysSound(s) && a < b < |s.bugs|
    ensures s.bugs[a].key != s.bugs[b].key
  {
    var x, y := s.bugs[a], s.bugs[b];
    if x.key == y.key {
      BugKeyIsInjective(s.projects[x.project].key, x.number, s.projects[y.project].key, y.number);
    }
    if x.project == y.project {
      NumbersDiffer(s, a, b);
    }
  }

  lemma NumbersDiffer(s: State, a: nat, b: nat)
    requires Sequential(s) && KeysSound(s) && a < b < |s.bugs| && s.bugs[a].project == s.bugs[b].project
    ensures s.bugs[a].number != s.bugs[b].number
  {
    var x := s.bugs[a];
    var i := NumberAtIndex(s.bugs, a);
    var j := NumberAtIndex(s.bugs, b);
    assert s.bugs[..a + 1] == s.bugs[..a] + [x];
    NumbersOfAppend(s.bugs[..a], x, x.project);
    NumbersGrow(s.bugs, x.project, a + 1, b);
  }

  /** Without the row lock, two creates in any live project can read one counter and commit one number. */
  lemma UnlockedCreatesRepeatANumber(s: State, p: ProjectId, c: Client, d: Client)
    requires p < |s.projects| && !s.projects[p].archived && c != d && c !in s.open && d !in s.open
    ensures var both := Act(false, Act(false, s, Lock(c, p)), Lock(d, p));
            var bug := Numbered(p, s.projects[p].next, BugKey(s.projects[p].key, s.projects[p].next));
            Act(false, Act(false, both, Commit(c)), Commit(d)).bugs == s.bugs + [bug, bug]
  {
    var both := Act(false, Act(false, s, Lock(c, p)), Lock(d, p));
    var one := Act(false, both, Commit(c));
    assert d in one.open && one.open[d] == both.open[d] == Transaction(p, s.projects[p].next);
  }

  // ---------------------------------------------------------------------------------------------
  // The tracker's own creates are these transactions, run without interruption

  function Abstraction(w: World): State {
    State(
      seq(|w.projects|, i requires 0 <= i < |w.projects| =>
            Counter(w.projects[i].key, w.projects[i].archivedAt.Some?, w.projects[i].nextBugNumber)),
      seq(|w.bugs|, i requires 0 <= i < |w.bugs| => Numbered(w.bugs[i].project, w.bugs[i].number, w.bugs[i].key)),
      map[])
  }

  /** The actions that one tracker step amounts to. */
  function ActionsOf(w: World, op: Op): seq<Action> {
    match op
    case NewBug(p, _, m, _, _) => if CreateBugRefusal(w, p, m).None? then [Lock(0, p), Commit(0)] else []
    case NewProject(key, lead) => if IsEligibleLead(w, lead) then [AddProject(key)] else []
    case FreezeProject(p, _) => [SetArchived(p, true)]
    case ThawProject(p) => [SetArchived(p, false)]
    case _ => []
  }

  lemma PlayOne(s: State, a: Action)
    ensures Play(true, s, [a]) == Act(true, s, a)
  {
    assert [a][..0] == [];
  }

  lemma PlayTwo(s: State, a: Action, b: Action)
    ensures Play(true, s, [a, b]) == Act(true, Act(true, s, a), b)
  {
    assert [a, b][..1] == [a];
    PlayOne(s, a);
  }

  lemma CreateIsLockThenCommit(w: World, p: ProjectId, reporter: UserId, m: Option<Member>, fields: Content, now: int)
    requires CreateBugRefusal(w, p, m).None?
    ensures Abstraction(CreateBug(w, p, reporter, m, fields, now))
         == Act(true, Act(true, Abstraction(w), Lock(0, p)), Commit(0))
  {
    var s := Abstraction(w);
    var locked := Act(true, s, Lock(0, p));
    assert locked.open == map[0 := Transaction(p, w.projects[p].nextBugNumber)];
    assert locked.open - {0} == map[];
    var v := CreateBug(w, p, reporter, m, fields, now);
    assert Abstraction(v).projects == Act(true, locked, Commit(0)).projects;
    assert Abstraction(v).bugs == Act(true, locked, Commit(0)).bugs;
  }

  lemma EffectKeepsIdentity(c: Config, w: World, b: BugId, row: Bug, m: Option<Member>, now: int, q: Request)
    requires LockedRefusal(c, w, b, row, m, q).None?
    ensures SameIdentity(row, EffectOf(c, w, b, row, m, now, q).row)
  {
  }

  lemma NewProjectIsAction(w: World, key: string, lead: Option<UserId>)
    ensures Abstraction(CreateProject(w, key, lead))
         == if IsEligibleLead(w, lead) then Act(true, Abstraction(w), AddProject(key)) else Abstraction(w)
    ensures Play(true, Abstraction(w), [AddProject(key)]) == Act(true, Abstraction(w), AddProject(key))
  {
    var s, v := Abstraction(w), Abstraction(CreateProject(w, key, lead));
    PlayOne(s, AddProject(key));
    assert forall i | 0 <= i < |w.projects| :: s.projects[i].key == w.projects[i].key;
    if IsEligibleLead(w, lead) {
      assert v.projects == Act(true, s, AddProject(key)).projects;
      assert v.bugs == s.bugs;
    }
  }

  lemma StepIsActions(c: Config, w: World, op: Op)
    ensures Abstraction(Step(c, w, op)) == Play(true, Abstraction(w), ActionsOf(w, op))
  {
    var s, v := Abstraction(w), Abstraction(Step(c, w, op));
    match op
    case NewBug(p, reporter, m, fields, now) =>
      if CreateBugRefusal(w, p, m).None? {
        CreateIsLockThenCommit(w, p, reporter, m, fields, now);
        PlayTwo(s, Lock(0, p), Commit(0));
      }
    case NewProject(key, lead) =>
      NewProjectIsAction(w, key, lead);
    case FreezeProject(p, now) =>
      PlayOne(s, SetArchived(p, true));
      assert v.projects == Play(true, s, ActionsOf(w, op)).projects;
    case ThawProject(p) =>
      PlayOne(s, SetArchived(p, false));
      assert v.projects == Play(true, s, ActionsOf(w, op)).projects;
    case Call(b, actor, m, expected, now, q) =>
      if Refusal(c, w, b, m, expected, q).None? {
        EffectKeepsIdentity(c, w, b, w.bugs[b], m, now, q);
        assert v.bugs == s.bugs;
      }
    case _ =>
      assert v.bugs == s.bugs && v.projects == s.projects;
  }

  lemma {:induction false} PlayConcat(s: State, actions: seq<Action>, more: seq<Action>)
    ensures Play(true, s, actions + more) == Play(true, Play(true, s, actions), more)
  {
    if more == [] {
      assert actions + more == actions;
    } else {
      PlayConcat(s, actions, more[..|more| - 1]);
      assert (actions + more)[..|actions + more| - 1] == actions + more[..|more| - 1];
    }
  }

  /** Every run of the tracker is an interleaving of these transactions, so in every reachable state
      its numbers are sequential and its keys unique. */
  lemma {:induction false} TrackerNumbersBugs(c: Config, admin: UserId, ops: seq<Op>) returns (actions: seq<Action>)
    ensures Abstraction(Run(c, SetUp(admin), ops)) == Play(true, NOTHING, actions)
    ensures Sequential(Abstraction(Run(c, SetUp(admin), ops)))
    ensures var w := Run(c, SetUp(admin), ops);
            forall a, b | 0 <= a < b < |w.bugs| :: w.bugs[a].key != w.bugs[b].key
  {
    if ops == [] {
      actions := [];
    } else {
      var w := Run(c, SetUp(admin), ops[..|ops| - 1]);
      var before := TrackerNumbersBugs(c, admin, ops[..|ops| - 1]);
      StepIsActions(c, w, Last(ops));
      PlayConcat(NOTHING, before, ActionsOf(w, Last(ops)));
      actions := before + ActionsOf(w, Last(ops));
    }
    NumbersAreSequential(actions);
    var w := Run(c, SetUp(admin), ops);
    forall a, b | 0 <= a < b < |w.bugs| ensures w.bugs[a].key != w.bugs[b].key {
      KeysAreUnique(Abstraction(w), a, b);
    }
  }
}
