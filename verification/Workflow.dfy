/** The bug workflow: statuses, transition matrices and the timestamp side effects of a transition.

    Besides the community matrix the code accepts the matrix of any registered provider, so the two
    lifecycle laws (timestamps, and resolution events against reopenings) are proved for a matrix in
    general, together with the exact condition on its edges under which they hold. */
module Workflow {
  import opened Base

  datatype Status =
    | New | Triaged | Assigned | InProgress | ReadyForQa | Resolved | Reopened
    | Closed | Blocked | Duplicate | CannotReproduce | WontFix | Deferred

  type Matrix = map<Status, set<Status>>

  const RESOLUTION_STATUSES: set<Status> := {Resolved, Duplicate, CannotReproduce, WontFix}
  const TERMINAL_STATUSES: set<Status> := RESOLUTION_STATUSES + {Closed}
  const ALL_STATUSES: seq<Status> :=
    [New, Triaged, Assigned, InProgress, ReadyForQa, Resolved, Reopened, Closed, Blocked,
     Duplicate, CannotReproduce, WontFix, Deferred]
  const ASSIGNEE_REQUIRED_STATUSES: set<Status> := {Assigned, InProgress}

  const COMMUNITY_TRANSITIONS: Matrix :=
    map[
      New := {Triaged, Assigned, Blocked, Duplicate, CannotReproduce, WontFix},
      Triaged := {Assigned, InProgress, Blocked, Deferred, Duplicate, CannotReproduce, WontFix},
      Assigned := {InProgress, Triaged, Blocked, Deferred},
      InProgress := {ReadyForQa, Resolved, Blocked, Deferred, Assigned},
      ReadyForQa := {Resolved, InProgress, Blocked},
      Blocked := {Triaged, InProgress},
      Deferred := {Triaged, Assigned, InProgress},
      Resolved := {Closed, Reopened},
      Closed := {Reopened},
      Reopened := {Triaged, Assigned, InProgress, Blocked},
      Duplicate := {Reopened},
      CannotReproduce := {Reopened},
      WontFix := {Reopened}
    ]

  predicate IsOpen(s: Status) {
    s !in TERMINAL_STATUSES
  }

  /** `matrix.get(from, frozenset())` contains the target. */
  predicate IsValidTransition(m: Matrix, from: Status, to: Status) {
    from in m && to in m[from]
  }

  /** The matrices installed by workflow providers, by project; any other project uses the community's. */
  function TransitionMatrix(providers: map<nat, Matrix>, project: nat): Matrix {
    if project in providers then providers[project] else COMMUNITY_TRANSITIONS
  }

  // ---------------------------------------------------------------------------------------------
  // Timestamps

  datatype Stamps = Stamps(resolvedAt: Option<int>, closedAt: Option<int>)

  /** What `apply_timestamp_side_effects` leaves behind: a function of the target status only. */
  function StampsAfter(s: Stamps, to: Status, now: int): Stamps {
    Stamps(
      if to in RESOLUTION_STATUSES then Some(now) else if to == Reopened then None else s.resolvedAt,
      if to == Closed then Some(now) else if to == Reopened then None else s.closedAt)
  }

  /** The lifecycle law: open iff never resolved since, CLOSED iff closed_at is set, and then no
      earlier than the resolution it closes. */
  ghost predicate StampsFit(status: Status, s: Stamps) {
    && (IsOpen(status) <==> s.resolvedAt.None?)
    && (status == Closed <==> s.closedAt.Some?)
    && (status == Closed ==> s.resolvedAt.Some? && s.resolvedAt.value <= s.closedAt.value)
  }

  ghost predicate StampsBefore(s: Stamps, now: int) {
    && (s.resolvedAt.Some? ==> s.resolvedAt.value <= now)
    && (s.closedAt.Some? ==> s.closedAt.value <= now)
  }

  /** The static condition on an edge: leaving the terminal statuses only through REOPENED, entering
      CLOSED only from a terminal status, and never going from CLOSED back to a resolution. */
  predicate EdgeKeepsStamps(from: Status, to: Status) {
    && (!IsOpen(from) && IsOpen(to) ==> to == Reopened)
    && (to == Closed ==> !IsOpen(from))
    && (from == Closed ==> to !in RESOLUTION_STATUSES)
  }

  /** One transition keeps the law exactly when its edge satisfies the static condition. */
  lemma TransitionKeepsStamps(from: Status, to: Status, s: Stamps, now: int)
    requires StampsFit(from, s) && StampsBefore(s, now)
    ensures StampsFit(to, StampsAfter(s, to, now)) <==> EdgeKeepsStamps(from, to)
    ensures StampsBefore(StampsAfter(s, to, now), now)
  {
  }

  // ---------------------------------------------------------------------------------------------
  // Resolution events against reopenings

  function TerminalCount(s: Status): int {
    if IsOpen(s) then 0 else 1
  }

  /** What entering `to` adds to (resolution events) minus (reopenings). */
  function EventBalance(to: Status): int {
    (if to in RESOLUTION_STATUSES then 1 else 0) - (if to == Reopened then 1 else 0)
  }

  /** REOPENED and CLOSED are entered from terminal statuses, everything else from open ones. */
  predicate EdgeBalances(from: Status, to: Status) {
    !IsOpen(from) <==> to in {Reopened, Closed}
  }

  lemma TransitionBalances(from: Status, to: Status)
    ensures TerminalCount(to) - TerminalCount(from) == EventBalance(to) <==> EdgeBalances(from, to)
  {
  }

  lemma CommunityEdgesAreSound(from: Status, to: Status)
    requires IsValidTransition(COMMUNITY_TRANSITIONS, from, to)
    ensures EdgeKeepsStamps(from, to) && EdgeBalances(from, to)
  {
  }

  // ---------------------------------------------------------------------------------------------
  // Exactness over whole histories: paths of the matrix from NEW

  ghost predicate IsPath(m: Matrix, p: seq<Status>) {
    && p != []
    && p[0] == New
    && forall i | 0 <= i < |p| - 1 :: IsValidTransition(m, p[i], p[i + 1])
  }

  ghost predicate Reachable(m: Matrix, s: Status) {
    exists p :: IsPath(m, p) && Last(p) == s
  }

  /** Every edge out of a reachable status keeps the timestamp law. */
  ghost predicate KeepsStamps(m: Matrix) {
    forall a, b | Reachable(m, a) && IsValidTransition(m, a, b) :: EdgeKeepsStamps(a, b)
  }

  /** Every edge out of a reachable status balances. */
  ghost predicate Balances(m: Matrix) {
    forall a, b | Reachable(m, a) && IsValidTransition(m, a, b) :: EdgeBalances(a, b)
  }

  lemma CommunityMatrixIsSound()
    ensures KeepsStamps(COMMUNITY_TRANSITIONS) && Balances(COMMUNITY_TRANSITIONS)
    ensures forall a, b | IsValidTransition(COMMUNITY_TRANSITIONS, a, b) :: EdgeKeepsStamps(a, b) && EdgeBalances(a, b)
  {
    forall a, b | IsValidTransition(COMMUNITY_TRANSITIONS, a, b) ensures EdgeKeepsStamps(a, b) && EdgeBalances(a, b) {
      CommunityEdgesAreSound(a, b);
    }
  }

  /** From where each status is entered in the community workflow. */
  function Sources(to: Status): set<Status> {
    match to
    case New => {}
    case Triaged => {New, Assigned, Blocked, Deferred, Reopened}
    case Assigned => {New, Triaged, InProgress, Deferred, Reopened}
    case InProgress => {Triaged, Assigned, ReadyForQa, Blocked, Deferred, Reopened}
    case ReadyForQa => {InProgress}
    case Resolved => {InProgress, ReadyForQa}
    case Reopened => {Resolved, Closed, Duplicate, CannotReproduce, WontFix}
    case Closed => {Resolved}
    case Blocked => {New, Triaged, Assigned, InProgress, ReadyForQa, Reopened}
    case Duplicate => {New, Triaged}
    case CannotReproduce => {New, Triaged}
    case WontFix => {New, Triaged}
    case Deferred => {Triaged, Assigned, InProgress}
  }

  /** The matrix read the other way round. */
  lemma EnteredFromExactly(from: Status, to: Status)
    ensures IsValidTransition(COMMUNITY_TRANSITIONS, from, to) <==> from in Sources(to)
  {
  }

  lemma ReachableStart(m: Matrix)
    ensures Reachable(m, New)
  {
    assert IsPath(m, [New]) && Last([New]) == New;
  }

  lemma ReachableStep(m: Matrix, from: Status, to: Status)
    requires Reachable(m, from) && IsValidTransition(m, from, to)
    ensures Reachable(m, to)
  {
    var p :| IsPath(m, p) && Last(p) == from;
    PathExtend(m, p, to);
    assert Last(p + [to]) == to;
  }

  ghost predicate NonDecreasing(ts: seq<int>) {
    forall i, j | 0 <= i <= j < |ts| :: ts[i] <= ts[j]
  }

  /** Timestamps after following `p` from NEW, entering p[i] at time ts[i]. */
  ghost function StampsAlong(p: seq<Status>, ts: seq<int>): Stamps
    requires p != [] && |ts| == |p|
  {
    if |p| == 1 then Stamps(None, None)
    else StampsAfter(StampsAlong(p[..|p| - 1], ts[..|p| - 1]), Last(p), Last(ts))
  }

  /** (Resolution events) minus (reopenings) recorded along `p`. */
  ghost function BalanceAlong(p: seq<Status>): int
    requires p != []
  {
    if |p| == 1 then 0 else BalanceAlong(p[..|p| - 1]) + EventBalance(Last(p))
  }

  lemma PathPrefix(m: Matrix, p: seq<Status>)
    requires IsPath(m, p) && |p| > 1
    ensures IsPath(m, p[..|p| - 1])
    ensures IsValidTransition(m, Last(p[..|p| - 1]), Last(p))
  {
    var q := p[..|p| - 1];
    assert IsValidTransition(m, p[|p| - 2], p[|p| - 2 + 1]);
    forall i | 0 <= i < |q| - 1 ensures IsValidTransition(m, q[i], q[i + 1]) {
      assert IsValidTransition(m, p[i], p[i + 1]);
    }
  }

  lemma PathExtend(m: Matrix, p: seq<Status>, to: Status)
    requires IsPath(m, p) && IsValidTransition(m, Last(p), to)
    ensures IsPath(m, p + [to]) && (p + [to])[..|p|] == p
  {
    var q := p + [to];
    forall i | 0 <= i < |q| - 1 ensures IsValidTransition(m, q[i], q[i + 1]) {
      if i < |p| - 1 {
        assert IsValidTransition(m, p[i], p[i + 1]);
      }
    }
  }

  /** On a matrix whose reachable edges keep stamps, every history satisfies the law. */
  lemma {:induction false} PathStamps(m: Matrix, p: seq<Status>, ts: seq<int>)
    requires IsPath(m, p) && |ts| == |p| && NonDecreasing(ts)
    requires KeepsStamps(m)
    ensures StampsFit(Last(p), StampsAlong(p, ts)) && StampsBefore(StampsAlong(p, ts), Last(ts))
  {
    if |p| > 1 {
      var q, us := p[..|p| - 1], ts[..|p| - 1];
      PathPrefix(m, p);
      PathStamps(m, q, us);
      assert Reachable(m, Last(q));
      assert Last(us) <= Last(ts);
      TransitionKeepsStamps(Last(q), Last(p), StampsAlong(q, us), Last(ts));
    }
  }

  ghost predicate EveryHistoryKeepsStamps(m: Matrix) {
    forall p, ts | IsPath(m, p) && |ts| == |p| && NonDecreasing(ts) :: StampsFit(Last(p), StampsAlong(p, ts))
  }

  /** For every matrix: all histories satisfy the timestamp law iff each edge out of a reachable
      status satisfies the static condition. */
  lemma StampLawExactly(m: Matrix)
    ensures EveryHistoryKeepsStamps(m) <==> KeepsStamps(m)
  {
    if EveryHistoryKeepsStamps(m) {
      forall a, b | Reachable(m, a) && IsValidTransition(m, a, b) ensures EdgeKeepsStamps(a, b) {
        var p :| IsPath(m, p) && Last(p) == a;
        var q := p + [b];
        PathExtend(m, p, b);
        var ts, us := seq(|p|, _ => 0), seq(|q|, _ => 0);
        assert us[..|p|] == ts;
        assert StampsFit(a, StampsAlong(p, ts));
        ZeroStamps(p, ts);
        assert StampsFit(b, StampsAlong(q, us));
        TransitionKeepsStamps(a, b, StampsAlong(p, ts), 0);
      }
    }
    if KeepsStamps(m) {
      forall p, ts | IsPath(m, p) && |ts| == |p| && NonDecreasing(ts)
        ensures StampsFit(Last(p), StampsAlong(p, ts))
      {
        PathStamps(m, p, ts);
      }
    }
  }

  lemma {:induction false} ZeroStamps(p: seq<Status>, ts: seq<int>)
    requires p != [] && |ts| == |p| && forall i | 0 <= i < |ts| :: ts[i] == 0
    ensures StampsBefore(StampsAlong(p, ts), 0)
  {
    if |p| > 1 {
      ZeroStamps(p[..|p| - 1], ts[..|p| - 1]);
    }
  }

  lemma {:induction false} PathBalance(m: Matrix, p: seq<Status>)
    requires IsPath(m, p)
    requires Balances(m)
    ensures BalanceAlong(p) == TerminalCount(Last(p))
  {
    if |p| > 1 {
      var q := p[..|p| - 1];
      PathPrefix(m, p);
      PathBalance(m, q);
      assert Reachable(m, Last(q));
      TransitionBalances(Last(q), Last(p));
    }
  }

  ghost predicate EveryHistoryBalances(m: Matrix) {
    forall p | IsPath(m, p) :: BalanceAlong(p) == TerminalCount(Last(p))
  }

  /** For every matrix: resolution events minus reopenings count the terminal status along every
      history iff each edge out of a reachable status balances. */
  lemma BalanceLawExactly(m: Matrix)
    ensures EveryHistoryBalances(m) <==> Balances(m)
  {
    if EveryHistoryBalances(m) {
      forall a, b | Reachable(m, a) && IsValidTransition(m, a, b) ensures EdgeBalances(a, b) {
        var p :| IsPath(m, p) && Last(p) == a;
        PathExtend(m, p, b);
        assert BalanceAlong(p + [b]) == BalanceAlong(p) + EventBalance(b);
        TransitionBalances(a, b);
      }
    }
    if Balances(m) {
      forall p | IsPath(m, p) ensures BalanceAlong(p) == TerminalCount(Last(p)) {
        PathBalance(m, p);
      }
    }
  }

  ghost predicate LeadsTo(m: Matrix, from: Status, p: seq<Status>, to: Status) {
    && p != [] && p[0] == from && Last(p) == to
    && forall i | 0 <= i < |p| - 1 :: IsValidTransition(m, p[i], p[i + 1])
  }

  lemma Extend(m: Matrix, from: Status, p: seq<Status>, to: Status)
    requires p != [] && LeadsTo(m, to, p, Last(p)) && IsValidTransition(m, from, to)
    ensures LeadsTo(m, from, [from] + p, Last(p))
  {
    var q := [from] + p;
    forall i | 0 <= i < |q| - 1 ensures IsValidTransition(m, q[i], q[i + 1]) {
      if i > 0 {
        assert IsValidTransition(m, p[i - 1], p[i - 1 + 1]);
      }
    }
  }

  /** No status is a dead end: from each one a path of the community matrix leads to CLOSED. */
  lemma EveryBugCanBeClosed(s: Status) returns (p: seq<Status>)
    ensures LeadsTo(COMMUNITY_TRANSITIONS, s, p, Closed)
    decreases match s
              case Closed => 0
              case Resolved => 1
              case InProgress => 2
              case ReadyForQa => 2
              case Triaged => 3
              case Assigned => 3
              case Blocked => 3
              case Deferred => 3
              case Reopened => 3
              case _ => 4
  {
    if s == Closed {
      return [Closed];
    }
    var next :=
      match s
      case Resolved => Closed
      case InProgress => Resolved
      case ReadyForQa => Resolved
      case New => Triaged
      case Triaged => InProgress
      case Assigned => InProgress
      case Blocked => InProgress
      case Deferred => InProgress
      case Reopened => InProgress
      case _ => Reopened;
    var rest := EveryBugCanBeClosed(next);
    Extend(COMMUNITY_TRANSITIONS, s, rest, next);
    p := [s] + rest;
  }

  /** And no status is out of reach: a path from NEW leads to each. */
  lemma EveryStatusCanBeReached(s: Status)
    ensures Reachable(COMMUNITY_TRANSITIONS, s)
  {
    var p :=
      match s
      case New => [New]
      case Triaged => [New, Triaged]
      case Assigned => [New, Assigned]
      case Blocked => [New, Blocked]
      case Duplicate => [New, Duplicate]
      case CannotReproduce => [New, CannotReproduce]
      case WontFix => [New, WontFix]
      case InProgress => [New, Triaged, InProgress]
      case Deferred => [New, Triaged, Deferred]
      case Reopened => [New, WontFix, Reopened]
      case Resolved => [New, Triaged, InProgress, Resolved]
      case ReadyForQa => [New, Triaged, InProgress, ReadyForQa]
      case Closed => [New, Triaged, InProgress, Resolved, Closed];
    assert IsPath(COMMUNITY_TRANSITIONS, p) && Last(p) == s;
  }

  /** The community matrix with one more edge, CLOSED -> RESOLVED. */
  ghost predicate ReResolvingMatrix(m: Matrix) {
    && m.Keys == COMMUNITY_TRANSITIONS.Keys
    && m[Closed] == {Reopened, Resolved}
    && forall s | s in m && s != Closed :: m[s] == COMMUNITY_TRANSITIONS[s]
  }

  lemma ReResolvingPath(m: Matrix)
    requires ReResolvingMatrix(m)
    ensures Reachable(m, Closed)
  {
    var p := [New, Triaged, InProgress, Resolved, Closed];
    assert IsValidTransition(m, New, Triaged) && IsValidTransition(m, Triaged, InProgress);
    assert IsValidTransition(m, InProgress, Resolved) && IsValidTransition(m, Resolved, Closed);
    assert IsPath(m, p);
  }

  /** Leaving terminal statuses only for REOPENED and entering CLOSED only from resolutions is not
      enough: with an edge CLOSED -> RESOLVED the old closed_at survives in a bug that is not closed. */
  lemma ClosedToResolvedBreaksStamps(m: Matrix)
    requires ReResolvingMatrix(m)
    ensures forall a, b | IsValidTransition(m, a, b) && !IsOpen(a) && IsOpen(b) :: b == Reopened
    ensures forall a | IsValidTransition(m, a, Closed) :: a in RESOLUTION_STATUSES
    ensures !EveryHistoryKeepsStamps(m)
  {
    ReResolvingPath(m);
    assert IsValidTransition(m, Closed, Resolved) && !EdgeKeepsStamps(Closed, Resolved);
    StampLawExactly(m);
  }
}
