/** Duplicate markings as an interleaving of transactions. A marking locks only the bug it marks, walks the
    chain of its target one query at a time, each query seeing what is committed by then, and commits its
    row at the end; rows of other bugs come and go in between. A new row refers to two bugs, and the check
    of the foreign keys waits while another transaction holds the row of either. */
module Markings {
  import opened Base
  import opened Workflow
  import opened Relationships
  import opened Tracker
  import opened BugServices
  import opened History

  /** Where the transaction that holds the lock of a bug is: at `current` with `left` queries to go, or
      past the check. */
  datatype Marking = Walking(target: BugId, current: BugId, left: nat) | Checked(target: BugId)

  datatype State = State(rels: Rels, open: map<BugId, Marking>)

  datatype Action =
    | Begin(bug: BugId, target: BugId)
    | Look(bug: BugId)
    | Insert(bug: BugId, id: RelId)
    | GiveUp(bug: BugId)
    | Link(bug: BugId, id: RelId, row: Rel)
    | Unlink(bug: BugId, id: RelId)

  const NO_ROWS := State(map[], map[])

  function Close(s: State, b: BugId): State {
    s.(open := s.open - {b})
  }

  /** One query of the walk for `b`; meeting `b`, or running out of queries, ends the transaction. */
  function Looked(s: State, b: BugId, m: Marking): State
    requires m.Walking?
  {
    if m.left == 0 || m.current == b then Close(s, b)
    else
      match NextDuplicate(s.rels, m.current)
      case None => s.(open := s.open[b := Checked(m.target)])
      case Some(next) => s.(open := s.open[b := Walking(m.target, next, m.left - 1)])
  }

  /** The check has passed, and the row is there already or its foreign keys need not wait. */
  predicate CanInsert(s: State, b: BugId, id: RelId) {
    && b in s.open && s.open[b].Checked? && id !in s.rels
    && (s.open[b].target !in s.open || Edge(s.rels, b, s.open[b].target))
  }

  /** One step of one transaction; a step that is not possible now leaves the state alone. */
  function Act(s: State, a: Action): State {
    match a
    case Begin(b, target) =>
      if b in s.open || target == b then s
      else s.(open := s.open[b := Walking(target, target, MAX_DUPLICATE_CHAIN_DEPTH)])
    case Look(b) => if b in s.open && s.open[b].Walking? then Looked(s, b, s.open[b]) else s
    case Insert(b, id) =>
      if CanInsert(s, b, id) then State(MarkDuplicate(s.rels, b, s.open[b].target, id), s.open - {b}) else s
    case GiveUp(b) => Close(s, b)
    case Link(b, id, row) =>
      if id in s.rels || row.kind == DuplicateOf || b !in {row.from, row.to} || !({row.from, row.to} !! s.open.Keys)
      then s
      else s.(rels := s.rels[id := row])
    case Unlink(b, id) =>
      if b in s.open || id !in s.rels || (s.rels[id].from != b && s.rels[id].to != b) then s
      else s.(rels := s.rels - {id})
  }

  function Play(s: State, actions: seq<Action>): State {
    if actions == [] then s else Act(Play(s, actions[..|actions| - 1]), Last(actions))
  }

  // ---------------------------------------------------------------------------------------------
  // Exactly when the forest survives

  /** The guard that the check was meant to give, on the table the row is written to. */
  ghost predicate InsertsSafely(s: State, a: Action) {
    match a
    case Insert(b, id) =>
      CanInsert(s, b, id) ==> IsSafeRow(s.rels, b, s.open[b].target)
    case _ => true
  }

  lemma ActKeepsForestExactly(s: State, a: Action)
    requires Forest(s.rels)
    ensures Forest(Act(s, a).rels) <==> InsertsSafely(s, a)
  {
    match a
    case Insert(b, id) =>
      if CanInsert(s, b, id) {
        InsertKeepsForestExactly(s.rels, b, s.open[b].target, id);
      }
    case Link(_, id, row) =>
      if Act(s, a) != s {
        OtherKindsKeepForest(s.rels, id, row);
      }
    case Unlink(_, id) => RemovalKeepsForest(s.rels, id);
    case _ =>
  }

  ghost predicate ForestThroughout(s: State, actions: seq<Action>) {
    Forest(Play(s, actions).rels) && (actions != [] ==> ForestThroughout(s, actions[..|actions| - 1]))
  }

  ghost predicate AllInsertSafely(s: State, actions: seq<Action>) {
    actions != [] ==>
      && AllInsertSafely(s, actions[..|actions| - 1])
      && InsertsSafely(Play(s, actions[..|actions| - 1]), Last(actions))
  }

  /** For every interleaving: duplicate_of is a forest after every step iff every row inserted was safe in
      the table it was written to. */
  lemma {:induction false} ForestOverInterleavingsExactly(s: State, actions: seq<Action>)
    requires Forest(s.rels)
    ensures ForestThroughout(s, actions) <==> AllInsertSafely(s, actions)
  {
    if actions != [] {
      var before := actions[..|actions| - 1];
      ForestOverInterleavingsExactly(s, before);
      if ForestThroughout(s, before) {
        ActKeepsForestExactly(Play(s, before), Last(actions));
      }
    }
  }

  lemma PlayOn(s: State, actions: seq<Action>, a: Action)
    ensures Play(s, actions + [a]) == Act(Play(s, actions), a)
  {
    assert (actions + [a])[..|actions|] == actions;
  }

  /** Two markings of each other's bug cannot both get through: each waits for the other. */
  lemma CrossedMarkingsWait(s: State, a: BugId, b: BugId, id: RelId)
    requires a in s.open && b in s.open && s.open[a] == Checked(b) && s.open[b] == Checked(a)
    requires !Edge(s.rels, a, b) && !Edge(s.rels, b, a)
    ensures Act(s, Insert(a, id)) == s && Act(s, Insert(b, id)) == s
  {
  }

  /** Bug 1 is a duplicate of 2, and 3 of 0. */
  function TwoChains(i: RelId, j: RelId): Rels {
    map[i := Rel(1, 2, DuplicateOf), j := Rel(3, 0, DuplicateOf)]
  }

  /** Both check: 2 as a duplicate of 3, and 0 as a duplicate of 1. */
  function BothCheck(): seq<Action> {
    [Begin(2, 3)] + [Begin(0, 1)] + [Look(2)] + [Look(2)] + [Look(0)] + [Look(0)]
  }

  lemma TwoChainsNext(i: RelId, j: RelId)
    requires i != j
    ensures var rels := TwoChains(i, j);
            && NextDuplicate(rels, 0).None? && NextDuplicate(rels, 2).None?
            && NextDuplicate(rels, 1) == Some(2) && NextDuplicate(rels, 3) == Some(0)
  {
    var rels := TwoChains(i, j);
    assert DuplicateRows(rels, 0) == {} && DuplicateRows(rels, 2) == {};
    assert DuplicateRows(rels, 1) == {i} && DuplicateRows(rels, 3) == {j};
  }

  lemma BothChecksPass(i: RelId, j: RelId)
    requires i != j
    ensures Play(State(TwoChains(i, j), map[]), BothCheck()) ==
            State(TwoChains(i, j), map[2 := Checked(3), 0 := Checked(1)])
  {
    var s := State(TwoChains(i, j), map[]);
    var begun := [Begin(2, 3)] + [Begin(0, 1)];
    TwoChainsNext(i, j);
    assert [] + [Begin(2, 3)] == [Begin(2, 3)];
    PlayOn(s, [], Begin(2, 3));
    PlayOn(s, [Begin(2, 3)], Begin(0, 1));
    PlayOn(s, begun, Look(2));
    PlayOn(s, begun + [Look(2)], Look(2));
    PlayOn(s, begun + [Look(2)] + [Look(2)], Look(0));
    PlayOn(s, begun + [Look(2)] + [Look(2)] + [Look(0)], Look(0));
  }

  lemma FourRowsCloseACycle(i: RelId, j: RelId, k: RelId, l: RelId)
    requires i != j && {i, j} !! {k, l} && k != l
    ensures var s := State(TwoChains(i, j), map[2 := Checked(3), 0 := Checked(1)]);
            !Forest(Act(Act(s, Insert(2, k)), Insert(0, l)).rels)
  {
    var s := State(TwoChains(i, j), map[2 := Checked(3), 0 := Checked(1)]);
    var rels := TwoChains(i, j)[k := Rel(2, 3, DuplicateOf)][l := Rel(0, 1, DuplicateOf)];
    assert CanInsert(s, 2, k) && Act(s, Insert(2, k)).open == map[0 := Checked(1)];
    assert Act(Act(s, Insert(2, k)), Insert(0, l)).rels == rels;
    assert rels[l] == Rel(0, 1, DuplicateOf) && rels[i] == Rel(1, 2, DuplicateOf);
    assert rels[k] == Rel(2, 3, DuplicateOf) && rels[j] == Rel(3, 0, DuplicateOf);
    assert Edge(rels, 0, 1) && Edge(rels, 1, 2) && Edge(rels, 2, 3) && Edge(rels, 3, 0);
    if Forest(rels) {
      ForestHasNoCycle(rels, [0, 1, 2, 3, 0]);
    }
  }

  function MakeChains(i: RelId, j: RelId): seq<Action> {
    [Begin(1, 2)] + [Look(1)] + [Insert(1, i)] + [Begin(3, 0)] + [Look(3)] + [Insert(3, j)]
  }

  lemma FirstChain(i: RelId)
    ensures Play(NO_ROWS, [Begin(1, 2)] + [Look(1)] + [Insert(1, i)]) == State(map[i := Rel(1, 2, DuplicateOf)], map[])
  {
    var none: Rels := map[];
    assert DuplicateRows(none, 2) == {};
    assert [] + [Begin(1, 2)] == [Begin(1, 2)];
    PlayOn(NO_ROWS, [], Begin(1, 2));
    PlayOn(NO_ROWS, [Begin(1, 2)], Look(1));
    PlayOn(NO_ROWS, [Begin(1, 2)] + [Look(1)], Insert(1, i));
  }

  lemma SecondChain(i: RelId, j: RelId)
    requires i != j
    ensures Play(NO_ROWS, MakeChains(i, j)) == State(TwoChains(i, j), map[])
  {
    var first := [Begin(1, 2)] + [Look(1)] + [Insert(1, i)];
    var rels: Rels := map[i := Rel(1, 2, DuplicateOf)];
    FirstChain(i);
    assert DuplicateRows(rels, 0) == {};
    PlayOn(NO_ROWS, first, Begin(3, 0));
    PlayOn(NO_ROWS, first + [Begin(3, 0)], Look(3));
    PlayOn(NO_ROWS, first + [Begin(3, 0)] + [Look(3)], Insert(3, j));
  }

  lemma {:induction false} PlayConcat(s: State, first: seq<Action>, second: seq<Action>)
    ensures Play(s, first + second) == Play(Play(s, first), second)
  {
    if second == [] {
      assert first + second == first;
    } else {
      PlayConcat(s, first, second[..|second| - 1]);
      PlayOn(s, first + second[..|second| - 1], Last(second));
      assert first + second == first + second[..|second| - 1] + [Last(second)];
    }
  }

  /** Two markings of different chains that both walk before either commits, each linking its chain to the
      end of the other. Both checks pass, neither waits, and the rows close a cycle of four bugs. */
  lemma OverlappingMarkingsCanCloseACycle(i: RelId, j: RelId, k: RelId, l: RelId)
    requires i != j && {i, j} !! {k, l} && k != l
    ensures !Forest(Play(NO_ROWS, MakeChains(i, j) + BothCheck() + [Insert(2, k)] + [Insert(0, l)]).rels)
  {
    var before := MakeChains(i, j) + BothCheck();
    SecondChain(i, j);
    PlayConcat(NO_ROWS, MakeChains(i, j), BothCheck());
    BothChecksPass(i, j);
    PlayOn(NO_ROWS, before, Insert(2, k));
    PlayOn(NO_ROWS, before + [Insert(2, k)], Insert(0, l));
    FourRowsCloseACycle(i, j, k, l);
  }

  // ---------------------------------------------------------------------------------------------
  // What the check is worth when no other marking commits meanwhile

  /** What the walk has seen still stands: its bugs so far are not `b`, and the chain goes on where it is,
      or has become shorter. */
  ghost predicate Stands(rels: Rels, b: BugId, m: Marking) {
    match m
    case Walking(target, current, _) =>
      exists j: nat :: Avoids(rels, target, b, j) && Hop(rels, target, j) in {Some(current), None}
    case Checked(target) => forall k: nat :: Hop(rels, target, k) != Some(b)
  }

  lemma EndedChainAvoids(rels: Rels, target: BugId, b: BugId, n: nat)
    requires Avoids(rels, target, b, n) && Hop(rels, target, n).None?
    ensures forall k: nat :: Hop(rels, target, k) != Some(b)
  {
    forall k: nat ensures Hop(rels, target, k) != Some(b) {
      if k >= n {
        HopStaysOut(rels, target, n, k);
      }
    }
  }

  lemma ShrinkingKeepsStanding(was: Rels, now: Rels, b: BugId, m: Marking)
    requires forall x: BugId :: NextDuplicate(now, x) in {NextDuplicate(was, x), None}
    requires Stands(was, b, m)
    ensures Stands(now, b, m)
  {
    match m
    case Walking(target, current, _) =>
      var j: nat :| Avoids(was, target, b, j) && Hop(was, target, j) in {Some(current), None};
      forall k: nat | k <= j ensures Hop(now, target, k) in {Hop(was, target, k), None} {
        HopsShrink(was, now, target, k);
      }
      assert Avoids(now, target, b, j);
    case Checked(target) =>
      forall k: nat ensures Hop(now, target, k) != Some(b) {
        HopsShrink(was, now, target, k);
      }
  }

  lemma LookKeepsStanding(s: State, b: BugId)
    requires b in s.open && s.open[b].Walking? && Stands(s.rels, b, s.open[b])
    ensures var t := Looked(s, b, s.open[b]);
            b in t.open ==> Stands(t.rels, b, t.open[b])
  {
    var m := s.open[b];
    var j: nat :| Avoids(s.rels, m.target, b, j) && Hop(s.rels, m.target, j) in {Some(m.current), None};
    if m.left > 0 && m.current != b {
      if Hop(s.rels, m.target, j).None? {
        EndedChainAvoids(s.rels, m.target, b, j);
      } else {
        assert Avoids(s.rels, m.target, b, j + 1);
        assert Hop(s.rels, m.target, j + 1) == NextDuplicate(s.rels, m.current);
        if NextDuplicate(s.rels, m.current).None? {
          EndedChainAvoids(s.rels, m.target, b, j + 1);
        }
      }
    }
  }

  lemma OtherRowsShrink(rels: Rels, id: RelId, r: Rel)
    requires id !in rels && r.kind != DuplicateOf
    ensures forall x: BugId :: NextDuplicate(rels[id := r], x) == NextDuplicate(rels, x)
  {
    forall x: BugId ensures NextDuplicate(rels[id := r], x) == NextDuplicate(rels, x) {
      assert DuplicateRows(rels[id := r], x) == DuplicateRows(rels, x);
    }
  }

  lemma RemovedRowsShrink(rels: Rels, gone: RelId)
    requires Functional(rels)
    ensures forall x: BugId :: NextDuplicate(rels - {gone}, x) in {NextDuplicate(rels, x), None}
  {
    var now := rels - {gone};
    forall x: BugId ensures NextDuplicate(now, x) in {NextDuplicate(rels, x), None} {
      if NextDuplicate(now, x).Some? {
        var i := MinId(DuplicateRows(now, x));
        assert i in DuplicateRows(rels, x);
      }
    }
  }

  lemma ActKeepsStanding(s: State, b: BugId, a: Action)
    requires Forest(s.rels) && !a.Insert? && (b in s.open ==> Stands(s.rels, b, s.open[b]))
    ensures var t := Act(s, a);
            Forest(t.rels) && (b in t.open ==> Stands(t.rels, b, t.open[b]))
  {
    ActKeepsForestExactly(s, a);
    var t := Act(s, a);
    match a
    case Begin(c, target) =>
      if c == b && t != s {
        assert Avoids(s.rels, target, b, 0) && Hop(s.rels, target, 0) == Some(target);
      }
    case Look(c) => if c == b && b in s.open && s.open[b].Walking? { LookKeepsStanding(s, b); }
    case Link(_, id, row) =>
      if t != s {
        OtherRowsShrink(s.rels, id, row);
        if b in s.open { ShrinkingKeepsStanding(s.rels, t.rels, b, s.open[b]); }
      }
    case Unlink(_, id) =>
      RemovedRowsShrink(s.rels, id);
      if b in s.open && t != s { ShrinkingKeepsStanding(s.rels, t.rels, b, s.open[b]); }
    case GiveUp(_) =>
  }

  lemma {:induction false} QuietStepsKeepStanding(s: State, b: BugId, actions: seq<Action>)
    requires Forest(s.rels) && b !in s.open && forall a <- actions :: !a.Insert?
    ensures var t := Play(s, actions);
            Forest(t.rels) && (b in t.open ==> Stands(t.rels, b, t.open[b]))
  {
    if actions != [] {
      QuietStepsKeepStanding(s, b, actions[..|actions| - 1]);
      ActKeepsStanding(Play(s, actions[..|actions| - 1]), b, Last(actions));
    }
  }

  /** If no other marking commits between the start of a marking and its insert, the check is as good as one
      repeated at the insert, whatever else happens: the forest survives iff the bug has no row left to a
      different target. */
  lemma UndisturbedMarkingsExactly(s: State, b: BugId, actions: seq<Action>, id: RelId)
    requires Forest(s.rels) && b !in s.open && forall a <- actions :: !a.Insert?
    requires var t := Play(s, actions);
             CanInsert(t, b, id)
    ensures var t := Play(s, actions);
            Forest(Act(t, Insert(b, id)).rels) <==> NoOtherTarget(t.rels, b, t.open[b].target)
  {
    var t := Play(s, actions);
    QuietStepsKeepStanding(s, b, actions);
    ActKeepsForestExactly(t, Insert(b, id));
    var target := t.open[b].target;
    if Edge(t.rels, b, target) {
      var i :| i in t.rels && t.rels[i] == Rel(b, target, DuplicateOf);
      forall j | j in t.rels && t.rels[j].from == b && t.rels[j].kind == DuplicateOf ensures t.rels[j].to == target {
        assert t.rels[i].from == t.rels[j].from;
      }
    }
  }

  // ---------------------------------------------------------------------------------------------
  // A marking with nobody in between

  function Looks(s: State, b: BugId, n: nat): State
    decreases n
  {
    if n == 0 then s else Looks(Act(s, Look(b)), b, n - 1)
  }

  /** Looking until the queries run out is the bounded walk. */
  lemma {:induction false} LooksAreTheWalk(s: State, b: BugId)
    requires b in s.open && s.open[b].Walking?
    ensures var m := s.open[b];
            var t := Looks(s, b, m.left);
            match Walk(s.rels, m.current, b, m.left)
            case Ends => t == s.(open := s.open[b := Checked(m.target)])
            case Reaches => t == Close(s, b)
            case Unverifiable =>
              t.rels == s.rels && t.open - {b} == s.open - {b} && (b in t.open ==> t.open[b].Walking?)
    decreases s.open[b].left
  {
    var m := s.open[b];
    if m.left > 0 {
      var next := Act(s, Look(b));
      if m.current == b {
        LooksDoNothing(next, b, m.left - 1);
      } else if NextDuplicate(s.rels, m.current).None? {
        LooksDoNothing(next, b, m.left - 1);
      } else {
        LooksAreTheWalk(next, b);
        assert next.open - {b} == s.open - {b};
        assert next.open[b := Checked(m.target)] == s.open[b := Checked(m.target)];
      }
    }
  }

  lemma {:induction false} LooksDoNothing(s: State, b: BugId, n: nat)
    requires b in s.open ==> s.open[b].Checked?
    ensures Looks(s, b, n) == s
  {
    if n > 0 {
      LooksDoNothing(s, b, n - 1);
    }
  }

  lemma {:induction false} LooksPlay(s: State, before: seq<Action>, b: BugId, n: nat)
    ensures Play(s, before + seq(n, _ => Look(b))) == Looks(Play(s, before), b, n)
    decreases n
  {
    var looks := seq(n, _ => Look(b));
    if n == 0 {
      assert before + looks == before;
    } else {
      PlayOn(s, before, Look(b));
      LooksPlay(s, before + [Look(b)], b, n - 1);
      assert before + looks == before + [Look(b)] + seq(n - 1, _ => Look(b));
    }
  }

  function MarkingSteps(b: BugId, target: BugId, id: RelId): seq<Action> {
    [Begin(b, target)] + seq(MAX_DUPLICATE_CHAIN_DEPTH, _ => Look(b)) + [Insert(b, id)] + [GiveUp(b)]
  }

  lemma MarkingStepsPlay(s: State, b: BugId, target: BugId, id: RelId)
    ensures Play(s, MarkingSteps(b, target, id)) ==
            Act(Act(Looks(Act(s, Begin(b, target)), b, MAX_DUPLICATE_CHAIN_DEPTH), Insert(b, id)), GiveUp(b))
  {
    var looks := seq(MAX_DUPLICATE_CHAIN_DEPTH, _ => Look(b));
    assert [] + [Begin(b, target)] == [Begin(b, target)];
    PlayOn(s, [], Begin(b, target));
    LooksPlay(s, [Begin(b, target)], b, MAX_DUPLICATE_CHAIN_DEPTH);
    PlayOn(s, [Begin(b, target)] + looks, Insert(b, id));
    PlayOn(s, [Begin(b, target)] + looks + [Insert(b, id)], GiveUp(b));
  }

  lemma FinishAfterWalk(rels: Rels, b: BugId, target: BugId, id: RelId, n: nat)
    requires id !in rels && target != b
    ensures var begun := State(rels, map[b := Walking(target, target, n)]);
            Act(Act(Looks(begun, b, n), Insert(b, id)), GiveUp(b)) ==
            State(if Walk(rels, target, b, n) == Ends then MarkDuplicate(rels, b, target, id) else rels, map[])
  {
    var begun := State(rels, map[b := Walking(target, target, n)]);
    LooksAreTheWalk(begun, b);
    assert begun.open - {b} == map[] && map[b := Checked(target)] - {b} == map[];
    assert begun.open[b := Checked(target)] == map[b := Checked(target)];
  }

  lemma UninterruptedMarking(rels: Rels, b: BugId, target: BugId, id: RelId)
    requires target != b && id !in rels
    ensures Play(State(rels, map[]), MarkingSteps(b, target, id)) ==
            State(if Walk(rels, target, b, MAX_DUPLICATE_CHAIN_DEPTH) == Ends then MarkDuplicate(rels, b, target, id)
                  else rels, map[])
  {
    MarkingStepsPlay(State(rels, map[]), b, target, id);
    FinishAfterWalk(rels, b, target, id, MAX_DUPLICATE_CHAIN_DEPTH);
  }

  /** The tracker's own marking is this transaction with nobody in between. */
  lemma TrackerMarksUninterrupted(c: Config, w: World, op: Op)
    requires op.Call? && op.request.TransitionBug? && op.request.newStatus == Duplicate
    requires Refusal(c, w, op.bug, op.membership, op.expected, op.request).None?
    ensures op.request.duplicateOf.Some?
    ensures Play(State(w.rels, map[]), MarkingSteps(op.bug, op.request.duplicateOf.value, op.request.relId)) ==
            State(Step(c, w, op).rels, map[])
  {
    UninterruptedMarking(w.rels, op.bug, op.request.duplicateOf.value, op.request.relId);
  }

  /** So are its links and removals of rows, which is all that the other calls do to the rows. */
  lemma TrackerLinksUninterrupted(c: Config, w: World, op: Op)
    requires op.Call? && Refusal(c, w, op.bug, op.membership, op.expected, op.request).None?
    requires !(op.request.TransitionBug? && op.request.newStatus == Duplicate)
    ensures var s, v := State(w.rels, map[]), Step(c, w, op);
            match op.request
            case CreateRelationship(other, kind, id) =>
              id in v.rels && Act(s, Link(op.bug, id, v.rels[id])) == State(v.rels, map[])
            case RemoveRelationship(id) => Act(s, Unlink(op.bug, id)) == State(v.rels, map[])
            case _ => v.rels == w.rels
  {
  }
}
