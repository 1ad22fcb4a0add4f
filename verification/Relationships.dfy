/** Relationship rows between bugs: the bounded duplicate walk, the duplicate forest, and the derived
    inverse views. Row ids are ordered like the primary key that `.first()` falls back to. */
module Relationships {
  import opened Base

  type BugId = nat
  type RelId = nat

  datatype RelKind = DuplicateOf | Blocks | RelatesTo
  datatype Rel = Rel(from: BugId, to: BugId, kind: RelKind)
  type Rels = map<RelId, Rel>

  const MAX_DUPLICATE_CHAIN_DEPTH: nat := 25

  // ---------------------------------------------------------------------------------------------
  // The first duplicate_of row of a bug, and the chain it starts

  function MinId(ids: set<nat>): (m: nat)
    requires ids != {}
    ensures m in ids && forall i | i in ids :: m <= i
  {
    assert exists m :: IsLeast(ids, m) by {
      var x :| x in ids;
      LeastExists(ids, x);
    }
    var m :| m in ids && IsLeast(ids, m);
    m
  }

  predicate IsLeast(ids: set<nat>, m: nat) {
    m in ids && forall i <- ids :: m <= i
  }

  lemma {:induction false} LeastExists(ids: set<nat>, x: nat)
    requires x in ids
    ensures exists m :: IsLeast(ids, m)
    decreases x
  {
    if y :| y in ids && y < x {
      LeastExists(ids, y);
    } else {
      assert IsLeast(ids, x);
    }
  }

  function DuplicateRows(rels: Rels, b: BugId): set<RelId> {
    set i | i in rels && rels[i].from == b && rels[i].kind == DuplicateOf
  }

  /** `filter(from_bug=b, relationship_type=duplicate_of).first()`, followed to its target. */
  function NextDuplicate(rels: Rels, b: BugId): Option<BugId> {
    var ids := DuplicateRows(rels, b);
    if ids == {} then None else Some(rels[MinId(ids)].to)
  }

  /** Of the rows that mark `b` this one has the least id, and it leads to `t`. */
  ghost predicate IsFirstRow(rels: Rels, b: BugId, t: BugId, i: RelId) {
    && i in rels && rels[i] == Rel(b, t, DuplicateOf)
    && forall j | j in rels && rels[j].from == b && rels[j].kind == DuplicateOf :: i <= j
  }

  lemma FirstRowExactly(rels: Rels, b: BugId, t: BugId)
    ensures NextDuplicate(rels, b) == Some(t) <==> exists i :: IsFirstRow(rels, b, t, i)
  {
    var ids := DuplicateRows(rels, b);
    if NextDuplicate(rels, b) == Some(t) {
      forall j | j in rels && rels[j].from == b && rels[j].kind == DuplicateOf ensures MinId(ids) <= j {
        assert j in ids;
      }
      assert IsFirstRow(rels, b, t, MinId(ids));
    }
    if i :| IsFirstRow(rels, b, t, i) {
      assert i in ids && MinId(ids) in ids;
    }
  }

  /** The bug reached from `b` after `k` hops along first duplicate_of rows. */
  ghost function Hop(rels: Rels, b: BugId, k: nat): Option<BugId> {
    if k == 0 then Some(b)
    else
      var prev := Hop(rels, b, k - 1);
      if prev.None? then None else NextDuplicate(rels, prev.value)
  }

  datatype WalkResult = Reaches | Ends | Unverifiable

  /** The walk as a recursion over the remaining budget. */
  function Walk(rels: Rels, current: BugId, needle: BugId, budget: nat): WalkResult
    decreases budget
  {
    if budget == 0 then Unverifiable
    else if current == needle then Reaches
    else
      match NextDuplicate(rels, current)
      case None => Ends
      case Some(next) => Walk(rels, next, needle, budget - 1)
  }

  method DuplicateChainReaches(rels: Rels, start: BugId, needle: BugId) returns (r: WalkResult)
    ensures r == Walk(rels, start, needle, MAX_DUPLICATE_CHAIN_DEPTH)
  {
    var current := start;
    for i := 0 to MAX_DUPLICATE_CHAIN_DEPTH
      invariant Walk(rels, start, needle, MAX_DUPLICATE_CHAIN_DEPTH)
             == Walk(rels, current, needle, MAX_DUPLICATE_CHAIN_DEPTH - i)
    {
      if current == needle {
        return Reaches;
      }
      var next := NextDuplicate(rels, current);
      if next.None? {
        return Ends;
      }
      current := next.value;
    }
    return Unverifiable;
  }

  lemma {:induction false} HopShift(rels: Rels, b: BugId, c: BugId, k: nat)
    requires NextDuplicate(rels, b) == Some(c)
    ensures Hop(rels, b, k + 1) == Hop(rels, c, k)
  {
    if k > 0 {
      HopShift(rels, b, c, k - 1);
    } else {
      assert Hop(rels, b, 0) == Some(b);
    }
  }

  lemma {:induction false} HopStaysOut(rels: Rels, b: BugId, i: nat, k: nat)
    requires Hop(rels, b, i).None? && i <= k
    ensures Hop(rels, b, k).None?
  {
    if i < k {
      HopStaysOut(rels, b, i, k - 1);
    }
  }

  /** The needle is not among the first `n` bugs of the chain. */
  ghost predicate Avoids(rels: Rels, b: BugId, needle: BugId, n: nat) {
    forall j: nat | j < n :: Hop(rels, b, j) != Some(needle)
  }

  lemma AvoidsStep(rels: Rels, b: BugId, c: BugId, needle: BugId, n: nat)
    requires NextDuplicate(rels, b) == Some(c)
    ensures Avoids(rels, b, needle, n + 1) <==> b != needle && Avoids(rels, c, needle, n)
  {
    assert Hop(rels, b, 0) == Some(b);
    forall j: nat | j < n ensures Hop(rels, b, j + 1) == Hop(rels, c, j) {
      HopShift(rels, b, c, j);
    }
    if b != needle && Avoids(rels, c, needle, n) {
      forall j: nat | j < n + 1 ensures Hop(rels, b, j) != Some(needle) {
        if j > 0 {
          assert Hop(rels, b, j - 1 + 1) == Hop(rels, c, j - 1);
        }
      }
    }
  }

  /** The three answers, each stated on the chain itself and not on the walk: the needle is met
      within the budget, or the chain ends there without meeting it, or neither is known. */
  lemma {:induction false} WalkExactly(rels: Rels, b: BugId, needle: BugId, budget: nat)
    ensures Walk(rels, b, needle, budget) == Reaches <==> !Avoids(rels, b, needle, budget)
    ensures Walk(rels, b, needle, budget) == Ends <==>
            Avoids(rels, b, needle, budget) && Hop(rels, b, budget).None?
    ensures Walk(rels, b, needle, budget) == Unverifiable <==>
            Avoids(rels, b, needle, budget) && Hop(rels, b, budget).Some?
    decreases budget
  {
    assert Hop(rels, b, 0) == Some(b);
    if budget > 0 && b != needle {
      var next := NextDuplicate(rels, b);
      assert Hop(rels, b, 1) == next;
      if next.None? {
        HopStaysOut(rels, b, 1, budget);
        forall j: nat | 0 < j < budget ensures Hop(rels, b, j).None? {
          HopStaysOut(rels, b, 1, j);
        }
      } else {
        WalkExactly(rels, next.value, needle, budget - 1);
        AvoidsStep(rels, b, next.value, needle, budget - 1);
        HopShift(rels, b, next.value, budget - 1);
      }
    }
  }

  // ---------------------------------------------------------------------------------------------
  // The duplicate forest

  predicate Edge(rels: Rels, a: BugId, b: BugId) {
    exists i | i in rels :: rels[i] == Rel(a, b, DuplicateOf)
  }

  ghost predicate Functional(rels: Rels) {
    forall i, j | i in rels && j in rels && rels[i].kind == DuplicateOf && rels[j].kind == DuplicateOf ::
      rels[i].from == rels[j].from ==> rels[i].to == rels[j].to
  }

  ghost predicate ChainEnds(rels: Rels, b: BugId) {
    exists k: nat :: Hop(rels, b, k).None?
  }

  /** Every bug is a duplicate of at most one bug, and following the links always stops. */
  ghost predicate Forest(rels: Rels) {
    Functional(rels) && forall b: BugId :: ChainEnds(rels, b)
  }

  lemma FunctionalNext(rels: Rels, a: BugId, b: BugId)
    requires Functional(rels) && Edge(rels, a, b)
    ensures NextDuplicate(rels, a) == Some(b)
  {
    var i :| i in rels && rels[i] == Rel(a, b, DuplicateOf);
    assert i in DuplicateRows(rels, a);
  }

  /** The number of hops before the chain from `b` stops. */
  ghost function ChainLength(rels: Rels, b: BugId): (n: nat)
    requires ChainEnds(rels, b)
    ensures n > 0 && Hop(rels, b, n).None?
    ensures forall k: nat | k < n :: Hop(rels, b, k).Some?
  {
    var k: nat :| Hop(rels, b, k).None?;
    FirstNone(rels, b, k)
  }

  ghost function FirstNone(rels: Rels, b: BugId, k: nat): (n: nat)
    requires Hop(rels, b, k).None?
    ensures 0 < n <= k && Hop(rels, b, n).None?
    ensures forall j: nat | j < n :: Hop(rels, b, j).Some?
    decreases k
  {
    assert Hop(rels, b, 0).Some?;
    if Hop(rels, b, k - 1).None? then FirstNone(rels, b, k - 1)
    else
      assert forall j: nat | j < k :: Hop(rels, b, j).Some? by {
        forall j: nat | j < k ensures Hop(rels, b, j).Some? {
          if Hop(rels, b, j).None? { HopStaysOut(rels, b, j, k - 1); }
        }
      }
      k
  }

  lemma ChainLengthIs(rels: Rels, b: BugId, n: nat)
    requires n > 0 && Hop(rels, b, n).None? && Hop(rels, b, n - 1).Some?
    ensures ChainEnds(rels, b) && ChainLength(rels, b) == n
  {
    var l := ChainLength(rels, b);
    if l < n {
      HopStaysOut(rels, b, l, n - 1);
    }
  }

  lemma ChainLengthStep(rels: Rels, b: BugId, c: BugId)
    requires ChainEnds(rels, c) && NextDuplicate(rels, b) == Some(c)
    ensures ChainEnds(rels, b) && ChainLength(rels, b) == ChainLength(rels, c) + 1
  {
    var n := ChainLength(rels, c);
    assert Hop(rels, c, n - 1).Some?;
    HopShift(rels, b, c, n);
    HopShift(rels, b, c, n - 1);
    ChainLengthIs(rels, b, n + 1);
  }

  /** No closed walk along duplicate_of rows, whichever rows it uses. */
  lemma ForestHasNoCycle(rels: Rels, p: seq<BugId>)
    requires Forest(rels)
    requires |p| > 1 && forall i | 0 <= i < |p| - 1 :: Edge(rels, p[i], p[i + 1])
    ensures p[0] != Last(p)
  {
    assert ChainEnds(rels, p[0]) && ChainEnds(rels, Last(p));
    PathShortensChain(rels, p);
  }

  lemma {:induction false} PathShortensChain(rels: Rels, p: seq<BugId>)
    requires Forest(rels) && p != []
    requires forall i | 0 <= i < |p| - 1 :: Edge(rels, p[i], p[i + 1])
    ensures ChainEnds(rels, p[0]) && ChainEnds(rels, Last(p))
    ensures ChainLength(rels, p[0]) == ChainLength(rels, Last(p)) + |p| - 1
  {
    if |p| > 1 {
      assert Edge(rels, p[0], p[0 + 1]);
      FunctionalNext(rels, p[0], p[1]);
      ChainLengthStep(rels, p[0], p[1]);
      forall i | 0 <= i < |p[1..]| - 1 ensures Edge(rels, p[1..][i], p[1..][i + 1]) {
        assert Edge(rels, p[i + 1], p[i + 1 + 1]);
      }
      PathShortensChain(rels, p[1..]);
    }
  }

  /** `r` is where the chain from `b` comes to rest. */
  ghost predicate IsRootOf(rels: Rels, b: BugId, r: BugId) {
    NextDuplicate(rels, r).None? && exists k: nat :: Hop(rels, b, k) == Some(r)
  }

  lemma CanonicalRoot(rels: Rels, b: BugId) returns (root: BugId)
    requires Forest(rels)
    ensures forall r: BugId :: IsRootOf(rels, b, r) <==> r == root
  {
    assert ChainEnds(rels, b);
    var n := ChainLength(rels, b);
    assert Hop(rels, b, n - 1).Some?;
    root := Hop(rels, b, n - 1).value;
    forall r: BugId | IsRootOf(rels, b, r) ensures r == root {
      var k: nat :| Hop(rels, b, k) == Some(r);
      assert Hop(rels, b, k + 1).None?;
      ChainLengthIs(rels, b, k + 1);
    }
  }

  // ---------------------------------------------------------------------------------------------
  // Accepted markings, removals and other rows

  /** The get_or_create of the duplicate_of row in `transition_bug`. */
  function MarkDuplicate(rels: Rels, b: BugId, target: BugId, id: RelId): Rels {
    if Edge(rels, b, target) then rels else rels[id := Rel(b, target, DuplicateOf)]
  }

  /** The bug being marked has no duplicate_of row to another target left over from before. */
  ghost predicate NoOtherTarget(rels: Rels, b: BugId, target: BugId) {
    forall i | i in rels && rels[i].from == b && rels[i].kind == DuplicateOf :: rels[i].to == target
  }

  lemma {:induction false} HopsShrink(was: Rels, now: Rels, b: BugId, k: nat)
    requires forall x: BugId :: NextDuplicate(now, x) in {NextDuplicate(was, x), None}
    ensures Hop(now, b, k) in {Hop(was, b, k), None}
  {
    if k > 0 {
      HopsShrink(was, now, b, k - 1);
    }
  }

  /** Dropping links, or leaving them alone, keeps a forest. */
  lemma ShrinkingKeepsForest(was: Rels, now: Rels)
    requires Forest(was) && Functional(now)
    requires forall x: BugId :: NextDuplicate(now, x) in {NextDuplicate(was, x), None}
    ensures Forest(now)
  {
    forall b: BugId ensures ChainEnds(now, b) {
      assert ChainEnds(was, b);
      var k: nat :| Hop(was, b, k).None?;
      HopsShrink(was, now, b, k);
      assert Hop(now, b, k).None?;
    }
  }

  lemma RemovalKeepsForest(rels: Rels, gone: RelId)
    requires Forest(rels)
    ensures Forest(rels - {gone})
  {
    var now := rels - {gone};
    forall x: BugId ensures NextDuplicate(now, x) in {NextDuplicate(rels, x), None} {
      if NextDuplicate(now, x).Some? {
        var i := MinId(DuplicateRows(now, x));
        assert i in DuplicateRows(rels, x);
      }
    }
    ShrinkingKeepsForest(rels, now);
  }

  lemma OtherKindsKeepForest(rels: Rels, id: RelId, r: Rel)
    requires Forest(rels) && id !in rels && r.kind != DuplicateOf
    ensures Forest(rels[id := r])
  {
    var now := rels[id := r];
    forall x: BugId ensures NextDuplicate(now, x) == NextDuplicate(rels, x) {
      assert DuplicateRows(now, x) == DuplicateRows(rels, x);
    }
    ShrinkingKeepsForest(rels, now);
  }

  lemma MarkingChangesOneLink(rels: Rels, b: BugId, target: BugId, id: RelId)
    requires id !in rels && DuplicateRows(rels, b) == {}
    ensures var now := MarkDuplicate(rels, b, target, id);
            && now == rels[id := Rel(b, target, DuplicateOf)]
            && NextDuplicate(now, b) == Some(target)
            && forall x: BugId | x != b :: NextDuplicate(now, x) == NextDuplicate(rels, x)
  {
    forall i | i in rels ensures rels[i] != Rel(b, target, DuplicateOf) {
      assert i !in DuplicateRows(rels, b);
    }
    var now := MarkDuplicate(rels, b, target, id);
    assert DuplicateRows(now, b) == {id} by {
      forall i | i in DuplicateRows(now, b) ensures i == id {
        assert i == id || i in DuplicateRows(rels, b);
      }
    }
    forall x: BugId | x != b ensures NextDuplicate(now, x) == NextDuplicate(rels, x) {
      assert DuplicateRows(now, x) == DuplicateRows(rels, x);
    }
  }

  /** A chain that avoids the bug being marked is not affected by the marking. */
  lemma {:induction false} HopsAgree(was: Rels, now: Rels, b: BugId, x: BugId, k: nat)
    requires forall y: BugId | y != b :: NextDuplicate(now, y) == NextDuplicate(was, y)
    requires Avoids(was, x, b, k)
    ensures Hop(now, x, k) == Hop(was, x, k)
  {
    if k > 0 {
      HopsAgree(was, now, b, x, k - 1);
      assert Hop(was, x, k - 1) != Some(b);
    }
  }

  lemma {:induction false} HopsCompose(rels: Rels, x: BugId, j: nat, y: BugId, k: nat)
    requires Hop(rels, x, j) == Some(y)
    ensures Hop(rels, x, j + k) == Hop(rels, y, k)
  {
    if k > 0 {
      HopsCompose(rels, x, j, y, k - 1);
    } else {
      assert Hop(rels, y, 0) == Some(y);
    }
  }

  /** The first place where the chain of `x` meets `b` within `n` hops. */
  lemma {:induction false} FirstMeeting(rels: Rels, x: BugId, b: BugId, n: nat) returns (j: nat)
    requires !Avoids(rels, x, b, n)
    ensures j < n && Hop(rels, x, j) == Some(b) && Avoids(rels, x, b, j)
  {
    if !Avoids(rels, x, b, n - 1) {
      j := FirstMeeting(rels, x, b, n - 1);
    } else {
      j := n - 1;
    }
  }

  lemma SafeLinkEndsChain(was: Rels, now: Rels, b: BugId, n: nat, x: BugId)
    requires ChainEnds(was, x) && Hop(now, b, n).None?
    requires forall y: BugId | y != b :: NextDuplicate(now, y) == NextDuplicate(was, y)
    ensures ChainEnds(now, x)
  {
    var k: nat :| Hop(was, x, k).None?;
    if Avoids(was, x, b, k) {
      HopsAgree(was, now, b, x, k);
    } else {
      var j := FirstMeeting(was, x, b, k);
      HopsAgree(was, now, b, x, j);
      HopsCompose(now, x, j, b, n);
    }
  }

  /** A new link b -> target is safe when the chain of `target` ends without meeting `b`. */
  lemma SafeLinkKeepsChainsEnding(was: Rels, now: Rels, b: BugId, target: BugId, n: nat)
    requires forall x: BugId :: ChainEnds(was, x)
    requires NextDuplicate(now, b) == Some(target)
    requires forall x: BugId | x != b :: NextDuplicate(now, x) == NextDuplicate(was, x)
    requires Avoids(was, target, b, n) && Hop(was, target, n).None?
    ensures forall x: BugId :: ChainEnds(now, x)
  {
    HopsAgree(was, now, b, target, n);
    HopShift(now, b, target, n);
    forall x: BugId ensures ChainEnds(now, x) {
      SafeLinkEndsChain(was, now, b, n + 1, x);
    }
  }

  /** What an accepted DUPLICATE transition does to the forest, exactly: it survives iff the bug had
      no row to a different target. */
  lemma AcceptedMarkingExactly(rels: Rels, b: BugId, target: BugId, id: RelId)
    requires Forest(rels) && id !in rels
    requires Walk(rels, target, b, MAX_DUPLICATE_CHAIN_DEPTH) == Ends
    ensures Forest(MarkDuplicate(rels, b, target, id)) <==> NoOtherTarget(rels, b, target)
  {
    InsertKeepsForestExactly(rels, b, target, id);
    WalkExactly(rels, target, b, MAX_DUPLICATE_CHAIN_DEPTH);
    forall k: nat ensures Hop(rels, target, k) != Some(b) {
      if k >= MAX_DUPLICATE_CHAIN_DEPTH {
        HopStaysOut(rels, target, MAX_DUPLICATE_CHAIN_DEPTH, k);
      }
    }
    if Edge(rels, b, target) && !NoOtherTarget(rels, b, target) {
      OtherTargetBreaksForest(rels, b, target, id);
    }
  }

  /** The row is there already, or the bug has no other one and the chain of the target does not lead to it. */
  ghost predicate IsSafeRow(rels: Rels, b: BugId, target: BugId) {
    || Edge(rels, b, target)
    || (NoOtherTarget(rels, b, target) && forall k: nat :: Hop(rels, target, k) != Some(b))
  }

  /** What inserting a row does to the forest, whatever was checked before: it survives iff the row is safe
      in the table it is written to. */
  lemma InsertKeepsForestExactly(rels: Rels, b: BugId, target: BugId, id: RelId)
    requires Forest(rels) && id !in rels
    ensures Forest(MarkDuplicate(rels, b, target, id)) <==> IsSafeRow(rels, b, target)
  {
    if IsSafeRow(rels, b, target) {
      SafeRowKeepsForest(rels, b, target, id);
    } else if !NoOtherTarget(rels, b, target) {
      OtherTargetBreaksForest(rels, b, target, id);
    } else {
      var k: nat :| Hop(rels, target, k) == Some(b);
      LinkBackBreaksForest(rels, b, target, id, k);
    }
  }

  lemma SafeRowKeepsForest(rels: Rels, b: BugId, target: BugId, id: RelId)
    requires Forest(rels) && id !in rels && IsSafeRow(rels, b, target)
    ensures Forest(MarkDuplicate(rels, b, target, id))
  {
    if DuplicateRows(rels, b) == {} {
      assert ChainEnds(rels, target);
      MarkingChangesOneLink(rels, b, target, id);
      SafeLinkKeepsChainsEnding(rels, MarkDuplicate(rels, b, target, id), b, target, ChainLength(rels, target));
      FreshLinkKeepsFunctional(rels, b, target, id);
    } else {
      var i :| i in DuplicateRows(rels, b);
      assert rels[i] == Rel(b, target, DuplicateOf);
      assert Edge(rels, b, target) && MarkDuplicate(rels, b, target, id) == rels;
    }
  }

  lemma OtherTargetBreaksForest(rels: Rels, b: BugId, target: BugId, id: RelId)
    requires id !in rels && !NoOtherTarget(rels, b, target)
    ensures !Functional(MarkDuplicate(rels, b, target, id))
  {
    var now := MarkDuplicate(rels, b, target, id);
    var i :| i in rels && rels[i].from == b && rels[i].kind == DuplicateOf && rels[i].to != target;
    MarkingRecordsLink(rels, b, target, id);
    var j :| j in now && now[j] == Rel(b, target, DuplicateOf);
    assert i in now && now[i] == rels[i];
  }

  /** Each hop along a forest shortens the chain that is left. */
  lemma {:induction false} HopShortensChain(rels: Rels, x: BugId, k: nat, y: BugId)
    requires Forest(rels) && Hop(rels, x, k) == Some(y)
    ensures ChainEnds(rels, x) && ChainEnds(rels, y) && ChainLength(rels, x) == ChainLength(rels, y) + k
  {
    assert ChainEnds(rels, x) && ChainEnds(rels, y);
    if k > 0 {
      var z := Hop(rels, x, k - 1).value;
      HopShortensChain(rels, x, k - 1, z);
      ChainLengthStep(rels, z, y);
    }
  }

  /** Hops survive in a larger table that is still functional. */
  lemma {:induction false} HopsPersist(was: Rels, now: Rels, x: BugId, k: nat, y: BugId)
    requires Functional(now) && forall i | i in was :: i in now && now[i] == was[i]
    requires Hop(was, x, k) == Some(y)
    ensures Hop(now, x, k) == Some(y)
  {
    if k > 0 {
      var z := Hop(was, x, k - 1).value;
      HopsPersist(was, now, x, k - 1, z);
      var i := MinId(DuplicateRows(was, z));
      assert now[i] == Rel(z, y, DuplicateOf);
      FunctionalNext(now, z, y);
    }
  }

  lemma LinkBackBreaksForest(rels: Rels, b: BugId, target: BugId, id: RelId, k: nat)
    requires id !in rels && Hop(rels, target, k) == Some(b)
    ensures !Forest(MarkDuplicate(rels, b, target, id))
  {
    var now := MarkDuplicate(rels, b, target, id);
    if Forest(now) {
      MarkingRecordsLink(rels, b, target, id);
      FunctionalNext(now, b, target);
      HopsPersist(rels, now, target, k, b);
      HopShift(now, b, target, k);
      HopShortensChain(now, b, k + 1, b);
    }
  }

  lemma MarkingRecordsLink(rels: Rels, b: BugId, target: BugId, id: RelId)
    ensures Edge(MarkDuplicate(rels, b, target, id), b, target)
  {
    if !exists i | i in rels :: rels[i] == Rel(b, target, DuplicateOf) {
      assert MarkDuplicate(rels, b, target, id)[id] == Rel(b, target, DuplicateOf);
    }
  }

  lemma FreshLinkKeepsFunctional(rels: Rels, b: BugId, target: BugId, id: RelId)
    requires Functional(rels) && id !in rels && DuplicateRows(rels, b) == {}
    ensures Functional(rels[id := Rel(b, target, DuplicateOf)])
  {
    forall i | i in rels ensures !(rels[i].from == b && rels[i].kind == DuplicateOf) {
      assert i !in DuplicateRows(rels, b);
    }
  }

  /** A reopened bug keeps its old row. Mark 0 as a duplicate of 1, reopen it, mark it as a duplicate
      of 2, then mark 1 as a duplicate of 0: each walk answers Ends, and 0 and 1 end up in a cycle. */
  lemma ReopenedBugCanCloseACycle()
    ensures var r1 := MarkDuplicate(map[], 0, 1, 5);
            var r2 := MarkDuplicate(r1, 0, 2, 4);
            var r3 := MarkDuplicate(r2, 1, 0, 6);
            && Walk(map[], 1, 0, MAX_DUPLICATE_CHAIN_DEPTH) == Ends
            && Walk(r1, 2, 0, MAX_DUPLICATE_CHAIN_DEPTH) == Ends
            && Walk(r2, 0, 1, MAX_DUPLICATE_CHAIN_DEPTH) == Ends
            && Edge(r3, 0, 1) && Edge(r3, 1, 0)
  {
    var r0: Rels := map[];
    assert DuplicateRows(r0, 1) == {};
    var r1 := MarkDuplicate(r0, 0, 1, 5);
    assert r1 == map[5 := Rel(0, 1, DuplicateOf)];
    assert DuplicateRows(r1, 2) == {};
    var r2 := MarkDuplicate(r1, 0, 2, 4);
    assert r2 == map[5 := Rel(0, 1, DuplicateOf), 4 := Rel(0, 2, DuplicateOf)];
    assert DuplicateRows(r2, 0) == {4, 5} && DuplicateRows(r2, 2) == {};
    assert NextDuplicate(r2, 0) == Some(2);
    assert Walk(r2, 2, 1, 24) == Ends;
    var r3 := MarkDuplicate(r2, 1, 0, 6);
    assert r3[5] == Rel(0, 1, DuplicateOf) && r3[6] == Rel(1, 0, DuplicateOf);
  }

  // ---------------------------------------------------------------------------------------------
  // Other rows, and the views derived from all of them

  /** No self rows, no row twice, endpoints among the first `bugs` bugs, and every symmetric
      relates_to row stored from its smaller end. */
  ghost predicate RowsSound(rels: Rels, bugs: nat) {
    && (forall i | i in rels ::
          && rels[i].from < bugs && rels[i].to < bugs && rels[i].from != rels[i].to
          && (rels[i].kind == RelatesTo ==> rels[i].from < rels[i].to))
    && forall i, j | i in rels && j in rels :: rels[i] == rels[j] ==> i == j
  }

  /** The row `create_relationship` stores: relates_to is canonicalised by id. */
  function Canonical(a: BugId, b: BugId, kind: RelKind): Rel {
    if kind == RelatesTo && b < a then Rel(b, a, kind) else Rel(a, b, kind)
  }

  /** `created` is false when get_or_create finds the row. */
  function AddRow(rels: Rels, r: Rel, id: RelId): Option<Rels> {
    if exists i | i in rels :: rels[i] == r then None else Some(rels[id := r])
  }

  /** A row that get_or_create did not find, between two different bugs of the table. */
  lemma NewRowKeepsRowsSound(rels: Rels, bugs: nat, r: Rel, id: RelId)
    requires RowsSound(rels, bugs) && id !in rels
    requires r.from < bugs && r.to < bugs && r.from != r.to && (r.kind == RelatesTo ==> r.from < r.to)
    requires !exists i | i in rels :: rels[i] == r
    ensures RowsSound(rels[id := r], bugs)
  {
  }

  ghost predicate Related(rels: Rels, a: BugId, b: BugId) {
    exists i | i in rels :: rels[i].kind == RelatesTo && {rels[i].from, rels[i].to} == {a, b}
  }

  /** relates_to is a symmetric set of unordered pairs: at most one row per pair, and a new one is
      accepted exactly when neither direction is stored yet. */
  lemma RelatesToIsSymmetric(rels: Rels, bugs: nat, a: BugId, b: BugId, id: RelId)
    requires RowsSound(rels, bugs) && a != b && a < bugs && b < bugs && id !in rels
    ensures AddRow(rels, Canonical(a, b, RelatesTo), id) == AddRow(rels, Canonical(b, a, RelatesTo), id)
    ensures AddRow(rels, Canonical(a, b, RelatesTo), id).Some? <==> !Related(rels, a, b)
    ensures AddRow(rels, Canonical(a, b, RelatesTo), id).Some? ==>
              RowsSound(AddRow(rels, Canonical(a, b, RelatesTo), id).value, bugs)
    ensures forall i, j | i in rels && j in rels && rels[i].kind == rels[j].kind == RelatesTo ::
              {rels[i].from, rels[i].to} == {rels[j].from, rels[j].to} ==> i == j
  {
    var r := Canonical(a, b, RelatesTo);
    assert {r.from, r.to} == {a, b};
    forall i | i in rels && rels[i].kind == RelatesTo && {rels[i].from, rels[i].to} == {a, b}
      ensures rels[i] == r
    {
      SamePair(rels[i], r);
    }
    forall i, j | i in rels && j in rels && rels[i].kind == rels[j].kind == RelatesTo
      && {rels[i].from, rels[i].to} == {rels[j].from, rels[j].to}
      ensures i == j
    {
      SamePair(rels[i], rels[j]);
    }
  }

  lemma SamePair(r: Rel, s: Rel)
    requires r.kind == s.kind && r.from < r.to && s.from < s.to && {r.from, r.to} == {s.from, s.to}
    ensures r == s
  {
    assert r.from in {s.from, s.to} && r.to in {s.from, s.to} && s.from in {r.from, r.to};
  }

  datatype ViewKind = IsDuplicateOf | IsDuplicatedBy | IsBlocking | IsBlockedBy | IsRelatedTo
  datatype View = View(id: RelId, kind: ViewKind, other: BugId)

  function Inverse(k: ViewKind): ViewKind {
    match k
    case IsDuplicateOf => IsDuplicatedBy
    case IsDuplicatedBy => IsDuplicateOf
    case IsBlocking => IsBlockedBy
    case IsBlockedBy => IsBlocking
    case IsRelatedTo => IsRelatedTo
  }

  function ViewFrom(b: BugId, id: RelId, r: Rel): View {
    var forward := r.from == b;
    View(
      id,
      match r.kind
      case DuplicateOf => if forward then IsDuplicateOf else IsDuplicatedBy
      case Blocks => if forward then IsBlocking else IsBlockedBy
      case RelatesTo => IsRelatedTo,
      if forward then r.to else r.from)
  }

  ghost function ViewsOf(rels: Rels, b: BugId): set<View> {
    set i | i in rels && b in {rels[i].from, rels[i].to} :: ViewFrom(b, i, rels[i])
  }

  /** The loop of `list_bug_relationships` over the rows touching `b`, in whatever order the query
      returns them. */
  method ListBugRelationships(rels: Rels, rows: seq<RelId>, b: BugId) returns (results: seq<View>)
    requires forall i :: i in rows <==> i in rels && b in {rels[i].from, rels[i].to}
    ensures |results| == |rows|
    ensures forall k | 0 <= k < |rows| :: results[k] == ViewFrom(b, rows[k], rels[rows[k]])
    ensures forall v :: v in results <==> v in ViewsOf(rels, b)
  {
    results := [];
    for n := 0 to |rows|
      invariant |results| == n
      invariant forall k | 0 <= k < n :: results[k] == ViewFrom(b, rows[k], rels[rows[k]])
    {
      var rel := rels[rows[n]];
      var isForward := rel.from == b;
      var kind;
      if rel.kind == DuplicateOf {
        kind := if isForward then IsDuplicateOf else IsDuplicatedBy;
      } else if rel.kind == Blocks {
        kind := if isForward then IsBlocking else IsBlockedBy;
      } else {
        kind := IsRelatedTo;
      }
      var other := if isForward then rel.to else rel.from;
      results := results + [View(rows[n], kind, other)];
    }
    forall v ensures v in results <==> v in ViewsOf(rels, b) {
      if v in ViewsOf(rels, b) {
        var i :| i in rels && b in {rels[i].from, rels[i].to} && v == ViewFrom(b, i, rels[i]);
        assert i in rows;
        var k :| 0 <= k < |rows| && rows[k] == i;
        assert results[k] == v;
      }
    }
  }

  /** What a bug lists about another, the other lists back under the inverse name. */
  lemma ViewsAreDual(rels: Rels, bugs: nat, a: BugId, b: BugId, id: RelId, k: ViewKind)
    requires RowsSound(rels, bugs)
    ensures View(id, k, b) in ViewsOf(rels, a) <==> View(id, Inverse(k), a) in ViewsOf(rels, b)
  {
    if View(id, k, b) in ViewsOf(rels, a) {
      OtherSideSees(rels, bugs, a, b, id, k);
    }
    if View(id, Inverse(k), a) in ViewsOf(rels, b) {
      OtherSideSees(rels, bugs, b, a, id, Inverse(k));
    }
  }

  lemma OtherSideSees(rels: Rels, bugs: nat, a: BugId, b: BugId, id: RelId, k: ViewKind)
    requires RowsSound(rels, bugs) && View(id, k, b) in ViewsOf(rels, a)
    ensures View(id, Inverse(k), a) in ViewsOf(rels, b)
  {
    assert id in rels && a in {rels[id].from, rels[id].to} && View(id, k, b) == ViewFrom(a, id, rels[id]);
    assert ViewFrom(b, id, rels[id]) == View(id, Inverse(k), a);
  }
}
