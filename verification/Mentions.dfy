/** The mention language of comment bodies: the token printer of the comment box, and the parser the
    backend runs over the stored text. A body is a sequence of characters, which the parser counts; the
    printer counts units of UTF-16. */
module Mentions {
  import opened Base

  // ---------------------------------------------------------------------------------------------
  // Tokens

  predicate IsNameChar(c: char) {
    c != '[' && c != ']' && c != '\n'
  }

  predicate IsHexDigit(c: char) {
    '0' <= c <= '9' || 'a' <= c <= 'f' || 'A' <= c <= 'F'
  }

  /** The display-name segment of the pattern: one to a hundred characters, no bracket, no newline. */
  predicate IsName(s: string) {
    1 <= |s| <= 100 && forall i | 0 <= i < |s| :: IsNameChar(s[i])
  }

  /** The id segment: 36 hexadecimal digits or hyphens, in any arrangement. */
  predicate IsRawId(s: string) {
    |s| == 36 && forall i | 0 <= i < |s| :: IsHexDigit(s[i]) || s[i] == '-'
  }

  function TokenText(name: string, id: string): (t: string)
    ensures |t| == |name| + |id| + 13
  {
    "@[" + name + "](mention:" + id + ")"
  }

  /** Characters of a token around its name and id. */
  const FRAME: nat := 13

  function TokenLength(n: nat): nat {
    n + 36 + FRAME
  }

  function NameIn(body: string, i: nat, n: nat): string
    requires i + TokenLength(n) <= |body|
  {
    body[i + 2..i + 2 + n]
  }

  function IdIn(body: string, i: nat, n: nat): string
    requires i + TokenLength(n) <= |body|
  {
    body[i + n + 12..i + n + 48]
  }

  /** The pattern matches at `i`, with a display name of length `n`. */
  predicate TokenAt(body: string, i: nat, n: nat) {
    && i + TokenLength(n) <= |body|
    && IsName(NameIn(body, i, n))
    && IsRawId(IdIn(body, i, n))
    && body[i..i + TokenLength(n)] == TokenText(NameIn(body, i, n), IdIn(body, i, n))
  }

  lemma TokenChars(body: string, i: nat, n: nat)
    requires TokenAt(body, i, n)
    ensures body[i] == '@' && body[i + 1] == '[' && body[i + 2 + n] == ']'
    ensures body[i + TokenLength(n) - 1] == ')'
    ensures forall k | i + 2 <= k < i + 2 + n :: IsNameChar(body[k])
    ensures forall k | i + 2 <= k < i + TokenLength(n) :: body[k] != '['
  {
    var name, id := NameIn(body, i, n), IdIn(body, i, n);
    var t := TokenText(name, id);
    forall k | 0 <= k < |t| ensures body[i + k] == t[k] {
      assert body[i..i + TokenLength(n)][k] == body[i + k];
    }
    assert t[0] == '@' && t[1] == '[' && t[2 + n] == ']' && t[|t| - 1] == ')';
    var middle := "](mention:";
    forall k | 2 <= k < |t| ensures t[k] != '[' {
      if k < 2 + n {
        assert t[k] == name[k - 2];
      } else if k < 12 + n {
        assert t[k] == middle[k - 2 - n];
      } else if k < 48 + n {
        assert t[k] == id[k - 12 - n];
      }
    }
    forall k | i + 2 <= k < i + TokenLength(n) ensures body[k] != '[' {
      assert body[k] == t[k - i];
    }
    forall k | i + 2 <= k < i + 2 + n ensures IsNameChar(body[k]) {
      assert body[k] == name[k - i - 2];
    }
  }

  /** What the pattern matches, spelled out. */
  lemma TokenAtExactly(body: string, i: nat, n: nat)
    ensures TokenAt(body, i, n) <==>
            i <= |body| && exists name: string, id: string ::
              && |name| == n && 1 <= |name| <= 100 && (forall ch | ch in name :: ch !in "[]\n")
              && |id| == 36 && (forall ch | ch in id :: ch in "0123456789abcdefABCDEF-")
              && "@[" + name + "](mention:" + id + ")" <= body[i..]
  {
    if TokenAt(body, i, n) {
      var name, id := NameIn(body, i, n), IdIn(body, i, n);
      SliceOfDrop(body, i, 0, TokenLength(n));
      assert TokenText(name, id) == body[i..][..TokenLength(n)];
      HexDigitsSpelled(id);
    }
    if i <= |body| && exists name: string, id: string ::
         && |name| == n && 1 <= |name| <= 100 && (forall ch | ch in name :: ch !in "[]\n")
         && |id| == 36 && (forall ch | ch in id :: ch in "0123456789abcdefABCDEF-")
         && "@[" + name + "](mention:" + id + ")" <= body[i..]
    {
      var name: string, id: string :|
        && |name| == n && 1 <= |name| <= 100 && (forall ch | ch in name :: ch !in "[]\n")
        && |id| == 36 && (forall ch | ch in id :: ch in "0123456789abcdefABCDEF-")
        && "@[" + name + "](mention:" + id + ")" <= body[i..];
      forall k | 0 <= k < n ensures IsNameChar(name[k]) {
        assert name[k] in name;
        NameCharSpelled(name[k]);
      }
      SpelledTokenMatches(body, i, name, id);
    }
  }

  lemma NameCharSpelled(ch: char)
    ensures IsNameChar(ch) <==> ch !in "[]\n"
  {
    var spelled := "[]\n";
    assert spelled[0] == '[' && spelled[1] == ']' && spelled[2] == '\n';
  }

  lemma HexDigitsSpelled(id: string)
    ensures (forall i | 0 <= i < |id| :: IsHexDigit(id[i]) || id[i] == '-') <==>
            forall ch | ch in id :: ch in "0123456789abcdefABCDEF-"
  {
    forall ch: char ensures ch in "0123456789abcdefABCDEF-" <==> IsHexDigit(ch) || ch == '-' {
      HexDigitSpelled(ch);
    }
  }

  lemma HexDigitSpelled(ch: char)
    ensures ch in "0123456789abcdefABCDEF-" <==> IsHexDigit(ch) || ch == '-'
  {
    var spelled := "0123456789abcdefABCDEF-";
    if '0' <= ch <= '9' {
      assert spelled[(ch - '0') as int] == ch;
    } else if 'a' <= ch <= 'f' {
      assert spelled[10 + (ch - 'a') as int] == ch;
    } else if 'A' <= ch <= 'F' {
      assert spelled[16 + (ch - 'A') as int] == ch;
    } else if ch == '-' {
      assert spelled[22] == ch;
    }
  }

  lemma SpelledTokenMatches(body: string, i: nat, name: string, id: string)
    requires i <= |body| && IsName(name) && |id| == 36 && forall ch | ch in id :: ch in "0123456789abcdefABCDEF-"
    requires TokenText(name, id) <= body[i..]
    ensures TokenAt(body, i, |name|)
  {
    var n, t := |name|, TokenText(name, id);
    HexDigitsSpelled(id);
    SliceOfDrop(body, i, 0, |t|);
    SliceOfPrefix(body[i..], t, 2, 2 + n);
    SliceOfDrop(body, i, 2, 2 + n);
    SliceOfPrefix(body[i..], t, n + 12, n + 48);
    SliceOfDrop(body, i, n + 12, n + 48);
    TokenParts(name, id);
  }

  lemma SliceOfPrefix<T>(s: seq<T>, t: seq<T>, i: nat, j: nat)
    requires t <= s && i <= j <= |t|
    ensures s[i..j] == t[i..j] && s[..|t|] == t
  {
  }

  lemma TokenParts(name: string, id: string)
    requires |id| == 36
    ensures TokenText(name, id)[2..2 + |name|] == name
    ensures TokenText(name, id)[|name| + 12..|name| + 48] == id
  {
  }

  /** The name segment cannot contain the bracket that ends it, so a match has one possible length. */
  lemma OneMatchPerPosition(body: string, i: nat, n: nat, m: nat)
    requires TokenAt(body, i, n) && TokenAt(body, i, m)
    ensures n == m
  {
    TokenChars(body, i, n);
    TokenChars(body, i, m);
  }

  function MatchAt(body: string, i: nat): (r: Option<nat>)
    ensures forall n: nat :: r == Some(n) <==> TokenAt(body, i, n)
  {
    if exists n: nat | n <= 100 :: TokenAt(body, i, n) then
      assert forall n: nat, m: nat | TokenAt(body, i, n) && TokenAt(body, i, m) :: n == m by {
        forall n: nat, m: nat | TokenAt(body, i, n) && TokenAt(body, i, m) ensures n == m {
          OneMatchPerPosition(body, i, n, m);
        }
      }
      var n: nat :| n <= 100 && TokenAt(body, i, n);
      Some(n)
    else
      None
  }

  datatype Match = Match(start: nat, nameLength: nat) {
    function End(): nat {
      start + TokenLength(nameLength)
    }
  }

  /** The leftmost match at or after `pos`, as both regular-expression engines search for it. */
  function NextMatch(body: string, pos: nat): (r: Option<Match>)
    ensures r.Some? ==> pos <= r.value.start && TokenAt(body, r.value.start, r.value.nameLength)
    ensures r.Some? ==> forall i, n: nat | pos <= i < r.value.start :: !TokenAt(body, i, n)
    ensures r.None? ==> forall i, n: nat | pos <= i :: !TokenAt(body, i, n)
    decreases |body| - pos
  {
    if pos >= |body| then None
    else
      match MatchAt(body, pos)
      case Some(n) => Some(Match(pos, n))
      case None => NextMatch(body, pos + 1)
  }

  /** What the pattern matches at a position: the length of the token, and its id segment. */
  datatype Found = Found(length: nat, id: string)

  function Mark(body: string, i: nat): Option<Found> {
    match MatchAt(body, i)
    case Some(n) => Some(Found(TokenLength(n), IdIn(body, i, n)))
    case None => None
  }

  /** The matches at each position of the body. */
  function Marks(body: string): (marks: seq<Option<Found>>)
    ensures |marks| == |body| && forall i | 0 <= i < |body| :: marks[i] == Mark(body, i)
  {
    seq(|body|, i requires 0 <= i < |body| => Mark(body, i))
  }

  /** The id segments of all matches from `pos` on: a match is taken where it is found, and the search
      goes on behind it. */
  function Collect(marks: seq<Option<Found>>, pos: nat): seq<string>
    decreases |marks| - pos
  {
    if pos >= |marks| then []
    else
      match marks[pos]
      case Some(f) => [f.id] + Collect(marks, pos + if f.length == 0 then 1 else f.length)
      case None => Collect(marks, pos + 1)
  }

  /** `findall` from `pos` on. */
  function RawIds(body: string, pos: nat): seq<string> {
    Collect(Marks(body), pos)
  }

  lemma RawIdsStep(body: string, pos: nat)
    requires pos < |body|
    ensures RawIds(body, pos) ==
            match MatchAt(body, pos)
            case Some(n) => [IdIn(body, pos, n)] + RawIds(body, pos + TokenLength(n))
            case None => RawIds(body, pos + 1)
  {
    assert Marks(body)[pos] == Mark(body, pos);
  }

  /** `findall` is the iterated search. */
  lemma {:induction false} RawIdsFollowSearch(body: string, pos: nat)
    ensures RawIds(body, pos) ==
            match NextMatch(body, pos)
            case None => []
            case Some(m) => [IdIn(body, m.start, m.nameLength)] + RawIds(body, m.End())
    decreases |body| - pos
  {
    if pos < |body| {
      RawIdsStep(body, pos);
      match MatchAt(body, pos)
      case Some(n) => assert NextMatch(body, pos) == Some(Match(pos, n));
      case None =>
        assert NextMatch(body, pos) == NextMatch(body, pos + 1);
        RawIdsFollowSearch(body, pos + 1);
    } else {
      assert NextMatch(body, pos).None?;
    }
  }

  // ---------------------------------------------------------------------------------------------
  // Identifiers

  /** A UUID as the 128-bit number `uuid.UUID` compares by; users are identified by these. */
  type Uuid = nat

  function HexValue(c: char): (v: nat)
    ensures v < 16
  {
    if '0' <= c <= '9' then (c - '0') as nat
    else if 'a' <= c <= 'f' then (c - 'a') as nat + 10
    else if 'A' <= c <= 'F' then (c - 'A') as nat + 10
    else 0
  }

  function HexDigitsOf(s: string): seq<nat> {
    if s == [] then []
    else HexDigitsOf(s[..|s| - 1]) + if Last(s) == '-' then [] else [HexValue(Last(s))]
  }

  /** `int(digits, 16)` */
  function HexNumber(digits: seq<nat>): nat {
    if digits == [] then 0 else HexNumber(digits[..|digits| - 1]) * 16 + Last(digits)
  }

  /** `uuid.UUID(raw)` on an id segment: hyphens are dropped wherever they are, and 32 digits remain. */
  function ParseUuid(raw: string): Option<Uuid> {
    var digits := HexDigitsOf(raw);
    if |digits| == 32 then Some(HexNumber(digits)) else None
  }

  /** Two id segments denote the same user exactly if they have the same digits. */
  lemma {:induction false} HexNumberIsInjective(a: seq<nat>, b: seq<nat>)
    requires |a| == |b| && forall i | 0 <= i < |a| :: a[i] < 16 && b[i] < 16
    ensures HexNumber(a) == HexNumber(b) <==> a == b
  {
    if a != [] {
      HexNumberIsInjective(a[..|a| - 1], b[..|b| - 1]);
      assert a == a[..|a| - 1] + [Last(a)] && b == b[..|b| - 1] + [Last(b)];
    }
  }

  /** An id segment without its hyphens, in lower case. */
  function PlainDigits(raw: string): string {
    if raw == "" then ""
    else
      PlainDigits(raw[..|raw| - 1]) +
      if Last(raw) == '-' then ""
      else if 'A' <= Last(raw) <= 'F' then [((Last(raw) as int) + 32) as char]
      else [Last(raw)]
  }

  lemma {:induction false} PlainDigitsAreTheDigits(raw: string)
    requires forall i | 0 <= i < |raw| :: IsHexDigit(raw[i]) || raw[i] == '-'
    ensures |HexDigitsOf(raw)| == |PlainDigits(raw)|
    ensures forall i | 0 <= i < |PlainDigits(raw)| ::
              && HexDigitsOf(raw)[i] == HexValue(PlainDigits(raw)[i])
              && ('0' <= PlainDigits(raw)[i] <= '9' || 'a' <= PlainDigits(raw)[i] <= 'f')
  {
    if raw != "" {
      PlainDigitsAreTheDigits(raw[..|raw| - 1]);
    }
  }

  /** An id segment denotes somebody exactly if it has 32 digits, and two denote the same user exactly if they
      are the same text but for hyphens and case. */
  lemma SameUserExactly(a: string, b: string)
    requires IsRawId(a) && IsRawId(b)
    ensures ParseUuid(a).Some? <==> |PlainDigits(a)| == 32
    ensures ParseUuid(a).Some? && ParseUuid(b).Some? ==>
              (ParseUuid(a) == ParseUuid(b) <==> PlainDigits(a) == PlainDigits(b))
  {
    PlainDigitsAreTheDigits(a);
    PlainDigitsAreTheDigits(b);
    if ParseUuid(a).Some? && ParseUuid(b).Some? {
      HexNumberIsInjective(HexDigitsOf(a), HexDigitsOf(b));
      DigitsDecide(PlainDigits(a), PlainDigits(b), HexDigitsOf(a), HexDigitsOf(b));
    }
  }

  lemma DigitsDecide(p: string, q: string, x: seq<nat>, y: seq<nat>)
    requires |p| == |q| == |x| == |y|
    requires forall i | 0 <= i < |p| :: x[i] == HexValue(p[i]) && ('0' <= p[i] <= '9' || 'a' <= p[i] <= 'f')
    requires forall i | 0 <= i < |q| :: y[i] == HexValue(q[i]) && ('0' <= q[i] <= '9' || 'a' <= q[i] <= 'f')
    ensures x == y <==> p == q
  {
    if x == y {
      forall i | 0 <= i < |p| ensures p[i] == q[i] {
        assert x[i] == y[i];
      }
      assert p == q;
    }
    if p == q {
      assert forall i | 0 <= i < |p| :: x[i] == y[i];
      assert x == y;
    }
  }

  /** The ids the backend finds, with repetitions, in order. */
  function ParsedIds(raws: seq<string>): seq<Uuid> {
    if raws == [] then []
    else
      ParsedIds(raws[..|raws| - 1]) +
      match ParseUuid(Last(raws))
      case Some(id) => [id]
      case None => []
  }

  /** First-seen deduplication. */
  function Dedup(ids: seq<Uuid>): seq<Uuid> {
    if ids == [] then []
    else
      var before := Dedup(ids[..|ids| - 1]);
      if Last(ids) in before then before else before + [Last(ids)]
  }

  function Ids(body: string): seq<Uuid> {
    ParsedIds(RawIds(body, 0))
  }

  method ExtractMentionUserIds(body: string) returns (seen: seq<Uuid>)
    ensures seen == Dedup(Ids(body))
  {
    var raws := RawIds(body, 0);
    seen := [];
    for i := 0 to |raws|
      invariant seen == Dedup(ParsedIds(raws[..i]))
    {
      OneMoreId(raws, i);
      var parsed := ParseUuid(raws[i]);
      if parsed.Some? && parsed.value !in seen {
        seen := seen + [parsed.value];
      }
    }
    assert raws[..|raws|] == raws;
  }

  lemma OneMoreId(raws: seq<string>, i: nat)
    requires i < |raws|
    ensures var before := Dedup(ParsedIds(raws[..i]));
            Dedup(ParsedIds(raws[..i + 1])) ==
            match ParseUuid(raws[i])
            case Some(id) => if id in before then before else before + [id]
            case None => before
  {
    assert raws[..i + 1][..i] == raws[..i];
    var known := ParsedIds(raws[..i]);
    match ParseUuid(raws[i])
    case Some(id) => assert (known + [id])[..|known|] == known;
    case None => assert known + [] == known;
  }

  /** `resolve_mentions`: the ids that belong to members right now, in the order given. */
  function ResolveMentions(members: set<Uuid>, ids: seq<Uuid>): seq<Uuid> {
    if ids == [] then []
    else ResolveMentions(members, ids[..|ids| - 1]) + if Last(ids) in members then [Last(ids)] else []
  }

  /** Who a body mentions: each member one of whose ids the parser finds, and nobody twice. */
  lemma MentionedExactly(members: set<Uuid>, body: string)
    ensures var mentioned := ResolveMentions(members, Dedup(Ids(body)));
            && (forall id :: id in mentioned <==> id in members && id in Ids(body))
            && NoRepeats(mentioned)
  {
    DedupKeepsMembers(Ids(body));
    ResolveKeepsMembers(members, Dedup(Ids(body)));
    ResolveKeepsDistinct(members, Dedup(Ids(body)));
  }

  lemma {:induction false} ResolveKeepsMembers(members: set<Uuid>, ids: seq<Uuid>)
    ensures forall id :: id in ResolveMentions(members, ids) <==> id in members && id in ids
  {
    if ids != [] {
      ResolveKeepsMembers(members, ids[..|ids| - 1]);
      assert forall id :: id in ids <==> id in ids[..|ids| - 1] || id == Last(ids);
    }
  }

  lemma {:induction false} ResolveKeepsDistinct(members: set<Uuid>, ids: seq<Uuid>)
    requires NoRepeats(ids)
    ensures NoRepeats(ResolveMentions(members, ids))
  {
    if ids != [] {
      var n := |ids| - 1;
      var before := ResolveMentions(members, ids[..n]);
      ResolveKeepsDistinct(members, ids[..n]);
      ResolveKeepsMembers(members, ids[..n]);
      assert forall i | 0 <= i < n :: ids[i] != ids[n];
      assert ids[n] !in before;
      assert before + [] == before;
    }
  }

  ghost predicate InOrder(ids: seq<Uuid>, x: Uuid, y: Uuid) {
    exists i, j :: 0 <= i < j < |ids| && ids[i] == x && ids[j] == y
  }

  lemma InOrderOfPrefix(ids: seq<Uuid>, n: nat, x: Uuid, y: Uuid)
    requires n <= |ids| && InOrder(ids[..n], x, y)
    ensures InOrder(ids, x, y)
  {
    var i, j :| 0 <= i < j < n && ids[..n][i] == x && ids[..n][j] == y;
    assert ids[i] == x && ids[j] == y;
  }

  ghost predicate ListsInOrder(ids: seq<Uuid>, kept: seq<Uuid>) {
    forall p, q | 0 <= p < q < |kept| :: InOrder(ids, kept[p], kept[q])
  }

  /** Resolution keeps the order: what is kept earlier was listed earlier. */
  lemma {:induction false} ResolveKeepsOrder(members: set<Uuid>, ids: seq<Uuid>)
    ensures ListsInOrder(ids, ResolveMentions(members, ids))
  {
    if ids != [] {
      var n := |ids| - 1;
      var before, kept := ResolveMentions(members, ids[..n]), ResolveMentions(members, ids);
      ResolveKeepsOrder(members, ids[..n]);
      ResolveKeepsMembers(members, ids[..n]);
      assert before <= kept && |kept| <= |before| + 1;
      forall p, q | 0 <= p < q < |kept| ensures InOrder(ids, kept[p], kept[q]) {
        if q < |before| {
          assert kept[p] == before[p] && kept[q] == before[q] && InOrder(ids[..n], before[p], before[q]);
          InOrderOfPrefix(ids, n, before[p], before[q]);
        } else {
          assert before[p] in ids[..n];
          var i :| 0 <= i < n && ids[..n][i] == before[p];
          assert ids[i] == kept[p] && ids[n] == kept[q];
        }
      }
    }
  }

  /** `x` occurs before the first occurrence of `y`. */
  ghost predicate SeenFirst(ids: seq<Uuid>, x: Uuid, y: Uuid) {
    exists i :: 0 <= i < |ids| && ids[i] == x && y !in ids[..i + 1]
  }

  lemma SeenFirstInPrefix(ids: seq<Uuid>, n: nat, x: Uuid, y: Uuid)
    requires n <= |ids| && SeenFirst(ids[..n], x, y)
    ensures SeenFirst(ids, x, y)
  {
    var i :| 0 <= i < n && ids[..n][i] == x && y !in ids[..n][..i + 1];
    assert ids[i] == x && ids[..n][..i + 1] == ids[..i + 1];
  }

  lemma SeenInPrefix(ids: seq<Uuid>, n: nat, x: Uuid, y: Uuid)
    requires n <= |ids| && x in ids[..n] && y !in ids[..n]
    ensures SeenFirst(ids, x, y)
  {
    var i :| 0 <= i < n && ids[..n][i] == x;
    assert ids[i] == x;
    assert forall z <- ids[..i + 1] :: z in ids[..n] by {
      assert ids[..n][..i + 1] == ids[..i + 1];
    }
  }

  ghost predicate ListsFirstSeen(ids: seq<Uuid>, kept: seq<Uuid>) {
    forall p, q | 0 <= p < q < |kept| :: SeenFirst(ids, kept[p], kept[q])
  }

  /** Deduplication is by first occurrence: what is kept earlier was seen before the other was seen at all. */
  lemma {:induction false} DedupKeepsFirstSeenOrder(ids: seq<Uuid>)
    ensures ListsFirstSeen(ids, Dedup(ids))
  {
    if ids != [] {
      var n := |ids| - 1;
      var before, kept := Dedup(ids[..n]), Dedup(ids);
      DedupKeepsFirstSeenOrder(ids[..n]);
      DedupKeepsMembers(ids[..n]);
      assert before <= kept && |kept| <= |before| + 1;
      forall p, q | 0 <= p < q < |kept| ensures SeenFirst(ids, kept[p], kept[q]) {
        if q < |before| {
          assert kept[p] == before[p] && kept[q] == before[q] && SeenFirst(ids[..n], before[p], before[q]);
          SeenFirstInPrefix(ids, n, before[p], before[q]);
        } else {
          assert before[p] in ids[..n];
          SeenInPrefix(ids, n, kept[p], kept[q]);
        }
      }
    }
  }

  lemma {:induction false} DedupKeepsMembers(ids: seq<Uuid>)
    ensures forall id :: id in Dedup(ids) <==> id in ids
    ensures NoRepeats(Dedup(ids))
  {
    if ids != [] {
      DedupKeepsMembers(ids[..|ids| - 1]);
      assert forall id :: id in ids <==> id in ids[..|ids| - 1] || id == Last(ids);
    }
  }

  // ---------------------------------------------------------------------------------------------
  // Splitting a body

  /** Matching looks at nothing before its position. */
  lemma TokenAtShift(body: string, k: nat, end: string, i: nat, n: nat)
    requires k <= |body| && body[k..] == end
    ensures TokenAt(body, k + i, n) <==> TokenAt(end, i, n)
    ensures k + i + TokenLength(n) <= |body| ==> IdIn(body, k + i, n) == IdIn(end, i, n)
  {
    if i + TokenLength(n) <= |end| {
      SliceOfDrop(body, k, i, i + TokenLength(n));
      SliceOfDrop(body, k, i + 2, i + 2 + n);
      SliceOfDrop(body, k, i + n + 12, i + n + 48);
    }
  }

  lemma MarkShift(body: string, k: nat, end: string, i: nat)
    requires k <= |body| && body[k..] == end
    ensures Mark(body, k + i) == Mark(end, i)
  {
    match MatchAt(end, i)
    case Some(n) => TokenAtShift(body, k, end, i, n);
    case None =>
      match MatchAt(body, k + i)
      case Some(n) => TokenAtShift(body, k, end, i, n);
      case None =>
  }

  lemma {:induction false} CollectShift(all: seq<Option<Found>>, k: nat, b: seq<Option<Found>>, pos: nat)
    requires |all| == k + |b| && forall i: nat | i < |b| :: all[k + i] == b[i]
    ensures Collect(all, k + pos) == Collect(b, pos)
    decreases |b| - pos
  {
    if pos < |b| {
      assert all[k + pos] == b[pos];
      if b[pos].Some? && b[pos].value.length > 0 {
        CollectShift(all, k, b, pos + b[pos].value.length);
      } else {
        CollectShift(all, k, b, pos + 1);
      }
    }
  }

  lemma MarksShift(body: string, k: nat, end: string)
    requires k <= |body| && body[k..] == end
    ensures forall i: nat | i < |end| :: Marks(body)[k + i] == Marks(end)[i]
  {
    forall i: nat | i < |end| ensures Marks(body)[k + i] == Marks(end)[i] {
      MarkShift(body, k, end, i);
    }
  }

  lemma RawIdsShift(body: string, k: nat, end: string, pos: nat)
    requires k <= |body| && body[k..] == end
    ensures RawIds(body, k + pos) == RawIds(end, pos)
  {
    MarksShift(body, k, end);
    CollectShift(Marks(body), k, Marks(end), pos);
  }

  /** No match that starts before `k` ends behind it. */
  ghost predicate NoStraddling(body: string, k: nat) {
    forall i: nat, n: nat | i < k && TokenAt(body, i, n) :: i + TokenLength(n) <= k
  }

  lemma TokenAtPrefix(body: string, k: nat, start: string, i: nat, n: nat)
    requires k <= |body| && body[..k] == start
    ensures TokenAt(start, i, n) <==> TokenAt(body, i, n) && i + TokenLength(n) <= k
    ensures i + TokenLength(n) <= k ==> IdIn(body, i, n) == IdIn(start, i, n)
  {
    if i + TokenLength(n) <= k {
      SliceOfTake(body, k, i, i + TokenLength(n));
      SliceOfTake(body, k, i + 2, i + 2 + n);
      SliceOfTake(body, k, i + n + 12, i + n + 48);
    }
  }

  lemma MarkPrefix(body: string, k: nat, start: string, i: nat)
    requires k <= |body| && body[..k] == start && NoStraddling(body, k) && i < k
    ensures Mark(body, i) == Mark(start, i)
  {
    match MatchAt(start, i)
    case Some(n) => TokenAtPrefix(body, k, start, i, n);
    case None =>
      match MatchAt(body, i)
      case Some(n) => TokenAtPrefix(body, k, start, i, n);
      case None =>
  }

  lemma MarksPrefix(body: string, k: nat, start: string)
    requires k <= |body| && body[..k] == start && NoStraddling(body, k)
    ensures Marks(body)[..k] == Marks(start)
  {
    forall i: nat | i < k ensures Marks(body)[i] == Marks(start)[i] {
      MarkPrefix(body, k, start, i);
    }
  }

  predicate Fit(marks: seq<Option<Found>>) {
    forall i | 0 <= i < |marks| && marks[i].Some? :: 0 < marks[i].value.length <= |marks| - i
  }

  lemma {:induction false} CollectSplit(
    all: seq<Option<Found>>, k: nat, a: seq<Option<Found>>, b: seq<Option<Found>>, pos: nat)
    requires k <= |all| && all[..k] == a && all[k..] == b && Fit(a) && pos <= k
    ensures Collect(all, pos) == Collect(a, pos) + Collect(b, 0)
    decreases k - pos
  {
    if pos == k {
      CollectShift(all, k, b, 0);
      assert [] + Collect(b, 0) == Collect(b, 0);
    } else {
      assert all[pos] == a[pos];
      match a[pos]
      case Some(f) =>
        CollectSplit(all, k, a, b, pos + f.length);
        Associate([f.id], Collect(a, pos + f.length), Collect(b, 0));
      case None =>
        CollectSplit(all, k, a, b, pos + 1);
    }
  }

  lemma RawIdsSplit(body: string, k: nat, a: string, b: string)
    requires k <= |body| && body[..k] == a && body[k..] == b && NoStraddling(body, k)
    ensures RawIds(body, 0) == RawIds(a, 0) + RawIds(b, 0)
  {
    MarksPrefix(body, k, a);
    MarksShift(body, k, b);
    MarksFit(a);
    CollectSplit(Marks(body), k, Marks(a), Marks(b), 0);
  }

  lemma MarksFit(body: string)
    ensures Fit(Marks(body))
  {
  }

  /** A match never runs into the start of a token: the bracket there fits nowhere inside a match, and
      the at sign cannot end one. */
  lemma TokensStopStraddling(body: string, k: nat)
    requires k + 2 <= |body| && body[k] == '@' && body[k + 1] == '['
    ensures NoStraddling(body, k)
  {
    forall i: nat, n: nat | i < k && TokenAt(body, i, n) ensures i + TokenLength(n) <= k {
      TokenChars(body, i, n);
    }
  }

  lemma {:induction false} ParsedIdsConcat(r: seq<string>, s: seq<string>)
    ensures ParsedIds(r + s) == ParsedIds(r) + ParsedIds(s)
  {
    if s == [] {
      assert r + s == r;
    } else {
      ParsedIdsConcat(r, s[..|s| - 1]);
      assert (r + s)[..|r + s| - 1] == r + s[..|s| - 1];
    }
  }

  // ---------------------------------------------------------------------------------------------
  // The printer

  function StripUnsafe(s: string): (r: string)
    ensures forall i | 0 <= i < |r| :: IsNameChar(r[i])
  {
    if s == [] then [] else StripUnsafe(s[..|s| - 1]) + if IsNameChar(Last(s)) then [Last(s)] else []
  }

  /** How many units of UTF-16 a character takes: what JavaScript counts, where Python counts characters. */
  function Units(c: char): nat {
    if c as int >= 0x1_0000 then 2 else 1
  }

  function UnitsOf(s: string): (n: nat)
    ensures |s| <= n
  {
    if s == [] then 0 else Units(s[0]) + UnitsOf(s[1..])
  }

  /** Stands for the half of a character that is left when a cut goes through it. */
  const HALF: char := '\U{FFFD}'

  /** `slice(0, n)`, which cuts at units. */
  function TakeUnits(s: string, n: nat): (r: string)
    requires forall i | 0 <= i < |s| :: IsNameChar(s[i])
    ensures forall i | 0 <= i < |r| :: IsNameChar(r[i])
    ensures UnitsOf(r) <= n && (r == [] <==> s == [] || n == 0)
    decreases |s|
  {
    if s == [] || n == 0 then []
    else if Units(s[0]) <= n then
      var rest := TakeUnits(s[1..], n - Units(s[0]));
      assert ([s[0]] + rest)[1..] == rest;
      [s[0]] + rest
    else [HALF]
  }

  function SafeName(displayName: string): (r: string)
    ensures r != [] ==> IsName(r)
    ensures UnitsOf(r) <= 100
  {
    TakeUnits(StripUnsafe(displayName), 100)
  }

  /** Characters that would break the token are left out, and the others stay in their order. */
  lemma {:induction false} StripUnsafeKeepsOrder(s: string, c: char, t: string)
    ensures StripUnsafe("") == ""
    ensures StripUnsafe(s + [c] + t) == StripUnsafe(s) + (if c in "[]\n" then "" else [c]) + StripUnsafe(t)
  {
    if t == "" {
      assert s + [c] + t == s + [c] && (s + [c])[..|s|] == s && Last(s + [c]) == c;
      var mine := if c in "[]\n" then "" else [c];
      assert StripUnsafe(s) + mine + "" == StripUnsafe(s) + mine;
    } else {
      var n := |t| - 1;
      StripUnsafeKeepsOrder(s, c, t[..n]);
      assert (s + [c] + t)[..|s| + 1 + n] == s + [c] + t[..n] && Last(s + [c] + t) == Last(t);
      Associate(StripUnsafe(s) + (if c in "[]\n" then "" else [c]), StripUnsafe(t[..n]),
                if IsNameChar(Last(t)) then [Last(t)] else []);
    }
  }

  /** `r` is the front of `s` of length `k`, which is all that fits into `n` units, with half of the next
      character if that one straddles the cut. */
  predicate IsCutAt(s: string, n: nat, k: nat, r: string) {
    && k < |s| && UnitsOf(s[..k]) <= n < UnitsOf(s[..k]) + Units(s[k])
    && r == s[..k] + if UnitsOf(s[..k]) == n then "" else [HALF]
  }

  lemma CutOneLater(s: string, n: nat, k: nat, r: string)
    requires s != "" && Units(s[0]) <= n && IsCutAt(s[1..], n - Units(s[0]), k, r)
    ensures IsCutAt(s, n, k + 1, [s[0]] + r)
  {
    assert s[..k + 1] == [s[0]] + s[1..][..k] && s[..k + 1][1..] == s[1..][..k];
  }

  lemma {:induction false} TakeUnitsCuts(s: string, n: nat)
    requires forall i | 0 <= i < |s| :: IsNameChar(s[i])
    ensures if UnitsOf(s) <= n then TakeUnits(s, n) == s else exists k: nat :: IsCutAt(s, n, k, TakeUnits(s, n))
    decreases |s|
  {
    if s != "" && Units(s[0]) <= n {
      TakeUnitsCuts(s[1..], n - Units(s[0]));
      if UnitsOf(s) > n {
        var k: nat :| IsCutAt(s[1..], n - Units(s[0]), k, TakeUnits(s[1..], n - Units(s[0])));
        CutOneLater(s, n, k, TakeUnits(s[1..], n - Units(s[0])));
        assert IsCutAt(s, n, k + 1, TakeUnits(s, n));
      } else {
        assert [s[0]] + s[1..] == s;
      }
    } else if s != "" {
      assert s[..0] == "";
      assert IsCutAt(s, n, 0, TakeUnits(s, n));
    }
  }

  /** The printed name is the display name without what would break the token, cut where it reaches a hundred
      units: whole if it is short enough, and otherwise its longest front, with half of the next character if
      that one straddles the cut. */
  lemma PrintedNameExactly(displayName: string, userId: string)
    ensures var whole := StripUnsafe(displayName);
            if UnitsOf(whole) <= 100
            then BuildMentionToken(displayName, userId) == "@[" + whole + "](mention:" + userId + ")"
            else exists k: nat, name ::
                   IsCutAt(whole, 100, k, name)
                   && BuildMentionToken(displayName, userId) == "@[" + name + "](mention:" + userId + ")"
  {
    var whole := StripUnsafe(displayName);
    TakeUnitsCuts(whole, 100);
    if UnitsOf(whole) > 100 {
      var k: nat :| IsCutAt(whole, 100, k, SafeName(displayName));
    }
  }

  function BuildMentionToken(displayName: string, userId: string): string {
    TokenText(SafeName(displayName), userId)
  }

  /** The text form of RFC 9562, section 4: 8-4-4-4-12 hexadecimal digits. */
  predicate IsUuidText(s: string) {
    |s| == 36 &&
    forall i | 0 <= i < 36 :: if i in {8, 13, 18, 23} then s[i] == '-' else IsHexDigit(s[i])
  }

  lemma {:induction false} HexDigitsCount(s: string)
    requires forall i | 0 <= i < |s| :: IsHexDigit(s[i])
    ensures |HexDigitsOf(s)| == |s|
  {
    if s != [] {
      HexDigitsCount(s[..|s| - 1]);
    }
  }

  lemma {:induction false} HexDigitsConcat(s: string, t: string)
    ensures HexDigitsOf(s + t) == HexDigitsOf(s) + HexDigitsOf(t)
  {
    if t == [] {
      assert s + t == s;
    } else {
      HexDigitsConcat(s, t[..|t| - 1]);
      assert (s + t)[..|s + t| - 1] == s + t[..|t| - 1];
    }
  }

  lemma HexDigitsAcrossHyphen(s: string, t: string)
    requires forall i | 0 <= i < |t| :: IsHexDigit(t[i])
    ensures |HexDigitsOf(s + "-" + t)| == |HexDigitsOf(s)| + |t|
  {
    HexDigitsConcat(s, "-");
    assert HexDigitsOf("-") == [];
    HexDigitsConcat(s + "-", t);
    HexDigitsCount(t);
  }

  /** Canonical text always denotes a UUID. */
  lemma UuidTextParses(s: string)
    requires IsUuidText(s)
    ensures IsRawId(s) && ParseUuid(s).Some?
  {
    assert s[8] == '-' && s[13] == '-' && s[18] == '-' && s[23] == '-';
    HexDigitsCount(s[..8]);
    assert s[..13] == s[..8] + "-" + s[9..13];
    HexDigitsAcrossHyphen(s[..8], s[9..13]);
    assert s[..18] == s[..13] + "-" + s[14..18];
    HexDigitsAcrossHyphen(s[..13], s[14..18]);
    assert s[..23] == s[..18] + "-" + s[19..23];
    HexDigitsAcrossHyphen(s[..18], s[19..23]);
    assert s == s[..23] + "-" + s[24..36];
    HexDigitsAcrossHyphen(s[..23], s[24..36]);
  }

  /** What one printed token adds to the ids of a body: its id, or nothing if no character of the
      display name is safe. */
  function PrintedIds(displayName: string, userId: string): seq<Uuid> {
    match ParseUuid(userId)
    case Some(id) => if SafeName(displayName) == [] then [] else [id]
    case None => []
  }

  lemma PrintedTokenMatches(displayName: string, userId: string, suffix: string)
    requires IsRawId(userId) && SafeName(displayName) != []
    ensures var t := BuildMentionToken(displayName, userId);
            RawIds(t + suffix, 0) == [userId] + RawIds(suffix, 0)
  {
    var name := SafeName(displayName);
    var t := BuildMentionToken(displayName, userId);
    var body, n := t + suffix, |name|;
    assert NameIn(body, 0, n) == name;
    assert IdIn(body, 0, n) == userId;
    assert body[0..TokenLength(n)] == t;
    assert TokenAt(body, 0, n);
    RawIdsShift(body, |t|, suffix, 0);
  }

  lemma {:induction false} SkipPlainText(body: string, from: nat, to: nat)
    requires from <= to <= |body| && forall i | from <= i < to :: body[i] != '@'
    ensures RawIds(body, from) == RawIds(body, to)
    decreases |body| - from
  {
    if from < to {
      forall n: nat ensures !TokenAt(body, from, n) {
        if TokenAt(body, from, n) {
          TokenChars(body, from, n);
        }
      }
      SkipPlainText(body, from + 1, to);
    }
  }

  /** With an empty name the printed text is inert, whatever follows it. */
  lemma EmptyTokenIsInert(userId: string, suffix: string)
    requires IsRawId(userId)
    ensures RawIds(TokenText("", userId) + suffix, 0) == RawIds(suffix, 0)
  {
    var t := TokenText("", userId);
    var body := t + suffix;
    assert body[0] == '@' && body[2] == ']';
    forall n: nat ensures !TokenAt(body, 0, n) {
      if TokenAt(body, 0, n) {
        TokenChars(body, 0, n);
      }
    }
    var frame := "](mention:";
    forall i | 1 <= i < |t| ensures body[i] != '@' {
      if 2 <= i < 12 {
        assert body[i] == frame[i - 2];
      } else if 12 <= i < 48 {
        assert body[i] == userId[i - 12];
      }
    }
    SkipPlainText(body, 1, |t|);
    RawIdsShift(body, |t|, suffix, 0);
  }

  lemma IdsOfPrintedToken(displayName: string, userId: string, suffix: string)
    requires IsRawId(userId)
    ensures Ids(BuildMentionToken(displayName, userId) + suffix) == PrintedIds(displayName, userId) + Ids(suffix)
  {
    if SafeName(displayName) == [] {
      EmptyTokenIsInert(userId, suffix);
    } else {
      PrintedTokenMatches(displayName, userId, suffix);
      ParsedIdsConcat([userId], RawIds(suffix, 0));
      assert [userId][..0] == [];
      assert ParsedIds([userId]) == PrintedIds(displayName, userId);
    }
  }

  /** What starts with a token's first two characters can be cut off: no match crosses the cut. */
  lemma IdsSplitAtToken(body: string, k: nat, a: string, b: string)
    requires k <= |body| && body[..k] == a && body[k..] == b && |b| >= 2 && b[0] == '@' && b[1] == '['
    ensures Ids(body) == Ids(a) + Ids(b)
  {
    assert body[k] == b[0] && body[k + 1] == b[1];
    TokensStopStraddling(body, k);
    RawIdsSplit(body, k, a, b);
    ParsedIdsConcat(RawIds(a, 0), RawIds(b, 0));
  }

  lemma IdsAround(prefix: string, t: string, suffix: string, printed: seq<Uuid>)
    requires |t| >= 2 && t[0] == '@' && t[1] == '['
    requires Ids(t + suffix) == printed + Ids(suffix)
    ensures Ids(prefix + t + suffix) == Ids(prefix) + printed + Ids(suffix)
  {
    Associate(prefix, t, suffix);
    IdsSplitAtToken(prefix + (t + suffix), |prefix|, prefix, t + suffix);
    Associate(Ids(prefix), printed, Ids(suffix));
  }

  /** Printer and parser, for every text around the token: what the backend finds in prefix + token +
      suffix is what it finds in the prefix, then the token's id, then what it finds in the suffix. */
  lemma PrintedTokenParses(prefix: string, displayName: string, userId: string, suffix: string)
    requires IsRawId(userId)
    ensures Ids(prefix + BuildMentionToken(displayName, userId) + suffix)
         == Ids(prefix) + PrintedIds(displayName, userId) + Ids(suffix)
  {
    IdsOfPrintedToken(displayName, userId, suffix);
    IdsAround(prefix, BuildMentionToken(displayName, userId), suffix, PrintedIds(displayName, userId));
  }

  lemma {:induction false} DedupAbsorbs(a: seq<Uuid>, b: seq<Uuid>)
    ensures Dedup(Dedup(a) + b) == Dedup(a + b)
  {
    if b == [] {
      assert Dedup(a) + b == Dedup(a) && a + b == a;
      DedupIdempotent(a);
    } else {
      DedupAbsorbs(a, b[..|b| - 1]);
      assert (Dedup(a) + b)[..|Dedup(a) + b| - 1] == Dedup(a) + b[..|b| - 1];
      assert (a + b)[..|a + b| - 1] == a + b[..|b| - 1];
    }
  }

  lemma {:induction false} DedupIdempotent(a: seq<Uuid>)
    ensures Dedup(Dedup(a)) == Dedup(a)
  {
    if a != [] {
      var d := Dedup(a[..|a| - 1]);
      DedupIdempotent(a[..|a| - 1]);
      if Last(a) !in d {
        assert (d + [Last(a)])[..|d|] == d;
      }
    }
  }

  lemma {:induction false} DedupAbsorbsRight(a: seq<Uuid>, b: seq<Uuid>)
    ensures Dedup(a + Dedup(b)) == Dedup(a + b)
  {
    if b != [] {
      var n := |b| - 1;
      DedupAbsorbsRight(a, b[..n]);
      assert (a + b)[..|a + b| - 1] == a + b[..n];
      if Last(b) in Dedup(b[..n]) {
        DedupKeepsMembers(b[..n]);
        DedupKeepsMembers(a + b[..n]);
        assert Last(b) in a + b[..n];
      } else {
        assert (a + (Dedup(b[..n]) + [Last(b)])) == (a + Dedup(b[..n])) + [Last(b)];
        assert ((a + Dedup(b[..n])) + [Last(b)])[..|a + Dedup(b[..n])|] == a + Dedup(b[..n]);
      }
    }
  }

  lemma DedupOfParts(p: seq<Uuid>, t: seq<Uuid>, s: seq<Uuid>)
    ensures Dedup(Dedup(p) + t + Dedup(s)) == Dedup(p + t + s)
  {
    DedupAbsorbsRight(Dedup(p) + t, s);
    Associate(Dedup(p), t, s);
    DedupAbsorbs(p, t + s);
    Associate(p, t, s);
  }

  /** The same for the deduplicated lists `extract_mention_user_ids` returns. */
  lemma PrintedTokenExtracts(prefix: string, displayName: string, userId: string, suffix: string)
    requires IsUuidText(userId)
    ensures Dedup(Ids(prefix + BuildMentionToken(displayName, userId) + suffix))
         == Dedup(Dedup(Ids(prefix)) + PrintedIds(displayName, userId) + Dedup(Ids(suffix)))
  {
    UuidTextParses(userId);
    PrintedTokenParses(prefix, displayName, userId, suffix);
    DedupOfParts(Ids(prefix), PrintedIds(displayName, userId), Ids(suffix));
  }

  /** A body printed from pieces of text, each followed by a mention. */
  datatype Piece = Piece(text: string, displayName: string, userId: string)

  function PrintAll(pieces: seq<Piece>, tail: string): string {
    if pieces == [] then tail
    else
      pieces[0].text + BuildMentionToken(pieces[0].displayName, pieces[0].userId) + PrintAll(pieces[1..], tail)
  }

  function IdsOfPieces(pieces: seq<Piece>): seq<Uuid> {
    if pieces == [] then []
    else
      Ids(pieces[0].text) + PrintedIds(pieces[0].displayName, pieces[0].userId) + IdsOfPieces(pieces[1..])
  }

  /** A printed list of mentions parses back, in order, whatever text is between them. */
  lemma {:induction false} PrintedListParses(pieces: seq<Piece>, tail: string)
    requires forall i | 0 <= i < |pieces| :: IsUuidText(pieces[i].userId)
    ensures Ids(PrintAll(pieces, tail)) == IdsOfPieces(pieces) + Ids(tail)
  {
    if pieces != [] {
      var p := pieces[0];
      UuidTextParses(p.userId);
      PrintedListParses(pieces[1..], tail);
      PrintedTokenParses(p.text, p.displayName, p.userId, PrintAll(pieces[1..], tail));
    }
  }

  /** The printer's token is recognised exactly when the display name has a safe character. */
  lemma TokenIsRecognisedExactly(displayName: string, userId: string)
    requires IsUuidText(userId)
    ensures ParseUuid(userId).Some?
    ensures Ids(BuildMentionToken(displayName, userId)) == [ParseUuid(userId).value] <==>
            exists i | 0 <= i < |displayName| :: IsNameChar(displayName[i])
  {
    UuidTextParses(userId);
    var t := BuildMentionToken(displayName, userId);
    PrintedTokenParses("", displayName, userId, "");
    assert "" + t + "" == t && Ids("") == [];
    StripKeepsSafe(displayName);
  }

  lemma {:induction false} StripKeepsSafe(s: string)
    ensures StripUnsafe(s) != [] <==> exists i | 0 <= i < |s| :: IsNameChar(s[i])
  {
    if s != [] {
      StripKeepsSafe(s[..|s| - 1]);
      assert forall i | 0 <= i < |s| - 1 :: s[..|s| - 1][i] == s[i];
    }
  }
}
