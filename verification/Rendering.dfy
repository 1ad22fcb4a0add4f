/** The comment renderer: the loop that cuts a body into text nodes and styled mentions. */
module Rendering {
  import opened Base
  import opened Mentions

  // ---------------------------------------------------------------------------------------------
  // The renderer's own pattern: its bounds count units of UTF-16

  /** The display-name segment as the renderer's engine matches it. */
  predicate IsShownName(s: string) {
    1 <= UnitsOf(s) <= 100 && forall i | 0 <= i < |s| :: IsNameChar(s[i])
  }

  predicate ShownTokenAt(body: string, i: nat, n: nat) {
    && i + TokenLength(n) <= |body|
    && IsShownName(NameIn(body, i, n))
    && IsRawId(IdIn(body, i, n))
    && body[i..i + TokenLength(n)] == TokenText(NameIn(body, i, n), IdIn(body, i, n))
  }

  /** It matches where the backend's does, except that a name may be too long for it. */
  lemma ShownTokensAreTokens(body: string, i: nat, n: nat)
    ensures ShownTokenAt(body, i, n) <==> TokenAt(body, i, n) && UnitsOf(NameIn(body, i, n)) <= 100
  {
  }

  function ShownMatchAt(body: string, i: nat): (r: Option<nat>)
    ensures forall n: nat :: r == Some(n) <==> ShownTokenAt(body, i, n)
  {
    assert forall n: nat :: ShownTokenAt(body, i, n) <==> TokenAt(body, i, n) && UnitsOf(NameIn(body, i, n)) <= 100 by {
      forall n: nat ensures ShownTokenAt(body, i, n) <==> TokenAt(body, i, n) && UnitsOf(NameIn(body, i, n)) <= 100 {
        ShownTokensAreTokens(body, i, n);
      }
    }
    match MatchAt(body, i)
    case Some(n) => if UnitsOf(NameIn(body, i, n)) <= 100 then Some(n) else None
    case None => None
  }

  /** `exec` from `pos` on: the leftmost match. */
  function NextShown(body: string, pos: nat): (r: Option<Match>)
    ensures r.Some? ==> pos <= r.value.start && ShownTokenAt(body, r.value.start, r.value.nameLength)
    ensures r.Some? ==> forall i, n: nat | pos <= i < r.value.start :: !ShownTokenAt(body, i, n)
    ensures r.None? ==> forall i, n: nat | pos <= i :: !ShownTokenAt(body, i, n)
    decreases |body| - pos
  {
    if pos >= |body| then None
    else
      match ShownMatchAt(body, pos)
      case Some(n) => Some(Match(pos, n))
      case None => NextShown(body, pos + 1)
  }

  // ---------------------------------------------------------------------------------------------
  // The loop

  /** A node of the rendered body. The id of a mention is not shown; it tells which token the node stands for. */
  datatype Node = Text(text: string) | Mention(key: nat, displayName: string, userId: string)

  /** The slice pushed before a match, if it is not empty. */
  function Slice(body: string, from: nat, to: nat): (nodes: seq<Node>)
    requires from <= to <= |body|
    ensures |nodes| <= 1 && forall n <- nodes :: n.Text? && n.text != ""
  {
    if from < to then [Text(body[from..to])] else []
  }

  function NodeOf(body: string, m: Match, key: nat): Node
    requires m.End() <= |body|
  {
    var id := IdIn(body, m.start, m.nameLength);
    if IsUuidText(id) then Mention(key, NameIn(body, m.start, m.nameLength), id)
    else Text(body[m.start..m.End()])
  }

  function KeyAfter(n: Node, key: nat): nat {
    if n.Mention? then key + 1 else key
  }

  /** The nodes for the body from `pos` on, the next styled mention getting `key`. */
  function NodesFrom(body: string, pos: nat, key: nat): seq<Node>
    requires pos <= |body|
    decreases |body| - pos
  {
    match NextShown(body, pos)
    case None => Slice(body, pos, |body|)
    case Some(m) =>
      var node := NodeOf(body, m, key);
      Slice(body, pos, m.start) + ([node] + NodesFrom(body, m.End(), KeyAfter(node, key)))
  }

  method RenderCommentBody(body: string) returns (nodes: seq<Node>)
    ensures nodes == NodesFrom(body, 0, 0)
  {
    nodes := [];
    var lastIndex, key := 0, 0;
    var m := NextShown(body, 0);
    while m.Some?
      invariant lastIndex <= |body| && m == NextShown(body, lastIndex)
      invariant nodes + NodesFrom(body, lastIndex, key) == NodesFrom(body, 0, 0)
      decreases |body| - lastIndex
    {
      var start, end := m.value.start, m.value.End();
      var node := NodeOf(body, m.value, key);
      Regroup(nodes, Slice(body, lastIndex, start), node, NodesFrom(body, end, KeyAfter(node, key)));
      if start > lastIndex {
        nodes := nodes + [Text(body[lastIndex..start])];
      }
      nodes := nodes + [node];
      if node.Mention? {
        key := key + 1;
      }
      lastIndex := end;
      m := NextShown(body, lastIndex);
    }
    assert NodesFrom(body, lastIndex, key) == Slice(body, lastIndex, |body|);
    assert body[lastIndex..] == body[lastIndex..|body|];
    if lastIndex < |body| {
      nodes := nodes + [Text(body[lastIndex..])];
    } else {
      assert nodes + [] == nodes;
    }
  }

  lemma Regroup<T>(done: seq<T>, slice: seq<T>, node: T, rest: seq<T>)
    ensures done + (slice + ([node] + rest)) == (done + slice + [node]) + rest
    ensures slice == [] ==> done + slice == done
  {
  }

  // ---------------------------------------------------------------------------------------------
  // The rendered body is a partition of the source

  /** The source text a node stands for. */
  function SourceOf(n: Node): string {
    match n
    case Text(t) => t
    case Mention(_, name, id) => TokenText(name, id)
  }

  function SourcesOf(nodes: seq<Node>): seq<string> {
    seq(|nodes|, i requires 0 <= i < |nodes| => SourceOf(nodes[i]))
  }

  function Flatten(parts: seq<string>): string {
    if parts == [] then "" else parts[0] + Flatten(parts[1..])
  }

  lemma {:induction false} FlattenConcat(a: seq<string>, b: seq<string>)
    ensures Flatten(a + b) == Flatten(a) + Flatten(b)
  {
    if a == [] {
      assert a + b == b;
    } else {
      FlattenConcat(a[1..], b);
      assert (a + b)[1..] == a[1..] + b;
    }
  }

  lemma FlattenStep(slice: seq<string>, part: string, rest: seq<string>)
    ensures Flatten(slice + ([part] + rest)) == Flatten(slice) + part + Flatten(rest)
  {
    FlattenConcat(slice, [part] + rest);
    assert ([part] + rest)[1..] == rest;
  }

  lemma SourcesOfStep(slice: seq<Node>, node: Node, rest: seq<Node>)
    ensures SourcesOf(slice + ([node] + rest)) == SourcesOf(slice) + ([SourceOf(node)] + SourcesOf(rest))
  {
  }

  lemma SourceOfMatch(body: string, m: Match, key: nat)
    requires ShownTokenAt(body, m.start, m.nameLength)
    ensures SourceOf(NodeOf(body, m, key)) == body[m.start..m.End()]
  {
  }

  lemma SourceOfSlice(body: string, from: nat, to: nat)
    requires from <= to <= |body|
    ensures Flatten(SourcesOf(Slice(body, from, to))) == body[from..to]
  {
    var parts := SourcesOf(Slice(body, from, to));
    if from < to {
      assert parts == [body[from..to]];
    }
  }

  lemma Rejoin(body: string, i: nat, j: nat, k: nat)
    requires i <= j <= k <= |body|
    ensures body[i..j] + body[j..k] + body[k..] == body[i..]
  {
  }

  /** Nothing is lost, repeated or reordered: the nodes' sources, put together, are the body. */
  lemma {:induction false} RenderingPartitions(body: string, pos: nat, key: nat)
    requires pos <= |body|
    ensures Flatten(SourcesOf(NodesFrom(body, pos, key))) == body[pos..]
    decreases |body| - pos
  {
    match NextShown(body, pos)
    case None => SourceOfSlice(body, pos, |body|);
    case Some(m) =>
      var node := NodeOf(body, m, key);
      var slice, rest := Slice(body, pos, m.start), NodesFrom(body, m.End(), KeyAfter(node, key));
      RenderingPartitions(body, m.End(), KeyAfter(node, key));
      SourcesOfStep(slice, node, rest);
      FlattenStep(SourcesOf(slice), SourceOf(node), SourcesOf(rest));
      SourceOfSlice(body, pos, m.start);
      SourceOfMatch(body, m, key);
      Rejoin(body, pos, m.start, m.End());
  }

  // ---------------------------------------------------------------------------------------------
  // What is styled

  function StyledIds(nodes: seq<Node>): seq<string> {
    if nodes == [] then []
    else if nodes[0].Mention? then [nodes[0].userId] + StyledIds(nodes[1..])
    else StyledIds(nodes[1..])
  }

  /** The mention keys from `key` on are consecutive, so no two mentions share one; no text node is empty. */
  predicate KeysCountUp(nodes: seq<Node>, key: nat) {
    nodes != [] ==>
      && (if nodes[0].Mention? then nodes[0].key == key else nodes[0].text != "")
      && KeysCountUp(nodes[1..], KeyAfter(nodes[0], key))
  }

  /** The id segments in canonical form. */
  function CanonicalOnly(raws: seq<string>): seq<string> {
    if raws == [] then []
    else if IsUuidText(raws[0]) then [raws[0]] + CanonicalOnly(raws[1..])
    else CanonicalOnly(raws[1..])
  }

  lemma StyledStep(slice: seq<Node>, node: Node, rest: seq<Node>, key: nat)
    requires |slice| <= 1 && forall n <- slice :: n.Text? && n.text != ""
    requires node.Mention? ==> node.key == key
    requires node.Text? ==> node.text != ""
    requires KeysCountUp(rest, KeyAfter(node, key))
    ensures var nodes := slice + ([node] + rest);
            && StyledIds(nodes) == (if node.Mention? then [node.userId] else []) + StyledIds(rest)
            && KeysCountUp(nodes, key)
  {
    var tail := [node] + rest;
    assert tail[1..] == rest && [] + StyledIds(rest) == StyledIds(rest);
    assert StyledIds(tail) == (if node.Mention? then [node.userId] else []) + StyledIds(rest);
    assert KeysCountUp(tail, key);
    if slice == [] {
      assert slice + tail == tail;
    } else {
      assert slice[0] in slice && (slice + tail)[0] == slice[0] && (slice + tail)[1..] == tail;
    }
  }

  lemma CanonicalStep(raw: string, raws: seq<string>)
    ensures CanonicalOnly([raw] + raws) == (if IsUuidText(raw) then [raw] else []) + CanonicalOnly(raws)
  {
    assert ([raw] + raws)[1..] == raws;
  }

  lemma StyledSlice(slice: seq<Node>, key: nat)
    requires |slice| <= 1 && forall n <- slice :: n.Text? && n.text != ""
    ensures StyledIds(slice) == [] && KeysCountUp(slice, key)
  {
    if slice != [] {
      assert slice[0] in slice && slice[1..] == [];
    }
  }

  // ---------------------------------------------------------------------------------------------
  // Against the backend's tokens

  datatype Token = Token(name: string, id: string)

  function TokenOf(body: string, m: Match): Token
    requires m.End() <= |body|
  {
    Token(NameIn(body, m.start, m.nameLength), IdIn(body, m.start, m.nameLength))
  }

  /** The tokens the backend reads, from `pos` on. */
  function Tokens(body: string, pos: nat): seq<Token>
    decreases |body| - pos
  {
    match NextMatch(body, pos)
    case None => []
    case Some(m) => [TokenOf(body, m)] + Tokens(body, m.End())
  }

  /** The tokens the renderer finds. */
  function ShownTokens(body: string, pos: nat): seq<Token>
    decreases |body| - pos
  {
    match NextShown(body, pos)
    case None => []
    case Some(m) => [TokenOf(body, m)] + ShownTokens(body, m.End())
  }

  function IdsIn(ts: seq<Token>): seq<string> {
    if ts == [] then [] else [ts[0].id] + IdsIn(ts[1..])
  }

  lemma IdsInStep(t: Token, ts: seq<Token>)
    ensures IdsIn([t] + ts) == [t.id] + IdsIn(ts)
  {
    assert ([t] + ts)[1..] == ts;
  }

  /** They carry the id segments of `findall`. */
  lemma {:induction false} TokensHaveTheIds(body: string, pos: nat)
    ensures IdsIn(Tokens(body, pos)) == RawIds(body, pos)
    ensures forall t <- Tokens(body, pos) :: IsName(t.name) && IsRawId(t.id)
    decreases |body| - pos
  {
    RawIdsFollowSearch(body, pos);
    match NextMatch(body, pos)
    case None =>
    case Some(m) =>
      TokensHaveTheIds(body, m.End());
      IdsInStep(TokenOf(body, m), Tokens(body, m.End()));
  }

  function Short(ts: seq<Token>): seq<Token> {
    if ts == [] then []
    else if UnitsOf(ts[0].name) <= 100 then [ts[0]] + Short(ts[1..])
    else Short(ts[1..])
  }

  lemma ShortStep(t: Token, ts: seq<Token>)
    ensures Short([t] + ts) == (if UnitsOf(t.name) <= 100 then [t] else []) + Short(ts)
  {
    assert ([t] + ts)[1..] == ts;
    assert [] + Short(ts) == Short(ts);
  }

  /** Skipping positions that do not match changes nothing. */
  lemma {:induction false} SkipsToNext(body: string, from: nat, to: nat)
    requires from <= to && forall i, n: nat | from <= i < to :: !ShownTokenAt(body, i, n)
    ensures NextShown(body, from) == NextShown(body, to)
    decreases |body| - from
  {
    if from < to && from < |body| {
      assert ShownMatchAt(body, from).None?;
      SkipsToNext(body, from + 1, to);
    }
  }

  /** Inside a token no other one starts: the bracket is only at its beginning. */
  lemma NothingStartsInside(body: string, m: Match, i: nat, n: nat)
    requires TokenAt(body, m.start, m.nameLength) && m.start < i < m.End()
    ensures !TokenAt(body, i, n)
  {
    TokenChars(body, m.start, m.nameLength);
    if TokenAt(body, i, n) {
      TokenChars(body, i, n);
    }
  }

  /** The renderer finds exactly the backend's tokens whose names have at most 100 units. */
  lemma {:induction false} ShownAreTheShort(body: string, pos: nat)
    ensures ShownTokens(body, pos) == Short(Tokens(body, pos))
    decreases |body| - pos
  {
    forall i: nat, n: nat
      ensures ShownTokenAt(body, i, n) <==> TokenAt(body, i, n) && UnitsOf(NameIn(body, i, n)) <= 100 {
      ShownTokensAreTokens(body, i, n);
    }
    match NextMatch(body, pos)
    case None =>
    case Some(m) =>
      ShownAreTheShort(body, m.End());
      ShortStep(TokenOf(body, m), Tokens(body, m.End()));
      SkipsToNext(body, pos, m.start);
      if UnitsOf(NameIn(body, m.start, m.nameLength)) <= 100 {
        assert ShownMatchAt(body, m.start) == Some(m.nameLength);
        assert NextShown(body, m.start) == Some(m);
      } else {
        LongTokenIsSkipped(body, pos, m);
      }
  }

  lemma LongTokenIsSkipped(body: string, pos: nat, m: Match)
    requires NextMatch(body, pos) == Some(m) && UnitsOf(NameIn(body, m.start, m.nameLength)) > 100
    ensures ShownTokens(body, pos) == ShownTokens(body, m.End())
  {
    forall i: nat, n: nat | pos <= i < m.End() ensures !ShownTokenAt(body, i, n) {
      ShownTokensAreTokens(body, i, n);
      if i == m.start {
        if TokenAt(body, i, n) {
          OneMatchPerPosition(body, i, n, m.nameLength);
        }
      } else if i > m.start {
        NothingStartsInside(body, m, i, n);
      }
    }
    SkipsToNext(body, pos, m.End());
  }

  /** Exactly these are styled: of the backend's tokens, in order, those with a canonical id and a name of at
      most 100 units. */
  lemma {:induction false} StyledAreTheCanonicalOnes(body: string, pos: nat, key: nat)
    requires pos <= |body|
    ensures StyledIds(NodesFrom(body, pos, key)) == CanonicalOnly(IdsIn(Short(Tokens(body, pos))))
    ensures KeysCountUp(NodesFrom(body, pos, key), key)
  {
    ShownAreTheShort(body, pos);
    StyledAreShown(body, pos, key);
  }

  lemma {:induction false} StyledAreShown(body: string, pos: nat, key: nat)
    requires pos <= |body|
    ensures StyledIds(NodesFrom(body, pos, key)) == CanonicalOnly(IdsIn(ShownTokens(body, pos)))
    ensures KeysCountUp(NodesFrom(body, pos, key), key)
    decreases |body| - pos
  {
    match NextShown(body, pos)
    case None => StyledSlice(Slice(body, pos, |body|), key);
    case Some(m) =>
      var node := NodeOf(body, m, key);
      StyledAreShown(body, m.End(), KeyAfter(node, key));
      StyledStep(Slice(body, pos, m.start), node, NodesFrom(body, m.End(), KeyAfter(node, key)), key);
      IdsInStep(TokenOf(body, m), ShownTokens(body, m.End()));
      CanonicalStep(IdIn(body, m.start, m.nameLength), IdsIn(ShownTokens(body, m.End())));
  }

  // ---------------------------------------------------------------------------------------------
  // Where the two sides disagree

  /** An id segment with its hyphens where section 4 of RFC 9562 puts them. */
  predicate HyphensInPlace(raw: string) {
    |raw| == 36 && forall i | 0 <= i < 36 :: raw[i] == '-' <==> i in {8, 13, 18, 23}
  }

  lemma CanonicalMeansHyphens(raw: string)
    requires IsRawId(raw)
    ensures IsUuidText(raw) <==> HyphensInPlace(raw)
    ensures IsUuidText(raw) ==> ParseUuid(raw).Some?
  {
    if IsUuidText(raw) {
      UuidTextParses(raw);
    }
  }

  lemma ParsedIdsStep(raw: string, raws: seq<string>)
    ensures ParsedIds([raw] + raws) ==
            (match ParseUuid(raw) case Some(id) => [id] case None => []) + ParsedIds(raws)
  {
    ParsedIdsConcat([raw], raws);
    assert [raw][..0] == [] && ParsedIds([]) == [];
  }

  /** What a token needs to be styled if it denotes a user at all. */
  predicate AllAgree(ts: seq<Token>) {
    forall t <- ts | ParseUuid(t.id).Some? :: HyphensInPlace(t.id) && UnitsOf(t.name) <= 100
  }

  /** Dropping the tokens that are not styled loses nothing exactly if they denote nothing. */
  lemma {:induction false} StyledParse(ts: seq<Token>)
    requires forall t <- ts :: IsRawId(t.id)
    ensures var kept, all := ParsedIds(CanonicalOnly(IdsIn(Short(ts)))), ParsedIds(IdsIn(ts));
            && |kept| <= |all|
            && (|kept| == |all| <==> AllAgree(ts))
            && (AllAgree(ts) ==> kept == all)
  {
    if ts != [] {
      var t, rest := ts[0], ts[1..];
      assert ts == [t] + rest;
      StyledParse(rest);
      ParsedIdsStep(t.id, IdsIn(rest));
      ParsedIdsStep(t.id, CanonicalOnly(IdsIn(Short(rest))));
      CanonicalMeansHyphens(t.id);
      OneMoreStyled(t, rest);
      assert AllAgree(ts) <==> AllAgree([t]) && AllAgree(rest);
    }
  }

  lemma OneMoreStyled(t: Token, rest: seq<Token>)
    ensures CanonicalOnly(IdsIn(Short([t] + rest))) ==
            (if UnitsOf(t.name) <= 100 && IsUuidText(t.id) then [t.id] else []) + CanonicalOnly(IdsIn(Short(rest)))
  {
    ShortStep(t, rest);
    IdsInStep(t, Short(rest));
    CanonicalStep(t.id, IdsIn(Short(rest)));
    assert [] + Short(rest) == Short(rest);
    assert [] + CanonicalOnly(IdsIn(Short(rest))) == CanonicalOnly(IdsIn(Short(rest)));
  }

  lemma {:induction false} StyledIdsAreParsed(ts: seq<Token>)
    requires forall t <- ts :: IsRawId(t.id)
    ensures forall raw <- CanonicalOnly(IdsIn(Short(ts))) ::
              ParseUuid(raw).Some? && ParseUuid(raw).value in ParsedIds(IdsIn(ts))
  {
    if ts != [] {
      var t, rest := ts[0], ts[1..];
      assert ts == [t] + rest;
      StyledIdsAreParsed(rest);
      ParsedIdsStep(t.id, IdsIn(rest));
      CanonicalMeansHyphens(t.id);
      OneMoreStyled(t, rest);
    }
  }

  /** Every styled mention is one the backend extracts; and the two sides take the same mentions exactly if
      every token that denotes a user has its hyphens in the usual places and a name that is short in units. */
  lemma StyledIsExtractedExactly(body: string)
    ensures var styled := StyledIds(NodesFrom(body, 0, 0));
            && (forall raw <- styled :: ParseUuid(raw).Some? && ParseUuid(raw).value in Ids(body))
            && (ParsedIds(styled) == Ids(body) <==> AllAgree(Tokens(body, 0)))
  {
    TokensHaveTheIds(body, 0);
    StyledAreTheCanonicalOnes(body, 0, 0);
    StyledParse(Tokens(body, 0));
    StyledIdsAreParsed(Tokens(body, 0));
  }

  lemma OneToken(name: string, id: string)
    requires IsName(name) && IsRawId(id)
    ensures Tokens(TokenText(name, id), 0) == [Token(name, id)]
    ensures RawIds(TokenText(name, id), 0) == [id]
  {
    var body := TokenText(name, id);
    assert NameIn(body, 0, |name|) == name && IdIn(body, 0, |name|) == id;
    assert body[0..|body|] == body;
    assert TokenAt(body, 0, |name|);
    assert NextMatch(body, 0) == Some(Match(0, |name|)) && NextMatch(body, |body|).None?;
    TokensHaveTheIds(body, 0);
    IdsInStep(Token(name, id), []);
  }

  /** What becomes of a body that is one token. */
  lemma OneTokenRendered(name: string, id: string)
    requires IsName(name) && IsRawId(id)
    ensures var body := TokenText(name, id);
            && StyledIds(NodesFrom(body, 0, 0)) == (if UnitsOf(name) <= 100 && IsUuidText(id) then [id] else [])
            && Ids(body) == match ParseUuid(id) case Some(u) => [u] case None => []
  {
    OneToken(name, id);
    StyledAreTheCanonicalOnes(TokenText(name, id), 0, 0);
    OneMoreStyled(Token(name, id), []);
    assert [Token(name, id)] + [] == [Token(name, id)];
    ParsedIdsStep(id, []);
    assert [id] + [] == [id];
  }

  /** With the hyphens elsewhere, the backend mentions a user where the reader sees plain text. */
  lemma LooseHyphensAreNotStyled(digits: string)
    requires |digits| == 32 && forall i | 0 <= i < 32 :: IsHexDigit(digits[i])
    ensures var body := TokenText("A", "----" + digits);
            Ids(body) == [HexNumber(HexDigitsOf(digits))] && StyledIds(NodesFrom(body, 0, 0)) == []
  {
    LooseIdParses(digits);
    OneTokenRendered("A", "----" + digits);
  }

  /** And with a name that is short in characters and long in units. */
  lemma LongNamesAreNotStyled(name: string, id: string)
    requires IsName(name) && UnitsOf(name) > 100 && IsUuidText(id)
    ensures ParseUuid(id).Some?
    ensures var body := TokenText(name, id);
            Ids(body) == [ParseUuid(id).value] && StyledIds(NodesFrom(body, 0, 0)) == []
  {
    UuidTextParses(id);
    OneTokenRendered(name, id);
  }

  lemma SixtyAstralCharacters()
    ensures var name := seq(60, _ => '\U{1F41E}');
            IsName(name) && UnitsOf(name) == 120
  {
    AstralUnits(60);
  }

  lemma {:induction false} AstralUnits(n: nat)
    ensures UnitsOf(seq(n, _ => '\U{1F41E}')) == 2 * n
  {
    if n > 0 {
      AstralUnits(n - 1);
      assert seq(n, _ => '\U{1F41E}')[1..] == seq(n - 1, _ => '\U{1F41E}');
    }
  }

  /** What the printer prints is never affected: a printed token with a canonical id is styled. */
  lemma PrintedTokensAreStyled(displayName: string, userId: string)
    requires IsUuidText(userId) && SafeName(displayName) != []
    ensures StyledIds(NodesFrom(BuildMentionToken(displayName, userId), 0, 0)) == [userId]
  {
    UuidTextParses(userId);
    OneTokenRendered(SafeName(displayName), userId);
  }

  lemma LooseIdParses(digits: string)
    requires |digits| == 32 && forall i | 0 <= i < 32 :: IsHexDigit(digits[i])
    ensures var id := "----" + digits;
            IsRawId(id) && !IsUuidText(id) && ParseUuid(id) == Some(HexNumber(HexDigitsOf(digits)))
  {
    var id := "----" + digits;
    assert id[0] == '-';
    HexDigitsConcat("----", digits);
    HexDigitsCount(digits);
    assert "----"[..3] == "---" && "---"[..2] == "--" && "--"[..1] == "-" && "-"[..0] == "";
    assert HexDigitsOf("----") == [];
    assert [] + HexDigitsOf(digits) == HexDigitsOf(digits);
  }
}
