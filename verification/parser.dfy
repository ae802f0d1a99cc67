/** The recursive-descent parser. It reads the lexer's tokens lazily, one `advance` at a time,
    so a lexing error surfaces only when the parser reaches the token the lexer could not
    produce. A position is the index of the stream's current token. */
module Parser {

  import opened Wrappers
  import opened Tokens
  import opened Errors
  import opened Lexer
  import LexerFacts
  import opened Ast

  /** What reading the current token's type fails with once the stream is exhausted: a
      `TypeError` on `undefined`. */
  const PastEnd: Error := TypeError("undefined")

  /** A parsed node and the position of the token after it. */
  datatype Parsed<T> = Parsed(node: T, next: nat)

  /** The current token at `pos`: a token the lexer yielded, the error it stopped with, or
      `undefined` once the lexer has finished. */
  function Current(s: Scan, pos: nat): (r: Result<Token, Error>)
    ensures r.Success? <==> pos < |s.tokens|
    ensures r.Success? ==> r.value == s.tokens[pos]
    ensures r.Failure? ==> r.error == (if s.stop.Some? then s.stop.value else PastEnd)
  {
    if pos < |s.tokens| then Success(s.tokens[pos])
    else if s.stop.Some? then Failure(s.stop.value)
    else Failure(PastEnd)
  }

  /** `expect(...types)`: the current token, provided its type is one of `types`. */
  function Expect(s: Scan, pos: nat, types: seq<TokenType>): (r: Result<Token, Error>)
    ensures r.Success? <==> pos < |s.tokens| && s.tokens[pos].tokenType in types
    ensures r.Success? ==> r.value == s.tokens[pos]
    ensures pos < |s.tokens| && s.tokens[pos].tokenType !in types ==>
      r == Failure(UnexpectedTokenError(types, s.tokens[pos]))
    ensures pos >= |s.tokens| ==> r == Current(s, pos)
  {
    var tok :- Current(s, pos);
    if tok.tokenType in types then Success(tok) else Failure(UnexpectedTokenError(types, tok))
  }

  /** The text a URI, NAME or STRLIT token carries. Every such token the lexer yields carries
      text (`Tokens.WellFormed`), so the empty default is never taken on lexed input. */
  function TextOf(v: TokenValue): string {
    if v.Text? then v.text else ""
  }

  /** `uri`: a URI token becomes a `uri` node. */
  function ParseUri(s: Scan, pos: nat): (r: Result<Parsed<Id>, Error>)
    ensures r.Success? <==> pos < |s.tokens| && s.tokens[pos].tokenType == Uri
    ensures r.Success? ==> r.value == Parsed(UriNode(TextOf(s.tokens[pos].value)), pos + 1)
  {
    var tok :- Expect(s, pos, [Uri]);
    Success(Parsed(UriNode(TextOf(tok.value)), pos + 1))
  }

  /** `prefixedUri`: a PREFIXED_URI token becomes a `prefixedUri` node. */
  function ParsePrefixedUri(s: Scan, pos: nat): (r: Result<Parsed<Id>, Error>)
    ensures r.Success? <==> pos < |s.tokens| && s.tokens[pos].tokenType == PrefixedUri
    ensures r.Success? ==> r.value.node.PrefixedUriNode? && r.value.next == pos + 1
    ensures r.Success? && s.tokens[pos].value.PrefixedValue? ==>
      r.value.node == PrefixedUriNode(s.tokens[pos].value.prefix, s.tokens[pos].value.path)
  {
    var tok :- Expect(s, pos, [PrefixedUri]);
    var v := tok.value;
    if v.PrefixedValue? then Success(Parsed(PrefixedUriNode(v.prefix, v.path), pos + 1))
    else Success(Parsed(PrefixedUriNode("", ""), pos + 1))
  }

  /** `id`: a URI or a prefixed URI. */
  function ParseId(s: Scan, pos: nat): (r: Result<Parsed<Id>, Error>)
    ensures r.Success? <==> pos < |s.tokens| && s.tokens[pos].tokenType in {Uri, PrefixedUri}
    ensures r.Success? ==> r.value.next == pos + 1
    ensures r.Success? ==> (r.value.node.UriNode? <==> s.tokens[pos].tokenType == Uri)
    ensures r.Success? && s.tokens[pos].tokenType == Uri ==> r.value.node == UriNode(TextOf(s.tokens[pos].value))
    ensures r.Success? && s.tokens[pos].tokenType == PrefixedUri && s.tokens[pos].value.PrefixedValue? ==>
      r.value.node == PrefixedUriNode(s.tokens[pos].value.prefix, s.tokens[pos].value.path)
    ensures pos < |s.tokens| && s.tokens[pos].tokenType !in {Uri, PrefixedUri} ==>
      r == Failure(UnexpectedTokenError([Uri, PrefixedUri], s.tokens[pos]))
  {
    var tok :- Expect(s, pos, [Uri, PrefixedUri]);
    if tok.tokenType == Uri then ParseUri(s, pos) else ParsePrefixedUri(s, pos)
  }

  /** `name`: the text of a NAME token. */
  function ParseName(s: Scan, pos: nat): (r: Result<Parsed<string>, Error>)
    ensures r.Success? <==> pos < |s.tokens| && s.tokens[pos].tokenType == Name
    ensures r.Success? ==> r.value == Parsed(TextOf(s.tokens[pos].value), pos + 1)
  {
    var tok :- Expect(s, pos, [Name]);
    Success(Parsed(TextOf(tok.value), pos + 1))
  }

  /** `string`: a STRLIT token becomes a `stringLiteral` node. */
  function ParseString(s: Scan, pos: nat): (r: Result<Parsed<Value>, Error>)
    ensures r.Success? <==> pos < |s.tokens| && s.tokens[pos].tokenType == StrLit
    ensures r.Success? ==> r.value == Parsed(StringLiteralNode(TextOf(s.tokens[pos].value)), pos + 1)
  {
    var tok :- Expect(s, pos, [StrLit]);
    Success(Parsed(StringLiteralNode(TextOf(tok.value)), pos + 1))
  }

  /** `prefix`: `@prefix`, a NAME, then a URI (a prefixed URI is refused). */
  function ParsePrefix(s: Scan, pos: nat): (r: Result<Parsed<PrefixDecl>, Error>)
    ensures r.Success? <==>
      pos + 2 < |s.tokens| && s.tokens[pos].tokenType == Prefix
      && s.tokens[pos + 1].tokenType == Name && s.tokens[pos + 2].tokenType == Uri
    ensures r.Success? ==>
      r.value == Parsed(PrefixNode(TextOf(s.tokens[pos + 1].value), TextOf(s.tokens[pos + 2].value)), pos + 3)
    ensures pos < |s.tokens| && s.tokens[pos].tokenType != Prefix ==>
      r == Failure(UnexpectedTokenError([Prefix], s.tokens[pos]))
  {
    var kw :- Expect(s, pos, [Prefix]);
    var name :- ParseName(s, pos + 1);
    var uri :- ParseUri(s, name.next);
    Success(Parsed(PrefixNode(name.node, uri.node.value), uri.next))
  }

  /** `prefixList`: the declarations before the query's context, which starts with the first
      URI or prefixed URI. */
  function ParsePrefixList(s: Scan, pos: nat): (r: Result<Parsed<seq<PrefixDecl>>, Error>)
    ensures r.Success? ==> pos <= r.value.next < |s.tokens|
    ensures r.Success? ==> s.tokens[r.value.next].tokenType in {Uri, PrefixedUri}
    ensures r.Success? ==> r.value.next == pos + 3 * |r.value.node|
    ensures pos < |s.tokens| && s.tokens[pos].tokenType !in [Prefix, Uri, PrefixedUri] ==>
      r == Failure(UnexpectedTokenError([Prefix, Uri, PrefixedUri], s.tokens[pos]))
  {
    var first :- Expect(s, pos, [Prefix, Uri, PrefixedUri]);
    PrefixLoop(s, pos, [])
  }

  /** The `while` loop of `prefixList`: each declaration consumes three tokens. */
  function PrefixLoop(s: Scan, pos: nat, acc: seq<PrefixDecl>): (r: Result<Parsed<seq<PrefixDecl>>, Error>)
    ensures r.Success? ==> pos <= r.value.next < |s.tokens|
    ensures r.Success? ==> s.tokens[r.value.next].tokenType in {Uri, PrefixedUri}
    ensures r.Success? ==> |r.value.node| >= |acc| && r.value.next == pos + 3 * (|r.value.node| - |acc|)
    ensures r.Success? ==> r.value.node[..|acc|] == acc
    decreases |s.tokens| - pos
  {
    var tok :- Current(s, pos);
    if tok.tokenType == Uri || tok.tokenType == PrefixedUri then Success(Parsed(acc, pos))
    else
      var p :- ParsePrefix(s, pos);
      var rest := PrefixLoop(s, p.next, acc + [p.node]);
      if rest.Failure? then rest
      else
        var out := rest.value.node;
        assert out[..|acc|] == acc by {
          assert out[..|acc|] == out[..|acc| + 1][..|acc|];
        }
        rest
  }

  /** The token types `nodeSpecifier` accepts, in the order its handlers are listed. */
  const NodeSpecifierStarts: seq<TokenType> := [Arrow, LParen, LBrace]

  /** The token types `match` accepts after the predicate. */
  const MatchValueStarts: seq<TokenType> := [Uri, PrefixedUri, StrLit, LParen]

  /** The token types `selector` accepts after the edge: the first four end a leaf selector, the
      last three start a nested context-sensitive query. */
  const SelectorFollows: seq<TokenType> := [Uri, LSquare, PrefixedUri, RBrace, LParen, LBrace, Arrow]

  /** The token types `edge` accepts. */
  const EdgeStarts: seq<TokenType> := [LSquare, Uri, PrefixedUri]

  /** `contextSensitiveQuery`: a node specifier, then a traversal. */
  function ParseCsq(s: Scan, pos: nat): (r: Result<Parsed<ContextSensitiveQuery>, Error>)
    ensures r.Success? ==> pos < r.value.next <= |s.tokens|
    decreases |s.tokens| - pos, 4
  {
    var ns :- ParseNodeSpecifier(s, pos);
    var tr :- ParseTraversal(s, ns.next);
    Success(Parsed(ContextSensitiveQueryNode(ns.node, tr.node), tr.next))
  }

  /** `nodeSpecifier`: `=>( … )` matches graphs, `( … )` matches subjects, and a `{` (left for
      the traversal) means no specifier. */
  function ParseNodeSpecifier(s: Scan, pos: nat): (r: Result<Parsed<NodeSpecifier>, Error>)
    ensures r.Success? ==> pos <= r.value.next <= |s.tokens|
    decreases |s.tokens| - pos, 3
  {
    // The trailing `expect(RPAREN)` always passes: a match list ends only at a `)`.
    var tok :- Expect(s, pos, NodeSpecifierStarts);
    if tok.tokenType == Arrow then
      var open :- Expect(s, pos + 1, [LParen]);
      var ms :- ParseMatchList(s, pos + 2);
      Success(Parsed(MatchingNodeSpecifier(Graph, ms.node), ms.next + 1))
    else if tok.tokenType == LParen then
      var ms :- ParseMatchList(s, pos + 1);
      Success(Parsed(MatchingNodeSpecifier(Subject, ms.node), ms.next + 1))
    else
      Success(Parsed(EmptyNodeSpecifier, pos))
  }

  /** `matchList`: matches up to (not including) the closing `)`. */
  function ParseMatchList(s: Scan, pos: nat): (r: Result<Parsed<seq<Match>>, Error>)
    ensures r.Success? ==> pos <= r.value.next < |s.tokens|
    decreases |s.tokens| - pos, 2
  {
    var first :- Expect(s, pos, [Uri, PrefixedUri, RParen]);
    MatchLoop(s, pos, [])
  }

  /** The `while` loop of `matchList`. */
  function MatchLoop(s: Scan, pos: nat, acc: seq<Match>): (r: Result<Parsed<seq<Match>>, Error>)
    ensures r.Success? ==> pos <= r.value.next < |s.tokens|
    decreases |s.tokens| - pos, 1
  {
    var tok :- Current(s, pos);
    if tok.tokenType == RParen then Success(Parsed(acc, pos))
    else
      var m :- ParseMatch(s, pos);
      MatchLoop(s, m.next, acc + [m.node])
  }

  /** `match`: a predicate, then a URI, prefixed URI or string (a leaf match) or a
      parenthesised subject specifier (an intermediate match). */
  function ParseMatch(s: Scan, pos: nat): (r: Result<Parsed<Match>, Error>)
    ensures r.Success? ==> pos < r.value.next <= |s.tokens|
    decreases |s.tokens| - pos, 0
  {
    var pred :- ParseId(s, pos);
    // Each handler re-checks the token `when` has already checked, so it cannot fail.
    var tok :- Expect(s, pred.next, MatchValueStarts);
    if tok.tokenType == Uri then
      var v := ParseUri(s, pred.next).value;
      Success(Parsed(LeafMatch(pred.node, IdValue(v.node)), v.next))
    else if tok.tokenType == PrefixedUri then
      var v := ParsePrefixedUri(s, pred.next).value;
      Success(Parsed(LeafMatch(pred.node, IdValue(v.node)), v.next))
    else if tok.tokenType == StrLit then
      var v := ParseString(s, pred.next).value;
      Success(Parsed(LeafMatch(pred.node, v.node), v.next))
    else
      var ns :- ParseNodeSpecifier(s, pred.next);
      Success(Parsed(IntermediateMatch(pred.node, ns.node), ns.next))
  }

  /** `traversal`: `{`, the selectors, `}`. */
  function ParseTraversal(s: Scan, pos: nat): (r: Result<Parsed<Traversal>, Error>)
    ensures r.Success? ==> pos < r.value.next <= |s.tokens|
    decreases |s.tokens| - pos, 3
  {
    // The `expect(RBRACE)` always passes: the selector list ends only at a `}`.
    var open :- Expect(s, pos, [LBrace]);
    var sels :- SelectorLoop(s, pos + 1, []);
    Success(Parsed(TraversalNode(sels.node), sels.next + 1))
  }

  /** `selectorList`: selectors up to (not including) the closing `}`. */
  function SelectorLoop(s: Scan, pos: nat, acc: seq<Selector>): (r: Result<Parsed<seq<Selector>>, Error>)
    ensures r.Success? ==> pos <= r.value.next < |s.tokens|
    decreases |s.tokens| - pos, 2
  {
    var tok :- Current(s, pos);
    if tok.tokenType == RBrace then Success(Parsed(acc, pos))
    else
      var sel :- ParseSelector(s, pos);
      SelectorLoop(s, sel.next, acc + [sel.node])
  }

  /** `selector`: an edge, then the token after it decides. A URI, `[`, prefixed URI or `}`
      ends a leaf selector (and is not consumed); `(`, `{` or `=>` starts a nested query. */
  function ParseSelector(s: Scan, pos: nat): (r: Result<Parsed<Selector>, Error>)
    ensures r.Success? ==> pos < r.value.next <= |s.tokens|
    decreases |s.tokens| - pos, 1
  {
    var e :- ParseEdge(s, pos);
    var tok :- Expect(s, e.next, SelectorFollows);
    if tok.tokenType in {Uri, LSquare, PrefixedUri, RBrace} then
      Success(Parsed(LeafSelector(e.node), e.next))
    else
      var q :- ParseCsq(s, e.next);
      Success(Parsed(IntermediateSelector(e.node, q.node), q.next))
  }

  /** `edge`: a single edge is an id; `[` id X is a multi edge, where X is skipped whatever it is. */
  function ParseEdge(s: Scan, pos: nat): (r: Result<Parsed<Edge>, Error>)
    ensures r.Success? ==> pos < |s.tokens| && s.tokens[pos].tokenType in EdgeStarts
    ensures r.Success? ==> (r.value.node.MultiEdge? <==> s.tokens[pos].tokenType == LSquare)
    ensures r.Success? && r.value.node.MultiEdge? ==> r.value.next == pos + 3 && pos + 1 < |s.tokens|
    ensures r.Success? && r.value.node.SingleEdge? ==> r.value.next == pos + 1
    ensures r.Success? && r.value.node.SingleEdge? ==> ParseId(s, pos).Success? && r.value.node.pred == ParseId(s, pos).value.node
    ensures r.Success? && r.value.node.MultiEdge? ==>
      ParseId(s, pos + 1).Success? && r.value.node.pred == ParseId(s, pos + 1).value.node
    ensures pos < |s.tokens| && s.tokens[pos].tokenType !in EdgeStarts ==>
      r == Failure(UnexpectedTokenError(EdgeStarts, s.tokens[pos]))
  {
    var tok :- Expect(s, pos, EdgeStarts);
    if tok.tokenType == LSquare then
      var pred :- ParseId(s, pos + 1);
      Success(Parsed(MultiEdge(pred.node), pred.next + 1))
    else
      var pred :- ParseId(s, pos);
      Success(Parsed(SingleEdge(pred.node), pred.next))
  }

  /** `query`: prefixes, the context id, a context-sensitive query, and then the end of input. */
  function ParseQuery(s: Scan): (r: Result<Query, Error>)
    ensures r.Success? ==> 0 < |s.tokens| && s.tokens[0].tokenType in {Prefix, Uri, PrefixedUri}
    ensures r.Success? ==> !NoEof(s.tokens)
    ensures 0 < |s.tokens| && s.tokens[0].tokenType !in [Prefix, Uri, PrefixedUri] ==>
      r == Failure(UnexpectedTokenError([Prefix, Uri, PrefixedUri], s.tokens[0]))
    ensures |s.tokens| == 0 ==> r == Failure(if s.stop.Some? then s.stop.value else PastEnd)
  {
    var pl :- ParsePrefixList(s, 0);
    var ctx :- ParseId(s, pl.next);
    var q :- ParseCsq(s, ctx.next);
    var eof :- Expect(s, q.next, [Eof]);
    Success(QueryNode(pl.node, ctx.node, q.node))
  }

  /** `parse(input)`: the query the text denotes. */
  function Parse(input: string, isWebUri: string -> bool): (r: Result<Query, Error>)
    ensures r.Success? ==> Lex(input, isWebUri).Success?
    ensures Tokenize(input, isWebUri).tokens == [] ==>
      Lex(input, isWebUri).Failure? && r == Failure(Lex(input, isWebUri).error)
  {
    LexerFacts.LexFailsWithoutEof(input, isWebUri);
    ParseQuery(Tokenize(input, isWebUri))
  }
}
