/** What the parser accepts and builds: a stream that holds the tokens of a node, rule by rule,
    parses back to that node, and the rejections the grammar promises. */
module ParserLemmas {

  import opened Wrappers
  import opened Tokens
  import opened Errors
  import opened Lexer
  import opened LexerLemmas
  import opened LexerFacts
  import opened Ast
  import opened Parser

  // ---------------------------------------------------------------------------------------------
  // The tokens that spell each node

  const ArrowLex: Lexeme := (Arrow, Text("=>"))
  const PrefixLex: Lexeme := (Prefix, Text("@prefix"))
  const LParenLex: Lexeme := (LParen, Text("("))
  const RParenLex: Lexeme := (RParen, Text(")"))
  const LBraceLex: Lexeme := (LBrace, Text("{"))
  const RBraceLex: Lexeme := (RBrace, Text("}"))
  const LSquareLex: Lexeme := (LSquare, Text("["))
  const RSquareLex: Lexeme := (RSquare, Text("]"))
  const EofLex: Lexeme := (Eof, Null)

  function IdLex(n: Id): Lexeme {
    match n
    case UriNode(v) => (Uri, Text(v))
    case PrefixedUriNode(p, q) => (PrefixedUri, PrefixedValue(p, q))
  }

  function ValueLex(n: Value): Lexeme {
    match n
    case IdValue(i) => IdLex(i)
    case StringLiteralNode(v) => (StrLit, Text(v))
  }

  /** The number of tokens each node is spelled with. A list's count leaves out its closing
      bracket. */
  function NodeSpecifierLen(n: NodeSpecifier): nat
    decreases n, 1
  {
    match n
    case MatchingNodeSpecifier(Graph, ms) => 3 + MatchesLen(ms)
    case MatchingNodeSpecifier(Subject, ms) => 2 + MatchesLen(ms)
    case EmptyNodeSpecifier => 0
  }

  function MatchLen(m: Match): nat
    decreases m, 1
  {
    match m
    case LeafMatch(_, _) => 2
    case IntermediateMatch(_, n) => 1 + NodeSpecifierLen(n)
  }

  function MatchesLen(ms: seq<Match>): nat
    decreases ms, 0
  {
    if ms == [] then 0 else MatchLen(ms[0]) + MatchesLen(ms[1..])
  }

  function EdgeLen(e: Edge): nat {
    if e.MultiEdge? then 3 else 1
  }

  function SelectorLen(sel: Selector): nat
    decreases sel, 1
  {
    match sel
    case LeafSelector(e) => EdgeLen(e)
    case IntermediateSelector(e, q) => EdgeLen(e) + CsqLen(q)
  }

  function SelectorsLen(sels: seq<Selector>): nat
    decreases sels, 0
  {
    if sels == [] then 0 else SelectorLen(sels[0]) + SelectorsLen(sels[1..])
  }

  function TraversalLen(t: Traversal): nat
    decreases t, 1
  {
    2 + SelectorsLen(t.selectorList)
  }

  function CsqLen(q: ContextSensitiveQuery): nat
    decreases q, 2
  {
    NodeSpecifierLen(q.nodeSpecifier) + TraversalLen(q.traversal)
  }

  function QueryLen(q: Query): nat {
    3 * |q.prefixList| + 1 + CsqLen(q.contextSensitiveQuery)
  }

  // ---------------------------------------------------------------------------------------------
  // The stream holds a node at a position

  /** The token at `pos` has the type and value of `l`. */
  predicate TokAt(s: Scan, pos: nat, l: Lexeme) {
    pos < |s.tokens| && Strip(s.tokens[pos]) == l
  }

  /** A node specifier is spelled `=> ( matches )`, `( matches )` or not at all. */
  predicate NodeSpecifierAt(s: Scan, pos: nat, n: NodeSpecifier)
    decreases n, 1
  {
    match n
    case MatchingNodeSpecifier(Graph, ms) =>
      TokAt(s, pos, ArrowLex) && TokAt(s, pos + 1, LParenLex) && MatchListAt(s, pos + 2, ms)
    case MatchingNodeSpecifier(Subject, ms) =>
      TokAt(s, pos, LParenLex) && MatchListAt(s, pos + 1, ms)
    case EmptyNodeSpecifier => true
  }

  /** A match is its predicate, then a value or a parenthesised subject specifier: a nested
      specifier can only be read as one of subjects. */
  predicate MatchAt(s: Scan, pos: nat, m: Match)
    decreases m, 1
  {
    match m
    case LeafMatch(p, v) => TokAt(s, pos, IdLex(p)) && TokAt(s, pos + 1, ValueLex(v))
    case IntermediateMatch(p, n) =>
      TokAt(s, pos, IdLex(p)) && n.MatchingNodeSpecifier? && n.contextType == Subject
      && NodeSpecifierAt(s, pos + 1, n)
  }

  /** The matches, then the closing `)`. */
  predicate MatchListAt(s: Scan, pos: nat, ms: seq<Match>)
    decreases ms, 0
  {
    if ms == [] then TokAt(s, pos, RParenLex)
    else MatchAt(s, pos, ms[0]) && MatchListAt(s, pos + MatchLen(ms[0]), ms[1..])
  }

  predicate EdgeAt(s: Scan, pos: nat, e: Edge) {
    match e
    case SingleEdge(p) => TokAt(s, pos, IdLex(p))
    case MultiEdge(p) => TokAt(s, pos, LSquareLex) && TokAt(s, pos + 1, IdLex(p)) && TokAt(s, pos + 2, RSquareLex)
  }

  predicate SelectorAt(s: Scan, pos: nat, sel: Selector)
    decreases sel, 1
  {
    EdgeAt(s, pos, sel.edge)
    && (sel.IntermediateSelector? ==> CsqAt(s, pos + EdgeLen(sel.edge), sel.contextSensitiveQuery))
  }

  /** The selectors, then the closing `}`. */
  predicate SelectorListAt(s: Scan, pos: nat, sels: seq<Selector>)
    decreases sels, 0
  {
    if sels == [] then TokAt(s, pos, RBraceLex)
    else SelectorAt(s, pos, sels[0]) && SelectorListAt(s, pos + SelectorLen(sels[0]), sels[1..])
  }

  predicate TraversalAt(s: Scan, pos: nat, t: Traversal)
    decreases t, 1
  {
    TokAt(s, pos, LBraceLex) && SelectorListAt(s, pos + 1, t.selectorList)
  }

  predicate CsqAt(s: Scan, pos: nat, q: ContextSensitiveQuery)
    decreases q, 2
  {
    NodeSpecifierAt(s, pos, q.nodeSpecifier) && TraversalAt(s, pos + NodeSpecifierLen(q.nodeSpecifier), q.traversal)
  }

  /** Each declaration is `@prefix`, its name and its URI. */
  predicate PrefixesAt(s: Scan, pos: nat, ps: seq<PrefixDecl>)
    decreases ps
  {
    ps != [] ==>
      TokAt(s, pos, PrefixLex) && TokAt(s, pos + 1, (Name, Text(ps[0].name)))
      && TokAt(s, pos + 2, (Uri, Text(ps[0].uri))) && PrefixesAt(s, pos + 3, ps[1..])
  }

  /** The stream starts with the tokens of `q`. */
  predicate QueryAt(s: Scan, q: Query) {
    PrefixesAt(s, 0, q.prefixList) && TokAt(s, 3 * |q.prefixList|, IdLex(q.context))
    && CsqAt(s, 3 * |q.prefixList| + 1, q.contextSensitiveQuery)
  }

  /** The first token of a match list, or its `)`. */
  lemma MatchListHead(s: Scan, pos: nat, ms: seq<Match>)
    requires MatchListAt(s, pos, ms)
    ensures pos < |s.tokens| && s.tokens[pos].tokenType in {Uri, PrefixedUri, RParen}
    ensures ms != [] ==> s.tokens[pos].tokenType != RParen
  {
  }

  /** The first token of a selector list, or its `}`. */
  lemma SelectorListHead(s: Scan, pos: nat, sels: seq<Selector>)
    requires SelectorListAt(s, pos, sels)
    ensures pos < |s.tokens| && s.tokens[pos].tokenType in {Uri, LSquare, PrefixedUri, RBrace}
    ensures sels != [] ==> s.tokens[pos].tokenType != RBrace
  {
  }

  /** The three tokens of the first declaration. */
  lemma PrefixesHead(s: Scan, pos: nat, ps: seq<PrefixDecl>)
    requires ps != [] && PrefixesAt(s, pos, ps)
    ensures pos + 2 < |s.tokens| && s.tokens[pos].tokenType == Prefix
    ensures s.tokens[pos + 1].tokenType == Name && s.tokens[pos + 2].tokenType == Uri
    ensures ps[0] == PrefixNode(TextOf(s.tokens[pos + 1].value), TextOf(s.tokens[pos + 2].value))
    ensures PrefixesAt(s, pos + 3, ps[1..])
  {
  }

  /** A non-empty match list: its first match, then the rest. */
  lemma MatchListCons(s: Scan, pos: nat, ms: seq<Match>)
    requires ms != [] && MatchListAt(s, pos, ms)
    ensures pos < |s.tokens| && s.tokens[pos].tokenType != RParen
    ensures MatchAt(s, pos, ms[0]) && MatchListAt(s, pos + MatchLen(ms[0]), ms[1..])
    ensures MatchesLen(ms) == MatchLen(ms[0]) + MatchesLen(ms[1..])
  {
    MatchListHead(s, pos, ms);
  }

  /** A non-empty selector list: its first selector, then the rest, which starts with a selector or `}`. */
  lemma SelectorListCons(s: Scan, pos: nat, sels: seq<Selector>)
    requires sels != [] && SelectorListAt(s, pos, sels)
    ensures pos < |s.tokens| && s.tokens[pos].tokenType != RBrace
    ensures SelectorAt(s, pos, sels[0]) && SelectorListAt(s, pos + SelectorLen(sels[0]), sels[1..])
    ensures var next := pos + SelectorLen(sels[0]);
      next < |s.tokens| && s.tokens[next].tokenType in {Uri, LSquare, PrefixedUri, RBrace}
    ensures SelectorsLen(sels) == SelectorLen(sels[0]) + SelectorsLen(sels[1..])
  {
    SelectorListHead(s, pos, sels);
    SelectorListHead(s, pos + SelectorLen(sels[0]), sels[1..]);
  }

  lemma ConsAppend<T>(acc: seq<T>, xs: seq<T>)
    requires xs != []
    ensures acc + [xs[0]] + xs[1..] == acc + xs
  {
    assert [xs[0]] + xs[1..] == xs;
  }

  /** The first token of a context-sensitive query. */
  lemma CsqHead(s: Scan, pos: nat, q: ContextSensitiveQuery)
    requires CsqAt(s, pos, q)
    ensures pos < |s.tokens| && s.tokens[pos].tokenType in {LParen, LBrace, Arrow}
  {
  }

  // ---------------------------------------------------------------------------------------------
  // One step of each loop and rule, from the results of its parts

  lemma MatchLoopStep(s: Scan, pos: nat, acc: seq<Match>, m: Match, next: nat, res: seq<Match>, end: nat)
    requires pos < |s.tokens| && s.tokens[pos].tokenType != RParen
    requires ParseMatch(s, pos) == Success(Parsed(m, next))
    requires MatchLoop(s, next, acc + [m]) == Success(Parsed(res, end))
    ensures MatchLoop(s, pos, acc) == Success(Parsed(res, end))
  {
  }

  lemma SelectorLoopStep(s: Scan, pos: nat, acc: seq<Selector>, sel: Selector, next: nat, res: seq<Selector>, end: nat)
    requires pos < |s.tokens| && s.tokens[pos].tokenType != RBrace
    requires ParseSelector(s, pos) == Success(Parsed(sel, next))
    requires SelectorLoop(s, next, acc + [sel]) == Success(Parsed(res, end))
    ensures SelectorLoop(s, pos, acc) == Success(Parsed(res, end))
  {
  }

  lemma PrefixLoopStep(s: Scan, pos: nat, acc: seq<PrefixDecl>, p: PrefixDecl, res: seq<PrefixDecl>, end: nat)
    requires pos + 2 < |s.tokens| && s.tokens[pos].tokenType == Prefix
    requires s.tokens[pos + 1].tokenType == Name && s.tokens[pos + 2].tokenType == Uri
    requires p == PrefixNode(TextOf(s.tokens[pos + 1].value), TextOf(s.tokens[pos + 2].value))
    requires PrefixLoop(s, pos + 3, acc + [p]) == Success(Parsed(res, end))
    ensures PrefixLoop(s, pos, acc) == Success(Parsed(res, end))
  {
    assert ParsePrefix(s, pos) == Success(Parsed(p, pos + 3));
  }

  lemma GraphSpecifierStep(s: Scan, pos: nat, ms: seq<Match>, next: nat, end: nat)
    requires pos + 2 < |s.tokens| && s.tokens[pos].tokenType == Arrow && s.tokens[pos + 1].tokenType == LParen
    requires s.tokens[pos + 2].tokenType in {Uri, PrefixedUri, RParen}
    requires MatchLoop(s, pos + 2, []) == Success(Parsed(ms, next)) && end == next + 1
    ensures ParseNodeSpecifier(s, pos) == Success(Parsed(MatchingNodeSpecifier(Graph, ms), end))
  {
  }

  lemma SubjectSpecifierStep(s: Scan, pos: nat, ms: seq<Match>, next: nat, end: nat)
    requires pos + 1 < |s.tokens| && s.tokens[pos].tokenType == LParen
    requires s.tokens[pos + 1].tokenType in {Uri, PrefixedUri, RParen}
    requires MatchLoop(s, pos + 1, []) == Success(Parsed(ms, next)) && end == next + 1
    ensures ParseNodeSpecifier(s, pos) == Success(Parsed(MatchingNodeSpecifier(Subject, ms), end))
  {
  }

  lemma IntermediateMatchStep(s: Scan, pos: nat, p: Id, n: NodeSpecifier, next: nat)
    requires ParseId(s, pos) == Success(Parsed(p, pos + 1))
    requires pos + 1 < |s.tokens| && s.tokens[pos + 1].tokenType == LParen
    requires ParseNodeSpecifier(s, pos + 1) == Success(Parsed(n, next))
    ensures ParseMatch(s, pos) == Success(Parsed(IntermediateMatch(p, n), next))
  {
  }

  lemma IntermediateSelectorStep(s: Scan, pos: nat, e: Edge, k: nat, q: ContextSensitiveQuery, next: nat)
    requires ParseEdge(s, pos) == Success(Parsed(e, k))
    requires k < |s.tokens| && s.tokens[k].tokenType in {LParen, LBrace, Arrow}
    requires ParseCsq(s, k) == Success(Parsed(q, next))
    ensures ParseSelector(s, pos) == Success(Parsed(IntermediateSelector(e, q), next))
  {
  }

  lemma LeafSelectorStep(s: Scan, pos: nat, e: Edge, k: nat)
    requires ParseEdge(s, pos) == Success(Parsed(e, k))
    requires k < |s.tokens| && s.tokens[k].tokenType in {Uri, LSquare, PrefixedUri, RBrace}
    ensures ParseSelector(s, pos) == Success(Parsed(LeafSelector(e), k))
  {
  }

  lemma TraversalStep(s: Scan, pos: nat, sels: seq<Selector>, next: nat, end: nat)
    requires pos < |s.tokens| && s.tokens[pos].tokenType == LBrace
    requires SelectorLoop(s, pos + 1, []) == Success(Parsed(sels, next)) && end == next + 1
    ensures ParseTraversal(s, pos) == Success(Parsed(TraversalNode(sels), end))
  {
    assert Expect(s, pos, [LBrace]) == Success(s.tokens[pos]);
  }

  lemma CsqStep(s: Scan, pos: nat, n: NodeSpecifier, k: nat, t: Traversal, next: nat)
    requires ParseNodeSpecifier(s, pos) == Success(Parsed(n, k))
    requires ParseTraversal(s, k) == Success(Parsed(t, next))
    ensures ParseCsq(s, pos) == Success(Parsed(ContextSensitiveQueryNode(n, t), next))
  {
  }

  lemma QueryStep(s: Scan, ps: seq<PrefixDecl>, k: nat, ctx: Id, q: ContextSensitiveQuery, end: nat)
    requires 0 < |s.tokens| && s.tokens[0].tokenType in {Prefix, Uri, PrefixedUri}
    requires PrefixLoop(s, 0, []) == Success(Parsed(ps, k))
    requires ParseId(s, k) == Success(Parsed(ctx, k + 1))
    requires ParseCsq(s, k + 1) == Success(Parsed(q, end))
    ensures var eof := Expect(s, end, [Eof]);
      ParseQuery(s) == if eof.Success? then Success(QueryNode(ps, ctx, q)) else Failure(eof.error)
  {
  }

  // ---------------------------------------------------------------------------------------------
  // What each recursive rule accepts

  /** `nodeSpecifier` dispatches on the current token: `{` gives the empty specifier without
      consuming it, `(` a subject specifier, `=>` a graph specifier, anything else is rejected. */
  lemma NodeSpecifierKind(s: Scan, pos: nat)
    ensures var r := ParseNodeSpecifier(s, pos);
      && (r.Success? ==> pos < |s.tokens| && s.tokens[pos].tokenType in NodeSpecifierStarts)
      && (r.Success? ==> (r.value.node.EmptyNodeSpecifier? <==> s.tokens[pos].tokenType == LBrace))
      && (r.Success? && r.value.node.MatchingNodeSpecifier? ==>
            (r.value.node.contextType == Graph <==> s.tokens[pos].tokenType == Arrow))
      && (pos < |s.tokens| && s.tokens[pos].tokenType == LBrace ==> r == Success(Parsed(EmptyNodeSpecifier, pos)))
      && (pos < |s.tokens| && s.tokens[pos].tokenType !in NodeSpecifierStarts ==>
            r == Failure(UnexpectedTokenError(NodeSpecifierStarts, s.tokens[pos])))
  {
  }

  /** `matchList` starts with a predicate or the closing `)`, and anything else is rejected. */
  lemma MatchListRejects(s: Scan, pos: nat)
    requires pos < |s.tokens| && s.tokens[pos].tokenType !in [Uri, PrefixedUri, RParen]
    ensures ParseMatchList(s, pos) == Failure(UnexpectedTokenError([Uri, PrefixedUri, RParen], s.tokens[pos]))
  {
  }

  /** The token after a match's predicate decides its kind: `(` makes an intermediate match,
      whose nested specifier is always one of subjects; a value makes a leaf match. */
  lemma MatchKind(s: Scan, pos: nat)
    ensures var r := ParseMatch(s, pos);
      && (r.Success? ==> pos + 1 < |s.tokens|)
      && (r.Success? ==> (r.value.node.IntermediateMatch? <==> s.tokens[pos + 1].tokenType == LParen))
      && (r.Success? && r.value.node.IntermediateMatch? ==>
            r.value.node.nodeSpecifier.MatchingNodeSpecifier? && r.value.node.nodeSpecifier.contextType == Subject)
      && (r.Success? && r.value.node.LeafMatch? ==> s.tokens[pos + 1].tokenType in {Uri, PrefixedUri, StrLit})
  {
    var r := ParseMatch(s, pos);
    if r.Success? && r.value.node.IntermediateMatch? {
      NodeSpecifierKind(s, pos + 1);
    }
  }

  /** A traversal must open with `{`. */
  lemma TraversalRejects(s: Scan, pos: nat)
    requires pos < |s.tokens| && s.tokens[pos].tokenType != LBrace
    ensures ParseTraversal(s, pos) == Failure(UnexpectedTokenError([LBrace], s.tokens[pos]))
  {
  }

  /** The match loop stops only at a `)`. */
  lemma {:induction false} MatchLoopEnds(s: Scan, pos: nat, acc: seq<Match>)
    requires MatchLoop(s, pos, acc).Success?
    ensures var next := MatchLoop(s, pos, acc).value.next;
      next < |s.tokens| && s.tokens[next].tokenType == RParen
    decreases |s.tokens| - pos
  {
    if s.tokens[pos].tokenType != RParen {
      var m := ParseMatch(s, pos).value;
      MatchLoopEnds(s, m.next, acc + [m.node]);
    }
  }

  /** The selector loop stops only at a `}`. */
  lemma {:induction false} SelectorLoopEnds(s: Scan, pos: nat, acc: seq<Selector>)
    requires SelectorLoop(s, pos, acc).Success?
    ensures var next := SelectorLoop(s, pos, acc).value.next;
      next < |s.tokens| && s.tokens[next].tokenType == RBrace
    decreases |s.tokens| - pos
  {
    if s.tokens[pos].tokenType != RBrace {
      var sel := ParseSelector(s, pos).value;
      SelectorLoopEnds(s, sel.next, acc + [sel.node]);
    }
  }

  // ---------------------------------------------------------------------------------------------
  // Round trip, one grammar rule at a time

  lemma IdRoundTrip(s: Scan, pos: nat, n: Id)
    requires TokAt(s, pos, IdLex(n))
    ensures ParseId(s, pos) == Success(Parsed(n, pos + 1))
  {
  }

  lemma EdgeRoundTrip(s: Scan, pos: nat, e: Edge)
    requires EdgeAt(s, pos, e)
    ensures ParseEdge(s, pos) == Success(Parsed(e, pos + EdgeLen(e)))
  {
    if e.MultiEdge? {
      IdRoundTrip(s, pos + 1, e.pred);
    } else {
      IdRoundTrip(s, pos, e.pred);
    }
  }

  lemma {:induction false} NodeSpecifierRoundTrip(s: Scan, pos: nat, n: NodeSpecifier, next: nat)
    requires NodeSpecifierAt(s, pos, n) == true && next == pos + NodeSpecifierLen(n)
    requires n.EmptyNodeSpecifier? ==> TokAt(s, pos, LBraceLex)
    ensures ParseNodeSpecifier(s, pos) == Success(Parsed(n, next))
    decreases n, 1
  {
    match n
    case EmptyNodeSpecifier =>
    case MatchingNodeSpecifier(Graph, ms) => GraphRoundTrip(s, pos, ms, next);
    case MatchingNodeSpecifier(Subject, ms) => SubjectRoundTrip(s, pos, ms, next);
  }

  lemma {:induction false} GraphRoundTrip(s: Scan, pos: nat, ms: seq<Match>, next: nat)
    requires TokAt(s, pos, ArrowLex) && TokAt(s, pos + 1, LParenLex) && MatchListAt(s, pos + 2, ms)
    requires next == pos + 3 + MatchesLen(ms)
    ensures ParseNodeSpecifier(s, pos) == Success(Parsed(MatchingNodeSpecifier(Graph, ms), next))
    decreases ms, 3
  {
    var close := pos + 2 + MatchesLen(ms);
    MatchListHead(s, pos + 2, ms);
    MatchListRoundTrip(s, pos + 2, ms, close);
    GraphSpecifierStep(s, pos, ms, close, next);
  }

  lemma {:induction false} SubjectRoundTrip(s: Scan, pos: nat, ms: seq<Match>, next: nat)
    requires TokAt(s, pos, LParenLex) && MatchListAt(s, pos + 1, ms)
    requires next == pos + 2 + MatchesLen(ms)
    ensures ParseNodeSpecifier(s, pos) == Success(Parsed(MatchingNodeSpecifier(Subject, ms), next))
    decreases ms, 3
  {
    var close := pos + 1 + MatchesLen(ms);
    MatchListHead(s, pos + 1, ms);
    MatchListRoundTrip(s, pos + 1, ms, close);
    SubjectSpecifierStep(s, pos, ms, close, next);
  }

  /** The match loop started with nothing read. */
  lemma MatchListRoundTrip(s: Scan, pos: nat, ms: seq<Match>, end: nat)
    requires MatchListAt(s, pos, ms) && end == pos + MatchesLen(ms)
    ensures MatchLoop(s, pos, []) == Success(Parsed(ms, end))
    decreases ms, 2
  {
    MatchLoopRoundTrip(s, pos, [], ms, end);
    assert [] + ms == ms;
  }

  lemma {:induction false} MatchRoundTrip(s: Scan, pos: nat, m: Match, next: nat)
    requires MatchAt(s, pos, m) && next == pos + MatchLen(m)
    ensures ParseMatch(s, pos) == Success(Parsed(m, next))
    decreases m, 1
  {
    match m
    case LeafMatch(p, v) =>
      IdRoundTrip(s, pos, p);
    case IntermediateMatch(p, n) =>
      IdRoundTrip(s, pos, p);
      NodeSpecifierRoundTrip(s, pos + 1, n, next);
      IntermediateMatchStep(s, pos, p, n, next);
  }

  lemma {:induction false} MatchLoopRoundTrip(s: Scan, pos: nat, acc: seq<Match>, ms: seq<Match>, end: nat)
    requires MatchListAt(s, pos, ms) && end == pos + MatchesLen(ms)
    ensures MatchLoop(s, pos, acc) == Success(Parsed(acc + ms, end))
    decreases ms, 1
  {
    if ms == [] {
      assert acc + ms == acc;
    } else {
      MatchListCons(s, pos, ms);
      MatchLoopCons(s, pos, acc, ms, pos + MatchLen(ms[0]), end);
    }
  }

  lemma {:induction false} MatchLoopCons(s: Scan, pos: nat, acc: seq<Match>, ms: seq<Match>, next: nat, end: nat)
    requires ms != [] && pos < |s.tokens| && s.tokens[pos].tokenType != RParen
    requires MatchAt(s, pos, ms[0]) && next == pos + MatchLen(ms[0])
    requires MatchListAt(s, next, ms[1..]) && end == next + MatchesLen(ms[1..])
    ensures MatchLoop(s, pos, acc) == Success(Parsed(acc + ms, end))
    decreases ms, 0
  {
    MatchRoundTrip(s, pos, ms[0], next);
    MatchLoopRoundTrip(s, next, acc + [ms[0]], ms[1..], end);
    ConsAppend(acc, ms);
    MatchLoopStep(s, pos, acc, ms[0], next, acc + ms, end);
  }

  lemma {:induction false} SelectorRoundTrip(s: Scan, pos: nat, sel: Selector, next: nat)
    requires SelectorAt(s, pos, sel) && next == pos + SelectorLen(sel)
    requires sel.LeafSelector? ==>
      next < |s.tokens| && s.tokens[next].tokenType in {Uri, LSquare, PrefixedUri, RBrace}
    ensures ParseSelector(s, pos) == Success(Parsed(sel, next))
    decreases sel, 1
  {
    EdgeRoundTrip(s, pos, sel.edge);
    match sel
    case LeafSelector(e) =>
      LeafSelectorStep(s, pos, e, next);
    case IntermediateSelector(e, q) =>
      var k := pos + EdgeLen(e);
      CsqHead(s, k, q);
      CsqRoundTrip(s, k, q, next);
      IntermediateSelectorStep(s, pos, e, k, q, next);
  }

  lemma {:induction false} SelectorLoopRoundTrip(s: Scan, pos: nat, acc: seq<Selector>, sels: seq<Selector>, end: nat)
    requires SelectorListAt(s, pos, sels) && end == pos + SelectorsLen(sels)
    ensures SelectorLoop(s, pos, acc) == Success(Parsed(acc + sels, end))
    decreases sels, 1
  {
    if sels == [] {
      assert acc + sels == acc;
    } else {
      SelectorListCons(s, pos, sels);
      SelectorLoopCons(s, pos, acc, sels, pos + SelectorLen(sels[0]), end);
    }
  }

  lemma {:induction false} SelectorLoopCons(s: Scan, pos: nat, acc: seq<Selector>, sels: seq<Selector>, next: nat, end: nat)
    requires sels != [] && pos < |s.tokens| && s.tokens[pos].tokenType != RBrace
    requires SelectorAt(s, pos, sels[0]) && next == pos + SelectorLen(sels[0])
    requires next < |s.tokens| && s.tokens[next].tokenType in {Uri, LSquare, PrefixedUri, RBrace}
    requires SelectorListAt(s, next, sels[1..]) && end == next + SelectorsLen(sels[1..])
    ensures SelectorLoop(s, pos, acc) == Success(Parsed(acc + sels, end))
    decreases sels, 0
  {
    SelectorRoundTrip(s, pos, sels[0], next);
    SelectorLoopRoundTrip(s, next, acc + [sels[0]], sels[1..], end);
    ConsAppend(acc, sels);
    SelectorLoopStep(s, pos, acc, sels[0], next, acc + sels, end);
  }

  /** The selector loop started with nothing read. */
  lemma SelectorListRoundTrip(s: Scan, pos: nat, sels: seq<Selector>, end: nat)
    requires SelectorListAt(s, pos, sels) && end == pos + SelectorsLen(sels)
    ensures SelectorLoop(s, pos, []) == Success(Parsed(sels, end))
    decreases sels, 2
  {
    SelectorLoopRoundTrip(s, pos, [], sels, end);
    assert [] + sels == sels;
  }

  lemma {:induction false} TraversalRoundTrip(s: Scan, pos: nat, t: Traversal, next: nat)
    requires TraversalAt(s, pos, t) == true && next == pos + TraversalLen(t)
    ensures ParseTraversal(s, pos) == Success(Parsed(t, next))
    decreases t, 1
  {
    var close := pos + 1 + SelectorsLen(t.selectorList);
    SelectorListRoundTrip(s, pos + 1, t.selectorList, close);
    TraversalStep(s, pos, t.selectorList, close, next);
  }

  lemma {:induction false} CsqRoundTrip(s: Scan, pos: nat, q: ContextSensitiveQuery, next: nat)
    requires CsqAt(s, pos, q) && next == pos + CsqLen(q)
    ensures ParseCsq(s, pos) == Success(Parsed(q, next))
    decreases q, 2
  {
    var k := pos + NodeSpecifierLen(q.nodeSpecifier);
    NodeSpecifierRoundTrip(s, pos, q.nodeSpecifier, k);
    TraversalRoundTrip(s, k, q.traversal, next);
  }

  lemma {:induction false} PrefixLoopRoundTrip(s: Scan, pos: nat, acc: seq<PrefixDecl>, ps: seq<PrefixDecl>, end: nat)
    requires PrefixesAt(s, pos, ps) && end == pos + 3 * |ps|
    requires end < |s.tokens| && s.tokens[end].tokenType in {Uri, PrefixedUri}
    ensures PrefixLoop(s, pos, acc) == Success(Parsed(acc + ps, end))
    decreases ps, 1
  {
    if ps == [] {
      assert acc + ps == acc;
    } else {
      PrefixesHead(s, pos, ps);
      PrefixLoopCons(s, pos, acc, ps, end);
    }
  }

  lemma {:induction false} PrefixLoopCons(s: Scan, pos: nat, acc: seq<PrefixDecl>, ps: seq<PrefixDecl>, end: nat)
    requires ps != [] && end == pos + 3 * |ps|
    requires pos + 2 < |s.tokens| && s.tokens[pos].tokenType == Prefix
    requires s.tokens[pos + 1].tokenType == Name && s.tokens[pos + 2].tokenType == Uri
    requires ps[0] == PrefixNode(TextOf(s.tokens[pos + 1].value), TextOf(s.tokens[pos + 2].value))
    requires PrefixesAt(s, pos + 3, ps[1..])
    requires end < |s.tokens| && s.tokens[end].tokenType in {Uri, PrefixedUri}
    ensures PrefixLoop(s, pos, acc) == Success(Parsed(acc + ps, end))
    decreases ps, 0
  {
    PrefixLoopRoundTrip(s, pos + 3, acc + [ps[0]], ps[1..], end);
    ConsAppend(acc, ps);
    PrefixLoopStep(s, pos, acc, ps[0], acc + ps, end);
  }

  /** Every declaration the prefix loop adds is the one `prefix` reads three tokens further on:
      the `k`-th result after `acc` is the declaration at `pos + 3 * (k - |acc|)`. */
  lemma {:induction false} PrefixLoopDeclaration(s: Scan, pos: nat, acc: seq<PrefixDecl>, k: nat)
    requires PrefixLoop(s, pos, acc).Success?
    requires |acc| <= k < |PrefixLoop(s, pos, acc).value.node|
    ensures ParsePrefix(s, pos + 3 * (k - |acc|)).Success?
    ensures PrefixLoop(s, pos, acc).value.node[k] == ParsePrefix(s, pos + 3 * (k - |acc|)).value.node
    decreases |s.tokens| - pos
  {
    var out := PrefixLoop(s, pos, acc).value.node;
    var p := ParsePrefix(s, pos).value;
    assert PrefixLoop(s, pos, acc) == PrefixLoop(s, p.next, acc + [p.node]);
    if k == |acc| {
      assert out[k] == out[..|acc| + 1][k];
    } else {
      PrefixLoopDeclaration(s, p.next, acc + [p.node], k);
      assert pos + 3 * (k - |acc|) == p.next + 3 * (k - (|acc| + 1));
    }
  }


  /** A stream holding a query parses back to it up to the token after it, where `expect(EOF)`
      decides. */
  lemma QueryRoundTrip(s: Scan, q: Query)
    requires QueryAt(s, q)
    ensures var end := Expect(s, QueryLen(q), [Eof]);
      ParseQuery(s) == if end.Success? then Success(q) else Failure(end.error)
  {
    var k := 3 * |q.prefixList|;
    QueryPrefixes(s, q, k);
    QueryBody(s, q, k);
    QueryStep(s, q.prefixList, k, q.context, q.contextSensitiveQuery, QueryLen(q));
  }

  /** The declarations of a query parse back. */
  lemma QueryPrefixes(s: Scan, q: Query, k: nat)
    requires QueryAt(s, q) && k == 3 * |q.prefixList|
    ensures 0 < |s.tokens| && s.tokens[0].tokenType in {Prefix, Uri, PrefixedUri}
    ensures PrefixLoop(s, 0, []) == Success(Parsed(q.prefixList, k))
  {
    QueryHead(s, q);
    PrefixLoopRoundTrip(s, 0, [], q.prefixList, k);
    assert [] + q.prefixList == q.prefixList;
  }

  /** The context and the context-sensitive query of a query parse back. */
  lemma QueryBody(s: Scan, q: Query, k: nat)
    requires QueryAt(s, q) && k == 3 * |q.prefixList|
    ensures ParseId(s, k) == Success(Parsed(q.context, k + 1))
    ensures ParseCsq(s, k + 1) == Success(Parsed(q.contextSensitiveQuery, QueryLen(q)))
  {
    IdRoundTrip(s, k, q.context);
    CsqRoundTrip(s, k + 1, q.contextSensitiveQuery, QueryLen(q));
  }

  /** A query starts with `@prefix` or its context, and the context follows the declarations. */
  lemma QueryHead(s: Scan, q: Query)
    requires QueryAt(s, q)
    ensures 0 < |s.tokens| && s.tokens[0].tokenType in {Prefix, Uri, PrefixedUri}
    ensures 3 * |q.prefixList| < |s.tokens| && s.tokens[3 * |q.prefixList|].tokenType in {Uri, PrefixedUri}
  {
  }

  /** A stream holding a query and then EOF parses to the query. */
  lemma ParseHeld(s: Scan, q: Query)
    requires QueryAt(s, q) && TokAt(s, QueryLen(q), EofLex)
    ensures ParseQuery(s) == Success(q)
  {
    QueryRoundTrip(s, q);
  }

  /** Any token after a complete query other than EOF is rejected, expecting EOF. */
  lemma TrailingTokenRejected(s: Scan, q: Query)
    requires QueryAt(s, q)
    requires QueryLen(q) < |s.tokens| && s.tokens[QueryLen(q)].tokenType != Eof
    ensures ParseQuery(s) == Failure(UnexpectedTokenError([Eof], s.tokens[QueryLen(q)]))
  {
    QueryRoundTrip(s, q);
  }

  // ---------------------------------------------------------------------------------------------
  // Rejections

  /** The empty query is rejected at its EOF token, which is expected to be a prefix
      declaration or the context's URI. */
  lemma ParseEmpty(w: string -> bool)
    ensures Parse("", w) == Failure(UnexpectedTokenError([Prefix, Uri, PrefixedUri], Token(Eof, Null, 1, 0)))
  {
    var eof := Token(Eof, Null, 1, 0);
    StepEndStart("", w, 0, 1, 0, []);
    assert [] + [eof] == [eof];
    QueryRejectsStart(Scan([eof], None));
    LexIsRun("", w);
  }

  /** A query must open with `@prefix` or an identifier. */
  lemma QueryRejectsStart(s: Scan)
    requires 0 < |s.tokens| && s.tokens[0].tokenType !in [Prefix, Uri, PrefixedUri]
    ensures ParseQuery(s) == Failure(UnexpectedTokenError([Prefix, Uri, PrefixedUri], s.tokens[0]))
  {
  }


  /** After the declarations, a token that is neither `@prefix` nor a URI or prefixed URI is
      rejected by the next `prefix`, expecting `@prefix` alone. */
  lemma {:induction false} PrefixListRejects(s: Scan, pos: nat, ps: seq<PrefixDecl>, acc: seq<PrefixDecl>)
    requires PrefixesAt(s, pos, ps) && pos + 3 * |ps| < |s.tokens|
    requires s.tokens[pos + 3 * |ps|].tokenType !in {Prefix, Uri, PrefixedUri}
    ensures PrefixLoop(s, pos, acc) == Failure(UnexpectedTokenError([Prefix], s.tokens[pos + 3 * |ps|]))
    decreases ps
  {
    if ps != [] {
      PrefixListRejects(s, pos + 3, ps[1..], acc + [ps[0]]);
    }
  }

  /** A declaration's target must be a full URI: a prefixed URI there is rejected. */
  lemma PrefixTargetMustBeUri(s: Scan, pos: nat)
    requires pos + 2 < |s.tokens|
    requires s.tokens[pos].tokenType == Prefix && s.tokens[pos + 1].tokenType == Name
    requires s.tokens[pos + 2].tokenType != Uri
    ensures ParsePrefix(s, pos) == Failure(UnexpectedTokenError([Uri], s.tokens[pos + 2]))
  {
  }

  /** In `[` id X the token X is skipped whatever it is, even the closing EOF. */
  lemma MultiEdgeSkips(s: Scan, pos: nat)
    requires pos + 1 < |s.tokens| && s.tokens[pos].tokenType == LSquare
    requires s.tokens[pos + 1].tokenType in {Uri, PrefixedUri}
    ensures ParseEdge(s, pos) == Success(Parsed(MultiEdge(ParseId(s, pos + 1).value.node), pos + 3))
  {
  }

  /** When the skipped token is the last one the lexer yielded, the selector then reads past the
      end of the stream. */
  lemma MultiEdgeAtEnd(s: Scan, pos: nat)
    requires pos + 2 == |s.tokens| - 1 && s.stop.None?
    requires s.tokens[pos].tokenType == LSquare && s.tokens[pos + 1].tokenType in {Uri, PrefixedUri}
    ensures ParseSelector(s, pos) == Failure(PastEnd)
  {
    MultiEdgeSkips(s, pos);
  }

  /** After the edge, the next token decides the selector's kind; it is not consumed by a leaf
      selector, and any other token is rejected with the seven accepted types in order. */
  lemma SelectorKind(s: Scan, pos: nat)
    requires ParseEdge(s, pos).Success?
    ensures var k := ParseEdge(s, pos).value.next;
      var r := ParseSelector(s, pos);
      (k < |s.tokens| && s.tokens[k].tokenType in {Uri, LSquare, PrefixedUri, RBrace} ==>
         r == Success(Parsed(LeafSelector(ParseEdge(s, pos).value.node), k)))
      && (k < |s.tokens| && s.tokens[k].tokenType !in SelectorFollows ==>
         r == Failure(UnexpectedTokenError(SelectorFollows, s.tokens[k])))
      && (r.Success? && r.value.node.IntermediateSelector? ==>
         k < |s.tokens| && s.tokens[k].tokenType in {LParen, LBrace, Arrow})
  {
  }
}
