/** Printing a query as the lexemes that spell it, and the round trip through text: lexing and
    parsing a printed query gives the query back. */
module Printer {

  import opened Wrappers
  import opened Tokens
  import opened Lexer
  import opened LexerLemmas
  import opened Ast
  import opened Parser
  import opened ParserLemmas

  // ---------------------------------------------------------------------------------------------
  // The printer

  function UnNodeSpecifier(n: NodeSpecifier): seq<Lexeme>
    decreases n, 1
  {
    match n
    case MatchingNodeSpecifier(Graph, ms) => [ArrowLex, LParenLex] + (UnMatches(ms) + [RParenLex])
    case MatchingNodeSpecifier(Subject, ms) => [LParenLex] + (UnMatches(ms) + [RParenLex])
    case EmptyNodeSpecifier => []
  }

  function UnMatch(m: Match): seq<Lexeme>
    decreases m, 1
  {
    match m
    case LeafMatch(p, v) => [IdLex(p), ValueLex(v)]
    case IntermediateMatch(p, n) => [IdLex(p)] + UnNodeSpecifier(n)
  }

  function UnMatches(ms: seq<Match>): seq<Lexeme>
    decreases ms, 0
  {
    if ms == [] then [] else UnMatch(ms[0]) + UnMatches(ms[1..])
  }

  function UnEdge(e: Edge): seq<Lexeme> {
    match e
    case SingleEdge(p) => [IdLex(p)]
    case MultiEdge(p) => [LSquareLex, IdLex(p), RSquareLex]
  }

  function UnSelector(sel: Selector): seq<Lexeme>
    decreases sel, 1
  {
    match sel
    case LeafSelector(e) => UnEdge(e)
    case IntermediateSelector(e, q) => UnEdge(e) + UnCsq(q)
  }

  function UnSelectors(sels: seq<Selector>): seq<Lexeme>
    decreases sels, 0
  {
    if sels == [] then [] else UnSelector(sels[0]) + UnSelectors(sels[1..])
  }

  function UnTraversal(t: Traversal): seq<Lexeme>
    decreases t, 1
  {
    [LBraceLex] + (UnSelectors(t.selectorList) + [RBraceLex])
  }

  function UnCsq(q: ContextSensitiveQuery): seq<Lexeme>
    decreases q, 2
  {
    UnNodeSpecifier(q.nodeSpecifier) + UnTraversal(q.traversal)
  }

  function UnPrefix(p: PrefixDecl): seq<Lexeme> {
    [PrefixLex, (Name, Text(p.name)), (Uri, Text(p.uri))]
  }

  function UnPrefixes(ps: seq<PrefixDecl>): seq<Lexeme> {
    if ps == [] then [] else UnPrefix(ps[0]) + UnPrefixes(ps[1..])
  }

  /** The query as the lexemes that spell it. */
  function UnQuery(q: Query): seq<Lexeme> {
    UnPrefixes(q.prefixList) + ([IdLex(q.context)] + UnCsq(q.contextSensitiveQuery))
  }

  /** The parser reads a parenthesised specifier inside a match as a subject specifier, so only
      those queries can be printed and read back. */
  predicate WfNodeSpecifier(n: NodeSpecifier)
    decreases n, 1
  {
    n.MatchingNodeSpecifier? ==> WfMatches(n.matchList)
  }

  predicate WfMatch(m: Match)
    decreases m, 1
  {
    m.IntermediateMatch? ==>
      m.nodeSpecifier.MatchingNodeSpecifier? && m.nodeSpecifier.contextType == Subject
      && WfNodeSpecifier(m.nodeSpecifier)
  }

  predicate WfMatches(ms: seq<Match>)
    decreases ms, 0
  {
    ms != [] ==> WfMatch(ms[0]) && WfMatches(ms[1..])
  }

  predicate WfSelector(sel: Selector)
    decreases sel, 1
  {
    sel.IntermediateSelector? ==> WfCsq(sel.contextSensitiveQuery)
  }

  predicate WfSelectors(sels: seq<Selector>)
    decreases sels, 0
  {
    sels != [] ==> WfSelector(sels[0]) && WfSelectors(sels[1..])
  }

  predicate WfCsq(q: ContextSensitiveQuery)
    decreases q, 2
  {
    WfNodeSpecifier(q.nodeSpecifier) && WfSelectors(q.traversal.selectorList)
  }

  predicate WfQuery(q: Query) {
    WfCsq(q.contextSensitiveQuery)
  }

  // ---------------------------------------------------------------------------------------------
  // Printed lexemes in the stream

  /** The tokens from `pos` on have the types and values of `u`. */
  predicate Holds(s: Scan, pos: nat, u: seq<Lexeme>) {
    pos + |u| <= |s.tokens| && forall i :: 0 <= i < |u| ==> TokAt(s, pos + i, u[i])
  }

  lemma HoldsSplit(s: Scan, pos: nat, a: seq<Lexeme>, b: seq<Lexeme>)
    requires Holds(s, pos, a + b)
    ensures Holds(s, pos, a) && Holds(s, pos + |a|, b)
  {
    forall i | 0 <= i < |a|
      ensures TokAt(s, pos + i, a[i])
    {
      assert (a + b)[i] == a[i];
    }
    forall i | 0 <= i < |b|
      ensures TokAt(s, pos + |a| + i, b[i])
    {
      assert (a + b)[|a| + i] == b[i];
    }
  }

  lemma HoldsOne(s: Scan, pos: nat, a: Lexeme)
    requires Holds(s, pos, [a])
    ensures TokAt(s, pos, a)
  {
    assert [a][0] == a;
  }

  lemma HoldsTwo(s: Scan, pos: nat, a: Lexeme, b: Lexeme)
    requires Holds(s, pos, [a, b])
    ensures TokAt(s, pos, a) && TokAt(s, pos + 1, b)
  {
    assert [a, b][0] == a && [a, b][1] == b;
  }

  lemma HoldsThree(s: Scan, pos: nat, a: Lexeme, b: Lexeme, c: Lexeme)
    requires Holds(s, pos, [a, b, c])
    ensures TokAt(s, pos, a) && TokAt(s, pos + 1, b) && TokAt(s, pos + 2, c)
  {
    assert [a, b, c][0] == a && [a, b, c][1] == b && [a, b, c][2] == c;
  }

  lemma {:induction false} PrintedNodeSpecifier(s: Scan, pos: nat, n: NodeSpecifier)
    requires WfNodeSpecifier(n) && Holds(s, pos, UnNodeSpecifier(n))
    ensures NodeSpecifierAt(s, pos, n) && |UnNodeSpecifier(n)| == NodeSpecifierLen(n)
    decreases n, 1
  {
    match n
    case EmptyNodeSpecifier =>
    case MatchingNodeSpecifier(Graph, ms) =>
      HoldsSplit(s, pos, [ArrowLex, LParenLex], UnMatches(ms) + [RParenLex]);
      HoldsTwo(s, pos, ArrowLex, LParenLex);
      PrintedMatchList(s, pos + 2, ms);
    case MatchingNodeSpecifier(Subject, ms) =>
      HoldsSplit(s, pos, [LParenLex], UnMatches(ms) + [RParenLex]);
      HoldsOne(s, pos, LParenLex);
      PrintedMatchList(s, pos + 1, ms);
  }

  lemma {:induction false} PrintedMatch(s: Scan, pos: nat, m: Match)
    requires WfMatch(m) && Holds(s, pos, UnMatch(m))
    ensures MatchAt(s, pos, m) && |UnMatch(m)| == MatchLen(m)
    decreases m, 1
  {
    match m
    case LeafMatch(p, v) =>
      HoldsTwo(s, pos, IdLex(p), ValueLex(v));
    case IntermediateMatch(p, n) =>
      HoldsSplit(s, pos, [IdLex(p)], UnNodeSpecifier(n));
      HoldsOne(s, pos, IdLex(p));
      PrintedNodeSpecifier(s, pos + 1, n);
  }

  lemma {:induction false} PrintedMatchList(s: Scan, pos: nat, ms: seq<Match>)
    requires WfMatches(ms) && Holds(s, pos, UnMatches(ms) + [RParenLex])
    ensures MatchListAt(s, pos, ms) && |UnMatches(ms)| == MatchesLen(ms)
    decreases ms, 0
  {
    if ms == [] {
      assert UnMatches(ms) + [RParenLex] == [RParenLex];
      HoldsOne(s, pos, RParenLex);
    } else {
      var rest := UnMatches(ms[1..]) + [RParenLex];
      assert UnMatches(ms) + [RParenLex] == UnMatch(ms[0]) + rest;
      HoldsSplit(s, pos, UnMatch(ms[0]), rest);
      PrintedMatch(s, pos, ms[0]);
      PrintedMatchList(s, pos + |UnMatch(ms[0])|, ms[1..]);
    }
  }

  lemma PrintedEdge(s: Scan, pos: nat, e: Edge)
    requires Holds(s, pos, UnEdge(e))
    ensures EdgeAt(s, pos, e) && |UnEdge(e)| == EdgeLen(e)
  {
    match e
    case SingleEdge(p) => HoldsOne(s, pos, IdLex(p));
    case MultiEdge(p) => HoldsThree(s, pos, LSquareLex, IdLex(p), RSquareLex);
  }

  lemma {:induction false} PrintedSelector(s: Scan, pos: nat, sel: Selector)
    requires WfSelector(sel) && Holds(s, pos, UnSelector(sel))
    ensures SelectorAt(s, pos, sel) && |UnSelector(sel)| == SelectorLen(sel)
    decreases sel, 1
  {
    match sel
    case LeafSelector(e) =>
      PrintedEdge(s, pos, e);
    case IntermediateSelector(e, q) =>
      HoldsSplit(s, pos, UnEdge(e), UnCsq(q));
      PrintedEdge(s, pos, e);
      PrintedCsq(s, pos + |UnEdge(e)|, q);
  }

  lemma {:induction false} PrintedSelectorList(s: Scan, pos: nat, sels: seq<Selector>)
    requires WfSelectors(sels) && Holds(s, pos, UnSelectors(sels) + [RBraceLex])
    ensures SelectorListAt(s, pos, sels) && |UnSelectors(sels)| == SelectorsLen(sels)
    decreases sels, 0
  {
    if sels == [] {
      assert UnSelectors(sels) + [RBraceLex] == [RBraceLex];
      HoldsOne(s, pos, RBraceLex);
    } else {
      var rest := UnSelectors(sels[1..]) + [RBraceLex];
      assert UnSelectors(sels) + [RBraceLex] == UnSelector(sels[0]) + rest;
      HoldsSplit(s, pos, UnSelector(sels[0]), rest);
      PrintedSelector(s, pos, sels[0]);
      PrintedSelectorList(s, pos + |UnSelector(sels[0])|, sels[1..]);
    }
  }

  lemma {:induction false} PrintedTraversal(s: Scan, pos: nat, t: Traversal)
    requires WfSelectors(t.selectorList) && Holds(s, pos, UnTraversal(t))
    ensures TraversalAt(s, pos, t) && |UnTraversal(t)| == TraversalLen(t)
    decreases t, 1
  {
    HoldsSplit(s, pos, [LBraceLex], UnSelectors(t.selectorList) + [RBraceLex]);
    HoldsOne(s, pos, LBraceLex);
    PrintedSelectorList(s, pos + 1, t.selectorList);
  }

  lemma {:induction false} PrintedCsq(s: Scan, pos: nat, q: ContextSensitiveQuery)
    requires WfCsq(q) && Holds(s, pos, UnCsq(q))
    ensures CsqAt(s, pos, q) && |UnCsq(q)| == CsqLen(q)
    decreases q, 2
  {
    HoldsSplit(s, pos, UnNodeSpecifier(q.nodeSpecifier), UnTraversal(q.traversal));
    PrintedNodeSpecifier(s, pos, q.nodeSpecifier);
    PrintedTraversal(s, pos + |UnNodeSpecifier(q.nodeSpecifier)|, q.traversal);
  }

  lemma {:induction false} PrintedPrefixes(s: Scan, pos: nat, ps: seq<PrefixDecl>)
    requires Holds(s, pos, UnPrefixes(ps))
    ensures PrefixesAt(s, pos, ps) && |UnPrefixes(ps)| == 3 * |ps|
    decreases ps
  {
    if ps != [] {
      HoldsSplit(s, pos, UnPrefix(ps[0]), UnPrefixes(ps[1..]));
      HoldsThree(s, pos, PrefixLex, (Name, Text(ps[0].name)), (Uri, Text(ps[0].uri)));
      PrintedPrefixes(s, pos + 3, ps[1..]);
    }
  }

  lemma PrintedQuery(s: Scan, q: Query)
    requires WfQuery(q) && Holds(s, 0, UnQuery(q))
    ensures QueryAt(s, q) && |UnQuery(q)| == QueryLen(q)
  {
    var ps := UnPrefixes(q.prefixList);
    HoldsSplit(s, 0, ps, [IdLex(q.context)] + UnCsq(q.contextSensitiveQuery));
    PrintedPrefixes(s, 0, q.prefixList);
    HoldsSplit(s, |ps|, [IdLex(q.context)], UnCsq(q.contextSensitiveQuery));
    HoldsOne(s, |ps|, IdLex(q.context));
    PrintedCsq(s, |ps| + 1, q.contextSensitiveQuery);
  }

  // ---------------------------------------------------------------------------------------------
  // The round trip

  /** Parsing the tokens of a printed query, followed by EOF, gives the query back. */
  lemma ParseUnparse(s: Scan, q: Query)
    requires WfQuery(q) && StripAll(s.tokens) == UnQuery(q) + [EofLex]
    ensures ParseQuery(s) == Success(q)
  {
    var u := UnQuery(q) + [EofLex];
    assert Holds(s, 0, u) by {
      forall i | 0 <= i < |u|
        ensures TokAt(s, i, u[i])
      {
        assert StripAll(s.tokens)[i] == Strip(s.tokens[i]);
      }
    }
    HoldsSplit(s, 0, UnQuery(q), [EofLex]);
    HoldsOne(s, |UnQuery(q)|, EofLex);
    PrintedQuery(s, q);
    ParseHeld(s, q);
  }

  /** Query text laid out from the lexemes of a query, with whitespace between them, parses to
      the query: lexing and parsing invert printing. */
  lemma ParsePrinted(q: Query, seps: seq<string>, w: string -> bool)
    requires WfQuery(q) && GoodLayout(UnQuery(q), seps, w)
    ensures Parse(Layout(UnQuery(q), seps), w) == Success(q)
  {
    var text := Layout(UnQuery(q), seps);
    LexLayout(text, w, UnQuery(q), seps);
    ParseUnparse(Tokenize(text, w), q);
  }
}
