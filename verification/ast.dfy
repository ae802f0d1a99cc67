/** The abstract syntax tree of a query. Each node kind of the source is one constructor; the
    object the source builds for it (its `type` tag and attribute names) is `Shape`. */
module Ast {

  import opened Wrappers
  import opened Errors

  /** `uri` (a `value`) or `prefixedUri` (a `prefix` and a `path`). */
  datatype Id = UriNode(value: string) | PrefixedUriNode(prefix: string, path: string)

  /** The value of a leaf match: a URI, a prefixed URI or a `stringLiteral`. */
  datatype Value = IdValue(id: Id) | StringLiteralNode(value: string)

  datatype ContextType = Subject | Graph

  datatype NodeSpecifier =
    | MatchingNodeSpecifier(contextType: ContextType, matchList: seq<Match>)
    | EmptyNodeSpecifier

  datatype Match =
    | LeafMatch(pred: Id, value: Value)
    | IntermediateMatch(pred: Id, nodeSpecifier: NodeSpecifier)

  datatype Edge = SingleEdge(pred: Id) | MultiEdge(pred: Id)

  datatype Selector =
    | LeafSelector(edge: Edge)
    | IntermediateSelector(edge: Edge, contextSensitiveQuery: ContextSensitiveQuery)

  datatype Traversal = TraversalNode(selectorList: seq<Selector>)

  datatype ContextSensitiveQuery = ContextSensitiveQueryNode(nodeSpecifier: NodeSpecifier, traversal: Traversal)

  /** `prefix`: a `name` node and a `uri` node, kept as their values. */
  datatype PrefixDecl = PrefixNode(name: string, uri: string)

  datatype Query = QueryNode(prefixList: seq<PrefixDecl>, context: Id, contextSensitiveQuery: ContextSensitiveQuery)

  // ---------------------------------------------------------------------------------------------
  // The objects the factories build

  /** An AST object: its `type` and the names of its other attributes, in order. */
  datatype AstObject = AstObject(tag: string, attrs: seq<string>)

  /** `new AST({type, ...attrs})`: a missing (empty) type is refused. */
  function NewAst(tag: string, attrs: seq<string>): (r: Result<AstObject, Error>)
    ensures r.Success? <==> tag != ""
    ensures r.Success? ==> r.value.tag == tag && r.value.attrs == attrs
    ensures r.Failure? ==> r.error == PlainError("Must provide a `type` when constructing a AST")
  {
    if tag == "" then Failure(PlainError("Must provide a `type` when constructing a AST"))
    else Success(AstObject(tag, attrs))
  }

  /** The sixteen factories, by tag and attribute list. */
  const Factories: seq<(string, seq<string>)> := [
    ("query", ["prefixList", "context", "contextSensitiveQuery"]),
    ("prefix", ["name", "uri"]),
    ("contextSensitiveQuery", ["nodeSpecifier", "traversal"]),
    ("matchingNodeSpecifier", ["contextType", "matchList"]),
    ("emptyNodeSpecifier", []),
    ("leafMatch", ["predicate", "value"]),
    ("intermediateMatch", ["predicate", "nodeSpecifier"]),
    ("traversal", ["selectorList"]),
    ("leafSelector", ["edge"]),
    ("intermediateSelector", ["edge", "contextSensitiveQuery"]),
    ("singleEdge", ["predicate"]),
    ("multiEdge", ["predicate"]),
    ("uri", ["value"]),
    ("prefixedUri", ["prefix", "path"]),
    ("name", ["value"]),
    ("stringLiteral", ["value"])
  ]

  /** The object factory number `k` builds. */
  function Factory(k: nat): (r: AstObject)
    requires k < |Factories|
    ensures r.tag == Factories[k].0 && r.attrs == Factories[k].1
  {
    FactoryTagsNonEmpty(k);
    NewAst(Factories[k].0, Factories[k].1).value
  }

  lemma FactoryTagsNonEmpty(k: nat)
    requires k < |Factories|
    ensures Factories[k].0 != ""
  {
  }

  /** No two factories share a tag, so a tag names exactly one factory. */
  lemma FactoryTagsDistinct(j: nat, k: nat)
    requires j < |Factories| && k < |Factories| && j != k
    ensures Factory(j).tag != Factory(k).tag
  {
  }

  /** Which factory builds each node. */
  function IdShape(n: Id): AstObject {
    match n
    case UriNode(_) => Factory(12)
    case PrefixedUriNode(_, _) => Factory(13)
  }

  function ValueShape(n: Value): AstObject {
    match n
    case IdValue(id) => IdShape(id)
    case StringLiteralNode(_) => Factory(15)
  }

  /** A node specifier carries `contextType` and `matchList` when matching, and nothing when
      empty; its tag tells the two apart. */
  function NodeSpecifierShape(n: NodeSpecifier): (r: AstObject)
    ensures n.MatchingNodeSpecifier? <==> r == AstObject("matchingNodeSpecifier", ["contextType", "matchList"])
    ensures n.EmptyNodeSpecifier? <==> r == AstObject("emptyNodeSpecifier", [])
  {
    match n
    case MatchingNodeSpecifier(_, _) => Factory(3)
    case EmptyNodeSpecifier => Factory(4)
  }

  /** A leaf match carries `predicate` and `value`, an intermediate one `predicate` and
      `nodeSpecifier`. */
  function MatchShape(n: Match): (r: AstObject)
    ensures n.LeafMatch? <==> r == AstObject("leafMatch", ["predicate", "value"])
    ensures n.IntermediateMatch? <==> r == AstObject("intermediateMatch", ["predicate", "nodeSpecifier"])
  {
    match n
    case LeafMatch(_, _) => Factory(5)
    case IntermediateMatch(_, _) => Factory(6)
  }

  /** A leaf selector carries only `edge`; an intermediate one also its `contextSensitiveQuery`. */
  function SelectorShape(n: Selector): (r: AstObject)
    ensures n.LeafSelector? <==> r == AstObject("leafSelector", ["edge"])
    ensures n.IntermediateSelector? <==> r == AstObject("intermediateSelector", ["edge", "contextSensitiveQuery"])
  {
    match n
    case LeafSelector(_) => Factory(8)
    case IntermediateSelector(_, _) => Factory(9)
  }

  function EdgeShape(n: Edge): AstObject {
    match n
    case SingleEdge(_) => Factory(10)
    case MultiEdge(_) => Factory(11)
  }
}
