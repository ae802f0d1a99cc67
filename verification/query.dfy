/** The query engine: it resolves prefixes, finds the nodes a node specifier selects, walks the
    selectors of a traversal and builds the JSON-LD response. The backend is a stateless oracle of
    lookups; `Promise.all` over several lookups is evaluated one after the other, so the first
    failure in enumeration order is the one reported. */
module QueryEngine {

  import opened Wrappers
  import opened Strings
  import opened Json
  import opened Errors
  import opened Ast
  import opened Nodes
  import opened NodeOrder
  import Backends
  import Parser

  // ---------------------------------------------------------------------------------------------
  // Prefixes

  /** The prefix map: prefix names to base URIs, in the order the names were first declared. It is
      also the `@context` object of the response. */
  type PrefixMap = seq<(string, Json)>

  /** `getPrefixMap`: each declaration assigns its URI to its name, so the last declaration of a
      name decides its base, while the name keeps the place of its first declaration. */
  function GetPrefixMap(pl: seq<PrefixDecl>): (r: PrefixMap)
    ensures UniqueKeys(r)
    ensures forall n :: Get(r, n).Some? ==> Get(r, n).value.JStr?
    decreases |pl|
  {
    if pl == [] then []
    else
      var d := pl[|pl| - 1];
      Put(GetPrefixMap(pl[..|pl| - 1]), d.name, JStr(d.uri))
  }

  /** The prefix map has exactly the declared names. */
  lemma {:induction false} PrefixMapNames(pl: seq<PrefixDecl>)
    ensures forall n :: n in Keys(GetPrefixMap(pl)) <==> exists i :: 0 <= i < |pl| && pl[i].name == n
    decreases |pl|
  {
    if pl != [] {
      var init := pl[..|pl| - 1];
      PrefixMapNames(init);
      forall n ensures n in Keys(GetPrefixMap(pl)) <==> exists i :: 0 <= i < |pl| && pl[i].name == n {
        if n in Keys(GetPrefixMap(init)) {
          var i :| 0 <= i < |init| && init[i].name == n;
          assert pl[i].name == n;
        }
        if exists i :: 0 <= i < |pl| && pl[i].name == n {
          var i :| 0 <= i < |pl| && pl[i].name == n;
          if i < |init| {
            assert init[i].name == n;
          }
        }
      }
    }
  }

  /** A name's base in the prefix map is the URI of its last declaration. */
  lemma {:induction false} PrefixMapLastWins(pl: seq<PrefixDecl>, i: nat)
    requires i < |pl| && forall j :: i < j < |pl| ==> pl[j].name != pl[i].name
    ensures Get(GetPrefixMap(pl), pl[i].name) == Some(JStr(pl[i].uri))
    decreases |pl|
  {
    if i < |pl| - 1 {
      var init := pl[..|pl| - 1];
      assert init[i] == pl[i];
      assert forall j :: i < j < |init| ==> init[j] == pl[j];
      PrefixMapLastWins(init, i);
      assert pl[|pl| - 1].name != pl[i].name;
    }
  }

  /** The base URI a prefix name is bound to, if any. */
  function Base(pm: PrefixMap, prefix: string): Option<string> {
    match Get(pm, prefix)
    case Some(JStr(b)) => Some(b)
    case _ => None
  }

  function MissingPrefix(prefix: string): Error {
    QueryError("Missing prefix definition for \"" + prefix + "\"")
  }

  /** `toNode`: a URI names itself; a prefixed URI names its prefix's base followed by its path,
      and is a `QueryError` when the prefix has no base, or an empty one. */
  function ToNode(pm: PrefixMap, id: Id): (r: Result<Node, Error>)
    ensures r.Success? ==> r.value.termType == "NamedNode" && !Truthy(r.value.language) && !Truthy(r.value.dataType)
    ensures id.UriNode? ==> r.Success? && r.value.value == id.value
    ensures id.PrefixedUriNode? ==> (r.Success? <==> Truthy(Base(pm, id.prefix)))
    ensures id.PrefixedUriNode? && r.Success? ==> r.value.value == Base(pm, id.prefix).value + id.path
    ensures r.Failure? ==> r.error == MissingPrefix(id.prefix)
  {
    match id
    case UriNode(v) => Success(NamedNode(v))
    case PrefixedUriNode(prefix, path) =>
      if Truthy(Base(pm, prefix)) then Success(NamedNode(Base(pm, prefix).value + path))
      else Failure(MissingPrefix(prefix))
  }

  /** A prefixed URI resolves, against the prefixes a query declares, exactly when its prefix is
      declared and the last declaration of it gives a non-empty base. */
  lemma ToNodeDeclared(pl: seq<PrefixDecl>, prefix: string, path: string)
    ensures ToNode(GetPrefixMap(pl), PrefixedUriNode(prefix, path)).Success? <==>
      exists i :: 0 <= i < |pl| && pl[i].name == prefix && pl[i].uri != "" && forall j :: i < j < |pl| ==> pl[j].name != prefix
  {
    var pm := GetPrefixMap(pl);
    if ToNode(pm, PrefixedUriNode(prefix, path)).Success? {
      GetIffKey(pm, prefix);
      PrefixMapNames(pl);
      var i := LastDeclaration(pl, prefix);
      PrefixMapLastWins(pl, i);
    } else if exists i :: 0 <= i < |pl| && pl[i].name == prefix && pl[i].uri != "" && forall j :: i < j < |pl| ==> pl[j].name != prefix {
      var i :| 0 <= i < |pl| && pl[i].name == prefix && pl[i].uri != "" && forall j :: i < j < |pl| ==> pl[j].name != prefix;
      PrefixMapLastWins(pl, i);
    }
  }

  /** The node a declared prefix resolves to: the base of its last declaration followed by the
      path. */
  lemma ToNodeLastDeclaration(pl: seq<PrefixDecl>, prefix: string, path: string, i: nat)
    requires i < |pl| && pl[i].name == prefix && pl[i].uri != ""
    requires forall j :: i < j < |pl| ==> pl[j].name != prefix
    ensures ToNode(GetPrefixMap(pl), PrefixedUriNode(prefix, path)) == Success(NamedNode(pl[i].uri + path))
  {
    PrefixMapLastWins(pl, i);
  }

  /** A declared name has a last declaration. */
  lemma LastDeclaration(pl: seq<PrefixDecl>, prefix: string) returns (i: nat)
    requires exists k :: 0 <= k < |pl| && pl[k].name == prefix
    ensures i < |pl| && pl[i].name == prefix && forall j :: i < j < |pl| ==> pl[j].name != prefix
  {
    var k :| 0 <= k < |pl| && pl[k].name == prefix;
    i := k;
    while i + 1 < |pl| && exists j :: i < j < |pl| && pl[j].name == prefix
      invariant i < |pl| && pl[i].name == prefix
      decreases |pl| - i
    {
      var j :| i < j < |pl| && pl[j].name == prefix;
      i := j;
    }
  }

  /** The entry can shorten the URI: its base is a string and begins the URI. */
  predicate Abbreviates(entry: (string, Json), uri: string) {
    entry.1.JStr? && StartsWith(uri, entry.1.s)
  }

  /** `toPrefixed`: the first entry whose base begins the URI turns it into `prefix:rest`; with no
      such entry the URI is unchanged. */
  function ToPrefixed(pm: PrefixMap, uri: string): (r: string)
    ensures (forall i :: 0 <= i < |pm| ==> !Abbreviates(pm[i], uri)) ==> r == uri
    ensures forall i :: 0 <= i < |pm| && Abbreviates(pm[i], uri) && (forall j :: 0 <= j < i ==> !Abbreviates(pm[j], uri)) ==>
      r == pm[i].0 + ":" + uri[|pm[i].1.s|..]
    decreases |pm|
  {
    if pm == [] then uri
    else if Abbreviates(pm[0], uri) then pm[0].0 + ":" + uri[|pm[0].1.s|..]
    else
      var r := ToPrefixed(pm[1..], uri);
      assert forall i :: 1 <= i < |pm| ==> pm[1..][i - 1] == pm[i];
      r
  }

  /** Shortening a URI loses nothing: the prefix and rest `toPrefixed` chooses resolve back to the
      URI (when the base is not empty, as a base the lexer produces never is). */
  lemma ToPrefixedRoundTrip(pm: PrefixMap, uri: string, i: nat)
    requires UniqueKeys(pm)
    requires i < |pm| && Abbreviates(pm[i], uri) && forall j :: 0 <= j < i ==> !Abbreviates(pm[j], uri)
    requires pm[i].1.s != ""
    ensures ToPrefixed(pm, uri) == pm[i].0 + ":" + uri[|pm[i].1.s|..]
    ensures ToNode(pm, PrefixedUriNode(pm[i].0, uri[|pm[i].1.s|..])) == Success(NamedNode(uri))
  {
    GetAt(pm, i);
    assert pm[i].1.s + uri[|pm[i].1.s|..] == uri;
  }

  // ---------------------------------------------------------------------------------------------
  // Rendering nodes

  /** `formatNode`: null stays null; a node with neither a datatype nor a language is its bare
      value; otherwise an object with `@value`, and `@type` and `@language` for whichever of the
      two is set. The source assigns `datatype.value` and `language.value`; on the node record
      here both fields are strings, whose `value` property is `undefined`, so the two keys are
      present with an undefined value. */
  function FormatNode(n: Option<Node>): (r: Json)
    ensures n.None? <==> r == JNull
    ensures n.Some? && !Truthy(n.value.dataType) && !Truthy(n.value.language) ==> r == JStr(n.value.value)
    ensures n.Some? && (Truthy(n.value.dataType) || Truthy(n.value.language)) ==>
      && r.JObj? && UniqueKeys(r.fields) && r.fields != [] && r.fields[0] == ("@value", JStr(n.value.value))
      && Get(r.fields, "@type") == (if Truthy(n.value.dataType) then Some(JUndefined) else None)
      && Get(r.fields, "@language") == (if Truthy(n.value.language) then Some(JUndefined) else None)
    ensures n.Some? && (Truthy(n.value.dataType) || Truthy(n.value.language)) ==>
      Keys(r.fields) == ["@value"] + (if Truthy(n.value.dataType) then ["@type"] else [])
                                   + (if Truthy(n.value.language) then ["@language"] else [])
  {
    match n
    case None => JNull
    case Some(node) =>
      if !Truthy(node.dataType) && !Truthy(node.language) then JStr(node.value)
      else
        var valued := [("@value", JStr(node.value))];
        assert Keys(valued) == ["@value"];
        var withType :=
          if Truthy(node.dataType) then
            PutKeepsFront(valued, "@type", JUndefined);
            Put(valued, "@type", JUndefined)
          else valued;
        var formatted :=
          if Truthy(node.language) then
            PutKeepsFront(withType, "@language", JUndefined);
            Put(withType, "@language", JUndefined)
          else withType;
        assert Keys(withType) == ["@value"] + (if Truthy(node.dataType) then ["@type"] else []);
        JObj(formatted)
  }

  /** Mapping an immutable set of formatted values: equal strings collapse into their first
      occurrence, while objects, compared by identity in the source, never do. */
  function Dedupe(xs: seq<Json>): (r: seq<Json>)
    ensures forall x :: x in r <==> x in xs
    ensures |r| <= |xs|
    ensures forall i, j :: 0 <= i < j < |r| && r[i] == r[j] ==> !r[i].JStr?
    ensures forall x: Json :: !x.JStr? ==> multiset(r)[x] == multiset(xs)[x]
    ensures forall x: Json :: x.JStr? && x in xs ==> multiset(r)[x] == 1
    decreases |xs|
  {
    if xs == [] then []
    else
      var init := Dedupe(xs[..|xs| - 1]);
      var x := xs[|xs| - 1];
      assert xs == xs[..|xs| - 1] + [x];
      if x.JStr? && x in init then init else init + [x]
  }

  /** `nodes.map(formatNode)` on a node set: every node rendered, in enumeration order, equal
      strings collapsed. */
  function FormatAll(nodes: set<Node>): (r: seq<Json>)
    ensures forall x :: x in r <==> exists n :: n in nodes && x == FormatNode(Some(n))
    ensures |r| <= |nodes|
    ensures nodes == {} ==> r == []
  {
    var formatted := FormatEach(Enumerate(nodes));
    FormatEachMembers(Enumerate(nodes), nodes);
    Dedupe(formatted)
  }

  function FormatEach(xs: seq<Node>): (r: seq<Json>)
    ensures |r| == |xs| && forall i :: 0 <= i < |xs| ==> r[i] == FormatNode(Some(xs[i]))
  {
    seq(|xs|, i requires 0 <= i < |xs| => FormatNode(Some(xs[i])))
  }

  lemma FormatEachMembers(xs: seq<Node>, nodes: set<Node>)
    requires forall n :: n in xs <==> n in nodes
    ensures forall x :: x in FormatEach(xs) <==> exists n :: n in nodes && x == FormatNode(Some(n))
  {
    var formatted := FormatEach(xs);
    forall x | x in formatted ensures exists n :: n in nodes && x == FormatNode(Some(n)) {
      var i :| 0 <= i < |xs| && formatted[i] == x;
      assert xs[i] in nodes;
    }
    forall x | exists n :: n in nodes && x == FormatNode(Some(n)) ensures x in formatted {
      var n :| n in nodes && x == FormatNode(Some(n));
      var i :| 0 <= i < |xs| && xs[i] == n;
      assert formatted[i] == x;
    }
  }

  // ---------------------------------------------------------------------------------------------
  // Combining lookups

  /** `await all(promises)` over settled outcomes: every value, in order, or the first failure. */
  function All<T>(rs: seq<Result<T, Error>>): (r: Result<seq<T>, Error>)
    ensures r.Success? <==> forall i :: 0 <= i < |rs| ==> rs[i].Success?
    ensures r.Success? ==> |r.value| == |rs| && forall i :: 0 <= i < |rs| ==> r.value[i] == rs[i].value
    ensures r.Failure? ==> exists i :: 0 <= i < |rs| && rs[i] == Failure(r.error) && forall j :: 0 <= j < i ==> rs[j].Success?
    decreases |rs|
  {
    if rs == [] then Success([])
    else if rs[0].Failure? then Failure(rs[0].error)
    else
      var rest := All(rs[1..]);
      assert forall i :: 1 <= i < |rs| ==> rs[1..][i - 1] == rs[i];
      if rest.Failure? then
        var k :| 0 <= k < |rs[1..]| && rs[1..][k] == Failure(rest.error) && forall j :: 0 <= j < k ==> rs[1..][j].Success?;
        assert rs[k + 1] == Failure(rest.error);
        Failure(rest.error)
      else
        Success([rs[0].value] + rest.value)
  }

  /** The `TypeError` a `reduce` without a start value raises on an empty array. */
  const ReduceOfEmpty := TypeError("Reduce of empty array with no initial value")

  /** `(await all(lookups)).reduce(union)`: the first failure, else the union of the answers; no
      lookups at all is the `reduce` error. */
  function UnionAll(rs: seq<Result<set<Node>, Error>>): (r: Result<set<Node>, Error>)
    ensures rs == [] ==> r == Failure(ReduceOfEmpty)
    ensures r.Success? <==> rs != [] && forall i :: 0 <= i < |rs| ==> rs[i].Success?
    ensures r.Failure? && rs != [] ==>
      exists i :: 0 <= i < |rs| && rs[i] == Failure(r.error) && forall j :: 0 <= j < i ==> rs[j].Success?
    ensures r.Success? ==> forall x :: x in r.value <==> exists i :: 0 <= i < |rs| && x in rs[i].value
    decreases |rs|
  {
    if rs == [] then Failure(ReduceOfEmpty)
    else if rs[0].Failure? then Failure(rs[0].error)
    else if |rs| == 1 then Success(rs[0].value)
    else
      var rest := UnionAll(rs[1..]);
      assert forall i :: 1 <= i < |rs| ==> rs[1..][i - 1] == rs[i];
      if rest.Failure? then
        var k :| 0 <= k < |rs[1..]| && rs[1..][k] == Failure(rest.error) && forall j :: 0 <= j < k ==> rs[1..][j].Success?;
        assert rs[k + 1] == Failure(rest.error);
        Failure(rest.error)
      else
        Success(rs[0].value + rest.value)
  }

  /** `matches.reduce(intersect)`: the nodes every match selects; an empty match list is the
      `reduce` error. */
  function IntersectAll(ss: seq<set<Node>>): (r: Result<set<Node>, Error>)
    ensures r.Failure? <==> ss == []
    ensures r.Failure? ==> r.error == ReduceOfEmpty
    ensures r.Success? ==> r.value <= ss[0]
    ensures r.Success? ==> forall x :: x in r.value <==> forall i :: 0 <= i < |ss| ==> x in ss[i]
    decreases |ss|
  {
    if ss == [] then Failure(ReduceOfEmpty)
    else if |ss| == 1 then Success(ss[0])
    else
      var init := IntersectAll(ss[..|ss| - 1]);
      Success(init.value * ss[|ss| - 1])
  }

  // ---------------------------------------------------------------------------------------------
  // The engine

  /** A query engine: its backend and the prefix map of the query it runs. */
  datatype Engine = Engine(backend: Backends.Backend, prefixMap: PrefixMap)

  /** `getObjects(node, predicate)` for each node, united; the predicate is resolved inside each
      lookup. */
  function ObjectsOfAll(e: Engine, xs: seq<Node>, pred: Id): (r: Result<set<Node>, Error>)
    ensures r.Success? <==> (xs != [] && ToNode(e.prefixMap, pred).Success?
      && forall i :: 0 <= i < |xs| ==> e.backend.objects(xs[i], ToNode(e.prefixMap, pred).value).Success?)
    ensures r.Success? ==> (ToNode(e.prefixMap, pred).Success?
      && (forall x :: x in r.value <==>
            exists i :: 0 <= i < |xs| && x in e.backend.objects(xs[i], ToNode(e.prefixMap, pred).value).value))
    ensures xs == [] ==> r == Failure(ReduceOfEmpty)
  {
    var p := ToNode(e.prefixMap, pred);
    var rs := seq(|xs|, i requires 0 <= i < |xs| => if p.Failure? then Failure(p.error) else e.backend.objects(xs[i], p.value));
    assert p.Success? ==> forall i :: 0 <= i < |xs| ==> rs[i] == e.backend.objects(xs[i], p.value);
    assert p.Failure? && xs != [] ==> rs[0].Failure?;
    UnionAll(rs)
  }

  /** `getSubjects(predicate, node, namedGraph)` for each node, united. */
  function SubjectsOfAll(e: Engine, pred: Id, xs: seq<Node>, namedGraph: Option<Node>): (r: Result<set<Node>, Error>)
    ensures r.Success? <==> (xs != [] && ToNode(e.prefixMap, pred).Success?
      && forall i :: 0 <= i < |xs| ==> e.backend.subjects(ToNode(e.prefixMap, pred).value, xs[i], namedGraph).Success?)
    ensures r.Success? ==> (ToNode(e.prefixMap, pred).Success?
      && (forall x :: x in r.value <==>
            exists i :: 0 <= i < |xs| && x in e.backend.subjects(ToNode(e.prefixMap, pred).value, xs[i], namedGraph).value))
    ensures xs == [] ==> r == Failure(ReduceOfEmpty)
  {
    var p := ToNode(e.prefixMap, pred);
    var rs := seq(|xs|, i requires 0 <= i < |xs| => if p.Failure? then Failure(p.error) else e.backend.subjects(p.value, xs[i], namedGraph));
    assert p.Success? ==> forall i :: 0 <= i < |xs| ==> rs[i] == e.backend.subjects(p.value, xs[i], namedGraph);
    assert p.Failure? && xs != [] ==> rs[0].Failure?;
    UnionAll(rs)
  }

  /** `specifiedNodes` for the value of a leaf match: a URI or prefixed URI is the set of its node;
      a string literal falls to the `QueryError` of an unknown specifier. */
  function ValueNodes(e: Engine, v: Value): (r: Result<set<Node>, Error>)
    ensures v.IdValue? ==> r == (if ToNode(e.prefixMap, v.id).Success? then Success({ToNode(e.prefixMap, v.id).value})
                                 else Failure(ToNode(e.prefixMap, v.id).error))
    ensures v.StringLiteralNode? ==> r.Failure? && Name(r.error) == "QueryError"
  {
    match v
    case IdValue(id) =>
      var n :- ToNode(e.prefixMap, id);
      Success({n})
    case StringLiteralNode(_) => Failure(QueryError("Invalid node specifier type: [object Object]"))
  }

  /** The `TypeError` of mapping over a null context. */
  const NullContext := TypeError("Cannot read properties of null (reading 'map')")

  /** `contextSensitiveQuery(context, csq)`: the nodes the specifier selects from `{context}`,
      each traversed. No node gives `{}`; an empty or subject specifier gives the first result
      (there is at most one); a graph specifier gives `{@id, @graph}` with all of them. */
  function Csq(e: Engine, context: Node, q: ContextSensitiveQuery): (r: Result<Json, Error>)
    ensures r.Success? ==> r.value.JObj?
    decreases q, 0, 0
  {
    var nodes :- SpecifiedNodes(e, Some({context}), q.nodeSpecifier);
    var results :- All(TraverseEach(e, Enumerate(nodes), q.traversal));
    if results == [] then Success(JObj([]))
    else match q.nodeSpecifier
      case EmptyNodeSpecifier => Success(results[0])
      case MatchingNodeSpecifier(Subject, _) => Success(results[0])
      case MatchingNodeSpecifier(Graph, _) => Success(JObj([("@id", JStr(context.value)), ("@graph", JArr(results))]))
  }

  /** `contextSensitiveQuery` for each node, in order. */
  function CsqEach(e: Engine, xs: seq<Node>, q: ContextSensitiveQuery): (rs: seq<Result<Json, Error>>)
    ensures |rs| == |xs|
    decreases q, 1, 0
  {
    seq(|xs|, i requires 0 <= i < |xs| => Csq(e, xs[i], q))
  }

  /** `specifiedNodes(context, nodeSpec)`: an empty specifier keeps the context, a matching one
      intersects its matches. A null context (`None`) with an empty specifier is the `TypeError`
      every caller then raises by mapping over it. In a subject context the nodes selected are
      among the context's. */
  function SpecifiedNodes(e: Engine, context: Option<set<Node>>, ns: NodeSpecifier): (r: Result<set<Node>, Error>)
    ensures ns.EmptyNodeSpecifier? ==> r == (if context.Some? then Success(context.value) else Failure(NullContext))
    ensures ns.MatchingNodeSpecifier? && ns.matchList == [] ==> r == Failure(ReduceOfEmpty)
    ensures ns.MatchingNodeSpecifier? && ns.contextType == Subject ==> r.Success? || r == Failure(ReduceOfEmpty)
    ensures ns.MatchingNodeSpecifier? && ns.contextType == Subject && context.Some? && r.Success? ==> r.value <= context.value
    decreases ns, 1, 0
  {
    match ns
    case EmptyNodeSpecifier => if context.Some? then Success(context.value) else Failure(NullContext)
    case MatchingNodeSpecifier(ct, _) =>
      var ss :- All(MatchList(e, context, ns));
      IntersectAll(ss)
  }

  /** The result of each match of a match list, all against the same context. */
  function MatchList(e: Engine, context: Option<set<Node>>, ns: NodeSpecifier): (rs: seq<Result<set<Node>, Error>>)
    requires ns.MatchingNodeSpecifier?
    ensures |rs| == |ns.matchList|
    ensures forall j :: 0 <= j < |rs| ==> rs[j] == Matches(e, context, ns.contextType, ns.matchList[j])
    ensures ns.contextType == Subject ==> forall j :: 0 <= j < |rs| ==> rs[j].Success?
    ensures ns.contextType == Subject && context.Some? ==> forall j :: 0 <= j < |rs| ==> rs[j].value <= context.value
    decreases ns, 0, 0
  {
    seq(|ns.matchList|, j requires 0 <= j < |ns.matchList| => Matches(e, context, ns.contextType, ns.matchList[j]))
  }

  /** `matches(context, contextType, match)`. In a subject context: the objects of the context
      nodes along the predicate, narrowed by the match's value or nested specifier, then the
      subjects of those along the predicate, kept only when in the context; any failure on the
      way yields no nodes. In a graph context (always a single named graph): the subjects, within
      that graph, of the nodes the match's value or nested specifier selects on its own; failures
      propagate. */
  function Matches(e: Engine, context: Option<set<Node>>, ct: ContextType, m: Match): (r: Result<set<Node>, Error>)
    ensures ct == Subject ==> r.Success?
    ensures ct == Subject && context.Some? ==> r.value <= context.value
    ensures ct == Subject && context.None? ==> r.value == {}
    ensures ct == Graph && (context.None? || |context.value| != 1) ==> r == Success({})
    ensures ct == Subject && context.Some? && SubjectMatch(e, context.value, m).Failure? ==> r == Success({})
    ensures ct == Subject && context.Some? && SubjectMatch(e, context.value, m).Success? ==>
      r == Success(context.value * SubjectMatch(e, context.value, m).value)
    ensures ct == Graph && context.Some? && |context.value| == 1 ==>
      var selected := if m.IntermediateMatch? then SpecifiedNodes(e, None, m.nodeSpecifier) else ValueNodes(e, m.value);
      && Enumerate(context.value)[0] in context.value
      && (selected.Failure? ==> r == Failure(selected.error))
      && (selected.Success? ==> r == SubjectsOfAll(e, m.pred, Enumerate(selected.value), Some(Enumerate(context.value)[0])))
    decreases m, 1, 0
  {
    match ct
    case Subject =>
      if context.None? then Success({})
      else
        var attempt := SubjectMatch(e, context.value, m);
        if attempt.Failure? then Success({}) else Success(context.value * attempt.value)
    case Graph =>
      if context.None? || |context.value| != 1 then Success({})
      else
        var namedGraph := Enumerate(context.value)[0];
        var selected :- if m.IntermediateMatch? then SpecifiedNodes(e, None, m.nodeSpecifier) else ValueNodes(e, m.value);
        SubjectsOfAll(e, m.pred, Enumerate(selected), Some(namedGraph))
  }

  /** The lookups of a subject-context match, before its failures are swallowed. */
  function SubjectMatch(e: Engine, context: set<Node>, m: Match): (r: Result<set<Node>, Error>)
    ensures context == {} ==> r == Failure(ReduceOfEmpty)
    ensures r.Success? ==> (ToNode(e.prefixMap, m.pred).Success?
      && forall c :: c in context ==> e.backend.objects(c, ToNode(e.prefixMap, m.pred).value).Success?)
    ensures r.Success? ==> forall x :: x in r.value ==>
      exists o :: e.backend.subjects(ToNode(e.prefixMap, m.pred).value, o, None).Success?
        && x in e.backend.subjects(ToNode(e.prefixMap, m.pred).value, o, None).value
    decreases m, 0, 0
  {
    var objects :- ObjectsOfAll(e, Enumerate(context), m.pred);
    var selected :- if m.IntermediateMatch? then SpecifiedNodes(e, Some(objects), m.nodeSpecifier) else ValueNodes(e, m.value);
    SubjectsOfAll(e, m.pred, Enumerate(selected), None)
  }

  /** What one selector contributes: its one-key object or its failure. */
  datatype Outcome = Completed(results: seq<Json>) | Stopped(error: Error)

  /** `traverse` for each node, in order. */
  function TraverseEach(e: Engine, xs: seq<Node>, t: Traversal): (rs: seq<Result<Json, Error>>)
    ensures |rs| == |xs|
    decreases t, 2, 0
  {
    seq(|xs|, i requires 0 <= i < |xs| => Traverse(e, xs[i], t))
  }

  /** The `@id` field of a node's response object. */
  function IdField(node: Node): (string, Json) {
    ("@id", JStr(node.value))
  }

  /** `results.reduce((response, result) => ({...response, ...result}), {})`. */
  function SpreadAll(results: seq<Json>): (r: seq<(string, Json)>)
    ensures (forall k :: 0 <= k < |results| ==> UniqueKeys(Fields(results[k]))) ==> UniqueKeys(r)
    ensures results != [] && UniqueKeys(Fields(results[|results| - 1])) ==>
      forall key :: Get(Fields(results[|results| - 1]), key).Some? ==> Get(r, key) == Get(Fields(results[|results| - 1]), key)
    decreases |results|
  {
    if results == [] then [] else Spread(SpreadAll(results[..|results| - 1]), Fields(results[|results| - 1]))
  }

  /** `traverse(node, traversal)`: the node's `@id` followed by every selector's field; or, once
      a leaf selector fails with an inline error, the `@id` and that `@error` alone. */
  function Traverse(e: Engine, node: Node, t: Traversal): (r: Result<Json, Error>)
    ensures r.Success? ==> r.value.JObj? && r.value.fields != [] && r.value.fields[0].0 == "@id"
    decreases t, 1, 0
  {
    Response(node, SelectorLoop(t.selectorList, SelectorResults(e, node, t), 0, []))
  }

  /** The object `traverse` answers once its loop has ended: the `@id` and the `@error` of a stop,
      or the `@id` followed by the spread of the collected results. */
  function Response(node: Node, out: Result<Outcome, Error>): (r: Result<Json, Error>)
    ensures r.Success? <==> out.Success?
    ensures out.Failure? ==> r == Failure(out.error)
    ensures r.Success? ==> r.value.JObj? && r.value.fields != [] && r.value.fields[0].0 == "@id"
    ensures out.Success? && out.value.Stopped? ==>
      Keys(r.value.fields) == ["@id", "@error"] && r.value.fields[1].1 == FormatErrorForResponse(out.value.error)
  {
    var o :- out;
    match o
    case Stopped(err) => Success(JObj([IdField(node), ("@error", FormatErrorForResponse(err))]))
    case Completed(results) => Success(JObj(Spread([IdField(node)], SpreadAll(results))))
  }

  /** What each selector of the traversal answers for the node, in order. The backend is
      stateless, so a selector's answer does not depend on whether the loop reaches it. */
  function SelectorResults(e: Engine, node: Node, t: Traversal): (rs: seq<Result<Json, Error>>)
    ensures |rs| == |t.selectorList|
    ensures forall i :: 0 <= i < |rs| ==> rs[i] == SelectorResult(e, node, t.selectorList[i])
    decreases t, 0, 0
  {
    seq(|t.selectorList|, i requires 0 <= i < |t.selectorList| => SelectorResult(e, node, t.selectorList[i]))
  }

  /** What one selector answers: its one-key object or its failure. */
  function SelectorResult(e: Engine, node: Node, sel: Selector): (r: Result<Json, Error>)
    ensures r.Success? ==> r.value.JObj? && |r.value.fields| == 1
    decreases sel, 1, 0
  {
    match sel
    case LeafSelector(edge) => TraverseLeafSelector(e, node, edge)
    case IntermediateSelector(_, _) => TraverseIntermediateSelector(e, node, sel)
  }

  /** The `for` loop of `traverse` from selector `i`, with the results so far, over the answers of
      the selectors: a success is collected, a leaf selector's inline error stops the loop, and any
      other failure is rethrown. */
  function SelectorLoop(sels: seq<Selector>, rs: seq<Result<Json, Error>>, i: nat, acc: seq<Json>): (r: Result<Outcome, Error>)
    requires |rs| == |sels| && i <= |sels|
    ensures r.Success? && r.value.Completed? <==> forall j :: i <= j < |rs| ==> rs[j].Success?
    ensures r.Success? && r.value.Completed? ==>
      (|r.value.results| == |acc| + |rs| - i && r.value.results[..|acc|] == acc
       && forall j :: i <= j < |rs| ==> r.value.results[|acc| + j - i] == rs[j].value)
    ensures !(r.Success? && r.value.Completed?) ==>
      exists k :: i <= k < |rs| && rs[k].Failure? && (forall j :: i <= j < k ==> rs[j].Success?)
        && r == (if sels[k].LeafSelector? && IsInlineError(rs[k].error) then Success(Stopped(rs[k].error)) else Failure(rs[k].error))
    decreases |sels| - i
  {
    if i == |sels| then Success(Completed(acc))
    else if rs[i].Success? then SelectorLoop(sels, rs, i + 1, acc + [rs[i].value])
    else if sels[i].LeafSelector? && IsInlineError(rs[i].error) then Success(Stopped(rs[i].error))
    else Failure(rs[i].error)
  }

  /** `traverseIntermediateSelector`: the sub-query's response for the first object of a single
      edge (null when there is none), or the list of responses for every object of a multi edge,
      under the predicate's (prefixed) name. */
  function TraverseIntermediateSelector(e: Engine, node: Node, sel: Selector): (r: Result<Json, Error>)
    requires sel.IntermediateSelector?
    ensures r.Success? ==> r.value.JObj? && |r.value.fields| == 1
    decreases sel, 0, 0
  {
    match sel.edge
    case SingleEdge(p) =>
      var next :- NextObject(e, node, p);
      var sub :- if next.None? then Success(JNull) else Csq(e, next.value, sel.contextSensitiveQuery);
      var pv :- ToNode(e.prefixMap, p);
      Success(JObj([(ToPrefixed(e.prefixMap, pv.value), sub)]))
    case MultiEdge(p) =>
      var objects :- NextObjects(e, node, p);
      var subs :- All(CsqEach(e, Enumerate(objects), sel.contextSensitiveQuery));
      var pv :- ToNode(e.prefixMap, p);
      Success(JObj([(ToPrefixed(e.prefixMap, pv.value), JArr(subs))]))
  }

  // ---------------------------------------------------------------------------------------------
  // Edges without sub-queries

  /** `getNextObjectsForSelector`: the objects of the node along the edge's predicate. */
  function NextObjects(e: Engine, node: Node, pred: Id): (r: Result<set<Node>, Error>)
    ensures ToNode(e.prefixMap, pred).Failure? ==> r == Failure(ToNode(e.prefixMap, pred).error)
    ensures ToNode(e.prefixMap, pred).Success? ==> r == e.backend.objects(node, ToNode(e.prefixMap, pred).value)
  {
    var p :- ToNode(e.prefixMap, pred);
    e.backend.objects(node, p)
  }

  /** `getNextObjectForSelector`: the first of those objects, or null. */
  function NextObject(e: Engine, node: Node, pred: Id): (r: Result<Option<Node>, Error>)
    ensures r.Success? <==> NextObjects(e, node, pred).Success?
    ensures r.Success? ==> (r.value.None? <==> NextObjects(e, node, pred).value == {})
    ensures r.Success? && r.value.Some? ==> IsLeast(r.value.value, NextObjects(e, node, pred).value)
  {
    var objects :- NextObjects(e, node, pred);
    Success(First(objects))
  }

  /** `traverseLeafSelector`: under the predicate's (prefixed) name, the first object of a single
      edge rendered (null when there is none), or every object of a multi edge rendered (an empty
      list when there is none). */
  function TraverseLeafSelector(e: Engine, node: Node, edge: Edge): (r: Result<Json, Error>)
    ensures ToNode(e.prefixMap, edge.pred).Failure? ==> r == Failure(ToNode(e.prefixMap, edge.pred).error)
    ensures r.Failure? <==> NextObjects(e, node, edge.pred).Failure?
    ensures r.Failure? ==> r.error == NextObjects(e, node, edge.pred).error
    ensures r.Success? ==> (r.value.JObj? && |r.value.fields| == 1
      && r.value.fields[0].0 == ToPrefixed(e.prefixMap, ToNode(e.prefixMap, edge.pred).value.value))
    ensures r.Success? && edge.SingleEdge? ==>
      (r.value.fields[0].1 == JNull <==> NextObjects(e, node, edge.pred).value == {})
    ensures r.Success? && edge.SingleEdge? ==> r.value.fields[0].1 == FormatNode(NextObject(e, node, edge.pred).value)
    ensures r.Success? && edge.MultiEdge? ==> (r.value.fields[0].1.JArr?
      && (forall x :: x in r.value.fields[0].1.items <==> exists n :: n in NextObjects(e, node, edge.pred).value && x == FormatNode(Some(n)))
      && |r.value.fields[0].1.items| <= |NextObjects(e, node, edge.pred).value|)
  {
    var pv :- ToNode(e.prefixMap, edge.pred);
    var key := ToPrefixed(e.prefixMap, pv.value);
    match edge
    case SingleEdge(p) =>
      var next :- NextObject(e, node, p);
      Success(JObj([(key, FormatNode(next))]))
    case MultiEdge(p) =>
      var objects :- NextObjects(e, node, p);
      Success(JObj([(key, JArr(FormatAll(objects)))]))
  }

  // ---------------------------------------------------------------------------------------------
  // Whole queries

  /** The answer of the query's context-sensitive part for its resolved context node. */
  function ContextAnswer(backend: Backends.Backend, ast: Query): Result<Json, Error> {
    var pm := GetPrefixMap(ast.prefixList);
    var context :- ToNode(pm, ast.context);
    Csq(Engine(backend, pm), context, ast.contextSensitiveQuery)
  }

  /** `QueryEngine.query(ast)`: the prefix map as `@context`, followed by the fields of the
      context's response, which override `@context` if they have it. */
  function RunQuery(backend: Backends.Backend, ast: Query): (r: Result<Json, Error>)
    ensures r.Success? ==> r.value.JObj? && r.value.fields != [] && r.value.fields[0].0 == "@context"
    ensures ToNode(GetPrefixMap(ast.prefixList), ast.context).Failure? ==>
      r == Failure(ToNode(GetPrefixMap(ast.prefixList), ast.context).error)
    ensures r.Success? <==> ContextAnswer(backend, ast).Success?
    ensures r.Failure? ==> r.error == ContextAnswer(backend, ast).error
    ensures r.Success? && UniqueKeys(Fields(ContextAnswer(backend, ast).value)) ==>
      && UniqueKeys(r.value.fields)
      && (Get(Fields(ContextAnswer(backend, ast).value), "@context").None? ==>
            Get(r.value.fields, "@context") == Some(JObj(GetPrefixMap(ast.prefixList))))
      && forall k :: k != "@context" ==> Get(r.value.fields, k) == Get(Fields(ContextAnswer(backend, ast).value), k)
  {
    var results :- ContextAnswer(backend, ast);
    var head := [("@context", JObj(GetPrefixMap(ast.prefixList)))];
    assert UniqueKeys(head) by {
      assert Keys(head) == ["@context"];
    }
    assert forall k :: k != "@context" ==> Get(head, k) == None by {
      forall k | k != "@context" ensures Get(head, k) == None {
        assert head[1..] == [];
      }
    }
    Success(JObj(Spread(head, Fields(results))))
  }

  /** `query(backend, text)`: parse, run, and only after a successful run trigger `queryDone`;
      the second component lists the handlers called, in order. */
  function Run<H>(backend: Backends.Backend, reg: Backends.Registry<H>, text: string, isWebUri: string -> bool): (r: (Result<Json, Error>, seq<H>))
    ensures Parser.Parse(text, isWebUri).Failure? ==> r.0 == Failure(Parser.Parse(text, isWebUri).error)
    ensures Parser.Parse(text, isWebUri).Success? ==> r.0 == RunQuery(backend, Parser.Parse(text, isWebUri).value)
    ensures r.1 == if r.0.Success? then Backends.Handlers(reg, "queryDone") else []
  {
    var ast := Parser.Parse(text, isWebUri);
    if ast.Failure? then (Failure(ast.error), [])
    else
      var resp := RunQuery(backend, ast.value);
      if resp.Failure? then (resp, []) else (resp, Backends.Trigger(reg, "queryDone"))
  }
}
