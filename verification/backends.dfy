/** The backend interface the query engine talks to, its event registry, and the in-memory
    backend that answers from one graph. */
module Backends {

  import opened Wrappers
  import opened Nodes
  import opened Errors
  import opened Indexes
  import opened Graphs
  import opened Strings

  // ---------------------------------------------------------------------------------------------
  // The event registry

  /** `eventHandlers`: for each event name, its handlers in registration order. */
  type Registry<H> = map<string, seq<H>>

  function Handlers<H>(reg: Registry<H>, name: string): seq<H> {
    if name in reg then reg[name] else []
  }

  /** `on(name, handler)`: the handler goes last in that name's list; no other list changes. */
  function On<H>(reg: Registry<H>, name: string, h: H): (r: Registry<H>)
    ensures Handlers(r, name) == Handlers(reg, name) + [h]
    ensures forall other :: other != name ==> Handlers(r, other) == Handlers(reg, other)
  {
    reg[name := Handlers(reg, name) + [h]]
  }

  /** `trigger(name)`: the handlers it calls, each once and in registration order; a name with
      no handlers calls nothing. The result list has one entry per call. */
  function Trigger<H>(reg: Registry<H>, name: string): (calls: seq<H>)
    ensures name !in reg ==> calls == []
  {
    Handlers(reg, name)
  }

  /** Registering the handlers of a list of `on` calls, one after the other. */
  function RegisterAll<H>(events: seq<(string, H)>): Registry<H>
    decreases |events|
  {
    if events == [] then map[]
    else On(RegisterAll(events[..|events| - 1]), events[|events| - 1].0, events[|events| - 1].1)
  }

  /** The handlers registered under `name` in a list of `on` calls, in call order. */
  function RegisteredUnder<H>(events: seq<(string, H)>, name: string): seq<H>
    decreases |events|
  {
    if events == [] then []
    else if events[|events| - 1].0 == name then RegisteredUnder(events[..|events| - 1], name) + [events[|events| - 1].1]
    else RegisteredUnder(events[..|events| - 1], name)
  }

  /** After any sequence of `on` calls, `trigger(name)` calls exactly the handlers registered
      under `name`, in the order they were registered, and none registered under another name. */
  lemma {:induction false} TriggerCallsRegistered<H>(events: seq<(string, H)>, name: string)
    ensures Trigger(RegisterAll(events), name) == RegisteredUnder(events, name)
    decreases |events|
  {
    if events != [] {
      TriggerCallsRegistered(events[..|events| - 1], name);
    }
  }

  // ---------------------------------------------------------------------------------------------
  // The interface

  /** A backend as the query engine sees it: `getObjects(subject, predicate)` and
      `getSubjects(predicate, object, namedGraph)`, each answering a node set or an error. */
  datatype Backend = Backend(
    objects: (Node, Node) -> Result<set<Node>, Error>,
    subjects: (Node, Node, Option<Node>) -> Result<set<Node>, Error>)

  /** What the base class's `getObjects` and `getSubjects` answer: the `NotImplementedError` that
      names the method and the class. */
  function NotImplemented(methodName: string, className: string): (r: Result<set<Node>, Error>)
    ensures r.Failure? && Name(r.error) == "NotImplementedError"
    ensures Message(r.error) == methodName + " not implemented on " + className
  {
    Failure(NotImplementedError(methodName, className))
  }

  /** The base class, which implements neither lookup: every call is rejected, naming the method
      called. */
  function AbstractBackend(className: string): (b: Backend)
    ensures forall s, p :: b.objects(s, p) == NotImplemented("getObjects", className)
    ensures forall p, o, g :: b.subjects(p, o, g) == NotImplemented("getSubjects", className)
  {
    Backend((s, p) => NotImplemented("getObjects", className), (p, o, g) => NotImplemented("getSubjects", className))
  }

  // ---------------------------------------------------------------------------------------------
  // The in-memory backend

  /** `getObjects(s, p)`: `match({subject, predicate})` on the graph, which on a consistent graph
      is the objects of the quads with that subject and predicate. */
  function GetObjects(g: Graph, s: Node, p: Node): (r: set<Node>)
    ensures Consistent(g) ==> r == ObjectsOf(g.quads, s, p)
  {
    Graphs.Match(g, Pattern(Some(s), Some(p), None, None)).value
  }

  /** `getSubjects(p, o, g)`: `match({predicate, object, graph: g || null})`, which reads the
      (predicate, object) index without a graph and the (predicate, object, graph) index with
      one. */
  function GetSubjects(g: Graph, p: Node, o: Node, namedGraph: Option<Node>): (r: set<Node>)
    ensures Consistent(g) && namedGraph.None? ==> r == SubjectsOf(g.quads, p, o)
    ensures Consistent(g) && namedGraph.Some? ==> r == SubjectsIn(g.quads, p, o, namedGraph.value)
  {
    Graphs.Match(g, Pattern(None, Some(p), Some(o), namedGraph)).value
  }

  /** The in-memory backend never rejects. */
  function InMemory(g: Graph): (b: Backend)
    ensures forall s, p :: b.objects(s, p) == Success(GetObjects(g, s, p))
    ensures forall p, o, ng :: b.subjects(p, o, ng) == Success(GetSubjects(g, p, o, ng))
  {
    Backend((s, p) => Success(GetObjects(g, s, p)), (p, o, ng) => Success(GetSubjects(g, p, o, ng)))
  }

  /** On a consistent graph, an object is found for (s, p) exactly when some quad (s, p, o) is
      in the graph. */
  lemma InMemoryObjectsSound(g: Graph, s: Node, p: Node, o: Node)
    requires Consistent(g)
    ensures o in GetObjects(g, s, p) <==> exists q :: q in g.quads && q.subject == s && q.pred == p && q.obj == o
  {
    if o in GetObjects(g, s, p) {
      var q :| q in g.quads && q.subject == s && q.pred == p && q.obj == o;
    }
  }

  /** On a consistent graph, a subject is found for (p, o) exactly when some quad (s, p, o) is in
      the graph, and for (p, o, g) exactly when such a quad is in the named graph g. */
  lemma InMemorySubjectsSound(g: Graph, p: Node, o: Node, ng: Option<Node>, s: Node)
    requires Consistent(g)
    ensures s in GetSubjects(g, p, o, ng) <==>
      exists q :: q in g.quads && q.subject == s && q.pred == p && q.obj == o && (ng.Some? ==> q.graph == ng)
  {
    if s in GetSubjects(g, p, o, ng) {
      var q :| q in g.quads && q.subject == s && q.pred == p && q.obj == o && (ng.Some? ==> q.graph == ng);
    }
  }

  // ---------------------------------------------------------------------------------------------
  // Graph names of the loading backends

  /** `getGraphName(node)`: the document a named node lives in, which is its value up to the first
      `#` (all of it when there is none); other terms have no graph name. */
  function GraphName(n: Node): (r: Option<string>)
    ensures r.Some? <==> n.termType == "NamedNode"
    ensures r.Some? ==> StartsWith(n.value, r.value) && '#' !in r.value
    ensures r.Some? && |r.value| < |n.value| ==> n.value[|r.value|] == '#'
  {
    if n.termType == "NamedNode" then Some(BeforeFirst(n.value, '#')) else None
  }

  /** The graph name is the longest prefix of the value without `#`: nothing shorter or longer
      satisfies both `GraphName` properties. */
  lemma GraphNameUnique(n: Node, name: string)
    requires n.termType == "NamedNode"
    requires StartsWith(n.value, name) && '#' !in name
    requires |name| < |n.value| ==> n.value[|name|] == '#'
    ensures GraphName(n) == Some(name)
  {
    var r := GraphName(n).value;
    assert r == n.value[..|r|] && name == n.value[..|name|];
  }

  /** A name a loading backend will fetch: present and not empty. */
  predicate Fetchable(name: Option<string>) {
    name.Some? && name.value != ""
  }
}
