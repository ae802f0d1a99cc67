/** The backend that follows links in a Linked Data Platform network: a document is fetched
    and merged into the graph unless its name is locked, and the lock is taken once the fetch
    has succeeded. The fetch is a parameter. */
module LdpBackend {

  import opened Wrappers
  import opened Nodes
  import opened Errors
  import opened Indexes
  import opened Graphs
  import opened Backends
  import WebBackend

  /** The backend's state: its graph, `lockedGraphs`, and how many fetches it has made. */
  datatype LdpState = LdpState(graph: Graph, lockedGraphs: set<string>, fetches: nat)

  /** `ensureGraphLoaded(name)`. No name (or an empty one) answers `false`; a locked name answers
      `true`; both fetch nothing. Otherwise the name is fetched: a failure rejects and leaves the
      graph and the locks as they were, a success merges the fetched graph, locks the name and
      answers `true`. */
  function EnsureGraphLoaded(st: LdpState, fetch: WebBackend.Fetch, name: Option<string>): (r: (LdpState, Result<bool, Error>))
    ensures !Fetchable(name) ==> r == (st, Success(false))
    ensures Fetchable(name) && name.value in st.lockedGraphs ==> r == (st, Success(true))
    ensures Fetchable(name) && name.value !in st.lockedGraphs ==> r.0.fetches == st.fetches + 1
    ensures Fetchable(name) && name.value !in st.lockedGraphs && fetch(name.value).Failure? ==>
      r.0.graph == st.graph && r.0.lockedGraphs == st.lockedGraphs && r.1 == Failure(fetch(name.value).error)
    ensures Fetchable(name) && name.value !in st.lockedGraphs && fetch(name.value).Success? ==>
      r.0.graph == Union(st.graph, fetch(name.value).value)
      && r.0.lockedGraphs == st.lockedGraphs + {name.value} && r.1 == Success(true)
  {
    if !Fetchable(name) then (st, Success(false))
    else if name.value in st.lockedGraphs then (st, Success(true))
    else
      match fetch(name.value)
      case Failure(e) => (LdpState(st.graph, st.lockedGraphs, st.fetches + 1), Failure(e))
      case Success(g) => (LdpState(Union(st.graph, g), st.lockedGraphs + {name.value}, st.fetches + 1), Success(true))
  }

  /** Once a load has succeeded, loading the same name again fetches nothing. */
  lemma LockedNameNotRefetched(st: LdpState, fetch: WebBackend.Fetch, name: Option<string>)
    requires EnsureGraphLoaded(st, fetch, name).1 == Success(true)
    ensures var st1 := EnsureGraphLoaded(st, fetch, name).0;
      EnsureGraphLoaded(st1, fetch, name) == (st1, Success(true))
  {
  }

  /** The `queryDone` handler: the locks are cleared, the graph is kept. */
  function QueryDone(st: LdpState): (r: LdpState)
    ensures r.graph == st.graph && r.lockedGraphs == {} && r.fetches == st.fetches
  {
    LdpState(st.graph, {}, st.fetches)
  }

  /** `getObjects(s, p)`: load the subject's document first; a failed load rejects. */
  function GetObjects(st: LdpState, fetch: WebBackend.Fetch, s: Node, p: Node): (r: (LdpState, Result<set<Node>, Error>))
    ensures r.0 == EnsureGraphLoaded(st, fetch, GraphName(s)).0
    ensures r.1.Failure? <==> EnsureGraphLoaded(st, fetch, GraphName(s)).1.Failure?
    ensures r.1.Failure? ==> r.1.error == EnsureGraphLoaded(st, fetch, GraphName(s)).1.error
    ensures r.1.Success? ==> r.1.value == Backends.GetObjects(r.0.graph, s, p)
  {
    var (st1, loaded) := EnsureGraphLoaded(st, fetch, GraphName(s));
    if loaded.Failure? then (st1, Failure(loaded.error))
    else (st1, Success(Backends.GetObjects(st1.graph, s, p)))
  }

  /** `getSubjects(p, o, g)`: load the named graph's document only when a graph node is given. */
  function GetSubjects(st: LdpState, fetch: WebBackend.Fetch, p: Node, o: Node, namedGraph: Option<Node>): (r: (LdpState, Result<set<Node>, Error>))
    ensures namedGraph.None? ==> r == (st, Success(Backends.GetSubjects(st.graph, p, o, None)))
    ensures namedGraph.Some? ==> r.0 == EnsureGraphLoaded(st, fetch, GraphName(namedGraph.value)).0
    ensures namedGraph.Some? ==> (r.1.Failure? <==> EnsureGraphLoaded(st, fetch, GraphName(namedGraph.value)).1.Failure?)
    ensures r.1.Failure? ==> namedGraph.Some? && r.1.error == EnsureGraphLoaded(st, fetch, GraphName(namedGraph.value)).1.error
    ensures r.1.Success? ==> r.1.value == Backends.GetSubjects(r.0.graph, p, o, namedGraph)
  {
    if namedGraph.None? then (st, Success(Backends.GetSubjects(st.graph, p, o, None)))
    else
      var (st1, loaded) := EnsureGraphLoaded(st, fetch, GraphName(namedGraph.value));
      if loaded.Failure? then (st1, Failure(loaded.error))
      else (st1, Success(Backends.GetSubjects(st1.graph, p, o, namedGraph)))
  }
}
