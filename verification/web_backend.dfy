/** The backend that follows links on the web: each document is a named graph, loaded into the
    in-memory graph the first time a query needs it. The fetch is a parameter; the pending load
    the source stores is modelled by its settled outcome, as loads run to completion one at a
    time here. */
module WebBackend {

  import opened Wrappers
  import opened Nodes
  import opened Errors
  import opened Json
  import opened Indexes
  import opened Graphs
  import opened Backends

  /** What `fetchGraph` does for a document URL. */
  type Fetch = string -> Result<Graph, Error>

  /** A settled entry of `loadingGraphs`: the load succeeded (its promise resolves to
      `undefined`), or it failed with an error every later caller sees too. */
  datatype Load = Loaded | LoadFailed(error: Error)

  /** The backend's state: its graph, `loadingGraphs`, and the names fetched since the last
      reset, in fetch order. */
  datatype WebState = WebState(graph: Graph, loadingGraphs: map<string, Load>, fetched: seq<string>)

  /** `new WebBackend()`: the empty graph and nothing loaded. */
  const Initial := WebState(EmptyGraph, map[], [])

  /** What awaiting a `loadingGraphs` entry gives: `undefined` or the load's error. */
  function Outcome(l: Load): (r: Result<Option<bool>, Error>)
    ensures r.Success? <==> l.Loaded?
    ensures r.Success? ==> r.value.None?
    ensures r.Failure? ==> r.error == l.error
  {
    match l
    case Loaded => Success(None)
    case LoadFailed(e) => Failure(e)
  }

  /** Every name fetched since the last reset was fetched once and has its entry, and every
      entry was fetched: at most one fetch per graph name between resets. */
  predicate Valid(st: WebState) {
    && Distinct(st.fetched)
    && (forall name :: name in st.fetched ==> name in st.loadingGraphs)
    && (forall name :: name in st.loadingGraphs ==> name in st.fetched)
  }

  /** `ensureGraphLoaded(name)`. No name (or an empty one) answers `false` and fetches nothing.
      A name with an entry answers that entry and fetches nothing. Any other name is fetched
      once: on success the graph becomes the union of the old graph and the fetched one, and the
      outcome is remembered either way. */
  function EnsureGraphLoaded(st: WebState, fetch: Fetch, name: Option<string>): (r: (WebState, Result<Option<bool>, Error>))
    ensures !Fetchable(name) ==> r == (st, Success(Some(false)))
    ensures Fetchable(name) && name.value in st.loadingGraphs ==> r == (st, Outcome(st.loadingGraphs[name.value]))
    ensures Fetchable(name) && name.value !in st.loadingGraphs ==>
      && r.0.fetched == st.fetched + [name.value]
      && r.0.loadingGraphs.Keys == st.loadingGraphs.Keys + {name.value}
      && (forall other :: other in st.loadingGraphs ==> r.0.loadingGraphs[other] == st.loadingGraphs[other])
      && (fetch(name.value).Success? ==>
            r.0.graph == Union(st.graph, fetch(name.value).value) && r.1 == Success(None))
      && (fetch(name.value).Failure? ==>
            r.0.graph == st.graph && r.1 == Failure(fetch(name.value).error))
    ensures Fetchable(name) ==> name.value in r.0.loadingGraphs && r.1 == Outcome(r.0.loadingGraphs[name.value])
    ensures Valid(st) ==> Valid(r.0)
  {
    if !Fetchable(name) then (st, Success(Some(false)))
    else if name.value in st.loadingGraphs then (st, Outcome(st.loadingGraphs[name.value]))
    else
      var fetched := st.fetched + [name.value];
      assert Valid(st) ==> Distinct(fetched) by {
        DistinctSnoc(st.fetched, name.value);
      }
      match fetch(name.value)
      case Success(g) =>
        (WebState(Union(st.graph, g), st.loadingGraphs[name.value := Loaded], fetched), Success(None))
      case Failure(e) =>
        (WebState(st.graph, st.loadingGraphs[name.value := LoadFailed(e)], fetched), Failure(e))
  }

  /** A second load of the same name changes nothing and answers what the first did. */
  lemma EnsureGraphLoadedTwice(st: WebState, fetch: Fetch, name: Option<string>)
    ensures EnsureGraphLoaded(EnsureGraphLoaded(st, fetch, name).0, fetch, name)
         == EnsureGraphLoaded(st, fetch, name)
  {
  }

  /** A run of loads, one after the other, as the lookups of one query issue them. */
  function LoadEach(st: WebState, fetch: Fetch, names: seq<Option<string>>): WebState
    decreases |names|
  {
    if names == [] then st
    else EnsureGraphLoaded(LoadEach(st, fetch, names[..|names| - 1]), fetch, names[|names| - 1]).0
  }

  /** However many times names recur in a run of loads, each name is fetched at most once, and
      the names fetched are exactly the non-empty names that occur in the run (beyond those
      fetched before it). */
  lemma {:induction false} LoadEachFetchesOnce(st: WebState, fetch: Fetch, names: seq<Option<string>>)
    requires Valid(st)
    ensures Valid(LoadEach(st, fetch, names))
    ensures forall n :: n in LoadEach(st, fetch, names).fetched <==>
      n in st.fetched || exists i :: 0 <= i < |names| && names[i] == Some(n) && n != ""
    decreases |names|
  {
    if names != [] {
      var init := names[..|names| - 1];
      LoadEachFetchesOnce(st, fetch, init);
      forall n ensures (exists i :: 0 <= i < |names| && names[i] == Some(n) && n != "")
                   <==> (exists i :: 0 <= i < |init| && init[i] == Some(n) && n != "") || (names[|names| - 1] == Some(n) && n != "")
      {
        if exists i :: 0 <= i < |names| && names[i] == Some(n) && n != "" {
          var i :| 0 <= i < |names| && names[i] == Some(n) && n != "";
          if i < |init| {
            assert init[i] == Some(n);
          }
        }
        if exists i :: 0 <= i < |init| && init[i] == Some(n) && n != "" {
          var i :| 0 <= i < |init| && init[i] == Some(n) && n != "";
          assert names[i] == Some(n);
        }
      }
    }
  }

  /** Loading only ever adds quads: a consistent graph stays consistent, when what is fetched is
      consistent, and keeps every quad it had. */
  lemma EnsureGraphLoadedGrows(st: WebState, fetch: Fetch, name: Option<string>)
    ensures st.graph.quads <= EnsureGraphLoaded(st, fetch, name).0.graph.quads
    ensures Consistent(st.graph) && (Fetchable(name) ==> fetch(name.value).Success? ==> Consistent(fetch(name.value).value))
      ==> Consistent(EnsureGraphLoaded(st, fetch, name).0.graph)
  {
  }

  /** The `queryDone` handler: `loadingGraphs` starts over, the graph is kept. */
  function QueryDone(st: WebState): (r: WebState)
    ensures r.graph == st.graph && r.loadingGraphs == map[] && Valid(r)
  {
    WebState(st.graph, map[], [])
  }

  /** After a reset, loading a name fetches it again. */
  lemma RefetchAfterQueryDone(st: WebState, fetch: Fetch, name: Option<string>)
    requires Fetchable(name)
    ensures EnsureGraphLoaded(QueryDone(st), fetch, name).0.fetched == [name.value]
  {
  }

  /** `getObjects(s, p)`: load the subject's document first, then look up in the (possibly
      grown) graph; a failed load rejects the lookup. */
  function GetObjects(st: WebState, fetch: Fetch, s: Node, p: Node): (r: (WebState, Result<set<Node>, Error>))
    ensures r.0 == EnsureGraphLoaded(st, fetch, GraphName(s)).0
    ensures Fetchable(GraphName(s)) ==> GraphName(s).value in r.0.loadingGraphs
    ensures EnsureGraphLoaded(st, fetch, GraphName(s)).1.Failure? <==> r.1.Failure?
    ensures r.1.Failure? ==> r.1.error == EnsureGraphLoaded(st, fetch, GraphName(s)).1.error
    ensures r.1.Success? ==> r.1.value == Backends.GetObjects(r.0.graph, s, p)
    ensures Valid(st) ==> Valid(r.0)
  {
    var (st1, loaded) := EnsureGraphLoaded(st, fetch, GraphName(s));
    if loaded.Failure? then (st1, Failure(loaded.error))
    else (st1, Success(Backends.GetObjects(st1.graph, s, p)))
  }

  /** `getSubjects(p, o, g)`: load the named graph's document only when a graph node is given;
      without one nothing is fetched and the state is unchanged. */
  function GetSubjects(st: WebState, fetch: Fetch, p: Node, o: Node, namedGraph: Option<Node>): (r: (WebState, Result<set<Node>, Error>))
    ensures namedGraph.None? ==> r == (st, Success(Backends.GetSubjects(st.graph, p, o, None)))
    ensures namedGraph.Some? ==> r.0 == EnsureGraphLoaded(st, fetch, GraphName(namedGraph.value)).0
    ensures namedGraph.Some? && Fetchable(GraphName(namedGraph.value)) ==> GraphName(namedGraph.value).value in r.0.loadingGraphs
    ensures namedGraph.Some? ==> (r.1.Failure? <==> EnsureGraphLoaded(st, fetch, GraphName(namedGraph.value)).1.Failure?)
    ensures r.1.Failure? ==> namedGraph.Some? && r.1.error == EnsureGraphLoaded(st, fetch, GraphName(namedGraph.value)).1.error
    ensures r.1.Success? ==> r.1.value == Backends.GetSubjects(r.0.graph, p, o, namedGraph)
    ensures Valid(st) ==> Valid(r.0)
  {
    if namedGraph.None? then (st, Success(Backends.GetSubjects(st.graph, p, o, None)))
    else
      var (st1, loaded) := EnsureGraphLoaded(st, fetch, GraphName(namedGraph.value));
      if loaded.Failure? then (st1, Failure(loaded.error))
      else (st1, Success(Backends.GetSubjects(st1.graph, p, o, namedGraph)))
  }
}
