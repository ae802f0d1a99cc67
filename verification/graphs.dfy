/** The immutable RDF graph: the three indices and the set of quads they were built from. */
module Graphs {

  import opened Wrappers
  import opened Nodes
  import opened Errors
  import opened Indexes

  datatype Graph = Graph(indices: Indices, quads: set<Quad>)

  /** `new Graph()`: empty indices and no quads. */
  const EmptyGraph := Graph(EmptyIndices, {})

  /** The indices hold exactly what the quads determine. */
  predicate Consistent(g: Graph) {
    Describes(g.indices, g.quads)
  }

  lemma EmptyGraphConsistent()
    ensures Consistent(EmptyGraph)
  {
    EmptyDescribesNothing();
  }

  /** `Graph.fromQuads`: the quads become the quad set, and every quad is indexed under its
      (subject, predicate), (predicate, object) and (predicate, object, graph) keys; nothing
      else is indexed. */
  function FromQuads(qs: seq<Quad>): (g: Graph)
    ensures g.quads == set q | q in qs
    ensures Consistent(g)
    ensures forall q :: q in qs ==>
      SpKey(q) in g.indices.sp && q.obj in g.indices.sp[SpKey(q)]
      && PoKey(q) in g.indices.po && q.subject in g.indices.po[PoKey(q)]
      && PogKey(q) in g.indices.pog && q.subject in g.indices.pog[PogKey(q)]
  {
    var g := Graph(Build(qs), SetOf(qs));
    forall q | q in qs
      ensures SpKey(q) in g.indices.sp && q.obj in g.indices.sp[SpKey(q)]
      ensures PoKey(q) in g.indices.po && q.subject in g.indices.po[PoKey(q)]
      ensures PogKey(q) in g.indices.pog && q.subject in g.indices.pog[PogKey(q)]
    {
      DescribedContains(g.indices, g.quads, q);
    }
    g
  }

  /** `match`; on a consistent graph: a subject and predicate give the objects of the quads with
      them; otherwise a predicate and object give the subjects of the quads with them, within the
      given graph when one is given; every other combination is a `GraphError`. */
  function Match(g: Graph, p: Pattern): (r: Result<set<Node>, Error>)
    ensures Consistent(g) && p.subject.Some? && p.pred.Some? ==>
      r == Success(ObjectsOf(g.quads, p.subject.value, p.pred.value))
    ensures Consistent(g) && !(p.subject.Some? && p.pred.Some?) && p.pred.Some? && p.obj.Some? && p.graph.None? ==>
      r == Success(SubjectsOf(g.quads, p.pred.value, p.obj.value))
    ensures Consistent(g) && !(p.subject.Some? && p.pred.Some?) && p.pred.Some? && p.obj.Some? && p.graph.Some? ==>
      r == Success(SubjectsIn(g.quads, p.pred.value, p.obj.value, p.graph.value))
    ensures r.Failure? <==> !(p.subject.Some? && p.pred.Some?) && !(p.pred.Some? && p.obj.Some?)
    ensures r.Failure? ==> r.error == GraphError(UnsupportedMatch)
  {
    if Consistent(g) then
      MatchAnswers(g.indices, g.quads, p);
      Indexes.Match(g.indices, p)
    else
      Indexes.Match(g.indices, p)
  }

  /** `union`: the quads of both graphs, and indices merged key by key, which are the indices
      of those quads. */
  function Union(g1: Graph, g2: Graph): (r: Graph)
    ensures r.quads == g1.quads + g2.quads
    ensures Consistent(g1) && Consistent(g2) ==> Consistent(r)
  {
    Graph(MergeIndices(g1.indices, g2.indices), g1.quads + g2.quads)
  }

  lemma UnionCommutative(g1: Graph, g2: Graph)
    ensures Union(g1, g2) == Union(g2, g1)
  {
    MergeCommutative(g1.indices.sp, g2.indices.sp);
    MergeCommutative(g1.indices.po, g2.indices.po);
    MergeCommutative(g1.indices.pog, g2.indices.pog);
  }

  lemma UnionAssociative(g1: Graph, g2: Graph, g3: Graph)
    ensures Union(Union(g1, g2), g3) == Union(g1, Union(g2, g3))
  {
    MergeAssociative(g1.indices.sp, g2.indices.sp, g3.indices.sp);
    MergeAssociative(g1.indices.po, g2.indices.po, g3.indices.po);
    MergeAssociative(g1.indices.pog, g2.indices.pog, g3.indices.pog);
  }

  /** The argument-less graph is the identity of `union`. */
  lemma UnionEmpty(g: Graph)
    ensures Union(g, EmptyGraph) == g
    ensures Union(EmptyGraph, g) == g
  {
    MergeEmpty(g.indices.sp);
    MergeEmpty(g.indices.po);
    MergeEmpty(g.indices.pog);
    UnionCommutative(g, EmptyGraph);
  }

  /** A quad set determines its indices, so consistent graphs with the same quads are equal. */
  lemma ConsistentUnique(g1: Graph, g2: Graph)
    requires Consistent(g1) && Consistent(g2) && g1.quads == g2.quads
    ensures g1 == g2
  {
  }

  /** Uniting the graphs of two quad lists gives the graph of both lists. */
  lemma UnionOfFromQuads(qs1: seq<Quad>, qs2: seq<Quad>)
    ensures Union(FromQuads(qs1), FromQuads(qs2)) == FromQuads(qs1 + qs2)
  {
    assert (set q | q in qs1 + qs2) == (set q | q in qs1) + (set q | q in qs2);
    ConsistentUnique(Union(FromQuads(qs1), FromQuads(qs2)), FromQuads(qs1 + qs2));
  }
}
