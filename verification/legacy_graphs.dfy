/** The older graph class: the same three indices, without the quad set. */
module LegacyGraphs {

  import opened Wrappers
  import opened Nodes
  import opened Errors
  import opened Indexes

  datatype LegacyGraph = LegacyGraph(indices: Indices)

  /** `Graph.fromQuads`: every quad is indexed under its three keys and nothing else is; the
      quads themselves are not kept. */
  function FromQuads(qs: seq<Quad>): (g: LegacyGraph)
    ensures Describes(g.indices, set q | q in qs)
    ensures forall q :: q in qs ==>
      SpKey(q) in g.indices.sp && q.obj in g.indices.sp[SpKey(q)]
      && PoKey(q) in g.indices.po && q.subject in g.indices.po[PoKey(q)]
      && PogKey(q) in g.indices.pog && q.subject in g.indices.pog[PogKey(q)]
  {
    var g := LegacyGraph(Build(qs));
    forall q | q in qs
      ensures SpKey(q) in g.indices.sp && q.obj in g.indices.sp[SpKey(q)]
      ensures PoKey(q) in g.indices.po && q.subject in g.indices.po[PoKey(q)]
      ensures PogKey(q) in g.indices.pog && q.subject in g.indices.pog[PogKey(q)]
    {
      DescribedContains(g.indices, SetOf(qs), q);
    }
    g
  }

  /** `match`: the (subject, predicate) index first, then the (predicate, object) index when no
      graph is given, then the (predicate, object, graph) index; a missing entry is the empty
      set and any other combination is a `GraphError`. */
  function Match(g: LegacyGraph, p: Pattern): (r: Result<set<Node>, Error>)
    ensures p.subject.Some? && p.pred.Some? ==>
      r == Success(Lookup(g.indices.sp, (p.subject.value, p.pred.value)))
    ensures !(p.subject.Some? && p.pred.Some?) && p.pred.Some? && p.obj.Some? && p.graph.None? ==>
      r == Success(Lookup(g.indices.po, (p.pred.value, p.obj.value)))
    ensures !(p.subject.Some? && p.pred.Some?) && p.pred.Some? && p.obj.Some? && p.graph.Some? ==>
      r == Success(Lookup(g.indices.pog, (p.pred.value, p.obj.value, p.graph)))
    ensures !(p.subject.Some? && p.pred.Some?) && !(p.pred.Some? && p.obj.Some?) ==>
      r == Failure(GraphError(UnsupportedMatch))
  {
    Indexes.Match(g.indices, p)
  }

  /** A built legacy graph answers `match` with the nodes of the matching quads. */
  lemma MatchFromQuads(qs: seq<Quad>, p: Pattern)
    ensures p.subject.Some? && p.pred.Some? ==>
      Match(FromQuads(qs), p) == Success(ObjectsOf(SetOf(qs), p.subject.value, p.pred.value))
    ensures !(p.subject.Some? && p.pred.Some?) && p.pred.Some? && p.obj.Some? && p.graph.None? ==>
      Match(FromQuads(qs), p) == Success(SubjectsOf(SetOf(qs), p.pred.value, p.obj.value))
    ensures !(p.subject.Some? && p.pred.Some?) && p.pred.Some? && p.obj.Some? && p.graph.Some? ==>
      Match(FromQuads(qs), p) == Success(SubjectsIn(SetOf(qs), p.pred.value, p.obj.value, p.graph.value))
  {
    MatchAnswers(FromQuads(qs).indices, SetOf(qs), p);
  }

  /** `union`: every key of either graph, with the nodes of both under it. */
  function Union(g1: LegacyGraph, g2: LegacyGraph): (r: LegacyGraph)
    ensures forall k :: k in r.indices.sp <==> k in g1.indices.sp || k in g2.indices.sp
    ensures forall k :: Lookup(r.indices.sp, k) == Lookup(g1.indices.sp, k) + Lookup(g2.indices.sp, k)
    ensures forall k :: k in r.indices.po <==> k in g1.indices.po || k in g2.indices.po
    ensures forall k :: Lookup(r.indices.po, k) == Lookup(g1.indices.po, k) + Lookup(g2.indices.po, k)
    ensures forall k :: k in r.indices.pog <==> k in g1.indices.pog || k in g2.indices.pog
    ensures forall k :: Lookup(r.indices.pog, k) == Lookup(g1.indices.pog, k) + Lookup(g2.indices.pog, k)
  {
    LegacyGraph(MergeIndices(g1.indices, g2.indices))
  }

  /** Uniting built graphs gives the graph built from both quad lists. */
  lemma UnionOfFromQuads(qs1: seq<Quad>, qs2: seq<Quad>)
    ensures Union(FromQuads(qs1), FromQuads(qs2)) == FromQuads(qs1 + qs2)
  {
    assert SetOf(qs1 + qs2) == SetOf(qs1) + SetOf(qs2);
  }
}
