/** Quads and the three indices both graph classes keep: (subject, predicate) to objects,
    (predicate, object) to subjects and (predicate, object, graph) to subjects. */
module Indexes {

  import opened Wrappers
  import opened Nodes
  import opened Errors

  /** A quad; the graph term may be missing. */
  datatype Quad = Quad(subject: Node, pred: Node, obj: Node, graph: Option<Node>)

  datatype Indices = Indices(
    sp: map<(Node, Node), set<Node>>,
    po: map<(Node, Node), set<Node>>,
    pog: map<(Node, Node, Option<Node>), set<Node>>)

  const EmptyIndices := Indices(map[], map[], map[])

  function SpKey(q: Quad): (Node, Node) { (q.subject, q.pred) }
  function PoKey(q: Quad): (Node, Node) { (q.pred, q.obj) }
  function PogKey(q: Quad): (Node, Node, Option<Node>) { (q.pred, q.obj, q.graph) }
  function ObjectOf(q: Quad): Node { q.obj }
  function SubjectOf(q: Quad): Node { q.subject }

  /** The keys the quads of `qs` have. */
  function KeysOf<K(==)>(qs: set<Quad>, key: Quad -> K): set<K> {
    set q | q in qs :: key(q)
  }

  /** The nodes the quads of `qs` with key `k` carry. */
  function NodesAt<K(==)>(qs: set<Quad>, key: Quad -> K, val: Quad -> Node, k: K): set<Node> {
    set q | q in qs && key(q) == k :: val(q)
  }

  /** The index a quad set determines: each key that some quad has, mapped to the nodes those
      quads carry. This is the reference the built indices are compared with. */
  function View<K(==)>(qs: set<Quad>, key: Quad -> K, val: Quad -> Node): map<K, set<Node>> {
    map k | k in KeysOf(qs, key) :: NodesAt(qs, key, val, k)
  }

  /** The three indices hold exactly what the quad set determines. */
  predicate Describes(ix: Indices, qs: set<Quad>) {
    ix.sp == View(qs, SpKey, ObjectOf)
    && ix.po == View(qs, PoKey, SubjectOf)
    && ix.pog == View(qs, PogKey, SubjectOf)
  }

  /** `index.get(key) || nodeSet([])` */
  function Lookup<K(==)>(m: map<K, set<Node>>, k: K): (r: set<Node>)
    ensures k in m ==> r == m[k]
    ensures k !in m ==> r == {}
  {
    if k in m then m[k] else {}
  }

  /** `index.update(key, nodes => nodes ? nodes.add(n) : nodeSet([n]))` */
  function Insert<K(==)>(m: map<K, set<Node>>, k: K, n: Node): (r: map<K, set<Node>>)
    ensures r.Keys == m.Keys + {k}
    ensures r[k] == Lookup(m, k) + {n}
    ensures forall k' :: k' in m && k' != k ==> r[k'] == m[k']
  {
    m[k := Lookup(m, k) + {n}]
  }

  lemma NodesAtEmpty<K>(qs: set<Quad>, key: Quad -> K, val: Quad -> Node, k: K)
    ensures k !in KeysOf(qs, key) ==> NodesAt(qs, key, val, k) == {}
  {
    if n :| n in NodesAt(qs, key, val, k) {
      var q :| q in qs && key(q) == k && val(q) == n;
      assert k in KeysOf(qs, key);
    }
  }

  /** What a described index answers for a key: the nodes of the quads with that key. */
  lemma LookupView<K>(qs: set<Quad>, key: Quad -> K, val: Quad -> Node, k: K)
    ensures Lookup(View(qs, key, val), k) == NodesAt(qs, key, val, k)
  {
    NodesAtEmpty(qs, key, val, k);
  }

  lemma NodesAtInsert<K>(qs: set<Quad>, q: Quad, key: Quad -> K, val: Quad -> Node, k: K)
    ensures NodesAt(qs + {q}, key, val, k) == NodesAt(qs, key, val, k) + (if k == key(q) then {val(q)} else {})
  {
  }

  /** Inserting a quad into the index of a quad set gives the index of the set with that quad. */
  lemma ViewInsert<K>(qs: set<Quad>, q: Quad, key: Quad -> K, val: Quad -> Node)
    ensures View(qs + {q}, key, val) == Insert(View(qs, key, val), key(q), val(q))
  {
    var before := View(qs, key, val);
    var after := View(qs + {q}, key, val);
    var expected := Insert(before, key(q), val(q));
    assert KeysOf(qs + {q}, key) == KeysOf(qs, key) + {key(q)};
    forall k | k in after.Keys ensures after[k] == expected[k] {
      NodesAtInsert(qs, q, key, val, k);
      LookupView(qs, key, val, k);
    }
  }

  /** The quads of one `for` iteration of `fromQuads`: each index gains the quad's node under the
      quad's key. */
  function AddQuad(ix: Indices, q: Quad): (r: Indices)
    ensures Lookup(r.sp, SpKey(q)) == Lookup(ix.sp, SpKey(q)) + {q.obj}
    ensures Lookup(r.po, PoKey(q)) == Lookup(ix.po, PoKey(q)) + {q.subject}
    ensures Lookup(r.pog, PogKey(q)) == Lookup(ix.pog, PogKey(q)) + {q.subject}
    ensures forall k :: k != SpKey(q) ==> Lookup(r.sp, k) == Lookup(ix.sp, k)
    ensures forall k :: k != PoKey(q) ==> Lookup(r.po, k) == Lookup(ix.po, k)
    ensures forall k :: k != PogKey(q) ==> Lookup(r.pog, k) == Lookup(ix.pog, k)
  {
    Indices(
      Insert(ix.sp, SpKey(q), q.obj),
      Insert(ix.po, PoKey(q), q.subject),
      Insert(ix.pog, PogKey(q), q.subject))
  }

  lemma AddQuadDescribes(ix: Indices, qs: set<Quad>, q: Quad)
    requires Describes(ix, qs)
    ensures Describes(AddQuad(ix, q), qs + {q})
  {
    ViewInsert(qs, q, SpKey, ObjectOf);
    ViewInsert(qs, q, PoKey, SubjectOf);
    ViewInsert(qs, q, PogKey, SubjectOf);
  }

  function SetOf(qs: seq<Quad>): set<Quad> {
    set q | q in qs
  }

  lemma EmptyDescribesNothing()
    ensures Describes(EmptyIndices, {})
  {
    assert KeysOf({}, SpKey) == {};
    assert KeysOf({}, PoKey) == {};
    assert KeysOf({}, PogKey) == {};
  }

  /** The loop of `fromQuads`, over the quads in order. The result describes exactly the quads
      given: every quad is indexed under its three keys and nothing else is. */
  function Build(qs: seq<Quad>): (r: Indices)
    ensures Describes(r, SetOf(qs))
    decreases |qs|
  {
    if qs == [] then
      EmptyDescribesNothing();
      EmptyIndices
    else
      var init := qs[..|qs| - 1];
      var q := qs[|qs| - 1];
      assert SetOf(qs) == SetOf(init) + {q} by {
        assert qs == init + [q];
      }
      AddQuadDescribes(Build(init), SetOf(init), q);
      AddQuad(Build(init), q)
  }

  /** Every indexed quad can be found under each of its three keys. */
  lemma DescribedContains(ix: Indices, qs: set<Quad>, q: Quad)
    requires Describes(ix, qs) && q in qs
    ensures SpKey(q) in ix.sp && q.obj in ix.sp[SpKey(q)]
    ensures PoKey(q) in ix.po && q.subject in ix.po[PoKey(q)]
    ensures PogKey(q) in ix.pog && q.subject in ix.pog[PogKey(q)]
  {
    assert SpKey(q) in KeysOf(qs, SpKey) && q.obj in NodesAt(qs, SpKey, ObjectOf, SpKey(q));
    assert PoKey(q) in KeysOf(qs, PoKey) && q.subject in NodesAt(qs, PoKey, SubjectOf, PoKey(q));
    assert PogKey(q) in KeysOf(qs, PogKey) && q.subject in NodesAt(qs, PogKey, SubjectOf, PogKey(q));
  }

  /** Every indexed node comes from a quad that has the key it is indexed under. */
  lemma DescribedComesFromQuads(ix: Indices, qs: set<Quad>)
    requires Describes(ix, qs)
    ensures forall k, n :: k in ix.sp && n in ix.sp[k] ==> exists q :: q in qs && SpKey(q) == k && q.obj == n
    ensures forall k, n :: k in ix.po && n in ix.po[k] ==> exists q :: q in qs && PoKey(q) == k && q.subject == n
    ensures forall k, n :: k in ix.pog && n in ix.pog[k] ==> exists q :: q in qs && PogKey(q) == k && q.subject == n
  {
  }

  /** The argument of `match`: each field present or not. Any node is a truthy object. */
  datatype Pattern = Pattern(subject: Option<Node>, pred: Option<Node>, obj: Option<Node>, graph: Option<Node>)

  const UnsupportedMatch := "Unsupported graph match.  Must provide either { subject, predicate } or { predicate, object[, graph] }"

  /** `match`: subject and predicate read the (subject, predicate) index, whatever else is
      given; otherwise predicate and object read the (predicate, object) index without a graph
      and the (predicate, object, graph) index with one; anything else is a `GraphError`. */
  function Match(ix: Indices, p: Pattern): (r: Result<set<Node>, Error>)
    ensures r.Failure? <==> !(p.subject.Some? && p.pred.Some?) && !(p.pred.Some? && p.obj.Some?)
    ensures r.Failure? ==> r.error == GraphError(UnsupportedMatch)
  {
    if p.subject.Some? && p.pred.Some? then
      Success(Lookup(ix.sp, (p.subject.value, p.pred.value)))
    else if p.pred.Some? && p.obj.Some? && p.graph.None? then
      Success(Lookup(ix.po, (p.pred.value, p.obj.value)))
    else if p.pred.Some? && p.obj.Some? && p.graph.Some? then
      Success(Lookup(ix.pog, (p.pred.value, p.obj.value, p.graph)))
    else
      Failure(GraphError(UnsupportedMatch))
  }

  /** The objects of the quads with subject `s` and predicate `p`. */
  function ObjectsOf(qs: set<Quad>, s: Node, p: Node): set<Node> {
    set q | q in qs && q.subject == s && q.pred == p :: q.obj
  }

  /** The subjects of the quads with predicate `p` and object `o` (and graph `g`, when given). */
  function SubjectsOf(qs: set<Quad>, p: Node, o: Node): set<Node> {
    set q | q in qs && q.pred == p && q.obj == o :: q.subject
  }

  function SubjectsIn(qs: set<Quad>, p: Node, o: Node, g: Node): set<Node> {
    set q | q in qs && q.pred == p && q.obj == o && q.graph == Some(g) :: q.subject
  }

  /** On indices that describe a quad set, `match` answers with the matching quads' nodes:
      objects for a subject and predicate (whatever else is given), subjects for a predicate and
      object, restricted to the given graph when there is one. A key nothing was indexed under
      gives the empty set. */
  lemma MatchAnswers(ix: Indices, qs: set<Quad>, p: Pattern)
    requires Describes(ix, qs)
    ensures p.subject.Some? && p.pred.Some? ==>
      Match(ix, p) == Success(ObjectsOf(qs, p.subject.value, p.pred.value))
    ensures !(p.subject.Some? && p.pred.Some?) && p.pred.Some? && p.obj.Some? && p.graph.None? ==>
      Match(ix, p) == Success(SubjectsOf(qs, p.pred.value, p.obj.value))
    ensures !(p.subject.Some? && p.pred.Some?) && p.pred.Some? && p.obj.Some? && p.graph.Some? ==>
      Match(ix, p) == Success(SubjectsIn(qs, p.pred.value, p.obj.value, p.graph.value))
  {
    if p.subject.Some? && p.pred.Some? {
      var k := (p.subject.value, p.pred.value);
      LookupView(qs, SpKey, ObjectOf, k);
      assert NodesAt(qs, SpKey, ObjectOf, k) == ObjectsOf(qs, p.subject.value, p.pred.value);
    } else if p.pred.Some? && p.obj.Some? && p.graph.None? {
      var k := (p.pred.value, p.obj.value);
      LookupView(qs, PoKey, SubjectOf, k);
      assert NodesAt(qs, PoKey, SubjectOf, k) == SubjectsOf(qs, p.pred.value, p.obj.value);
    } else if p.pred.Some? && p.obj.Some? {
      var k := (p.pred.value, p.obj.value, p.graph);
      LookupView(qs, PogKey, SubjectOf, k);
      assert NodesAt(qs, PogKey, SubjectOf, k) == SubjectsIn(qs, p.pred.value, p.obj.value, p.graph.value);
    }
  }

  /** `mergeDeep` of two indices, taken as the key-wise union of their node sets. */
  function Merge<K(==,!new)>(a: map<K, set<Node>>, b: map<K, set<Node>>): (r: map<K, set<Node>>)
    ensures forall k :: k in r <==> k in a || k in b
    ensures forall k :: Lookup(r, k) == Lookup(a, k) + Lookup(b, k)
  {
    map k | k in a.Keys + b.Keys :: Lookup(a, k) + Lookup(b, k)
  }

  /** Two maps with the same keys and the same lookups are equal. */
  lemma MapsEqual<K>(a: map<K, set<Node>>, b: map<K, set<Node>>)
    requires forall k :: k in a <==> k in b
    requires forall k :: Lookup(a, k) == Lookup(b, k)
    ensures a == b
  {
    forall k | k in a.Keys ensures a[k] == b[k] {
      assert Lookup(a, k) == Lookup(b, k);
    }
  }

  /** Merging the indices of two quad sets gives the index of their union. */
  lemma ViewMerge<K(!new)>(qs1: set<Quad>, qs2: set<Quad>, key: Quad -> K, val: Quad -> Node)
    ensures Merge(View(qs1, key, val), View(qs2, key, val)) == View(qs1 + qs2, key, val)
  {
    var a := View(qs1, key, val);
    var b := View(qs2, key, val);
    var u := View(qs1 + qs2, key, val);
    assert KeysOf(qs1 + qs2, key) == KeysOf(qs1, key) + KeysOf(qs2, key);
    forall k ensures Lookup(Merge(a, b), k) == Lookup(u, k) {
      LookupView(qs1, key, val, k);
      LookupView(qs2, key, val, k);
      LookupView(qs1 + qs2, key, val, k);
      assert NodesAt(qs1 + qs2, key, val, k) == NodesAt(qs1, key, val, k) + NodesAt(qs2, key, val, k);
    }
    MapsEqual(Merge(a, b), u);
  }

  /** The three indices merged key by key; merging indices of two quad sets describes their
      union. */
  function MergeIndices(a: Indices, b: Indices): (r: Indices)
    ensures forall qs1, qs2 :: Describes(a, qs1) && Describes(b, qs2) ==> Describes(r, qs1 + qs2)
  {
    var r := Indices(Merge(a.sp, b.sp), Merge(a.po, b.po), Merge(a.pog, b.pog));
    assert forall qs1, qs2 :: Describes(a, qs1) && Describes(b, qs2) ==> Describes(r, qs1 + qs2) by {
      forall qs1, qs2 | Describes(a, qs1) && Describes(b, qs2) ensures Describes(r, qs1 + qs2) {
        ViewMerge(qs1, qs2, SpKey, ObjectOf);
        ViewMerge(qs1, qs2, PoKey, SubjectOf);
        ViewMerge(qs1, qs2, PogKey, SubjectOf);
      }
    }
    r
  }

  lemma MergeCommutative<K(!new)>(a: map<K, set<Node>>, b: map<K, set<Node>>)
    ensures Merge(a, b) == Merge(b, a)
  {
    MapsEqual(Merge(a, b), Merge(b, a));
  }

  lemma MergeLookupAssociative<K(!new)>(a: map<K, set<Node>>, b: map<K, set<Node>>, c: map<K, set<Node>>, k: K)
    ensures Lookup(Merge(Merge(a, b), c), k) == Lookup(Merge(a, Merge(b, c)), k)
  {
    var x, y, z := Lookup(a, k), Lookup(b, k), Lookup(c, k);
    assert Lookup(Merge(Merge(a, b), c), k) == (x + y) + z;
    assert Lookup(Merge(a, Merge(b, c)), k) == x + (y + z);
  }

  lemma MergeAssociative<K(!new)>(a: map<K, set<Node>>, b: map<K, set<Node>>, c: map<K, set<Node>>)
    ensures Merge(Merge(a, b), c) == Merge(a, Merge(b, c))
  {
    var l := Merge(Merge(a, b), c);
    var r := Merge(a, Merge(b, c));
    forall k ensures Lookup(l, k) == Lookup(r, k) {
      MergeLookupAssociative(a, b, c, k);
    }
    MapsEqual(l, r);
  }

  lemma MergeEmpty<K(!new)>(a: map<K, set<Node>>)
    ensures Merge(a, map[]) == a
  {
    MapsEqual(Merge(a, map[]), a);
  }
}
