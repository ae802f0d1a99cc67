/** RDF nodes as immutable records, and node sets. */
module Nodes {

  import opened Wrappers

  /** The record `Node`: four fields. `language` and `datatype` may hold `null` (`None`), which a
      caller can pass explicitly; a field the caller leaves out takes the default `''`. */
  datatype Node = Node(termType: string, value: string, language: Option<string>, dataType: Option<string>)

  /** What a caller hands to the `Node` record constructor for one field. */
  datatype FieldInit = Absent | Null | Given(s: string)

  /** The argument of the `Node` record constructor: the fields it carries. `termType` and
      `value` are never passed as `null` by the library, so they are either given or absent. */
  datatype NodeInit = NodeInit(termType: Option<string>, value: Option<string>, language: FieldInit, dataType: FieldInit)

  /** JavaScript truthiness of an optional string field: present and not empty. */
  predicate Truthy(f: Option<string>) {
    f.Some? && f.value != ""
  }

  function OrEmpty(f: Option<string>): (r: string)
    ensures f.Some? ==> r == f.value
    ensures f.None? ==> r == ""
  {
    if f.Some? then f.value else ""
  }

  function FieldOf(f: FieldInit): (r: Option<string>)
    ensures f.Absent? ==> r == Some("")
    ensures f.Null? ==> r == None
    ensures f.Given? ==> r == Some(f.s)
  {
    match f
    case Absent => Some("")
    case Null => None
    case Given(s) => Some(s)
  }

  /** `Node(init)`: every field the argument carries is kept, every other field is `''`. */
  function MakeNode(init: NodeInit): (r: Node)
    ensures init.termType.Some? ==> r.termType == init.termType.value
    ensures init.termType.None? ==> r.termType == ""
    ensures init.value.Some? ==> r.value == init.value.value
    ensures init.value.None? ==> r.value == ""
    ensures r.language == FieldOf(init.language) && r.dataType == FieldOf(init.dataType)
  {
    Node(OrEmpty(init.termType), OrEmpty(init.value), FieldOf(init.language), FieldOf(init.dataType))
  }

  /** The fields of an existing node, as an argument to the record constructor. */
  function InitOf(n: Node): NodeInit {
    NodeInit(Some(n.termType), Some(n.value),
             if n.language.Some? then Given(n.language.value) else Null,
             if n.dataType.Some? then Given(n.dataType.value) else Null)
  }

  /** Building a node from the fields of a node gives that node back, so `Node(n)` is `n`. */
  lemma MakeNodeOfNode(n: Node)
    ensures MakeNode(InitOf(n)) == n
  {
  }

  /** A node given only its term type and value has `''` for language and datatype; neither
      is truthy. */
  lemma NamedNodeDefaults(termType: string, value: string)
    ensures MakeNode(NodeInit(Some(termType), Some(value), Absent, Absent)) == Node(termType, value, Some(""), Some(""))
    ensures !Truthy(MakeNode(NodeInit(Some(termType), Some(value), Absent, Absent)).language)
    ensures !Truthy(MakeNode(NodeInit(Some(termType), Some(value), Absent, Absent)).dataType)
  {
  }

  /** `NamedNode` with the given value, as the query engine and the parsers build it. */
  function NamedNode(value: string): (r: Node)
    ensures r.termType == "NamedNode" && r.value == value
    ensures !Truthy(r.language) && !Truthy(r.dataType)
  {
    MakeNode(NodeInit(Some("NamedNode"), Some(value), Absent, Absent))
  }

  /** `nodeSet(xs)`: the set of the nodes built from each element. Equal records are one
      element, so the set is never larger than the list. */
  function NodeSetOf(xs: seq<NodeInit>): (r: set<Node>)
    ensures forall n :: n in r <==> exists i :: 0 <= i < |xs| && MakeNode(xs[i]) == n
    ensures |r| <= |xs|
    ensures xs == [] <==> r == {}
  {
    var r := set x | x in xs :: MakeNode(x);
    ImageSize(xs);
    assert xs != [] ==> MakeNode(xs[0]) in r;
    r
  }

  lemma {:induction false} ImageSize(xs: seq<NodeInit>)
    ensures |set x | x in xs :: MakeNode(x)| <= |xs|
  {
    if xs != [] {
      ImageSize(xs[1..]);
      var r := set x | x in xs :: MakeNode(x);
      var rest := set x | x in xs[1..] :: MakeNode(x);
      assert r == {MakeNode(xs[0])} + rest by {
        assert forall x :: x in xs <==> x == xs[0] || x in xs[1..] by {
          assert xs == [xs[0]] + xs[1..];
        }
      }
    }
  }

  /** `nodeSet()` with no argument is the empty set. */
  lemma EmptyNodeSet()
    ensures NodeSetOf([]) == {}
  {
  }

  /** Two arguments that build the same record give a one-element set. */
  lemma NodeSetCollapses(a: NodeInit, b: NodeInit)
    requires MakeNode(a) == MakeNode(b)
    ensures NodeSetOf([a, b]) == {MakeNode(a)}
  {
    assert MakeNode([a, b][1]) == MakeNode(a);
  }

  /** Building a set from existing nodes gives exactly those nodes. */
  lemma NodeSetOfNodes(ns: seq<Node>)
    ensures NodeSetOf(seq(|ns|, i requires 0 <= i < |ns| => InitOf(ns[i]))) == set i | 0 <= i < |ns| :: ns[i]
  {
    var xs := seq(|ns|, i requires 0 <= i < |ns| => InitOf(ns[i]));
    forall n ensures n in NodeSetOf(xs) <==> n in set i | 0 <= i < |ns| :: ns[i] {
      if n in NodeSetOf(xs) {
        var i :| 0 <= i < |xs| && MakeNode(xs[i]) == n;
        MakeNodeOfNode(ns[i]);
      }
      if n in set i | 0 <= i < |ns| :: ns[i] {
        var i :| 0 <= i < |ns| && ns[i] == n;
        MakeNodeOfNode(ns[i]);
        assert MakeNode(xs[i]) == n;
      }
    }
  }
}
