/** The term rules of the N-Quads reader and writer: how a term the N3 parser reports becomes a
    node, and how a node becomes the term text handed to the N3 writer. The N3 library itself
    (its parser, its writer, and the escaping and bracketing the writer adds) is not part of this
    model; a term is represented by what the N3 utilities read off it. */
module Serialize {

  import opened Wrappers
  import opened Errors
  import opened Nodes
  import opened Indexes
  import opened Graphs

  /** `STR_TYPE`: `xsd:string`, the datatype N3 reports for a literal written without one. */
  const StringType := "http://www.w3.org/2001/XMLSchema#string"

  /** A term as the N3 parser reports it: an IRI; a literal with the value, language (empty when
      there is none) and datatype the N3 utilities read off it; a blank node; or the empty term of
      the default graph, which is none of the three. */
  datatype N3Term =
    | Iri(iri: string)
    | Literal(value: string, language: string, dataType: string)
    | Blank(id: string)
    | DefaultGraph

  /** A quad as the N3 parser reports it. */
  datatype N3Quad = N3Quad(subject: N3Term, pred: N3Term, obj: N3Term, graph: N3Term)

  /** The positions N3 fills: an IRI or blank subject, an IRI predicate, an IRI, literal or blank
      object. */
  predicate WellPlaced(q: N3Quad) {
    && (q.subject.Iri? || q.subject.Blank?)
    && q.pred.Iri?
    && !q.obj.DefaultGraph?
  }

  /** The `Node(...)` argument `parseNQuads` builds for a term: a named or blank node with just
      its type and value; a literal whose missing language and `xsd:string` datatype are both
      passed as `null`. The default graph gives nothing. */
  function TermInit(t: N3Term): (r: Option<NodeInit>)
    ensures r.None? <==> t.DefaultGraph?
    ensures t.Literal? ==> r.value.language == (if t.language == "" then Null else Given(t.language))
    ensures t.Literal? ==> r.value.dataType == (if t.dataType == StringType then Null else Given(t.dataType))
    ensures t.Iri? ==> r.value.termType == Some("NamedNode") && r.value.value == Some(t.iri)
    ensures t.Literal? ==> r.value.termType == Some("Literal") && r.value.value == Some(t.value)
    ensures t.Blank? ==> r.value.termType == Some("BlankNode") && r.value.value == Some(t.id)
    ensures (t.Iri? || t.Blank?) ==> r.value.language == Absent && r.value.dataType == Absent
  {
    match t
    case Iri(iri) => Some(NodeInit(Some("NamedNode"), Some(iri), Absent, Absent))
    case Literal(value, language, dataType) =>
      Some(NodeInit(Some("Literal"), Some(value),
                    if language == "" then Null else Given(language),
                    if dataType != StringType then Given(dataType) else Null))
    case Blank(id) => Some(NodeInit(Some("BlankNode"), Some(id), Absent, Absent))
    case DefaultGraph => None
  }

  /** The node of a term, if it has one. */
  function TermNode(t: N3Term): (r: Option<Node>)
    ensures r.None? <==> t.DefaultGraph?
    ensures t.Iri? ==> r == Some(NamedNode(t.iri))
    ensures t.Blank? ==> r.value.termType == "BlankNode" && r.value.value == t.id
    ensures t.Literal? ==> r.value.termType == "Literal" && r.value.value == t.value
  {
    if t.DefaultGraph? then None else Some(MakeNode(TermInit(t).value))
  }

  /** A parsed literal never keeps `xsd:string` as its datatype, and never keeps an empty
      language: both become `null`, so neither is truthy. */
  lemma LiteralNormalised(value: string, language: string, dataType: string)
    ensures var n := TermNode(Literal(value, language, dataType)).value;
      && (n.dataType.Some? ==> n.dataType.value != StringType)
      && (n.language.Some? ==> n.language.value != "")
      && (dataType == StringType <==> n.dataType.None?)
      && (language == "" <==> n.language.None?)
  {
  }

  /** The quad `parseNQuads` builds from an N3 quad: each term's node, and for a quad of the
      default graph, the named node of the document when a (non-empty) graph name is given. */
  function ParseQuad(q: N3Quad, graphName: Option<string>): (r: Quad)
    requires WellPlaced(q)
    ensures r.subject == TermNode(q.subject).value && r.pred == TermNode(q.pred).value && r.obj == TermNode(q.obj).value
    ensures !q.graph.DefaultGraph? ==> r.graph == TermNode(q.graph)
    ensures q.graph.DefaultGraph? && Truthy(graphName) ==> r.graph == Some(NamedNode(graphName.value))
    ensures q.graph.DefaultGraph? && !Truthy(graphName) ==> r.graph.None?
  {
    var graph := TermNode(q.graph);
    Quad(TermNode(q.subject).value, TermNode(q.pred).value, TermNode(q.obj).value,
         if Truthy(graphName) && graph.None? then Some(NamedNode(graphName.value)) else graph)
  }

  /** The converted quads, in the order N3 reports them. */
  function ParseEach(qs: seq<N3Quad>, graphName: Option<string>): (r: seq<Quad>)
    requires forall i :: 0 <= i < |qs| ==> WellPlaced(qs[i])
    ensures |r| == |qs| && forall i :: 0 <= i < |qs| ==> r[i] == ParseQuad(qs[i], graphName)
  {
    seq(|qs|, i requires 0 <= i < |qs| => ParseQuad(qs[i], graphName))
  }

  /** `parseNQuads(text, graphName)` over what N3 reports for the text: its error, or the
      consistent graph of the quads it reports, each converted. */
  function ParseNQuads(parsed: Result<seq<N3Quad>, Error>, graphName: Option<string>): (r: Result<Graph, Error>)
    requires parsed.Success? ==> forall i :: 0 <= i < |parsed.value| ==> WellPlaced(parsed.value[i])
    ensures r.Failure? <==> parsed.Failure?
    ensures r.Failure? ==> r.error == parsed.error
    ensures r.Success? ==> Consistent(r.value)
  {
    match parsed
    case Failure(e) => Failure(e)
    case Success(qs) => Success(FromQuads(ParseEach(qs, graphName)))
  }

  /** A quad is among the converted ones exactly when it converts some reported quad. */
  lemma InParseEach(qs: seq<N3Quad>, graphName: Option<string>, q: Quad)
    requires forall i :: 0 <= i < |qs| ==> WellPlaced(qs[i])
    ensures q in ParseEach(qs, graphName) <==> exists i :: 0 <= i < |qs| && q == ParseQuad(qs[i], graphName)
  {
    var converted := ParseEach(qs, graphName);
    if q in converted {
      var i :| 0 <= i < |converted| && converted[i] == q;
      assert q == ParseQuad(qs[i], graphName);
    }
    if exists i :: 0 <= i < |qs| && q == ParseQuad(qs[i], graphName) {
      var i :| 0 <= i < |qs| && q == ParseQuad(qs[i], graphName);
      assert converted[i] == q;
    }
  }

  /** The graph parsed from a document holds exactly the converted quads N3 reports for it. */
  lemma ParsedQuads(qs: seq<N3Quad>, graphName: Option<string>, q: Quad)
    requires forall i :: 0 <= i < |qs| ==> WellPlaced(qs[i])
    ensures q in ParseNQuads(Success(qs), graphName).value.quads <==>
      exists i :: 0 <= i < |qs| && q == ParseQuad(qs[i], graphName)
  {
    var converted := ParseEach(qs, graphName);
    assert ParseNQuads(Success(qs), graphName).value.quads == SetOf(converted);
    InParseEach(qs, graphName, q);
  }

  /** `toNQuadTerm`: a named node is its value; a literal is its value in double quotes, with no
      escaping, followed by `^^` and the datatype when it has one, otherwise by `@` and the
      language when it has one; any other node (a blank node) gives nothing. */
  function NQuadTerm(n: Node): (r: Option<string>)
    ensures r.Some? <==> n.termType in {"NamedNode", "Literal"}
    ensures n.termType == "NamedNode" ==> r == Some(n.value)
  {
    if n.termType == "NamedNode" then Some(n.value)
    else if n.termType == "Literal" then
      var serialized := "\"" + n.value + "\"";
      if Truthy(n.dataType) then Some(serialized + "^^" + n.dataType.value)
      else if Truthy(n.language) then Some(serialized + "@" + n.language.value)
      else Some(serialized)
    else None
  }

  /** The text of a literal is its value between two double quotes, verbatim, and what follows
      the closing quote is the datatype mark when there is a datatype, whatever the language, the
      language mark when there is only a language, and nothing otherwise. */
  lemma LiteralTerm(n: Node)
    requires n.termType == "Literal"
    ensures var text := NQuadTerm(n).value;
      && |text| >= |n.value| + 2
      && text[0] == '"' && text[1..|n.value| + 1] == n.value && text[|n.value| + 1] == '"'
      && text[|n.value| + 2..] ==
           if Truthy(n.dataType) then "^^" + n.dataType.value
           else if Truthy(n.language) then "@" + n.language.value
           else ""
  {
    var text := NQuadTerm(n).value;
    var q := "\"" + n.value + "\"";
    assert text == q + text[|q|..];
  }

  /** Reading a term and writing it back: an IRI is unchanged; a literal keeps its value, loses an
      `xsd:string` datatype, and keeps its language only when no other datatype is reported. */
  lemma TermRoundTrip(t: N3Term)
    requires t.Iri? || t.Literal?
    ensures t.Iri? ==> NQuadTerm(TermNode(t).value) == Some(t.iri)
    ensures t.Literal? ==> NQuadTerm(TermNode(t).value) == Some("\"" + t.value + "\"" +
      if t.dataType != StringType && t.dataType != "" then "^^" + t.dataType
      else if t.language != "" then "@" + t.language
      else "")
  {
    if t.Literal? {
      var q := "\"" + t.value + "\"";
      var n := TermNode(t).value;
      if Truthy(n.dataType) {
        assert q + "^^" + t.dataType == q + ("^^" + t.dataType);
      } else if Truthy(n.language) {
        assert q + "@" + t.language == q + ("@" + t.language);
      } else {
        assert q + "" == q;
      }
    }
  }

  /** Blank nodes have no N-Quads term here: the writer is handed nothing for them. */
  lemma BlankHasNoTerm(id: string)
    ensures NQuadTerm(TermNode(Blank(id)).value).None?
  {
  }

  /** The four arguments `serializeNQuads` hands the writer for one quad: the terms of subject,
      predicate and object, and the graph's term, or nothing for a quad without a graph. */
  function QuadTerms(q: Quad): (r: (Option<string>, Option<string>, Option<string>, Option<string>))
    ensures r.3.None? <==> q.graph.None? || NQuadTerm(q.graph.value).None?
  {
    (NQuadTerm(q.subject), NQuadTerm(q.pred), NQuadTerm(q.obj),
     if q.graph.Some? then NQuadTerm(q.graph.value) else None)
  }

  /** A quad of IRIs read from a document and written back is handed to the writer as the same
      IRIs, with the document's name as the graph of a default-graph quad. */
  lemma QuadRoundTrip(s: string, p: string, o: string, g: N3Term, graphName: Option<string>)
    requires g.Iri? || g.DefaultGraph?
    ensures var terms := QuadTerms(ParseQuad(N3Quad(Iri(s), Iri(p), Iri(o), g), graphName));
      && terms.0 == Some(s) && terms.1 == Some(p) && terms.2 == Some(o)
      && terms.3 == if g.Iri? then Some(g.iri) else if Truthy(graphName) then Some(graphName.value) else None
  {
  }
}
