/** What the query engine computes, stated without its loops: match lists as intersections, leaf
    matches over an in-memory graph, the response a traversal builds and the shape of a
    context-sensitive query's answer. */
module QueryFacts {

  import opened Wrappers
  import opened Json
  import opened Errors
  import opened Ast
  import opened Nodes
  import opened NodeOrder
  import opened Indexes
  import opened Graphs
  import Backends
  import opened QueryEngine

  // ---------------------------------------------------------------------------------------------
  // Match lists

  /** All the answers of a list of lookups, intersected: defined exactly when every lookup
      succeeds and there is at least one, and then the nodes every lookup answers. */
  lemma IntersectionOfAll(rs: seq<Result<set<Node>, Error>>, x: Node)
    ensures (All(rs).Success? && IntersectAll(All(rs).value).Success?) <==> (rs != [] && forall j :: 0 <= j < |rs| ==> rs[j].Success?)
    ensures All(rs).Success? && rs != [] ==>
      (x in IntersectAll(All(rs).value).value <==> forall j :: 0 <= j < |rs| ==> x in rs[j].value)
  {
    var a := All(rs);
    if a.Success? && rs != [] {
      var ss := a.value;
      assert forall j :: 0 <= j < |rs| ==> ss[j] == rs[j].value;
    }
  }

  /** `matchesMatchList`: a node is selected exactly when every match of the list selects it; the
      list fails exactly when one of its matches does, or when it is empty. */
  lemma MatchListIsIntersection(e: Engine, context: Option<set<Node>>, ns: NodeSpecifier, x: Node)
    requires ns.MatchingNodeSpecifier?
    ensures SpecifiedNodes(e, context, ns).Success? <==>
      ns.matchList != [] && forall j :: 0 <= j < |ns.matchList| ==> Matches(e, context, ns.contextType, ns.matchList[j]).Success?
    ensures SpecifiedNodes(e, context, ns).Success? ==>
      (x in SpecifiedNodes(e, context, ns).value <==>
         forall j :: 0 <= j < |ns.matchList| ==> x in Matches(e, context, ns.contextType, ns.matchList[j]).value)
  {
    var rs := MatchList(e, context, ns);
    var a := All(rs);
    assert SpecifiedNodes(e, context, ns) == if a.Failure? then Failure(a.error) else IntersectAll(a.value);
    IntersectionOfAll(rs, x);
  }

  /** The in-memory backend answers every object lookup, so a resolvable predicate's objects
      from a non-empty node list are found. */
  lemma InMemoryObjectsOfAll(g: Graph, pm: PrefixMap, xs: seq<Node>, pred: Id)
    requires xs != [] && ToNode(pm, pred).Success?
    ensures ObjectsOfAll(Engine(Backends.InMemory(g), pm), xs, pred).Success?
  {
  }

  /** The subjects of a single object, looked up in the in-memory backend, are the graph's. */
  lemma InMemorySubjectsOfOne(g: Graph, pm: PrefixMap, pred: Id, o: Node)
    requires ToNode(pm, pred).Success?
    ensures SubjectsOfAll(Engine(Backends.InMemory(g), pm), pred, [o], None)
         == Success(Backends.GetSubjects(g, ToNode(pm, pred).value, o, None))
  {
    var e := Engine(Backends.InMemory(g), pm);
    var r := SubjectsOfAll(e, pred, [o], None);
    assert r.value == Backends.GetSubjects(g, ToNode(pm, pred).value, o, None);
  }

  /** Once the context's objects are found, a leaf match with a URI value looks up the subjects
      of that one node, or fails when the value does not resolve. */
  lemma LeafSubjectMatch(e: Engine, context: set<Node>, pred: Id, v: Id)
    requires ObjectsOfAll(e, Enumerate(context), pred).Success?
    ensures var o := ToNode(e.prefixMap, v);
      SubjectMatch(e, context, LeafMatch(pred, IdValue(v))) ==
        if o.Failure? then Failure(o.error) else SubjectsOfAll(e, pred, [o.value], None)
  {
    var o := ToNode(e.prefixMap, v);
    if o.Success? {
      EnumerateSingleton(o.value);
    }
  }

  /** Over the in-memory backend, the subject-context leaf match `predicate value` keeps the
      context nodes among the subjects of the value along the predicate, when the context is not
      empty and both resolve; otherwise nothing. */
  lemma LeafMatchInMemory(g: Graph, pm: PrefixMap, context: set<Node>, pred: Id, v: Id)
    ensures var e := Engine(Backends.InMemory(g), pm);
      var p := ToNode(pm, pred);
      var o := ToNode(pm, v);
      Matches(e, Some(context), Subject, LeafMatch(pred, IdValue(v))) ==
        if context != {} && p.Success? && o.Success? then Success(context * Backends.GetSubjects(g, p.value, o.value, None))
        else Success({})
  {
    var e := Engine(Backends.InMemory(g), pm);
    var p := ToNode(pm, pred);
    var o := ToNode(pm, v);
    var xs := Enumerate(context);
    if context == {} {
      assert xs == [];
    } else if p.Success? {
      assert xs != [] by {
        var c :| c in context;
        assert c in xs;
      }
      InMemoryObjectsOfAll(g, pm, xs, pred);
      LeafSubjectMatch(e, context, pred, v);
      if o.Success? {
        InMemorySubjectsOfOne(g, pm, pred, o.value);
      }
    }
  }

  /** Over the in-memory backend of a consistent graph, the subject-context leaf match
      `predicate value` keeps exactly the context nodes that have that value along that predicate,
      when both resolve; otherwise it keeps nothing. */
  lemma LeafMatchSelectsSubjects(g: Graph, pm: PrefixMap, context: set<Node>, pred: Id, v: Id, x: Node)
    requires Consistent(g)
    ensures var e := Engine(Backends.InMemory(g), pm);
      var p := ToNode(pm, pred);
      var o := ToNode(pm, v);
      x in Matches(e, Some(context), Subject, LeafMatch(pred, IdValue(v))).value <==>
        x in context && p.Success? && o.Success? &&
        exists q :: q in g.quads && q.subject == x && q.pred == p.value && q.obj == o.value
  {
    LeafMatchInMemory(g, pm, context, pred, v);
    var p := ToNode(pm, pred);
    var o := ToNode(pm, v);
    if p.Success? && o.Success? {
      Backends.InMemorySubjectsSound(g, p.value, o.value, None, x);
    }
  }

  // ---------------------------------------------------------------------------------------------
  // Traversals

  /** The answers of the selectors from position `i`, when they all succeed. */
  function Collected(rs: seq<Result<Json, Error>>, i: nat): (r: seq<Json>)
    requires i <= |rs|
    requires forall j :: i <= j < |rs| ==> rs[j].Success?
    ensures |r| == |rs| - i
    ensures forall k :: 0 <= k < |r| ==> r[k] == rs[i + k].value
  {
    seq(|rs| - i, k requires 0 <= k < |rs| - i => rs[i + k].value)
  }

  /** When every selector from position `i` succeeds, the loop completes with their answers after
      `acc`. */
  lemma {:induction false} SelectorLoopCompletes(sels: seq<Selector>, rs: seq<Result<Json, Error>>, i: nat, acc: seq<Json>)
    requires |rs| == |sels| && i <= |sels|
    requires forall j :: i <= j < |rs| ==> rs[j].Success?
    ensures SelectorLoop(sels, rs, i, acc) == Success(Completed(acc + Collected(rs, i)))
    decreases |sels| - i
  {
    if i < |sels| {
      SelectorLoopCompletes(sels, rs, i + 1, acc + [rs[i].value]);
      assert Collected(rs, i) == [rs[i].value] + Collected(rs, i + 1);
      assert acc + [rs[i].value] + Collected(rs, i + 1) == acc + Collected(rs, i);
    } else {
      assert acc + Collected(rs, i) == acc;
    }
  }

  /** When selector `k` is the first from position `i` to fail, its failure ends the loop: as a
      stop for an inline error of a leaf selector, as the loop's failure otherwise. */
  lemma {:induction false} SelectorLoopFails(sels: seq<Selector>, rs: seq<Result<Json, Error>>, i: nat, acc: seq<Json>, k: nat)
    requires |rs| == |sels| && i <= k < |sels|
    requires forall j :: i <= j < k ==> rs[j].Success?
    requires rs[k].Failure?
    ensures SelectorLoop(sels, rs, i, acc) ==
      if sels[k].LeafSelector? && IsInlineError(rs[k].error) then Success(Stopped(rs[k].error)) else Failure(rs[k].error)
    decreases k - i
  {
    if i < k {
      SelectorLoopFails(sels, rs, i + 1, acc + [rs[i].value], k);
    }
  }

  /** The keys of one-key objects collected by spreading: each key holds the value of the last
      object that has it. */
  lemma {:induction false} SpreadAllLastWins(results: seq<Json>)
    requires forall k :: 0 <= k < |results| ==> results[k].JObj? && |results[k].fields| == 1
    ensures UniqueKeys(SpreadAll(results))
    ensures forall k :: 0 <= k < |results| && (forall j :: k < j < |results| ==> results[j].fields[0].0 != results[k].fields[0].0) ==>
      Get(SpreadAll(results), results[k].fields[0].0) == Some(results[k].fields[0].1)
    decreases |results|
  {
    if results != [] {
      var init := results[..|results| - 1];
      var last := results[|results| - 1];
      SpreadAllLastWins(init);
      assert UniqueKeys(last.fields) by {
        assert |Keys(last.fields)| == 1;
      }
      var r := SpreadAll(results);
      assert r == Spread(SpreadAll(init), last.fields);
      forall k | 0 <= k < |results| && (forall j :: k < j < |results| ==> results[j].fields[0].0 != results[k].fields[0].0)
        ensures Get(r, results[k].fields[0].0) == Some(results[k].fields[0].1)
      {
        var key := results[k].fields[0].0;
        if k == |results| - 1 {
          assert Get(last.fields, key) == Some(last.fields[0].1);
        } else {
          assert init[k] == results[k];
          assert Get(last.fields, key) == None by {
            assert last.fields[0].0 != key;
            assert last.fields[1..] == [];
          }
          assert forall j :: k < j < |init| ==> init[j] == results[j];
        }
      }
    }
  }

  /** In the response of a completed traversal, each key of the collected one-key objects holds
      the value of the last object that has it. */
  lemma ResponseLastWins(node: Node, results: seq<Json>, k: nat)
    requires forall j :: 0 <= j < |results| ==> results[j].JObj? && |results[j].fields| == 1
    requires k < |results| && forall j :: k < j < |results| ==> results[j].fields[0].0 != results[k].fields[0].0
    ensures Get(Spread([IdField(node)], SpreadAll(results)), results[k].fields[0].0) == Some(results[k].fields[0].1)
  {
    SpreadAllLastWins(results);
  }

  /** When every selector succeeds, the loop's response is the `@id` followed by the spread of
      all their answers. */
  lemma CompletedResponse(node: Node, sels: seq<Selector>, rs: seq<Result<Json, Error>>)
    requires |rs| == |sels|
    requires forall j :: 0 <= j < |rs| ==> rs[j].Success?
    ensures Response(node, SelectorLoop(sels, rs, 0, [])) == Success(JObj(Spread([IdField(node)], SpreadAll(Collected(rs, 0)))))
  {
    SelectorLoopCompletes(sels, rs, 0, []);
    assert [] + Collected(rs, 0) == Collected(rs, 0);
  }

  /** Spreading the answers of selectors that each answer a one-key object: under each key, the
      value of the last selector that answered that key. */
  lemma CollectedLastWins(node: Node, rs: seq<Result<Json, Error>>, k: nat)
    requires forall j :: 0 <= j < |rs| ==> rs[j].Success? && rs[j].value.JObj? && |rs[j].value.fields| == 1
    requires k < |rs| && forall j :: k < j < |rs| ==> rs[j].value.fields[0].0 != rs[k].value.fields[0].0
    ensures Get(Spread([IdField(node)], SpreadAll(Collected(rs, 0))), rs[k].value.fields[0].0) == Some(rs[k].value.fields[0].1)
  {
    var results := Collected(rs, 0);
    assert results[k] == rs[k].value;
    assert forall j :: k < j < |results| ==> results[j] == rs[j].value;
    ResponseLastWins(node, results, k);
  }

  /** `traverse` when every selector succeeds: the node's `@id` followed by the spread of every
      selector's answer. */
  lemma TraverseCompletes(e: Engine, node: Node, t: Traversal)
    requires forall j :: 0 <= j < |t.selectorList| ==> SelectorResult(e, node, t.selectorList[j]).Success?
    ensures Traverse(e, node, t) == Success(JObj(Spread([IdField(node)], SpreadAll(Collected(SelectorResults(e, node, t), 0)))))
  {
    var rs := SelectorResults(e, node, t);
    assert Traverse(e, node, t) == Response(node, SelectorLoop(t.selectorList, rs, 0, []));
    CompletedResponse(node, t.selectorList, rs);
  }

  /** `traverse` when every selector succeeds: the key of selector `k`, when no later selector
      answers the same key, holds what selector `k` answered (the `@id` comes first, as every
      response of `traverse` has it). */
  lemma TraverseCollects(e: Engine, node: Node, t: Traversal, k: nat)
    requires forall j :: 0 <= j < |t.selectorList| ==> SelectorResult(e, node, t.selectorList[j]).Success?
    requires k < |t.selectorList|
    requires forall j :: k < j < |t.selectorList| ==>
      SelectorResult(e, node, t.selectorList[j]).value.fields[0].0 != SelectorResult(e, node, t.selectorList[k]).value.fields[0].0
    ensures Traverse(e, node, t).Success?
    ensures Get(Traverse(e, node, t).value.fields, SelectorResult(e, node, t.selectorList[k]).value.fields[0].0)
         == Some(SelectorResult(e, node, t.selectorList[k]).value.fields[0].1)
  {
    TraverseCompletes(e, node, t);
    CollectedLastWins(node, SelectorResults(e, node, t), k);
  }

  /** `traverse` when selector `k` is the first to fail: an inline error of a leaf selector
      answers the node's `@id` and that `@error` alone, whatever the later selectors would do; any
      other failure is the traversal's failure. */
  lemma TraverseStopsAtFirstFailure(e: Engine, node: Node, t: Traversal, k: nat)
    requires k < |t.selectorList|
    requires forall j :: 0 <= j < k ==> SelectorResult(e, node, t.selectorList[j]).Success?
    requires SelectorResult(e, node, t.selectorList[k]).Failure?
    ensures var err := SelectorResult(e, node, t.selectorList[k]).error;
      Traverse(e, node, t) ==
        if t.selectorList[k].LeafSelector? && IsInlineError(err)
        then Success(JObj([("@id", JStr(node.value)), ("@error", FormatErrorForResponse(err))]))
        else Failure(err)
  {
    SelectorLoopFails(t.selectorList, SelectorResults(e, node, t), 0, [], k);
  }

  // ---------------------------------------------------------------------------------------------
  // Context-sensitive queries

  lemma EnumerateSingleton(x: Node)
    ensures Enumerate({x}) == [x]
  {
    assert x in Enumerate({x});
  }

  /** With an empty node specifier the query answers the context's own traversal. */
  lemma CsqEmptySpecifier(e: Engine, context: Node, t: Traversal)
    ensures Csq(e, context, ContextSensitiveQueryNode(EmptyNodeSpecifier, t)) == Traverse(e, context, t)
  {
    EnumerateSingleton(context);
  }

  /** With a subject specifier at most the context survives: no survivor answers `{}`, and the
      context surviving answers its own traversal. */
  lemma CsqSubjectSpecifier(e: Engine, context: Node, q: ContextSensitiveQuery)
    requires q.nodeSpecifier.MatchingNodeSpecifier? && q.nodeSpecifier.contextType == Subject
    requires SpecifiedNodes(e, Some({context}), q.nodeSpecifier).Success?
    ensures SpecifiedNodes(e, Some({context}), q.nodeSpecifier).value == {} ==> Csq(e, context, q) == Success(JObj([]))
    ensures SpecifiedNodes(e, Some({context}), q.nodeSpecifier).value != {} ==> Csq(e, context, q) == Traverse(e, context, q.traversal)
  {
    var nodes := SpecifiedNodes(e, Some({context}), q.nodeSpecifier).value;
    if nodes == {} {
      assert Enumerate(nodes) == [];
    } else {
      assert nodes == {context};
      EnumerateSingleton(context);
    }
  }

  /** With a graph specifier the answer, when nodes survive, is the context's `@id` and the list of
      every survivor's response. */
  lemma CsqGraphSpecifier(e: Engine, context: Node, q: ContextSensitiveQuery)
    requires q.nodeSpecifier.MatchingNodeSpecifier? && q.nodeSpecifier.contextType == ContextType.Graph
    ensures Csq(e, context, q).Success? ==>
      var nodes := SpecifiedNodes(e, Some({context}), q.nodeSpecifier).value;
      && (nodes == {} ==> Csq(e, context, q).value == JObj([]))
      && (nodes != {} ==>
            && |Csq(e, context, q).value.fields| == 2
            && Csq(e, context, q).value.fields[0] == ("@id", JStr(context.value))
            && Csq(e, context, q).value.fields[1].0 == "@graph"
            && Csq(e, context, q).value.fields[1].1.JArr?
            && |Csq(e, context, q).value.fields[1].1.items| == |nodes|
            && forall i :: 0 <= i < |Enumerate(nodes)| ==>
                 Traverse(e, Enumerate(nodes)[i], q.traversal).Success?
                 && Csq(e, context, q).value.fields[1].1.items[i] == Traverse(e, Enumerate(nodes)[i], q.traversal).value)
  {
    if Csq(e, context, q).Failure? {
      return;
    }
    var nodes := SpecifiedNodes(e, Some({context}), q.nodeSpecifier).value;
    var rs := TraverseEach(e, Enumerate(nodes), q.traversal);
    var results := All(rs);
    assert Csq(e, context, q) == (if results.value == [] then Success(JObj([]))
      else Success(JObj([("@id", JStr(context.value)), ("@graph", JArr(results.value))])));
    if nodes == {} {
      assert Enumerate(nodes) == [];
    } else {
      forall i | 0 <= i < |Enumerate(nodes)|
        ensures Traverse(e, Enumerate(nodes)[i], q.traversal).Success?
        ensures results.value[i] == Traverse(e, Enumerate(nodes)[i], q.traversal).value
      {
        assert rs[i] == Traverse(e, Enumerate(nodes)[i], q.traversal);
      }
    }
  }

  // ---------------------------------------------------------------------------------------------
  // Whole queries

  /** After any registrations, a run calls the `queryDone` handlers registered so far, in order,
      exactly when it succeeds, and calls nothing when parsing or evaluation fails. */
  lemma RunTriggersQueryDone<H>(backend: Backends.Backend, events: seq<(string, H)>, text: string, isWebUri: string -> bool)
    ensures var r := Run(backend, Backends.RegisterAll(events), text, isWebUri);
      r.1 == if r.0.Success? then Backends.RegisteredUnder(events, "queryDone") else []
  {
    Backends.TriggerCallsRegistered(events, "queryDone");
  }
}
