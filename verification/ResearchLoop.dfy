/** A definition that the compiler accepts and no run completes: the customer-research definition of the
    compiler's test data, whose bounded loop leads from `verify` back to `synthesize`. */
module ResearchLoop {
  import CyclePass
  import Documents
  import opened Events
  import opened RunDeadEnds
  import opened RunEngine
  import opened RunSafety
  import RunTheorems

  const CLASSIFY := "classify"
  const CODE := "github_search"
  const DOCS := "docs_search"
  const SYNTHESIZE := "synthesize"
  const VERIFY := "verify"
  const APPROVAL := "human_approval"

  const DOCUMENT: Documents.Document := Documents.Document(
    [CLASSIFY, CODE, DOCS, SYNTHESIZE, VERIFY, APPROVAL],
    [Documents.DocEdge(CLASSIFY, CODE, false, 0), Documents.DocEdge(CLASSIFY, DOCS, false, 0),
     Documents.DocEdge(CODE, SYNTHESIZE, false, 0), Documents.DocEdge(DOCS, SYNTHESIZE, false, 0),
     Documents.DocEdge(SYNTHESIZE, VERIFY, false, 0), Documents.DocEdge(VERIFY, SYNTHESIZE, true, 2),
     Documents.DocEdge(VERIFY, APPROVAL, false, 0)])

  const GRAPH: Graph := Graph(
    0,
    [CLASSIFY, DOCS, CODE, APPROVAL, SYNTHESIZE, VERIFY],
    [CLASSIFY, DOCS, CODE, APPROVAL, SYNTHESIZE, VERIFY],
    map[CLASSIFY := Task(Pure, 1), DOCS := Task(Idempotent, 1), CODE := Task(Idempotent, 1),
        APPROVAL := Gate(false), SYNTHESIZE := Task(Pure, 1), VERIFY := Task(Pure, 1)],
    [EdgeDef("e0", CLASSIFY, CODE, RoutesTo, "requires_code"), EdgeDef("e1", CLASSIFY, DOCS, RoutesTo, "requires_docs"),
     EdgeDef("e2", CODE, SYNTHESIZE, Produces, ""), EdgeDef("e3", DOCS, SYNTHESIZE, Produces, ""),
     EdgeDef("e4", SYNTHESIZE, VERIFY, DependsOn, ""), EdgeDef("e5", VERIFY, SYNTHESIZE, RoutesTo, "needs_revision"),
     EdgeDef("e6", VERIFY, APPROVAL, RoutesTo, "verified")])

  // ---- the compiler accepts it ----

  /** A node's distance from the start along edges without a bound. */
  function Rank(id: string): nat {
    if id == CLASSIFY then 0
    else if id == CODE || id == DOCS then 1
    else if id == SYNTHESIZE then 2
    else if id == VERIFY then 3
    else 4
  }

  lemma UnboundedEdgesClimb(e: nat)
    requires e < |DOCUMENT.edges| && !DOCUMENT.edges[e].hasMax
    ensures Rank(DOCUMENT.edges[e].from) < Rank(DOCUMENT.edges[e].to)
  {
  }

  lemma {:induction false} UnboundedWalksClimb(w: seq<nat>)
    requires |w| > 0 && Documents.Walk(DOCUMENT, w) && Documents.Unbounded(DOCUMENT, w)
    ensures Rank(DOCUMENT.edges[w[0]].from) < Rank(DOCUMENT.edges[w[|w| - 1]].to)
  {
    hide Rank;
    UnboundedEdgesClimb(w[|w| - 1]);
    if |w| > 1 {
      var init := w[..|w| - 1];
      UnboundedWalksClimb(init);
      assert DOCUMENT.edges[init[|init| - 1]].to == DOCUMENT.edges[w[|w| - 1]].from;
    }
  }

  lemma LoopIsOnCycle()
    ensures Documents.OnCycle(DOCUMENT, 5)
  {
    assert Documents.Resolved(DOCUMENT, 5) by { assert DOCUMENT.nodes[4] == VERIFY && DOCUMENT.nodes[3] == SYNTHESIZE; }
    assert Documents.Resolved(DOCUMENT, 4) by { assert DOCUMENT.nodes[4] == VERIFY && DOCUMENT.nodes[3] == SYNTHESIZE; }
    assert Documents.ClosedWalk(DOCUMENT, [5, 4]);
  }

  /** The cycle rules find nothing in the definition. */
  lemma CompilerAccepts(found: seq<CyclePass.Diagnostic>)
    requires CyclePass.CycleFindings(DOCUMENT, found)
    ensures forall d :: d !in found
  {
    LoopIsOnCycle();
    if Documents.HasUnboundedCycle(DOCUMENT) {
      var w :| Documents.ClosedWalk(DOCUMENT, w) && Documents.Unbounded(DOCUMENT, w);
      UnboundedWalksClimb(w);
    }
    CyclePass.ReportsExactlyUnboundedCycles(DOCUMENT, found);
    forall d
      ensures d !in found
    {
      match d
      case AcyclicTraversal(e) => assert Documents.Resolved(DOCUMENT, e) && DOCUMENT.edges[e].hasMax ==> e == 5;
      case _ =>
    }
  }

  // ---- no run completes it ----

  lemma GraphIsValid()
    ensures ValidGraph(GRAPH)
  {
    NodesAreValid();
    EdgesAreValid();
  }

  lemma EdgesAreValid()
    ensures forall i, j :: 0 <= i < j < |GRAPH.edges| ==> GRAPH.edges[i].id != GRAPH.edges[j].id
  {
    var edges := GRAPH.edges;
    forall i, j | 0 <= i < j < |edges|
      ensures edges[i].id != edges[j].id
    {
      assert edges[i].id[1] != edges[j].id[1];
    }
  }

  lemma NodesAreValid()
    ensures forall n :: n in GRAPH.defs <==> n in GRAPH.order
    ensures forall i, j :: 0 <= i < j < |GRAPH.order| ==> GRAPH.order[i] != GRAPH.order[j]
  {
    var order := GRAPH.order;
    assert |CLASSIFY| == 8 && |DOCS| == 11 && |CODE| == 13 && |APPROVAL| == 14 && |SYNTHESIZE| == 10 && |VERIFY| == 6;
    forall i, j | 0 <= i < j < |order|
      ensures order[i] != order[j]
    {
      assert |order[i]| != |order[j]|;
    }
    assert order[0] == CLASSIFY && order[1] == DOCS && order[2] == CODE;
    assert order[3] == APPROVAL && order[4] == SYNTHESIZE && order[5] == VERIFY;
  }

  lemma LoopIsKnot()
    ensures Knot(GRAPH, {SYNTHESIZE, VERIFY})
  {
    var c, edges := {SYNTHESIZE, VERIFY}, GRAPH.edges;
    assert |CODE| == 13 && |DOCS| == 11 && |APPROVAL| == 14 && |SYNTHESIZE| == 10 && |VERIFY| == 6;
    assert Follows(GRAPH, c, SYNTHESIZE) by { assert edges[5].to == SYNTHESIZE; }
    assert Follows(GRAPH, c, VERIFY) by { assert edges[4].to == VERIFY; }
    assert forall i :: 0 <= i < |edges| && edges[i].to in c && edges[i].typ.RoutesTo? ==> i == 5;
  }

  /** No run ever starts `synthesize` or `verify`, and none completes. */
  lemma NeverCompletes(steps: seq<(Step, int)>)
    ensures ValidGraph(GRAPH) && !Run(GRAPH, steps).status.RunCompleted?
    ensures Summarize(Run(GRAPH, steps).acts, SYNTHESIZE).starts == 0
  {
    GraphIsValid();
    LoopIsKnot();
    KnotNeverCompletes(GRAPH, steps, {SYNTHESIZE, VERIFY});
    hide Run, Knot, ValidGraph;
    RunTheorems.NeverStarted(Run(GRAPH, steps).acts, SYNTHESIZE);
  }
}
