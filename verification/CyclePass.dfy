/** The compiler's cycle rules: E112, a traversal bound on an edge that lies on no cycle, and E107, a
    cycle without any traversal bound. */
module CyclePass {
  import opened Collections
  import opened Graphs
  import opened Documents
  import opened Tarjan
  import CycleSearch

  datatype Diagnostic =
    | AcyclicTraversal(edge: nat)          // E112
    | UnboundedCycle(keys: seq<string>)    // E107
    | Other(rule: string)

  // ---- what the pass must report ----

  ghost predicate UnboundedLink(doc: Document, a: string, b: string) {
    exists e: nat :: Resolved(doc, e) && doc.edges[e].from == a && doc.edges[e].to == b && !doc.edges[e].hasMax
  }

  /** The keys of an E107 name a simple cycle of edges without max_traversals. */
  ghost predicate NamesUnboundedCycle(doc: Document, keys: seq<string>) {
    && |keys| > 0
    && (forall i, j :: 0 <= i < j < |keys| ==> keys[i] != keys[j])
    && (forall i :: 0 <= i < |keys| - 1 ==> UnboundedLink(doc, keys[i], keys[i + 1]))
    && UnboundedLink(doc, keys[|keys| - 1], keys[0])
  }

  /** Some walk leads from a to b. */
  ghost predicate Leads(doc: Document, a: string, b: string) {
    a in doc.nodes && b in doc.nodes &&
    (a == b || exists w :: |w| > 0 && Walk(doc, w) && At(doc, w, 0) == a && At(doc, w, |w|) == b)
  }

  ghost predicate SameComponent(doc: Document, a: string, b: string) {
    Leads(doc, a, b) && Leads(doc, b, a)
  }

  /** Every bounded edge on no cycle has one E112, in the order of the edges, and no other edge has any. */
  ghost predicate ReportsBounds(doc: Document, found: seq<Diagnostic>) {
    && (forall e: nat :: AcyclicTraversal(e) in found <==> Resolved(doc, e) && doc.edges[e].hasMax && !OnCycle(doc, e))
    && forall i, j :: 0 <= i < j < |found| && found[i].AcyclicTraversal? && found[j].AcyclicTraversal? ==>
         found[i].edge < found[j].edge
  }

  /** Every E107 is a real cycle, and every component with an unbounded cycle has an E107. */
  ghost predicate ReportsCycles(doc: Document, found: seq<Diagnostic>) {
    && (forall d :: d in found && d.UnboundedCycle? ==> NamesUnboundedCycle(doc, d.keys))
    && (forall w :: ClosedWalk(doc, w) && Unbounded(doc, w) ==>
          exists d :: d in found && d.UnboundedCycle? && |d.keys| > 0 &&
                      SameComponent(doc, doc.edges[w[0]].from, d.keys[0]))
  }

  // ---- the document as an index graph ----

  ghost predicate Indexes(doc: Document, nodes: seq<string>, index: map<string, nat>) {
    && (forall i :: 0 <= i < |nodes| ==> nodes[i] in doc.nodes && nodes[i] in index && index[nodes[i]] == i)
    && (forall id :: id in index ==> index[id] < |nodes| && nodes[index[id]] == id)
    && (forall id :: id in doc.nodes ==> id in index)
  }

  ghost predicate Joins(doc: Document, nodes: seq<string>, e: nat, u: nat, a: Arc) {
    && Resolved(doc, e) && u < |nodes| && a.to < |nodes|
    && doc.edges[e].from == nodes[u] && doc.edges[e].to == nodes[a.to] && doc.edges[e].hasMax == a.bounded
  }

  /** The arcs are those of the first m edges. */
  ghost predicate ArcsOf(doc: Document, nodes: seq<string>, adj: seq<seq<Arc>>, m: nat) {
    && |adj| == |nodes|
    && (forall u, a :: 0 <= u < |adj| && a in adj[u] ==> exists e :: 0 <= e < m && Joins(doc, nodes, e, u, a))
    && (forall e, u, a :: 0 <= e < m && 0 <= u < |adj| && Joins(doc, nodes, e, u, a) ==> a in adj[u])
  }

  method BuildIndex(doc: Document) returns (nodes: seq<string>, index: map<string, nat>)
    ensures Indexes(doc, nodes, index)
  {
    index, nodes := map[], [];
    for i := 0 to |doc.nodes|
      invariant Indexes(Document(doc.nodes[..i], []), nodes, index)
    {
      var id := doc.nodes[i];
      assert doc.nodes[..i + 1] == doc.nodes[..i] + [id];
      if id !in index {
        index := index[id := |nodes|];
        nodes := nodes + [id];
      }
    }
    assert doc.nodes[..|doc.nodes|] == doc.nodes;
  }

  method BuildArcs(doc: Document, nodes: seq<string>, index: map<string, nat>) returns (adj: seq<seq<Arc>>)
    requires Indexes(doc, nodes, index)
    ensures ArcsOf(doc, nodes, adj, |doc.edges|)
  {
    adj := seq(|nodes|, _ => []);
    for i := 0 to |doc.edges|
      invariant ArcsOf(doc, nodes, adj, i)
    {
      var e := doc.edges[i];
      if e.from !in index || e.to !in index {
        assert forall u, a :: !Joins(doc, nodes, i, u, a);
        continue;
      }
      var from, to := index[e.from], index[e.to];
      ghost var before := adj;
      var arc := Arc(to, e.hasMax);
      adj := adj[from := adj[from] + [arc]];
      assert Joins(doc, nodes, i, from, arc);
      forall u, a | 0 <= u < |adj| && a in adj[u]
        ensures exists e :: 0 <= e < i + 1 && Joins(doc, nodes, e, u, a)
      {
        if a in before[u] {
          var e :| 0 <= e < i && Joins(doc, nodes, e, u, a);
        }
      }
    }
  }

  // ---- from documents to index graphs and back ----

  /** Everything the compiler has built when the cycle rules are checked. */
  ghost predicate Compiled(doc: Document, nodes: seq<string>, index: map<string, nat>, adj: seq<seq<Arc>>) {
    Indexes(doc, nodes, index) && ArcsOf(doc, nodes, adj, |doc.edges|)
  }

  lemma TargetsWellFormed(doc: Document, nodes: seq<string>, adj: seq<seq<Arc>>)
    requires ArcsOf(doc, nodes, adj, |doc.edges|)
    ensures WellFormed(Targets(adj))
  {
    forall u, k | 0 <= u < |adj| && 0 <= k < |adj[u]|
      ensures Targets(adj)[u][k] < |adj|
    {
      assert adj[u][k] in adj[u];
      var e :| 0 <= e < |doc.edges| && Joins(doc, nodes, e, u, adj[u][k]);
    }
  }

  lemma EdgeToArc(doc: Document, nodes: seq<string>, index: map<string, nat>, adj: seq<seq<Arc>>, e: nat)
    requires Compiled(doc, nodes, index, adj) && Resolved(doc, e)
    ensures Arc(index[doc.edges[e].to], doc.edges[e].hasMax) in adj[index[doc.edges[e].from]]
    ensures Edge(Targets(adj), index[doc.edges[e].from], index[doc.edges[e].to])
  {
    var u, a := index[doc.edges[e].from], Arc(index[doc.edges[e].to], doc.edges[e].hasMax);
    assert Joins(doc, nodes, e, u, a);
    var k :| 0 <= k < |adj[u]| && adj[u][k] == a;
    assert Targets(adj)[u][k] == a.to;
  }

  lemma ArcToEdge(doc: Document, nodes: seq<string>, index: map<string, nat>, adj: seq<seq<Arc>>, u: nat, v: nat)
    returns (e: nat)
    requires Compiled(doc, nodes, index, adj) && Edge(Targets(adj), u, v)
    ensures v < |nodes| && Resolved(doc, e) && doc.edges[e].from == nodes[u] && doc.edges[e].to == nodes[v]
  {
    var k :| 0 <= k < |Targets(adj)[u]| && Targets(adj)[u][k] == v;
    assert adj[u][k] in adj[u];
    e :| 0 <= e < |doc.edges| && Joins(doc, nodes, e, u, adj[u][k]);
  }

  lemma {:induction false} WalkReaches(doc: Document, nodes: seq<string>, index: map<string, nat>, adj: seq<seq<Arc>>,
      w: seq<nat>)
    requires Compiled(doc, nodes, index, adj) && |w| > 0 && Walk(doc, w)
    ensures Reach(Targets(adj), index[At(doc, w, 0)], index[At(doc, w, |w|)])
  {
    TargetsWellFormed(doc, nodes, adj);
    EdgeToArc(doc, nodes, index, adj, w[|w| - 1]);
    if |w| == 1 {
      ReachEdge(Targets(adj), index[At(doc, w, 0)], index[At(doc, w, 1)]);
    } else {
      var init := w[..|w| - 1];
      WalkReaches(doc, nodes, index, adj, init);
      assert doc.edges[w[|w| - 2]].to == doc.edges[w[|w| - 2 + 1]].from;
      ReachStep(Targets(adj), index[At(doc, w, 0)], index[At(doc, init, |init|)], index[At(doc, w, |w|)]);
    }
  }

  lemma {:induction false} WalkFromPath(doc: Document, nodes: seq<string>, index: map<string, nat>, adj: seq<seq<Arc>>,
      p: seq<nat>)
    returns (w: seq<nat>)
    requires Compiled(doc, nodes, index, adj) && IsWalk(Targets(adj), p) && |p| > 1
    ensures |w| > 0 && Walk(doc, w) && At(doc, w, 0) == nodes[p[0]] && At(doc, w, |w|) == nodes[p[|p| - 1]]
  {
    var n := |p| - 1;
    assert Edge(Targets(adj), p[n - 1], p[n - 1 + 1]);
    var e := ArcToEdge(doc, nodes, index, adj, p[n - 1], p[n]);
    if n == 1 {
      w := [e];
    } else {
      var v := WalkFromPath(doc, nodes, index, adj, p[..n]);
      w := v + [e];
    }
  }

  lemma ReachLeads(doc: Document, nodes: seq<string>, index: map<string, nat>, adj: seq<seq<Arc>>, u: nat, v: nat)
    requires Compiled(doc, nodes, index, adj) && Reach(Targets(adj), u, v)
    ensures u < |nodes| && v < |nodes| && Leads(doc, nodes[u], nodes[v])
  {
    var p :| Connects(Targets(adj), p, u, v);
    if |p| > 1 {
      var w := WalkFromPath(doc, nodes, index, adj, p);
    }
  }

  /** An edge lies on a cycle exactly when its ends are in one component. */
  lemma WalkIsMutual(doc: Document, nodes: seq<string>, index: map<string, nat>, adj: seq<seq<Arc>>, e: nat,
      w: seq<nat>)
    requires Compiled(doc, nodes, index, adj) && Resolved(doc, e) && ClosedWalk(doc, w) && w[0] == e
    ensures Mutual(Targets(adj), index[doc.edges[e].from], index[doc.edges[e].to])
  {
    var g, u, v := Targets(adj), index[doc.edges[e].from], index[doc.edges[e].to];
    TargetsWellFormed(doc, nodes, adj);
    EdgeToArc(doc, nodes, index, adj, e);
    ReachEdge(g, u, v);
    if |w| == 1 {
      ReachSelf(g, u);
    } else {
      assert doc.edges[w[0]].to == doc.edges[w[0 + 1]].from;
      WalkReaches(doc, nodes, index, adj, w[1..]);
      assert At(doc, w[1..], |w| - 1) == At(doc, w, |w|);
    }
  }

  lemma MutualIsCycle(doc: Document, nodes: seq<string>, index: map<string, nat>, adj: seq<seq<Arc>>, e: nat)
    requires Compiled(doc, nodes, index, adj) && Resolved(doc, e)
    requires Reach(Targets(adj), index[doc.edges[e].to], index[doc.edges[e].from])
    ensures OnCycle(doc, e)
  {
    var g, u, v := Targets(adj), index[doc.edges[e].from], index[doc.edges[e].to];
    var p :| Connects(g, p, v, u);
    var w := [e];
    if |p| > 1 {
      var rest := WalkFromPath(doc, nodes, index, adj, p);
      w := [e] + rest;
      assert doc.edges[w[|w| - 1]].to == At(doc, rest, |rest|);
    }
    assert ClosedWalk(doc, w) && w[0] == e;
  }

  lemma OnCycleIsMutual(doc: Document, nodes: seq<string>, index: map<string, nat>, adj: seq<seq<Arc>>, e: nat)
    requires Compiled(doc, nodes, index, adj) && Resolved(doc, e)
    ensures OnCycle(doc, e) <==> Mutual(Targets(adj), index[doc.edges[e].from], index[doc.edges[e].to])
  {
    EdgeToArc(doc, nodes, index, adj, e);
    if Mutual(Targets(adj), index[doc.edges[e].from], index[doc.edges[e].to]) {
      MutualIsCycle(doc, nodes, index, adj, e);
    } else if OnCycle(doc, e) {
      var w :| ClosedWalk(doc, w) && w[0] == e;
      WalkIsMutual(doc, nodes, index, adj, e, w);
    }
  }

  /** Reports the bounded edges that join different components. */
  method CheckBounds(doc: Document, nodes: seq<string>, index: map<string, nat>, ghost adj: seq<seq<Arc>>,
      sccOf: seq<int>)
    returns (found: seq<Diagnostic>)
    requires Compiled(doc, nodes, index, adj) && NumbersComponents(Targets(adj), sccOf)
    ensures ReportsBounds(doc, found) && forall d :: d in found ==> d.AcyclicTraversal?
  {
    found := [];
    for i := 0 to |doc.edges|
      invariant forall d :: d in found ==> d.AcyclicTraversal?
      invariant forall j :: 0 <= j < |found| ==> found[j] in found && found[j].edge < i
      invariant forall j, k :: 0 <= j < k < |found| ==> found[j].edge < found[k].edge
      invariant forall e: nat :: AcyclicTraversal(e) in found <==>
                  e < i && Resolved(doc, e) && doc.edges[e].hasMax && !OnCycle(doc, e)
    {
      var e := doc.edges[i];
      if !e.hasMax {
        continue;
      }
      if e.from in index && e.to in index {
        OnCycleIsMutual(doc, nodes, index, adj, i);
        var from, to := index[e.from], index[e.to];
        if sccOf[from] != sccOf[to] {
          found := found + [AcyclicTraversal(i)];
        }
      }
    }
  }

  // ---- unbounded cycles in the index graph ----

  ghost predicate FreeArc(adj: seq<seq<Arc>>, u: nat, v: nat) {
    u < |adj| && v < |adj| && Arc(v, false) in adj[u]
  }

  ghost predicate FreeCycle(adj: seq<seq<Arc>>, p: seq<nat>) {
    && |p| > 0
    && (forall i :: 0 <= i < |p| - 1 ==> FreeArc(adj, p[i], p[i + 1]))
    && FreeArc(adj, p[|p| - 1], p[0])
  }

  lemma FreeArcIsEdge(adj: seq<seq<Arc>>, u: nat, v: nat)
    requires FreeArc(adj, u, v)
    ensures Edge(Targets(adj), u, v)
  {
    var k :| 0 <= k < |adj[u]| && adj[u][k] == Arc(v, false);
    assert Targets(adj)[u][k] == v;
  }

  /** All nodes of a cycle are in one component. */
  lemma CycleIsMutual(g: Graph, c: seq<nat>, i: nat)
    requires WellFormed(g) && IsCycle(g, c) && i < |c|
    ensures Mutual(g, c[0], c[i])
  {
    assert Connects(g, c[..i + 1], c[0], c[i]) by {
      assert forall j :: 0 <= j < i ==> Edge(g, c[j], c[j + 1]);
    }
    assert Connects(g, c[i..], c[i], c[|c| - 1]) by {
      forall j | 0 <= j < |c[i..]| - 1
        ensures Edge(g, c[i..][j], c[i..][j + 1])
      {
        assert Edge(g, c[i + j], c[i + j + 1]);
      }
    }
    ReachStep(g, c[i], c[|c| - 1], c[0]);
  }

  lemma FreeCycleSameNumber(adj: seq<seq<Arc>>, sccOf: seq<int>, p: seq<nat>)
    requires WellFormed(Targets(adj)) && NumbersComponents(Targets(adj), sccOf) && FreeCycle(adj, p)
    ensures forall i :: 0 <= i < |p| ==> p[i] < |adj| && sccOf[p[i]] == sccOf[p[0]]
  {
    var g := Targets(adj);
    forall i | 0 <= i < |p| - 1
      ensures Edge(g, p[i], p[i + 1])
    {
      FreeArcIsEdge(adj, p[i], p[i + 1]);
    }
    FreeArcIsEdge(adj, p[|p| - 1], p[0]);
    forall i | 0 <= i < |p|
      ensures p[i] < |adj|
    {
      if i < |p| - 1 { assert Edge(g, p[i], p[i + 1]); }
    }
    assert IsCycle(g, p);
    forall i | 0 <= i < |p|
      ensures sccOf[p[i]] == sccOf[p[0]]
    {
      CycleIsMutual(g, p, i);
    }
  }

  /** A closed unbounded walk, seen in the index graph. */
  lemma ClosedWalkToCycle(doc: Document, nodes: seq<string>, index: map<string, nat>, adj: seq<seq<Arc>>, w: seq<nat>)
    returns (p: seq<nat>)
    requires Compiled(doc, nodes, index, adj) && ClosedWalk(doc, w) && Unbounded(doc, w)
    ensures FreeCycle(adj, p) && p[0] == index[doc.edges[w[0]].from]
  {
    p := seq(|w|, i requires 0 <= i < |w| => index[doc.edges[w[i]].from]);
    forall i | 0 <= i < |w|
      ensures FreeArc(adj, p[i], index[doc.edges[w[i]].to])
    {
      EdgeToArc(doc, nodes, index, adj, w[i]);
    }
    forall i | 0 <= i < |p| - 1
      ensures FreeArc(adj, p[i], p[i + 1])
    {
      assert doc.edges[w[i]].to == doc.edges[w[i + 1]].from;
    }
  }

  lemma FreeArcLinks(doc: Document, nodes: seq<string>, index: map<string, nat>, adj: seq<seq<Arc>>, u: nat, v: nat)
    requires Compiled(doc, nodes, index, adj) && FreeArc(adj, u, v)
    ensures UnboundedLink(doc, nodes[u], nodes[v])
  {
    var e :| 0 <= e < |doc.edges| && Joins(doc, nodes, e, u, Arc(v, false));
  }

  // ---- one component at a time ----

  /** Row u of the arcs inside components. */
  ghost predicate InsideRow(adj: seq<seq<Arc>>, sccOf: seq<int>, u: nat, row: seq<Arc>)
    requires u < |adj| == |sccOf|
  {
    forall a :: a in row <==> a in adj[u] && a.to < |adj| && sccOf[a.to] == sccOf[u]
  }

  ghost predicate SelfLoop(adj: seq<seq<Arc>>, u: nat)
    requires u < |adj|
  {
    exists a :: a in adj[u] && a.to == u
  }

  ghost predicate Inside(adj: seq<seq<Arc>>, sccOf: seq<int>, inSCC: seq<seq<Arc>>, selfLoop: seq<bool>) {
    && |sccOf| == |inSCC| == |selfLoop| == |adj|
    && (forall u {:trigger inSCC[u]} :: 0 <= u < |adj| ==> InsideRow(adj, sccOf, u, inSCC[u]))
    && (forall u {:trigger selfLoop[u]} :: 0 <= u < |adj| ==> (selfLoop[u] <==> SelfLoop(adj, u)))
  }

  /** The arcs of u inside its component, and whether one of them leads back to u. */
  method RowInside(adj: seq<seq<Arc>>, sccOf: seq<int>, u: nat) returns (row: seq<Arc>, loop: bool)
    requires WellFormed(Targets(adj)) && u < |adj| == |sccOf|
    ensures InsideRow(adj, sccOf, u, row) && (loop <==> SelfLoop(adj, u))
  {
    row, loop := [], false;
    for k := 0 to |adj[u]|
      invariant forall a :: a in row <==> a in adj[u][..k] && a.to < |adj| && sccOf[a.to] == sccOf[u]
      invariant loop <==> exists a :: a in adj[u][..k] && a.to == u
    {
      var a := adj[u][k];
      assert adj[u][..k + 1] == adj[u][..k] + [a];
      assert a.to == Targets(adj)[u][k];
      if sccOf[u] == sccOf[a.to] {
        row := row + [a];
        if a.to == u {
          loop := true;
        }
      }
    }
    assert adj[u][..|adj[u]|] == adj[u];
  }

  /** The arcs inside components, and the nodes with an arc to themselves. */
  method InsideArcs(adj: seq<seq<Arc>>, sccOf: seq<int>) returns (inSCC: seq<seq<Arc>>, selfLoop: seq<bool>)
    requires WellFormed(Targets(adj)) && |sccOf| == |adj|
    ensures Inside(adj, sccOf, inSCC, selfLoop)
  {
    inSCC, selfLoop := [], [];
    for u := 0 to |adj|
      invariant |inSCC| == |selfLoop| == u
      invariant forall v {:trigger inSCC[v]} :: 0 <= v < u ==> InsideRow(adj, sccOf, v, inSCC[v])
      invariant forall v {:trigger selfLoop[v]} :: 0 <= v < u ==> (selfLoop[v] <==> SelfLoop(adj, v))
    {
      var row, loop := RowInside(adj, sccOf, u);
      inSCC, selfLoop := inSCC + [row], selfLoop + [loop];
    }
  }

  ghost predicate Groups(sccOf: seq<int>, members: map<int, seq<nat>>, n: nat)
    requires n <= |sccOf|
  {
    && (forall u :: 0 <= u < n ==> sccOf[u] in members)
    && (forall c :: c in members ==> forall u: nat :: u in members[c] <==> u < n && sccOf[u] == c)
  }

  method GroupMembers(sccOf: seq<int>) returns (members: map<int, seq<nat>>)
    ensures Groups(sccOf, members, |sccOf|)
  {
    members := map[];
    for u := 0 to |sccOf|
      invariant Groups(sccOf, members, u)
    {
      var c := sccOf[u];
      members := members[c := (if c in members then members[c] else []) + [u]];
    }
  }

  /** The arcs without a bound between the members of one component. */
  ghost predicate FreeInside(adj: seq<seq<Arc>>, sccOf: seq<int>, members: seq<nat>, free: Graph)
    requires |sccOf| == |adj|
  {
    && |free| == |adj|
    && (forall u: nat, v: nat {:trigger Edge(free, u, v)} ::
          Edge(free, u, v) <==> u in members && FreeArc(adj, u, v) && sccOf[u] == sccOf[v])
  }

  ghost predicate InRange(members: seq<nat>, n: nat) {
    forall j :: 0 <= j < |members| ==> members[j] < n
  }

  method FreeArcs(ghost adj: seq<seq<Arc>>, ghost sccOf: seq<int>, members: seq<nat>, inSCC: seq<seq<Arc>>)
    returns (free: seq<seq<nat>>)
    requires |sccOf| == |adj| == |inSCC| && InRange(members, |adj|)
    requires forall u {:trigger inSCC[u]} :: 0 <= u < |adj| ==> InsideRow(adj, sccOf, u, inSCC[u])
    ensures FreeInside(adj, sccOf, members, free)
  {
    free := seq(|inSCC|, _ => []);
    for i := 0 to |members|
      invariant |free| == |adj|
      invariant forall u: nat, v: nat :: u < |free| ==>
                                         (v in free[u] <==> u in members[..i] && Arc(v, false) in inSCC[u])
    {
      var u := members[i];
      assert members[..i + 1] == members[..i] + [u];
      ghost var before := free;
      for k := 0 to |inSCC[u]|
        invariant |free| == |adj|
        invariant forall x: nat :: x < |free| && x != u ==> free[x] == before[x]
        invariant forall v: nat :: v in free[u] <==> v in before[u] || Arc(v, false) in inSCC[u][..k]
      {
        var a := inSCC[u][k];
        assert inSCC[u][..k + 1] == inSCC[u][..k] + [a];
        if !a.bounded {
          free := free[u := free[u] + [a.to]];
          assert a == Arc(a.to, false);
        }
      }
      assert inSCC[u][..|inSCC[u]|] == inSCC[u];
    }
    assert members[..|members|] == members;
  }

  /** A cycle in the free arcs of a component is a free cycle, and the other way round. */
  lemma FreeCycles(adj: seq<seq<Arc>>, sccOf: seq<int>, members: seq<nat>, free: Graph, p: seq<nat>)
    requires WellFormed(Targets(adj)) && NumbersComponents(Targets(adj), sccOf) && FreeInside(adj, sccOf, members, free)
    ensures IsCycle(free, p) ==> FreeCycle(adj, p) && p[0] in members
    ensures FreeCycle(adj, p) && (forall i :: 0 <= i < |p| ==> p[i] in members) ==> IsCycle(free, p)
  {
    if IsCycle(free, p) {
      forall i | 0 <= i < |p| - 1
        ensures FreeArc(adj, p[i], p[i + 1]) && p[i] in members
      {
        assert Edge(free, p[i], p[i + 1]);
      }
    }
    if FreeCycle(adj, p) && forall i :: 0 <= i < |p| ==> p[i] in members {
      FreeCycleSameNumber(adj, sccOf, p);
      forall i | 0 <= i < |p| - 1
        ensures Edge(free, p[i], p[i + 1])
      {
        assert FreeArc(adj, p[i], p[i + 1]);
      }
    }
  }

  lemma FreeWellFormed(adj: seq<seq<Arc>>, sccOf: seq<int>, members: seq<nat>, free: Graph)
    requires |sccOf| == |adj| && FreeInside(adj, sccOf, members, free)
    ensures WellFormed(free)
  {
    forall u, k | 0 <= u < |free| && 0 <= k < |free[u]|
      ensures free[u][k] < |free|
    {
      assert Edge(free, u, free[u][k]);
    }
  }

  /** Component c has a free cycle. */
  ghost predicate CyclicComponent(adj: seq<seq<Arc>>, sccOf: seq<int>, c: int) {
    exists p :: FreeCycle(adj, p) && p[0] < |sccOf| && sccOf[p[0]] == c
  }

  /** Looks for a free cycle in one component. */
  method CycleIn(adj: seq<seq<Arc>>, sccOf: seq<int>, c: int, members: seq<nat>, inSCC: seq<seq<Arc>>,
      selfLoop: seq<bool>)
    returns (cycle: seq<nat>)
    requires WellFormed(Targets(adj)) && NumbersComponents(Targets(adj), sccOf) && Inside(adj, sccOf, inSCC, selfLoop)
    requires InRange(members, |adj|) && forall u: nat :: u in members <==> u < |adj| && sccOf[u] == c
    ensures cycle != [] ==> FreeCycle(adj, cycle) && Distinct(cycle) && cycle[0] in members
    ensures cycle == [] ==> !CyclicComponent(adj, sccOf, c)
  {
    var cyclic := |members| > 1;
    for i := 0 to |members|
      invariant cyclic <==> |members| > 1 || exists j :: 0 <= j < i && selfLoop[members[j]]
    {
      if selfLoop[members[i]] {
        cyclic := true;
      }
    }
    if !cyclic {
      CyclicComponentShows(adj, sccOf, c, members, inSCC, selfLoop);
      return [];
    }
    var free := FreeArcs(adj, sccOf, members, inSCC);
    FreeWellFormed(adj, sccOf, members, free);
    cycle := CycleSearch.FindCycle(members, free);
    FreeCycles(adj, sccOf, members, free, cycle);
    if cycle == [] {
      forall p | FreeCycle(adj, p) && p[0] < |sccOf| && sccOf[p[0]] == c
        ensures false
      {
        FreeCycleSameNumber(adj, sccOf, p);
        FreeCycles(adj, sccOf, members, free, p);
        ReachSelf(free, p[0]);
      }
    }
  }

  /** A component with a cycle has two members or one with an arc to itself. */
  lemma CyclicComponentShows(adj: seq<seq<Arc>>, sccOf: seq<int>, c: int, members: seq<nat>, inSCC: seq<seq<Arc>>,
      selfLoop: seq<bool>)
    requires WellFormed(Targets(adj)) && NumbersComponents(Targets(adj), sccOf) && Inside(adj, sccOf, inSCC, selfLoop)
    requires InRange(members, |adj|) && forall u: nat :: u in members <==> u < |adj| && sccOf[u] == c
    ensures CyclicComponent(adj, sccOf, c) ==> |members| > 1 || exists j :: 0 <= j < |members| && selfLoop[members[j]]
  {
    if CyclicComponent(adj, sccOf, c) {
      var p :| FreeCycle(adj, p) && p[0] < |sccOf| && sccOf[p[0]] == c;
      FreeCycleSameNumber(adj, sccOf, p);
      var last := p[|p| - 1];
      assert p[0] in members && last in members;
      if |members| == 1 {
        assert members[0] == p[0] == last && Arc(p[0], false) in adj[last];
      }
    }
  }

  /** Component c has been reported. */
  ghost predicate Reported(index: map<string, nat>, sccOf: seq<int>, found: seq<Diagnostic>, c: int) {
    exists d :: d in found && d.UnboundedCycle? && |d.keys| > 0 && d.keys[0] in index &&
                index[d.keys[0]] < |sccOf| && sccOf[index[d.keys[0]]] == c
  }

  lemma NamesOfCycle(doc: Document, nodes: seq<string>, index: map<string, nat>, adj: seq<seq<Arc>>, cycle: seq<nat>,
      keys: seq<string>)
    requires Compiled(doc, nodes, index, adj) && FreeCycle(adj, cycle) && Distinct(cycle)
    requires |keys| == |cycle| && forall i :: 0 <= i < |keys| ==> cycle[i] < |nodes| && keys[i] == nodes[cycle[i]]
    ensures NamesUnboundedCycle(doc, keys)
  {
    forall i | 0 <= i < |keys| - 1
      ensures UnboundedLink(doc, keys[i], keys[i + 1])
    {
      FreeArcLinks(doc, nodes, index, adj, cycle[i], cycle[i + 1]);
    }
    FreeArcLinks(doc, nodes, index, adj, cycle[|cycle| - 1], cycle[0]);
    forall i, j | 0 <= i < j < |keys|
      ensures keys[i] != keys[j]
    {
      assert index[keys[i]] == cycle[i] && index[keys[j]] == cycle[j];
    }
  }

  lemma NowReported(index: map<string, nat>, sccOf: seq<int>, found: seq<Diagnostic>, keys: seq<string>, c: int)
    requires |found| > 0 && found[|found| - 1] == UnboundedCycle(keys) && |keys| > 0
    requires keys[0] in index && index[keys[0]] < |sccOf| && sccOf[index[keys[0]]] == c
    ensures Reported(index, sccOf, found, c)
  {
    assert found[|found| - 1] in found;
  }

  lemma ReportedStays(index: map<string, nat>, sccOf: seq<int>, before: seq<Diagnostic>, found: seq<Diagnostic>)
    requires forall d :: d in before ==> d in found
    ensures forall c :: Reported(index, sccOf, before, c) ==> Reported(index, sccOf, found, c)
  {
  }

  lemma AllReported(doc: Document, nodes: seq<string>, index: map<string, nat>, adj: seq<seq<Arc>>, sccOf: seq<int>,
                    found: seq<Diagnostic>)
    requires Compiled(doc, nodes, index, adj) && NumbersComponents(Targets(adj), sccOf)
    requires forall d :: d in found ==> d.UnboundedCycle? && NamesUnboundedCycle(doc, d.keys)
    requires forall c :: CyclicComponent(adj, sccOf, c) ==> Reported(index, sccOf, found, c)
    ensures ReportsCycles(doc, found)
  {
    forall w | ClosedWalk(doc, w) && Unbounded(doc, w)
      ensures exists d :: d in found && d.UnboundedCycle? && |d.keys| > 0 &&
                          SameComponent(doc, doc.edges[w[0]].from, d.keys[0])
    {
      var p := ClosedWalkToCycle(doc, nodes, index, adj, w);
      var c := sccOf[p[0]];
      assert CyclicComponent(adj, sccOf, c);
      assert Reported(index, sccOf, found, c);
      var d :| d in found && d.UnboundedCycle? && |d.keys| > 0 && d.keys[0] in index &&
               index[d.keys[0]] < |sccOf| && sccOf[index[d.keys[0]]] == c;
      var q := index[d.keys[0]];
      assert Mutual(Targets(adj), p[0], q);
      ReachLeads(doc, nodes, index, adj, p[0], q);
      ReachLeads(doc, nodes, index, adj, q, p[0]);
    }
  }

  lemma CyclicHasMembers(adj: seq<seq<Arc>>, sccOf: seq<int>, members: map<int, seq<nat>>)
    requires Groups(sccOf, members, |sccOf|)
    ensures forall c :: CyclicComponent(adj, sccOf, c) ==> c in members
  {
  }

  /** The components are visited in no particular order. */
  method CheckCycles(doc: Document, nodes: seq<string>, ghost index: map<string, nat>, adj: seq<seq<Arc>>,
      sccOf: seq<int>)
    returns (found: seq<Diagnostic>)
    requires Compiled(doc, nodes, index, adj) && NumbersComponents(Targets(adj), sccOf)
    ensures ReportsCycles(doc, found) && forall d :: d in found ==> d.UnboundedCycle?
  {
    TargetsWellFormed(doc, nodes, adj);
    assert |sccOf| == |adj|;
    hide NumbersComponents, NamesUnboundedCycle, CyclicComponent, Reported, ReportsCycles;
    var inSCC, selfLoop := InsideArcs(adj, sccOf);
    var compMembers := GroupMembers(sccOf);
    found := [];
    var todo := compMembers.Keys;
    while todo != {}
      invariant todo <= compMembers.Keys
      invariant forall d :: d in found ==> d.UnboundedCycle? && NamesUnboundedCycle(doc, d.keys)
      invariant forall c :: c in compMembers && c !in todo && CyclicComponent(adj, sccOf, c) ==>
                            Reported(index, sccOf, found, c)
    {
      var c := AnyOf(todo);
      todo := todo - {c};
      var members := compMembers[c];
      assert forall j :: 0 <= j < |members| ==> members[j] in members;
      var cycle := CycleIn(adj, sccOf, c, members, inSCC, selfLoop);
      ghost var before := found;
      if cycle != [] {
        FreeCycleSameNumber(adj, sccOf, cycle);
        var keys := seq(|cycle|, i requires 0 <= i < |cycle| && cycle[i] < |nodes| => nodes[cycle[i]]);
        NamesOfCycle(doc, nodes, index, adj, cycle, keys);
        found := found + [UnboundedCycle(keys)];
        NowReported(index, sccOf, found, keys, c);
      }
      ReportedStays(index, sccOf, before, found);
    }
    CyclicHasMembers(adj, sccOf, compMembers);
    AllReported(doc, nodes, index, adj, sccOf, found);
  }

  /** What one run of the pass adds to the diagnostics. */
  ghost predicate CycleFindings(doc: Document, found: seq<Diagnostic>) {
    && ReportsBounds(doc, found) && ReportsCycles(doc, found)
    && forall d :: d in found ==> !d.Other?
  }

  class Validator {
    const doc: Document
    var diags: seq<Diagnostic>

    constructor (doc: Document)
      ensures this.doc == doc && diags == []
    {
      this.doc := doc;
      diags := [];
    }

    method CyclePass()
      modifies this`diags
      ensures |old(diags)| <= |diags| && diags[..|old(diags)|] == old(diags)
      ensures CycleFindings(doc, diags[|old(diags)|..])
    {
      var nodes, index := BuildIndex(doc);
      var adj := BuildArcs(doc, nodes, index);
      TargetsWellFormed(doc, nodes, adj);
      var sccOf := IterativeScc(|nodes|, adj);
      var bounds := CheckBounds(doc, nodes, index, adj, sccOf[..]);
      var cycles := CheckCycles(doc, nodes, index, adj, sccOf[..]);
      FindingsTogether(doc, bounds, cycles);
      assert (diags + bounds + cycles)[|diags|..] == bounds + cycles;
      diags := diags + bounds + cycles;
    }
  }

  lemma BoundsTogether(doc: Document, bounds: seq<Diagnostic>, cycles: seq<Diagnostic>)
    requires ReportsBounds(doc, bounds) && forall d :: d in cycles ==> d.UnboundedCycle?
    ensures ReportsBounds(doc, bounds + cycles)
  {
    hide Resolved, OnCycle;
    var found := bounds + cycles;
    assert forall d :: d in found <==> d in bounds || d in cycles;
    forall i | |bounds| <= i < |found|
      ensures found[i].UnboundedCycle?
    {
      assert found[i] == cycles[i - |bounds|] && cycles[i - |bounds|] in cycles;
    }
    assert forall i :: 0 <= i < |bounds| ==> found[i] == bounds[i];
  }

  lemma CyclesTogether(doc: Document, bounds: seq<Diagnostic>, cycles: seq<Diagnostic>)
    requires ReportsCycles(doc, cycles) && forall d :: d in bounds ==> d.AcyclicTraversal?
    ensures ReportsCycles(doc, bounds + cycles)
  {
    hide NamesUnboundedCycle, SameComponent, Unbounded;
    var found := bounds + cycles;
    assert forall d :: d in found <==> d in bounds || d in cycles;
    forall w | ClosedWalk(doc, w) && Unbounded(doc, w)
      ensures exists d :: d in found && d.UnboundedCycle? && |d.keys| > 0 &&
                          SameComponent(doc, doc.edges[w[0]].from, d.keys[0])
    {
      var d :| d in cycles && d.UnboundedCycle? && |d.keys| > 0 && SameComponent(doc, doc.edges[w[0]].from, d.keys[0]);
      assert d in found;
    }
  }

  lemma FindingsTogether(doc: Document, bounds: seq<Diagnostic>, cycles: seq<Diagnostic>)
    requires ReportsBounds(doc, bounds) && forall d :: d in bounds ==> d.AcyclicTraversal?
    requires ReportsCycles(doc, cycles) && forall d :: d in cycles ==> d.UnboundedCycle?
    ensures CycleFindings(doc, bounds + cycles)
  {
    hide ReportsBounds, ReportsCycles;
    BoundsTogether(doc, bounds, cycles);
    CyclesTogether(doc, bounds, cycles);
  }

  // ---- what the findings mean ----

  /** The edges of a named cycle form a closed walk. */
  lemma {:induction false} LinksToWalk(doc: Document, keys: seq<string>) returns (w: seq<nat>)
    requires |keys| > 1 && forall i :: 0 <= i < |keys| - 1 ==> UnboundedLink(doc, keys[i], keys[i + 1])
    ensures |w| > 0 && Walk(doc, w) && Unbounded(doc, w)
    ensures At(doc, w, 0) == keys[0] && At(doc, w, |w|) == keys[|keys| - 1]
  {
    var n := |keys| - 1;
    assert UnboundedLink(doc, keys[n - 1], keys[n - 1 + 1]);
    var e: nat :| Resolved(doc, e) && doc.edges[e].from == keys[n - 1] && doc.edges[e].to == keys[n] &&
                  !doc.edges[e].hasMax;
    if n == 1 {
      w := [e];
    } else {
      var v := LinksToWalk(doc, keys[..n]);
      w := v + [e];
    }
  }

  /** The pass reports an E107 exactly when the document has a cycle without traversal bounds. */
  lemma ReportsExactlyUnboundedCycles(doc: Document, found: seq<Diagnostic>)
    requires CycleFindings(doc, found)
    ensures HasUnboundedCycle(doc) <==> exists d :: d in found && d.UnboundedCycle?
  {
    if exists d :: d in found && d.UnboundedCycle? {
      var d :| d in found && d.UnboundedCycle?;
      var keys := d.keys + [d.keys[0]];
      forall i | 0 <= i < |keys| - 1
        ensures UnboundedLink(doc, keys[i], keys[i + 1])
      {
        if i < |d.keys| - 1 { assert UnboundedLink(doc, d.keys[i], d.keys[i + 1]); }
      }
      var w := LinksToWalk(doc, keys);
      assert ClosedWalk(doc, w) && Unbounded(doc, w);
    }
  }

  /** A document without E107 has only walks of bounded length, however they use the bounded edges. */
  lemma AcceptedWalksAreBounded(doc: Document, found: seq<Diagnostic>, w: seq<nat>)
    requires CycleFindings(doc, found) && (forall d :: d in found ==> !d.UnboundedCycle?) && |doc.nodes| > 0
    requires Walk(doc, w) && WithinBounds(doc, w)
    ensures var k, n := TotalTraversals(doc.edges), |NodeSet(doc)|; |w| <= k + (k + 1) * (n - 1)
  {
    ReportsExactlyUnboundedCycles(doc, found);
    WalksAreBounded(doc, w);
  }
}
