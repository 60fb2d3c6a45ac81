/** Graph documents as the compiler sees them, walks through them, and the length bound that the
    cycle rules are for. */
module Documents {

  datatype DocEdge = DocEdge(from: string, to: string, hasMax: bool, maxTraversals: int)

  /** `nodes` are the node ids in declaration order; an id may be declared twice. */
  datatype Document = Document(nodes: seq<string>, edges: seq<DocEdge>)

  /** Both ends of edge e are declared nodes. */
  predicate Resolved(doc: Document, e: nat) {
    e < |doc.edges| && doc.edges[e].from in doc.nodes && doc.edges[e].to in doc.nodes
  }

  /** A walk is a sequence of edge numbers, each edge starting where the one before ends. */
  ghost predicate Walk(doc: Document, w: seq<nat>) {
    && (forall i :: 0 <= i < |w| ==> Resolved(doc, w[i]))
    && (forall i :: 0 <= i < |w| - 1 ==> doc.edges[w[i]].to == doc.edges[w[i + 1]].from)
  }

  ghost predicate ClosedWalk(doc: Document, w: seq<nat>) {
    |w| > 0 && Walk(doc, w) && doc.edges[w[|w| - 1]].to == doc.edges[w[0]].from
  }

  /** No edge of the walk declares max_traversals. */
  ghost predicate Unbounded(doc: Document, w: seq<nat>)
    requires Walk(doc, w)
  {
    forall i :: 0 <= i < |w| ==> !doc.edges[w[i]].hasMax
  }

  ghost predicate HasUnboundedCycle(doc: Document) {
    exists w :: ClosedWalk(doc, w) && Unbounded(doc, w)
  }

  ghost predicate OnCycle(doc: Document, e: nat) {
    exists w :: ClosedWalk(doc, w) && w[0] == e
  }

  // ---- the length bound ----

  function NodeSet(doc: Document): set<string> {
    set id | id in doc.nodes
  }

  /** The node a walk is at before its i-th edge, or at its end. */
  ghost function At(doc: Document, w: seq<nat>, i: nat): string
    requires Walk(doc, w) && |w| > 0 && i <= |w|
  {
    if i < |w| then doc.edges[w[i]].from else doc.edges[w[i - 1]].to
  }

  lemma {:induction false} DistinctFits<T>(s: seq<T>, all: set<T>)
    requires forall i, j :: 0 <= i < j < |s| ==> s[i] != s[j]
    requires forall i :: 0 <= i < |s| ==> s[i] in all
    ensures |s| <= |all|
  {
    if |s| > 0 {
      DistinctFits(s[1..], all - {s[0]});
    }
  }

  /** A walk over unbounded edges that comes back has been round an unbounded cycle. */
  lemma ReturnIsCycle(doc: Document, w: seq<nat>, i: nat, j: nat)
    requires Walk(doc, w) && Unbounded(doc, w) && i < j <= |w| && At(doc, w, i) == At(doc, w, j)
    ensures HasUnboundedCycle(doc)
  {
    var loop := w[i..j];
    assert doc.edges[loop[|loop| - 1]].to == At(doc, w, j);
    assert ClosedWalk(doc, loop) && Unbounded(doc, loop);
  }

  /** Without unbounded cycles a walk over unbounded edges visits no node twice. */
  lemma UnboundedWalkIsShort(doc: Document, w: seq<nat>)
    requires !HasUnboundedCycle(doc) && Walk(doc, w) && Unbounded(doc, w) && |doc.nodes| > 0
    ensures |w| <= |NodeSet(doc)| - 1
  {
    if |w| == 0 {
      assert doc.nodes[0] in NodeSet(doc);
      return;
    }
    var visited := seq(|w| + 1, i requires 0 <= i <= |w| => At(doc, w, i));
    forall i, j | 0 <= i < j < |visited|
      ensures visited[i] != visited[j]
    {
      if visited[i] == visited[j] {
        ReturnIsCycle(doc, w, i, j);
      }
    }
    DistinctFits(visited, NodeSet(doc));
  }

  /** How many steps of the walk use an edge with max_traversals. */
  ghost function BoundedSteps(doc: Document, w: seq<nat>): nat
    requires Walk(doc, w)
  {
    if |w| == 0 then 0
    else BoundedSteps(doc, w[..|w| - 1]) + if doc.edges[w[|w| - 1]].hasMax then 1 else 0
  }

  lemma {:induction false} BoundedStepsBreakWalks(doc: Document, w: seq<nat>, tail: seq<nat>)
    requires !HasUnboundedCycle(doc) && Walk(doc, w) && |doc.nodes| > 0
    requires Walk(doc, tail) && Unbounded(doc, tail) && Walk(doc, w + tail)
    ensures var b, m := BoundedSteps(doc, w), |NodeSet(doc)| - 1; |w + tail| <= b + (b + 1) * m
  {
    var m := |NodeSet(doc)| - 1;
    if |w| == 0 {
      UnboundedWalkIsShort(doc, tail);
    } else {
      var init, last := w[..|w| - 1], w[|w| - 1];
      if doc.edges[last].hasMax {
        UnboundedWalkIsShort(doc, tail);
        assert Walk(doc, init + []) by { assert init + [] == init; }
        BoundedStepsBreakWalks(doc, init, []);
        var b := BoundedSteps(doc, init);
        assert (b + 2) * m == (b + 1) * m + m;
      } else {
        assert init + ([last] + tail) == w + tail;
        assert Walk(doc, [last] + tail) by {
          assert forall i :: 0 <= i < |[last] + tail| ==> ([last] + tail)[i] == (w + tail)[|init| + i];
        }
        BoundedStepsBreakWalks(doc, init, [last] + tail);
      }
    }
  }

  function Count(w: seq<nat>, e: nat): nat {
    if |w| == 0 then 0 else Count(w[..|w| - 1], e) + if w[|w| - 1] == e then 1 else 0
  }

  /** The walk uses every bounded edge at most max_traversals times. */
  ghost predicate WithinBounds(doc: Document, w: seq<nat>) {
    forall e :: 0 <= e < |doc.edges| && doc.edges[e].hasMax ==> Count(w, e) <= doc.edges[e].maxTraversals
  }

  /** The sum of all max_traversals. */
  function TotalTraversals(edges: seq<DocEdge>): int {
    if |edges| == 0 then 0
    else TotalTraversals(edges[..|edges| - 1]) +
         if edges[|edges| - 1].hasMax then edges[|edges| - 1].maxTraversals else 0
  }

  /** Bounded steps over the first m edges only. */
  ghost function StepsBelow(doc: Document, w: seq<nat>, m: nat): nat
    requires Walk(doc, w)
  {
    if |w| == 0 then 0
    else StepsBelow(doc, w[..|w| - 1], m) + if w[|w| - 1] < m && doc.edges[w[|w| - 1]].hasMax then 1 else 0
  }

  lemma {:induction false} StepsBelowGrows(doc: Document, w: seq<nat>, m: nat)
    requires Walk(doc, w) && m < |doc.edges|
    ensures StepsBelow(doc, w, m + 1) == StepsBelow(doc, w, m) + if doc.edges[m].hasMax then Count(w, m) else 0
    ensures StepsBelow(doc, w, 0) == 0 && StepsBelow(doc, w, |doc.edges|) == BoundedSteps(doc, w)
  {
    if |w| > 0 { StepsBelowGrows(doc, w[..|w| - 1], m); }
  }

  lemma {:induction false} StepsBelowTotal(doc: Document, w: seq<nat>, m: nat)
    requires Walk(doc, w) && WithinBounds(doc, w) && m <= |doc.edges|
    ensures StepsBelow(doc, w, m) <= TotalTraversals(doc.edges[..m])
    ensures m == |doc.edges| && m > 0 ==> StepsBelow(doc, w, m) == BoundedSteps(doc, w)
  {
    if m == 0 {
      if |w| > 0 { StepsBelowGrows(doc, w, 0); }
    } else {
      StepsBelowTotal(doc, w, m - 1);
      StepsBelowGrows(doc, w, m - 1);
      assert doc.edges[..m][..m - 1] == doc.edges[..m - 1];
    }
  }

  /** Without unbounded cycles, a walk that respects the traversal bounds has at most K + (K+1)(n-1)
      edges, for n nodes and K the sum of the bounds. */
  lemma WalksAreBounded(doc: Document, w: seq<nat>)
    requires !HasUnboundedCycle(doc) && |doc.nodes| > 0 && Walk(doc, w) && WithinBounds(doc, w)
    ensures var k, n := TotalTraversals(doc.edges), |NodeSet(doc)|; |w| <= k + (k + 1) * (n - 1)
  {
    var k, m, b := TotalTraversals(doc.edges), |NodeSet(doc)| - 1, BoundedSteps(doc, w);
    assert doc.nodes[0] in NodeSet(doc);
    assert w + [] == w && doc.edges[..|doc.edges|] == doc.edges;
    BoundedStepsBreakWalks(doc, w, []);
    StepsBelowTotal(doc, w, |doc.edges|);
    MultiplyBoth(b + 1, k + 1, m);
  }

  lemma MultiplyBoth(a: int, b: int, m: nat)
    requires a <= b
    ensures a * m <= b * m
  {
  }
}
