/** Finite directed graphs, paths and reachability.

    A graph is an adjacency list: node u has an arc to g[u][k] for every k. */
module Graphs {
  import opened Collections

  type Graph = seq<seq<nat>>

  ghost predicate WellFormed(g: Graph) {
    forall u, k :: 0 <= u < |g| && 0 <= k < |g[u]| ==> g[u][k] < |g|
  }

  ghost predicate Edge(g: Graph, u: nat, v: nat) {
    u < |g| && v in g[u]
  }

  /** A non-empty walk, given by the nodes it visits. */
  ghost predicate IsWalk(g: Graph, p: seq<nat>) {
    && |p| > 0
    && (forall i :: 0 <= i < |p| ==> p[i] < |g|)
    && (forall i :: 0 <= i < |p| - 1 ==> Edge(g, p[i], p[i + 1]))
  }

  ghost predicate Connects(g: Graph, p: seq<nat>, u: nat, v: nat) {
    IsWalk(g, p) && p[0] == u && p[|p| - 1] == v
  }

  /** v can be reached from u by a walk of zero or more arcs. */
  ghost predicate Reach(g: Graph, u: nat, v: nat) {
    exists p :: Connects(g, p, u, v)
  }

  ghost predicate Mutual(g: Graph, u: nat, v: nat) {
    Reach(g, u, v) && Reach(g, v, u)
  }

  lemma ReachSelf(g: Graph, u: nat)
    requires u < |g|
    ensures Reach(g, u, u)
  {
    assert Connects(g, [u], u, u);
  }

  lemma ReachEdge(g: Graph, u: nat, v: nat)
    requires WellFormed(g) && Edge(g, u, v)
    ensures v < |g| && Reach(g, u, v)
  {
    assert Connects(g, [u, v], u, v);
  }

  lemma ReachTrans(g: Graph, u: nat, v: nat, w: nat)
    requires Reach(g, u, v) && Reach(g, v, w)
    ensures Reach(g, u, w)
  {
    var p :| Connects(g, p, u, v);
    var q :| Connects(g, q, v, w);
    assert Connects(g, p + q[1..], u, w) by {
      forall i | 0 <= i < |p + q[1..]| - 1
        ensures Edge(g, (p + q[1..])[i], (p + q[1..])[i + 1])
      {
        if i >= |p| - 1 {
          assert Edge(g, q[i - (|p| - 1)], q[i - (|p| - 1) + 1]);
        }
      }
    }
  }

  lemma ReachStep(g: Graph, u: nat, v: nat, w: nat)
    requires WellFormed(g) && Reach(g, u, v) && Edge(g, v, w)
    ensures w < |g| && Reach(g, u, w)
  {
    ReachEdge(g, v, w);
    ReachTrans(g, u, v, w);
  }

  /** A set of nodes closed under arcs is closed under reachability. */
  lemma ClosedUnderReach(g: Graph, inside: nat -> bool, u: nat, v: nat)
    requires forall x, y :: inside(x) && Edge(g, x, y) ==> inside(y)
    requires inside(u) && Reach(g, u, v)
    ensures inside(v)
  {
    var p :| Connects(g, p, u, v);
    var i := 0;
    while i < |p| - 1
      invariant 0 <= i < |p|
      invariant inside(p[i])
    {
      assert Edge(g, p[i], p[i + 1]);
      i := i + 1;
    }
  }

  // ---- cycles ----

  /** A closed walk: its last node has an arc back to its first. */
  ghost predicate IsCycle(g: Graph, c: seq<nat>) {
    IsWalk(g, c) && Edge(g, c[|c| - 1], c[0])
  }

  ghost predicate IsSimpleCycle(g: Graph, c: seq<nat>) {
    IsCycle(g, c) && Distinct(c)
  }

  // ---- a measure for searches that look at every arc once ----

  /** Arcs still to be looked at; the loop's termination measure. */
  ghost function Remaining(g: Graph, cursor: seq<int>): int
    requires |cursor| == |g|
  {
    if |g| == 0 then 0 else |g[|g| - 1]| - cursor[|g| - 1] + Remaining(g[..|g| - 1], cursor[..|g| - 1])
  }

  lemma {:induction false} RemainingDrops(g: Graph, cursor: seq<int>, u: nat)
    requires |cursor| == |g| && u < |g|
    ensures Remaining(g, cursor[u := cursor[u] + 1]) == Remaining(g, cursor) - 1
  {
    var n := |g| - 1;
    if u < n {
      RemainingDrops(g[..n], cursor[..n], u);
      assert cursor[u := cursor[u] + 1][..n] == cursor[..n][u := cursor[..n][u] + 1];
    } else {
      assert cursor[u := cursor[u] + 1][..n] == cursor[..n];
    }
  }

  lemma {:induction false} RemainingNonNegative(g: Graph, cursor: seq<int>)
    requires |cursor| == |g| && forall v :: 0 <= v < |g| ==> cursor[v] <= |g[v]|
    ensures 0 <= Remaining(g, cursor)
  {
    if |g| > 0 { RemainingNonNegative(g[..|g| - 1], cursor[..|g| - 1]); }
  }
}
