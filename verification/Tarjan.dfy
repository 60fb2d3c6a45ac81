/** Strongly connected components by an iterative form of Tarjan's algorithm. */
module Tarjan {
  import opened Graphs

  datatype Arc = Arc(to: nat, bounded: bool)

  const UNSEEN := -1

  /** The graph an arc list describes, with the bounds forgotten. */
  function Targets(adj: seq<seq<Arc>>): (g: Graph)
    ensures |g| == |adj|
    ensures forall u :: 0 <= u < |adj| ==> |g[u]| == |adj[u]|
    ensures forall u, k :: 0 <= u < |adj| && 0 <= k < |adj[u]| ==> g[u][k] == adj[u][k].to
  {
    seq(|adj|, u requires 0 <= u < |adj| => seq(|adj[u]|, k requires 0 <= k < |adj[u]| => adj[u][k].to))
  }

  /** The algorithm's variables at one instant. `base[i]` is the place on `stack` where call[i] was
      opened; the last entry of `call` may be a node that is about to be opened. */
  datatype State = State(
    order: seq<int>, low: seq<int>, onStack: seq<bool>, cursor: seq<int>, sccOf: seq<int>,
    stack: seq<nat>, call: seq<nat>, base: seq<nat>, next: int, comps: int)

  ghost function Top(s: State): nat
    requires |s.call| > 0
  {
    s.call[|s.call| - 1]
  }

  ghost predicate Shape(g: Graph, s: State) {
    var n := |g|;
    && |s.order| == |s.low| == |s.onStack| == |s.cursor| == |s.sccOf| == n
    && (forall k :: 0 <= k < |s.stack| ==> s.stack[k] < n)
    && (forall i :: 0 <= i < |s.call| ==> s.call[i] < n)
    && (forall v :: 0 <= v < n ==> 0 <= s.cursor[v] <= |g[v]|)
    && |s.base| <= |s.call| <= |s.base| + 1
    && 0 <= s.next && 0 <= s.comps
  }

  ghost predicate Seen(s: State, v: nat)
    requires v < |s.order|
  {
    s.order[v] != UNSEEN
  }

  ghost predicate FreshTop(s: State, v: nat) {
    |s.base| < |s.call| && s.call[|s.call| - 1] == v
  }

  /** A node already given to a component. */
  ghost predicate Assigned(order: seq<int>, onStack: seq<bool>, v: nat) {
    v < |order| && v < |onStack| && order[v] != UNSEEN && !onStack[v]
  }

  ghost predicate Numbering(g: Graph, s: State)
    requires Shape(g, s)
  {
    && (forall v {:trigger s.order[v]} :: 0 <= v < |g| ==> s.order[v] == UNSEEN || 0 <= s.order[v] < s.next)
    && (forall v {:trigger s.order[v]} :: 0 <= v < |g| && s.order[v] == UNSEEN ==> s.cursor[v] == 0)
    && (forall v {:trigger s.onStack[v]} :: 0 <= v < |g| ==> (s.onStack[v] <==> v in s.stack))
    && (forall v {:trigger s.onStack[v]} :: 0 <= v < |g| && s.onStack[v] ==> s.order[v] != UNSEEN)
    && (forall a, b :: 0 <= a < b < |s.stack| ==> s.order[s.stack[a]] < s.order[s.stack[b]])
    && (|s.base| < |s.call| ==> !Seen(s, Top(s)))
  }

  ghost predicate Calls(g: Graph, s: State)
    requires Shape(g, s)
  {
    && (forall i :: 0 <= i < |s.base| ==> s.base[i] < |s.stack| && s.stack[s.base[i]] == s.call[i])
    && (forall i, j :: 0 <= i < j < |s.base| ==> s.base[i] < s.base[j])
    && (|s.base| == 0 ==> s.stack == [])
    && (|s.base| > 0 ==> s.base[0] == 0)
    && (forall i :: 0 <= i < |s.call| - 1 ==> Edge(g, s.call[i], s.call[i + 1]))
  }

  ghost function End(s: State, i: nat): nat
    requires i < |s.base|
  {
    if i + 1 < |s.base| then s.base[i + 1] else |s.stack|
  }

  /** Every arc of x looked at so far leads to a seen node, and to no stacked node numbered below `bound`. */
  ghost predicate Scanned(g: Graph, s: State, x: nat, bound: int)
    requires Shape(g, s) && WellFormed(g) && x < |g|
  {
    forall j :: 0 <= j < s.cursor[x] ==>
      && (Seen(s, g[x][j]) || FreshTop(s, g[x][j]))
      && (s.onStack[g[x][j]] ==> bound <= s.order[g[x][j]])
  }

  /** The stacked node at position k belongs to the open call i. */
  ghost predicate Owned(g: Graph, s: State, i: nat, k: nat)
    requires Shape(g, s) && WellFormed(g) && i < |s.base| && k < |s.stack|
  {
    var x, c := s.stack[k], s.call[i];
    && Mutual(g, x, c)
    && (k != s.base[i] ==> s.cursor[x] == |g[x]|)
    && Scanned(g, s, x, s.low[c])
  }

  ghost predicate Segments(g: Graph, s: State)
    requires Shape(g, s) && WellFormed(g) && Calls(g, s)
  {
    forall i, k {:trigger Owned(g, s, i, k)} :: 0 <= i < |s.base| && s.base[i] <= k < End(s, i) ==> Owned(g, s, i, k)
  }

  /** low[call[i]] is the number of a stacked node that call[i] reaches. */
  ghost predicate LowWitness(g: Graph, s: State, i: nat, k: nat)
    requires Shape(g, s) && Calls(g, s) && i < |s.base| && k < |s.stack|
  {
    s.order[s.stack[k]] == s.low[s.call[i]] && Reach(g, s.call[i], s.stack[k])
  }

  ghost predicate LowOk(g: Graph, s: State, i: nat)
    requires Shape(g, s) && Calls(g, s) && i < |s.base|
  {
    && s.low[s.call[i]] <= s.order[s.call[i]]
    && exists k :: 0 <= k < |s.stack| && LowWitness(g, s, i, k)
  }

  ghost predicate Lows(g: Graph, s: State)
    requires Shape(g, s) && Calls(g, s)
  {
    forall i :: 0 <= i < |s.base| ==> LowOk(g, s, i)
  }

  ghost predicate Components(g: Graph, order: seq<int>, onStack: seq<bool>, sccOf: seq<int>, comps: int)
    requires |order| == |onStack| == |sccOf| == |g|
  {
    && (forall v: nat {:trigger Assigned(order, onStack, v)} :: Assigned(order, onStack, v) ==> 0 <= sccOf[v] < comps)
    && (forall v: nat, w: nat {:trigger Assigned(order, onStack, v), Edge(g, v, w)} ::
          Assigned(order, onStack, v) && Edge(g, v, w) ==> Assigned(order, onStack, w) && sccOf[w] <= sccOf[v])
    && (forall v: nat, w: nat {:trigger Assigned(order, onStack, v), Assigned(order, onStack, w)} ::
          Assigned(order, onStack, v) && Assigned(order, onStack, w) ==>
            (sccOf[v] == sccOf[w] <==> Mutual(g, v, w)))
  }

  ghost predicate Basics(g: Graph, s: State) {
    WellFormed(g) && Shape(g, s) && Numbering(g, s) && Calls(g, s)
  }

  ghost predicate Inv(g: Graph, s: State) {
    && Basics(g, s) && Segments(g, s) && Lows(g, s)
    && Components(g, s.order, s.onStack, s.sccOf, s.comps)
  }

  // ---- the algorithm's moves ------------------------------------------------------------------

  /** The call on top has been opened. */
  ghost predicate Running(s: State) {
    0 < |s.call| == |s.base|
  }

  ghost predicate Start(g: Graph, s: State) {
    && Shape(g, s) && s.stack == s.call == s.base == [] && s.comps == 0
    && forall v :: 0 <= v < |g| ==> s.order[v] == UNSEEN && !s.onStack[v] && s.cursor[v] == 0
  }

  lemma StartKeeps(g: Graph, s: State)
    requires WellFormed(g) && Start(g, s)
    ensures Inv(g, s)
  {
  }

  /** A root is called for the first time. */
  ghost function Called(s: State, root: nat): State {
    s.(call := [root])
  }

  lemma CalledKeeps(g: Graph, s: State, root: nat)
    requires Inv(g, s) && s.call == [] && root < |g| && !Seen(s, root)
    ensures Inv(g, Called(s, root))
  {
  }

  ghost function Opened(s: State): State
    requires |s.call| > 0 && Top(s) < |s.order| && Top(s) < |s.low| && Top(s) < |s.onStack|
  {
    var u := Top(s);
    s.(order := s.order[u := s.next], low := s.low[u := s.next], next := s.next + 1,
       stack := s.stack + [u], onStack := s.onStack[u := true], base := s.base + [|s.stack|])
  }

  lemma OpenedBasics(g: Graph, s: State)
    requires Inv(g, s) && |s.base| < |s.call|
    ensures Basics(g, Opened(s)) && Running(Opened(s)) && !s.onStack[Top(s)]
  {
    hide Segments, Lows, Components;
    assert !Seen(s, Top(s));
    assert s.onStack[Top(s)] <==> Top(s) in s.stack;
  }

  lemma OpenedSegments(g: Graph, s: State)
    requires Inv(g, s) && |s.base| < |s.call| && Basics(g, Opened(s)) && !s.onStack[Top(s)]
    ensures Segments(g, Opened(s))
  {
    var t, u, m := Opened(s), Top(s), |s.base|;
    forall i, k | 0 <= i < |t.base| && t.base[i] <= k < End(t, i)
      ensures Owned(g, t, i, k)
    {
      if i == m {
        ReachSelf(g, u);
        assert t.stack[k] == u;
      } else {
        assert k < End(s, i) && t.stack[k] == s.stack[k] != u;
        assert s.call[i] == s.stack[s.base[i]] && s.call[i] != u && s.onStack[s.call[i]];
        assert LowOk(g, s, i) && s.low[s.call[i]] <= s.next;
        assert Owned(g, s, i, k);
      }
    }
  }

  lemma OpenedLows(g: Graph, s: State)
    requires Inv(g, s) && |s.base| < |s.call| && Basics(g, Opened(s)) && !s.onStack[Top(s)]
    ensures Lows(g, Opened(s))
  {
    var t, u, m := Opened(s), Top(s), |s.base|;
    forall i | 0 <= i < |t.base|
      ensures LowOk(g, t, i)
    {
      if i == m {
        ReachSelf(g, u);
        assert LowWitness(g, t, m, |s.stack|);
      } else {
        assert LowOk(g, s, i);
        var k :| 0 <= k < |s.stack| && LowWitness(g, s, i, k);
        assert s.call[i] == s.stack[s.base[i]] && s.call[i] != u;
        assert s.stack[k] in s.stack;
        assert LowWitness(g, t, i, k);
      }
    }
  }

  lemma OpenedKeeps(g: Graph, s: State)
    requires Inv(g, s) && |s.base| < |s.call|
    ensures Inv(g, Opened(s)) && Running(Opened(s))
  {
    OpenedBasics(g, s);
    OpenedSegments(g, s);
    OpenedLows(g, s);
    var t := Opened(s);
    assert forall v: nat :: Assigned(t.order, t.onStack, v) <==> Assigned(s.order, s.onStack, v);
  }

  /** The next arc of the top node leads to a node not seen before, which is called. */
  ghost function Advanced(g: Graph, s: State): State
    requires Shape(g, s) && |s.call| > 0 && s.cursor[Top(s)] < |g[Top(s)]|
  {
    var u := Top(s);
    s.(cursor := s.cursor[u := s.cursor[u] + 1], call := s.call + [g[u][s.cursor[u]]])
  }

  lemma AdvancedBasics(g: Graph, s: State)
    requires Inv(g, s) && Running(s) && s.cursor[Top(s)] < |g[Top(s)]|
    requires !Seen(s, g[Top(s)][s.cursor[Top(s)]])
    ensures Basics(g, Advanced(g, s))
  {
    var t, u := Advanced(g, s), Top(s);
    assert Edge(g, u, g[u][s.cursor[u]]);
    assert s.stack[s.base[|s.base| - 1]] == u && s.onStack[u];
  }

  lemma AdvancedKeeps(g: Graph, s: State)
    requires Inv(g, s) && Running(s) && s.cursor[Top(s)] < |g[Top(s)]|
    requires !Seen(s, g[Top(s)][s.cursor[Top(s)]])
    ensures Inv(g, Advanced(g, s))
  {
    AdvancedBasics(g, s);
    var t, u := Advanced(g, s), Top(s);
    var w := g[u][s.cursor[u]];
    assert FreshTop(t, w) && !s.onStack[w];
    forall i, k | 0 <= i < |t.base| && t.base[i] <= k < End(t, i)
      ensures Owned(g, t, i, k)
    {
      assert Owned(g, s, i, k);
      assert t.stack[k] == s.stack[k] && t.call[i] == s.call[i];
    }
    forall i | 0 <= i < |t.base|
      ensures LowOk(g, t, i)
    {
      assert LowOk(g, s, i);
      var k :| 0 <= k < |s.stack| && LowWitness(g, s, i, k);
      assert LowWitness(g, t, i, k);
    }
  }

  /** The next arc of the top node leads to a seen node, whose number may lower `low`. */
  ghost function Looked(g: Graph, s: State): State
    requires Shape(g, s) && WellFormed(g) && |s.call| > 0 && s.cursor[Top(s)] < |g[Top(s)]|
  {
    var u := Top(s);
    var w := g[u][s.cursor[u]];
    s.(cursor := s.cursor[u := s.cursor[u] + 1],
       low := if s.onStack[w] && s.order[w] < s.low[u] then s.low[u := s.order[w]] else s.low)
  }

  lemma LookedSegments(g: Graph, s: State)
    requires Inv(g, s) && Running(s) && s.cursor[Top(s)] < |g[Top(s)]|
    requires Seen(s, g[Top(s)][s.cursor[Top(s)]])
    requires Basics(g, Looked(g, s))
    ensures Segments(g, Looked(g, s))
  {
    var t, m := Looked(g, s), |s.base| - 1;
    OpenCallsDiffer(g, s);
    assert s.stack[s.base[m]] == Top(s);
    forall i, k | 0 <= i < |t.base| && t.base[i] <= k < End(t, i)
      ensures Owned(g, t, i, k)
    {
      assert Owned(g, s, i, k);
      assert t.low[t.call[i]] <= s.low[s.call[i]];
      if s.stack[k] == Top(s) {
        assert !(k < s.base[m]) && !(s.base[m] < k);
      }
    }
  }

  lemma LookedLows(g: Graph, s: State)
    requires Inv(g, s) && Running(s) && s.cursor[Top(s)] < |g[Top(s)]|
    requires Basics(g, Looked(g, s))
    ensures Lows(g, Looked(g, s))
  {
    var t, u, m := Looked(g, s), Top(s), |s.base| - 1;
    var w := g[u][s.cursor[u]];
    OpenCallsDiffer(g, s);
    forall i | 0 <= i < |t.base|
      ensures LowOk(g, t, i)
    {
      assert LowOk(g, s, i);
      if i == m && t.low[u] != s.low[u] {
        var k :| 0 <= k < |s.stack| && s.stack[k] == w;
        assert Edge(g, u, w);
        ReachEdge(g, u, w);
        assert LowWitness(g, t, i, k);
      } else {
        var k :| 0 <= k < |s.stack| && LowWitness(g, s, i, k);
        assert LowWitness(g, t, i, k);
      }
    }
  }

  lemma LookedKeeps(g: Graph, s: State)
    requires Inv(g, s) && Running(s) && s.cursor[Top(s)] < |g[Top(s)]|
    requires Seen(s, g[Top(s)][s.cursor[Top(s)]])
    ensures Inv(g, Looked(g, s)) && Running(Looked(g, s))
  {
    assert s.stack[s.base[|s.base| - 1]] == Top(s) && s.onStack[Top(s)];
    assert Basics(g, Looked(g, s));
    LookedSegments(g, s);
    LookedLows(g, s);
  }

  lemma OpenCallsDiffer(g: Graph, s: State)
    requires Shape(g, s) && Numbering(g, s) && Calls(g, s)
    ensures forall i, j :: 0 <= i < j < |s.base| ==> s.call[i] != s.call[j]
  {
    forall i, j | 0 <= i < j < |s.base|
      ensures s.call[i] != s.call[j]
    {
      assert s.order[s.stack[s.base[i]]] < s.order[s.stack[s.base[j]]];
    }
  }

  /** Going up the chain of open calls. */
  lemma CallReaches(g: Graph, s: State, i: nat, j: nat)
    requires WellFormed(g) && Shape(g, s) && Calls(g, s) && i <= j < |s.call|
    ensures Reach(g, s.call[i], s.call[j])
    decreases j - i
  {
    if i == j {
      ReachSelf(g, s.call[i]);
    } else {
      CallReaches(g, s, i, j - 1);
      assert Edge(g, s.call[j - 1], s.call[j - 1 + 1]);
      ReachStep(g, s.call[i], s.call[j - 1], s.call[j]);
    }
  }

  /** The open call that owns a stack position. */
  lemma OwnerOf(g: Graph, s: State, k: nat) returns (i: nat)
    requires Shape(g, s) && Calls(g, s) && k < |s.stack|
    ensures i < |s.base| && s.base[i] <= k < End(s, i)
  {
    i := |s.base| - 1;
    while k < s.base[i]
      invariant 0 <= i < |s.base|
      invariant k < End(s, i)
    {
      i := i - 1;
    }
  }

  /** The top call is finished and is not the first of its component: its nodes pass to the caller. */
  ghost function Returned(s: State): State
    requires |s.call| > 1 && |s.base| == |s.call|
    requires Top(s) < |s.low| && s.call[|s.call| - 2] < |s.low|
  {
    var u, p := Top(s), s.call[|s.call| - 2];
    s.(call := s.call[..|s.call| - 1], base := s.base[..|s.base| - 1],
       low := if s.low[u] < s.low[p] then s.low[p := s.low[u]] else s.low)
  }

  ghost predicate Finished(g: Graph, s: State)
    requires Shape(g, s)
  {
    Running(s) && s.cursor[Top(s)] == |g[Top(s)]|
  }

  /** A finished call with a lowered number reaches its caller. */
  lemma ReachesCaller(g: Graph, s: State)
    requires Inv(g, s) && Finished(g, s) && s.low[Top(s)] < s.order[Top(s)]
    ensures |s.call| > 1 && Mutual(g, Top(s), s.call[|s.call| - 2])
  {
    var u, m := Top(s), |s.base| - 1;
    assert LowOk(g, s, m);
    var k :| 0 <= k < |s.stack| && LowWitness(g, s, m, k);
    assert forall a :: s.base[m] <= a < |s.stack| ==> s.order[s.stack[s.base[m]]] <= s.order[s.stack[a]];
    var i := OwnerOf(g, s, k);
    assert i < m;
    assert Owned(g, s, i, k);
    CallReaches(g, s, i, m - 1);
    ReachTrans(g, u, s.stack[k], s.call[i]);
    ReachTrans(g, u, s.call[i], s.call[m - 1]);
    CallReaches(g, s, m - 1, m);
  }

  /** What the returning node owned now belongs to its caller. */
  lemma ReturnedOwned(g: Graph, s: State, k: nat)
    requires Inv(g, s) && Finished(g, s) && |s.call| > 1 && Basics(g, Returned(s))
    requires Mutual(g, Top(s), s.call[|s.call| - 2])
    requires s.base[|s.base| - 1] <= k < End(s, |s.base| - 1)
    ensures Owned(g, Returned(s), |s.base| - 2, k)
  {
    var t, u, m := Returned(s), Top(s), |s.base| - 1;
    var p := s.call[m - 1];
    OpenCallsDiffer(g, s);
    assert Owned(g, s, m, k);
    ReachTrans(g, s.stack[k], u, p);
    ReachTrans(g, p, u, s.stack[k]);
    assert t.low[p] <= s.low[u];
  }

  /** The other segments stay with their owners, whose low links can only fall. */
  lemma KeptOwned(g: Graph, s: State, i: nat, k: nat)
    requires Inv(g, s) && Finished(g, s) && |s.call| > 1 && Basics(g, Returned(s))
    requires i < |s.base| - 1 && s.base[i] <= k < End(s, i)
    ensures Owned(g, Returned(s), i, k)
  {
    var t := Returned(s);
    OpenCallsDiffer(g, s);
    assert Owned(g, s, i, k);
    assert t.low[t.call[i]] <= s.low[s.call[i]];
  }

  lemma ReturnedSegments(g: Graph, s: State)
    requires Inv(g, s) && Finished(g, s) && |s.call| > 1 && Basics(g, Returned(s))
    requires Mutual(g, Top(s), s.call[|s.call| - 2])
    ensures Segments(g, Returned(s))
  {
    var t, m := Returned(s), |s.base| - 1;
    forall i, k | 0 <= i < |t.base| && t.base[i] <= k < End(t, i)
      ensures Owned(g, t, i, k)
    {
      if i == m - 1 && s.base[m] <= k {
        ReturnedOwned(g, s, k);
      } else {
        KeptOwned(g, s, i, k);
      }
    }
  }

  /** A caller whose low link has fallen takes the witness of the node that returned. */
  lemma FallenLow(g: Graph, s: State)
    requires Inv(g, s) && Finished(g, s) && |s.call| > 1 && Basics(g, Returned(s))
    requires var p := s.call[|s.base| - 2]; Returned(s).low[p] != s.low[p]
    ensures LowOk(g, Returned(s), |s.base| - 2)
  {
    var t, u, m := Returned(s), Top(s), |s.base| - 1;
    var p := s.call[m - 1];
    OpenCallsDiffer(g, s);
    assert LowOk(g, s, m - 1) && LowOk(g, s, m);
    var k :| 0 <= k < |s.stack| && LowWitness(g, s, m, k);
    CallReaches(g, s, m - 1, m);
    ReachTrans(g, p, u, s.stack[k]);
    assert LowWitness(g, t, m - 1, k);
  }

  lemma ReturnedLows(g: Graph, s: State)
    requires Inv(g, s) && Finished(g, s) && |s.call| > 1 && Basics(g, Returned(s))
    ensures Lows(g, Returned(s))
  {
    var t, m := Returned(s), |s.base| - 1;
    var p := s.call[m - 1];
    OpenCallsDiffer(g, s);
    forall i | 0 <= i < |t.base|
      ensures LowOk(g, t, i)
    {
      if i == m - 1 && t.low[p] != s.low[p] {
        FallenLow(g, s);
      } else {
        assert LowOk(g, s, i);
        var k :| 0 <= k < |s.stack| && LowWitness(g, s, i, k);
        assert LowWitness(g, t, i, k);
      }
    }
  }

  lemma ReturnedKeeps(g: Graph, s: State)
    requires Inv(g, s) && Finished(g, s) && s.low[Top(s)] < s.order[Top(s)]
    ensures |s.call| > 1 && Inv(g, Returned(s)) && Running(Returned(s))
  {
    ReachesCaller(g, s);
    assert Basics(g, Returned(s));
    ReturnedSegments(g, s);
    ReturnedLows(g, s);
  }

  /** The top call is finished and first of its component: everything from its place up is popped. */
  ghost predicate Closes(s: State, t: State)
    requires Running(s) && s.base[|s.base| - 1] <= |s.stack|
    requires |s.onStack| == |s.sccOf|
  {
    var b := s.base[|s.base| - 1];
    && t.order == s.order && t.low == s.low && t.cursor == s.cursor && t.next == s.next
    && t.stack == s.stack[..b] && t.call == s.call[..|s.call| - 1] && t.base == s.base[..|s.base| - 1]
    && t.comps == s.comps + 1
    && |t.onStack| == |s.onStack| && |t.sccOf| == |s.sccOf|
    && (forall v {:trigger t.onStack[v]} :: 0 <= v < |s.onStack| ==>
          t.onStack[v] == (s.onStack[v] && v !in s.stack[b..]))
    && (forall v {:trigger t.sccOf[v]} :: 0 <= v < |s.sccOf| ==>
          t.sccOf[v] == if v in s.stack[b..] then s.comps else s.sccOf[v])
  }

  /** Once the top call is known to be first, no arc leaves its part of the stack except to finished
      components. */
  lemma ClosedSegment(g: Graph, s: State, k: nat, w: nat)
    requires Inv(g, s) && Finished(g, s) && s.low[Top(s)] == s.order[Top(s)]
    requires s.base[|s.base| - 1] <= k < |s.stack| && Edge(g, s.stack[k], w)
    ensures Assigned(s.order, s.onStack, w) || w in s.stack[s.base[|s.base| - 1]..]
  {
    var m, x := |s.base| - 1, s.stack[k];
    assert Owned(g, s, m, k);
    assert s.stack[s.base[m]] == Top(s);
    var j :| 0 <= j < |g[x]| && g[x][j] == w;
    assert j < s.cursor[x];
    assert Seen(s, g[x][j]);
    if s.onStack[w] {
      var a :| 0 <= a < |s.stack| && s.stack[a] == w;
      assert forall c :: 0 <= c < s.base[m] ==> s.order[s.stack[c]] < s.order[s.stack[s.base[m]]];
      assert s.stack[s.base[m]..][a - s.base[m]] == w;
    }
  }

  lemma ClosedComponents(g: Graph, s: State, t: State)
    requires Inv(g, s) && Finished(g, s) && s.low[Top(s)] == s.order[Top(s)] && Closes(s, t)
    requires Shape(g, t)
    ensures Components(g, t.order, t.onStack, t.sccOf, t.comps)
  {
    var m, u := |s.base| - 1, Top(s);
    var top := s.stack[s.base[m]..];
    forall v: nat
      ensures Assigned(t.order, t.onStack, v) <==> Assigned(s.order, s.onStack, v) || v in top
    {
      if v in top {
        assert v in s.stack && s.onStack[v];
      }
    }
    forall v | v in top
      ensures Mutual(g, v, u) && !Assigned(s.order, s.onStack, v)
      ensures forall w :: Edge(g, v, w) ==> Assigned(s.order, s.onStack, w) || w in top
    {
      var k :| 0 <= k < |top| && top[k] == v;
      assert Owned(g, s, m, s.base[m] + k);
      assert s.stack[s.base[m] + k] == v;
      forall w | Edge(g, v, w)
        ensures Assigned(s.order, s.onStack, w) || w in top
      {
        ClosedSegment(g, s, s.base[m] + k, w);
      }
    }
    forall v: nat, w: nat | Assigned(t.order, t.onStack, v) && Assigned(t.order, t.onStack, w)
      ensures t.sccOf[v] == t.sccOf[w] <==> Mutual(g, v, w)
    {
      if v in top && w in top {
        ReachTrans(g, v, u, w);
        ReachTrans(g, w, u, v);
      } else if Assigned(s.order, s.onStack, v) && w in top {
        if Reach(g, v, w) { ClosedUnderReach(g, (x: nat) => Assigned(s.order, s.onStack, x), v, w); }
      } else if Assigned(s.order, s.onStack, w) && v in top {
        if Reach(g, w, v) { ClosedUnderReach(g, (x: nat) => Assigned(s.order, s.onStack, x), w, v); }
      }
    }
  }

  lemma ClosedBasics(g: Graph, s: State, t: State)
    requires Inv(g, s) && Finished(g, s) && Closes(s, t)
    ensures Basics(g, t) && |t.base| == |t.call|
  {
    var b := s.base[|s.base| - 1];
    assert s.stack == s.stack[..b] + s.stack[b..];
    forall v | 0 <= v < |g|
      ensures t.onStack[v] <==> v in t.stack
    {
      if v in s.stack[..b] {
        var a :| 0 <= a < b && s.stack[a] == v;
        assert forall c :: b <= c < |s.stack| ==> s.order[s.stack[a]] < s.order[s.stack[c]];
      }
    }
  }

  lemma ClosedOpenCalls(g: Graph, s: State, t: State)
    requires Inv(g, s) && Finished(g, s) && Closes(s, t) && Basics(g, t)
    ensures Segments(g, t) && Lows(g, t)
  {
    var b := s.base[|s.base| - 1];
    forall i, k | 0 <= i < |t.base| && t.base[i] <= k < End(t, i)
      ensures Owned(g, t, i, k)
    {
      assert Owned(g, s, i, k);
      assert t.stack[k] == s.stack[k] && t.call[i] == s.call[i];
    }
    forall i | 0 <= i < |t.base|
      ensures LowOk(g, t, i)
    {
      assert LowOk(g, s, i);
      var k :| 0 <= k < |s.stack| && LowWitness(g, s, i, k);
      assert s.base[i] < b && s.stack[s.base[i]] == s.call[i];
      assert forall c :: b <= c < |s.stack| ==> s.order[s.stack[s.base[i]]] < s.order[s.stack[c]];
      assert LowWitness(g, t, i, k);
    }
  }

  lemma ClosedKeeps(g: Graph, s: State, t: State)
    requires Inv(g, s) && Finished(g, s) && s.low[Top(s)] == s.order[Top(s)] && Closes(s, t)
    ensures Inv(g, t) && |t.base| == |t.call|
  {
    ClosedBasics(g, s, t);
    ClosedOpenCalls(g, s, t);
    ClosedComponents(g, s, t);
  }

  // ---- the program ------------------------------------------------------------------------------

  /** What the program needs to know about the stack when the top call is finished. */
  lemma StackFacts(g: Graph, s: State)
    requires Inv(g, s) && Finished(g, s)
    ensures |s.base| > 0 && s.base[|s.base| - 1] < |s.stack|
    ensures var b := s.base[|s.base| - 1];
            s.stack[b] == Top(s) && forall k :: b < k < |s.stack| ==> s.stack[k] != Top(s)
    ensures s.low[Top(s)] <= s.order[Top(s)]
    ensures s.low[Top(s)] == s.order[Top(s)] && |s.call| > 1 ==> s.low[s.call[|s.call| - 2]] <= s.low[Top(s)]
    ensures |s.call| > 1 ==> s.call[|s.call| - 2] != Top(s)
  {
    var m := |s.base| - 1;
    var b := s.base[m];
    assert forall k :: b < k < |s.stack| ==> s.order[s.stack[b]] < s.order[s.stack[k]];
    assert LowOk(g, s, m);
    OpenCallsDiffer(g, s);
    if m > 0 {
      assert LowOk(g, s, m - 1);
      assert s.order[s.stack[s.base[m - 1]]] < s.order[s.stack[b]];
    }
  }

  /** What component numbers must mean. */
  ghost predicate NumbersComponents(g: Graph, sccOf: seq<int>) {
    && |sccOf| == |g|
    && (forall u: nat, v: nat {:trigger sccOf[u], sccOf[v]} ::
          u < |g| && v < |g| ==> (sccOf[u] == sccOf[v] <==> Mutual(g, u, v)))
    && (forall u: nat, v: nat {:trigger Edge(g, u, v)} :: v < |g| && Edge(g, u, v) ==> sccOf[v] <= sccOf[u])
  }

  /** The five arrays of the search are distinct and hold what the snapshot says. */
  ghost predicate Holds(s: State, order: array<int>, low: array<int>, onStack: array<bool>, cursor: array<int>,
                        sccOf: array<int>)
    reads order, low, onStack, cursor, sccOf
  {
    && order != low && order != cursor && order != sccOf && low != cursor && low != sccOf && cursor != sccOf
    && s.order == order[..] && s.low == low[..] && s.onStack == onStack[..] && s.cursor == cursor[..]
    && s.sccOf == sccOf[..]
  }

  /** One arc: its target is new and is called, or its order is taken into the low link. */
  method LookAlong(adj: seq<seq<Arc>>, u: nat, order: array<int>, low: array<int>, onStack: array<bool>,
                   cursor: array<int>, sccOf: array<int>, ghost g: Graph, ghost s: State)
    returns (advanced: bool, w: nat, ghost t: State)
    requires |s.cursor| == |g| && g == Targets(adj) && Inv(g, s) && Running(s) && Top(s) == u
    requires Holds(s, order, low, onStack, cursor, sccOf) && cursor[u] < |adj[u]|
    modifies low, cursor
    ensures Inv(g, t) && Holds(t, order, low, onStack, cursor, sccOf) && |t.cursor| == |g|
    ensures Remaining(g, t.cursor) < Remaining(g, s.cursor) && cursor[u] == old(cursor[u]) + 1
    ensures advanced ==> t == Advanced(g, s) && t.call == s.call + [w]
    ensures !advanced ==> Running(t) && t == s.(cursor := t.cursor, low := t.low)
  {
    hide Numbering, Calls, Segments, Lows, Components;
    w := adj[u][cursor[u]].to;
    assert w == g[u][s.cursor[u]];
    RemainingDrops(g, s.cursor, u);
    cursor[u] := cursor[u] + 1;
    advanced := order[w] == UNSEEN;
    if advanced {
      AdvancedKeeps(g, s);
      t := Advanced(g, s);
      return;
    }
    LookedKeeps(g, s);
    if onStack[w] && order[w] < low[u] {
      low[u] := order[w];
    }
    t := Looked(g, s);
  }

  /** Looks at the arcs of the top node until one leads to a node not seen before. */
  method ScanArcs(adj: seq<seq<Arc>>, u: nat, order: array<int>, low: array<int>, onStack: array<bool>,
                  cursor: array<int>, sccOf: array<int>, ghost g: Graph, ghost s: State)
    returns (advanced: bool, w: nat, ghost t: State)
    requires |s.cursor| == |g| && g == Targets(adj) && Inv(g, s) && Running(s) && Top(s) == u
    requires Holds(s, order, low, onStack, cursor, sccOf)
    modifies low, cursor
    ensures Inv(g, t) && Holds(t, order, low, onStack, cursor, sccOf)
    ensures |t.cursor| == |g| && t.order == s.order && t.onStack == s.onStack && t.sccOf == s.sccOf
    ensures t.stack == s.stack
    ensures t.base == s.base && t.next == s.next && t.comps == s.comps
    ensures advanced ==> t.call == s.call + [w] && Remaining(g, t.cursor) < Remaining(g, s.cursor)
    ensures !advanced ==> t.call == s.call && Finished(g, t)
    ensures !advanced ==> Remaining(g, t.cursor) <= Remaining(g, s.cursor)
  {
    hide Numbering, Calls, Segments, Lows, Components;
    t := s;
    while cursor[u] < |adj[u]|
      invariant Inv(g, t) && Running(t) && Holds(t, order, low, onStack, cursor, sccOf)
      invariant t == s.(cursor := t.cursor, low := t.low)
      invariant Remaining(g, t.cursor) <= Remaining(g, s.cursor)
      decreases |adj[u]| - cursor[u]
    {
      advanced, w, t := LookAlong(adj, u, order, low, onStack, cursor, sccOf, g, t);
      if advanced { return; }
    }
    advanced, w := false, u;
  }

  /** Pops the finished component headed by u. */
  method PopComponent(u: nat, comps: int, stack0: seq<nat>, onStack: array<bool>, sccOf: array<int>, ghost b: nat)
    returns (stack: seq<nat>)
    requires onStack.Length == sccOf.Length && forall k :: 0 <= k < |stack0| ==> stack0[k] < onStack.Length
    requires b < |stack0| && stack0[b] == u && forall k :: b < k < |stack0| ==> stack0[k] != u
    modifies onStack, sccOf
    ensures stack == stack0[..b]
    ensures forall v :: 0 <= v < onStack.Length ==>
              onStack[v] == (old(onStack[v]) && v !in stack0[b..]) &&
              sccOf[v] == if v in stack0[b..] then comps else old(sccOf[v])
  {
    stack := stack0;
    ghost var k := |stack0|;
    while true
      invariant b < k <= |stack0| && stack == stack0[..k]
      invariant forall v :: 0 <= v < onStack.Length ==>
              onStack[v] == (old(onStack[v]) && v !in stack0[k..]) &&
              sccOf[v] == if v in stack0[k..] then comps else old(sccOf[v])
      decreases k
    {
      var w := stack[|stack| - 1];
      stack := stack[..|stack| - 1];
      onStack[w] := false;
      sccOf[w] := comps;
      k := k - 1;
      assert stack0[k..] == [w] + stack0[k + 1..];
      if w == u {
        break;
      }
    }
  }

  /** The finished top call hands its `low` to its caller and, when it is the first of its component,
      pops the component. */
  method Retire(u: nat, call0: seq<nat>, stack0: seq<nat>, next: int, comps0: int, order: array<int>, low: array<int>,
                onStack: array<bool>, cursor: array<int>, sccOf: array<int>, ghost g: Graph, ghost s: State)
    returns (call: seq<nat>, stack: seq<nat>, comps: int, ghost t: State)
    requires Inv(g, s) && Finished(g, s) && Top(s) == u && Holds(s, order, low, onStack, cursor, sccOf)
    requires s.call == call0 && s.stack == stack0 && s.next == next && s.comps == comps0
    modifies low, onStack, sccOf
    ensures Inv(g, t) && Holds(t, order, low, onStack, cursor, sccOf)
    ensures t.call == call == call0[..|call0| - 1] && t.stack == stack && t.next == next && t.comps == comps
    ensures t.order == s.order && t.cursor == s.cursor
  {
    hide Numbering, Calls, Segments, Lows, Components;
    StackFacts(g, s);
    stack, comps := stack0, comps0;
    call := call0[..|call0| - 1];
    if |call| > 0 {
      var p := call[|call| - 1];
      if low[u] < low[p] {
        low[p] := low[u];
      }
    }
    if low[u] == order[u] {
      ghost var b := s.base[|s.base| - 1];
      stack := PopComponent(u, comps, stack, onStack, sccOf, b);
      comps := comps + 1;
      t := State(order[..], low[..], onStack[..], cursor[..], sccOf[..], stack, call, s.base[..|s.base| - 1], next,
                 comps);
      ClosedKeeps(g, s, t);
    } else {
      ReturnedKeeps(g, s);
      t := Returned(s);
    }
  }

  lemma AllAssigned(g: Graph, s: State)
    requires Inv(g, s) && s.call == [] && SeenBelow(s.order, |g|)
    ensures NumbersComponents(g, s.sccOf)
  {
    assert s.stack == [];
    forall v: nat | v < |g|
      ensures Assigned(s.order, s.onStack, v)
    {
      assert !s.onStack[v];
    }
    forall u: nat, v: nat | u < |g| && v < |g|
      ensures s.sccOf[u] == s.sccOf[v] <==> Mutual(g, u, v)
    {
      assert Assigned(s.order, s.onStack, u) && Assigned(s.order, s.onStack, v);
    }
    forall u: nat, v: nat | v < |g| && Edge(g, u, v)
      ensures s.sccOf[v] <= s.sccOf[u]
    {
      assert Assigned(s.order, s.onStack, u);
    }
  }

  /** A call is already open exactly when its node is numbered. */
  lemma OpenOrFresh(g: Graph, s: State)
    requires Inv(g, s) && |s.call| > 0
    ensures Seen(s, Top(s)) <==> Running(s)
  {
    if Running(s) {
      assert s.stack[s.base[|s.base| - 1]] == Top(s) && s.onStack[Top(s)];
    }
  }

  ghost predicate Grows(before: seq<int>, after: seq<int>) {
    |before| == |after| && forall v :: 0 <= v < |before| && before[v] != UNSEEN ==> after[v] != UNSEEN
  }

  /** Numbers the top node and puts it on the stack, unless that was done before. */
  method OpenTop(u: nat, next0: int, stack0: seq<nat>, order: array<int>, low: array<int>, onStack: array<bool>,
                 cursor: array<int>, sccOf: array<int>, ghost g: Graph, ghost s: State)
    returns (next: int, stack: seq<nat>, ghost t: State)
    requires Inv(g, s) && |s.call| > 0 && Top(s) == u && Holds(s, order, low, onStack, cursor, sccOf)
    requires |s.cursor| == |g| && s.stack == stack0 && s.next == next0
    modifies order, low, onStack
    ensures Inv(g, t) && Running(t) && Holds(t, order, low, onStack, cursor, sccOf)
    ensures |t.cursor| == |t.order| == |g| && u < |g|
    ensures Grows(s.order, t.order) && t.order[u] != UNSEEN && t.call == s.call && t.cursor == s.cursor
    ensures t.stack == stack && t.next == next && t.comps == s.comps
  {
    hide Numbering, Calls, Segments, Lows, Components;
    OpenOrFresh(g, s);
    next, stack, t := next0, stack0, s;
    if order[u] == UNSEEN {
      OpenedKeeps(g, s);
      t := Opened(s);
      order[u] := next0;
      low[u] := next0;
      next := next0 + 1;
      stack := stack0 + [u];
      onStack[u] := true;
    }
  }

  ghost predicate SeenBelow(order: seq<int>, root: int) {
    0 <= root <= |order| && forall v :: 0 <= v < root ==> order[v] != UNSEEN
  }

  lemma GrowsSelf(order: seq<int>)
    ensures Grows(order, order)
  {
  }

  lemma GrowsTwice(first: seq<int>, before: seq<int>, after: seq<int>, root: nat, u: nat)
    requires Grows(first, before) && Grows(before, after) && root < |first| && u < |after|
    requires (u == root || before[root] != UNSEEN) && after[u] != UNSEEN
    ensures Grows(first, after) && after[root] != UNSEEN
  {
  }

  lemma CursorFacts(g: Graph, s: State)
    requires Inv(g, s)
    ensures |s.cursor| == |g| && 0 <= Remaining(g, s.cursor)
  {
    RemainingNonNegative(g, s.cursor);
  }

  lemma CalledHolds(s: State, root: nat, order: array<int>, low: array<int>, onStack: array<bool>, cursor: array<int>,
      sccOf: array<int>)
    requires Holds(s, order, low, onStack, cursor, sccOf)
    ensures Holds(Called(s, root), order, low, onStack, cursor, sccOf)
  {
  }

  lemma HeldOrder(s: State, order: array<int>, low: array<int>, onStack: array<bool>, cursor: array<int>,
      sccOf: array<int>)
    requires Holds(s, order, low, onStack, cursor, sccOf)
    ensures s.order == order[..] && s.sccOf == sccOf[..]
  {
  }

  lemma SameLength(before: seq<int>, after: seq<int>)
    requires Grows(before, after)
    ensures |before| == |after|
  {
  }

  lemma SeenOneMore(before: seq<int>, after: seq<int>, root: nat)
    requires SeenBelow(before, root) && Grows(before, after) && root < |after| && after[root] != UNSEEN
    ensures SeenBelow(after, root + 1)
  {
  }

  /** The search below one root. */
  method SearchFrom(root: nat, adj: seq<seq<Arc>>, stack0: seq<nat>, next0: int, comps0: int, order: array<int>,
                    low: array<int>, onStack: array<bool>, cursor: array<int>, sccOf: array<int>, ghost g: Graph,
                    ghost s: State)
    returns (stack: seq<nat>, next: int, comps: int, ghost t: State)
    requires g == Targets(adj) && Inv(g, s) && Holds(s, order, low, onStack, cursor, sccOf)
    requires root < |g| == |s.order| && !Seen(s, root)
    requires s.call == [] && s.stack == stack0 && s.next == next0 && s.comps == comps0
    modifies order, low, onStack, cursor, sccOf
    ensures Inv(g, t) && Holds(t, order, low, onStack, cursor, sccOf) && t.call == []
    ensures t.stack == stack && t.next == next && t.comps == comps
    ensures Grows(s.order, t.order) && t.order[root] != UNSEEN
  {
    hide Inv, Holds, Grows, Finished, Targets, Remaining, Running;
    CalledHolds(s, root, order, low, onStack, cursor, sccOf);
    stack, next, comps := stack0, next0, comps0;
    var call: seq<nat> := [root];
    CalledKeeps(g, s, root);
    t := Called(s, root);
    CursorFacts(g, t);
    GrowsSelf(s.order);
    while |call| > 0
      invariant Holds(t, order, low, onStack, cursor, sccOf)
      invariant Inv(g, t) && t.call == call && t.stack == stack && t.next == next && t.comps == comps
      invariant |t.cursor| == |t.order| == |g| && Grows(s.order, t.order)
      invariant call == [root] || t.order[root] != UNSEEN
      decreases Remaining(g, t.cursor), |call|
    {
      var u := call[|call| - 1];
      CursorFacts(g, t);
      ghost var before := t.order;
      next, stack, t := OpenTop(u, next, stack, order, low, onStack, cursor, sccOf, g, t);
      GrowsTwice(s.order, before, t.order, root, u);
      var advanced, w;
      advanced, w, t := ScanArcs(adj, u, order, low, onStack, cursor, sccOf, g, t);
      if advanced {
        call := call + [w];
        continue;
      }
      call, stack, comps, t := Retire(u, call, stack, next, comps, order, low, onStack, cursor, sccOf, g, t);
    }
  }

  method IterativeScc(n: nat, adj: seq<seq<Arc>>) returns (result: array<int>)
    requires |adj| == n && WellFormed(Targets(adj))
    ensures NumbersComponents(Targets(adj), result[..])
  {
    hide Numbering, Calls, Segments, Lows, Components, NumbersComponents, Edge;
    ghost var g := Targets(adj);
    var order := new int[n](_ => UNSEEN);
    var low := new int[n](_ => 0);
    var onStack := new bool[n](_ => false);
    var stack: seq<nat> := [];
    var cursor := new int[n](_ => 0);
    var sccOf := new int[n](_ => 0);
    var next, comps := 0, 0;
    ghost var s := State(order[..], low[..], onStack[..], cursor[..], sccOf[..], [], [], [], 0, 0);
    StartKeeps(g, s);
    assert Holds(s, order, low, onStack, cursor, sccOf) && SeenBelow(s.order, 0);
    hide Inv, Holds, Grows, SeenBelow, Targets;
    GrowsSelf(s.order);
    for root := 0 to n
      invariant Holds(s, order, low, onStack, cursor, sccOf) && |s.order| == n
      invariant Inv(g, s) && s.call == [] && s.stack == stack && s.next == next && s.comps == comps
      invariant SeenBelow(s.order, root)
    {
      HeldOrder(s, order, low, onStack, cursor, sccOf);
      ghost var before := s.order;
      GrowsSelf(before);
      if order[root] == UNSEEN {
        stack, next, comps, s := SearchFrom(root, adj, stack, next, comps, order, low, onStack, cursor, sccOf, g, s);
        SameLength(before, s.order);
      }
      SeenOneMore(before, s.order, root);
    }
    HeldOrder(s, order, low, onStack, cursor, sccOf);
    AllAssigned(g, s);
    result := sccOf;
  }
}
