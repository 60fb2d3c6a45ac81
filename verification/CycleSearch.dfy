/** Depth-first search for a directed cycle, with three colours and an explicit stack. */
module CycleSearch {
  import opened Collections
  import opened Graphs

  datatype Color = White | Gray | Black

  /** The search's variables at one instant. `done[v]` is the rank at which v turned black. */
  datatype State = State(color: seq<Color>, inPath: seq<bool>, pos: seq<int>, path: seq<nat>, visit: seq<nat>,
                         done: seq<int>, clock: int)

  ghost predicate Shape(g: Graph, s: State) {
    && WellFormed(g)
    && |s.color| == |s.inPath| == |s.pos| == |s.done| == |g|
    && (forall v :: 0 <= v < |g| ==> 0 <= s.pos[v] <= |g[v]|)
    && (forall i :: 0 <= i < |s.visit| ==> s.visit[i] < |g|)
  }

  ghost predicate Colors(g: Graph, s: State)
    requires Shape(g, s)
  {
    && (forall v {:trigger s.inPath[v]} :: 0 <= v < |g| ==> (s.inPath[v] <==> v in s.path))
    && (forall v {:trigger s.color[v]} :: 0 <= v < |g| ==> (s.color[v].Gray? <==> v in s.path))
    && (forall v {:trigger s.color[v]} :: 0 <= v < |g| && s.color[v].White? ==> s.pos[v] == 0)
    && Distinct(s.path)
    && (s.visit == s.path || (|s.visit| > 0 && s.visit == s.path + [s.visit[|s.visit| - 1]]
                              && !s.color[s.visit[|s.visit| - 1]].Gray?))
    && (forall i :: 0 <= i < |s.visit| - 1 ==> Edge(g, s.visit[i], s.visit[i + 1]))
  }

  /** The arcs of a grey node looked at so far lead to black nodes, but for the one under way. */
  ghost predicate Explored(g: Graph, s: State, i: nat)
    requires Shape(g, s) && i < |s.path| <= |s.visit| && s.path[i] < |g|
  {
    forall j :: 0 <= j < s.pos[s.path[i]] ==>
      || s.color[g[s.path[i]][j]].Black?
      || (i + 1 < |s.visit| && g[s.path[i]][j] == s.visit[i + 1])
  }

  ghost predicate AllExplored(g: Graph, s: State)
    requires Shape(g, s) && Colors(g, s)
  {
    forall i {:trigger Explored(g, s, i)} :: 0 <= i < |s.path| ==> s.path[i] == s.visit[i] && Explored(g, s, i)
  }

  /** Arcs from black nodes go to nodes that turned black earlier. */
  ghost predicate Ranked(g: Graph, color: seq<Color>, done: seq<int>, clock: int)
    requires |color| == |done| == |g|
  {
    forall v: nat {:trigger color[v]} :: v < |g| && color[v].Black? ==>
      && done[v] < clock
      && (forall w: nat {:trigger Edge(g, v, w)} :: Edge(g, v, w) ==> w < |g| && color[w].Black? && done[w] < done[v])
  }

  ghost predicate Inv(g: Graph, s: State) {
    Shape(g, s) && Colors(g, s) && AllExplored(g, s) && Ranked(g, s.color, s.done, s.clock)
  }

  ghost function Top(s: State): nat
    requires |s.visit| > 0
  {
    s.visit[|s.visit| - 1]
  }

  /** No cycle passes through a black node. */
  lemma BlackIsAcyclic(g: Graph, color: seq<Color>, done: seq<int>, clock: int, c: seq<nat>)
    requires |color| == |done| == |g| && Ranked(g, color, done, clock) && IsCycle(g, c)
    ensures !color[c[0]].Black?
  {
    if color[c[0]].Black? {
      var i := 0;
      while i < |c| - 1
        invariant 0 <= i < |c| && color[c[i]].Black? && done[c[i]] <= done[c[0]]
      {
        assert Edge(g, c[i], c[i + 1]);
        i := i + 1;
      }
    }
  }

  lemma Rotate(g: Graph, c: seq<nat>, k: nat)
    requires IsCycle(g, c) && k < |c|
    ensures IsCycle(g, c[k..] + c[..k])
  {
    var r := c[k..] + c[..k];
    forall i | 0 <= i < |r| - 1
      ensures Edge(g, r[i], r[i + 1])
    {
      if i + k < |c| - 1 {
        assert Edge(g, c[i + k], c[i + k + 1]);
      } else if i + k > |c| - 1 {
        assert Edge(g, c[i + k - |c|], c[i + k - |c| + 1]);
      }
    }
  }

  // ---- moves ----

  ghost function Entered(s: State): State
    requires |s.visit| > 0 && Top(s) < |s.color| == |s.inPath|
  {
    s.(color := s.color[Top(s) := Gray], inPath := s.inPath[Top(s) := true], path := s.path + [Top(s)])
  }

  lemma EnteredKeeps(g: Graph, s: State)
    requires Inv(g, s) && |s.visit| > 0 && s.color[Top(s)].White?
    ensures Inv(g, Entered(s))
  {
    var t, u := Entered(s), Top(s);
    assert u !in s.path && s.visit == s.path + [u];
    forall i | 0 <= i < |t.path|
      ensures t.path[i] == t.visit[i] && Explored(g, t, i)
    {
      if i < |s.path| {
        assert s.path[i] == s.visit[i];
        assert Explored(g, s, i);
      }
    }
  }

  /** The grey top looks at its next arc, which leads to a node that is not grey. A white one is visited. */
  ghost function Stepped(g: Graph, s: State): State
    requires Shape(g, s) && |s.visit| > 0 && s.pos[Top(s)] < |g[Top(s)]|
  {
    var w := g[Top(s)][s.pos[Top(s)]];
    s.(pos := s.pos[Top(s) := s.pos[Top(s)] + 1], visit := if s.color[w].White? then s.visit + [w] else s.visit)
  }

  lemma GrayTop(g: Graph, s: State)
    requires Inv(g, s) && |s.visit| > 0 && s.color[Top(s)].Gray?
    ensures s.visit == s.path && s.path[|s.path| - 1] == Top(s) && Explored(g, s, |s.path| - 1)
    ensures s.pos[Top(s)] < |g[Top(s)]| ==> g[Top(s)][s.pos[Top(s)]] < |g|
  {
  }

  lemma SteppedKeeps(g: Graph, s: State)
    requires Inv(g, s) && |s.visit| > 0 && s.color[Top(s)].Gray? && s.pos[Top(s)] < |g[Top(s)]|
    requires !s.color[g[Top(s)][s.pos[Top(s)]]].Gray?
    ensures Inv(g, Stepped(g, s))
  {
    var t, u := Stepped(g, s), Top(s);
    var w := g[u][s.pos[u]];
    GrayTop(g, s);
    assert Edge(g, u, w);
    forall i | 0 <= i < |t.path|
      ensures t.path[i] == t.visit[i] && Explored(g, t, i)
    {
      assert Explored(g, s, i);
    }
  }

  /** The grey top has no arcs left and turns black. */
  ghost function Finished(s: State): State
    requires |s.visit| > 0 && |s.path| > 0 && Top(s) < |s.color| == |s.inPath| == |s.done|
  {
    s.(color := s.color[Top(s) := Black], inPath := s.inPath[Top(s) := false], path := s.path[..|s.path| - 1],
       visit := s.visit[..|s.visit| - 1], done := s.done[Top(s) := s.clock], clock := s.clock + 1)
  }

  lemma FinishedIsRanked(g: Graph, s: State)
    requires Inv(g, s) && |s.visit| > 0 && s.color[Top(s)].Gray? && s.pos[Top(s)] == |g[Top(s)]| && |s.path| > 0
    ensures var t := Finished(s); Ranked(g, t.color, t.done, t.clock)
  {
    GrayTop(g, s);
    hide Colors, AllExplored;
    var t, u := Finished(s), Top(s);
    forall v: nat, w: nat | v < |g| && t.color[v].Black? && Edge(g, v, w)
      ensures w < |g| && t.color[w].Black? && t.done[w] < t.done[v]
    {
      if v == u {
        var j :| 0 <= j < |g[u]| && g[u][j] == w;
        assert s.color[g[u][j]].Black?;
      } else {
        assert s.color[v].Black?;
      }
    }
  }

  lemma FinishedKeeps(g: Graph, s: State)
    requires Inv(g, s) && |s.visit| > 0 && s.color[Top(s)].Gray? && s.pos[Top(s)] == |g[Top(s)]|
    ensures |s.path| > 0 && Inv(g, Finished(s))
  {
    GrayTop(g, s);
    FinishedIsRanked(g, s);
    hide Ranked;
    var t, u := Finished(s), Top(s);
    var last := |s.path| - 1;
    assert s.path == s.path[..last] + [u];
    forall v | 0 <= v < |g|
      ensures v in t.path <==> v in s.path && v != u
    {
      if v in s.path && v != u {
        var i :| 0 <= i < |s.path| && s.path[i] == v;
        assert t.path[i] == v;
      }
    }
    forall i | 0 <= i < |t.path|
      ensures t.path[i] == t.visit[i] && Explored(g, t, i)
    {
      assert Explored(g, s, i);
    }
  }

  /** A black node on top is dropped. */
  ghost function Dropped(s: State): State
    requires |s.visit| > 0
  {
    s.(visit := s.visit[..|s.visit| - 1])
  }

  lemma DroppedKeeps(g: Graph, s: State)
    requires Inv(g, s) && |s.visit| > 0 && s.color[Top(s)].Black?
    ensures Inv(g, Dropped(s)) && s.visit == s.path + [Top(s)]
  {
    var t := Dropped(s);
    assert s.visit != s.path by {
      if |s.path| > 0 { assert s.path[|s.path| - 1] in s.path; }
    }
    forall i | 0 <= i < |t.path|
      ensures t.path[i] == t.visit[i] && Explored(g, t, i)
    {
      assert Explored(g, s, i);
    }
  }

  /** An arc to a grey node closes a simple cycle along the path. */
  lemma GrayClosesCycle(g: Graph, s: State, start: nat)
    requires Inv(g, s) && |s.visit| > 0 && s.color[Top(s)].Gray? && s.pos[Top(s)] < |g[Top(s)]|
    requires start < |s.path| && s.path[start] == g[Top(s)][s.pos[Top(s)]]
    ensures IsSimpleCycle(g, s.path[start..])
  {
    GrayTop(g, s);
    var c := s.path[start..];
    assert forall i :: 0 <= i < |c| ==> c[i] == s.visit[start + i];
    forall i | 0 <= i < |c| - 1
      ensures Edge(g, c[i], c[i + 1])
    {
      assert Edge(g, s.visit[start + i], s.visit[start + i + 1]);
    }
    assert c[|c| - 1] == Top(s);
  }

  // ---- the program ----

  ghost predicate Holds(s: State, color: array<Color>, inPath: array<bool>, pos: array<int>)
    reads color, inPath, pos
  {
    s.color == color[..] && s.inPath == inPath[..] && s.pos == pos[..]
  }

  /** The white nodes, and the arcs not yet looked at: neither ever grows. */
  ghost function Whites(color: seq<Color>): set<int> {
    set v | 0 <= v < |color| && color[v].White?
  }

  /** The place of w on the path, searched from its end. */
  method LastIndex(path: seq<nat>, w: nat) returns (start: nat)
    requires w in path
    ensures start < |path| && path[start] == w && w !in path[start + 1..]
  {
    start := |path|;
    var i := |path| - 1;
    while i >= 0
      invariant -1 <= i < |path| && w in path[..i + 1] && w !in path[i + 1..]
    {
      if path[i] == w {
        start := i;
        return;
      }
      i := i - 1;
    }
  }

  lemma WhitesShrink(color: seq<Color>, v: nat, c: Color)
    requires v < |color| && color[v].White? && !c.White?
    ensures Whites(color[v := c]) < Whites(color)
  {
    assert v in Whites(color) && v !in Whites(color[v := c]);
  }

  lemma WhitesStay(color: seq<Color>, v: nat, c: Color)
    requires v < |color| && !color[v].White? && !c.White?
    ensures Whites(color[v := c]) == Whites(color)
  {
  }

  lemma StartKeeps(g: Graph, s: State)
    requires WellFormed(g) && |s.color| == |s.inPath| == |s.pos| == |s.done| == |g|
    requires forall v :: 0 <= v < |g| ==> s.color[v].White? && !s.inPath[v] && s.pos[v] == 0
    requires s.path == [] == s.visit
    ensures Inv(g, s)
  {
  }

  lemma RootKeeps(g: Graph, s: State, root: nat)
    requires Inv(g, s) && s.path == [] == s.visit && root < |g| && s.color[root].White?
    ensures Inv(g, s.(visit := [root]))
  {
  }

  lemma NoGray(g: Graph, s: State)
    requires Inv(g, s) && s.path == []
    ensures forall v :: 0 <= v < |g| ==> !s.color[v].Gray?
  {
  }

  lemma OnPath(g: Graph, s: State, w: nat)
    requires Inv(g, s) && w < |g|
    ensures s.color[w].Gray? <==> w in s.path
    ensures s.inPath[w] <==> w in s.path
  {
  }

  lemma EmptyPath(g: Graph, s: State)
    requires Inv(g, s) && s.visit == []
    ensures s.path == []
  {
  }

  /** Everything reachable from a black node is black, hence on no cycle. */
  lemma NoneReachable(g: Graph, s: State, members: seq<nat>)
    requires Inv(g, s) && forall m :: m in members ==> m < |g| && s.color[m].Black?
    ensures forall c, m, k :: IsCycle(g, c) && m in members && 0 <= k < |c| ==> !Reach(g, m, c[k])
  {
    forall c, m, k | IsCycle(g, c) && m in members && 0 <= k < |c|
      ensures !Reach(g, m, c[k])
    {
      if Reach(g, m, c[k]) {
        ClosedUnderReach(g, (v: nat) => v < |g| && s.color[v].Black?, m, c[k]);
        Rotate(g, c, k);
        BlackIsAcyclic(g, s.color, s.done, s.clock, c[k..] + c[..k]);
      }
    }
  }

  /** One look at the gray node on top of the stack: it is finished, closes a cycle, or steps along an arc. */
  method LookOn(adj: seq<seq<nat>>, color: array<Color>, inPath: array<bool>, pos: array<int>, before: seq<nat>,
      stack: seq<nat>, ghost s: State)
    returns (cycle: seq<nat>, path: seq<nat>, visit: seq<nat>, ghost t: State)
    requires Inv(adj, s) && Holds(s, color, inPath, pos) && s.path == before && s.visit == stack
    requires |stack| > 0 && s.color[Top(s)].Gray?
    modifies color, inPath, pos
    ensures cycle != [] ==> IsSimpleCycle(adj, cycle)
    ensures cycle == [] ==> Inv(adj, t) && Holds(t, color, inPath, pos) && t.path == path && t.visit == visit
    ensures cycle == [] ==> |visit| > 0 ==> visit[0] == stack[0]
    ensures cycle == [] ==> |visit| == 0 ==> t.color[stack[0]].Black?
    ensures cycle == [] ==> forall v :: 0 <= v < |adj| && s.color[v].Black? ==> t.color[v].Black?
    ensures cycle == [] ==> Whites(t.color) == Whites(s.color) && 0 <= Remaining(adj, t.pos)
    ensures cycle == [] ==> Remaining(adj, t.pos) < Remaining(adj, s.pos) || (t.pos == s.pos && |visit| < |stack|)
  {
    hide Colors, AllExplored, Ranked, WellFormed, Explored, Whites, Remaining, IsSimpleCycle;
    cycle, path, visit, t := [], before, stack, s;
    var u := stack[|stack| - 1];
    GrayTop(adj, s);
    RemainingNonNegative(adj, s.pos);
    if pos[u] >= |adj[u]| {
      FinishedKeeps(adj, s);
      WhitesStay(s.color, u, Black);
      t := Finished(s);
      color[u] := Black;
      inPath[u] := false;
      path := path[..|path| - 1];
      visit := visit[..|visit| - 1];
      return;
    }
    var w := adj[u][pos[u]];
    OnPath(adj, s, w);
    if color[w].Gray? && inPath[w] {
      var start := LastIndex(path, w);
      GrayClosesCycle(adj, s, start);
      cycle := path[start..];
      return;
    }
    SteppedKeeps(adj, s);
    RemainingDrops(adj, s.pos, u);
    t := Stepped(adj, s);
    RemainingNonNegative(adj, t.pos);
    pos[u] := pos[u] + 1;
    if color[w].White? {
      visit := visit + [w];
    }
  }

  /** Explores everything below a root. Returns a simple cycle, or paints all of it black. */
  method ExploreFrom(root: nat, adj: seq<seq<nat>>, color: array<Color>, inPath: array<bool>, pos: array<int>,
      ghost s0: State)
    returns (cycle: seq<nat>, ghost s: State)
    requires Inv(adj, s0) && Holds(s0, color, inPath, pos) && s0.path == [] == s0.visit
    requires root < |adj| && s0.color[root].White?
    modifies color, inPath, pos
    ensures cycle != [] ==> IsSimpleCycle(adj, cycle)
    ensures cycle == [] ==> Inv(adj, s) && Holds(s, color, inPath, pos) && s.path == [] == s.visit
    ensures cycle == [] ==>
            s.color[root].Black? && forall v :: 0 <= v < |adj| && s0.color[v].Black? ==> s.color[v].Black?
  {
    hide Colors, AllExplored, Ranked, WellFormed, Explored, Whites, Remaining, IsSimpleCycle;
    var path: seq<nat>, visit := [], [root];
    s := s0.(visit := visit);
    RootKeeps(adj, s0, root);
    while |visit| > 0
      invariant Inv(adj, s) && Holds(s, color, inPath, pos) && s.path == path && s.visit == visit
      invariant s.color[root].Black? || (|visit| > 0 && visit[0] == root)
      invariant forall v :: 0 <= v < |adj| && s0.color[v].Black? ==> s.color[v].Black?
      decreases Whites(s.color), Remaining(adj, s.pos), |visit|
    {
      var u := visit[|visit| - 1];
      RemainingNonNegative(adj, s.pos);
      match color[u] {
        case White =>
          EnteredKeeps(adj, s);
          WhitesShrink(s.color, u, Gray);
          s := Entered(s);
          color[u] := Gray;
          path := path + [u];
          inPath[u] := true;
        case Gray =>
          cycle, path, visit, s := LookOn(adj, color, inPath, pos, path, visit, s);
          if cycle != [] { return; }
        case Black =>
          DroppedKeeps(adj, s);
          s := Dropped(s);
          visit := visit[..|visit| - 1];
      }
    }
    EmptyPath(adj, s);
    cycle := [];
  }

  /** A cycle among the nodes reachable from `members`; empty when there is none. */
  method FindCycle(members: seq<nat>, adj: seq<seq<nat>>) returns (cycle: seq<nat>)
    requires WellFormed(adj) && forall m :: m in members ==> m < |adj|
    ensures cycle != [] ==> IsSimpleCycle(adj, cycle)
    ensures cycle == [] ==> forall c, m, k :: IsCycle(adj, c) && m in members && 0 <= k < |c| ==> !Reach(adj, m, c[k])
  {
    hide Colors, AllExplored, Ranked;
    var color := new Color[|adj|](_ => White);
    var path: seq<nat> := [];
    var inPath := new bool[|adj|](_ => false);
    var pos := new int[|adj|](_ => 0);
    ghost var s := State(color[..], inPath[..], pos[..], [], [], seq(|adj|, _ => 0), 0);
    StartKeeps(adj, s);
    for i := 0 to |members|
      invariant Inv(adj, s) && Holds(s, color, inPath, pos) && s.path == [] == s.visit
      invariant forall m :: m in members[..i] ==> m < |s.color| && s.color[m].Black?
    {
      var root := members[i];
      assert root in members && members[..i + 1] == members[..i] + [root];
      NoGray(adj, s);
      if !color[root].White? {
        continue;
      }
      cycle, s := ExploreFrom(root, adj, color, inPath, pos, s);
      if cycle != [] {
        return;
      }
    }
    assert members[..|members|] == members;
    NoneReachable(adj, s, members);
    cycle := [];
  }
}
