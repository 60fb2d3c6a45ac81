/** Exactly what routing out of a finished node does, and which steps finish a node. */
module RunRouting {
  import opened Events
  import opened OperationKeys
  import opened Options
  import opened RunEngine
  import opened RunSafety

  // ---- routing ----

  /** The edges that n traverses when it finishes. */
  predicate Taken(e: EdgeDef, n: string, route: Option<string>) {
    e.from == n && (IsDependency(e.typ) || Selects(e, route))
  }

  /** x is a target that no route selected and that only n could have routed to. */
  predicate IsBlocked(g: Graph, n: string, route: Option<string>, x: string) {
    exists i :: 0 <= i < |g.edges| && Blocks(g, n, route, g.edges[i]) && g.edges[i].to == x
  }

  ghost predicate Crosses(bs: seq<Body>, id: string) {
    exists i :: 0 <= i < |bs| && bs[i].EdgeTraversed? && bs[i].edge == id
  }

  ghost predicate CancelledRow(s: RunState, x: string) { x in s.nodes && Cancelling(s.nodes[x].status) }

  /** t traverses the edges and skips the nodes that the events name. */
  ghost predicate Effect(s: RunState, t: RunState, bs: seq<Body>) {
    && (forall id :: id in t.traversed <==> id in s.traversed || Crosses(bs, id))
    && (forall x :: Has(t, x, Skipped) <==> Has(s, x, Skipped) || (NodeSkipped(x) in bs && !CancelledRow(s, x)))
    && (forall x :: CancelledRow(t, x) <==> CancelledRow(s, x))
  }

  lemma {:induction false} QuietEffect(g: Graph, s: RunState, n: string, bs: seq<Body>, at: int)
    requires AllQuiet(g, n, bs)
    ensures Effect(s, LogAll(s, bs, at), bs)
    decreases |bs|
  {
    hide Quiet, Log;
    if |bs| > 0 {
      var t, rest := Log(s, bs[0], at), bs[1..];
      assert bs == [bs[0]] + rest;
      OneQuietEffect(g, s, n, bs[0], at);
      QuietEffect(g, t, n, rest, at);
      forall id
        ensures Crosses(bs, id) <==> (bs[0].EdgeTraversed? && bs[0].edge == id) || Crosses(rest, id)
      {
        CrossesHead(bs, id);
      }
    }
  }

  lemma CrossesHead(bs: seq<Body>, id: string)
    requires |bs| > 0
    ensures Crosses(bs, id) <==> (bs[0].EdgeTraversed? && bs[0].edge == id) || Crosses(bs[1..], id)
  {
    if Crosses(bs[1..], id) {
      var i :| 0 <= i < |bs[1..]| && bs[1..][i].EdgeTraversed? && bs[1..][i].edge == id;
      assert bs[i + 1] == bs[1..][i];
    }
    if Crosses(bs, id) {
      var i :| 0 <= i < |bs| && bs[i].EdgeTraversed? && bs[i].edge == id;
      assert i > 0 ==> bs[1..][i - 1] == bs[i];
    }
  }

  lemma OneQuietEffect(g: Graph, s: RunState, n: string, b: Body, at: int)
    requires Quiet(g, n, b)
    ensures var t := Log(s, b, at);
            && (forall id :: id in t.traversed <==> id in s.traversed || (b.EdgeTraversed? && b.edge == id))
            && (forall x :: Has(t, x, Skipped) <==> Has(s, x, Skipped) || (b == NodeSkipped(x) && !CancelledRow(s, x)))
            && (forall x :: CancelledRow(t, x) <==> CancelledRow(s, x))
  {
    if b.DecisionRecorded? { EnsureLinksKeeps(g, Ensure(s.nodes, b.node), b.links); }
  }

  lemma {:induction false} TraversalsAre(es: seq<EdgeDef>, n: string, route: Option<string>, id: string)
    ensures Crosses(Traversals(es, n, route), id) <==>
            exists i :: 0 <= i < |es| && es[i].id == id && Taken(es[i], n, route)
    ensures forall x :: NodeSkipped(x) !in Traversals(es, n, route)
  {
    if |es| > 0 {
      var init, e := es[..|es| - 1], es[|es| - 1];
      TraversalsAre(init, n, route, id);
      var before, all := Traversals(init, n, route), Traversals(es, n, route);
      assert before <= all;
      if Taken(e, n, route) {
        assert all[|before|].EdgeTraversed? && all[|before|].edge == e.id;
      }
      assert forall i :: 0 <= i < |before| ==> all[i] == before[i];
      assert forall i :: 0 <= i < |init| ==> es[i] == init[i];
    }
  }

  lemma {:induction false} BlockedAre(g: Graph, es: seq<EdgeDef>, n: string, route: Option<string>, x: string)
    ensures x in Blocked(g, es, n, route) <==> exists i :: 0 <= i < |es| && Blocks(g, n, route, es[i]) && es[i].to == x
  {
    hide Blocks;
    if |es| > 0 {
      var init := es[..|es| - 1];
      BlockedAre(g, init, n, route, x);
      assert forall i :: 0 <= i < |init| ==> es[i] == init[i];
    }
  }

  lemma {:induction false} SkipsAre(nodes: map<string, NodeRow>, xs: seq<string>, x: string)
    ensures NodeSkipped(x) in Skips(nodes, xs) <==> x in xs && x !in nodes
    ensures !Crosses(Skips(nodes, xs), x)
  {
    if |xs| > 0 {
      var init := xs[..|xs| - 1];
      SkipsAre(nodes, init, x);
      assert xs == init + [xs[|xs| - 1]];
      var before, all := Skips(nodes, init), Skips(nodes, xs);
      assert forall i :: 0 <= i < |before| ==> all[i] == before[i];
    }
  }

  lemma DecisionsAreIdle(bs: seq<Body>, x: string)
    requires OnlyDecisions(bs)
    ensures !Crosses(bs, x) && NodeSkipped(x) !in bs
  {
    assert forall i :: 0 <= i < |bs| ==> bs[i] in bs;
  }

  /** What routing out of n makes of a state. */
  ghost predicate RoutesExactly(g: Graph, s: RunState, t: RunState, n: string, route: Option<string>) {
    && (forall i {:trigger g.edges[i]} :: 0 <= i < |g.edges| ==>
          (g.edges[i].id in t.traversed <==> g.edges[i].id in s.traversed || Taken(g.edges[i], n, route)))
    && (forall x :: Has(t, x, Skipped) <==> Has(s, x, Skipped) || (x !in s.nodes && IsBlocked(g, n, route, x)))
    && (forall x :: x in s.nodes ==> x in t.nodes && t.nodes[x] == s.nodes[x])
  }

  lemma TraversedExactly(g: Graph, s: RunState, t: RunState, n: string, route: Option<string>)
    requires ValidGraph(g)
    requires forall id :: id in t.traversed <==> id in s.traversed || Crosses(Traversals(g.edges, n, route), id)
    ensures forall i {:trigger g.edges[i]} :: 0 <= i < |g.edges| ==>
              (g.edges[i].id in t.traversed <==> g.edges[i].id in s.traversed || Taken(g.edges[i], n, route))
  {
    forall i | 0 <= i < |g.edges|
      ensures g.edges[i].id in t.traversed <==> g.edges[i].id in s.traversed || Taken(g.edges[i], n, route)
    {
      TraversalsAre(g.edges, n, route, g.edges[i].id);
      if Crosses(Traversals(g.edges, n, route), g.edges[i].id) {
        var j :| 0 <= j < |g.edges| && g.edges[j].id == g.edges[i].id && Taken(g.edges[j], n, route);
        assert i == j;
      }
    }
  }

  /** Events that only record decisions traverse and skip nothing. */
  lemma DecisionsChangeNothing(g: Graph, s: RunState, n: string, bs: seq<Body>, at: int)
    requires AllQuiet(g, n, bs) && OnlyDecisions(bs)
    ensures var t := LogAll(s, bs, at);
            t.traversed == s.traversed && forall x :: Has(t, x, Skipped) <==> Has(s, x, Skipped)
  {
    hide AllQuiet, OnlyDecisions, LogAll, Crosses;
    QuietEffect(g, s, n, bs, at);
    forall x
      ensures !Crosses(bs, x) && NodeSkipped(x) !in bs
    {
      DecisionsAreIdle(bs, x);
    }
  }

  lemma TraversalsChange(g: Graph, s: RunState, n: string, route: Option<string>, at: int)
    requires ValidGraph(g)
    ensures var t := LogAll(s, Traversals(g.edges, n, route), at);
            && t.nodes == s.nodes
            && forall i {:trigger g.edges[i]} :: 0 <= i < |g.edges| ==>
                 (g.edges[i].id in t.traversed <==> g.edges[i].id in s.traversed || Taken(g.edges[i], n, route))
  {
    hide ValidGraph, AllQuiet, LogAll, Crosses;
    TraversalsAreQuiet(g, g.edges, n, route);
    QuietEffect(g, s, n, Traversals(g.edges, n, route), at);
    TraversedExactly(g, s, LogAll(s, Traversals(g.edges, n, route), at), n, route);
    TraversalsKeepRows(g.edges, s, n, route, at);
  }

  lemma SkipsChange(g: Graph, s: RunState, n: string, route: Option<string>, at: int)
    requires ValidGraph(g)
    ensures var t := LogAll(s, Skips(s.nodes, Blocked(g, g.edges, n, route)), at);
            && t.traversed == s.traversed
            && forall x :: Has(t, x, Skipped) <==> Has(s, x, Skipped) || (x !in s.nodes && IsBlocked(g, n, route, x))
  {
    hide ValidGraph, AllQuiet, LogAll, Crosses, Blocks;
    var blocked := Blocked(g, g.edges, n, route);
    BlockedAreTargets(g, g.edges, n, route);
    SkipsAreQuiet(g, s.nodes, n, blocked);
    QuietEffect(g, s, n, Skips(s.nodes, blocked), at);
    forall x
      ensures !Crosses(Skips(s.nodes, blocked), x)
      ensures NodeSkipped(x) in Skips(s.nodes, blocked) <==> IsBlocked(g, n, route, x) && x !in s.nodes
    {
      SkipsAre(s.nodes, blocked, x);
      BlockedAre(g, g.edges, n, route, x);
    }
  }

  /** Routing out of n traverses exactly its dependencies and the routes selected, skips exactly the
      blocked targets that have no row yet, and changes no row that exists. */
  lemma RoutingIsExact(g: Graph, s: RunState, n: string, route: Option<string>, at: int)
    requires ValidGraph(g) && n in g.defs
    ensures RoutesExactly(g, s, Route(g, s, n, route, at), n, route)
  {
    hide ValidGraph, AllQuiet, LogAll, Summarize, IsBlocked, Taken;
    var t := LogAll(s, Traversals(g.edges, n, route), at);
    TraversalsChange(g, s, n, route, at);
    SkipsChange(g, t, n, route, at);
    var u := LogAll(t, Skips(t.nodes, Blocked(g, g.edges, n, route)), at);
    DecisionsAreQuiet(g, n, route);
    DecisionsChangeNothing(g, u, n, Decisions(g, n, route), at);
    var v := LogAll(u, Decisions(g, n, route), at);
    EligibilityIsQuiet(g, v, g.edges, n);
    DecisionsChangeNothing(g, v, n, EligibilityDecisions(g, v, g.edges, n), at);
    RouteRoutes(g, s, n, route, at);
  }

  /** Traversals leave the node rows alone. */
  lemma {:induction false} TraversalsKeepRows(es: seq<EdgeDef>, s: RunState, n: string, route: Option<string>, at: int)
    ensures LogAll(s, Traversals(es, n, route), at).nodes == s.nodes
  {
    OnlyTraversals(es, n, route);
    CrossingsKeepRows(s, Traversals(es, n, route), at);
  }

  lemma {:induction false} OnlyTraversals(es: seq<EdgeDef>, n: string, route: Option<string>)
    ensures forall b :: b in Traversals(es, n, route) ==> b.EdgeTraversed?
  {
    if |es| > 0 { OnlyTraversals(es[..|es| - 1], n, route); }
  }

  lemma {:induction false} CrossingsKeepRows(s: RunState, bs: seq<Body>, at: int)
    requires forall b :: b in bs ==> b.EdgeTraversed?
    ensures LogAll(s, bs, at).nodes == s.nodes
    decreases |bs|
  {
    if |bs| > 0 {
      assert bs[0] in bs;
      CrossingsKeepRows(Log(s, bs[0], at), bs[1..], at);
    }
  }

  // ---- the rows that routing makes ----

  /** Every node that these events name is in the set. */
  ghost predicate Names(bs: seq<Body>, xs: set<string>) {
    forall b :: b in bs ==>
      || b.EdgeTraversed?
      || (b.NodeSkipped? && b.node in xs)
      || (b.DecisionRecorded? && b.node in xs && forall i :: 0 <= i < |b.links| ==> b.links[i].target in xs)
  }

  lemma {:induction false} EnsureLinksWithin(nodes: map<string, NodeRow>, links: seq<Link>, xs: set<string>)
    requires forall i :: 0 <= i < |links| ==> links[i].target in xs
    ensures EnsureLinks(nodes, links).Keys <= nodes.Keys + xs
    decreases |links|
  {
    if |links| > 0 { EnsureLinksWithin(Ensure(nodes, links[0].target), links[1..], xs); }
  }

  lemma {:induction false} LogAllWithin(s: RunState, bs: seq<Body>, at: int, xs: set<string>)
    requires Names(bs, xs)
    ensures LogAll(s, bs, at).nodes.Keys <= s.nodes.Keys + xs
    decreases |bs|
  {
    if |bs| > 0 {
      var b := bs[0];
      assert b in bs;
      if b.DecisionRecorded? { EnsureLinksWithin(Ensure(s.nodes, b.node), b.links, xs); }
      LogAllWithin(Log(s, b, at), bs[1..], at, xs);
    }
  }

  /** The node itself, its dependents, the targets of its routes that were selected, and those it blocks. */
  function Touched(g: Graph, n: string, route: Option<string>): set<string> {
    {n} + (set i | 0 <= i < |g.edges| && Taken(g.edges[i], n, route) :: g.edges[i].to) +
    (set i | 0 <= i < |g.edges| && Blocks(g, n, route, g.edges[i]) :: g.edges[i].to)
  }

  lemma BlockedAreTouched(g: Graph, n: string, route: Option<string>)
    ensures forall x :: x in Blocked(g, g.edges, n, route) ==> x in Touched(g, n, route)
  {
    hide Blocks;
    forall x | x in Blocked(g, g.edges, n, route)
      ensures x in Touched(g, n, route)
    {
      BlockedAre(g, g.edges, n, route, x);
    }
  }

  lemma {:induction false} SkipsName(nodes: map<string, NodeRow>, xs: seq<string>, all: set<string>)
    requires forall x :: x in xs ==> x in all
    ensures Names(Skips(nodes, xs), all)
  {
    if |xs| > 0 { SkipsName(nodes, xs[..|xs| - 1], all); }
  }

  lemma {:induction false} RoutingNames(g: Graph, es: seq<EdgeDef>, n: string, route: Option<string>,
      blocked: seq<string>)
    requires (forall e :: e in es ==> e in g.edges) && forall x :: x in blocked ==> x in Touched(g, n, route)
    ensures Names(RoutingDecisions(es, n, route, blocked), Touched(g, n, route))
  {
    hide Blocks;
    if |es| > 0 {
      var e := es[|es| - 1];
      RoutingNames(g, es[..|es| - 1], n, route, blocked);
      assert e in g.edges;
      var i :| 0 <= i < |g.edges| && g.edges[i] == e;
      if e.from == n && Selects(e, route) { assert Taken(g.edges[i], n, route); }
      assert forall k :: 0 <= k < |blocked| ==> blocked[k] in blocked;
    }
  }

  lemma {:induction false} LinksToOne(es: seq<EdgeDef>, to: string)
    ensures forall i :: 0 <= i < |DependencyLinks(es, to)| ==> DependencyLinks(es, to)[i].target == to
  {
    if |es| > 0 { LinksToOne(es[..|es| - 1], to); }
  }

  lemma {:induction false} EligibilityNames(g: Graph, s: RunState, es: seq<EdgeDef>, n: string, route: Option<string>)
    requires forall e :: e in es ==> e in g.edges
    ensures Names(EligibilityDecisions(g, s, es, n), Touched(g, n, route))
  {
    hide Blocks, HasDecision, DependenciesDone, SeenTarget;
    if |es| > 0 {
      var e := es[|es| - 1];
      EligibilityNames(g, s, es[..|es| - 1], n, route);
      assert e in g.edges;
      var i :| 0 <= i < |g.edges| && g.edges[i] == e;
      if e.from == n && IsDependency(e.typ) {
        assert Taken(g.edges[i], n, route);
        LinksToOne(g.edges, e.to);
      }
    }
  }

  /** Routing out of n makes rows only for its dependents, the selected targets and the blocked ones. */
  lemma RouteCreates(g: Graph, s: RunState, n: string, route: Option<string>, at: int)
    ensures Route(g, s, n, route, at).nodes.Keys <= s.nodes.Keys + Touched(g, n, route)
  {
    hide LogAll, Blocks, Touched, Names;
    var blocked, all := Blocked(g, g.edges, n, route), Touched(g, n, route);
    BlockedAreTouched(g, n, route);
    var t := LogAll(s, Traversals(g.edges, n, route), at);
    TraversalsKeepRows(g.edges, s, n, route, at);
    SkipsName(t.nodes, blocked, all);
    LogAllWithin(t, Skips(t.nodes, blocked), at, all);
    var u := LogAll(t, Skips(t.nodes, blocked), at);
    DecisionsName(g, n, route);
    LogAllWithin(u, Decisions(g, n, route), at, all);
    var v := LogAll(u, Decisions(g, n, route), at);
    EligibilityNames(g, v, g.edges, n, route);
    LogAllWithin(v, EligibilityDecisions(g, v, g.edges, n), at, all);
  }

  lemma DecisionsName(g: Graph, n: string, route: Option<string>)
    ensures Names(Decisions(g, n, route), Touched(g, n, route))
  {
    hide Blocks;
    var blocked := Blocked(g, g.edges, n, route);
    BlockedAreTouched(g, n, route);
    RoutingNames(g, g.edges, n, route, blocked);
    assert forall k :: 0 <= k < |blocked| ==> blocked[k] in blocked;
  }

  // ---- eligibility ----

  /** Every dependent whose dependencies are done gets one decision, unless one was recorded before. */
  lemma {:induction false} EligibilityIsExact(g: Graph, s: RunState, es: seq<EdgeDef>, n: string, x: string)
    ensures var b := DecisionRecorded(x, "", DependencyLinks(g.edges, x));
            b in EligibilityDecisions(g, s, es, n) <==>
            SeenTarget(es, n, x) && DependenciesDone(g, s, x) && !HasDecision(s.acts, x)
    ensures forall i, j :: 0 <= i < j < |EligibilityDecisions(g, s, es, n)| ==>
              EligibilityDecisions(g, s, es, n)[i] != EligibilityDecisions(g, s, es, n)[j]
    ensures forall b :: b in EligibilityDecisions(g, s, es, n) ==>
              b.DecisionRecorded? && SeenTarget(es, n, b.node) &&
              b == DecisionRecorded(b.node, "", DependencyLinks(g.edges, b.node))
  {
    hide DependenciesDone, HasDecision;
    if |es| > 0 {
      var init, e := es[..|es| - 1], es[|es| - 1];
      EligibilityIsExact(g, s, init, n, x);
      forall y
        ensures SeenTarget(es, n, y) <==> SeenTarget(init, n, y) || (e.from == n && e.to == y && IsDependency(e.typ))
      {
        assert forall i :: 0 <= i < |init| ==> es[i] == init[i];
      }
    }
  }

  ghost predicate SilentAbout(bs: seq<Body>, x: string) {
    forall b :: b in bs ==> !(b.DecisionRecorded? && b.node == x)
  }

  lemma {:induction false} SilenceKeeps(s: RunState, bs: seq<Body>, at: int, x: string)
    requires SilentAbout(bs, x) && !HasDecision(s.acts, x)
    ensures !HasDecision(LogAll(s, bs, at).acts, x)
    decreases |bs|
  {
    hide Touch;
    if |bs| > 0 {
      assert bs[0] in bs;
      SilenceKeeps(Log(s, bs[0], at), bs[1..], at, x);
    }
  }

  /** Recording a decision about a node gives it a row. */
  lemma {:induction false} DecidedHasRow(s: RunState, bs: seq<Body>, at: int, x: string)
    requires (exists b :: b in bs && b.DecisionRecorded? && b.node == x) || x in s.nodes
    ensures x in LogAll(s, bs, at).nodes
    decreases |bs|
  {
    if |bs| > 0 {
      if bs[0].DecisionRecorded? { EnsureLinksSteady(Ensure(s.nodes, bs[0].node), bs[0].links); }
      assert forall b :: b in bs ==> b == bs[0] || b in bs[1..];
      DecidedHasRow(Log(s, bs[0], at), bs[1..], at, x);
    }
  }

  lemma {:induction false} RoutingDecidesAboutSource(es: seq<EdgeDef>, n: string, route: Option<string>,
      blocked: seq<string>)
    ensures forall b :: b in RoutingDecisions(es, n, route, blocked) ==> b.DecisionRecorded? && b.node == n
  {
    if |es| > 0 { RoutingDecidesAboutSource(es[..|es| - 1], n, route, blocked); }
  }

  /** Before eligibility is decided, routing has recorded decisions about n only. */
  lemma RoutingIsSilent(g: Graph, s: RunState, n: string, route: Option<string>, at: int, x: string)
    requires ValidGraph(g) && n in g.defs && x != n && !HasDecision(s.acts, x)
    ensures var t := LogAll(s, Traversals(g.edges, n, route), at);
            var u := LogAll(t, Skips(t.nodes, Blocked(g, g.edges, n, route)), at);
            !HasDecision(LogAll(u, Decisions(g, n, route), at).acts, x)
  {
    hide ValidGraph, LogAll, HasDecision, Blocks;
    var t, blocked := LogAll(s, Traversals(g.edges, n, route), at), Blocked(g, g.edges, n, route);
    OnlyTraversals(g.edges, n, route);
    SilenceKeeps(s, Traversals(g.edges, n, route), at, x);
    BlockedAreTargets(g, g.edges, n, route);
    SkipsAreQuiet(g, t.nodes, n, blocked);
    SilenceKeeps(t, Skips(t.nodes, blocked), at, x);
    RoutingDecidesAboutSource(g.edges, n, route, blocked);
    SilenceKeeps(LogAll(t, Skips(t.nodes, blocked), at), Decisions(g, n, route), at, x);
  }

  lemma DoneDependenciesStay(g: Graph, s: RunState, t: RunState, n: string, x: string)
    requires Routed(g, s, t, n) && DependenciesDone(g, s, x)
    ensures DependenciesDone(g, t, x)
  {
    hide Summarize;
  }

  /** A dependent of n whose dependencies are all done has a row once n has been routed. */
  lemma DependentGetsRow(g: Graph, s: RunState, n: string, route: Option<string>, at: int, x: string)
    requires ValidGraph(g) && n in g.defs && x != n && SeenTarget(g.edges, n, x) && DependenciesDone(g, s, x)
    requires !HasDecision(s.acts, x)
    ensures x in Route(g, s, n, route, at).nodes
  {
    hide ValidGraph, AllQuiet, LogAll, Routed, Blocks, SeenTarget, DependenciesDone, HasDecision;
    var es, blocked := g.edges, Blocked(g, g.edges, n, route);
    var t := LogAll(s, Traversals(es, n, route), at);
    TraversalsAreQuiet(g, es, n, route);
    QuietLogAllRoutes(g, s, n, Traversals(es, n, route), at);
    DoneDependenciesStay(g, s, t, n, x);
    BlockedAreTargets(g, es, n, route);
    SkipsAreQuiet(g, t.nodes, n, blocked);
    var u := LogAll(t, Skips(t.nodes, blocked), at);
    QuietLogAllRoutes(g, t, n, Skips(t.nodes, blocked), at);
    DoneDependenciesStay(g, t, u, n, x);
    DecisionsAreQuiet(g, n, route);
    var v := LogAll(u, Decisions(g, n, route), at);
    QuietLogAllRoutes(g, u, n, Decisions(g, n, route), at);
    DoneDependenciesStay(g, u, v, n, x);
    RoutingIsSilent(g, s, n, route, at, x);
    EligibilityIsExact(g, v, es, n, x);
    DecidedHasRow(v, EligibilityDecisions(g, v, es, n), at, x);
  }

  // ---- which steps finish a node ----

  /** Nothing is newly succeeded, skipped or traversed. */
  ghost predicate Steady(s: RunState, t: RunState) {
    && t.traversed == s.traversed && s.nodes.Keys <= t.nodes.Keys
    && forall x :: (Has(t, x, Succeeded) ==> Has(s, x, Succeeded)) && (Has(t, x, Skipped) ==> Has(s, x, Skipped))
  }

  /** The node n may finish, or is finished in vain in a cancelled run. */
  ghost predicate Finishable(g: Graph, s: RunState, n: string) {
    && n in g.defs && n in s.nodes
    && (s.nodes[n].status.Running? || s.nodes[n].status.Reconciling? || s.nodes[n].status.Waiting? ||
        (s.nodes[n].status.Cancelled? && Frozen(g, s)))
  }

  /** t is s after n has finished and been routed. */
  ghost predicate Finishes(g: Graph, s: RunState, t: RunState, n: string, route: Option<string>) {
    && Finishable(g, s, n) && s.nodes.Keys <= t.nodes.Keys
    && (forall i {:trigger g.edges[i]} :: 0 <= i < |g.edges| ==>
          (g.edges[i].id in t.traversed <==> g.edges[i].id in s.traversed || Taken(g.edges[i], n, route)))
    && (forall x :: Has(t, x, Skipped) ==> Has(s, x, Skipped) || (x !in s.nodes && IsBlocked(g, n, route, x)))
    && (forall x :: x !in s.nodes && IsBlocked(g, n, route, x) ==> Has(t, x, Skipped))
    && (forall x :: Has(t, x, Succeeded) ==> Has(s, x, Succeeded) || (x == n && !s.nodes[n].status.Cancelled?))
    && (!s.nodes[n].status.Cancelled? ==> Has(t, n, Succeeded))
  }

  /** A step is steady or finishes one node. */
  ghost predicate Flows(g: Graph, s: RunState, t: RunState) {
    Steady(s, t) || exists n, route :: Finishes(g, s, t, n, route)
  }

  predicate Dull(b: Body) { !b.EdgeTraversed? && !b.NodeSkipped? && !(b.NodeEnded? && b.outcome.Finished?) }

  lemma TouchSteady(nodes: map<string, NodeRow>, b: Body, at: int)
    requires Dull(b)
    ensures nodes.Keys <= Touch(nodes, b, at).Keys
    ensures forall x :: x in Touch(nodes, b, at) ==>
              var st := Touch(nodes, b, at)[x].status;
              (st.Succeeded? || st.Skipped?) ==> x in nodes && nodes[x].status == st
  {
    if b.DecisionRecorded? { EnsureLinksSteady(Ensure(nodes, b.node), b.links); }
  }

  lemma LogSteady(s: RunState, b: Body, at: int)
    requires Dull(b)
    ensures Steady(s, Log(s, b, at))
  {
    hide Touch;
    TouchSteady(s.nodes, b, at);
  }

  lemma {:induction false} EnsureLinksSteady(nodes: map<string, NodeRow>, links: seq<Link>)
    ensures nodes.Keys <= EnsureLinks(nodes, links).Keys
    ensures forall x :: x in EnsureLinks(nodes, links) ==>
                        EnsureLinks(nodes, links)[x] == if x in nodes then nodes[x] else PENDING
    decreases |links|
  {
    if |links| > 0 { EnsureLinksSteady(Ensure(nodes, links[0].target), links[1..]); }
  }

  lemma SteadyTrans(s: RunState, t: RunState, u: RunState)
    requires Steady(s, t) && Steady(t, u)
    ensures Steady(s, u)
  {
  }

  lemma SteadyAside(s: RunState, t: RunState)
    requires t.nodes == s.nodes && t.traversed == s.traversed
    ensures Steady(s, t)
  {
  }

  lemma {:induction false} LogAllSteady(s: RunState, bs: seq<Body>, at: int)
    requires forall b :: b in bs ==> Dull(b)
    ensures Steady(s, LogAll(s, bs, at))
    decreases |bs|
  {
    hide Steady, Log;
    if |bs| == 0 {
      SteadyAside(s, s);
    } else {
      assert bs[0] in bs;
      LogSteady(s, bs[0], at);
      LogAllSteady(Log(s, bs[0], at), bs[1..], at);
      SteadyTrans(s, Log(s, bs[0], at), LogAll(s, bs, at));
    }
  }

  /** The rows and edges of two states agree. */
  predicate Alike(s: RunState, r: RunState) { r.nodes == s.nodes && r.traversed == s.traversed }

  /** A dull event in a state that is like s. */
  lemma AlikeLogSteady(s: RunState, r: RunState, b: Body, at: int)
    requires Alike(s, r) && Dull(b)
    ensures Steady(s, Log(r, b, at))
  {
    SteadyAside(s, r);
    LogSteady(r, b, at);
    hide Steady;
    SteadyTrans(s, r, Log(r, b, at));
  }

  lemma FinishFlows(g: Graph, s: RunState, r: RunState, n: string, a: int, route: Option<string>, at: int)
    requires ValidGraph(g) && Alike(s, r) && Finishable(g, s, n)
    ensures Finishes(g, s, Finish(g, r, n, a, route, at), n, route)
  {
    var u := Log(r, Ended(n, a, Finished, ""), at);
    EndedRows(g, s, r, n, a, at);
    hide ValidGraph, Log, Route, Finishable, IsBlocked, Taken;
    RoutingIsExact(g, u, n, route, at);
    RouteSucceeds(g, u, n, route, at);
  }

  /** Ending n as finished changes its row only. */
  lemma EndedRows(g: Graph, s: RunState, r: RunState, n: string, a: int, at: int)
    requires Alike(s, r) && Finishable(g, s, n)
    ensures var u := Log(r, Ended(n, a, Finished, ""), at);
            && u.traversed == s.traversed && n in g.defs
            && (forall x :: x in u.nodes <==> x in s.nodes)
            && (forall x :: Has(u, x, Skipped) <==> Has(s, x, Skipped))
            && (forall x :: Has(u, x, Succeeded) ==> Has(s, x, Succeeded) || (x == n && !s.nodes[n].status.Cancelled?))
            && (!s.nodes[n].status.Cancelled? ==> Has(u, n, Succeeded))
  {
  }

  lemma RouteSucceeds(g: Graph, s: RunState, n: string, route: Option<string>, at: int)
    requires ValidGraph(g) && n in g.defs
    ensures forall x :: Has(Route(g, s, n, route, at), x, Succeeded) <==> Has(s, x, Succeeded)
  {
    hide ValidGraph, Route, Summarize;
    RouteRoutes(g, s, n, route, at);
  }

  lemma ResolveFlows(g: Graph, s: RunState, r: RunState, n: string, route: Option<string>, at: int)
    requires ValidGraph(g) && Alike(s, r) && Finishable(g, s, n)
    ensures Flows(g, s, Resolve(g, r, n, route, at))
  {
    hide ValidGraph, Finish, Finishes, Steady, Finishable, Log;
    var a := RowOf(r.nodes, n).attemptCount;
    if route.Some? {
      FinishFlows(g, s, r, n, a, route, at);
    } else {
      AlikeLogSteady(s, r, Ended(n, a, Failure, ""), at);
    }
  }

  lemma CommitFlows(g: Graph, s: RunState, r: RunState, n: string, a: int, route: Option<string>, at: int)
    requires ValidGraph(g) && Alike(s, r) && n in g.defs
    ensures Flows(g, s, Commit(g, r, n, a, route, at))
  {
    hide ValidGraph, Finish, Finishes, Steady, Log, Frozen;
    SteadyAside(s, r);
    AlikeLogSteady(s, r, NodeCancelled(n, a), at);
    if Has(s, n, Running) || Has(s, n, Reconciling) { FinishFlows(g, s, r, n, a, route, at); }
  }

  lemma HeldIsFinishable(g: Graph, s: RunState, n: string)
    requires Held(g, s, n)
    ensures Finishable(g, s, n)
  {
  }

  lemma FlightStepFlows(g: Graph, s: RunState, step: Step, at: int)
    requires ValidGraph(g)
    requires step.PreFail? || step.FlightFails? || step.FlightRequeues? || step.FlightUncertain? ||
             step.FlightCancelled? || step.FlightDies? || step.FlightLost? || step.FlightSucceeds? || step.Crash?
    ensures Flows(g, s, Next(g, s, step, at))
  {
    hide Steady, Finishes, Log, ValidGraph, Commit;
    SteadyAside(s, s);
    match step
    case Crash => SteadyAside(s, s.(batch := map[], checked := false, scan := []));
    case PreFail(n, rejected) =>
      if IsListed(s, n) {
        AlikeLogSteady(s, Drop(s, n),
                       Ended(n, s.batch[n].attempt, Failure,
                             if rejected then OperationKey(g.run, n, s.batch[n].attempt) else ""), at);
      }
    case FlightFails(n) => hide Next; FlightFailsFlows(g, s, n, at);
    case FlightRequeues(n) =>
      SteadyAside(s, Drop(s, n));
      if IsRequeueing(s, n) { AlikeLogSteady(s, Drop(s, n), NodeRequeued(n, s.batch[n].attempt, false), at); }
    case FlightUncertain(n) =>
      if IsFlying(s, n) {
        AlikeLogSteady(s, Drop(s, n), Ended(n, s.batch[n].attempt, Unsure, ""), at);
      }
    case FlightCancelled(n) =>
      if IsFlying(s, n) {
        AlikeLogSteady(s, Drop(s, n), NodeCancelled(n, s.batch[n].attempt), at);
      }
    case FlightDies(n) =>
      if IsFlying(s, n) {
        AlikeLogSteady(s, Drop(s, n), Ended(n, s.batch[n].attempt, Failure, ""), at);
      }
    case FlightLost(n) => SteadyAside(s, Drop(s, n));
    case FlightSucceeds(n, route) =>
      if IsFlying(s, n) && n in g.defs {
        CommitFlows(g, s, Drop(s, n), n, s.batch[n].attempt, Some(if IsRouter(g, n) then "" else route), at);
      }
  }

  lemma FlightFailsFlows(g: Graph, s: RunState, n: string, at: int)
    ensures Steady(s, Next(g, s, FlightFails(n), at))
  {
    SteadyAside(s, s);
    if IsFlying(s, n) && IsTask(g, n) {
      var a := s.batch[n].attempt;
      AlikeLogSteady(s, Drop(s, n), Ended(n, a, Failure, ""), at);
      LogSteady(s, NodeAttemptFailed(n, a, ""), at);
    }
  }

  lemma HoldStepFlows(g: Graph, s: RunState, n: string, w: Option<nat>, at: int)
    ensures Steady(s, DoAskApproval(g, Drop(s, n), n, at)) && Steady(s, DoGateWaits(g, Drop(s, n), n, w, at))
  {
    hide Steady, Log, LogAll;
    var r := Drop(s, n);
    SteadyAside(s, r);
    AlikeLogSteady(s, r, NodeWaiting(n), at);
    var ask := [ApprovalRequested(n, "action", "scope", 0), NodeWaiting(n)];
    LogAllSteady(r, ask, at);
    SteadyTrans(s, r, LogAll(r, ask, at));
    if w.Some? {
      var bs := [WaitRequested(Some(Id(g.run, w.value)), n, "type", "key", "{}", 0), NodeWaiting(n)];
      LogAllSteady(r, bs, at);
      SteadyTrans(s, r, LogAll(r, bs, at));
    }
  }

  lemma {:induction false} CancelListsAreDull(g: Graph, s: RunState, order: seq<string>, k: nat)
    ensures forall b :: b in CancelRows(s, order) + CancelOthers(s, order) + CancelWaits(g, s, k) ==> Dull(b)
    decreases |order|, k
  {
    if |order| > 0 { CancelListsAreDull(g, s, order[..|order| - 1], k); }
    else if k > 0 { CancelListsAreDull(g, s, order, k - 1); }
  }

  lemma CancelFlows(g: Graph, s: RunState, at: int)
    ensures Steady(s, DoCancel(g, s, at))
  {
    hide Steady, LogAll, Log, WaitLimit;
    var bs := CancelRows(s, g.order) + CancelOthers(s, g.order) + CancelWaits(g, s, WaitLimit(s.waits));
    CancelListsAreDull(g, s, g.order, WaitLimit(s.waits));
    LogAllSteady(s, bs, at);
    LogSteady(LogAll(s, bs, at), RunEnded(RunCancelled, ""), at);
    SteadyAside(LogAll(s, bs, at), LogAll(s, bs, at));
    SteadyTrans(s, LogAll(s, bs, at), DoCancel(g, s, at));
  }

  lemma RecoverFlows(g: Graph, s: RunState, n: string, stop: bool, at: int)
    requires n in g.defs && n in s.nodes
    ensures Steady(s, DoRecover(g, s, n, stop, at))
  {
    hide Steady, Log;
    SteadyAside(s, s);
    LogSteady(s, NodeRequeued(n, 0, false), at);
    LogSteady(s, NodeReconciling(n), at);
    LogSteady(s, NodeWaiting(n), at);
    if n in s.latest {
      LogSteady(s, NodeCancelled(n, s.latest[n]), at);
      LogSteady(s, NodeRequeued(n, s.latest[n], true), at);
    }
  }

  lemma ReconcileFlows(g: Graph, s: RunState, n: string, stop: bool, answer: Answer, route: Option<string>, at: int)
    requires ValidGraph(g) && n in g.defs && n in s.nodes && n in s.latest
    ensures Flows(g, s, DoReconcile(g, s, n, stop, answer, route, at))
  {
    hide Steady, Finishes, Log, ValidGraph, Commit;
    var r, a := Record(s, n, answer), s.latest[n];
    SteadyAside(s, r);
    AlikeLogSteady(s, r, Ended(n, a, Failure, ""), at);
    AlikeLogSteady(s, r, NodeWaiting(n), at);
    AlikeLogSteady(s, r, NodeCancelled(n, a), at);
    AlikeLogSteady(s, r, NodeRequeued(n, a, false), at);
    CommitFlows(g, s, r, n, a, route, at);
  }

  lemma FlowsAside(g: Graph, s: RunState, t: RunState, u: RunState)
    requires Flows(g, s, t) && u == t.(scan := u.scan)
    ensures Flows(g, s, u)
  {
    if !Steady(s, t) {
      var n, route :| Finishes(g, s, t, n, route);
      assert Finishes(g, s, u, n, route);
    }
  }

  /** The steps of a recovery. */
  lemma RecoveryFlows(g: Graph, s: RunState, step: Step, at: int)
    requires ValidGraph(g) && Inv(g, s) && (step.BeginScan? || step.Recover? || step.Reconcile?)
    ensures Flows(g, s, Next(g, s, step, at))
  {
    hide Steady, Finishes, ValidGraph, DoRecover, DoReconcile, ScanAfter, ScanOf, NodeOk, WaitOk, ApprovalOk, EdgeOk;
    SteadyAside(s, s);
    match step
    case BeginScan(leased) => SteadyAside(s, s.(scan := ScanOf(s, leased, g.sweep)));
    case Recover =>
      if s.scan != [] && s.scan[0].node in g.defs && s.scan[0].node in s.nodes {
        var v := s.scan[0];
        var t := DoRecover(g, s, v.node, v.stop, at);
        RecoverFlows(g, s, v.node, v.stop, at);
        FlowsAside(g, s, t, t.(scan := ScanAfter(g, s)));
      }
    case Reconcile(answer, route) =>
      if s.scan != [] && s.scan[0].node in s.nodes && s.scan[0].node in s.latest {
        var v := s.scan[0];
        var t := DoReconcile(g, s, v.node, v.stop, answer, route, at);
        ReconcileFlows(g, s, v.node, v.stop, answer, route, at);
        FlowsAside(g, s, t, t.(scan := s.scan[1..]));
      }
  }

  lemma ReleaseFlows(g: Graph, s: RunState, step: Step, at: int)
    requires ValidGraph(g) && Inv(g, s)
    requires (step.Decide? || step.ExpireApproval? || step.CompleteWait? || step.ExpireWait?)
    ensures Flows(g, s, Next(g, s, step, at))
  {
    hide Inv, Steady, Finishes, Finishable, ValidGraph, Resolve, RouteWith, Touch, LogAll, Held;
    SteadyAside(s, s);
    match step
    case Decide(a, granted) =>
      if a in s.approvals && s.approvals[a].verdict.Open? {
        ApprovalView(g, s, a);
        var n := s.approvals[a].node;
        HeldIsFinishable(g, s, n);
        var r := Log(s, ApprovalDecided(granted, Id(g.run, a), "actor", "key"), at);
        SameRows(s, ApprovalDecided(granted, Id(g.run, a), "actor", "key"), at);
        ResolveFlows(g, s, r, n, if granted then Some("success") else RouteWith(g.edges, n, "denied", "failure"), at);
      }
    case ExpireApproval(a) =>
      if a in s.approvals && s.approvals[a].verdict.Open? {
        ApprovalView(g, s, a);
        var n := s.approvals[a].node;
        HeldIsFinishable(g, s, n);
        SameRows(s, Unprojected("approval_expired"), at);
        var r := Log(s, Unprojected("approval_expired"),
                     at).(approvals := s.approvals[a := s.approvals[a].(verdict := Expired)]);
        ResolveFlows(g, s, r, n, RouteWith(g.edges, n, "expired", "timeout"), at);
      }
    case CompleteWait(w, route) =>
      if w in s.waits && s.waits[w].pending {
        WaitView(g, s, w);
        var n, b1, b2 := s.waits[w].node, Unprojected("external_event_received"),
                         WaitCompleted(Some(Id(g.run, w)), None, "");
        HeldIsFinishable(g, s, n);
        LogTwo(s, b1, b2, at);
        SameRows(s, b1, at);
        SameRows(Log(s, b1, at), b2, at);
        ResolveFlows(g, s, LogAll(s, [b1, b2], at), n, Some(route), at);
      }
    case ExpireWait(w) =>
      if w in s.waits && s.waits[w].pending {
        WaitView(g, s, w);
        var n, b := s.waits[w].node, WaitExpired(Some(Id(g.run, w)));
        HeldIsFinishable(g, s, n);
        SameRows(s, b, at);
        ResolveFlows(g, s, Log(s, b, at), n, RouteWith(g.edges, n, "timeout", "expired"), at);
      }
  }

  lemma SameRows(s: RunState, b: Body, at: int)
    requires b.ApprovalDecided? || b.Unprojected? || b.WaitCompleted? || b.WaitExpired?
    ensures Alike(s, Log(s, b, at))
  {
  }

  lemma ClaimFlows(g: Graph, s: RunState, n: string, at: int)
    ensures Steady(s, Next(g, s, Claim(n), at))
  {
  }

  /** Every step leaves what has succeeded, been skipped or been traversed as it is, or finishes one node
      that was running, reconciling or waiting, and routes it. */
  lemma StepFlows(g: Graph, s: RunState, step: Step, at: int)
    requires ValidGraph(g) && Inv(g, s)
    ensures Flows(g, s, Next(g, s, step, at))
  {
    hide Inv, Steady, Finishes, Log, ValidGraph, DoCancel, EndOf, List;
    SteadyAside(s, s);
    match step
    case BeginStep => SteadyAside(s, s.(checked := true));
    case ListNodes =>
      SteadyAside(s, s.(checked := false));
      SteadyAside(s, s.(batch := List(g, s), rounds := s.rounds + 1, checked := false));
    case Claim(n) => hide Next; ClaimFlows(g, s, n, at);
    case AskApproval(n) => HoldStepFlows(g, s, n, None, at);
    case GateWaits(n, w) => HoldStepFlows(g, s, n, w, at);
    case CancelRun => CancelFlows(g, s, at);
    case AbandonRun => LogSteady(s, RunEnded(RunAbandoned, ""), at);
    case CompleteRun => if EndOf(g, s).Some? { LogSteady(s, RunEnded(EndOf(g, s).value, ""), at); }
    case BeginScan(_) => hide Next; RecoveryFlows(g, s, step, at);
    case Recover => hide Next; RecoveryFlows(g, s, step, at);
    case Reconcile(_, _) => hide Next; RecoveryFlows(g, s, step, at);
    case Decide(_, _) => hide Next; ReleaseFlows(g, s, step, at);
    case ExpireApproval(_) => hide Next; ReleaseFlows(g, s, step, at);
    case CompleteWait(_, _) => hide Next; ReleaseFlows(g, s, step, at);
    case ExpireWait(_) => hide Next; ReleaseFlows(g, s, step, at);
    case _ => hide Next; FlightStepFlows(g, s, step, at);
  }
}
