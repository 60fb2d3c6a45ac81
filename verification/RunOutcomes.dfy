/** Which way a node goes on when it ends: the edges it traverses, the nodes it skips, and when it fails instead. */
module RunOutcomes {
  import opened Events
  import opened OperationKeys
  import opened Options
  import opened RunEngine
  import opened RunSafety
  import RunSteps
  import opened RunRetries
  import opened RunRouting

  // ---- which way a node goes on ----

  /** The edge is a dependency, or a route whose condition is empty or the route taken; without a route no route is. */
  predicate GoesBy(e: EdgeDef, route: Option<string>) {
    e.typ.DependsOn? || e.typ.Produces? || e.typ.Consumes? ||
    (e.typ.RoutesTo? && route.Some? && (e.cond == "" || e.cond == route.value))
  }

  /** n routes to x, and nothing else does; none of these routes is taken. */
  ghost predicate PassedOver(g: Graph, n: string, route: Option<string>, x: string) {
    && (exists i :: 0 <= i < |g.edges| && g.edges[i].from == n && g.edges[i].to == x && g.edges[i].typ.RoutesTo?)
    && forall i {:trigger g.edges[i]} :: 0 <= i < |g.edges| && g.edges[i].to == x && g.edges[i].typ.RoutesTo? ==>
         g.edges[i].from == n && !GoesBy(g.edges[i], route)
  }

  /** n has finished by the route: it traverses its edges that go by it, skips the targets passed over that have no
      row, and nothing else. */
  ghost predicate Went(g: Graph, s: RunState, t: RunState, n: string, route: Option<string>) {
    && (forall i {:trigger g.edges[i]} :: 0 <= i < |g.edges| ==>
          (g.edges[i].id in t.traversed <==>
           g.edges[i].id in s.traversed || (g.edges[i].from == n && GoesBy(g.edges[i], route))))
    && (forall x :: x !in s.nodes ==> (Has(t, x, Skipped) <==> PassedOver(g, n, route, x)))
    && (forall x :: x in s.nodes && x != n ==> (Has(t, x, Skipped) ==> Has(s, x, Skipped)))
    && (!Has(s, n, Cancelled) ==> Has(t, n, Succeeded))
  }

  lemma PassedOverIsBlocked(g: Graph, n: string, route: Option<string>, x: string)
    ensures IsBlocked(g, n, route, x) <==> PassedOver(g, n, route, x)
  {
  }

  lemma FinishingGoes(g: Graph, s: RunState, t: RunState, n: string, route: Option<string>)
    requires Finishes(g, s, t, n, route)
    ensures Went(g, s, t, n, route)
  {
    hide IsBlocked, PassedOver;
    forall x
      ensures IsBlocked(g, n, route, x) <==> PassedOver(g, n, route, x)
    {
      PassedOverIsBlocked(g, n, route, x);
    }
  }

  // ---- releasing a node that waits ----

  /** The first route out of n, in the order of the edges, whose condition is one of two. */
  ghost predicate FirstRoute(g: Graph, n: string, one: string, other: string, i: nat) {
    && i < |g.edges| && RouteOf(g.edges[i], n, one, other)
    && forall j :: 0 <= j < i ==> !RouteOf(g.edges[j], n, one, other)
  }

  predicate RouteOf(e: EdgeDef, n: string, one: string, other: string) {
    e.from == n && e.typ.RoutesTo? && (e.cond == one || e.cond == other)
  }

  lemma {:induction false} RouteIsFirst(es: seq<EdgeDef>, n: string, one: string, other: string, i: nat)
    requires i <= |es| && forall j :: 0 <= j < i ==> !RouteOf(es[j], n, one, other)
    ensures i == |es| ==> RouteWith(es, n, one, other) == None
    ensures i < |es| && RouteOf(es[i], n, one, other) ==> RouteWith(es, n, one, other) == Some(es[i].cond)
    decreases |es|
  {
    if i > 0 {
      assert forall j :: 0 <= j < i - 1 ==> es[1..][j] == es[j + 1];
      assert i < |es| ==> es[1..][i - 1] == es[i];
      RouteIsFirst(es[1..], n, one, other, i - 1);
    }
  }

  /** n goes on by the first of its routes with one of two conditions; without one it fails and goes nowhere. */
  ghost predicate Resolved(g: Graph, s: RunState, t: RunState, n: string, one: string, other: string) {
    && (forall i: nat :: FirstRoute(g, n, one, other, i) ==> Went(g, s, t, n, Some(g.edges[i].cond)))
    && ((forall e :: e in g.edges ==> !RouteOf(e, n, one, other)) ==> Ran(s, t, n))
  }

  /** n has failed, and nothing else has moved. */
  ghost predicate Ran(s: RunState, t: RunState, n: string) {
    t.traversed == s.traversed && OthersStay(s, t, n) && (!Has(s, n, Cancelled) ==> Has(t, n, Failed))
  }

  lemma ResolveResolves(g: Graph, s: RunState, r: RunState, n: string, one: string, other: string, at: int)
    requires ValidGraph(g) && Alike(s, r) && Finishable(g, s, n)
    ensures Resolved(g, s, Resolve(g, r, n, RouteWith(g.edges, n, one, other), at), n, one, other)
  {
    hide ValidGraph, Went, Finish;
    var t := Resolve(g, r, n, RouteWith(g.edges, n, one, other), at);
    forall i: nat | FirstRoute(g, n, one, other, i)
      ensures Went(g, s, t, n, Some(g.edges[i].cond))
    {
      RouteIsFirst(g.edges, n, one, other, i);
      ReleaseGoes(g, s, r, n, Some(g.edges[i].cond), at);
    }
    if forall e :: e in g.edges ==> !RouteOf(e, n, one, other) {
      RouteIsFirst(g.edges, n, one, other, |g.edges|);
      EndsFailed(s, r, n, at);
    }
  }

  lemma ReleaseGoes(g: Graph, s: RunState, r: RunState, n: string, route: Option<string>, at: int)
    requires ValidGraph(g) && Alike(s, r) && Finishable(g, s, n) && route.Some?
    ensures Went(g, s, Resolve(g, r, n, route, at), n, route)
  {
    hide ValidGraph, Went, Finish, Finishes, Finishable;
    FinishFlows(g, s, r, n, RowOf(r.nodes, n).attemptCount, route, at);
    FinishingGoes(g, s, Resolve(g, r, n, route, at), n, route);
  }

  lemma EndsFailed(s: RunState, r: RunState, n: string, at: int)
    requires Alike(s, r) && n in s.nodes && !s.nodes[n].status.CancelRequested?
    ensures Ran(s, Log(r, Ended(n, RowOf(r.nodes, n).attemptCount, Failure, ""), at), n)
  {
  }

  /** A grant goes by the routes "success"; a denial by the first route "denied" or "failure", and without one the
      node fails. */
  lemma DecisionTakes(g: Graph, s: RunState, a: nat, granted: bool, at: int)
    requires ValidGraph(g) && Inv(g, s) && s.status.RunRunning? && a in s.approvals && s.approvals[a].verdict.Open?
    ensures var t, n := Next(g, s, Decide(a, granted), at), s.approvals[a].node;
            if granted then Went(g, s, t, n, Some("success")) else Resolved(g, s, t, n, "denied", "failure")
  {
    RunSteps.DecideIs(g, s, a, granted, at);
    hide Next, Inv, ValidGraph, Resolve, RouteWith, Went, Resolved, Log, Held;
    var n, b := s.approvals[a].node, ApprovalDecided(granted, Id(g.run, a), "actor", "key");
    ApprovalView(g, s, a);
    HeldIsFinishable(g, s, n);
    SameRows(s, b, at);
    if granted { ReleaseGoes(g, s, Log(s, b, at), n, Some("success"), at); }
    else { ResolveResolves(g, s, Log(s, b, at), n, "denied", "failure", at); }
  }

  /** An approval that lapses goes by the first route "expired" or "timeout". */
  lemma LapseTakes(g: Graph, s: RunState, a: nat, at: int)
    requires ValidGraph(g) && Inv(g, s) && s.status.RunRunning? && a in s.approvals && s.approvals[a].verdict.Open?
    ensures Resolved(g, s, Next(g, s, ExpireApproval(a), at), s.approvals[a].node, "expired", "timeout")
  {
    RunSteps.ExpireApprovalIs(g, s, a, at);
    hide Next, Inv, ValidGraph, Resolve, RouteWith, Resolved, Log, Held;
    var n, b := s.approvals[a].node, Unprojected("approval_expired");
    ApprovalView(g, s, a);
    HeldIsFinishable(g, s, n);
    SameRows(s, b, at);
    var r := Log(s, b, at).(approvals := s.approvals[a := s.approvals[a].(verdict := Expired)]);
    ResolveResolves(g, s, r, n, "expired", "timeout", at);
  }

  /** A delivery goes by its route; a wait whose time is up goes by the first route "timeout" or "expired". */
  lemma WaitTakes(g: Graph, s: RunState, w: nat, route: string, at: int)
    requires ValidGraph(g) && Inv(g, s) && w in s.waits && s.waits[w].pending
    ensures s.status.RunRunning? ==> Went(g, s, Next(g, s, CompleteWait(w, route), at), s.waits[w].node, Some(route))
    ensures Resolved(g, s, Next(g, s, ExpireWait(w), at), s.waits[w].node, "timeout", "expired")
  {
    RunSteps.CompleteWaitIs(g, s, w, route, at);
    RunSteps.ExpireWaitIs(g, s, w, at);
    hide Next, Inv, ValidGraph, Resolve, RouteWith, Went, Resolved, Log, LogAll, Held;
    var n, b := s.waits[w].node, WaitExpired(Some(Id(g.run, w)));
    var b1, b2 := Unprojected("external_event_received"), WaitCompleted(Some(Id(g.run, w)), None, "");
    WaitView(g, s, w);
    HeldIsFinishable(g, s, n);
    SameRows(s, b, at);
    ResolveResolves(g, s, Log(s, b, at), n, "timeout", "expired", at);
    LogTwo(s, b1, b2, at);
    SameRows(s, b1, at);
    SameRows(Log(s, b1, at), b2, at);
    ReleaseGoes(g, s, LogAll(s, [b1, b2], at), n, Some(route), at);
  }

  /** The success of an execution goes by the route of the result, and that of a router by its unconditional routes;
      a node that was asked to stop is cancelled instead, and goes nowhere. */
  lemma SuccessTakes(g: Graph, s: RunState, n: string, route: string, at: int)
    requires ValidGraph(g) && Inv(g, s) && IsFlying(s, n) && !IsGate(g, n)
    ensures var t := Next(g, s, FlightSucceeds(n, route), at);
            if Has(s, n, CancelRequested) then Has(t, n, Cancelled) && t.traversed == s.traversed && OthersStay(s, t, n)
            else Went(g, s, t, n, Some(if IsRouter(g, n) then "" else route))
  {
    FlyingView(g, s, n);
    SuccessIs(g, s, n, route, at);
    hide Inv, ValidGraph, Went, Finish, Next, Log;
    var u, a, r := Drop(s, n), s.batch[n].attempt, Some(if IsRouter(g, n) then "" else route);
    if Has(s, n, CancelRequested) {
      AskedIsCancelled(u, n, a, at);
    } else {
      FlownGoes(g, s, u, n, a, r, at);
    }
  }

  lemma SuccessIs(g: Graph, s: RunState, n: string, route: string, at: int)
    requires IsFlying(s, n) && n in g.defs && !IsGate(g, n)
    ensures Next(g, s, FlightSucceeds(n, route), at) ==
            Commit(g, Drop(s, n), n, s.batch[n].attempt, Some(if IsRouter(g, n) then "" else route), at)
  {
    hide Commit;
  }

  lemma AskedIsCancelled(u: RunState, n: string, a: int, at: int)
    requires Has(u, n, CancelRequested)
    ensures var t := Log(u, NodeCancelled(n, a), at);
            Has(t, n, Cancelled) && t.traversed == u.traversed && OthersStay(u, t, n)
  {
  }

  lemma FlownGoes(g: Graph, s: RunState, u: RunState, n: string, a: int, route: Option<string>, at: int)
    requires ValidGraph(g) && Alike(s, u) && n in g.defs && (Has(s, n, Running) || Has(s, n, Reconciling))
    ensures Went(g, s, Finish(g, u, n, a, route, at), n, route)
  {
    hide ValidGraph, Went, Finish, Finishes;
    FinishFlows(g, s, u, n, a, route, at);
    FinishingGoes(g, s, Finish(g, u, n, a, route, at), n, route);
  }
}
