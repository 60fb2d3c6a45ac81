/** Runs that can never complete: nodes that wait for one another, for a route that was not taken, or
    for a route out of a node that was skipped. */
module RunDeadEnds {
  import opened Events
  import opened Options
  import opened RunEngine
  import opened RunRecovery
  import opened RunSafety
  import opened RunTheorems
  import opened RunEnding
  import opened RunRouting
  import opened RunStranded

  /** x waits for a node of c, or for a route that its done source did not take. */
  ghost predicate Waits(g: Graph, s: RunState, c: set<string>, x: string) {
    exists i {:trigger g.edges[i]} :: 0 <= i < |g.edges| && g.edges[i].to == x &&
      if g.edges[i].from in c then IsDependency(g.edges[i].typ) || g.edges[i].typ.RoutesTo?
      else g.edges[i].typ.RoutesTo? && Done(s, g.edges[i].from) && g.edges[i].id !in s.traversed
  }

  /** No node outside c that has yet to finish could skip x. */
  ghost predicate Unskippable(g: Graph, s: RunState, c: set<string>, x: string) {
    || x in s.nodes
    || forall i {:trigger g.edges[i]} ::
         0 <= i < |g.edges| && g.edges[i].to == x && g.edges[i].typ.RoutesTo? &&
         OnlyRoutesFrom(g, x, g.edges[i].from) ==>
         g.edges[i].from in c || Done(s, g.edges[i].from)
  }

  /** No edge out of x has been traversed, unless the run is cancelled. */
  ghost predicate OutUntaken(g: Graph, s: RunState, x: string) {
    Frozen(g, s) ||
    forall i {:trigger g.edges[i]} :: 0 <= i < |g.edges| && g.edges[i].from == x ==> g.edges[i].id !in s.traversed
  }

  /** The nodes of c can neither start nor be skipped. */
  ghost predicate Trapped(g: Graph, s: RunState, c: set<string>) {
    forall x {:trigger x in c} :: x in c ==>
      && x in g.defs && Summarize(s.acts, x).starts == 0 && !Done(s, x) && Waits(g, s, c, x) && Unskippable(g, s, c, x)
      && OutUntaken(g, s, x)
  }

  lemma {:induction false} NoNewStart(before: seq<Act>, acts: seq<Act>, x: string)
    requires before <= acts && forall i :: |before| <= i < |acts| ==> !StartOf(acts[i], x)
    ensures Summarize(acts, x).starts == Summarize(before, x).starts
    decreases |acts|
  {
    if |acts| > |before| {
      assert !StartOf(acts[|acts| - 1], x);
      NoNewStart(before, acts[..|acts| - 1], x);
    } else {
      assert acts == before;
    }
  }

  /** A trapped node is not ready. */
  lemma TrappedIsNotReady(g: Graph, s: RunState, c: set<string>, x: string)
    requires Trapped(g, s, c) && x in c && !Frozen(g, s)
    ensures !Ready(g, s, x)
  {
    hide Frozen, Summarize, Unskippable;
    assert Waits(g, s, c, x);
    var i :| 0 <= i < |g.edges| && g.edges[i].to == x &&
      if g.edges[i].from in c then IsDependency(g.edges[i].typ) || g.edges[i].typ.RoutesTo?
      else g.edges[i].typ.RoutesTo? && Done(s, g.edges[i].from) && g.edges[i].id !in s.traversed;
    if g.edges[i].from in c { assert !Done(s, g.edges[i].from); }
  }

  lemma TrappedDoesNotStart(g: Graph, s: RunState, c: set<string>, step: Step, at: int, x: string)
    requires ValidGraph(g) && Inv(g, s) && ScanOk(g, s) && Trapped(g, s, c) && x in c
    ensures Summarize(Next(g, s, step, at).acts, x).starts == 0
  {
    hide Next, Inv, ValidGraph, Waits, Unskippable, Summarize, Frozen, Ready;
    var t := Next(g, s, step, at);
    StepAppends(g, s, step, at);
    if step.Claim? && step.node == x {
      ClaimAppends(g, s, x, at);
      if IsListed(s, x) && x in g.defs && Claimable(s, x) {
        if Frozen(g, s) {
          FrozenIsNotClaimable(g, s, x);
        } else {
          ClaimDispatches(g, s, x);
          TrappedIsNotReady(g, s, c, x);
        }
      }
    } else if step.Claim? {
      ClaimAppends(g, s, step.node, at);
    }
    NoNewStart(s.acts, t.acts, x);
  }

  /** A trapped node cannot be finished, except in vain in a cancelled run. */
  lemma TrappedIsNotFinishable(g: Graph, s: RunState, c: set<string>, x: string)
    requires Inv(g, s) && Trapped(g, s, c) && x in c && Finishable(g, s, x)
    ensures Frozen(g, s) && s.nodes[x].status.Cancelled?
  {
    assert NodeOk(g, s, x);
    hide Summarize, Frozen, Waits, Unskippable;
  }

  lemma DoneIsNotFinishable(g: Graph, s: RunState, n: string)
    requires Done(s, n)
    ensures !Finishable(g, s, n)
  {
  }

  /** Finishing another node neither ends a trapped node nor frees it. */
  lemma FinishKeepsTrap(g: Graph, s: RunState, t: RunState, c: set<string>, n: string, route: Option<string>, x: string)
    requires ValidGraph(g) && Inv(g, s) && Trapped(g, s, c) && x in c && Finishes(g, s, t, n, route)
    requires Progress(g, s, t)
    ensures !Done(t, x)
    ensures OutUntaken(g, t, x)
  {
    hide Inv, Summarize, Waits;
    if n in c { TrappedIsNotFinishable(g, s, c, n); }
    if Has(t, x, Skipped) {
      assert x !in s.nodes && IsBlocked(g, n, route, x);
      DoneIsNotFinishable(g, s, n);
    }
  }

  lemma SteadyKeepsTrap(g: Graph, s: RunState, t: RunState, c: set<string>, x: string)
    requires Trapped(g, s, c) && x in c && Steady(s, t) && Progress(g, s, t)
    ensures !Done(t, x)
    ensures OutUntaken(g, t, x)
  {
    hide Summarize, Waits, Unskippable, Frozen;
  }

  /** A route that its done source has not taken stays untaken. */
  lemma UntakenStays(g: Graph, s: RunState, t: RunState, i: nat)
    requires i < |g.edges| && g.edges[i].typ.RoutesTo? && Done(s, g.edges[i].from) && g.edges[i].id !in s.traversed
    requires Flows(g, s, t)
    ensures g.edges[i].id !in t.traversed
  {
    if !Steady(s, t) {
      var n, route :| Finishes(g, s, t, n, route);
      DoneIsNotFinishable(g, s, g.edges[i].from);
    }
  }

  lemma WaitsStays(g: Graph, s: RunState, t: RunState, c: set<string>, x: string)
    requires Waits(g, s, c, x) && Flows(g, s, t) && Progress(g, s, t)
    ensures Waits(g, t, c, x)
  {
    hide Flows, Frozen;
    var i :| 0 <= i < |g.edges| && g.edges[i].to == x &&
      if g.edges[i].from in c then IsDependency(g.edges[i].typ) || g.edges[i].typ.RoutesTo?
      else g.edges[i].typ.RoutesTo? && Done(s, g.edges[i].from) && g.edges[i].id !in s.traversed;
    if g.edges[i].from !in c { UntakenStays(g, s, t, i); }
    assert g.edges[i].to == x;
  }

  lemma FlowsKeepsRows(g: Graph, s: RunState, t: RunState)
    requires Flows(g, s, t)
    ensures s.nodes.Keys <= t.nodes.Keys
  {
    hide Frozen;
  }

  lemma UnskippableStays(g: Graph, s: RunState, t: RunState, c: set<string>, x: string)
    requires Unskippable(g, s, c, x) && Progress(g, s, t) && s.nodes.Keys <= t.nodes.Keys
    ensures Unskippable(g, t, c, x)
  {
    hide Frozen;
  }

  lemma StepKeepsTrap(g: Graph, s: RunState, c: set<string>, step: Step, at: int)
    requires ValidGraph(g) && Inv(g, s) && ScanOk(g, s) && Trapped(g, s, c)
    ensures Trapped(g, Next(g, s, step, at), c)
  {
    hide Next, Inv, Summarize, Frozen, ValidGraph, Finishes, Steady, Waits, Unskippable;
    var t := Next(g, s, step, at);
    StepFlows(g, s, step, at);
    StepKeeps(g, s, step, at);
    FlowsKeepsRows(g, s, t);
    forall x | x in c
      ensures x in g.defs && Summarize(t.acts, x).starts == 0 && !Done(t, x) && Waits(g, t, c, x)
      ensures Unskippable(g, t, c, x)
      ensures OutUntaken(g, t, x)
    {
      TrappedDoesNotStart(g, s, c, step, at, x);
      WaitsStays(g, s, t, c, x);
      UnskippableStays(g, s, t, c, x);
      if Steady(s, t) {
        SteadyKeepsTrap(g, s, t, c, x);
      } else {
        var n, route :| Finishes(g, s, t, n, route);
        FinishKeepsTrap(g, s, t, c, n, route, x);
      }
    }
  }

  lemma {:induction false} TrappedForever(g: Graph, steps: seq<(Step, int)>, more: seq<(Step, int)>, c: set<string>)
    requires ValidGraph(g) && Trapped(g, Run(g, steps), c)
    ensures Trapped(g, Run(g, steps + more), c)
    decreases |more|
  {
    hide Inv, Next, ValidGraph, Trapped;
    if |more| == 0 {
      assert steps + more == steps;
    } else {
      var init := more[..|more| - 1];
      TrappedForever(g, steps, init, c);
      Unsnoc(g, steps, more);
      RunKeeps(g, steps + init);
      StepKeepsTrap(g, Run(g, steps + init), c, more[|more| - 1].0, more[|more| - 1].1);
    }
  }

  /** A run with trapped nodes never completes. */
  lemma TrappedNeverCompletes(g: Graph, steps: seq<(Step, int)>, more: seq<(Step, int)>, c: set<string>)
    requires ValidGraph(g) && Trapped(g, Run(g, steps), c) && c != {}
    ensures !Run(g, steps + more).status.RunCompleted?
    ensures forall x :: x in c ==> !Done(Run(g, steps + more), x) && Summarize(Run(g, steps + more).acts, x).starts == 0
  {
    hide Run, Summarize, ValidGraph, Waits, Unskippable, Frozen;
    TrappedForever(g, steps, more, c);
    CompletedRunIsDone(g, steps + more);
    var x :| x in c;
  }

  // ---- nodes that wait for one another ----

  /** x has a dependency or route from a node of c. */
  ghost predicate Follows(g: Graph, c: set<string>, x: string) {
    exists i {:trigger g.edges[i]} ::
      0 <= i < |g.edges| && g.edges[i].to == x && g.edges[i].from in c &&
      (IsDependency(g.edges[i].typ) || g.edges[i].typ.RoutesTo?)
  }

  /** Each node of c waits for a node of c, and none can be skipped by a node outside c. */
  ghost predicate Knot(g: Graph, c: set<string>) {
    c != {} && forall x {:trigger x in c} :: x in c ==>
      && x in g.defs
      && Follows(g, c, x)
      && (forall i {:trigger g.edges[i]} ::
            0 <= i < |g.edges| && g.edges[i].to == x && g.edges[i].typ.RoutesTo? &&
            OnlyRoutesFrom(g, x, g.edges[i].from) ==>
            g.edges[i].from in c)
  }

  lemma KnotTraps(g: Graph, c: set<string>)
    requires Knot(g, c)
    ensures Trapped(g, START, c)
  {
    hide Summarize, OnlyRoutesFrom;
    forall x | x in c
      ensures Summarize(START.acts, x).starts == 0
    {
      EmptySummary(x);
    }
  }

  /** In no run does a node of a knot start or finish, and no run of a graph with a knot completes. */
  lemma KnotNeverCompletes(g: Graph, steps: seq<(Step, int)>, c: set<string>)
    requires ValidGraph(g) && Knot(g, c)
    ensures var s := Run(g, steps);
            && !s.status.RunCompleted?
            && forall x :: x in c ==> !Done(s, x) && forall i :: 0 <= i < |s.acts| ==> !StartOf(s.acts[i], x)
  {
    hide ValidGraph, Next, Summarize, Trapped;
    assert Run(g, []) == START;
    KnotTraps(g, c);
    assert c != {};
    hide Knot, Run;
    TrappedNeverCompletes(g, [], steps, c);
    assert [] + steps == steps;
    var s := Run(g, steps);
    forall x, i | x in c && 0 <= i < |s.acts|
      ensures !StartOf(s.acts[i], x)
    {
      if StartOf(s.acts[i], x) { StartCounts(s.acts, i, x); }
    }
  }

  lemma EmptySummary(x: string)
    ensures Summarize([], x) == UNSTARTED
  {
  }

  lemma {:induction false} StartCounts(acts: seq<Act>, i: nat, x: string)
    requires i < |acts| && StartOf(acts[i], x)
    ensures Summarize(acts, x).starts > 0
    decreases |acts|
  {
    if i < |acts| - 1 { StartCounts(acts[..|acts| - 1], i, x); }
  }

  // ---- routes that were not taken ----

  /** What has succeeded has been started. */
  lemma {:induction false} SucceededHasStarted(g: Graph, steps: seq<(Step, int)>, x: string)
    requires ValidGraph(g)
    ensures Has(Run(g, steps), x, Succeeded) ==> Summarize(Run(g, steps).acts, x).starts > 0
  {
    hide Next, Inv, ValidGraph, Summarize, Steady, Finishes;
    if |steps| > 0 {
      var init, step, at := steps[..|steps| - 1], steps[|steps| - 1].0, steps[|steps| - 1].1;
      var s, t := Run(g, init), Run(g, steps);
      SucceededHasStarted(g, init, x);
      RunKeeps(g, init);
      StepFlows(g, s, step, at);
      StepAppends(g, s, step, at);
      StartsGrow(s.acts, t.acts, x);
      if Has(t, x, Succeeded) && !Has(s, x, Succeeded) { NewlySucceeded(g, s, t, x); }
    }
  }

  lemma NewlySucceeded(g: Graph, s: RunState, t: RunState, x: string)
    requires Inv(g, s) && Flows(g, s, t) && Has(t, x, Succeeded) && !Has(s, x, Succeeded)
    ensures Summarize(s.acts, x).starts > 0
  {
    hide Summarize, Frozen, IsBlocked, Taken;
    var n, route :| Finishes(g, s, t, n, route);
    assert n == x;
    assert NodeOk(g, s, x);
  }

  lemma {:induction false} StartsGrow(before: seq<Act>, acts: seq<Act>, x: string)
    requires before <= acts
    ensures Summarize(before, x).starts <= Summarize(acts, x).starts
    decreases |acts|
  {
    if |acts| > |before| {
      StartsGrow(before, acts[..|acts| - 1], x);
    } else {
      assert acts == before;
    }
  }

  /** A node that has started found its routes traversed. */
  lemma {:induction false} StartedIsRouted(g: Graph, steps: seq<(Step, int)>, i: nat)
    requires ValidGraph(g) && i < |g.edges| && g.edges[i].typ.RoutesTo?
    ensures Summarize(Run(g, steps).acts, g.edges[i].to).starts > 0 ==> g.edges[i].id in Run(g, steps).traversed
  {
    hide Next, Inv, ValidGraph, Summarize, Frozen;
    var x := g.edges[i].to;
    if |steps| > 0 {
      var init, step, at := steps[..|steps| - 1], steps[|steps| - 1].0, steps[|steps| - 1].1;
      var s, t := Run(g, init), Run(g, steps);
      StartedIsRouted(g, init, i);
      RunKeeps(g, init);
      StepKeeps(g, s, step, at);
      StepAppends(g, s, step, at);
      if step.Claim? { ClaimAppends(g, s, step.node, at); }
      if Summarize(s.acts, x).starts == 0 && Summarize(t.acts, x).starts > 0 {
        if !(step.Claim? && step.node == x) { NoNewStart(s.acts, t.acts, x); }
        if Frozen(g, s) { FrozenIsNotClaimable(g, s, x); }
        ClaimDispatches(g, s, x);
      }
    } else {
      EmptySummary(x);
    }
  }

  /** A route out of a done node was not taken, and its target is not done. */
  ghost predicate MissedRoute(g: Graph, s: RunState, i: nat) {
    && i < |g.edges| && g.edges[i].typ.RoutesTo?
    && Done(s, g.edges[i].from) && g.edges[i].id !in s.traversed && !Done(s, g.edges[i].to)
  }

  lemma EdgesOutAreUntaken(g: Graph, s: RunState, x: string)
    requires Inv(g, s) && !Has(s, x, Succeeded)
    ensures OutUntaken(g, s, x)
  {
    hide NodeOk, WaitOk, ApprovalOk, Frozen;
    assert forall i {:trigger g.edges[i]} :: 0 <= i < |g.edges| ==> EdgeOk(g, s, g.edges[i]);
  }

  lemma UntakenTraps(g: Graph, steps: seq<(Step, int)>, i: nat)
    requires ValidGraph(g) && i < |g.edges| && g.edges[i].typ.RoutesTo?
    requires var s := Run(g, steps);
             Done(s, g.edges[i].from) && g.edges[i].id !in s.traversed && !Has(s, g.edges[i].to, Skipped)
    ensures Trapped(g, Run(g, steps), {g.edges[i].to})
  {
    var x, s := g.edges[i].to, Run(g, steps);
    assert x in g.defs;
    hide ValidGraph, Run, Frozen, Summarize, Inv;
    RunKeeps(g, steps);
    StartedIsRouted(g, steps, i);
    SucceededHasStarted(g, steps, x);
    EdgesOutAreUntaken(g, s, x);
    assert Waits(g, s, {x}, x);
    assert Unskippable(g, s, {x}, x);
  }

  /** A route that its source did not take, or could not take because it was skipped, is never taken. Its
      target never starts, and unless it has been skipped the run never completes. */
  lemma UntakenRouteIsFinal(g: Graph, steps: seq<(Step, int)>, more: seq<(Step, int)>, i: nat)
    requires ValidGraph(g) && i < |g.edges| && g.edges[i].typ.RoutesTo?
    requires var s := Run(g, steps);
             Done(s, g.edges[i].from) && g.edges[i].id !in s.traversed && !Has(s, g.edges[i].to, Skipped)
    ensures var t := Run(g, steps + more);
            !Done(t, g.edges[i].to) && Summarize(t.acts, g.edges[i].to).starts == 0 && !t.status.RunCompleted?
  {
    hide ValidGraph, Run, Trapped;
    UntakenTraps(g, steps, i);
    assert g.edges[i].to in {g.edges[i].to};
    TrappedNeverCompletes(g, steps, more, {g.edges[i].to});
  }

  /** A target that a finishing task blocks is skipped exactly if it has no row yet. If it has one, because
      its dependencies were done before, it never starts and the run never completes. */
  lemma BlockedTargetNeedsNoRow(g: Graph, steps: seq<(Step, int)>, n: string, route: string, at: int, x: string,
      more: seq<(Step, int)>)
    requires ValidGraph(g) && IsFlying(Run(g, steps), n) && IsTask(g, n) && Has(Run(g, steps), n, Running)
    requires IsBlocked(g, n, Some(route), x) && !Has(Run(g, steps), x, Skipped)
    ensures var t := Run(g, steps + [(FlightSucceeds(n, route), at)]);
            && Has(t, n, Succeeded)
            && (x !in Run(g, steps).nodes ==> Has(t, x, Skipped))
            && (x in Run(g, steps).nodes ==>
                !Run(g, steps + [(FlightSucceeds(n, route), at)] + more).status.RunCompleted?)
  {
    hide ValidGraph, Run, Inv, Next, Finishes;
    var s, step := Run(g, steps), FlightSucceeds(n, route);
    var t := Run(g, steps + [(step, at)]);
    RunKeeps(g, steps);
    RunNext(g, steps, step, at);
    SuccessFinishes(g, s, n, route, at);
    BlockedEdge(g, s, t, n, Some(route), x);
    if x in s.nodes {
      var i :| 0 <= i < |g.edges| && g.edges[i].to == x && IsUntaken(g, t, n, i);
      UntakenRouteIsFinal(g, steps + [(step, at)], more, i);
    }
  }

  lemma SuccessFinishes(g: Graph, s: RunState, n: string, route: string, at: int)
    requires ValidGraph(g) && IsFlying(s, n) && IsTask(g, n) && Has(s, n, Running)
    ensures Finishes(g, s, Next(g, s, FlightSucceeds(n, route), at), n, Some(route))
  {
    hide ValidGraph, Finishes, Finish;
    FinishFlows(g, s, Drop(s, n), n, s.batch[n].attempt, Some(route), at);
  }

  predicate IsUntaken(g: Graph, s: RunState, n: string, i: nat)
    requires i < |g.edges|
  {
    g.edges[i].typ.RoutesTo? && g.edges[i].from == n && g.edges[i].id !in s.traversed
  }

  lemma BlockedEdge(g: Graph, s: RunState, t: RunState, n: string, route: Option<string>, x: string)
    requires Inv(g, s) && Has(s, n, Running) && Finishes(g, s, t, n, route) && IsBlocked(g, n, route, x)
    requires !Has(s, x, Skipped)
    ensures Has(t, n, Succeeded) && (x !in s.nodes <==> Has(t, x, Skipped))
    ensures exists i :: 0 <= i < |g.edges| && g.edges[i].to == x && IsUntaken(g, t, n, i)
  {
    hide NodeOk, WaitOk, ApprovalOk;
    var i :| 0 <= i < |g.edges| && Blocks(g, n, route, g.edges[i]) && g.edges[i].to == x;
    assert EdgeOk(g, s, g.edges[i]);
  }

  // ---- runs at rest ----

  /** The driver of an open run has nothing to start and nothing in flight. */
  ghost predicate Idle(g: Graph, s: RunState) {
    s.status.RunRunning? && s.batch == map[] && !s.checked && List(g, s) == map[]
  }

  /** Nothing but a cancellation of the run moves the node: it waits and nobody can release it, or it has lost
      its execution and recovery cannot deal with it, or never gets to it. */
  ghost predicate Immovable(g: Graph, s: RunState, n: string) {
    Orphan(s, n) || Stranded(g, s, n) || exists b :: Left(g, s, b, n)
  }

  /** The run is idle, and no row is but pending, done or immovable. */
  ghost predicate AtRest(g: Graph, s: RunState) {
    Idle(g, s) && forall n :: n in s.nodes ==> s.nodes[n].status.Pending? || Done(s, n) || Immovable(g, s, n)
  }

  ghost predicate NoneImmovable(g: Graph, s: RunState) { forall n :: n in s.nodes ==> !Immovable(g, s, n) }

  function Undone(g: Graph, s: RunState): set<string> { set n | n in g.defs && !Done(s, n) }

  lemma RestTraps(g: Graph, s: RunState)
    requires ValidGraph(g) && Inv(g, s) && AtRest(g, s) && NoneImmovable(g, s)
    ensures Trapped(g, s, Undone(g, s))
  {
    hide Immovable;
    var c := Undone(g, s);
    forall x | x in c
      ensures Summarize(s.acts, x).starts == 0 && Waits(g, s, c, x) && Unskippable(g, s, c, x)
      ensures OutUntaken(g, s, x)
    {
      assert NodeOk(g, s, x);
      assert x !in List(g, s);
      EdgesOutAreUntaken(g, s, x);
    }
  }

  lemma ImmovableNeverCompletes(g: Graph, steps: seq<(Step, int)>, more: seq<(Step, int)>, n: string)
    requires ValidGraph(g) && Run(g, steps).status.RunRunning? && Immovable(g, Run(g, steps), n)
    ensures !Run(g, steps + more).status.RunCompleted?
  {
    hide ValidGraph, Run, Orphan, Stranded, Left;
    var s := Run(g, steps);
    if Orphan(s, n) {
      OrphanForever(g, steps, more, n);
    } else if Stranded(g, s, n) {
      StrandedForever(g, steps, more, n);
    } else {
      var b :| Left(g, s, b, n);
      StrandedBlocks(g, steps, more, b, n);
    }
  }

  lemma RestNeverCompletes(g: Graph, steps: seq<(Step, int)>, more: seq<(Step, int)>)
    requires ValidGraph(g) && AtRest(g, Run(g, steps)) && !AllDone(g, Run(g, steps))
    ensures !Run(g, steps + more).status.RunCompleted?
  {
    hide ValidGraph, Inv, Run, Trapped, Immovable, List, ScanOk;
    var s := Run(g, steps);
    RunKeeps(g, steps);
    if n :| n in s.nodes && Immovable(g, s, n) {
      ImmovableNeverCompletes(g, steps, more, n);
    } else {
      RestTraps(g, s);
      var n :| n in g.defs && !Done(s, n);
      assert n in Undone(g, s);
      TrappedNeverCompletes(g, steps, more, Undone(g, s));
    }
  }

  /** A run at rest is completed by the next step if every node is done, and otherwise never. */
  lemma RestCompletesNowOrNever(g: Graph, steps: seq<(Step, int)>, more: seq<(Step, int)>, at: int)
    requires ValidGraph(g) && AtRest(g, Run(g, steps)) && g.order != []
    ensures AllDone(g, Run(g, steps)) ==> Run(g, steps + [(CompleteRun, at)]).status.RunCompleted?
    ensures !AllDone(g, Run(g, steps)) ==> !Run(g, steps + more).status.RunCompleted?
  {
    hide ValidGraph, Inv, Run, AllDone, EndOf, List, Immovable, ScanOk;
    var s := Run(g, steps);
    RunKeeps(g, steps);
    if AllDone(g, s) {
      RunNext(g, steps, CompleteRun, at);
      AllDoneEnds(g, s);
    } else {
      RestNeverCompletes(g, steps, more);
    }
  }

  lemma AllDoneEnds(g: Graph, s: RunState)
    requires ValidGraph(g) && Inv(g, s) && AllDone(g, s) && g.order != []
    ensures EndOf(g, s) == Some(RunCompleted)
  {
    hide NodeOk, WaitOk, ApprovalOk, EdgeOk;
    assert g.order[0] in g.defs;
    assert DoneNodes(s) == g.defs.Keys;
    assert |g.defs| == |g.defs.Keys| > 0;
    assert forall n :: n in s.nodes ==> Done(s, n);
  }

  /** Why a run at rest cannot complete: a node is immovable, a route out of a done node was not taken, or
      the nodes left wait for one another. */
  lemma RestIsExplained(g: Graph, s: RunState)
    requires ValidGraph(g) && Inv(g, s) && AtRest(g, s) && !AllDone(g, s)
    ensures (exists n :: n in s.nodes && Immovable(g, s, n)) || (exists i :: MissedRoute(g, s, i)) ||
            forall x :: x in Undone(g, s) ==> Follows(g, Undone(g, s), x)
  {
    hide Immovable;
    if NoneImmovable(g, s) {
      RestTraps(g, s);
      var c := Undone(g, s);
      if forall i :: !MissedRoute(g, s, i) {
        forall x | x in c
          ensures Follows(g, c, x)
        {
          assert Waits(g, s, c, x);
          var i :| 0 <= i < |g.edges| && g.edges[i].to == x &&
            if g.edges[i].from in c then IsDependency(g.edges[i].typ) || g.edges[i].typ.RoutesTo?
            else g.edges[i].typ.RoutesTo? && Done(s, g.edges[i].from) && g.edges[i].id !in s.traversed;
          assert !MissedRoute(g, s, i);
        }
      }
    }
  }
}
