/** When a run can complete at all: a graph without routes can be run to its end exactly if its gates listen
    and its nodes do not wait for one another in a circle; with routes, if they can be chosen so that every
    node is either wanted by all of them or left out by one. */
module RunCompletion {
  import opened Events
  import opened OperationKeys
  import opened Options
  import opened RunEngine
  import opened RunRecovery
  import opened RunSafety
  import RunSteps
  import opened RunTheorems
  import opened RunEnding
  import opened RunRouting
  import opened RunStranded
  import opened RunDeadEnds

  // ---- choosing routes ----

  /** The nodes to keep, each with the route it takes when it finishes. */
  type Choice = map<string, string>

  /** Nodes of c that wait for one another. */
  ghost predicate Circle(g: Graph, c: set<string>) {
    c != {} && forall x :: x in c ==> x in g.defs && Follows(g, c, x)
  }

  ghost predicate Chosen(g: Graph, r: Choice, e: EdgeDef) { e.from in r && Selects(e, Some(r[e.from])) }

  /** A node to keep can finish with its route: a gate listens, a router has the empty route. Every route into
      it is chosen. */
  ghost predicate Kept(g: Graph, r: Choice, x: string)
    requires x in r
  {
    && x in g.defs && (g.defs[x].Gate? ==> g.defs[x].listens) && (g.defs[x].Router? ==> r[x] == "")
    && forall i {:trigger g.edges[i]} :: 0 <= i < |g.edges| && g.edges[i].to == x && g.edges[i].typ.RoutesTo? ==>
         Chosen(g, r, g.edges[i])
  }

  /** A node to leave out depends on nothing, and a node that is kept blocks it. */
  ghost predicate LeftOut(g: Graph, r: Choice, x: string) {
    && (forall i {:trigger g.edges[i]} :: 0 <= i < |g.edges| && g.edges[i].to == x ==> !IsDependency(g.edges[i].typ))
    && exists m :: m in r && IsBlocked(g, m, Some(r[m]), x)
  }

  /** Each node is kept or left out, and none wait for one another. */
  ghost predicate Plan(g: Graph, r: Choice) {
    && (forall x :: x in r ==> Kept(g, r, x))
    && (forall x :: x in g.defs && x !in r ==> LeftOut(g, r, x))
    && forall c :: !Circle(g, c)
  }

  // ---- states on the way ----

  /** What has succeeded has taken its route, and has blocked what it leaves out. */
  ghost predicate Routes(g: Graph, r: Choice, s: RunState, m: string)
    requires m in r
  {
    Has(s, m, Succeeded) ==>
      && (forall i {:trigger g.edges[i]} :: 0 <= i < |g.edges| && Taken(g.edges[i], m, Some(r[m])) ==>
            g.edges[i].id in s.traversed)
      && (forall y :: IsBlocked(g, m, Some(r[m]), y) ==> Has(s, y, Skipped))
  }

  predicate Tidy(r: Choice, y: string, st: NodeStatus) {
    if y in r then st.Pending? || st.Succeeded? else st.Skipped?
  }

  /** All rows but that of x are pending or succeeded if kept, and skipped if left out. */
  ghost predicate TidyBut(r: Choice, s: RunState, x: string) {
    forall y :: y in s.nodes && y != x ==> Tidy(r, y, s.nodes[y].status)
  }

  ghost predicate Routed(g: Graph, r: Choice, s: RunState) { forall m :: m in r ==> Routes(g, r, s, m) }

  /** An open run with nothing in flight, on the way of the plan. */
  ghost predicate Clean(g: Graph, r: Choice, s: RunState) {
    && s.status.RunRunning? && s.batch == map[] && !s.checked && s.scan == []
    && (forall y :: y in s.nodes ==> Tidy(r, y, s.nodes[y].status)) && Routed(g, r, s)
  }

  ghost predicate KeepsSuccess(s: RunState, t: RunState) { forall y :: Has(s, y, Succeeded) ==> Has(t, y, Succeeded) }

  // ---- finishing one node ----

  lemma KeptIsNotBlocked(g: Graph, r: Choice, x: string, y: string)
    requires x in r && y in r && Kept(g, r, y)
    ensures !IsBlocked(g, x, Some(r[x]), y)
  {
    forall i | 0 <= i < |g.edges| && g.edges[i].to == y
      ensures !Blocks(g, x, Some(r[x]), g.edges[i])
    {
      if g.edges[i].typ.RoutesTo? { assert Chosen(g, r, g.edges[i]); }
    }
  }

  /** No kept node takes an edge into a node that is left out. */
  lemma TakenIsNotLeftOut(g: Graph, r: Choice, x: string, i: nat)
    requires x in r && i < |g.edges| && Taken(g.edges[i], x, Some(r[x]))
    ensures !LeftOut(g, r, g.edges[i].to)
  {
    var y := g.edges[i].to;
    if g.edges[i].typ.RoutesTo? {
      assert SelectedTarget(g, x, Some(r[x]), y);
      forall m | m in r
        ensures !IsBlocked(g, m, Some(r[m]), y)
      {
        assert OnlyRoutesFrom(g, y, m) ==> m == x;
      }
    }
  }

  /** The rows a finishing node makes are pending if kept, and skipped if left out. */
  lemma NewRowsAreTidy(g: Graph, r: Choice, s: RunState, x: string, at: int)
    requires ValidGraph(g) && Plan(g, r) && x in r && x in s.nodes && TidyBut(r, s, x)
    ensures TidyBut(r, Route(g, s, x, Some(r[x]), at), x)
  {
    hide Route, ValidGraph, Summarize, IsBlocked, Circle, Kept, LeftOut;
    var route := Some(r[x]);
    var t := Route(g, s, x, route, at);
    assert Kept(g, r, x);
    InDefs(g, r, x);
    RoutingIsExact(g, s, x, route, at);
    RouteRoutes(g, s, x, route, at);
    RouteCreates(g, s, x, route, at);
    forall y | y in t.nodes && y != x
      ensures Tidy(r, y, t.nodes[y].status)
    {
      if y !in s.nodes { NewRowIsTidy(g, r, s, t, x, y); }
    }
  }

  lemma InDefs(g: Graph, r: Choice, x: string)
    requires x in r && Kept(g, r, x)
    ensures x in g.defs
  {
  }

  lemma NewRowIsTidy(g: Graph, r: Choice, s: RunState, t: RunState, x: string, y: string)
    requires Plan(g, r) && x in r && y in g.defs && y !in s.nodes && y in t.nodes && y != x
    requires y in Touched(g, x, Some(r[x])) && (t.nodes[y].status.Pending? || t.nodes[y].status.Skipped?)
    requires Has(t, y, Skipped) <==> IsBlocked(g, x, Some(r[x]), y)
    ensures Tidy(r, y, t.nodes[y].status)
  {
    hide Circle;
    if y in r {
      KeptIsNotBlocked(g, r, x, y);
    } else if !IsBlocked(g, x, Some(r[x]), y) {
      hide LeftOut, Kept;
      var i :| 0 <= i < |g.edges| && Taken(g.edges[i], x, Some(r[x])) && g.edges[i].to == y;
      TakenIsNotLeftOut(g, r, x, i);
    }
  }

  lemma FinishIsClean(g: Graph, r: Choice, s: RunState, x: string, a: int, at: int)
    requires ValidGraph(g) && Plan(g, r) && x in r && x in s.nodes && TidyBut(r, s, x) && Routed(g, r, s)
    requires Has(s, x, Running) || Has(s, x, Waiting)
    ensures var t := Finish(g, s, x, a, Some(r[x]), at);
            && t.status == s.status && SameAside(s, t) && Has(t, x, Succeeded) && KeepsSuccess(s, t)
            && (forall y :: y in t.nodes ==> Tidy(r, y, t.nodes[y].status)) && Routed(g, r, t)
  {
    hide Log, Route, ValidGraph, Plan, IsBlocked, Taken;
    var route, t := Some(r[x]), Finish(g, s, x, a, Some(r[x]), at);
    assert x in g.defs by { PlanDefines(g, r, x); }
    var u := Log(s, Ended(x, a, Finished, ""), at);
    EndedIs(r, s, x, a, at);
    FinishFlows(g, s, s, x, a, route, at);
    NewRowsAreTidy(g, r, u, x, at);
    FinishAside(g, s, x, a, route, at);
    RouteRoutes(g, u, x, route, at);
    BlockedAreSkipped(g, r, s, x);
    FinishRoutes(g, r, s, t, x);
  }

  /** A blocked node that has a row has been skipped. */
  lemma BlockedAreSkipped(g: Graph, r: Choice, s: RunState, x: string)
    requires Plan(g, r) && x in r && TidyBut(r, s, x)
    ensures forall y :: IsBlocked(g, x, Some(r[x]), y) && y in s.nodes ==> Has(s, y, Skipped)
  {
    hide IsBlocked, Kept, LeftOut, Circle;
    forall y | IsBlocked(g, x, Some(r[x]), y) && y in s.nodes
      ensures Has(s, y, Skipped)
    {
      if y in r { KeptIsNotBlocked(g, r, x, y); }
    }
  }

  lemma PlanDefines(g: Graph, r: Choice, x: string)
    requires Plan(g, r) && x in r
    ensures x in g.defs
  {
    assert Kept(g, r, x);
  }

  lemma EndedIs(r: Choice, s: RunState, x: string, a: int, at: int)
    requires x in s.nodes && TidyBut(r, s, x) && (Has(s, x, Running) || Has(s, x, Waiting))
    ensures var u := Log(s, Ended(x, a, Finished, ""), at);
            u.status == s.status && Has(u, x, Succeeded) && TidyBut(r, u, x) && KeepsSuccess(s, u)
  {
  }

  lemma FinishRoutes(g: Graph, r: Choice, s: RunState, t: RunState, x: string)
    requires x in r && Routed(g, r, s) && Finishes(g, s, t, x, Some(r[x])) && (Has(s, x, Running) || Has(s, x, Waiting))
    requires forall y :: Has(s, y, Skipped) ==> Has(t, y, Skipped)
    requires forall y :: IsBlocked(g, x, Some(r[x]), y) && y in s.nodes ==> Has(s, y, Skipped)
    ensures Routed(g, r, t)
  {
    forall m | m in r
      ensures Routes(g, r, t, m)
    {
      assert Routes(g, r, s, m);
    }
  }

  // ---- a round for one node ----

  /** x is in flight, and the other rows are tidy. */
  ghost predicate OneFlies(g: Graph, r: Choice, s: RunState, x: string) {
    && s.status.RunRunning? && !s.checked && s.scan == [] && IsFlying(s, x) && Has(s, x, Running)
    && TidyBut(r, s, x) && Routed(g, r, s)
  }

  lemma SameRoutes(g: Graph, r: Choice, s: RunState, t: RunState)
    requires Routed(g, r, s) && t.traversed == s.traversed
    requires forall m :: Has(t, m, Succeeded) ==> Has(s, m, Succeeded)
    requires forall m :: Has(s, m, Skipped) ==> Has(t, m, Skipped)
    ensures Routed(g, r, t)
  {
    forall m | m in r
      ensures Routes(g, r, t, m)
    {
      assert Routes(g, r, s, m);
    }
  }

  lemma ReadyIsListed(g: Graph, s: RunState, x: string)
    requires s.status.RunRunning? && s.batch == map[] && s.scan == [] && !s.checked && x in g.defs && Ready(g, s, x)
    requires x in s.nodes ==> s.nodes[x].status.Pending?
    ensures var t := Next(g, Next(g, s, BeginStep, 0), ListNodes, 0);
            t == s.(batch := t.batch, rounds := s.rounds + 1) && IsListed(t, x)
  {
    hide Ready;
    var c := s.(checked := true);
    assert Next(g, s, BeginStep, 0) == c;
    EligibleIs(g, s, c, x);
    assert x in List(g, c);
  }

  lemma ClaimedIs(g: Graph, s: RunState, x: string)
    requires x in g.defs && IsListed(s, x) && Claimable(s, x)
    ensures var t := Next(g, s, Claim(x), 0);
            && t.status == s.status && t.traversed == s.traversed && t.waits == s.waits && t.scan == s.scan
            && t.checked == s.checked && t.batch == s.batch[x := Flying(s.batch[x].attempt)]
            && t.nodes.Keys == s.nodes.Keys + {x} && Has(t, x, Running)
            && forall y :: y in s.nodes && y != x ==> t.nodes[y] == s.nodes[y]
  {
    RunSteps.ClaimIs(g, s, x, 0);
    RunSteps.LogRest(s, StartBody(g, s, x), 0);
    RunSteps.LogWaits(s, StartBody(g, s, x), 0);
    hide Next, Log, OperationKey;
  }

  lemma ListedFlies(g: Graph, r: Choice, s: RunState, x: string)
    requires x in g.defs && IsListed(s, x) && Claimable(s, x) && s.status.RunRunning? && !s.checked && s.scan == []
    requires TidyBut(r, s, x) && Routed(g, r, s) && !Done(s, x)
    ensures var t := Next(g, s, Claim(x), 0);
            OneFlies(g, r, t, x) && KeepsSuccess(s, t) && t.waits == s.waits
  {
    ClaimedIs(g, s, x);
    hide Routes, Next;
    SameRoutes(g, r, s, Next(g, s, Claim(x), 0));
  }

  lemma ReadyNodeFlies(g: Graph, r: Choice, s: RunState, x: string)
    requires Clean(g, r, s) && x in r && x in g.defs && !Has(s, x, Succeeded) && Ready(g, s, x)
    ensures var t := Next(g, Next(g, Next(g, s, BeginStep, 0), ListNodes, 0), Claim(x), 0);
            OneFlies(g, r, t, x) && KeepsSuccess(s, t) && t.waits == s.waits
  {
    hide Ready, Routes, Next;
    ReadyIsListed(g, s, x);
    var l := Next(g, Next(g, s, BeginStep, 0), ListNodes, 0);
    SameRoutes(g, r, s, l);
    ListedFlies(g, r, l, x);
  }

  lemma EligibleIs(g: Graph, s: RunState, c: RunState, x: string)
    requires Ready(g, s, x) && c.nodes == s.nodes && c.traversed == s.traversed
    requires x in s.nodes ==> s.nodes[x].status.Pending?
    ensures RunEngine.Eligible(g, c, x)
  {
  }

  lemma CrashIs(g: Graph, s: RunState)
    ensures Next(g, s, Crash, 0) == s.(batch := map[], checked := false, scan := [])
  {
  }

  lemma SuccessIs(g: Graph, r: Choice, s: RunState, x: string)
    requires OneFlies(g, r, s, x) && x in r && x in g.defs && !IsGate(g, x) && Kept(g, r, x)
    ensures Next(g, s, FlightSucceeds(x, r[x]), 0) == Finish(g, Drop(s, x), x, s.batch[x].attempt, Some(r[x]), 0)
  {
    hide Finish, Routed;
  }

  lemma TaskSucceeds(g: Graph, r: Choice, s: RunState, x: string)
    requires ValidGraph(g) && Plan(g, r) && x in r && OneFlies(g, r, s, x) && !IsGate(g, x)
    ensures var t := Next(g, Next(g, s, FlightSucceeds(x, r[x]), 0), Crash, 0);
            Clean(g, r, t) && Has(t, x, Succeeded) && KeepsSuccess(s, t)
  {
    PlanDefines(g, r, x);
    assert Kept(g, r, x);
    hide Finish, ValidGraph, Plan, Next, Routes, Kept;
    SuccessIs(g, r, s, x);
    var u := Drop(s, x);
    SameRoutes(g, r, s, u);
    FinishIsClean(g, r, u, x, s.batch[x].attempt, 0);
    assert forall y :: Has(s, y, Succeeded) ==> Has(u, y, Succeeded);
    var v := Next(g, s, FlightSucceeds(x, r[x]), 0);
    CrashIs(g, v);
    SameRoutes(g, r, v, Next(g, v, Crash, 0));
  }

  function Unused(s: RunState): nat { WaitLimit(s.waits) }

  lemma GateWaitsIs(g: Graph, r: Choice, s: RunState, x: string, w: nat)
    requires Inv(g, s) && OneFlies(g, r, s, x) && Listens(g, x) && w !in s.waits
    ensures Next(g, s, GateWaits(x, Some(w)), 0) ==
            Log(Log(Drop(s, x), WaitRequested(Some(Id(g.run, w)), x, "type", "key", "{}", 0), 0), NodeWaiting(x), 0)
  {
    hide Log, LogAll, Inv, Routed;
    BusyIsNotHeld(g, s, x);
    NoWaitAt(s, x);
    LogTwo(Drop(s, x), WaitRequested(Some(Id(g.run, w)), x, "type", "key", "{}", 0), NodeWaiting(x), 0);
  }

  lemma NoWaitAt(s: RunState, x: string)
    requires !HoldsNode(s, x)
    ensures !exists w :: w in s.waits && s.waits[w].node == x && s.waits[w].pending
  {
  }

  /** x waits, with nothing in flight, and the other rows are tidy. */
  ghost predicate OneWaits(g: Graph, r: Choice, s: RunState, x: string, w: nat) {
    && s.status.RunRunning? && s.batch == map[] && !s.checked && s.scan == [] && Has(s, x, Waiting)
    && TidyBut(r, s, x) && Routed(g, r, s) && w in s.waits && s.waits[w] == WaitState(x, true)
  }

  lemma GateBeginsToWait(g: Graph, r: Choice, s: RunState, x: string)
    requires Inv(g, s) && OneFlies(g, r, s, x) && Listens(g, x)
    ensures var w := Unused(s);
            var t := Next(g, Next(g, s, GateWaits(x, Some(w)), 0), Crash, 0);
            OneWaits(g, r, t, x, w) && KeepsSuccess(s, t)
  {
    hide WaitLimit, Inv, Next, Routes;
    var w := Unused(s);
    assert w !in s.waits;
    GateWaitsIs(g, r, s, x, w);
    var u := Log(Drop(s, x), WaitRequested(Some(Id(g.run, w)), x, "type", "key", "{}", 0), 0);
    assert u.nodes == s.nodes && u.waits == s.waits[w := WaitState(x, true)] && u.status == s.status &&
           u.traversed == s.traversed && u.checked == s.checked;
    WaitingIs(u, x);
    hide Log;
    CrashIs(g, Next(g, s, GateWaits(x, Some(w)), 0));
    SameRoutes(g, r, s, Next(g, Next(g, s, GateWaits(x, Some(w)), 0), Crash, 0));
  }

  lemma WaitingIs(u: RunState, x: string)
    requires x in u.nodes && u.nodes[x].status.Running?
    ensures var t := Log(u, NodeWaiting(x), 0);
            && t.nodes.Keys == u.nodes.Keys && Has(t, x, Waiting)
            && (forall y :: y in u.nodes && y != x ==> t.nodes[y] == u.nodes[y])
            && t.waits == u.waits && t.status == u.status && t.traversed == u.traversed && t.checked == u.checked
  {
  }

  lemma BothRecorded(g: Graph, s: RunState, w: nat)
    ensures var t := LogAll(s, [Unprojected("external_event_received"), WaitCompleted(Some(Id(g.run, w)), None, "")],
                            0);
            t.nodes == s.nodes && t.status == s.status && SameAside(s, t) && t.traversed == s.traversed
  {
    LogTwo(s, Unprojected("external_event_received"), WaitCompleted(Some(Id(g.run, w)), None, ""), 0);
  }

  lemma CompleteIs(g: Graph, s: RunState, x: string, w: nat, route: string)
    requires s.status.RunRunning? && w in s.waits && s.waits[w] == WaitState(x, true)
    ensures var t := LogAll(s, [Unprojected("external_event_received"), WaitCompleted(Some(Id(g.run, w)), None, "")],
                            0);
            Next(g, s, CompleteWait(w, route), 0) ==
            Finish(g, t, x, RowOf(t.nodes, x).attemptCount, Some(route), 0)
  {
    RunSteps.CompleteWaitIs(g, s, w, route, 0);
    hide Next, Finish, LogAll;
  }

  lemma WaitSucceeds(g: Graph, r: Choice, s: RunState, x: string, w: nat)
    requires ValidGraph(g) && Plan(g, r) && x in r && OneWaits(g, r, s, x, w)
    ensures var t := Next(g, s, CompleteWait(w, r[x]), 0);
            Clean(g, r, t) && Has(t, x, Succeeded) && KeepsSuccess(s, t)
  {
    var b1, b2 := Unprojected("external_event_received"), WaitCompleted(Some(Id(g.run, w)), None, "");
    var t := LogAll(s, [b1, b2], 0);
    BothRecorded(g, s, w);
    hide Finish, ValidGraph, Plan, LogAll, Log, Routes;
    CompleteIs(g, s, x, w, r[x]);
    SameRoutes(g, r, s, t);
    FinishIsClean(g, r, t, x, RowOf(t.nodes, x).attemptCount, 0);
  }

  // ---- running a graph to its end ----

  const BEGIN: seq<(Step, int)> := [(BeginStep, 0), (ListNodes, 0)]

  /** Five or six steps that bring a ready node to success. */
  function Rounds(g: Graph, r: Choice, s: RunState, x: string): seq<(Step, int)>
    requires x in g.defs && x in r
  {
    BEGIN + [(Claim(x), 0)] +
    if IsGate(g, x) then [(GateWaits(x, Some(Unused(s))), 0), (Crash, 0), (CompleteWait(Unused(s), r[x]), 0)]
    else [(FlightSucceeds(x, r[x]), 0), (Crash, 0)]
  }

  lemma RunTwo(g: Graph, steps: seq<(Step, int)>, a: Step, b: Step)
    ensures Run(g, steps + [(a, 0), (b, 0)]) == Next(g, Next(g, Run(g, steps), a, 0), b, 0)
  {
    hide Run, Next;
    RunNext(g, steps, a, 0);
    RunNext(g, steps + [(a, 0)], b, 0);
    assert steps + [(a, 0), (b, 0)] == steps + [(a, 0)] + [(b, 0)];
  }

  lemma RoundSucceeds(g: Graph, r: Choice, steps: seq<(Step, int)>, x: string)
    requires ValidGraph(g) && Plan(g, r) && x in r && x in g.defs
    requires var s := Run(g, steps); Clean(g, r, s) && !Has(s, x, Succeeded) && Ready(g, s, x)
    ensures var s, t := Run(g, steps), Run(g, steps + Rounds(g, r, Run(g, steps), x));
            Clean(g, r, t) && Has(t, x, Succeeded) && KeepsSuccess(s, t)
  {
    hide Run, Next, Clean, Ready, ValidGraph, Plan, OneFlies, OneWaits, Inv, Unused;
    var s, begun := Run(g, steps), steps + BEGIN + [(Claim(x), 0)];
    RunTwo(g, steps, BeginStep, ListNodes);
    RunNext(g, steps + BEGIN, Claim(x), 0);
    ReadyNodeFlies(g, r, s, x);
    var t := Run(g, begun);
    if IsGate(g, x) {
      RunKeeps(g, begun);
      assert Unused(t) == Unused(s) by { SameUnused(s, t); }
      var w := Unused(s);
      PlanListens(g, r, x);
      GateBeginsToWait(g, r, t, x);
      RunTwo(g, begun, GateWaits(x, Some(w)), Crash);
      var waiting := begun + [(GateWaits(x, Some(w)), 0), (Crash, 0)];
      WaitSucceeds(g, r, Run(g, waiting), x, w);
      RunNext(g, waiting, CompleteWait(w, r[x]), 0);
      assert steps + Rounds(g, r, s, x) == waiting + [(CompleteWait(w, r[x]), 0)];
    } else {
      TaskSucceeds(g, r, t, x);
      RunTwo(g, begun, FlightSucceeds(x, r[x]), Crash);
      assert steps + Rounds(g, r, s, x) == begun + [(FlightSucceeds(x, r[x]), 0), (Crash, 0)];
    }
  }

  lemma PlanListens(g: Graph, r: Choice, x: string)
    requires Plan(g, r) && x in r && IsGate(g, x)
    ensures Listens(g, x)
  {
    assert Kept(g, r, x);
  }

  lemma SameUnused(s: RunState, t: RunState)
    requires s.waits == t.waits
    ensures Unused(s) == Unused(t)
  {
  }

  /** A node that is left out is done as soon as the node that blocks it is. */
  lemma LeftOutFollows(g: Graph, r: Choice, s: RunState, x: string)
    requires ValidGraph(g) && Clean(g, r, s) && x in g.defs && x !in r && LeftOut(g, r, x) && !Done(s, x)
    ensures Follows(g, Undone(g, s), x)
  {
    var m :| m in r && IsBlocked(g, m, Some(r[m]), x);
    var j :| 0 <= j < |g.edges| && Blocks(g, m, Some(r[m]), g.edges[j]) && g.edges[j].to == x;
    assert Routes(g, r, s, m);
    assert !Has(s, m, Skipped) by { if m in s.nodes { assert Tidy(r, m, s.nodes[m].status); } }
    assert g.edges[j].to == x && g.edges[j].from == m && m in Undone(g, s);
  }

  /** A kept node that waits for nothing undone is ready. */
  lemma KeptIsReady(g: Graph, r: Choice, s: RunState, x: string)
    requires ValidGraph(g) && Clean(g, r, s) && x in r && Kept(g, r, x) && !Follows(g, Undone(g, s), x)
    ensures Ready(g, s, x)
  {
    hide IsBlocked;
    forall i {:trigger g.edges[i]} | 0 <= i < |g.edges| && g.edges[i].to == x
      ensures IsDependency(g.edges[i].typ) ==> Done(s, g.edges[i].from)
      ensures g.edges[i].typ.RoutesTo? ==> g.edges[i].id in s.traversed
    {
      var m := g.edges[i].from;
      if g.edges[i].typ.RoutesTo? {
        assert Chosen(g, r, g.edges[i]) && Routes(g, r, s, m) && Done(s, m);
        assert Taken(g.edges[i], m, Some(r[m]));
      }
    }
  }

  /** Some node that is left is kept and ready. */
  lemma SomeNodeIsReady(g: Graph, r: Choice, s: RunState) returns (x: string)
    requires ValidGraph(g) && Plan(g, r) && Undone(g, s) != {} && Clean(g, r, s)
    ensures x in Undone(g, s) && x in r && x in g.defs && !Has(s, x, Succeeded) && Ready(g, s, x)
  {
    hide Clean, ValidGraph, Ready, Kept, LeftOut, Follows;
    var c := Undone(g, s);
    assert !Circle(g, c);
    x :| x in c && !Follows(g, c, x);
    if x !in r { LeftOutFollows(g, r, s, x); }
    KeptIsReady(g, r, s, x);
  }

  lemma {:induction false} DoneForGood(g: Graph, steps: seq<(Step, int)>, more: seq<(Step, int)>, y: string)
    requires ValidGraph(g) && Done(Run(g, steps), y)
    ensures Done(Run(g, steps + more), y)
    decreases |more|
  {
    hide Run, Next, Inv, ScanOk, ValidGraph;
    if |more| == 0 {
      assert steps + more == steps;
    } else {
      var init := more[..|more| - 1];
      DoneForGood(g, steps, init, y);
      Unsnoc(g, steps, more);
      RunKeeps(g, steps + init);
      StepKeeps(g, Run(g, steps + init), more[|more| - 1].0, more[|more| - 1].1);
    }
  }

  /** Every clean run of a graph with a plan can be brought to its end. */
  lemma {:induction false} RunsToItsEnd(g: Graph, r: Choice, steps: seq<(Step, int)>)
      returns (all: seq<(Step, int)>)
    requires ValidGraph(g) && Plan(g, r) && Clean(g, r, Run(g, steps))
    ensures Clean(g, r, Run(g, all)) && AllDone(g, Run(g, all))
    decreases |Undone(g, Run(g, steps))|
  {
    hide Run, Clean, Ready, ValidGraph, Plan;
    var s := Run(g, steps);
    if Undone(g, s) == {} {
      assert forall n :: n in g.defs && !Done(s, n) ==> n in Undone(g, s);
      return steps;
    }
    var x := SomeNodeIsReady(g, r, s);
    RoundSucceeds(g, r, steps, x);
    var round := Rounds(g, r, s, x);
    var t := Run(g, steps + round);
    forall y | y in Undone(g, t)
      ensures y in Undone(g, s)
    {
      if Done(s, y) { DoneForGood(g, steps, round, y); }
    }
    assert x !in Undone(g, t);
    SmallerSet(Undone(g, t), Undone(g, s));
    all := RunsToItsEnd(g, r, steps + round);
  }

  lemma SmallerSet<T>(a: set<T>, b: set<T>)
    requires a < b
    ensures |a| < |b|
  {
    assert b == a + (b - a);
    assert b - a != {};
  }

  lemma CleanEnds(g: Graph, r: Choice, s: RunState)
    requires ValidGraph(g) && Inv(g, s) && Clean(g, r, s) && AllDone(g, s) && g.order != []
    ensures Next(g, s, CompleteRun, 0).status.RunCompleted?
  {
    AllDoneEnds(g, s);
    hide Inv, AllDone, Routed, ValidGraph, Tidy, Next, EndOf;
    Completes(g, s, 0);
  }

  lemma Completes(g: Graph, s: RunState, at: int)
    requires s.status.RunRunning? && s.batch == map[] && !s.checked && EndOf(g, s) == Some(RunCompleted)
    ensures Next(g, s, CompleteRun, at).status.RunCompleted?
  {
    hide EndOf;
  }

  /** A graph with a plan has a run that completes. */
  lemma PlanCompletes(g: Graph, r: Choice)
    requires ValidGraph(g) && Plan(g, r) && g.order != []
    ensures exists steps :: Run(g, steps).status.RunCompleted?
  {
    hide Run, ValidGraph, Plan, Inv, ScanOk, Next;
    StartIsClean(g, r);
    var all := RunsToItsEnd(g, r, []);
    RunKeeps(g, all);
    CleanEnds(g, r, Run(g, all));
    RunNext(g, all, CompleteRun, 0);
  }

  lemma StartIsClean(g: Graph, r: Choice)
    ensures Clean(g, r, Run(g, []))
  {
  }

  /** A fork: a routes to b or to c. */
  const FORK: Graph := Graph(
    0, ["a", "b", "c"], ["a", "b", "c"],
    map["a" := Task(Pure, 1), "b" := Gate(true), "c" := Gate(false)],
    [EdgeDef("1", "a", "b", RoutesTo, "left"), EdgeDef("2", "a", "c", RoutesTo, "right")])

  /** Going left leaves c out, so that the run can complete although nothing ever finishes c. */
  lemma ForkHasPlan()
    ensures Plan(FORK, map["a" := "left", "b" := ""])
  {
    var r: Choice := map["a" := "left", "b" := ""];
    assert FORK.edges[0].to == "b" && FORK.edges[1].to == "c";
    assert r["a"] == "left" && Blocks(FORK, "a", Some(r["a"]), FORK.edges[1]);
    assert IsBlocked(FORK, "a", Some(r["a"]), "c");
    assert LeftOut(FORK, r, "c");
    assert Chosen(FORK, r, FORK.edges[0]);
    forall c: set<string>
      ensures !Circle(FORK, c)
    {
      if c != {} {
        var x :| x in c && (x == "a" || "a" !in c);
        assert !Follows(FORK, c, x);
      }
    }
  }

  // ---- gates that do not listen ----

  /** Running or cancelling a gate that does not listen never makes it succeed. */
  lemma DeafFlight(g: Graph, s: RunState, step: Step, at: int)
    requires OfFlight(step) && IsGate(g, step.node) && !g.defs[step.node].listens
    requires !Has(s, step.node, Succeeded)
    ensures !Has(Next(g, s, step, at), step.node, Succeeded)
  {
    hide Commit;
  }

  lemma DeafStays(g: Graph, s: RunState, step: Step, at: int, n: string)
    requires ValidGraph(g) && Inv(g, s) && ScanOk(g, s) && IsGate(g, n) && !g.defs[n].listens
    requires n in s.nodes && !Has(s, n, Succeeded)
    ensures !Has(Next(g, s, step, at), n, Succeeded)
  {
    hide Inv, ScanOk, ValidGraph, Next;
    if step.CancelRun? {
      CancelStepAt(g, s, at, n);
    } else if step.ListNodes? {
      ListingKeepsRows(g, s, at);
    } else if OfFlight(step) && step.node == n {
      DeafFlight(g, s, step, at);
    } else if Visits(s, step, n) {
      DeafVisit(g, s, step, at, n);
    } else {
      if Releases(s, step, n) { DeafIsNotReleased(g, s, step, n); }
      StepSpares(g, s, step, at, n);
    }
  }

  lemma ListingKeepsRows(g: Graph, s: RunState, at: int)
    ensures Next(g, s, ListNodes, at).nodes == s.nodes
  {
  }

  lemma DeafVisit(g: Graph, s: RunState, step: Step, at: int, n: string)
    requires ScanOk(g, s) && IsGate(g, n) && Visits(s, step, n) && !Has(s, n, Succeeded)
    ensures !Has(Next(g, s, step, at), n, Succeeded)
  {
    assert VisitOk(g, s, s.scan[0]);
  }

  lemma DeafIsNotReleased(g: Graph, s: RunState, step: Step, n: string)
    requires Inv(g, s) && IsGate(g, n) && !g.defs[n].listens
    ensures !Releases(s, step, n)
  {
    hide Inv;
    match step
    case Decide(a, _) => if a in s.approvals && s.approvals[a].verdict.Open? { ApprovalView(g, s, a); }
    case ExpireApproval(a) => if a in s.approvals && s.approvals[a].verdict.Open? { ApprovalView(g, s, a); }
    case CompleteWait(w, _) => if w in s.waits && s.waits[w].pending { WaitView(g, s, w); }
    case ExpireWait(w) => if w in s.waits && s.waits[w].pending { WaitView(g, s, w); }
    case _ =>
  }

  lemma RowlessDoesNotSucceed(g: Graph, s: RunState, step: Step, at: int, n: string)
    requires ValidGraph(g) && Inv(g, s) && n !in s.nodes
    ensures !Has(Next(g, s, step, at), n, Succeeded)
  {
    hide Inv, ValidGraph, Next;
    StepFlows(g, s, step, at);
  }

  /** A gate without an event type or a correlation key never succeeds. */
  lemma {:induction false} DeafGateNeverSucceeds(g: Graph, steps: seq<(Step, int)>, n: string)
    requires ValidGraph(g) && IsGate(g, n) && !g.defs[n].listens
    ensures !Has(Run(g, steps), n, Succeeded)
  {
    hide Next, Inv, ScanOk, ValidGraph;
    if |steps| > 0 {
      var init, step, at := steps[..|steps| - 1], steps[|steps| - 1].0, steps[|steps| - 1].1;
      DeafGateNeverSucceeds(g, init, n);
      RunKeeps(g, init);
      if n in Run(g, init).nodes {
        DeafStays(g, Run(g, init), step, at, n);
      } else {
        RowlessDoesNotSucceed(g, Run(g, init), step, at, n);
      }
    }
  }

  /** In a completed run every gate that does not listen was skipped. */
  lemma CompletedRunSkipsDeafGates(g: Graph, steps: seq<(Step, int)>, n: string)
    requires ValidGraph(g) && Run(g, steps).status.RunCompleted? && IsGate(g, n) && !g.defs[n].listens
    ensures Has(Run(g, steps), n, Skipped)
  {
    hide Run, ValidGraph;
    CompletedRunIsDone(g, steps);
    DeafGateNeverSucceeds(g, steps, n);
  }

  // ---- graphs without routes ----

  ghost predicate NoRoutes(g: Graph) {
    forall i {:trigger g.edges[i]} :: 0 <= i < |g.edges| ==> !g.edges[i].typ.RoutesTo?
  }

  ghost predicate AllListen(g: Graph) { forall n :: IsGate(g, n) ==> g.defs[n].listens }

  lemma {:induction false} NothingIsSkipped(g: Graph, steps: seq<(Step, int)>, n: string)
    requires ValidGraph(g) && NoRoutes(g)
    ensures !Has(Run(g, steps), n, Skipped)
  {
    hide Next, Inv, ScanOk, ValidGraph;
    if |steps| > 0 {
      var init := steps[..|steps| - 1];
      NothingIsSkipped(g, init, n);
      RunKeeps(g, init);
      StepFlows(g, Run(g, init), steps[|steps| - 1].0, steps[|steps| - 1].1);
    }
  }

  /** Without routes keeping every node is a plan. */
  lemma EverythingIsKept(g: Graph)
    requires NoRoutes(g) && AllListen(g) && forall c :: !Knot(g, c)
    ensures Plan(g, map n | n in g.defs :: "")
  {
    var r: Choice := map n | n in g.defs :: "";
    forall x | x in r
      ensures Kept(g, r, x)
    {
    }
    forall c
      ensures !Circle(g, c)
    {
      if Circle(g, c) { assert Knot(g, c); }
    }
  }

  lemma {:induction false} EmptyNeverCompletes(g: Graph, steps: seq<(Step, int)>)
    requires ValidGraph(g) && g.order == []
    ensures !Run(g, steps).status.RunCompleted?
  {
    hide Next, Inv, EndOf, ScanOk;
    if |steps| > 0 {
      var init, step, at := steps[..|steps| - 1], steps[|steps| - 1].0, steps[|steps| - 1].1;
      EmptyNeverCompletes(g, init);
      RunKeeps(g, init);
      StatusMoves(g, Run(g, init), step, at);
      NothingToComplete(g, Run(g, init));
    }
  }

  lemma NothingToComplete(g: Graph, s: RunState)
    requires ValidGraph(g) && g.order == []
    ensures EndOf(g, s) != Some(RunCompleted)
  {
    assert g.defs.Keys == {};
    assert |g.defs| == |g.defs.Keys|;
  }

  /** A graph without routes has a run that completes exactly if it has a node, all its gates listen, and
      there is no circle of nodes that wait for one another. */
  lemma CompletesExactlyWithoutKnot(g: Graph)
    requires ValidGraph(g) && NoRoutes(g)
    ensures (exists steps :: Run(g, steps).status.RunCompleted?) <==>
            g.order != [] && AllListen(g) && forall c :: !Knot(g, c)
  {
    hide Run, ValidGraph, Knot, NoRoutes, Plan;
    if g.order == [] {
      forall steps
        ensures !Run(g, steps).status.RunCompleted?
      {
        EmptyNeverCompletes(g, steps);
      }
    } else if n :| IsGate(g, n) && !g.defs[n].listens {
      forall steps
        ensures !Run(g, steps).status.RunCompleted?
      {
        NothingIsSkipped(g, steps, n);
        if Run(g, steps).status.RunCompleted? { CompletedRunSkipsDeafGates(g, steps, n); }
      }
    } else if c :| Knot(g, c) {
      forall steps
        ensures !Run(g, steps).status.RunCompleted?
      {
        KnotNeverCompletes(g, steps, c);
      }
    } else {
      EverythingIsKept(g);
      PlanCompletes(g, map n | n in g.defs :: "");
    }
  }
}
