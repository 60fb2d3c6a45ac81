/** One graph, the same answers from its executors, and two outcomes: whether the run can complete depends
    on which of two independent nodes finishes first. */
module RunOrder {
  import opened Events
  import opened OperationKeys
  import opened Options
  import opened RunEngine
  import opened RunRecovery
  import opened RunSafety
  import opened RunTheorems
  import opened RunEnding
  import opened RunRouting
  import opened RunDeadEnds

  /** c depends on a, and b routes to it on "yes". */
  const GRAPH: Graph := Graph(
    0, ["a", "b", "c"], ["a", "b", "c"],
    map["a" := Task(Pure, 1), "b" := Task(Pure, 1), "c" := Task(Pure, 1)],
    [EdgeDef("1", "a", "c", DependsOn, ""), EdgeDef("2", "b", "c", RoutesTo, "yes")])

  const STARTED: seq<(Step, int)> := [(BeginStep, 1), (ListNodes, 1), (Claim("a"), 2), (Claim("b"), 3)]
  const FIRST: (Step, int) := (FlightSucceeds("a", ""), 4)
  const SECOND: (Step, int) := (FlightSucceeds("b", "no"), 5)

  lemma GraphIsValid()
    ensures ValidGraph(GRAPH)
  {
    assert GRAPH.order[0] == "a" && GRAPH.order[1] == "b" && GRAPH.order[2] == "c" && GRAPH.sweep == GRAPH.order;
    assert GRAPH.edges[0].id == "1" && GRAPH.edges[1].id == "2";
  }

  /** a and b are running, c has no row, and nothing else has happened. */
  ghost predicate BothFly(s: RunState) {
    && s.status.RunRunning? && s.batch == map["a" := Flying(1), "b" := Flying(1)]
    && s.nodes.Keys == {"a", "b"} && Has(s, "a", Running) && Has(s, "b", Running)
    && s.traversed == {} && !s.checked && (forall i :: 0 <= i < |s.acts| ==> IsStart(s.acts[i]))
  }

  lemma Begins()
    ensures Next(GRAPH, START, BeginStep, 1) == START.(checked := true)
    ensures Next(GRAPH, START.(checked := true), ListNodes, 1) ==
            START.(batch := map["a" := Listed(1), "b" := Listed(1)], rounds := 1)
  {
    var s := START.(checked := true);
    assert GRAPH.edges[0].to == "c" && GRAPH.edges[1].to == "c";
    assert RunEngine.Eligible(GRAPH, s, "a") && RunEngine.Eligible(GRAPH, s, "b");
    assert !Ready(GRAPH, s, "c") && s.nodes == map[];
    assert forall n :: n in GRAPH.defs <==> n == "a" || n == "b" || n == "c";
    assert List(GRAPH, s) == map["a" := Listed(1), "b" := Listed(1)];
    assert "a" in List(GRAPH, s);
  }

  lemma ClaimIs(s: RunState, n: string, at: int)
    requires (n == "a" || n == "b") && IsListed(s, n) && n !in s.nodes && s.batch[n].attempt == 1
    ensures Next(GRAPH, s, Claim(n), at) ==
            Log(s, Started(n, 1, OperationKey(0, n, 1)), at).(batch := s.batch[n := Flying(1)])
  {
    hide Log, OperationKey;
    assert n in GRAPH.defs && Claimable(s, n) && GRAPH.run == 0;
  }

  lemma ClaimedIs(s: RunState, n: string, at: int)
    requires n !in s.nodes
    ensures var t := Log(s, Started(n, 1, OperationKey(0, n, 1)), at);
            && t.status == s.status && t.batch == s.batch && t.traversed == s.traversed && t.checked == s.checked
            && t.acts == s.acts + [Logged(Started(n, 1, OperationKey(0, n, 1)))] && Has(t, n, Running)
            && t.nodes.Keys == s.nodes.Keys + {n} && forall m :: m in s.nodes ==> t.nodes[m] == s.nodes[m]
  {
    hide OperationKey;
  }

  lemma Claims(s: RunState)
    requires s == START.(batch := map["a" := Listed(1), "b" := Listed(1)], rounds := 1)
    ensures BothFly(Next(GRAPH, Next(GRAPH, s, Claim("a"), 2), Claim("b"), 3))
  {
    hide Next, Log, OperationKey;
    ClaimIs(s, "a", 2);
    ClaimedIs(s, "a", 2);
    var t := Next(GRAPH, s, Claim("a"), 2);
    ClaimIs(t, "b", 3);
    ClaimedIs(t, "b", 3);
  }

  lemma StartedFlies()
    ensures BothFly(Run(GRAPH, STARTED))
  {
    hide Next, Run, BothFly;
    Begins();
    var s := START.(batch := map["a" := Listed(1), "b" := Listed(1)], rounds := 1);
    Claims(s);
    FourSteps(GRAPH, (BeginStep, 1), (ListNodes, 1), (Claim("a"), 2), (Claim("b"), 3));
  }

  /** The state in which the node m has just finished. */
  ghost function Ends(s: RunState, m: string, at: int): RunState { Log(Drop(s, m), Ended(m, 1, Finished, ""), at) }

  /** Only the row of m and the batch change, and nothing has been decided. */
  lemma EndsIs(s: RunState, m: string, other: string, at: int)
    requires BothFly(s) && ((m == "a" && other == "b") || (m == "b" && other == "a"))
    ensures var u := Ends(s, m, at);
            && u.nodes.Keys == {"a", "b"} && Has(u, m, Succeeded) && Has(u, other, Running) &&
               u.batch == map[other := Flying(1)]
            && u.status.RunRunning? && u.traversed == {} && !u.checked && !HasDecision(u.acts, "c")
  {
  }

  lemma SucceedsIs(s: RunState, m: string, route: string, at: int)
    requires BothFly(s) && (m == "a" || m == "b")
    ensures Next(GRAPH, s, FlightSucceeds(m, route), at) == Route(GRAPH, Ends(s, m, at), m, Some(route), at)
  {
    hide Route, Log;
    assert m in GRAPH.defs;
  }

  lemma EdgeFacts()
    ensures SeenTarget(GRAPH.edges, "a", "c") && IsBlocked(GRAPH, "b", Some("no"), "c")
    ensures forall x :: !IsBlocked(GRAPH, "a", Some(""), x)
    ensures forall u :: Has(u, "a", Succeeded) ==> DependenciesDone(GRAPH, u, "c")
  {
    assert GRAPH.edges[0].from == "a" && GRAPH.edges[1].from == "b";
    assert Blocks(GRAPH, "b", Some("no"), GRAPH.edges[1]);
  }

  /** When a finishes first, c gets a row, since its one dependency is done. */
  lemma FirstGivesRow(s: RunState)
    requires BothFly(s)
    ensures var t := Next(GRAPH, s, FIRST.0, 4);
            "c" in t.nodes && !Has(t, "c", Skipped) && IsFlying(t, "b") && Has(t, "b", Running)
  {
    hide Next, Route, ValidGraph, SeenTarget, DependenciesDone, HasDecision, IsBlocked, Summarize, BothFly, Ends;
    var u := Ends(s, "a", 4);
    GraphIsValid();
    EdgeFacts();
    EndsIs(s, "a", "b", 4);
    SucceedsIs(s, "a", "", 4);
    DependentGetsRow(GRAPH, u, "a", Some(""), 4, "c");
    RoutingIsExact(GRAPH, u, "a", Some(""), 4);
    RouteRoutes(GRAPH, u, "a", Some(""), 4);
  }

  /** When b finishes first, c has no row and is skipped. */
  lemma SecondSkips(s: RunState)
    requires BothFly(s)
    ensures var t := Next(GRAPH, s, SECOND.0, 5);
            && Has(t, "c", Skipped) && Has(t, "b", Succeeded) && Has(t, "a", Running)
            && t.status.RunRunning? && t.batch == map["a" := Flying(1)] && !t.checked
  {
    hide Next, Route, ValidGraph, IsBlocked, Summarize, BothFly, Ends;
    var u := Ends(s, "b", 5);
    GraphIsValid();
    EdgeFacts();
    EndsIs(s, "b", "a", 5);
    SucceedsIs(s, "b", "no", 5);
    RoutingIsExact(GRAPH, u, "b", Some("no"), 5);
    RouteRoutes(GRAPH, u, "b", Some("no"), 5);
  }

  /** Then a finishes too, and every node is done. */
  lemma ThenAllDone(s: RunState)
    requires Inv(GRAPH, s) && Has(s, "c", Skipped) && Has(s, "b", Succeeded) && Has(s, "a", Running)
    requires s.status.RunRunning? && s.batch == map["a" := Flying(1)] && !s.checked && ScanOk(GRAPH, s)
    ensures var t := Next(GRAPH, s, FIRST.0, 4);
            AllDone(GRAPH, t) && t.status.RunRunning? && t.batch == map[] && !t.checked
  {
    hide Next, Inv, ScanOk, ValidGraph, Summarize, Frozen, Finishes, Calm;
    var t := Next(GRAPH, s, FIRST.0, 4);
    GraphIsValid();
    SuccessFinishes(GRAPH, s, "a", "", 4);
    AHasSucceeded(s, t);
    StepKeeps(GRAPH, s, FIRST.0, 4);
    assert Done(s, "b") && Done(s, "c");
    BatchEmpties(s);
  }

  lemma AHasSucceeded(s: RunState, t: RunState)
    requires Finishes(GRAPH, s, t, "a", Some("")) && Has(s, "a", Running)
    ensures Done(t, "a")
  {
  }

  lemma BatchEmpties(s: RunState)
    requires s.status.RunRunning? && s.batch == map["a" := Flying(1)] && Has(s, "a", Running) && !s.checked
    ensures var t := Next(GRAPH, s, FIRST.0, 4); t.status.RunRunning? && t.batch == map[] && !t.checked
  {
    hide Log, Route, ValidGraph, Summarize;
    GraphIsValid();
    assert "a" in GRAPH.defs;
    var u := Ends(s, "a", 4);
    assert u.status.RunRunning? && u.batch == map[] && !u.checked by { EndsBatch(s); }
    RouteRoutes(GRAPH, u, "a", Some(""), 4);
  }

  lemma EndsBatch(s: RunState)
    requires s.batch == map["a" := Flying(1)]
    ensures var u := Ends(s, "a", 4); u.status == s.status && u.batch == map[] && u.checked == s.checked
  {
  }

  lemma DoneIsAtRest(t: RunState)
    requires Inv(GRAPH, t) && AllDone(GRAPH, t) && t.status.RunRunning? && t.batch == map[] && !t.checked
    ensures AtRest(GRAPH, t)
  {
    hide NodeOk, WaitOk, ApprovalOk, EdgeOk, Immovable;
    assert forall n :: n in GRAPH.defs ==> !RunEngine.Eligible(GRAPH, t, n);
    assert List(GRAPH, t) == map[];
  }

  /** a, then b: no continuation completes the run. b, then a: the next step completes it. */
  lemma OrderDecides(more: seq<(Step, int)>)
    ensures ValidGraph(GRAPH)
    ensures !Run(GRAPH, STARTED + [FIRST] + [SECOND] + more).status.RunCompleted?
    ensures Run(GRAPH, STARTED + [SECOND] + [FIRST] + [(CompleteRun, 6)]).status.RunCompleted?
  {
    GraphIsValid();
    StartedFlies();
    hide Next, Inv, ScanOk, ValidGraph, BothFly, IsBlocked, AtRest, AllDone, Run, Done;
    var s := Run(GRAPH, STARTED);
    RunNext(GRAPH, STARTED, FIRST.0, FIRST.1);
    FirstGivesRow(s);
    EdgeFacts();
    BlockedTargetNeedsNoRow(GRAPH, STARTED + [FIRST], "b", "no", 5, "c", more);
    RunNext(GRAPH, STARTED, SECOND.0, SECOND.1);
    SecondSkips(s);
    RunKeeps(GRAPH, STARTED + [SECOND]);
    RunNext(GRAPH, STARTED + [SECOND], FIRST.0, FIRST.1);
    ThenAllDone(Run(GRAPH, STARTED + [SECOND]));
    RunKeeps(GRAPH, STARTED + [SECOND] + [FIRST]);
    DoneIsAtRest(Run(GRAPH, STARTED + [SECOND] + [FIRST]));
    RestCompletesNowOrNever(GRAPH, STARTED + [SECOND] + [FIRST], [], 6);
  }
}
