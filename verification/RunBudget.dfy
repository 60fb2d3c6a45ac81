/** How often nodes can start, and how many steps a driver can take, when nothing is recovered. */
module RunBudget {
  import opened Collections
  import opened Events
  import opened OperationKeys
  import opened Options
  import opened RunEngine
  import opened RunRecovery
  import opened RunSafety
  import RunSteps
  import opened RunTheorems

  // ---- the budget of a node ----

  /** Routers and gates have one attempt. */
  function Allowed(g: Graph, n: string): int
    requires n in g.defs
  {
    if g.defs[n].Task? then g.defs[n].maxAttempts else 1
  }

  /** Attempts a node has used up; a node that will not start again has used them all. */
  function Spent(g: Graph, s: RunState, n: string): int
    requires n in g.defs
  {
    var row := RowOf(s.nodes, n);
    if Settled(row.status) || row.status.CancelRequested? then Allowed(g, n) else row.attemptCount
  }

  ghost predicate BudgetAt(g: Graph, s: RunState, n: string)
    requires n in g.defs
  {
    var row := RowOf(s.nodes, n);
    && 0 <= row.attemptCount <= Allowed(g, n)
    && (Claimable(s, n) ==> row.attemptCount < Allowed(g, n))
    && Summarize(s.acts, n).starts <= row.attemptCount
    && (n in s.batch ==> s.batch[n].attempt <= Allowed(g, n))
  }

  ghost predicate Budget(g: Graph, s: RunState) {
    forall n {:trigger BudgetAt(g, s, n)} :: n in g.defs ==> BudgetAt(g, s, n)
  }

  /** Listed, and a claim would start it. */
  predicate Armed(s: RunState, n: string) { IsListed(s, n) && Claimable(s, n) }

  ghost predicate SpendsAt(g: Graph, s: RunState, t: RunState, n: string)
    requires n in g.defs
  {
    Spent(g, t, n) >= Spent(g, s, n) && (Armed(s, n) ==> Armed(t, n) || Spent(g, t, n) > Spent(g, s, n))
  }

  /** Attempts are only used up, and a node that stops being armed has used one. */
  ghost predicate Spends(g: Graph, s: RunState, t: RunState) {
    t.rounds == s.rounds && forall n {:trigger SpendsAt(g, s, t, n)} :: n in g.defs ==> SpendsAt(g, s, t, n)
  }

  predicate Finally(st: NodeStatus) { st.Succeeded? || st.Failed? || st.Skipped? }

  /** Events that respect the budget in this state. */
  ghost predicate Affordable(g: Graph, s: RunState, b: Body) {
    match b
    case NodeStarted(_, _, _, _, _, _, _) => false
    case NodeEnded(n, a, o, _, _, _, _) =>
      n in g.defs && a <= Allowed(g, n) && (o.Unsure? ==> !IsListed(s, n) && !Finally(RowOf(s.nodes, n).status))
    case NodeRequeued(n, _, resume) => n in s.nodes &&
                                       (Cancelling(s.nodes[n].status) || (!resume && s.nodes[n].status.Eligible?))
    case NodeAttemptFailed(n, _, _) =>
      n in g.defs && n in s.nodes &&
      (s.nodes[n].status.Running? || s.nodes[n].status.Leased? ==>
       s.nodes[n].attemptCount < Allowed(g, n) && !IsListed(s, n))
    case NodeWaiting(n) => !IsListed(s, n) && !Finally(RowOf(s.nodes, n).status)
    case NodeReconciling(n) => !IsListed(s, n) && !Finally(RowOf(s.nodes, n).status)
    case _ => true
  }

  lemma {:induction false} EnsureLinksRows(nodes: map<string, NodeRow>, links: seq<Link>)
    ensures forall x :: RowOf(EnsureLinks(nodes, links), x) == RowOf(nodes, x)
    decreases |links|
  {
    if |links| > 0 { EnsureLinksRows(Ensure(nodes, links[0].target), links[1..]); }
  }

  lemma StillRows(s: RunState, b: Body, at: int)
    requires !MovesNode(b)
    ensures forall x :: RowOf(Log(s, b, at).nodes, x) == RowOf(s.nodes, x)
  {
    if b.DecisionRecorded? { EnsureLinksRows(Ensure(s.nodes, b.node), b.links); }
  }

  /** What an event makes of one node. */
  lemma LogAt(s: RunState, b: Body, at: int, x: string)
    ensures var t := Log(s, b, at);
            && t.batch == s.batch && t.rounds == s.rounds
            && (b.NodeStarted? || Summarize(t.acts, x).starts == Summarize(s.acts, x).starts)
            && (b.NodeStarted? && b.node == x ==> Summarize(t.acts, x).starts == Summarize(s.acts, x).starts + 1)
            && (b.NodeStarted? && b.node != x ==> Summarize(t.acts, x).starts == Summarize(s.acts, x).starts)
            && RowOf(t.nodes, x) ==
               if MovesNode(b) && b.node == x && (NeedsNode(b) ==> x in s.nodes)
               then NodeAfter(RowOf(s.nodes, x), b, at)
               else RowOf(s.nodes, x)
  {
    SummarizeNext(s.acts, Logged(b), x);
    if !MovesNode(b) { StillRows(s, b, at); }
  }

  /** Claimability in terms of the row. */
  lemma ClaimableRow(s: RunState, n: string)
    ensures Claimable(s, n) <==> RowOf(s.nodes, n).status.Eligible? || RowOf(s.nodes, n).status.Pending?
  {
  }

  lemma LogSpendsAt(g: Graph, s: RunState, b: Body, at: int, n: string)
    requires n in g.defs && BudgetAt(g, s, n) && Affordable(g, s, b)
    ensures BudgetAt(g, Log(s, b, at), n) && SpendsAt(g, s, Log(s, b, at), n)
  {
    hide Log, Summarize, Claimable;
    LogAt(s, b, at, n);
    ClaimableRow(s, n);
    ClaimableRow(Log(s, b, at), n);
  }

  lemma LogSpends(g: Graph, s: RunState, b: Body, at: int)
    requires Budget(g, s) && Affordable(g, s, b)
    ensures Budget(g, Log(s, b, at)) && Spends(g, s, Log(s, b, at))
  {
    hide BudgetAt, SpendsAt, Affordable, Touch;
    forall n | n in g.defs
      ensures BudgetAt(g, Log(s, b, at), n) && SpendsAt(g, s, Log(s, b, at), n)
    {
      assert BudgetAt(g, s, n);
      LogSpendsAt(g, s, b, at, n);
    }
  }

  lemma SpendsTrans(g: Graph, s: RunState, t: RunState, u: RunState)
    requires Spends(g, s, t) && Spends(g, t, u)
    ensures Spends(g, s, u)
  {
    hide Spent, Armed;
    forall n | n in g.defs
      ensures SpendsAt(g, s, u, n)
    {
      assert SpendsAt(g, s, t, n) && SpendsAt(g, t, u, n);
    }
  }

  lemma SpendsSelf(g: Graph, s: RunState)
    ensures Spends(g, s, s)
  {
  }

  /** t follows s within the budget. */
  ghost predicate Thrifty(g: Graph, s: RunState, t: RunState) { Budget(g, t) && Spends(g, s, t) }

  lemma ThriftyTrans(g: Graph, s: RunState, t: RunState, u: RunState)
    requires Thrifty(g, s, t) && Thrifty(g, t, u)
    ensures Thrifty(g, s, u)
  {
    hide Spends, Budget;
    SpendsTrans(g, s, t, u);
  }

  lemma ThriftySelf(g: Graph, s: RunState)
    requires Budget(g, s)
    ensures Thrifty(g, s, s)
  {
    SpendsSelf(g, s);
  }

  lemma LogThrifty(g: Graph, s: RunState, b: Body, at: int)
    requires Budget(g, s) && Affordable(g, s, b)
    ensures Thrifty(g, s, Log(s, b, at)) && Budget(g, Log(s, b, at))
  {
    hide Budget, Spends, Affordable, Log;
    LogSpends(g, s, b, at);
  }

  /** Events that any state can afford. */
  predicate Safe(b: Body) {
    b.EdgeTraversed? || b.DecisionRecorded? || b.NodeSkipped? || b.NodeCancelled? || b.NodeCancelRequested? ||
    b.WaitRequested? || b.WaitCompleted? || b.WaitExpired? || b.WaitCancelled? || b.ApprovalRequested? ||
    b.ApprovalDecided? || b.RunEnded? || b.Unprojected?
  }

  ghost predicate AllSafe(bs: seq<Body>) { forall b :: b in bs ==> Safe(b) }

  lemma SafeIsAffordable(g: Graph, s: RunState, b: Body)
    requires Safe(b)
    ensures Affordable(g, s, b)
  {
  }

  lemma SafeThrifty(g: Graph, s: RunState, b: Body, at: int)
    requires Budget(g, s) && Safe(b)
    ensures Thrifty(g, s, Log(s, b, at)) && Budget(g, Log(s, b, at))
  {
    hide Budget, Thrifty, Affordable, Log;
    SafeIsAffordable(g, s, b);
    LogThrifty(g, s, b, at);
  }

  lemma {:induction false} LogAllThrifty(g: Graph, s: RunState, bs: seq<Body>, at: int)
    requires Budget(g, s) && AllSafe(bs)
    ensures Thrifty(g, s, LogAll(s, bs, at)) && Budget(g, LogAll(s, bs, at))
    decreases |bs|
  {
    hide Thrifty, Budget, Log;
    if |bs| == 0 {
      ThriftySelf(g, s);
    } else {
      SafeThrifty(g, s, bs[0], at);
      LogAllThrifty(g, Log(s, bs[0], at), bs[1..], at);
      ThriftyTrans(g, s, Log(s, bs[0], at), LogAll(s, bs, at));
    }
  }

  lemma QuietIsSafe(g: Graph, n: string, bs: seq<Body>)
    requires AllQuiet(g, n, bs)
    ensures AllSafe(bs)
  {
    forall b | b in bs
      ensures Safe(b)
    {
      assert Quiet(g, n, b);
    }
  }

  // ---- the parts of a step ----

  lemma FinishThrifty(g: Graph, s: RunState, n: string, a: int, route: Option<string>, at: int)
    requires ValidGraph(g) && n in g.defs && Budget(g, s) && a <= Allowed(g, n)
    ensures Thrifty(g, s, Finish(g, s, n, a, route, at))
  {
    hide AllQuiet, Thrifty, Budget, LogAll, ValidGraph, AllSafe, Log;
    var es, blocked := g.edges, Blocked(g, g.edges, n, route);
    var r := Log(s, Ended(n, a, Finished, ""), at);
    LogThrifty(g, s, Ended(n, a, Finished, ""), at);
    TraversalsAreQuiet(g, es, n, route);
    QuietIsSafe(g, n, Traversals(es, n, route));
    LogAllThrifty(g, r, Traversals(es, n, route), at);
    var t := LogAll(r, Traversals(es, n, route), at);
    BlockedAreTargets(g, es, n, route);
    SkipsAreQuiet(g, t.nodes, n, blocked);
    QuietIsSafe(g, n, Skips(t.nodes, blocked));
    LogAllThrifty(g, t, Skips(t.nodes, blocked), at);
    var u := LogAll(t, Skips(t.nodes, blocked), at);
    DecisionsAreQuiet(g, n, route);
    QuietIsSafe(g, n, Decisions(g, n, route));
    LogAllThrifty(g, u, Decisions(g, n, route), at);
    var v := LogAll(u, Decisions(g, n, route), at);
    EligibilityIsQuiet(g, v, es, n);
    QuietIsSafe(g, n, EligibilityDecisions(g, v, es, n));
    LogAllThrifty(g, v, EligibilityDecisions(g, v, es, n), at);
    ThriftyTrans(g, s, r, t);
    ThriftyTrans(g, s, t, u);
    ThriftyTrans(g, s, u, v);
    ThriftyTrans(g, s, v, Finish(g, s, n, a, route, at));
  }

  lemma CountAllowed(g: Graph, s: RunState, n: string)
    requires Budget(g, s) && n in g.defs
    ensures RowOf(s.nodes, n).attemptCount <= Allowed(g, n) && (n in s.batch ==> s.batch[n].attempt <= Allowed(g, n))
  {
    assert BudgetAt(g, s, n);
  }

  lemma ResolveThrifty(g: Graph, s: RunState, n: string, route: Option<string>, at: int)
    requires ValidGraph(g) && n in g.defs && Budget(g, s)
    ensures Thrifty(g, s, Resolve(g, s, n, route, at))
  {
    hide Thrifty, Budget, Log, Finish, ValidGraph;
    var a := RowOf(s.nodes, n).attemptCount;
    CountAllowed(g, s, n);
    if route.Some? { FinishThrifty(g, s, n, a, route, at); } else { LogThrifty(g, s, Ended(n, a, Failure, ""), at); }
  }

  lemma DropThrifty(g: Graph, s: RunState, n: string)
    requires Budget(g, s) && !Armed(s, n)
    ensures Thrifty(g, s, Drop(s, n)) && Budget(g, Drop(s, n))
  {
    var t := Drop(s, n);
    forall x | x in g.defs
      ensures BudgetAt(g, t, x) && SpendsAt(g, s, t, x)
    {
      assert BudgetAt(g, s, x);
    }
  }

  lemma DropLogSwap(s: RunState, n: string, b: Body, at: int)
    ensures Log(Drop(s, n), b, at) == Drop(Log(s, b, at), n)
  {
  }

  lemma FlyingIsNotArmed(s: RunState, n: string, b: Body, at: int)
    requires !IsListed(s, n)
    ensures !Armed(s, n) && !Armed(Log(s, b, at), n)
  {
  }

  lemma DropLogThrifty(g: Graph, s: RunState, n: string, b: Body, at: int)
    requires Budget(g, s) && Affordable(g, s, b) && !IsListed(s, n)
    ensures Thrifty(g, s, Log(Drop(s, n), b, at))
  {
    hide Thrifty, Budget, Log, Affordable, Drop, Armed;
    DropLogSwap(s, n, b, at);
    LogThrifty(g, s, b, at);
    FlyingIsNotArmed(s, n, b, at);
    DropThrifty(g, Log(s, b, at), n);
    ThriftyTrans(g, s, Log(s, b, at), Log(Drop(s, n), b, at));
  }

  lemma FailedIsNotArmed(s: RunState, n: string, a: int, key: string, at: int)
    ensures !Armed(Log(s, Ended(n, a, Failure, key), at), n)
  {
  }

  lemma PreFailThrifty(g: Graph, s: RunState, n: string, key: string, at: int)
    requires Budget(g, s) && IsListed(s, n) && n in g.defs
    ensures Thrifty(g, s, Log(Drop(s, n), Ended(n, s.batch[n].attempt, Failure, key), at))
  {
    hide Thrifty, Budget, Log, Drop, Armed;
    var a := s.batch[n].attempt;
    var b := Ended(n, a, Failure, key);
    CountAllowed(g, s, n);
    DropLogSwap(s, n, b, at);
    LogThrifty(g, s, b, at);
    FailedIsNotArmed(s, n, a, key, at);
    DropThrifty(g, Log(s, b, at), n);
    ThriftyTrans(g, s, Log(s, b, at), Log(Drop(s, n), b, at));
  }

  lemma CommitThrifty(g: Graph, s: RunState, n: string, a: int, route: Option<string>, at: int)
    requires ValidGraph(g) && n in g.defs && Budget(g, s) && a <= Allowed(g, n)
    ensures Thrifty(g, s, Commit(g, s, n, a, route, at))
  {
    hide Thrifty, Budget, Log, Finish, ValidGraph;
    ThriftySelf(g, s);
    SafeThrifty(g, s, NodeCancelled(n, a), at);
    FinishThrifty(g, s, n, a, route, at);
  }

  lemma ClaimIs(g: Graph, s: RunState, n: string, at: int)
    requires IsListed(s, n) && n in g.defs && Claimable(s, n)
    ensures DoClaim(g, s, n, at) == Log(s, StartBody(g, s, n), at).(batch := s.batch[n := Flying(s.batch[n].attempt)])
    ensures StartBody(g, s, n).NodeStarted? && StartBody(g, s, n).node == n
    ensures StartBody(g, s, n).attemptNo == if g.defs[n].Task? then s.batch[n].attempt else 1
  {
    hide Log;
  }

  /** A node that a claim would start is listed for its next attempt. */
  lemma ListedIsKnown(g: Graph, s: RunState, n: string)
    requires Inv(g, s) && IsListed(s, n) && n in g.defs && Claimable(s, n)
    ensures s.batch[n].attempt == RowOf(s.nodes, n).attemptCount + 1
  {
    assert NodeOk(g, s, n);
    hide Inv, Summarize, Ready, Justified;
  }

  lemma StartThriftyAt(g: Graph, s: RunState, n: string, at: int, x: string)
    requires Inv(g, s) && IsListed(s, n) && n in g.defs && Claimable(s, n) && x in g.defs && BudgetAt(g, s, x)
    ensures var t := DoClaim(g, s, n, at); BudgetAt(g, t, x) && SpendsAt(g, s, t, x)
  {
    ListedIsKnown(g, s, n);
    hide Log, Claimable, Inv, DoClaim, StartBody;
    ClaimIs(g, s, n, at);
    LogAt(s, StartBody(g, s, n), at, x);
    ClaimableRow(s, x);
    ClaimableRow(DoClaim(g, s, n, at), x);
  }

  lemma ClaimThrifty(g: Graph, s: RunState, n: string, at: int)
    requires Inv(g, s) && Budget(g, s) && IsListed(s, n) && n in g.defs
    ensures Thrifty(g, s, DoClaim(g, s, n, at))
  {
    if Claimable(s, n) {
      hide BudgetAt, SpendsAt, Inv, Claimable, Touch;
      forall x | x in g.defs
        ensures BudgetAt(g, DoClaim(g, s, n, at), x) && SpendsAt(g, s, DoClaim(g, s, n, at), x)
      {
        assert BudgetAt(g, s, x);
        StartThriftyAt(g, s, n, at, x);
      }
    } else {
      DropThrifty(g, s, n);
    }
  }

  lemma AsideThrifty(g: Graph, s: RunState, t: RunState)
    requires Budget(g, s) && t == s.(checked := t.checked, scan := t.scan)
    ensures Thrifty(g, s, t)
  {
    forall x | x in g.defs
      ensures BudgetAt(g, t, x) && SpendsAt(g, s, t, x)
    {
      assert BudgetAt(g, s, x);
    }
  }

  lemma ListBudget(g: Graph, s: RunState)
    requires Budget(g, s)
    ensures Budget(g, Next(g, s, ListNodes, 0))
  {
    RunSteps.ListIs(g, s, 0);
    hide Next, Summarize;
    var t := Next(g, s, ListNodes, 0);
    forall x | x in g.defs
      ensures BudgetAt(g, t, x)
    {
      assert BudgetAt(g, s, x);
    }
  }

  lemma RunningCount(g: Graph, s: RunState, n: string)
    requires Inv(g, s) && IsFlying(s, n) && IsTask(g, n)
    ensures n in s.nodes && (s.nodes[n].status.Running? ==> s.nodes[n].attemptCount == s.batch[n].attempt)
  {
    assert NodeOk(g, s, n);
  }

  lemma RequeueView(g: Graph, s: RunState, n: string)
    requires Inv(g, s) && IsRequeueing(s, n)
    ensures n in g.defs && n in s.nodes && (s.nodes[n].status.Eligible? || Cancelling(s.nodes[n].status))
  {
    assert NodeOk(g, s, n);
  }

  lemma BatchAtThrifty(g: Graph, s: RunState, n: string, f: Flight)
    requires Budget(g, s) && n in s.batch && !IsListed(s, n) && !f.Listed? && f.attempt == s.batch[n].attempt
    ensures Thrifty(g, s, s.(batch := s.batch[n := f]))
  {
    var t := s.(batch := s.batch[n := f]);
    forall x | x in g.defs
      ensures BudgetAt(g, t, x) && SpendsAt(g, s, t, x)
    {
      assert BudgetAt(g, s, x);
    }
  }

  lemma FlightFailsThrifty(g: Graph, s: RunState, n: string, at: int)
    requires Inv(g, s) && Budget(g, s) && IsFlying(s, n) && IsTask(g, n)
    ensures Thrifty(g, s, Next(g, s, FlightFails(n), at))
  {
    var a := s.batch[n].attempt;
    RunningCount(g, s, n);
    FlyingView(g, s, n);
    CountAllowed(g, s, n);
    hide Inv, Budget, Thrifty, Log;
    if a >= g.defs[n].maxAttempts {
      DropLogThrifty(g, s, n, Ended(n, a, Failure, ""), at);
    } else {
      var t := Log(s, NodeAttemptFailed(n, a, ""), at);
      LogThrifty(g, s, NodeAttemptFailed(n, a, ""), at);
      SameBatch(s, NodeAttemptFailed(n, a, ""), at);
      BatchAtThrifty(g, t, n, Requeueing(a));
      ThriftyTrans(g, s, t, t.(batch := t.batch[n := Requeueing(a)]));
    }
  }

  lemma SameBatch(s: RunState, b: Body, at: int)
    ensures Log(s, b, at).batch == s.batch
  {
  }

  lemma WaitingThrifty(g: Graph, s: RunState, n: string, hold: Body, at: int)
    requires Budget(g, s) && Safe(hold) && !MovesNode(hold) && !hold.DecisionRecorded? && n in s.nodes
    requires s.nodes[n].status.Running? && !IsListed(s, n)
    ensures Thrifty(g, s, LogAll(s, [hold, NodeWaiting(n)], at))
    ensures Thrifty(g, s, Log(s, NodeWaiting(n), at))
  {
    var t := Log(s, hold, at);
    StillRows(s, hold, at);
    assert RowOf(t.nodes, n) == RowOf(s.nodes, n);
    SameBatch(s, hold, at);
    LogTwo(s, hold, NodeWaiting(n), at);
    hide Budget, Thrifty, Log;
    SafeThrifty(g, s, hold, at);
    LogThrifty(g, t, NodeWaiting(n), at);
    LogThrifty(g, s, NodeWaiting(n), at);
    ThriftyTrans(g, s, t, Log(t, NodeWaiting(n), at));
  }

  lemma HoldThrifty(g: Graph, s: RunState, n: string, w: Option<nat>, at: int)
    requires Inv(g, s) && Budget(g, s) && IsFlying(s, n)
    ensures Thrifty(g, s, DoAskApproval(g, Drop(s, n), n, at))
    ensures Thrifty(g, s, DoGateWaits(g, Drop(s, n), n, w, at))
  {
    var u := Drop(s, n);
    FlyingView(g, s, n);
    DropThrifty(g, s, n);
    hide Inv, Budget, Thrifty, Log, LogAll;
    ThriftySelf(g, u);
    if s.nodes[n].status.Running? {
      WaitingThrifty(g, u, n, ApprovalRequested(n, "action", "scope", 0), at);
      if w.Some? { WaitingThrifty(g, u, n, WaitRequested(Some(Id(g.run, w.value)), n, "type", "key", "{}", 0), at); }
    }
    ThriftyTrans(g, s, u, DoAskApproval(g, u, n, at));
    ThriftyTrans(g, s, u, DoGateWaits(g, u, n, w, at));
  }

  // ---- steps ----

  predicate Recovers(step: Step) { step.Recover? || step.Reconcile? }

  /** Steps that lose a node of the batch without a word. */
  predicate Loses(step: Step) { step.FlightLost? || step.Crash? }

  lemma FlightStepThrifty(g: Graph, s: RunState, step: Step, at: int)
    requires ValidGraph(g) && Inv(g, s) && ScanOk(g, s) && Budget(g, s)
    requires step.Claim? || step.PreFail? || step.FlightFails? || step.FlightRequeues? || step.FlightUncertain? ||
             step.FlightCancelled? || step.FlightDies? || step.FlightSucceeds? || step.AskApproval? || step.GateWaits?
    ensures Thrifty(g, s, Next(g, s, step, at))
  {
    hide Inv, Log, ValidGraph, Commit, DoAskApproval, DoGateWaits, DoClaim, Budget, Thrifty;
    ThriftySelf(g, s);
    match step
    case Claim(n) => if IsListed(s, n) && n in g.defs { ClaimThrifty(g, s, n, at); }
    case PreFail(n, rejected) =>
      if IsListed(s, n) && n in g.defs {
        PreFailThrifty(g, s, n, if rejected then OperationKey(g.run, n, s.batch[n].attempt) else "", at);
      }
    case FlightFails(n) => if IsFlying(s, n) && IsTask(g, n) { FlightFailsThrifty(g, s, n, at); }
    case FlightRequeues(n) =>
      if IsRequeueing(s, n) {
        RequeueView(g, s, n);
        if Cancelling(s.nodes[n].status) {
          DropThrifty(g, s, n);
        } else {
          DropLogThrifty(g, s, n, NodeRequeued(n, s.batch[n].attempt, false), at);
        }
      }
    case FlightUncertain(n) =>
      if IsFlying(s, n) && n in g.defs {
        CountAllowed(g, s, n);
        FlyingView(g, s, n);
        DropLogThrifty(g, s, n, Ended(n, s.batch[n].attempt, Unsure, ""), at);
      }
    case FlightCancelled(n) => if IsFlying(s, n) { DropLogThrifty(g, s, n, NodeCancelled(n, s.batch[n].attempt), at); }
    case FlightDies(n) =>
      if IsFlying(s, n) && n in g.defs {
        CountAllowed(g, s, n);
        DropLogThrifty(g, s, n, Ended(n, s.batch[n].attempt, Failure, ""), at);
      }
    case FlightSucceeds(n, route) =>
      if IsFlying(s, n) && n in g.defs {
        CountAllowed(g, s, n);
        DropThrifty(g, s, n);
        var r := Some(if IsRouter(g, n) then "" else route);
        CommitThrifty(g, Drop(s, n), n, s.batch[n].attempt, r, at);
        ThriftyTrans(g, s, Drop(s, n), Commit(g, Drop(s, n), n, s.batch[n].attempt, r, at));
      }
    case AskApproval(n) => if IsFlying(s, n) { HoldThrifty(g, s, n, None, at); }
    case GateWaits(n, w) => if IsFlying(s, n) { HoldThrifty(g, s, n, w, at); }
  }

  lemma {:induction false} CancelListsAreSafe(g: Graph, s: RunState, order: seq<string>)
    ensures AllSafe(CancelRows(s, order)) && AllSafe(CancelOthers(s, order))
  {
    if |order| > 0 { CancelListsAreSafe(g, s, order[..|order| - 1]); }
  }

  lemma {:induction false} CancelWaitsAreSafe(g: Graph, s: RunState, k: nat)
    ensures AllSafe(CancelWaits(g, s, k))
  {
    if k > 0 { CancelWaitsAreSafe(g, s, k - 1); }
  }

  lemma CancelThrifty(g: Graph, s: RunState, at: int)
    requires Budget(g, s)
    ensures Thrifty(g, s, DoCancel(g, s, at))
  {
    hide LogAll, Log, WaitLimit, Budget, Thrifty;
    var bs := CancelRows(s, g.order) + CancelOthers(s, g.order) + CancelWaits(g, s, WaitLimit(s.waits));
    CancelListsAreSafe(g, s, g.order);
    CancelWaitsAreSafe(g, s, WaitLimit(s.waits));
    LogAllThrifty(g, s, bs, at);
    var t := LogAll(s, bs, at);
    SafeThrifty(g, t, RunEnded(RunCancelled, ""), at);
    ThriftyTrans(g, s, t, Log(t, RunEnded(RunCancelled, ""), at));
  }

  lemma SafeResolveThrifty(g: Graph, s: RunState, bs: seq<Body>, n: string, route: Option<string>, at: int)
    requires ValidGraph(g) && n in g.defs && Budget(g, s) && AllSafe(bs)
    ensures Thrifty(g, s, Resolve(g, LogAll(s, bs, at), n, route, at))
  {
    hide LogAll, Budget, Thrifty, Resolve, ValidGraph;
    LogAllThrifty(g, s, bs, at);
    ResolveThrifty(g, LogAll(s, bs, at), n, route, at);
    ThriftyTrans(g, s, LogAll(s, bs, at), Resolve(g, LogAll(s, bs, at), n, route, at));
  }

  lemma ExpireThrifty(g: Graph, s: RunState, a: nat, at: int)
    requires ValidGraph(g) && Budget(g, s) && a in s.approvals && s.approvals[a].node in g.defs
    ensures Thrifty(g, s, DoExpireApproval(g, s, a, at))
  {
    var n, r := s.approvals[a].node, Log(s, Unprojected("approval_expired"), at);
    var t := r.(approvals := s.approvals[a := s.approvals[a].(verdict := Expired)]);
    SafeThrifty(g, s, Unprojected("approval_expired"), at);
    ApprovalsDoNotCount(g, s, r, t);
    hide Log, Budget, Thrifty, Resolve, ValidGraph;
    ResolveThrifty(g, t, n, RouteWith(g.edges, n, "expired", "timeout"), at);
    ThriftyTrans(g, s, t, DoExpireApproval(g, s, a, at));
  }

  lemma ApprovalsDoNotCount(g: Graph, s: RunState, r: RunState, t: RunState)
    requires Thrifty(g, s, r) && t == r.(approvals := t.approvals)
    ensures Thrifty(g, s, t) && Budget(g, t)
  {
    forall x | x in g.defs
      ensures BudgetAt(g, t, x) && SpendsAt(g, s, t, x)
    {
      assert BudgetAt(g, r, x) && SpendsAt(g, s, r, x);
    }
  }

  lemma StepThrifty(g: Graph, s: RunState, step: Step, at: int)
    requires ValidGraph(g) && Inv(g, s) && ScanOk(g, s) && Budget(g, s) && !Recovers(step) && !Loses(step) &&
             !step.ListNodes?
    ensures Thrifty(g, s, Next(g, s, step, at))
  {
    hide Inv, Log, ValidGraph, Budget, Thrifty, DoCancel, DoExpireApproval, Resolve, EndOf, ScanOf;
    ThriftySelf(g, s);
    match step
    case BeginStep => AsideThrifty(g, s, s.(checked := true));
    case BeginScan(leased) => AsideThrifty(g, s, s.(scan := ScanOf(s, leased, g.sweep)));
    case CancelRun => CancelThrifty(g, s, at);
    case AbandonRun => SafeThrifty(g, s, RunEnded(RunAbandoned, ""), at);
    case CompleteRun => if EndOf(g, s).Some? { SafeThrifty(g, s, RunEnded(EndOf(g, s).value, ""), at); }
    case Decide(a, granted) =>
      if a in s.approvals && s.approvals[a].verdict.Open? {
        ApprovalView(g, s, a);
        var n, b := s.approvals[a].node, ApprovalDecided(granted, Id(g.run, a), "actor", "key");
        LogOne(s, b, at);
        SafeResolveThrifty(g, s, [b], n,
                           if granted then Some("success") else RouteWith(g.edges, n, "denied", "failure"), at);
      }
    case ExpireApproval(a) =>
      if a in s.approvals && s.approvals[a].verdict.Open? {
        ApprovalView(g, s, a);
        ExpireThrifty(g, s, a, at);
      }
    case CompleteWait(w, route) =>
      if w in s.waits && s.waits[w].pending {
        WaitView(g, s, w);
        SafeResolveThrifty(g, s, [Unprojected("external_event_received"), WaitCompleted(Some(Id(g.run, w)), None, "")],
                           s.waits[w].node, Some(route), at);
      }
    case ExpireWait(w) =>
      if w in s.waits && s.waits[w].pending {
        WaitView(g, s, w);
        LogOne(s, WaitExpired(Some(Id(g.run, w))), at);
        SafeResolveThrifty(g, s, [WaitExpired(Some(Id(g.run, w)))], s.waits[w].node,
                           RouteWith(g.edges, s.waits[w].node, "timeout", "expired"), at);
      }
    case _ => FlightStepThrifty(g, s, step, at);
  }

  lemma LossKeepsBudget(g: Graph, s: RunState, step: Step, at: int)
    requires Budget(g, s) && Loses(step)
    ensures Budget(g, Next(g, s, step, at))
  {
    var t := Next(g, s, step, at);
    forall x | x in g.defs
      ensures BudgetAt(g, t, x)
    {
      assert BudgetAt(g, s, x);
    }
  }

  lemma StepKeepsBudget(g: Graph, s: RunState, step: Step, at: int)
    requires ValidGraph(g) && Inv(g, s) && ScanOk(g, s) && Budget(g, s) && !Recovers(step)
    ensures Budget(g, Next(g, s, step, at))
  {
    hide Inv, Budget, Spends, List;
    if step.ListNodes? {
      ListBudget(g, s);
    } else if Loses(step) {
      hide Next;
      LossKeepsBudget(g, s, step, at);
    } else {
      hide Next;
      StepThrifty(g, s, step, at);
    }
  }

  lemma StartBudget(g: Graph)
    requires ValidGraph(g)
    ensures Budget(g, START)
  {
    forall x | x in g.defs
      ensures BudgetAt(g, START, x)
    {
    }
  }

  lemma {:induction false} RunKeepsBudget(g: Graph, steps: seq<(Step, int)>)
    requires ValidGraph(g) && forall i :: 0 <= i < |steps| ==> !Recovers(steps[i].0)
    ensures Budget(g, Run(g, steps))
  {
    hide Next, Budget, Inv, ValidGraph;
    if |steps| == 0 {
      StartBudget(g);
    } else {
      RunKeepsBudget(g, steps[..|steps| - 1]);
      RunKeeps(g, steps[..|steps| - 1]);
      StepKeepsBudget(g, Run(g, steps[..|steps| - 1]), steps[|steps| - 1].0, steps[|steps| - 1].1);
    }
  }

  // ---- sums over the nodes ----

  function TotalAllowed(g: Graph, order: seq<string>): int
    requires forall n :: n in order ==> n in g.defs
  {
    if |order| == 0 then 0 else TotalAllowed(g, order[..|order| - 1]) + Allowed(g, order[|order| - 1])
  }

  function TotalSpent(g: Graph, s: RunState, order: seq<string>): int
    requires forall n :: n in order ==> n in g.defs
  {
    if |order| == 0 then 0 else TotalSpent(g, s, order[..|order| - 1]) + Spent(g, s, order[|order| - 1])
  }

  function TotalStarts(acts: seq<Act>, order: seq<string>): nat {
    if |order| == 0 then 0 else TotalStarts(acts, order[..|order| - 1]) + Summarize(acts, order[|order| - 1]).starts
  }

  function CountStarts(acts: seq<Act>): nat {
    if |acts| == 0 then 0 else CountStarts(acts[..|acts| - 1]) + if IsStart(acts[|acts| - 1]) then 1 else 0
  }

  lemma {:induction false} OneMoreStart(acts: seq<Act>, act: Act, order: seq<string>)
    requires Distinct(order)
    ensures TotalStarts(acts + [act], order) ==
            TotalStarts(acts, order) + if IsStart(act) && act.body.node in order then 1 else 0
  {
    if |order| > 0 {
      var init, n := order[..|order| - 1], order[|order| - 1];
      assert order == init + [n] && n !in init;
      OneMoreStart(acts, act, init);
      SummarizeNext(acts, act, n);
    }
  }

  /** Counting starts one by one or node by node. */
  lemma {:induction false} StartsByNode(acts: seq<Act>, order: seq<string>)
    requires Distinct(order) && forall i :: 0 <= i < |acts| && IsStart(acts[i]) ==> acts[i].body.node in order
    ensures CountStarts(acts) == TotalStarts(acts, order)
  {
    if |acts| == 0 {
      NoStarts(acts, order);
    } else {
      var init, act := acts[..|acts| - 1], acts[|acts| - 1];
      assert acts == init + [act];
      StartsByNode(init, order);
      OneMoreStart(init, act, order);
    }
  }

  lemma {:induction false} NoStarts(acts: seq<Act>, order: seq<string>)
    requires acts == []
    ensures TotalStarts(acts, order) == 0
  {
    if |order| > 0 { NoStarts(acts, order[..|order| - 1]); }
  }

  lemma {:induction false} TotalStartsAllowed(g: Graph, s: RunState, order: seq<string>)
    requires (forall n :: n in order ==> n in g.defs) && Budget(g, s)
    ensures TotalStarts(s.acts, order) <= TotalAllowed(g, order)
  {
    if |order| > 0 {
      TotalStartsAllowed(g, s, order[..|order| - 1]);
      assert BudgetAt(g, s, order[|order| - 1]);
    }
  }

  lemma StartsAreDefined(g: Graph, steps: seq<(Step, int)>)
    requires ValidGraph(g)
    ensures var acts := Run(g, steps).acts;
            forall i :: 0 <= i < |acts| && IsStart(acts[i]) ==> acts[i].body.node in g.order
  {
    RunDispatches(g, steps);
    var acts := Run(g, steps).acts;
    hide Run, Summarize;
    forall i | 0 <= i < |acts| && IsStart(acts[i])
      ensures acts[i].body.node in g.order
    {
      assert Dispatched(g, Summarize(acts[..i], acts[i].body.node), acts[i].body.node, acts[i].body.attemptNo);
    }
  }

  /** Without recovery a node starts at most as often as its attempts allow, and a run at most as often as
      all its nodes together. */
  lemma StartsAreBounded(g: Graph, steps: seq<(Step, int)>)
    requires ValidGraph(g) && forall i :: 0 <= i < |steps| ==> !Recovers(steps[i].0)
    ensures forall n :: n in g.defs ==> Summarize(Run(g, steps).acts, n).starts <= Allowed(g, n)
    ensures CountStarts(Run(g, steps).acts) <= TotalAllowed(g, g.order)
  {
    hide Run, Summarize;
    var s := Run(g, steps);
    RunKeepsBudget(g, steps);
    forall n | n in g.defs
      ensures Summarize(s.acts, n).starts <= Allowed(g, n)
    {
      assert BudgetAt(g, s, n);
    }
    StartsAreDefined(g, steps);
    StartsByNode(s.acts, g.order);
    TotalStartsAllowed(g, s, g.order);
  }

  // ---- rounds of the driver ----

  lemma {:induction false} TotalGrows(g: Graph, s: RunState, t: RunState, order: seq<string>)
    requires (forall n :: n in order ==> n in g.defs) && Spends(g, s, t)
    ensures TotalSpent(g, t, order) >= TotalSpent(g, s, order)
    ensures (exists n :: n in order && Spent(g, t, n) > Spent(g, s, n)) ==>
            TotalSpent(g, t, order) > TotalSpent(g, s, order)
  {
    hide Spent, Armed;
    if |order| > 0 {
      var init, n := order[..|order| - 1], order[|order| - 1];
      TotalGrows(g, s, t, init);
      assert SpendsAt(g, s, t, n);
      assert order == init + [n];
    }
  }

  lemma SpentAllowed(g: Graph, s: RunState, n: string)
    requires Budget(g, s) && n in g.defs
    ensures Spent(g, s, n) <= Allowed(g, n) && (Armed(s, n) ==> Spent(g, s, n) < Allowed(g, n))
  {
    assert BudgetAt(g, s, n);
  }

  lemma {:induction false} TotalSpentAllowed(g: Graph, s: RunState, order: seq<string>)
    requires (forall n :: n in order ==> n in g.defs) && Budget(g, s)
    ensures TotalSpent(g, s, order) <= TotalAllowed(g, order)
    ensures (exists n :: n in order && Armed(s, n)) ==> TotalSpent(g, s, order) < TotalAllowed(g, order)
  {
    hide Budget, Spent, Armed;
    if |order| > 0 {
      var init, n := order[..|order| - 1], order[|order| - 1];
      TotalSpentAllowed(g, s, init);
      SpentAllowed(g, s, n);
      assert order == init + [n];
    }
  }

  predicate AnyArmed(s: RunState, order: seq<string>) { exists n :: n in order && Armed(s, n) }

  /** Each round but the current one has used up an attempt, or lost a node. */
  ghost predicate RoundsPaid(g: Graph, s: RunState, losses: nat)
    requires ValidGraph(g)
  {
    s.rounds <= TotalSpent(g, s, g.order) + losses + if AnyArmed(s, g.order) then 1 else 0
  }

  lemma ThriftyPays(g: Graph, s: RunState, t: RunState, losses: nat)
    requires ValidGraph(g) && RoundsPaid(g, s, losses) && Spends(g, s, t)
    ensures RoundsPaid(g, t, losses)
  {
    hide Spent, Armed, TotalSpent;
    TotalGrows(g, s, t, g.order);
    if AnyArmed(s, g.order) && !AnyArmed(t, g.order) {
      var n :| n in g.order && Armed(s, n);
      assert SpendsAt(g, s, t, n);
      assert !Armed(t, n);
      assert Spent(g, t, n) > Spent(g, s, n);
    }
  }

  lemma {:induction false} SameTotal(g: Graph, s: RunState, t: RunState, order: seq<string>)
    requires (forall n :: n in order ==> n in g.defs) && s.nodes == t.nodes
    ensures TotalSpent(g, s, order) == TotalSpent(g, t, order)
  {
    if |order| > 0 { SameTotal(g, s, t, order[..|order| - 1]); }
  }

  lemma ListArms(g: Graph, s: RunState, t: RunState)
    requires ValidGraph(g) && List(g, s) != map[] && t.batch == List(g, s) && t.nodes == s.nodes
    ensures AnyArmed(t, g.order)
  {
    var n :| n in List(g, s);
    assert n in g.order && Armed(t, n);
  }

  lemma ListPays(g: Graph, s: RunState, at: int, losses: nat)
    requires ValidGraph(g) && ScanOk(g, s) && RoundsPaid(g, s, losses)
    ensures RoundsPaid(g, Next(g, s, ListNodes, at), losses)
  {
    RunSteps.ListIs(g, s, at);
    var t := Next(g, s, ListNodes, at);
    assert s.checked ==> s.batch == map[] && !AnyArmed(s, g.order);
    hide Next, ScanOk, TotalSpent, List;
    SameTotal(g, s, t, g.order);
    if s.checked && List(g, s) != map[] { ListArms(g, s, t); }
    hide AnyArmed;
  }

  lemma LossPays(g: Graph, s: RunState, step: Step, at: int, losses: nat)
    requires ValidGraph(g) && RoundsPaid(g, s, losses) && Loses(step)
    ensures RoundsPaid(g, Next(g, s, step, at), losses + 1)
  {
    SameTotal(g, s, Next(g, s, step, at), g.order);
    hide TotalSpent;
  }

  lemma StepPays(g: Graph, s: RunState, step: Step, at: int, losses: nat)
    requires ValidGraph(g) && Inv(g, s) && ScanOk(g, s) && Budget(g, s) && RoundsPaid(g, s, losses) && !Recovers(step)
    ensures RoundsPaid(g, Next(g, s, step, at), losses + if Loses(step) then 1 else 0)
  {
    hide Next, Inv, Budget, Spends, RoundsPaid, ValidGraph;
    if step.ListNodes? {
      ListPays(g, s, at, losses);
    } else if Loses(step) {
      LossPays(g, s, step, at, losses);
    } else {
      StepThrifty(g, s, step, at);
      ThriftyPays(g, s, Next(g, s, step, at), losses);
    }
  }

  /** How often the driver loses a node without a word. */
  function Losses(steps: seq<(Step, int)>): nat {
    if |steps| == 0 then 0 else Losses(steps[..|steps| - 1]) + if Loses(steps[|steps| - 1].0) then 1 else 0
  }

  lemma StartPays(g: Graph)
    requires ValidGraph(g)
    ensures RoundsPaid(g, START, 0)
  {
    StartBudget(g);
    NothingSpent(g, g.order);
  }

  lemma {:induction false} NothingSpent(g: Graph, order: seq<string>)
    requires forall n :: n in order ==> n in g.defs
    ensures TotalSpent(g, START, order) >= 0
  {
    if |order| > 0 { NothingSpent(g, order[..|order| - 1]); }
  }

  lemma {:induction false} RunPays(g: Graph, steps: seq<(Step, int)>)
    requires ValidGraph(g) && forall i :: 0 <= i < |steps| ==> !Recovers(steps[i].0)
    ensures RoundsPaid(g, Run(g, steps), Losses(steps))
  {
    hide Next, Budget, Inv, ValidGraph, RoundsPaid;
    if |steps| == 0 {
      StartPays(g);
    } else {
      var init := steps[..|steps| - 1];
      RunPays(g, init);
      RunKeeps(g, init);
      RunKeepsBudget(g, init);
      StepPays(g, Run(g, init), steps[|steps| - 1].0, steps[|steps| - 1].1, Losses(init));
    }
  }

  /** Without recovery a driver takes at most as many steps with work to do as the nodes have attempts and
      as nodes are lost without a word (to a store error or a crash), whatever the executions return: then
      nothing is eligible any more. */
  lemma DrainIsBounded(g: Graph, steps: seq<(Step, int)>)
    requires ValidGraph(g) && forall i :: 0 <= i < |steps| ==> !Recovers(steps[i].0)
    ensures Run(g, steps).rounds <= TotalAllowed(g, g.order) + Losses(steps)
  {
    RunPays(g, steps);
    RunKeepsBudget(g, steps);
    TotalSpentAllowed(g, Run(g, steps), g.order);
  }
}
