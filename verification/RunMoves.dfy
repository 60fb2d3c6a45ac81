/** What each transaction does to the statuses of the nodes and of the run, with the statuses written out. */
module RunMoves {
  import opened Events
  import opened OperationKeys
  import opened Options
  import opened RunEngine
  import opened RunRecovery
  import opened RunSafety
  import opened RunRetries
  import opened RunRouting
  import opened RunOutcomes
  import RunSteps
  import RunTheorems

  /** The status of a node; a node without a row is pending. */
  function StatusOf(s: RunState, n: string): NodeStatus { if n in s.nodes then s.nodes[n].status else Pending }

  // ---- starting ----

  /** Every dependency of n has succeeded or been skipped, and every route into it has been traversed. */
  ghost predicate MayStart(g: Graph, s: RunState, n: string) {
    forall e :: e in g.edges && e.to == n ==>
      && (e.typ.DependsOn? || e.typ.Produces? || e.typ.Consumes? ==>
            StatusOf(s, e.from).Succeeded? || StatusOf(s, e.from).Skipped?)
      && (e.typ.RoutesTo? ==> e.id in s.traversed)
  }

  lemma EligibleIs(g: Graph, s: RunState, n: string)
    ensures RunEngine.Eligible(g, s, n) <==>
            StatusOf(s, n).Eligible? || (StatusOf(s, n).Pending? && MayStart(g, s, n))
  {
    assert Ready(g, s, n) <==> MayStart(g, s, n) by {
      if MayStart(g, s, n) {
        forall i | 0 <= i < |g.edges| && g.edges[i].to == n
          ensures IsDependency(g.edges[i].typ) ==> Done(s, g.edges[i].from)
          ensures g.edges[i].typ.RoutesTo? ==> g.edges[i].id in s.traversed
        {
          assert g.edges[i] in g.edges;
        }
      }
    }
    hide Ready, MayStart;
  }

  /** A driver that has checked the run lists exactly the nodes that are eligible, or pending and ready, each for its
      next attempt. */
  lemma ListsExactly(g: Graph, s: RunState, n: string, at: int)
    requires s.checked && s.batch == map[]
    ensures var t := Next(g, s, ListNodes, at);
            && (n in t.batch <==>
                n in g.defs && (StatusOf(s, n).Eligible? || (StatusOf(s, n).Pending? && MayStart(g, s, n))))
            && (n in t.batch ==>
                  t.batch[n] == Listed(if n in s.nodes then s.nodes[n].attemptCount + 1 else 1))
            && t.nodes == s.nodes && t.acts == s.acts
  {
    EligibleIs(g, s, n);
    hide RunEngine.Eligible, MayStart;
    ListIs(g, s, at);
    hide Next;
  }

  lemma ListIs(g: Graph, s: RunState, at: int)
    requires s.checked && s.batch == map[]
    ensures var t := Next(g, s, ListNodes, at); t.batch == List(g, s) && t.nodes == s.nodes && t.acts == s.acts
  {
    hide List;
  }

  /** A listed node is claimed exactly if it is still pending or eligible: a task under its attempt and key, another
      node under number 1 and no key. Otherwise it is dropped. */
  lemma ClaimsExactly(g: Graph, s: RunState, n: string, at: int)
    requires IsListed(s, n) && n in g.defs
    ensures var t, a := Next(g, s, Claim(n), at), s.batch[n].attempt;
            && OthersStay(s, t, n)
            && if StatusOf(s, n).Pending? || StatusOf(s, n).Eligible? then
                 && Has(t, n, Running) && n in t.batch && t.batch[n] == Flying(a) && |t.acts| == |s.acts| + 1
                 && var act := t.acts[|s.acts|];
                    && act.Logged? && act.body.NodeStarted? && act.body.node == n
                    && if g.defs[n].Task? then act.body.attemptNo == a && act.body.opKey == OperationKey(g.run, n, a)
                       else act.body.attemptNo == 1 && act.body.opKey == ""
               else n !in t.batch && t.nodes == s.nodes && t.acts == s.acts
  {
    hide OperationKey;
  }

  // ---- the end of a run ----

  lemma NoneActiveIs(s: RunState)
    ensures NoneActive(s) <==>
            forall n :: n in s.nodes ==>
              s.nodes[n].status.Succeeded? || s.nodes[n].status.Failed? || s.nodes[n].status.Skipped? ||
              s.nodes[n].status.Cancelled?
  {
  }

  /** Every row has succeeded, been skipped or been cancelled. */
  ghost predicate AllEnded(s: RunState) { forall n :: n in s.nodes ==> Done(s, n) || Has(s, n, Cancelled) }

  ghost predicate AllDefinedDone(g: Graph, s: RunState) { g.order != [] && forall n :: n in g.order ==> Done(s, n) }

  ghost predicate Exists(s: RunState, st: NodeStatus) { exists n :: Has(s, n, st) }

  /** A run ends exactly so: it fails if a node has failed; otherwise, when every row has succeeded, been skipped or
      been cancelled, it is cancelled if a node was, and completed if every node of the definition has a row and there
      is one. Else it stays open. */
  lemma EndsExactly(g: Graph, s: RunState, at: int)
    requires ValidGraph(g) && Inv(g, s) && s.status.RunRunning? && s.batch == map[] && !s.checked
    ensures var t := Next(g, s, CompleteRun, at);
            && (t.status.RunFailed? <==> Exists(s, Failed))
            && (t.status.RunCancelled? <==> Exists(s, Cancelled) && AllEnded(s))
            && (t.status.RunCompleted? <==> AllDefinedDone(g, s))
            && !t.status.RunAbandoned? && (t.status.RunRunning? ==> t == s)
            && (!t.status.RunRunning? ==> t.acts == s.acts + [Logged(RunEnded(t.status, ""))])
            && t.nodes == s.nodes
  {
    NodesOfRun(g, s);
    EndOfIs(g, s);
    hide *;
    EndStepIs(g, s, at);
    if EndOf(g, s).Some? { EndLog(s, EndOf(g, s).value, at); }
  }

  lemma EndFacts(g: Graph, s: RunState)
    requires ValidGraph(g) && s.nodes.Keys <= g.defs.Keys
    ensures AllEnded(s) <==> NoneActive(s) && !Exists(s, Failed)
    ensures AllDefinedDone(g, s) ==> AllEnded(s) && !Exists(s, Cancelled)
  {
    assert forall n :: n in s.nodes ==> n in g.order;
    hide ValidGraph;
    NoneActiveIs(s);
    if NoneActive(s) && !Exists(s, Failed) {
      forall n | n in s.nodes
        ensures Done(s, n) || Has(s, n, Cancelled)
      {
        assert !Has(s, n, Failed);
      }
    }
  }

  lemma EndOfIs(g: Graph, s: RunState)
    requires ValidGraph(g) && s.nodes.Keys <= g.defs.Keys
    ensures EndOf(g, s) == Some(RunFailed) <==> Exists(s, Failed)
    ensures EndOf(g, s) == Some(RunCancelled) <==> Exists(s, Cancelled) && AllEnded(s)
    ensures EndOf(g, s) == Some(RunCompleted) <==> AllDefinedDone(g, s)
    ensures EndOf(g, s) != Some(RunAbandoned) && EndOf(g, s) != Some(RunRunning)
  {
    AllDoneCounts(g, s);
    AnyIs(s, Failed);
    AnyIs(s, Cancelled);
    EndFacts(g, s);
    hide ValidGraph, DoneNodes, NoneActive, Any, Exists, AllEnded, AllDefinedDone, Done;
  }

  lemma AnyIs(s: RunState, st: NodeStatus)
    ensures Any(s, st) <==> Exists(s, st)
  {
    if n :| n in s.nodes && s.nodes[n].status == st { assert Has(s, n, st); }
    if n :| Has(s, n, st) { assert n in s.nodes; }
  }

  lemma EndStepIs(g: Graph, s: RunState, at: int)
    requires s.status.RunRunning? && s.batch == map[] && !s.checked
    ensures Next(g, s, CompleteRun, at) ==
            if EndOf(g, s).Some? then Log(s, RunEnded(EndOf(g, s).value, ""), at) else s
  {
    hide EndOf, Log;
  }

  lemma EndLog(s: RunState, st: RunStatus, at: int)
    ensures var t := Log(s, RunEnded(st, ""), at);
            t.status == st && t.nodes == s.nodes && t.acts == s.acts + [Logged(RunEnded(st, ""))]
  {
  }

  lemma NodesOfRun(g: Graph, s: RunState)
    requires Inv(g, s)
    ensures s.nodes.Keys <= g.defs.Keys
  {
    RunTheorems.NodesAreDefined(g, s);
  }

  lemma AllDoneCounts(g: Graph, s: RunState)
    requires ValidGraph(g) && s.nodes.Keys <= g.defs.Keys
    ensures |DoneNodes(s)| == |g.defs| > 0 <==> AllDefinedDone(g, s)
  {
    assert DoneNodes(s) <= g.defs.Keys && |g.defs| == |g.defs.Keys|;
    if |DoneNodes(s)| == |g.defs| { SameSize(DoneNodes(s), g.defs.Keys); }
    if g.order != [] { assert g.order[0] in g.defs.Keys; }
    if forall n :: n in g.order ==> Done(s, n) { assert DoneNodes(s) == g.defs.Keys; }
    if |g.defs.Keys| > 0 {
      var n :| n in g.defs.Keys;
      assert n in g.order;
    }
  }

  lemma SameSize(a: set<string>, b: set<string>)
    requires a <= b && |a| == |b|
    ensures a == b
  {
    assert |b - a| == |b| - |a|;
  }

  // ---- cancelling a run ----

  /** An attempt is under way; a cancellation can only ask the node to stop. */
  predicate UnderWay(st: NodeStatus) {
    st.Running? || st.Leased? || st.Uncertain? || st.Reconciling? || st.CancelRequested?
  }

  /** What a cancellation makes of a status. */
  function AfterCancel(st: NodeStatus): NodeStatus {
    if UnderWay(st) then CancelRequested
    else if st.Succeeded? then Succeeded
    else if st.Failed? then Failed
    else if st.Skipped? then Skipped else Cancelled
  }

  /** Cancelling a running run asks every node with an attempt under way to stop, leaves those that have ended, and
      cancels the others, also those without a row; no wait stays pending. The run is cancelled if no attempt was under
      way. */
  lemma CancelsExactly(g: Graph, s: RunState, at: int)
    requires ValidGraph(g) && Inv(g, s) && s.status.RunRunning?
    ensures var t := Next(g, s, CancelRun, at);
            && (forall n :: n in g.defs ==> StatusOf(t, n) == AfterCancel(StatusOf(s, n)))
            && (forall w :: w in t.waits ==> !t.waits[w].pending)
            && (t.status.RunCancelled? <==> forall n :: n in s.nodes ==> !UnderWay(s.nodes[n].status))
            && (!t.status.RunCancelled? ==> t.status.RunRunning?)
  {
    RunTheorems.NodesAreDefined(g, s);
    var u := Sweep(g, s, at);
    hide Inv, ValidGraph, DoCancel, RunTheorems.CancelledAt, NoneActive, UnderWay, Next, Log, Summarize;
    RunSteps.CancelIs(g, s, at);
    EndLog(u, RunCancelled, at);
    SweepEnds(g, s, u);
    forall n | n in g.defs
      ensures StatusOf(u, n) == AfterCancel(StatusOf(s, n))
    {
      SweptIs(s, u, n);
    }
  }

  lemma Sweep(g: Graph, s: RunState, at: int) returns (u: RunState)
    requires ValidGraph(g) && forall n :: n in s.nodes ==> n in g.defs
    ensures RunTheorems.AllCancelled(g, s, u)
    ensures DoCancel(g, s, at) == if NoneActive(u) then Log(u, RunEnded(RunCancelled, ""), at) else u
    ensures Log(u, RunEnded(RunCancelled, ""), at).waits == u.waits
  {
    u := LogAll(s, CancelRows(s, g.order) + CancelOthers(s, g.order) + CancelWaits(g, s, WaitLimit(s.waits)), at);
    RunTheorems.CancelSweeps(g, s, at);
    hide ValidGraph, LogAll, WaitLimit, CancelRows, CancelOthers, CancelWaits, RunTheorems.AllCancelled, NoneActive;
  }

  lemma SweptIs(s: RunState, u: RunState, n: string)
    requires RunTheorems.CancelledAt(s, u, n)
    ensures n in u.nodes && StatusOf(u, n) == AfterCancel(StatusOf(s, n))
  {
  }

  /** Nothing is left active exactly if no attempt was under way. */
  lemma SweepEnds(g: Graph, s: RunState, u: RunState)
    requires RunTheorems.AllCancelled(g, s, u) && forall n :: n in s.nodes ==> n in g.defs
    ensures NoneActive(u) <==> forall n :: n in s.nodes ==> !UnderWay(s.nodes[n].status)
  {
    hide RunTheorems.CancelledAt, Summarize;
    NoneActiveIs(u);
    hide NoneActive;
    forall n | n in g.defs
      ensures n in u.nodes && u.nodes[n].status == AfterCancel(StatusOf(s, n))
    {
      SweptIs(s, u, n);
    }
    if n :| n in s.nodes && UnderWay(s.nodes[n].status) { assert u.nodes[n].status == CancelRequested; }
  }

  // ---- ends of an execution ----

  /** Between two states only the row of n has changed, and n has left the batch. */
  ghost predicate Lands(s: RunState, t: RunState, n: string, st: NodeStatus) {
    n !in t.batch && OthersStay(s, t, n) && Has(t, n, st)
  }

  lemma EndsAre(g: Graph, s: RunState, n: string, at: int)
    requires IsTask(g, n) && IsFlying(s, n)
    ensures var u, a := Drop(s, n), s.batch[n].attempt;
            && Next(g, s, FlightUncertain(n), at) == Log(u, Ended(n, a, Unsure, ""), at)
            && Next(g, s, FlightDies(n), at) == Log(u, Ended(n, a, Failure, ""), at)
            && Next(g, s, FlightCancelled(n), at) == Log(u, NodeCancelled(n, a), at)
  {
    hide Log;
  }

  lemma LogMoves(s: RunState, b: Body, at: int)
    requires MovesNode(b) && b.node in s.nodes
    ensures var t := Log(s, b, at);
            && t.batch == s.batch && OthersStay(s, t, b.node) && b.node in t.nodes
            && t.nodes[b.node] == NodeAfter(s.nodes[b.node], b, at) && t.acts == s.acts + [Logged(b)]
            && t.waits == s.waits && t.approvals == s.approvals && t.status == s.status
  {
  }

  lemma EventLands(s: RunState, n: string, b: Body, at: int)
    requires MovesNode(b) && b.node == n && n in s.nodes
    ensures Lands(s, Log(Drop(s, n), b, at), n, NodeAfter(s.nodes[n], b, at).status)
  {
    LogMoves(Drop(s, n), b, at);
    hide Log, NodeAfter;
  }

  /** An execution with an unknown outcome leaves its task uncertain, one that dies leaves it failed, and one that was
      told to stop leaves it cancelled. A node that was asked to stop can only become cancelled. */
  lemma ExecutionEnds(g: Graph, s: RunState, n: string, at: int)
    requires IsTask(g, n) && IsFlying(s, n) && (Has(s, n, Running) || Has(s, n, CancelRequested))
    ensures Lands(s, Next(g, s, FlightUncertain(n), at), n, if Has(s, n, Running) then Uncertain else CancelRequested)
    ensures Lands(s, Next(g, s, FlightDies(n), at), n, if Has(s, n, Running) then Failed else CancelRequested)
    ensures Lands(s, Next(g, s, FlightCancelled(n), at), n, Cancelled)
  {
    EndsAre(g, s, n, at);
    var u, a := Drop(s, n), s.batch[n].attempt;
    hide Next;
    EventLands(s, n, Ended(n, a, Unsure, ""), at);
    EventLands(s, n, Ended(n, a, Failure, ""), at);
    EventLands(s, n, NodeCancelled(n, a), at);
    hide Log, Lands;
  }

  lemma PreFailIs(g: Graph, s: RunState, n: string, rejected: bool, at: int)
    requires IsTask(g, n) && IsListed(s, n)
    ensures Next(g, s, PreFail(n, rejected), at) ==
            Log(Drop(s, n), Ended(n, s.batch[n].attempt, Failure,
                                  if rejected then OperationKey(g.run, n, s.batch[n].attempt) else ""), at)
  {
    hide Log, OperationKey;
  }

  lemma LogTouches(s: RunState, b: Body, at: int)
    requires MovesNode(b) && !NeedsNode(b)
    ensures var t := Log(s, b, at);
            && t.batch == s.batch && OthersStay(s, t, b.node) && t.acts == s.acts + [Logged(b)]
            && b.node in t.nodes && t.nodes[b.node] == NodeAfter(RowOf(s.nodes, b.node), b, at)
  {
    hide NodeAfter;
  }

  /** A listed task that cannot be started fails without a start, unless it was asked to stop or cancelled meanwhile;
      the event names the attempt and, if its invocation was rejected, the key. */
  lemma FailsWithoutStart(g: Graph, s: RunState, n: string, rejected: bool, at: int)
    requires IsTask(g, n) && IsListed(s, n)
    ensures var t, a := Next(g, s, PreFail(n, rejected), at), s.batch[n].attempt;
            && Lands(s, t, n,
                     if StatusOf(s, n).CancelRequested? || StatusOf(s, n).Cancelled? then StatusOf(s, n) else Failed)
            && t.acts == s.acts + [Logged(NodeEnded(n, a, Failure, if rejected then OperationKey(g.run, n, a) else "",
                                                    "executor", "contract", ""))]
  {
    PreFailIs(g, s, n, rejected, at);
    LogTouches(Drop(s, n), Ended(n, s.batch[n].attempt, Failure,
                                 if rejected then OperationKey(g.run, n, s.batch[n].attempt) else ""), at);
    hide Next, Log, OperationKey;
  }

  /** The node has an approval that no decision has been made on; one that lapsed counts. */
  predicate AwaitsDecision(s: RunState, n: string) {
    exists b :: b in s.approvals && s.approvals[b].node == n &&
                (s.approvals[b].verdict.Open? || s.approvals[b].verdict.Expired?)
  }

  lemma AskIs(g: Graph, s: RunState, n: string, at: int)
    requires IsTask(g, n) && IsFlying(s, n)
    ensures Next(g, s, AskApproval(n), at) == DoAskApproval(g, Drop(s, n), n, at)
  {
    hide DoAskApproval;
  }

  lemma ApprovalIsOpened(s: RunState, n: string, at: int)
    ensures var t := Log(s, ApprovalRequested(n, "action", "scope", 0), at);
            && t.approvals == s.approvals[|s.acts| := ApprovalState(n, Open)] && t.nodes == s.nodes &&
               t.batch == s.batch
  {
  }

  /** An execution that asks for an approval leaves its task waiting, with one more open approval, unless the run has
      ended, the node was asked to stop, or it awaits a decision already: then only the execution is over. */
  lemma AsksExactly(g: Graph, s: RunState, n: string, at: int)
    requires IsTask(g, n) && IsFlying(s, n) && (Has(s, n, Running) || Has(s, n, CancelRequested))
    ensures var t := Next(g, s, AskApproval(n), at);
            if s.status.RunRunning? && Has(s, n, Running) && !AwaitsDecision(s, n) then
              Lands(s, t, n, Waiting) && t.approvals == s.approvals[|s.acts| := ApprovalState(n, Open)]
            else t == Drop(s, n)
  {
    AskIs(g, s, n, at);
    var u := Drop(s, n);
    assert AwaitsDecision(s, n) <==>
           exists a :: a in u.approvals && u.approvals[a].node == n && !u.approvals[a].verdict.Decided?;
    LogTwo(u, ApprovalRequested(n, "action", "scope", 0), NodeWaiting(n), at);
    ApprovalIsOpened(u, n, at);
    LogMoves(Log(u, ApprovalRequested(n, "action", "scope", 0), at), NodeWaiting(n), at);
    hide Next, Log, LogAll;
  }

  lemma GateIs(g: Graph, s: RunState, n: string, w: Option<nat>, at: int)
    requires IsGate(g, n) && IsFlying(s, n) && w.Some? == g.defs[n].listens
    ensures Next(g, s, GateWaits(n, w), at) == DoGateWaits(g, Drop(s, n), n, w, at)
  {
    hide DoGateWaits;
  }

  lemma WaitIsOpened(s: RunState, n: string, w: Id, at: int)
    requires n in s.nodes
    ensures var t := Log(s, WaitRequested(Some(w), n, "type", "key", "{}", 0), at);
            t.waits == s.waits[w.n := WaitState(n, true)] && t.nodes == s.nodes && t.batch == s.batch
  {
  }

  /** A gate that does not listen waits, unless it was asked to stop. One that listens waits with one more pending wait,
      unless the run has ended, the gate was asked to stop or has a pending wait, or the wait's id is taken. */
  lemma GateWaitsExactly(g: Graph, s: RunState, n: string, w: Option<nat>, at: int)
    requires IsGate(g, n) && IsFlying(s, n) && w.Some? == g.defs[n].listens
    requires Has(s, n, Running) || Has(s, n, CancelRequested)
    ensures var t := Next(g, s, GateWaits(n, w), at);
            if Has(s, n, CancelRequested) then t == Drop(s, n)
            else if w.None? then Lands(s, t, n, Waiting) && t.waits == s.waits
            else if s.status.RunRunning? && w.value !in s.waits &&
                    forall x :: x in s.waits && s.waits[x].node == n ==> !s.waits[x].pending then
              Lands(s, t, n, Waiting) && t.waits == s.waits[w.value := WaitState(n, true)]
            else t == Drop(s, n)
  {
    GateIs(g, s, n, w, at);
    var u := Drop(s, n);
    LogMoves(u, NodeWaiting(n), at);
    if w.Some? {
      var b := WaitRequested(Some(Id(g.run, w.value)), n, "type", "key", "{}", 0);
      LogTwo(u, b, NodeWaiting(n), at);
      WaitIsOpened(u, n, Id(g.run, w.value), at);
      LogMoves(Log(u, b, at), NodeWaiting(n), at);
    }
    hide Next, Log, LogAll;
  }

  // ---- recovery ----

  lemma ScanIs(g: Graph, s: RunState, leased: set<string>, at: int)
    requires s.batch == map[] && !s.checked && s.scan == [] && forall n :: n in leased ==> IsTask(g, n)
    ensures Next(g, s, BeginScan(leased), at) == s.(scan := ScanOf(s, leased, g.sweep))
  {
    hide ScanOf;
  }

  /** A recovery reads each node with an attempt under way whose lease does not run, once, and notes whether it was
      asked to stop. */
  lemma ScansExactly(g: Graph, s: RunState, leased: set<string>, at: int)
    requires ValidGraph(g) && Inv(g, s)
    requires s.batch == map[] && !s.checked && s.scan == [] && forall n :: n in leased ==> IsTask(g, n)
    ensures var t := Next(g, s, BeginScan(leased), at);
            && t.nodes == s.nodes && t.acts == s.acts
            && (forall v :: v in t.scan <==>
                            && v.node in s.nodes && UnderWay(s.nodes[v.node].status) && v.node !in leased
                            && v.stop == s.nodes[v.node].status.CancelRequested? && !v.asked)
            && (forall i, j :: 0 <= i < j < |t.scan| ==> t.scan[i].node != t.scan[j].node)
  {
    RunTheorems.NodesAreDefined(g, s);
    assert forall n :: n in s.nodes ==> n in g.sweep;
    ScanIs(g, s, leased, at);
    ScanOfIs(s, leased, g.sweep);
    ScanOfInOrder(s, leased, g.sweep);
    hide Next, Inv, ScanOf;
  }

  /** Only the row of n may have changed, to this status. */
  ghost predicate Becomes(s: RunState, t: RunState, n: string, st: NodeStatus) { OthersStay(s, t, n) && Has(t, n, st) }

  lemma VisitIs(g: Graph, s: RunState, at: int)
    requires s.scan != [] && !s.scan[0].asked && s.scan[0].node in g.defs && s.scan[0].node in s.nodes
    ensures var t, v := Next(g, s, Recover, at), s.scan[0];
            t.nodes == DoRecover(g, s, v.node, v.stop, at).nodes && t.scan == ScanAfter(g, s)
  {
    hide DoRecover, ScanAfter;
  }

  /** What is left to visit: nothing after an error, that is without an executor, or where the attempt that is needed is
      not there. */
  lemma VisitsOn(g: Graph, s: RunState)
    requires s.scan != [] && s.scan[0].node in g.defs
    ensures var v, rest := s.scan[0], s.scan[1..];
            ScanAfter(g, s) ==
            match Executor(g.defs[v.node])
            case None => []
            case Some(Pure) => if v.stop && v.node !in s.latest then [] else rest
            case Some(NonReplayable) => if v.stop && v.node !in s.latest then [] else rest
            case Some(Idempotent) => if v.node !in s.latest then [] else rest
            case Some(Reconcilable) => if v.node !in s.latest then [] else [v.(asked := true)] + rest
  {
  }

  /** A candidate that was not asked to stop goes by its contract: a pure one is put back, an idempotent one is put back
      to resume its attempt, a reconcilable one is reconciled, and a non-replayable one waits. */
  lemma RecoversExactly(g: Graph, s: RunState, at: int)
    requires s.scan != [] && VisitOk(g, s, s.scan[0]) && !s.scan[0].asked
    requires !Has(s, s.scan[0].node, CancelRequested)
    ensures var t, n := Next(g, s, Recover, at), s.scan[0].node;
            match Executor(g.defs[n])
            case None => t.nodes == s.nodes
            case Some(Pure) => Becomes(s, t, n, Eligible) && t.nodes[n].attemptCount == s.nodes[n].attemptCount
            case Some(Idempotent) =>
              if n !in s.latest then t.nodes == s.nodes
              else Becomes(s, t, n, Eligible) && (s.latest[n] > 0 ==> t.nodes[n].attemptCount == s.latest[n] - 1)
            case Some(Reconcilable) => Becomes(s, t, n, Reconciling)
            case Some(NonReplayable) => Becomes(s, t, n, Waiting)
  {
    VisitIs(g, s, at);
    var n := s.scan[0].node;
    hide Next, ScanAfter;
    match Executor(g.defs[n])
    case None =>
    case Some(Pure) => LogMoves(s, NodeRequeued(n, 0, false), at); hide Log;
    case Some(Idempotent) => if n in s.latest { LogMoves(s, NodeRequeued(n, s.latest[n], true), at); hide Log; }
    case Some(Reconcilable) => LogMoves(s, NodeReconciling(n), at); hide Log;
    case Some(NonReplayable) => LogMoves(s, NodeWaiting(n), at); hide Log;
  }

  /** A candidate that was asked to stop when it was read is cancelled if it is pure and has an attempt; one that was
      asked since, and one of another contract, stays as it is. */
  lemma RecoversAskedExactly(g: Graph, s: RunState, at: int)
    requires s.scan != [] && VisitOk(g, s, s.scan[0]) && !s.scan[0].asked
    requires Has(s, s.scan[0].node, CancelRequested)
    ensures var t, n := Next(g, s, Recover, at), s.scan[0].node;
            if s.scan[0].stop && Executor(g.defs[n]) == Some(Pure) && n in s.latest then Becomes(s, t, n, Cancelled)
            else Becomes(s, t, n, CancelRequested)
  {
    VisitIs(g, s, at);
    var n := s.scan[0].node;
    hide Next, ScanAfter;
    if s.scan[0].stop {
      if n in s.latest { LogMoves(s, NodeCancelled(n, s.latest[n]), at); }
      hide Log;
    } else if Executor(g.defs[n]) == Some(Reconcilable) {
      LogMoves(s, NodeReconciling(n), at);
      hide Log;
    } else {
      if n in s.latest { LogMoves(s, NodeRequeued(n, s.latest[n], true), at); }
      hide Log;
    }
  }

  lemma AnswerIs(g: Graph, s: RunState, answer: Answer, result: Option<string>, at: int)
    requires s.scan != [] && VisitOk(g, s, s.scan[0]) && s.scan[0].asked
    ensures var v, t := s.scan[0], Next(g, s, Reconcile(answer, result), at);
            var u := DoReconcile(g, s, v.node, v.stop, answer, result, at);
            t.nodes == u.nodes && t.traversed == u.traversed && t.scan == s.scan[1..]
  {
    hide DoReconcile;
  }

  /** An effect that is confirmed finishes its task by the route of the result; one that is absent or rejected puts it
      back; one that nobody knows about leaves it waiting, and bad parameters fail it. A task that was asked to stop is
      cancelled by the first three answers, and stays as it is otherwise. */
  lemma AnswersExactly(g: Graph, s: RunState, answer: Answer, result: Option<string>, at: int)
    requires ValidGraph(g) && s.scan != [] && VisitOk(g, s, s.scan[0]) && s.scan[0].asked
    ensures var t, n := Next(g, s, Reconcile(answer, result), at), s.scan[0].node;
            var asked := Has(s, n, CancelRequested);
            match answer
            case Confirmed => if asked then Becomes(s, t, n, Cancelled) else Went(g, s, t, n, result)
            case Absent => Becomes(s, t, n, if asked then Cancelled else Eligible)
            case Rejected => Becomes(s, t, n, if asked then Cancelled else Eligible)
            case Unknown => Becomes(s, t, n, if asked then CancelRequested else Waiting)
            case NotReconcilable => Becomes(s, t, n, if asked then CancelRequested else Waiting)
            case BadParams => Becomes(s, t, n, if asked then CancelRequested else Failed)
  {
    AnswerIs(g, s, answer, result, at);
    var n, a := s.scan[0].node, s.latest[s.scan[0].node];
    var r := Record(s, n, answer);
    hide Next, ValidGraph, Went, Finish;
    hide Log;
    if Has(s, n, CancelRequested) {
      AskedAnswer(g, s, r, n, answer, result, at);
    } else if answer.Confirmed? {
      FlownGoes(g, s, r, n, a, result, at);
      WentBy(g, s, Finish(g, r, n, a, result, at), Next(g, s, Reconcile(answer, result), at), n, result);
    } else {
      PlainAnswer(g, s, r, n, answer, result, at);
    }
  }

  lemma AskedAnswer(g: Graph, s: RunState, r: RunState, n: string, answer: Answer, result: Option<string>, at: int)
    requires Has(s, n, CancelRequested) && n in s.latest && r == Record(s, n, answer) && s.scan != [] &&
             s.scan[0].node == n
    ensures Becomes(s, DoReconcile(g, s, n, s.scan[0].stop, answer, result, at), n,
                    if answer.Confirmed? || answer.Absent? || answer.Rejected? then Cancelled else CancelRequested)
  {
    if answer.BadParams? { LogMoves(r, Ended(n, s.latest[n], Failure, ""), at); }
    else { LogMoves(r, NodeCancelled(n, s.latest[n]), at); }
    hide Log;
  }

  lemma PlainAnswer(g: Graph, s: RunState, r: RunState, n: string, answer: Answer, result: Option<string>, at: int)
    requires Has(s, n, Reconciling) && n in s.latest && r == Record(s, n, answer) && !answer.Confirmed?
    ensures Becomes(s, DoReconcile(g, s, n, false, answer, result, at), n,
                    if answer.Absent? || answer.Rejected? then Eligible
                    else if answer.BadParams? then Failed else Waiting)
  {
    match answer
    case BadParams => LogMoves(r, Ended(n, s.latest[n], Failure, ""), at); hide Log;
    case Unknown => LogMoves(r, NodeWaiting(n), at); hide Log;
    case NotReconcilable => LogMoves(r, NodeWaiting(n), at); hide Log;
    case Absent => LogMoves(r, NodeRequeued(n, s.latest[n], false), at); hide Log;
    case Rejected => LogMoves(r, NodeRequeued(n, s.latest[n], false), at); hide Log;
  }

  lemma WentBy(g: Graph, s: RunState, t: RunState, u: RunState, n: string, route: Option<string>)
    requires Went(g, s, t, n, route) && u.nodes == t.nodes && u.traversed == t.traversed
    ensures Went(g, s, u, n, route)
  {
  }
}
