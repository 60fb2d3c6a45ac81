/** Nodes that nothing can move: one that waits with nobody to release it, one whose execution is lost and
    that recovery cannot deal with, and those that recovery never gets to because of it. */
module RunStranded {
  import opened Events
  import opened OperationKeys
  import opened Options
  import opened RunEngine
  import opened RunRecovery
  import opened RunSafety
  import RunSteps
  import opened RunTheorems
  import opened RunEnding

  // ---- steps that are not about a node ----

  /** The row of n stays, and n is neither put into the batch nor waited for. */
  ghost predicate Spares(s: RunState, t: RunState, n: string) {
    && (n in s.nodes ==> n in t.nodes && t.nodes[n] == s.nodes[n])
    && (n in t.batch ==> n in s.batch && t.batch[n] == s.batch[n])
    && (HoldsNode(t, n) ==> HoldsNode(s, n))
  }

  predicate Elsewhere(b: Body, n: string) {
    && !(MovesNode(b) && b.node == n) && !(b.ApprovalRequested? && b.node == n) && !(b.WaitRequested? && b.node == n)
  }

  lemma LogSpares(s: RunState, b: Body, at: int, n: string)
    requires Elsewhere(b, n)
    ensures Spares(s, Log(s, b, at), n)
  {
    if b.DecisionRecorded? { EnsureLinksKeepsRows(Ensure(s.nodes, b.node), b.links); }
  }

  lemma SparesTrans(s: RunState, t: RunState, u: RunState, n: string)
    requires Spares(s, t, n) && Spares(t, u, n)
    ensures Spares(s, u, n)
  {
  }

  lemma SparesAside(s: RunState, t: RunState, n: string)
    requires t.nodes == s.nodes && t.waits == s.waits && t.approvals == s.approvals
    requires n in t.batch ==> n in s.batch && t.batch[n] == s.batch[n]
    ensures Spares(s, t, n)
  {
  }

  lemma AsideLogSpares(s: RunState, u: RunState, b: Body, at: int, n: string)
    requires Spares(s, u, n) && Elsewhere(b, n)
    ensures Spares(s, Log(u, b, at), n)
  {
    hide Spares, Log, Elsewhere;
    LogSpares(u, b, at, n);
    SparesTrans(s, u, Log(u, b, at), n);
  }

  lemma LogTwoSpares(s: RunState, a: Body, b: Body, at: int, n: string)
    requires Elsewhere(a, n) && Elsewhere(b, n)
    ensures Spares(s, LogAll(s, [a, b], at), n)
  {
    hide Spares, Log, Elsewhere;
    LogTwo(s, a, b, at);
    LogSpares(s, a, at, n);
    AsideLogSpares(s, Log(s, a, at), b, at, n);
  }

  lemma DropSpares(s: RunState, m: string, n: string)
    ensures Spares(s, Drop(s, m), n)
  {
    SparesAside(s, Drop(s, m), n);
  }

  lemma FinishSpares(g: Graph, s: RunState, m: string, a: int, route: Option<string>, at: int, n: string)
    requires ValidGraph(g) && m in g.defs && m != n
    ensures Spares(s, Finish(g, s, m, a, route, at), n)
  {
    hide ValidGraph, Route, Summarize;
    var u := Log(s, Ended(m, a, Finished, ""), at);
    LogSpares(s, Ended(m, a, Finished, ""), at, n);
    RouteRoutes(g, u, m, route, at);
  }

  lemma ResolveSpares(g: Graph, s: RunState, m: string, route: Option<string>, at: int, n: string)
    requires ValidGraph(g) && m in g.defs && m != n
    ensures Spares(s, Resolve(g, s, m, route, at), n)
  {
    hide Spares, Log, Finish, ValidGraph;
    var a := RowOf(s.nodes, m).attemptCount;
    if route.Some? { FinishSpares(g, s, m, a, route, at, n); } else { LogSpares(s, Ended(m, a, Failure, ""), at, n); }
  }

  lemma CommitSpares(g: Graph, s: RunState, m: string, a: int, route: Option<string>, at: int, n: string)
    requires ValidGraph(g) && m in g.defs && m != n
    ensures Spares(s, Commit(g, s, m, a, route, at), n)
  {
    hide Spares, Log, Finish, ValidGraph;
    SparesAside(s, s, n);
    LogSpares(s, NodeCancelled(m, a), at, n);
    FinishSpares(g, s, m, a, route, at, n);
  }

  predicate OfFlight(step: Step) {
    step.Claim? || step.PreFail? || step.FlightFails? || step.FlightRequeues? || step.FlightUncertain? ||
    step.FlightCancelled? || step.FlightDies? || step.FlightLost? || step.FlightSucceeds? || step.AskApproval? ||
    step.GateWaits?
  }

  lemma FlightSpares(g: Graph, s: RunState, step: Step, at: int, n: string)
    requires ValidGraph(g) && OfFlight(step) && step.node != n
    ensures Spares(s, Next(g, s, step, at), n)
  {
    hide Spares, Log, LogAll, ValidGraph, Commit;
    var m := step.node;
    var u := Drop(s, m);
    SparesAside(s, s, n);
    DropSpares(s, m, n);
    match step
    case Claim(_) =>
      if IsListed(s, m) && m in g.defs {
        LogSpares(s, StartBody(g, s, m), at, n);
        ClaimAside(s, Log(s, StartBody(g, s, m), at), m, n, Flying(s.batch[m].attempt));
      }
    case PreFail(_, rejected) =>
      if IsListed(s, m) {
        AsideLogSpares(s, u, Ended(m, s.batch[m].attempt, Failure,
                                   if rejected then OperationKey(g.run, m, s.batch[m].attempt) else ""), at, n);
      }
    case FlightFails(_) =>
      if IsFlying(s, m) {
        var a := s.batch[m].attempt;
        AsideLogSpares(s, u, Ended(m, a, Failure, ""), at, n);
        LogSpares(s, NodeAttemptFailed(m, a, ""), at, n);
        ClaimAside(s, Log(s, NodeAttemptFailed(m, a, ""), at), m, n, Requeueing(a));
      }
    case FlightRequeues(_) =>
      if IsRequeueing(s, m) { AsideLogSpares(s, u, NodeRequeued(m, s.batch[m].attempt, false), at, n); }
    case FlightUncertain(_) =>
      if IsFlying(s, m) { AsideLogSpares(s, u, Ended(m, s.batch[m].attempt, Unsure, ""), at, n); }
    case FlightCancelled(_) =>
      if IsFlying(s, m) { AsideLogSpares(s, u, NodeCancelled(m, s.batch[m].attempt), at, n); }
    case FlightDies(_) =>
      if IsFlying(s, m) { AsideLogSpares(s, u, Ended(m, s.batch[m].attempt, Failure, ""), at, n); }
    case FlightLost(_) =>
    case FlightSucceeds(_, route) =>
      if IsFlying(s, m) && m in g.defs {
        var r := Some(if IsRouter(g, m) then "" else route);
        CommitSpares(g, u, m, s.batch[m].attempt, r, at, n);
        SparesTrans(s, u, Commit(g, u, m, s.batch[m].attempt, r, at), n);
      }
    case AskApproval(_) =>
      LogTwoSpares(u, ApprovalRequested(m, "action", "scope", 0), NodeWaiting(m), at, n);
      SparesTrans(s, u, LogAll(u, [ApprovalRequested(m, "action", "scope", 0), NodeWaiting(m)], at), n);
    case GateWaits(_, w) =>
      AsideLogSpares(s, u, NodeWaiting(m), at, n);
      if w.Some? {
        var b := WaitRequested(Some(Id(g.run, w.value)), m, "type", "key", "{}", 0);
        LogTwoSpares(u, b, NodeWaiting(m), at, n);
        SparesTrans(s, u, LogAll(u, [b, NodeWaiting(m)], at), n);
      }
  }

  lemma ClaimAside(s: RunState, t: RunState, m: string, n: string, f: Flight)
    requires Spares(s, t, n) && m != n
    ensures Spares(s, t.(batch := s.batch[m := f]), n)
  {
  }

  /** The node a release is about. */
  ghost predicate Releases(s: RunState, step: Step, n: string) {
    match step
    case Decide(a, _) => a in s.approvals && s.approvals[a].verdict.Open? && s.approvals[a].node == n
    case ExpireApproval(a) => a in s.approvals && s.approvals[a].verdict.Open? && s.approvals[a].node == n
    case CompleteWait(w, _) => w in s.waits && s.waits[w].pending && s.waits[w].node == n
    case ExpireWait(w) => w in s.waits && s.waits[w].pending && s.waits[w].node == n
    case _ => false
  }

  predicate Release(step: Step) { step.Decide? || step.ExpireApproval? || step.CompleteWait? || step.ExpireWait? }

  lemma DecisionSpares(g: Graph, s: RunState, a: nat, granted: bool, at: int, n: string)
    requires ValidGraph(g) && Inv(g, s) && a in s.approvals && s.approvals[a].verdict.Open? && s.approvals[a].node != n
    ensures Spares(s, DoDecide(g, s, a, granted, at), n)
  {
    hide Inv, Spares, ValidGraph, Resolve, RouteWith, Log;
    ApprovalView(g, s, a);
    var m, b := s.approvals[a].node, ApprovalDecided(granted, Id(g.run, a), "actor", "key");
    var route := if granted then Some("success") else RouteWith(g.edges, m, "denied", "failure");
    LogSpares(s, b, at, n);
    ResolveSpares(g, Log(s, b, at), m, route, at, n);
    SparesTrans(s, Log(s, b, at), Resolve(g, Log(s, b, at), m, route, at), n);
  }

  lemma LapseSpares(g: Graph, s: RunState, a: nat, at: int, n: string)
    requires ValidGraph(g) && Inv(g, s) && a in s.approvals && s.approvals[a].verdict.Open? && s.approvals[a].node != n
    ensures Spares(s, DoExpireApproval(g, s, a, at), n)
  {
    hide Inv, Spares, ValidGraph, Resolve, RouteWith, Touch;
    ApprovalView(g, s, a);
    var m, u := s.approvals[a].node, Log(s, Unprojected("approval_expired"), at);
    var t := u.(approvals := s.approvals[a := s.approvals[a].(verdict := Expired)]);
    ExpiredSpares(s, a, at, n);
    ResolveSpares(g, t, m, RouteWith(g.edges, m, "expired", "timeout"), at, n);
    SparesTrans(s, t, DoExpireApproval(g, s, a, at), n);
  }

  lemma DeliverySpares(g: Graph, s: RunState, w: nat, route: string, at: int, n: string)
    requires ValidGraph(g) && Inv(g, s) && w in s.waits && s.waits[w].pending && s.waits[w].node != n
    ensures Spares(s, DoCompleteWait(g, s, w, route, at), n)
  {
    hide Inv, Spares, LogAll, ValidGraph, Resolve, Log;
    WaitView(g, s, w);
    var b1, b2 := Unprojected("external_event_received"), WaitCompleted(Some(Id(g.run, w)), None, "");
    LogTwoSpares(s, b1, b2, at, n);
    ResolveSpares(g, LogAll(s, [b1, b2], at), s.waits[w].node, Some(route), at, n);
    SparesTrans(s, LogAll(s, [b1, b2], at), DoCompleteWait(g, s, w, route, at), n);
  }

  lemma ExpirySpares(g: Graph, s: RunState, w: nat, at: int, n: string)
    requires ValidGraph(g) && Inv(g, s) && w in s.waits && s.waits[w].pending && s.waits[w].node != n
    ensures Spares(s, DoExpireWait(g, s, w, at), n)
  {
    hide Inv, Spares, ValidGraph, Resolve, RouteWith, Log;
    WaitView(g, s, w);
    var m, b := s.waits[w].node, WaitExpired(Some(Id(g.run, w)));
    LogSpares(s, b, at, n);
    ResolveSpares(g, Log(s, b, at), m, RouteWith(g.edges, m, "timeout", "expired"), at, n);
    SparesTrans(s, Log(s, b, at), DoExpireWait(g, s, w, at), n);
  }

  lemma ReleaseSpares(g: Graph, s: RunState, step: Step, at: int, n: string)
    requires ValidGraph(g) && Inv(g, s) && Release(step) && !Releases(s, step, n)
    ensures Spares(s, Next(g, s, step, at), n)
  {
    hide Next, Inv, Spares, ValidGraph, DoDecide, DoExpireApproval, DoCompleteWait, DoExpireWait;
    SparesAside(s, s, n);
    match step
    case Decide(a, granted) =>
      RunSteps.DecideIs(g, s, a, granted, at);
      if a in s.approvals && s.approvals[a].verdict.Open? { DecisionSpares(g, s, a, granted, at, n); }
    case ExpireApproval(a) =>
      RunSteps.ExpireApprovalIs(g, s, a, at);
      if a in s.approvals && s.approvals[a].verdict.Open? { LapseSpares(g, s, a, at, n); }
    case CompleteWait(w, route) =>
      RunSteps.CompleteWaitIs(g, s, w, route, at);
      if w in s.waits && s.waits[w].pending { DeliverySpares(g, s, w, route, at, n); }
    case ExpireWait(w) =>
      RunSteps.ExpireWaitIs(g, s, w, at);
      if w in s.waits && s.waits[w].pending { ExpirySpares(g, s, w, at, n); }
  }

  lemma ExpiredSpares(s: RunState, a: nat, at: int, n: string)
    requires a in s.approvals
    ensures Spares(s, Log(s, Unprojected("approval_expired"),
                          at).(approvals := s.approvals[a := s.approvals[a].(verdict := Expired)]), n)
  {
  }

  /** The visit a recovery is at. */
  predicate Visits(s: RunState, step: Step, n: string) {
    (step.Recover? || step.Reconcile?) && s.scan != [] && s.scan[0].node == n
  }

  lemma RecoverySpares(g: Graph, s: RunState, step: Step, at: int, n: string)
    requires ValidGraph(g) && ScanOk(g, s) && (step.Recover? || step.Reconcile?) && !Visits(s, step, n)
    ensures Spares(s, Next(g, s, step, at), n)
  {
    hide Spares, ValidGraph, Before, ScanAfter, Commit, Log;
    SparesAside(s, s, n);
    if s.scan != [] && step.Recover? && !s.scan[0].asked {
      var v := s.scan[0];
      assert VisitOk(g, s, v);
      var t := DoRecover(g, s, v.node, v.stop, at);
      DoRecoverSpares(g, s, v.node, v.stop, at, n);
      SparesScan(s, t, t.(scan := ScanAfter(g, s)), n);
    } else if s.scan != [] && step.Reconcile? && s.scan[0].asked {
      var v := s.scan[0];
      assert VisitOk(g, s, v);
      var t := DoReconcile(g, s, v.node, v.stop, step.answer, step.result, at);
      DoReconcileSpares(g, s, v.node, v.stop, step.answer, step.result, at, n);
      SparesScan(s, t, t.(scan := s.scan[1..]), n);
    }
  }

  lemma SparesScan(s: RunState, t: RunState, u: RunState, n: string)
    requires Spares(s, t, n) && u == t.(scan := u.scan)
    ensures Spares(s, u, n)
  {
  }

  lemma DoRecoverSpares(g: Graph, s: RunState, m: string, stop: bool, at: int, n: string)
    requires m in g.defs && m in s.nodes && m != n
    ensures Spares(s, DoRecover(g, s, m, stop, at), n)
  {
    hide Spares, Log;
    SparesAside(s, s, n);
    LogSpares(s, NodeRequeued(m, 0, false), at, n);
    LogSpares(s, NodeReconciling(m), at, n);
    LogSpares(s, NodeWaiting(m), at, n);
    if m in s.latest {
      LogSpares(s, NodeRequeued(m, s.latest[m], true), at, n);
      LogSpares(s, NodeCancelled(m, s.latest[m]), at, n);
    }
  }

  lemma DoReconcileSpares(g: Graph, s: RunState, m: string, stop: bool, answer: Answer, route: Option<string>, at: int,
      n: string)
    requires ValidGraph(g) && m in g.defs && m in s.nodes && m in s.latest && m != n
    ensures Spares(s, DoReconcile(g, s, m, stop, answer, route, at), n)
  {
    hide Spares, Log, ValidGraph, Commit;
    var t, a := Record(s, m, answer), s.latest[m];
    SparesAside(s, t, n);
    AsideLogSpares(s, t, Ended(m, a, Failure, ""), at, n);
    AsideLogSpares(s, t, NodeWaiting(m), at, n);
    AsideLogSpares(s, t, NodeCancelled(m, a), at, n);
    AsideLogSpares(s, t, NodeRequeued(m, a, false), at, n);
    CommitSpares(g, t, m, a, route, at, n);
    SparesTrans(s, t, Commit(g, t, m, a, route, at), n);
  }

  /** A step spares a node that it is not about, unless it cancels the run or lists the node. */
  lemma StepSpares(g: Graph, s: RunState, step: Step, at: int, n: string)
    requires ValidGraph(g) && Inv(g, s) && ScanOk(g, s) && !step.CancelRun?
    requires step.ListNodes? ==> !RunEngine.Eligible(g, s, n)
    requires (OfFlight(step) ==> step.node != n) && !Releases(s, step, n) && !Visits(s, step, n)
    ensures Spares(s, Next(g, s, step, at), n)
  {
    hide Inv, ScanOk, Spares, Log, ValidGraph, EndOf, RunEngine.Eligible;
    SparesAside(s, s, n);
    match step
    case BeginStep => SparesAside(s, s.(checked := true), n);
    case ListNodes =>
      SparesAside(s, s.(checked := false), n);
      SparesAside(s, s.(batch := List(g, s), rounds := s.rounds + 1, checked := false), n);
    case Crash => SparesAside(s, s.(batch := map[], checked := false, scan := []), n);
    case AbandonRun => LogSpares(s, RunEnded(RunAbandoned, ""), at, n);
    case CompleteRun => if EndOf(g, s).Some? { LogSpares(s, RunEnded(EndOf(g, s).value, ""), at, n); }
    case BeginScan(leased) => SparesAside(s, s.(scan := ScanOf(s, leased, g.sweep)), n);
    case Recover => hide Next; RecoverySpares(g, s, step, at, n);
    case Reconcile(_, _) => hide Next; RecoverySpares(g, s, step, at, n);
    case Decide(_, _) => hide Next; ReleaseSpares(g, s, step, at, n);
    case ExpireApproval(_) => hide Next; ReleaseSpares(g, s, step, at, n);
    case CompleteWait(_, _) => hide Next; ReleaseSpares(g, s, step, at, n);
    case ExpireWait(_) => hide Next; ReleaseSpares(g, s, step, at, n);
    case _ => hide Next; FlightSpares(g, s, step, at, n);
  }

  // ---- waiting for nobody ----

  /** The node waits, and no wait or approval is open on it. */
  ghost predicate Orphan(s: RunState, n: string) { Has(s, n, Waiting) && n !in s.batch && !HoldsNode(s, n) }

  lemma IdleFlight(g: Graph, s: RunState, step: Step, at: int)
    requires OfFlight(step) && step.node !in s.batch
    ensures Next(g, s, step, at) == s
  {
  }

  lemma OrphanStays(g: Graph, s: RunState, step: Step, at: int, n: string)
    requires ValidGraph(g) && Inv(g, s) && ScanOk(g, s) && Orphan(s, n)
    ensures Orphan(Next(g, s, step, at), n) || Has(Next(g, s, step, at), n, Cancelled)
  {
    hide Inv, ScanOk, ValidGraph, HoldsNode, Next;
    if step.CancelRun? {
      CancelStepAt(g, s, at, n);
    } else if OfFlight(step) && step.node == n {
      IdleFlight(g, s, step, at);
    } else {
      if Releases(s, step, n) { ReleasesHeld(s, step, n); }
      if s.scan != [] { VisitedIsBusy(g, s); }
      StepSpares(g, s, step, at, n);
    }
  }

  lemma VisitedIsBusy(g: Graph, s: RunState)
    requires ScanOk(g, s) && s.scan != []
    ensures s.scan[0].node in s.nodes && InFlight(s.nodes[s.scan[0].node].status)
  {
    assert VisitOk(g, s, s.scan[0]);
  }

  lemma ReleasesHeld(s: RunState, step: Step, n: string)
    requires Releases(s, step, n)
    ensures HoldsNode(s, n)
  {
  }

  lemma CancelStepAt(g: Graph, s: RunState, at: int, n: string)
    requires ValidGraph(g) && Inv(g, s) && n in s.nodes
    ensures var t := Next(g, s, CancelRun, at);
            t.batch == s.batch && (t == s || CancelledAt(s, t, n))
  {
    hide Inv, ValidGraph, DoCancel, CancelledAt;
    CancelAside(g, s, at);
    CancelAt(g, s, at, n);
  }

  lemma OrphanEnds(g: Graph, s: RunState, n: string)
    requires Orphan(s, n)
    ensures EndOf(g, s) != Some(RunCompleted)
  {
    assert n in s.nodes && Active(s.nodes[n].status);
  }

  lemma CandidateView(g: Graph, s: RunState, n: string)
    requires ScanOk(g, s) && s.scan != [] && s.scan[0].node == n && n in g.defs
    ensures n in s.nodes && InFlight(s.nodes[n].status) && n !in s.batch
    ensures s.scan[0].stop ==> s.nodes[n].status.CancelRequested?
    ensures s.scan[0].asked ==> n in s.latest && Executor(g.defs[n]) == Some(Reconcilable)
  {
    assert VisitOk(g, s, s.scan[0]);
  }

  lemma GateLeaves(g: Graph, s: RunState, at: int, n: string)
    requires n in g.defs && n in s.nodes && !Cancelling(s.nodes[n].status) && IsFlying(s, n) && !HoldsNode(s, n)
    requires g.defs[n] == Gate(false)
    ensures Orphan(Next(g, s, GateWaits(n, None), at), n)
  {
  }

  lemma RecoveryLeaves(g: Graph, s: RunState, at: int, n: string)
    requires n in g.defs && n in s.nodes && !Cancelling(s.nodes[n].status) && n !in s.batch && !HoldsNode(s, n)
    requires s.scan != [] && s.scan[0] == Visit(n, false, false) && Executor(g.defs[n]) == Some(NonReplayable)
    ensures Orphan(Next(g, s, Recover, at), n)
  {
  }

  lemma AnswerLeaves(g: Graph, s: RunState, step: Step, at: int, n: string)
    requires n in s.nodes && !Cancelling(s.nodes[n].status) && n !in s.batch && !HoldsNode(s, n) && n in s.latest
    requires s.scan != [] && s.scan[0].node == n && s.scan[0].asked
    requires step.Reconcile? && (step.answer.Unknown? || step.answer.NotReconcilable?)
    ensures Orphan(Next(g, s, step, at), n)
  {
  }

  /** A node comes to wait for nobody when a gate that does not listen is run, when recovery visits a lost
      execution that must not be replayed, and when an executor does not know about its effect. */
  lemma LeavesOrphan(g: Graph, s: RunState, step: Step, at: int, n: string)
    requires ValidGraph(g) && Inv(g, s) && ScanOk(g, s) && n in g.defs && n in s.nodes
    requires !s.nodes[n].status.CancelRequested?
    requires match step
             case GateWaits(m, None) => m == n && IsFlying(s, n) && g.defs[n] == Gate(false)
             case Recover => Visits(s, step, n) && Executor(g.defs[n]) == Some(NonReplayable)
             case Reconcile(answer, _) =>
               Visits(s, step, n) && s.scan[0].asked && (answer.Unknown? || answer.NotReconcilable?)
             case _ => false
    ensures Orphan(Next(g, s, step, at), n)
  {
    if step.GateWaits? {
      FlyingView(g, s, n);
      BusyIsNotHeld(g, s, n);
      hide Inv, ScanOk, Next, HoldsNode;
      GateLeaves(g, s, at, n);
    } else {
      CandidateView(g, s, n);
      BusyIsNotHeld(g, s, n);
      hide Inv, ScanOk, Next, HoldsNode;
      if step.Recover? { RecoveryLeaves(g, s, at, n); } else { AnswerLeaves(g, s, step, at, n); }
    }
  }

  /** A node that waits with no wait or approval open on it waits for good, unless the run is cancelled, and
      the run never completes. */
  lemma {:induction false} OrphanForever(g: Graph, steps: seq<(Step, int)>, more: seq<(Step, int)>, n: string)
    requires ValidGraph(g) && Orphan(Run(g, steps), n) && !Run(g, steps).status.RunCompleted?
    ensures var t := Run(g, steps + more); (Orphan(t, n) || Has(t, n, Cancelled)) && !t.status.RunCompleted?
    decreases |more|
  {
    hide Inv, ScanOk, Next, ValidGraph, Orphan, Run, EndOf;
    if |more| == 0 {
      assert steps + more == steps;
    } else {
      var init, step, at := more[..|more| - 1], more[|more| - 1].0, more[|more| - 1].1;
      OrphanForever(g, steps, init, n);
      Unsnoc(g, steps, more);
      RunKeeps(g, steps + init);
      var s := Run(g, steps + init);
      StatusMoves(g, s, step, at);
      if Orphan(s, n) {
        OrphanStays(g, s, step, at, n);
        OrphanEnds(g, s, n);
      } else {
        StepKeepsCancellation(g, s, step, at, n);
        CancelledEnds(g, s, n);
      }
    }
  }

  lemma CancelledEnds(g: Graph, s: RunState, n: string)
    requires Has(s, n, Cancelled)
    ensures EndOf(g, s) != Some(RunCompleted)
  {
  }

  // ---- lost executions ----

  /** An attempt is under way by its row, but no execution of it. */
  predicate Inert(s: RunState, n: string) { n in s.nodes && InFlight(s.nodes[n].status) && !IsFlying(s, n) }

  /** An inert node is not listed; at most its failed attempt is to be put back, in vain. */
  lemma InertFlight(g: Graph, s: RunState, step: Step, at: int)
    requires Inv(g, s) && OfFlight(step) && Inert(s, step.node)
    ensures Next(g, s, step, at).nodes == s.nodes && !IsFlying(Next(g, s, step, at), step.node)
  {
    var n := step.node;
    if n in s.batch {
      assert n in g.defs;
      assert NodeOk(g, s, n);
      hide Summarize;
      RequeueIsDropped(g, s, step, at, n);
    } else {
      IdleFlight(g, s, step, at);
    }
  }

  lemma RequeueIsDropped(g: Graph, s: RunState, step: Step, at: int, n: string)
    requires OfFlight(step) && step.node == n && IsRequeueing(s, n) && Has(s, n, CancelRequested)
    ensures Next(g, s, step, at) == s || Next(g, s, step, at) == Drop(s, n)
  {
    hide Commit, DoAskApproval, DoGateWaits, Log;
  }

  /** Only a visit of a recovery can do more to an inert node than ask it to stop. */
  lemma InertStays(g: Graph, s: RunState, step: Step, at: int, n: string)
    requires ValidGraph(g) && Inv(g, s) && ScanOk(g, s) && Inert(s, n) && !Visits(s, step, n)
    ensures var t := Next(g, s, step, at);
            Inert(t, n) && (t.nodes[n].status == s.nodes[n].status || t.nodes[n].status.CancelRequested?)
  {
    hide Inv, ScanOk, ValidGraph, HoldsNode, Next;
    if step.CancelRun? {
      CancelStepAt(g, s, at, n);
    } else if OfFlight(step) && step.node == n {
      InertFlight(g, s, step, at);
    } else {
      if Releases(s, step, n) {
        ReleasesHeld(s, step, n);
        BusyIsNotHeld(g, s, n);
      }
      StepSpares(g, s, step, at, n);
    }
  }

  /** While a node is inert the run is neither cancelled nor completed. */
  lemma InertKeepsOpen(g: Graph, s: RunState, step: Step, at: int, n: string)
    requires ValidGraph(g) && Inv(g, s) && ScanOk(g, s) && Inert(s, n) && Inert(Next(g, s, step, at), n)
    requires !s.status.RunCancelled? && !s.status.RunCompleted?
    ensures var t := Next(g, s, step, at); !t.status.RunCancelled? && !t.status.RunCompleted?
  {
    hide Inv, ScanOk, ValidGraph, Next;
    StatusMoves(g, s, step, at);
    if step.CompleteRun? {
      InertEnds(g, s, n, at);
    } else if step.CancelRun? {
      InertCancel(g, s, at, n);
    }
  }

  lemma InertEnds(g: Graph, s: RunState, n: string, at: int)
    requires Inert(s, n) && !s.status.RunCancelled? && !s.status.RunCompleted?
    ensures var t := Next(g, s, CompleteRun, at); !t.status.RunCancelled? && !t.status.RunCompleted?
  {
    assert !NoneActive(s);
  }

  lemma InertCancel(g: Graph, s: RunState, at: int, n: string)
    requires ValidGraph(g) && Inv(g, s) && Inert(s, n)
    ensures Next(g, s, CancelRun, at).status == s.status
  {
    hide Inv, ValidGraph, DoCancel, CancelledAt;
    CancelAt(g, s, at, n);
  }

  // ---- nodes that stop a recovery ----

  /** The definition lets a visit end with an error: there is no executor, or no attempt to look for. */
  predicate Stops(g: Graph, v: Visit) {
    && v.node in g.defs && !g.defs[v.node].Task?
    && var c := Executor(g.defs[v.node]); (c.None? || v.stop || c.value.Idempotent? || c.value.Reconcilable?)
  }

  lemma ErrsIsStops(g: Graph, s: RunState, v: Visit)
    requires Inv(g, s) && VisitOk(g, s, v)
    ensures Errs(g, s, v.node, v.stop) <==> Stops(g, v)
  {
    assert NodeOk(g, s, v.node);
    hide Summarize;
  }

  /** A gate or router whose execution is lost and that recovery answers with an error, now or as soon as the
      run is cancelled. */
  ghost predicate Stranded(g: Graph, s: RunState, n: string) {
    && Inert(s, n) && n in g.defs
    && Stops(g, Visit(n, s.nodes[n].status.CancelRequested?, false))
  }

  lemma StrandedVisit(g: Graph, s: RunState, step: Step, at: int, n: string)
    requires ValidGraph(g) && Inv(g, s) && ScanOk(g, s) && Stranded(g, s, n) && Visits(s, step, n)
    ensures Stranded(g, Next(g, s, step, at), n)
  {
    hide ValidGraph, Inv, Before;
    assert VisitOk(g, s, s.scan[0]);
    KnownIsTask(g, s, n);
  }

  lemma StrandedStays(g: Graph, s: RunState, step: Step, at: int, n: string)
    requires ValidGraph(g) && Inv(g, s) && ScanOk(g, s) && Stranded(g, s, n)
    ensures Stranded(g, Next(g, s, step, at), n)
  {
    hide Inv, ScanOk, ValidGraph, Next;
    if Visits(s, step, n) { StrandedVisit(g, s, step, at, n); } else { InertStays(g, s, step, at, n); }
  }

  /** A gate or router that is stranded stays so, and its run never becomes cancelled or completed. */
  lemma {:induction false} StrandedForever(g: Graph, steps: seq<(Step, int)>, more: seq<(Step, int)>, n: string)
    requires ValidGraph(g) && Stranded(g, Run(g, steps), n)
    requires !Run(g, steps).status.RunCancelled? && !Run(g, steps).status.RunCompleted?
    ensures var t := Run(g, steps + more); Stranded(g, t, n) && !t.status.RunCancelled? && !t.status.RunCompleted?
    decreases |more|
  {
    hide Inv, ScanOk, Next, ValidGraph, Stranded, Run;
    if |more| == 0 {
      assert steps + more == steps;
    } else {
      var init, step, at := more[..|more| - 1], more[|more| - 1].0, more[|more| - 1].1;
      StrandedForever(g, steps, init, n);
      Unsnoc(g, steps, more);
      RunKeeps(g, steps + init);
      var s := Run(g, steps + init);
      StrandedStays(g, s, step, at, n);
      StrandedIsInert(g, s, n);
      StrandedIsInert(g, Next(g, s, step, at), n);
      InertKeepsOpen(g, s, step, at, n);
    }
  }

  lemma StrandedIsInert(g: Graph, s: RunState, n: string)
    requires Stranded(g, s, n)
    ensures Inert(s, n)
  {
  }

  // ---- what comes after it is never recovered ----

  /** A recovery under way ends before it gets to n. */
  ghost predicate Shut(g: Graph, scan: seq<Visit>, n: string) {
    forall i :: 0 <= i < |scan| && scan[i].node == n ==> exists j :: 0 <= j < i && Stops(g, scan[j])
  }

  /** n has lost its execution, and b, which recovery reads before it, is stranded. */
  ghost predicate Left(g: Graph, s: RunState, b: string, n: string) {
    Stranded(g, s, b) && Before(g, b, n) && Inert(s, n) && Shut(g, s.scan, n)
  }

  /** The visits stand in the order in which the nodes are read. */
  lemma VisitsInOrder(g: Graph, s: RunState, leased: set<string>, i: nat, j: nat)
    requires ValidGraph(g) && i < |ScanOf(s, leased, g.sweep)| && j < |ScanOf(s, leased, g.sweep)|
    requires Before(g, ScanOf(s, leased, g.sweep)[j].node, ScanOf(s, leased, g.sweep)[i].node)
    ensures j < i
  {
    hide ScanOf;
    var scan := ScanOf(s, leased, g.sweep);
    ScanOfInOrder(s, leased, g.sweep);
    BeforeIsStrict(g, scan[j].node, scan[i].node);
    assert !BeforeIn(g.sweep, scan[i].node, scan[j].node);
  }

  /** The visit of a stranded node stops the recovery, and stands before that of any later node. */
  lemma NewScanIsShut(g: Graph, s: RunState, leased: set<string>, b: string, n: string)
    requires ValidGraph(g) && Inv(g, s) && Stranded(g, s, b) && Before(g, b, n)
    requires forall x :: x in leased ==> IsTask(g, x)
    ensures Shut(g, ScanOf(s, leased, g.sweep), n)
  {
    hide Inv, ScanOf, Before;
    var scan := ScanOf(s, leased, g.sweep);
    ScanOfIs(s, leased, g.sweep);
    assert b in g.sweep && Readable(s, leased, b);
    assert VisitOf(s, b) in scan;
    var j :| 0 <= j < |scan| && scan[j] == VisitOf(s, b);
    assert Stops(g, scan[j]);
    forall i | 0 <= i < |scan| && scan[i].node == n
      ensures 0 <= j < i && Stops(g, scan[j])
    {
      VisitsInOrder(g, s, leased, i, j);
    }
  }

  /** What a visit that does not stop the recovery leaves to visit. */
  lemma ScanMoves(g: Graph, s: RunState, step: Step, at: int)
    requires ValidGraph(g) && Inv(g, s) && ScanOk(g, s) && (step.Recover? || step.Reconcile?) && s.scan != []
    ensures var v, t := s.scan[0], Next(g, s, step, at);
            || t.scan == s.scan || (t.scan == [] && Stops(g, v)) || (!Stops(g, v) && t.scan == s.scan[1..])
            || (!Stops(g, v) && t.scan == [v.(asked := true)] + s.scan[1..])
  {
    hide ValidGraph, Inv, Before, DoRecover, DoReconcile;
    var v := s.scan[0];
    assert VisitOk(g, s, v);
    ErrsIsStops(g, s, v);
  }

  lemma ShutMoves(g: Graph, s: RunState, step: Step, at: int, n: string)
    requires ValidGraph(g) && Inv(g, s) && ScanOk(g, s) && (step.Recover? || step.Reconcile?) && Shut(g, s.scan, n)
    ensures Shut(g, Next(g, s, step, at).scan, n)
  {
    hide ValidGraph, Inv, ScanOk, Next;
    if s.scan != [] {
      ScanMoves(g, s, step, at);
      var v, scan := s.scan[0], Next(g, s, step, at).scan;
      forall i | 0 <= i < |scan| && scan[i].node == n
        ensures exists j :: 0 <= j < i && Stops(g, scan[j])
      {
        var k := if scan == s.scan[1..] then i + 1 else i;
        assert s.scan[k].node == n;
        var j :| 0 <= j < k && Stops(g, s.scan[j]);
        if scan == s.scan[1..] { assert scan[j - 1] == s.scan[j]; } else { assert Stops(g, scan[j]); }
      }
    } else {
      NoScanMoves(g, s, step, at);
    }
  }

  lemma NoScanMoves(g: Graph, s: RunState, step: Step, at: int)
    requires (step.Recover? || step.Reconcile?) && s.scan == []
    ensures Next(g, s, step, at) == s
  {
  }

  lemma LeftStays(g: Graph, s: RunState, step: Step, at: int, b: string, n: string)
    requires ValidGraph(g) && Inv(g, s) && ScanOk(g, s) && Left(g, s, b, n)
    ensures Left(g, Next(g, s, step, at), b, n)
  {
    hide Inv, ScanOk, ValidGraph, Next, Stranded, Before, Inert;
    StrandedStays(g, s, step, at, b);
    assert !Visits(s, step, n);
    InertStays(g, s, step, at, n);
    if step.Recover? || step.Reconcile? {
      ShutMoves(g, s, step, at, n);
    } else if step.BeginScan? {
      ScanBegins(g, s, step.leased, at, b, n);
    } else {
      ScanWaits(g, s, step, at);
    }
  }

  lemma ScanBegins(g: Graph, s: RunState, leased: set<string>, at: int, b: string, n: string)
    requires ValidGraph(g) && Inv(g, s) && Stranded(g, s, b) && Before(g, b, n) && Shut(g, s.scan, n)
    ensures Shut(g, Next(g, s, BeginScan(leased), at).scan, n)
  {
    hide ValidGraph, Inv, Stranded, Before, ScanOf, Shut;
    if forall x :: x in leased ==> IsTask(g, x) {
      NewScanIsShut(g, s, leased, b, n);
      assert Shut(g, ScanOf(s, leased, g.sweep), n);
    }
  }

  /** No other step adds to what a recovery has to visit. */
  lemma ScanWaits(g: Graph, s: RunState, step: Step, at: int)
    requires ValidGraph(g) && Inv(g, s) && !step.Recover? && !step.Reconcile? && !step.BeginScan?
    ensures Next(g, s, step, at).scan == s.scan || Next(g, s, step, at).scan == []
  {
    hide Inv, ValidGraph, FlightsLast, DoCancel, DoDecide, DoExpireApproval, DoCompleteWait, DoExpireWait, EndOf;
    match step
    case CancelRun => CancelLasts(g, s, at);
    case Decide(a, granted) =>
      if a in s.approvals && s.approvals[a].verdict.Open? { ApprovalLasts(g, s, a, granted, at); }
    case ExpireApproval(a) =>
      if a in s.approvals && s.approvals[a].verdict.Open? { ApprovalLasts(g, s, a, true, at); }
    case CompleteWait(w, route) => if w in s.waits && s.waits[w].pending { WaitLasts(g, s, w, route, at); }
    case ExpireWait(w) => if w in s.waits && s.waits[w].pending { WaitLasts(g, s, w, "", at); }
    case BeginStep =>
    case ListNodes =>
    case Crash =>
    case AbandonRun =>
    case CompleteRun =>
    case _ => hide Next; FlightKeepsAside(g, s, step, at);
  }

  /** Behind a stranded gate or router no node that has lost its execution is ever recovered: it stays as it
      is, or is asked to stop, and the run never becomes cancelled or completed. */
  lemma {:induction false} StrandedBlocks(g: Graph, steps: seq<(Step, int)>, more: seq<(Step, int)>, b: string,
      n: string)
    requires ValidGraph(g) && Left(g, Run(g, steps), b, n)
    requires !Run(g, steps).status.RunCancelled? && !Run(g, steps).status.RunCompleted?
    ensures var s, t := Run(g, steps), Run(g, steps + more);
            && Left(g, t, b, n) && !t.status.RunCancelled? && !t.status.RunCompleted?
            && (t.nodes[n].status == s.nodes[n].status || t.nodes[n].status.CancelRequested?)
    decreases |more|
  {
    hide Inv, ScanOk, Next, ValidGraph, Stranded, Run, Before;
    if |more| == 0 {
      assert steps + more == steps;
    } else {
      var init, step, at := more[..|more| - 1], more[|more| - 1].0, more[|more| - 1].1;
      StrandedBlocks(g, steps, init, b, n);
      Unsnoc(g, steps, more);
      RunKeeps(g, steps + init);
      var s := Run(g, steps + init);
      LeftStays(g, s, step, at, b, n);
      InertStays(g, s, step, at, n);
      InertKeepsOpen(g, s, step, at, n);
    }
  }
}
