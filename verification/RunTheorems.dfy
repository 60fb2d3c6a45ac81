/** What holds of every run of a graph. */
module RunTheorems {
  import opened Collections
  import opened Events
  import opened OperationKeys
  import opened Options
  import opened RunEngine
  import opened RunRecovery
  import opened RunSafety
  import RunSteps

  // ---- cancelling a run ----

  lemma {:induction false} LogAllAppend(s: RunState, a: seq<Body>, b: seq<Body>, at: int)
    ensures LogAll(s, a + b, at) == LogAll(LogAll(s, a, at), b, at)
    decreases |a|
  {
    hide Log;
    if |a| == 0 {
      assert a + b == b;
    } else {
      assert (a + b)[1..] == a[1..] + b;
      LogAllAppend(Log(s, a[0], at), a[1..], b, at);
    }
  }

  lemma LogOne(s: RunState, b: Body, at: int)
    ensures LogAll(s, [b], at) == Log(s, b, at) && LogAll(s, [], at) == s
  {
    assert [b][1..] == [];
  }

  /** What a cancellation makes of one node. */
  ghost predicate CancelledAt(s: RunState, t: RunState, x: string) {
    && x in t.nodes
    && if x !in s.nodes then t.nodes[x].status.Cancelled?
       else if Settled(s.nodes[x].status) || s.nodes[x].status.CancelRequested? then t.nodes[x] == s.nodes[x]
       else if InFlight(s.nodes[x].status) then t.nodes[x] == s.nodes[x].(status := CancelRequested)
       else t.nodes[x].status.Cancelled?
  }

  /** t is s with the nodes of `done` cancelled. */
  ghost predicate Swept(s: RunState, t: RunState, done: set<string>) {
    && t.batch == s.batch && t.latest == s.latest && t.traversed == s.traversed && t.waits == s.waits
    && t.approvals == s.approvals && t.rounds == s.rounds && t.status == s.status && |s.acts| <= |t.acts|
    && (forall x {:trigger Summarize(t.acts, x)} :: Summarize(t.acts, x) == Summarize(s.acts, x))
    && (forall x :: x !in done ==> (x in t.nodes <==> x in s.nodes) && (x in s.nodes ==> t.nodes[x] == s.nodes[x]))
    && (forall x :: x in done ==> CancelledAt(s, t, x))
  }

  lemma SweepOne(s: RunState, t: RunState, done: set<string>, n: string, b: Body, at: int)
    requires Swept(s, t, done) && n !in done && (b == NodeCancelRequested(n) || b == NodeCancelled(n, 0))
    requires CancelledAt(s, Log(t, b, at), n)
    ensures Swept(s, Log(t, b, at), done + {n})
  {
    forall x
      ensures Summarize(Log(t, b, at).acts, x) == Summarize(s.acts, x)
    {
      SummarizeNext(t.acts, Logged(b), x);
      assert Summarize(t.acts, x) == Summarize(s.acts, x);
    }
  }

  function Rows(s: RunState, order: seq<string>): set<string> { set x | x in order && x in s.nodes }

  function Rowless(s: RunState, order: seq<string>): set<string> { set x | x in order && x !in s.nodes }

  /** What cancelling appends for one node with a row. */
  function RowEvents(s: RunState, n: string): seq<Body> {
    if n !in s.nodes || Settled(s.nodes[n].status) || s.nodes[n].status.CancelRequested? then []
    else if InFlight(s.nodes[n].status) then [NodeCancelRequested(n)]
    else [NodeCancelled(n, 0)]
  }

  lemma CancelRowsSnoc(s: RunState, init: seq<string>, n: string)
    ensures CancelRows(s, init + [n]) == CancelRows(s, init) + RowEvents(s, n)
  {
    assert (init + [n])[..|init|] == init;
  }

  lemma SweepEvents(s: RunState, t: RunState, done: set<string>, n: string, at: int)
    requires Swept(s, t, done) && n !in done
    ensures Swept(s, LogAll(t, RowEvents(s, n), at), if n in s.nodes then done + {n} else done)
  {
    hide Swept, Log;
    LogOne(t, NodeCancelled(n, 0), at);
    LogOne(t, NodeCancelRequested(n), at);
    if n in s.nodes { SweepRow(s, t, done, n, at); }
  }

  lemma RowsSnoc(s: RunState, init: seq<string>, n: string)
    ensures Rows(s, init + [n]) == if n in s.nodes then Rows(s, init) + {n} else Rows(s, init)
    ensures n !in init ==> n !in Rows(s, init)
  {
    assert forall x :: x in init + [n] <==> x in init || x == n;
  }

  lemma NothingSwept(s: RunState, at: int)
    ensures Swept(s, LogAll(s, CancelRows(s, []), at), Rows(s, []))
  {
  }

  lemma {:induction false} RowsSwept(s: RunState, order: seq<string>, at: int)
    requires Distinct(order)
    ensures Swept(s, LogAll(s, CancelRows(s, order), at), Rows(s, order))
  {
    hide Swept, LogAll, CancelRows, RowEvents, Rows;
    if |order| == 0 {
      assert order == [];
      NothingSwept(s, at);
    } else {
      var init, n := order[..|order| - 1], order[|order| - 1];
      RowsSwept(s, init, at);
      assert order == init + [n] && n !in init;
      CancelRowsSnoc(s, init, n);
      RowsSnoc(s, init, n);
      LogAllAppend(s, CancelRows(s, init), RowEvents(s, n), at);
      SweepEvents(s, LogAll(s, CancelRows(s, init), at), Rows(s, init), n, at);
    }
  }

  lemma SweepRow(s: RunState, t: RunState, done: set<string>, n: string, at: int)
    requires Swept(s, t, done) && n !in done && n in s.nodes
    ensures var st := s.nodes[n].status;
            Swept(s, if Settled(st) || st.CancelRequested? then t
                     else if InFlight(st) then Log(t, NodeCancelRequested(n), at)
                     else Log(t, NodeCancelled(n, 0), at), done + {n})
  {
    hide Summarize;
    var st := s.nodes[n].status;
    if !Settled(st) && !st.CancelRequested? {
      SweepOne(s, t, done, n, if InFlight(st) then NodeCancelRequested(n) else NodeCancelled(n, 0), at);
    }
  }

  lemma SweepRowless(s: RunState, t: RunState, done: set<string>, n: string, at: int)
    requires Swept(s, t, done) && n !in done && n !in s.nodes
    ensures Swept(s, Log(t, NodeCancelled(n, 0), at), done + {n})
  {
    hide Summarize;
    SweepOne(s, t, done, n, NodeCancelled(n, 0), at);
  }

  function RowlessEvents(s: RunState, n: string): seq<Body> { if n in s.nodes then [] else [NodeCancelled(n, 0)] }

  lemma CancelOthersSnoc(s: RunState, init: seq<string>, n: string)
    ensures CancelOthers(s, init + [n]) == CancelOthers(s, init) + RowlessEvents(s, n)
    ensures Rowless(s, init + [n]) == if n in s.nodes then Rowless(s, init) else Rowless(s, init) + {n}
    ensures n !in init ==> n !in Rowless(s, init)
  {
    assert (init + [n])[..|init|] == init;
    assert forall x :: x in init + [n] <==> x in init || x == n;
  }

  lemma {:induction false} OthersSwept(s: RunState, t: RunState, done: set<string>, order: seq<string>, at: int)
    requires Distinct(order) && Swept(s, t, done) && forall x :: x in done ==> x in s.nodes
    ensures Swept(s, LogAll(t, CancelOthers(s, order), at), done + Rowless(s, order))
  {
    hide Swept, Log;
    if |order| == 0 {
      assert done + Rowless(s, order) == done;
    } else {
      hide LogAll, CancelOthers, Rowless;
      var init, n := order[..|order| - 1], order[|order| - 1];
      OthersSwept(s, t, done, init, at);
      assert order == init + [n] && n !in init;
      CancelOthersSnoc(s, init, n);
      var u := LogAll(t, CancelOthers(s, init), at);
      LogAllAppend(t, CancelOthers(s, init), RowlessEvents(s, n), at);
      LogOne(u, NodeCancelled(n, 0), at);
      if n !in s.nodes {
        assert done + (Rowless(s, init) + {n}) == done + Rowless(s, init) + {n};
        SweepRowless(s, u, done + Rowless(s, init), n, at);
      }
    }
  }

  /** u is t with the pending waits below k cancelled. */
  ghost predicate WaitsEnded(t: RunState, u: RunState, k: nat) {
    && u.nodes == t.nodes && u.batch == t.batch && u.latest == t.latest && u.traversed == t.traversed
    && u.approvals == t.approvals && u.rounds == t.rounds && u.status == t.status && |t.acts| <= |u.acts|
    && (forall x {:trigger Summarize(u.acts, x)} :: Summarize(u.acts, x) == Summarize(t.acts, x))
    && u.waits.Keys == t.waits.Keys
    && (forall w :: w in t.waits ==> u.waits[w] == if w < k then t.waits[w].(pending := false) else t.waits[w])
  }

  lemma EndOneWait(g: Graph, s: RunState, t: RunState, u: RunState, k: nat, at: int)
    requires t.waits == s.waits && WaitsEnded(t, u, k)
    ensures WaitsEnded(t,
                       if k in s.waits && s.waits[k].pending then Log(u, WaitCancelled(Some(Id(g.run, k))), at)
                       else u, k + 1)
  {
    var b := WaitCancelled(Some(Id(g.run, k)));
    StillSame(g, u, b, at);
    forall x
      ensures Summarize(Log(u, b, at).acts, x) == Summarize(t.acts, x)
    {
      assert Same(u, Log(u, b, at), x);
      assert Summarize(u.acts, x) == Summarize(t.acts, x);
    }
    hide Summarize;
  }

  lemma {:induction false} WaitsSwept(g: Graph, s: RunState, t: RunState, k: nat, at: int)
    requires t.waits == s.waits
    ensures WaitsEnded(t, LogAll(t, CancelWaits(g, s, k), at), k)
  {
    hide Log;
    if k > 0 {
      WaitsSwept(g, s, t, k - 1, at);
      hide WaitsEnded;
      var u, b := LogAll(t, CancelWaits(g, s, k - 1), at), WaitCancelled(Some(Id(g.run, k - 1)));
      LogAllAppend(t, CancelWaits(g, s, k - 1), [b], at);
      LogAllAppend(t, CancelWaits(g, s, k - 1), [], at);
      LogOne(u, b, at);
      EndOneWait(g, s, t, u, k - 1, at);
    }
  }

  /** A run in which nothing has been left to happen by itself. */
  ghost predicate Stopped(g: Graph, s: RunState) {
    Frozen(g, s) && forall w :: w in s.waits ==> !s.waits[w].pending
  }

  /** All nodes of a graph cancelled, and its waits with them. */
  ghost predicate AllCancelled(g: Graph, s: RunState, t: RunState) {
    && t.batch == s.batch && t.latest == s.latest && t.traversed == s.traversed && t.approvals == s.approvals
    && t.rounds == s.rounds && t.status == s.status && |s.acts| <= |t.acts|
    && (forall x {:trigger Summarize(t.acts, x)} :: Summarize(t.acts, x) == Summarize(s.acts, x))
    && t.nodes.Keys == g.defs.Keys && (forall x :: x in g.defs ==> CancelledAt(s, t, x))
    && t.waits.Keys == s.waits.Keys
    && (forall w :: w in s.waits ==> t.waits[w] == s.waits[w].(pending := false))
  }

  lemma CancelSweeps(g: Graph, s: RunState, at: int)
    requires ValidGraph(g) && forall n :: n in s.nodes ==> n in g.defs
    ensures AllCancelled(g, s,
                         LogAll(s,
                                CancelRows(s, g.order) + CancelOthers(s, g.order) +
                                CancelWaits(g, s, WaitLimit(s.waits)), at))
  {
    hide Summarize, CancelRows, CancelOthers, CancelWaits, Log, LogAll, CancelledAt, WaitLimit;
    var rows, others, ends, k := CancelRows(s, g.order), CancelOthers(s, g.order),
                                 CancelWaits(g, s, WaitLimit(s.waits)), WaitLimit(s.waits);
    LogAllAppend(s, rows + others, ends, at);
    LogAllAppend(s, rows, others, at);
    RowsSwept(s, g.order, at);
    var t := LogAll(s, rows, at);
    OthersSwept(s, t, Rows(s, g.order), g.order, at);
    var u := LogAll(t, others, at);
    WaitsSwept(g, s, u, k, at);
    var v := LogAll(u, ends, at);
    forall x | x in g.defs
      ensures CancelledAt(s, v, x)
    {
      assert x in Rows(s, g.order) + Rowless(s, g.order);
      SameCancelled(s, u, v, x);
    }
    forall x
      ensures Summarize(v.acts, x) == Summarize(s.acts, x)
    {
      assert Summarize(v.acts, x) == Summarize(u.acts, x);
    }
    forall x
      ensures x in v.nodes <==> x in g.defs
    {
      if x !in g.defs { assert x !in Rows(s, g.order) + Rowless(s, g.order); }
      if x in g.defs { InNodes(s, v, x); }
    }
  }

  lemma SameCancelled(s: RunState, u: RunState, v: RunState, x: string)
    requires u.nodes == v.nodes && CancelledAt(s, u, x)
    ensures CancelledAt(s, v, x)
  {
  }

  lemma InNodes(s: RunState, v: RunState, x: string)
    requires CancelledAt(s, v, x)
    ensures x in v.nodes
  {
  }

  lemma CancelledNodeOk(g: Graph, s: RunState, t: RunState, x: string)
    requires x in g.defs && NodeOk(g, s, x) && AllCancelled(g, s, t)
    ensures NodeOk(g, t, x)
  {
    assert Summarize(t.acts, x) == Summarize(s.acts, x) && CancelledAt(s, t, x);
  }

  lemma AllCancelledStops(g: Graph, s: RunState, t: RunState)
    requires AllCancelled(g, s, t)
    ensures Stopped(g, t) && Frozen(g, t)
  {
    hide Summarize;
    assert forall x :: x in g.defs ==> CancelledAt(s, t, x);
  }

  lemma AllCancelledKeeps(g: Graph, s: RunState, t: RunState)
    requires Inv(g, s) && AllCancelled(g, s, t)
    ensures Inv(g, t) && Progress(g, s, t) && Stopped(g, t)
  {
    AllCancelledStops(g, s, t);
    hide Summarize, NodeOk, Stopped;
    forall x | x in g.defs
      ensures NodeOk(g, t, x)
    {
      assert NodeOk(g, s, x);
      CancelledNodeOk(g, s, t, x);
    }
    HoldsKept(g, s, t);
  }

  lemma EndKeepsStopped(g: Graph, t: RunState, at: int)
    requires Stopped(g, t)
    ensures Stopped(g, Log(t, RunEnded(RunCancelled, ""), at))
  {
    assert Log(t, RunEnded(RunCancelled, ""), at).nodes == t.nodes;
  }

  lemma CancelKeeps(g: Graph, s: RunState, at: int)
    requires ValidGraph(g) && Inv(g, s)
    ensures var t := DoCancel(g, s, at); Inv(g, t) && Progress(g, s, t) && Stopped(g, t)
  {
    NodesAreDefined(g, s);
    hide AllCancelled, Progress, Inv, ValidGraph, Stopped, NoneActive, Log, LogAll, CancelRows, CancelOthers,
         CancelWaits,
      WaitLimit;
    var t := LogAll(s, CancelRows(s, g.order) + CancelOthers(s, g.order) + CancelWaits(g, s, WaitLimit(s.waits)), at);
    CancelSweeps(g, s, at);
    AllCancelledKeeps(g, s, t);
    if NoneActive(t) {
      StillLogKeeps(g, t, RunEnded(RunCancelled, ""), at);
      EndKeepsStopped(g, t, at);
      ProgressTrans(g, s, t, DoCancel(g, s, at));
    }
  }

  // ---- every step ----

  lemma WaitStepKeeps(g: Graph, s: RunState, w: nat, at: int)
    requires ValidGraph(g) && Inv(g, s) && w in s.waits && s.waits[w].pending
    ensures var t := DoExpireWait(g, s, w, at); Inv(g, t) && Progress(g, s, t)
  {
    EndWaitKeeps(g, s, w, WaitExpired(Some(Id(g.run, w))), RouteWith(g.edges, s.waits[w].node, "timeout", "expired"),
                 at);
  }

  /** The steps of the driver and its executions. */
  lemma FlightStepKeeps(g: Graph, s: RunState, step: Step, at: int)
    requires ValidGraph(g) && Inv(g, s)
    requires step.Claim? || step.PreFail? || step.FlightFails? || step.FlightRequeues? ||
             step.FlightUncertain? || step.FlightCancelled? || step.FlightDies? || step.FlightLost? ||
             step.FlightSucceeds? || step.AskApproval? || step.GateWaits? || step.Crash?
    ensures Inv(g, Next(g, s, step, at)) && Progress(g, s, Next(g, s, step, at))
  {
    hide Inv, Log, Summarize, Progress, ValidGraph, Commit, DoClaim, DoAskApproval, DoGateWaits;
    ProgressSelf(g, s);
    match step
    case Claim(n) => if IsListed(s, n) && n in g.defs { ClaimKeeps(g, s, n, at); }
    case PreFail(n, rejected) =>
      if IsListed(s, n) && IsTask(g, n) {
        LeavesBatch(g, s, n,
                    Ended(n, s.batch[n].attempt, Failure,
                          if rejected then OperationKey(g.run, n, s.batch[n].attempt) else ""), at);
      }
    case FlightFails(n) => FlightFailsKeeps(g, s, n, at);
    case FlightRequeues(n) => if IsRequeueing(s, n) { FlightRequeuesKeeps(g, s, n, at); }
    case FlightUncertain(n) =>
      if IsFlying(s, n) && IsTask(g, n) {
        LeavesBatch(g, s, n, Ended(n, s.batch[n].attempt, Unsure, ""), at);
      }
    case FlightCancelled(n) => if IsFlying(s, n) { LeavesBatch(g, s, n, NodeCancelled(n, s.batch[n].attempt), at); }
    case FlightDies(n) =>
      if IsFlying(s, n) && IsTask(g, n) {
        LeavesBatch(g, s, n, Ended(n, s.batch[n].attempt, Failure, ""), at);
      }
    case FlightLost(n) => DropKeeps(g, s, n);
    case FlightSucceeds(n, route) => FlightSucceedsKeeps(g, s, n, route, at);
    case AskApproval(n) => if IsFlying(s, n) && IsTask(g, n) { AskApprovalKeeps(g, s, n, at); }
    case GateWaits(n, w) =>
      if IsFlying(s, n) && IsGate(g, n) && w.Some? == g.defs[n].listens {
        GateWaitsKeeps(g, s, n, w, at);
      }
    case Crash => CrashKeeps(g, s);
  }

  /** The steps of the driver before it claims anything, and those of a recovery. */
  lemma DriverStepKeeps(g: Graph, s: RunState, step: Step, at: int)
    requires ValidGraph(g) && Inv(g, s) && ScanOk(g, s)
    requires step.BeginStep? || step.ListNodes? || step.BeginScan? || step.Recover? || step.Reconcile?
    ensures Inv(g, Next(g, s, step, at)) && Progress(g, s, Next(g, s, step, at))
  {
    hide Inv, Progress, ValidGraph, DoRecover, DoReconcile, List, ScanOf, Before;
    ProgressSelf(g, s);
    match step
    case BeginStep => AsideKeeps(g, s, s.(checked := true));
    case ListNodes => AsideKeeps(g, s, s.(checked := false)); if s.checked { ListKeeps(g, s); }
    case BeginScan(leased) => AsideKeeps(g, s, s.(scan := ScanOf(s, leased, g.sweep)));
    case Recover =>
      if s.scan != [] && !s.scan[0].asked {
        var v := s.scan[0];
        assert VisitOk(g, s, v);
        var t := DoRecover(g, s, v.node, v.stop, at);
        RecoverKeeps(g, s, v, at);
        AsideKeeps(g, t, t.(scan := ScanAfter(g, s)));
        ProgressTrans(g, s, t, t.(scan := ScanAfter(g, s)));
      }
    case Reconcile(answer, route) =>
      if s.scan != [] && s.scan[0].asked {
        var v := s.scan[0];
        assert VisitOk(g, s, v);
        var t := DoReconcile(g, s, v.node, v.stop, answer, route, at);
        ReconcileKeeps(g, s, v, answer, route, at);
        AsideKeeps(g, t, t.(scan := s.scan[1..]));
        ProgressTrans(g, s, t, t.(scan := s.scan[1..]));
      }
  }

  /** Every step keeps the invariant; finished nodes stay finished and a frozen run stays frozen. */
  lemma StepKeeps(g: Graph, s: RunState, step: Step, at: int)
    requires ValidGraph(g) && Inv(g, s) && ScanOk(g, s)
    ensures Inv(g, Next(g, s, step, at)) && Progress(g, s, Next(g, s, step, at))
  {
    hide Inv, Log, Summarize, Progress, ValidGraph, DoCancel, DoDecide, DoExpireApproval, DoCompleteWait,
         DoExpireWait, EndOf, ScanOk;
    ProgressSelf(g, s);
    match step
    case CancelRun => CancelKeeps(g, s, at);
    case AbandonRun => StillLogKeeps(g, s, RunEnded(RunAbandoned, ""), at);
    case CompleteRun => if EndOf(g, s).Some? { StillLogKeeps(g, s, RunEnded(EndOf(g, s).value, ""), at); }
    case Decide(a, granted) =>
      if a in s.approvals && s.approvals[a].verdict.Open? {
        DecideKeeps(g, s, a, granted, at);
      }
    case ExpireApproval(a) => if a in s.approvals && s.approvals[a].verdict.Open? { ExpireApprovalKeeps(g, s, a, at); }
    case CompleteWait(w, route) => if w in s.waits && s.waits[w].pending { CompleteWaitKeeps(g, s, w, route, at); }
    case ExpireWait(w) => if w in s.waits && s.waits[w].pending { WaitStepKeeps(g, s, w, at); }
    case BeginStep => hide Next; DriverStepKeeps(g, s, step, at);
    case ListNodes => hide Next; DriverStepKeeps(g, s, step, at);
    case BeginScan(_) => hide Next; DriverStepKeeps(g, s, step, at);
    case Recover => hide Next; DriverStepKeeps(g, s, step, at);
    case Reconcile(_, _) => hide Next; DriverStepKeeps(g, s, step, at);
    case _ => hide Next; FlightStepKeeps(g, s, step, at);
  }

  // ---- what recovery remembers ----

  lemma NodesAreDefined(g: Graph, s: RunState)
    requires Inv(g, s)
    ensures forall x :: x in s.nodes ==> x in g.defs
  {
    hide NodeOk, WaitOk, ApprovalOk, EdgeOk;
  }

  /** A cancellation, as one row sees it; with an attempt under way the run stays open. */
  lemma CancelAt(g: Graph, s: RunState, at: int, n: string)
    requires ValidGraph(g) && Inv(g, s) && n in s.nodes
    ensures var t := DoCancel(g, s, at);
            CancelledAt(s, t, n) && (InFlight(s.nodes[n].status) ==> t.status == s.status)
  {
    NodesAreDefined(g, s);
    hide Inv, ValidGraph, LogAll, WaitLimit, CancelRows, CancelOthers, CancelWaits, CancelledAt, NoneActive, Summarize;
    var t := LogAll(s, CancelRows(s, g.order) + CancelOthers(s, g.order) + CancelWaits(g, s, WaitLimit(s.waits)), at);
    CancelSweeps(g, s, at);
    assert CancelledAt(s, t, n);
    if InFlight(s.nodes[n].status) { StillActive(s, t, n); }
    SettlingIsClosing(s, t, at, n);
  }

  lemma StillActive(s: RunState, t: RunState, n: string)
    requires CancelledAt(s, t, n) && n in s.nodes && InFlight(s.nodes[n].status)
    ensures !NoneActive(t)
  {
  }

  lemma SettlingIsClosing(s: RunState, t: RunState, at: int, n: string)
    requires CancelledAt(s, t, n)
    ensures CancelledAt(s, Log(t, RunEnded(RunCancelled, ""), at), n)
  {
  }

  lemma CancelAside(g: Graph, s: RunState, at: int)
    requires ValidGraph(g) && Inv(g, s)
    ensures var t := DoCancel(g, s, at); SameAside(s, t) && t.latest == s.latest
  {
    NodesAreDefined(g, s);
    hide Inv, LogAll, WaitLimit, CancelRows, CancelOthers, CancelWaits;
    LogAllAside(s, CancelRows(s, g.order) + CancelOthers(s, g.order) + CancelWaits(g, s, WaitLimit(s.waits)), at);
    CancelSweeps(g, s, at);
    hide ValidGraph, CancelledAt;
  }

  lemma CancelLasts(g: Graph, s: RunState, at: int)
    requires ValidGraph(g) && Inv(g, s)
    ensures var t := DoCancel(g, s, at); SameAside(s, t) && FlightsLast(s, t)
  {
    hide Inv, ValidGraph, DoCancel;
    var t := DoCancel(g, s, at);
    CancelAside(g, s, at);
    forall x | x in s.nodes && InFlight(s.nodes[x].status)
      ensures x in t.nodes && (t.nodes[x].status == s.nodes[x].status || t.nodes[x].status.CancelRequested?)
    {
      CancelAt(g, s, at, x);
    }
  }

  /** With an empty batch the executions have nothing to report. */
  lemma NothingFlies(g: Graph, s: RunState, step: Step, at: int)
    requires s.batch == map[]
    requires step.Claim? || step.PreFail? || step.FlightFails? || step.FlightRequeues? ||
             step.FlightUncertain? || step.FlightCancelled? || step.FlightDies? || step.FlightLost? ||
             step.FlightSucceeds? || step.AskApproval? || step.GateWaits?
    ensures Next(g, s, step, at) == s
  {
  }

  /** Executions change neither what the driver has seen nor what a recovery has read. */
  lemma CommitKeepsAside(g: Graph, s: RunState, n: string, a: int, route: Option<string>, at: int)
    requires ValidGraph(g) && n in g.defs
    ensures SameAside(s, Commit(g, s, n, a, route, at))
  {
    hide Log, Finish, ValidGraph;
    LogAside(s, NodeCancelled(n, a), at);
    FinishAside(g, s, n, a, route, at);
  }

  lemma AskAside(g: Graph, s: RunState, n: string, at: int)
    ensures SameAside(s, DoAskApproval(g, s, n, at))
  {
    hide LogAll;
    LogAllAside(s, [ApprovalRequested(n, "action", "scope", 0), NodeWaiting(n)], at);
  }

  lemma GateAside(g: Graph, s: RunState, n: string, w: Option<nat>, at: int)
    ensures SameAside(s, DoGateWaits(g, s, n, w, at))
  {
    hide Log, LogAll;
    LogAside(s, NodeWaiting(n), at);
    if w.Some? {
      LogAllAside(s, [WaitRequested(Some(Id(g.run, w.value)), n, "type", "key", "{}", 0), NodeWaiting(n)], at);
    }
  }

  lemma ClaimAside(g: Graph, s: RunState, n: string, at: int)
    ensures var t := Next(g, s, Claim(n), at); t.checked == s.checked && t.scan == s.scan
  {
    RunSteps.ClaimIs(g, s, n, at);
    hide Next, Log;
    if IsListed(s, n) && n in g.defs { LogAside(s, StartBody(g, s, n), at); }
  }

  lemma FailKeepsAside(g: Graph, s: RunState, step: Step, at: int)
    requires step.PreFail? || step.FlightFails?
    ensures var t := Next(g, s, step, at); t.checked == s.checked && t.scan == s.scan
  {
    hide Log, OperationKey;
    var n := step.node;
    if n in s.batch {
      var a := s.batch[n].attempt;
      if step.PreFail? {
        LogAside(Drop(s, n), Ended(n, a, Failure, if step.rejected then OperationKey(g.run, n, a) else ""), at);
      } else {
        LogAside(Drop(s, n), Ended(n, a, Failure, ""), at);
        LogAside(s, NodeAttemptFailed(n, a, ""), at);
      }
    }
  }

  lemma EndKeepsAside(g: Graph, s: RunState, step: Step, at: int)
    requires step.PreFail? || step.FlightFails? || step.FlightRequeues? || step.FlightUncertain? ||
             step.FlightCancelled? || step.FlightDies? || step.FlightLost?
    ensures var t := Next(g, s, step, at); t.checked == s.checked && t.scan == s.scan
  {
    var n := step.node;
    if step.PreFail? || step.FlightFails? {
      hide Next;
      FailKeepsAside(g, s, step, at);
    } else if n in s.batch {
      hide Log;
      var a := s.batch[n].attempt;
      match step
      case FlightRequeues(_) => LogAside(Drop(s, n), NodeRequeued(n, a, false), at);
      case FlightUncertain(_) => LogAside(Drop(s, n), Ended(n, a, Unsure, ""), at);
      case FlightCancelled(_) => LogAside(Drop(s, n), NodeCancelled(n, a), at);
      case FlightDies(_) => LogAside(Drop(s, n), Ended(n, a, Failure, ""), at);
      case FlightLost(_) =>
    }
  }

  lemma FlightKeepsAside(g: Graph, s: RunState, step: Step, at: int)
    requires ValidGraph(g)
    requires step.Claim? || step.PreFail? || step.FlightFails? || step.FlightRequeues? ||
             step.FlightUncertain? || step.FlightCancelled? || step.FlightDies? || step.FlightLost? ||
             step.FlightSucceeds? || step.AskApproval? || step.GateWaits?
    ensures var t := Next(g, s, step, at); t.checked == s.checked && t.scan == s.scan
  {
    hide Commit, DoAskApproval, DoGateWaits, ValidGraph;
    match step
    case Claim(n) => hide Next; ClaimAside(g, s, n, at);
    case FlightSucceeds(n, route) =>
      if IsFlying(s, n) && n in g.defs {
        CommitKeepsAside(g, Drop(s, n), n, s.batch[n].attempt, Some(if IsRouter(g, n) then "" else route), at);
      }
    case AskApproval(n) => AskAside(g, Drop(s, n), n, at);
    case GateWaits(n, w) => GateAside(g, Drop(s, n), n, w, at);
    case _ => hide Next; EndKeepsAside(g, s, step, at);
  }

  lemma FinishAside(g: Graph, s: RunState, n: string, a: int, route: Option<string>, at: int)
    requires ValidGraph(g) && n in g.defs
    ensures SameAside(s, Finish(g, s, n, a, route, at))
  {
    hide Log, Route, ValidGraph, Summarize;
    var u := Log(s, Ended(n, a, Finished, ""), at);
    LogAside(s, Ended(n, a, Finished, ""), at);
    RouteRoutes(g, u, n, route, at);
  }

  lemma FlightScans(g: Graph, s: RunState, step: Step, at: int)
    requires ValidGraph(g) && ScanOk(g, s)
    requires step.Claim? || step.PreFail? || step.FlightFails? || step.FlightRequeues? ||
             step.FlightUncertain? || step.FlightCancelled? || step.FlightDies? || step.FlightLost? ||
             step.FlightSucceeds? || step.AskApproval? || step.GateWaits?
    ensures ScanOk(g, Next(g, s, step, at))
  {
    hide Next, ValidGraph;
    if s.batch == map[] {
      NothingFlies(g, s, step, at);
    } else {
      FlightKeepsAside(g, s, step, at);
    }
  }

  /** A release of a waiting node leaves the recovery alone. */
  lemma ReleaseScans(g: Graph, s: RunState, step: Step, at: int)
    requires ValidGraph(g) && Inv(g, s) && ScanOk(g, s)
    requires step.Decide? || step.ExpireApproval? || step.CompleteWait? || step.ExpireWait?
    ensures ScanOk(g, Next(g, s, step, at))
  {
    hide Inv, ValidGraph, ScanOk, SameAside, FlightsLast, DoDecide, DoExpireApproval, DoCompleteWait, DoExpireWait;
    match step
    case Decide(a, granted) =>
      if a in s.approvals && s.approvals[a].verdict.Open? {
        ApprovalLasts(g, s, a, granted, at);
        ScanStays(g, s, DoDecide(g, s, a, granted, at));
      }
    case ExpireApproval(a) =>
      if a in s.approvals && s.approvals[a].verdict.Open? {
        ApprovalLasts(g, s, a, true, at);
        ScanStays(g, s, DoExpireApproval(g, s, a, at));
      }
    case CompleteWait(w, route) =>
      if w in s.waits && s.waits[w].pending {
        WaitLasts(g, s, w, route, at);
        ScanStays(g, s, DoCompleteWait(g, s, w, route, at));
      }
    case ExpireWait(w) =>
      if w in s.waits && s.waits[w].pending {
        WaitLasts(g, s, w, "", at);
        ScanStays(g, s, DoExpireWait(g, s, w, at));
      }
  }

  lemma BeginScans(g: Graph, s: RunState, leased: set<string>, at: int)
    requires ValidGraph(g) && Inv(g, s) && ScanOk(g, s)
    ensures ScanOk(g, Next(g, s, BeginScan(leased), at))
  {
    hide Inv, ValidGraph, ScanOk, ScanOf;
    if s.batch == map[] && !s.checked { BeginScanIsOk(g, s, leased); }
  }

  lemma CancelScans(g: Graph, s: RunState, at: int)
    requires ValidGraph(g) && Inv(g, s) && ScanOk(g, s)
    ensures ScanOk(g, Next(g, s, CancelRun, at))
  {
    hide Inv, ValidGraph, ScanOk, SameAside, FlightsLast, DoCancel;
    CancelLasts(g, s, at);
    ScanStays(g, s, DoCancel(g, s, at));
  }

  lemma StepScans(g: Graph, s: RunState, step: Step, at: int)
    requires ValidGraph(g) && Inv(g, s) && ScanOk(g, s)
    ensures ScanOk(g, Next(g, s, step, at))
  {
    match step
    case CancelRun => hide *; CancelScans(g, s, at);
    case AbandonRun => hide ScanOk; EndScans(g, s, RunAbandoned, at);
    case CompleteRun => hide ScanOk, EndOf; if EndOf(g, s).Some? { EndScans(g, s, EndOf(g, s).value, at); }
    case Decide(_, _) => hide *; ReleaseScans(g, s, step, at);
    case ExpireApproval(_) => hide *; ReleaseScans(g, s, step, at);
    case CompleteWait(_, _) => hide *; ReleaseScans(g, s, step, at);
    case ExpireWait(_) => hide *; ReleaseScans(g, s, step, at);
    case BeginStep => hide Inv, ValidGraph, Before;
    case ListNodes => hide Inv, ValidGraph, Before, List;
    case Crash => hide Inv, ValidGraph, Before;
    case BeginScan(leased) => hide *; BeginScans(g, s, leased, at);
    case Recover => hide *; RecoverScans(g, s, at);
    case Reconcile(answer, route) => hide *; ReconcileScans(g, s, answer, route, at);
    case _ => hide *; FlightScans(g, s, step, at);
  }

  lemma EndScans(g: Graph, s: RunState, st: RunStatus, at: int)
    requires ScanOk(g, s)
    ensures ScanOk(g, Log(s, RunEnded(st, ""), at))
  {
    ScanStays(g, s, Log(s, RunEnded(st, ""), at));
  }

  lemma {:induction false} RunKeeps(g: Graph, steps: seq<(Step, int)>)
    requires ValidGraph(g)
    ensures Inv(g, Run(g, steps)) && ScanOk(g, Run(g, steps))
  {
    hide Next, ValidGraph;
    if |steps| > 0 {
      hide Inv, ScanOk;
      RunKeeps(g, steps[..|steps| - 1]);
      StepKeeps(g, Run(g, steps[..|steps| - 1]), steps[|steps| - 1].0, steps[|steps| - 1].1);
      StepScans(g, Run(g, steps[..|steps| - 1]), steps[|steps| - 1].0, steps[|steps| - 1].1);
    }
  }

  // ---- what a step may append ----

  predicate IsStart(act: Act) { act.Logged? && act.body.NodeStarted? }
  predicate IsEnd(act: Act) { act.Logged? && act.body.RunEnded? }

  /** Nothing is started or ended between s and t, nothing new is listed, and no cancellation is undone. */
  ghost predicate Calm(s: RunState, t: RunState) {
    && s.acts <= t.acts && t.status == s.status
    && (forall i :: |s.acts| <= i < |t.acts| ==> !IsStart(t.acts[i]) && !IsEnd(t.acts[i]))
    && (forall n :: Has(s, n, Cancelled) ==> Has(t, n, Cancelled))
    && (forall n :: Has(s, n, CancelRequested) ==> Has(t, n, CancelRequested) || Has(t, n, Cancelled))
    && (forall n :: IsListed(t, n) ==> IsListed(s, n))
    && (t.checked ==> s.checked)
  }

  predicate Gentle(b: Body) { !b.NodeStarted? && !b.RunEnded? }

  ghost predicate AllGentle(bs: seq<Body>) { forall b :: b in bs ==> Gentle(b) }

  lemma {:induction false} EnsureLinksKeepsRows(nodes: map<string, NodeRow>, links: seq<Link>)
    ensures forall x :: x in nodes ==> x in EnsureLinks(nodes, links) && EnsureLinks(nodes, links)[x] == nodes[x]
    decreases |links|
  {
    if |links| > 0 { EnsureLinksKeepsRows(Ensure(nodes, links[0].target), links[1..]); }
  }

  lemma TouchCalm(nodes: map<string, NodeRow>, b: Body, at: int, n: string)
    requires Gentle(b) && n in nodes
    ensures var t := Touch(nodes, b, at);
            && n in t && (nodes[n].status.Cancelled? ==> t[n].status.Cancelled?)
            && (nodes[n].status.CancelRequested? ==> t[n].status.CancelRequested? || t[n].status.Cancelled?)
  {
    if b.DecisionRecorded? { EnsureLinksKeepsRows(Ensure(nodes, b.node), b.links); }
  }

  lemma LogCalm(s: RunState, b: Body, at: int)
    requires Gentle(b)
    ensures Calm(s, Log(s, b, at))
  {
    RunSteps.LogRest(s, b, at);
    hide Log, Touch;
    forall n | n in s.nodes
      ensures var t := Touch(s.nodes, b, at);
              && n in t && (s.nodes[n].status.Cancelled? ==> t[n].status.Cancelled?)
              && (s.nodes[n].status.CancelRequested? ==> t[n].status.CancelRequested? || t[n].status.Cancelled?)
    {
      TouchCalm(s.nodes, b, at, n);
    }
  }

  lemma CalmTrans(s: RunState, t: RunState, u: RunState)
    requires Calm(s, t) && Calm(t, u)
    ensures Calm(s, u)
  {
  }

  lemma CalmSelf(s: RunState)
    ensures Calm(s, s)
  {
  }

  lemma {:induction false} LogAllCalm(s: RunState, bs: seq<Body>, at: int)
    requires AllGentle(bs)
    ensures Calm(s, LogAll(s, bs, at))
    decreases |bs|
  {
    hide Calm, Log;
    if |bs| == 0 {
      CalmSelf(s);
    } else {
      LogCalm(s, bs[0], at);
      LogAllCalm(Log(s, bs[0], at), bs[1..], at);
      CalmTrans(s, Log(s, bs[0], at), LogAll(s, bs, at));
    }
  }

  lemma QuietIsGentle(g: Graph, n: string, bs: seq<Body>)
    requires AllQuiet(g, n, bs)
    ensures AllGentle(bs)
  {
    forall b | b in bs
      ensures Gentle(b)
    {
      assert Quiet(g, n, b);
    }
  }

  lemma FinishCalm(g: Graph, s: RunState, n: string, a: int, route: Option<string>, at: int)
    requires ValidGraph(g) && n in g.defs
    ensures Calm(s, Finish(g, s, n, a, route, at))
  {
    hide AllQuiet, Calm, LogAll, ValidGraph, AllGentle, Log;
    var es, blocked := g.edges, Blocked(g, g.edges, n, route);
    var r := Log(s, Ended(n, a, Finished, ""), at);
    LogCalm(s, Ended(n, a, Finished, ""), at);
    TraversalsAreQuiet(g, es, n, route);
    QuietIsGentle(g, n, Traversals(es, n, route));
    LogAllCalm(r, Traversals(es, n, route), at);
    var t := LogAll(r, Traversals(es, n, route), at);
    BlockedAreTargets(g, es, n, route);
    SkipsAreQuiet(g, t.nodes, n, blocked);
    QuietIsGentle(g, n, Skips(t.nodes, blocked));
    LogAllCalm(t, Skips(t.nodes, blocked), at);
    var u := LogAll(t, Skips(t.nodes, blocked), at);
    DecisionsAreQuiet(g, n, route);
    QuietIsGentle(g, n, Decisions(g, n, route));
    LogAllCalm(u, Decisions(g, n, route), at);
    var v := LogAll(u, Decisions(g, n, route), at);
    EligibilityIsQuiet(g, v, es, n);
    QuietIsGentle(g, n, EligibilityDecisions(g, v, es, n));
    LogAllCalm(v, EligibilityDecisions(g, v, es, n), at);
    CalmTrans(s, r, t);
    CalmTrans(s, t, u);
    CalmTrans(s, u, v);
    CalmTrans(s, v, Finish(g, s, n, a, route, at));
  }

  lemma ResolveCalm(g: Graph, s: RunState, n: string, route: Option<string>, at: int)
    requires ValidGraph(g) && n in g.defs
    ensures Calm(s, Resolve(g, s, n, route, at))
  {
    hide Calm, Log, Finish, ValidGraph;
    var a := RowOf(s.nodes, n).attemptCount;
    if route.Some? { FinishCalm(g, s, n, a, route, at); } else { LogCalm(s, Ended(n, a, Failure, ""), at); }
  }

  lemma CommitCalm(g: Graph, s: RunState, n: string, a: int, route: Option<string>, at: int)
    requires ValidGraph(g) && n in g.defs
    ensures Calm(s, Commit(g, s, n, a, route, at))
  {
    hide Calm, Log, Finish, ValidGraph;
    CalmSelf(s);
    LogCalm(s, NodeCancelled(n, a), at);
    FinishCalm(g, s, n, a, route, at);
  }

  lemma DropCalm(s: RunState, n: string)
    ensures Calm(s, Drop(s, n))
  {
  }

  lemma DropLogCalm(s: RunState, n: string, b: Body, at: int)
    requires Gentle(b)
    ensures Calm(s, Log(Drop(s, n), b, at))
  {
    hide Calm, Log;
    DropCalm(s, n);
    LogCalm(Drop(s, n), b, at);
    CalmTrans(s, Drop(s, n), Log(Drop(s, n), b, at));
  }

  lemma FlightFailsCalm(g: Graph, s: RunState, n: string, at: int)
    ensures Calm(s, Next(g, s, FlightFails(n), at))
  {
    CalmSelf(s);
    if IsFlying(s, n) && IsTask(g, n) {
      var a := s.batch[n].attempt;
      DropLogCalm(s, n, Ended(n, a, Failure, ""), at);
      LogCalm(s, NodeAttemptFailed(n, a, ""), at);
    }
  }

  lemma LogTwoCalm(s: RunState, a: Body, b: Body, at: int)
    requires Gentle(a) && Gentle(b)
    ensures Calm(s, LogAll(s, [a, b], at))
  {
    hide Calm, LogAll;
    LogAllCalm(s, [a, b], at);
  }

  lemma AskCalm(g: Graph, s: RunState, n: string, at: int)
    ensures Calm(s, DoAskApproval(g, s, n, at))
  {
    hide Calm, LogAll;
    CalmSelf(s);
    LogTwoCalm(s, ApprovalRequested(n, "action", "scope", 0), NodeWaiting(n), at);
  }

  lemma GateCalm(g: Graph, s: RunState, n: string, w: Option<nat>, at: int)
    ensures Calm(s, DoGateWaits(g, s, n, w, at))
  {
    hide Calm, LogAll, Log;
    CalmSelf(s);
    LogCalm(s, NodeWaiting(n), at);
    if w.Some? {
      LogTwoCalm(s, WaitRequested(Some(Id(g.run, w.value)), n, "type", "key", "{}", 0), NodeWaiting(n), at);
    }
  }

  /** A calm change with the recovery's own memory changed too. */
  lemma CalmAside(s: RunState, t: RunState, u: RunState)
    requires Calm(s, t) && u == t.(scan := u.scan, checked := u.checked) && (u.checked ==> t.checked)
    ensures Calm(s, u)
  {
  }

  lemma RecoverCalm(g: Graph, s: RunState, n: string, stop: bool, at: int)
    requires n in g.defs && n in s.nodes
    ensures Calm(s, DoRecover(g, s, n, stop, at))
  {
    hide Calm, Log;
    CalmSelf(s);
    LogCalm(s, NodeRequeued(n, 0, false), at);
    LogCalm(s, NodeReconciling(n), at);
    LogCalm(s, NodeWaiting(n), at);
    if n in s.latest {
      LogCalm(s, NodeCancelled(n, s.latest[n]), at);
      LogCalm(s, NodeRequeued(n, s.latest[n], true), at);
    }
  }

  lemma RecordCalm(s: RunState, n: string, answer: Answer)
    ensures Calm(s, Record(s, n, answer))
  {
  }

  lemma ReconcileCalm(g: Graph, s: RunState, n: string, stop: bool, answer: Answer, route: Option<string>, at: int)
    requires ValidGraph(g) && n in g.defs && n in s.nodes && n in s.latest
    ensures Calm(s, DoReconcile(g, s, n, stop, answer, route, at))
  {
    hide Calm, Log, Commit, ValidGraph;
    var t, a := Record(s, n, answer), s.latest[n];
    RecordCalm(s, n, answer);
    CalmSelf(t);
    LogCalm(t, Ended(n, a, Failure, ""), at);
    LogCalm(t, NodeWaiting(n), at);
    LogCalm(t, NodeCancelled(n, a), at);
    LogCalm(t, NodeRequeued(n, a, false), at);
    CommitCalm(g, t, n, a, route, at);
    CalmTrans(s, t, DoReconcile(g, s, n, stop, answer, route, at));
  }

  lemma DecideCalm(g: Graph, s: RunState, a: nat, granted: bool, at: int)
    requires ValidGraph(g) && a in s.approvals && s.approvals[a].node in g.defs
    ensures Calm(s, DoDecide(g, s, a, granted, at))
  {
    hide Calm, Log, Resolve, ValidGraph, RouteWith;
    var n, t := s.approvals[a].node, Log(s, ApprovalDecided(granted, Id(g.run, a), "actor", "key"), at);
    LogCalm(s, ApprovalDecided(granted, Id(g.run, a), "actor", "key"), at);
    ResolveCalm(g, t, n, if granted then Some("success") else RouteWith(g.edges, n, "denied", "failure"), at);
    CalmTrans(s, t, DoDecide(g, s, a, granted, at));
  }

  lemma ExpireApprovalCalm(g: Graph, s: RunState, a: nat, at: int)
    requires ValidGraph(g) && a in s.approvals && s.approvals[a].node in g.defs
    ensures Calm(s, DoExpireApproval(g, s, a, at))
  {
    hide Resolve, ValidGraph, RouteWith;
    var n := s.approvals[a].node;
    var t := Log(s, Unprojected("approval_expired"),
                 at).(approvals := s.approvals[a := s.approvals[a].(verdict := Expired)]);
    LogCalm(s, Unprojected("approval_expired"), at);
    assert Calm(s, t);
    hide Calm, Log;
    ResolveCalm(g, t, n, RouteWith(g.edges, n, "expired", "timeout"), at);
    CalmTrans(s, t, DoExpireApproval(g, s, a, at));
  }

  lemma CompleteWaitCalm(g: Graph, s: RunState, w: nat, route: string, at: int)
    requires ValidGraph(g) && w in s.waits && s.waits[w].node in g.defs
    ensures Calm(s, DoCompleteWait(g, s, w, route, at))
  {
    hide Calm, LogAll, Resolve, ValidGraph;
    var b1, b2 := Unprojected("external_event_received"), WaitCompleted(Some(Id(g.run, w)), None, "");
    LogTwoCalm(s, b1, b2, at);
    ResolveCalm(g, LogAll(s, [b1, b2], at), s.waits[w].node, Some(route), at);
    CalmTrans(s, LogAll(s, [b1, b2], at), DoCompleteWait(g, s, w, route, at));
  }

  lemma ExpireWaitCalm(g: Graph, s: RunState, w: nat, at: int)
    requires ValidGraph(g) && w in s.waits && s.waits[w].node in g.defs
    ensures Calm(s, DoExpireWait(g, s, w, at))
  {
    hide Calm, Log, Resolve, ValidGraph, RouteWith;
    var b := WaitExpired(Some(Id(g.run, w)));
    LogCalm(s, b, at);
    ResolveCalm(g, Log(s, b, at), s.waits[w].node, RouteWith(g.edges, s.waits[w].node, "timeout", "expired"), at);
    CalmTrans(s, Log(s, b, at), DoExpireWait(g, s, w, at));
  }

  /** Steps that neither list, start nor end anything. */
  predicate CalmStep(step: Step) {
    !step.BeginStep? && !step.ListNodes? && !step.Claim? && !step.CancelRun? && !step.AbandonRun? && !step.CompleteRun?
  }

  lemma CrashCalm(s: RunState)
    ensures Calm(s, s.(batch := map[], checked := false, scan := []))
  {
    CalmSelf(s);
  }

  lemma FlightStepCalm(g: Graph, s: RunState, step: Step, at: int)
    requires ValidGraph(g) && CalmStep(step)
    requires step.PreFail? || step.FlightFails? || step.FlightRequeues? || step.FlightUncertain? ||
             step.FlightCancelled? || step.FlightDies? || step.FlightLost? || step.FlightSucceeds? ||
             step.AskApproval? || step.GateWaits? || step.Crash?
    ensures Calm(s, Next(g, s, step, at))
  {
    hide Log, ValidGraph, Commit, DoAskApproval, DoGateWaits, Calm;
    CalmSelf(s);
    match step
    case Crash => CrashCalm(s);
    case PreFail(n, rejected) =>
      if IsListed(s, n) {
        DropLogCalm(s, n,
                    Ended(n, s.batch[n].attempt, Failure,
                          if rejected then OperationKey(g.run, n, s.batch[n].attempt) else ""), at);
      }
    case FlightFails(n) => FlightFailsCalm(g, s, n, at);
    case FlightRequeues(n) =>
      DropCalm(s, n);
      if IsRequeueing(s, n) { DropLogCalm(s, n, NodeRequeued(n, s.batch[n].attempt, false), at); }
    case FlightUncertain(n) => if IsFlying(s, n) { DropLogCalm(s, n, Ended(n, s.batch[n].attempt, Unsure, ""), at); }
    case FlightCancelled(n) => if IsFlying(s, n) { DropLogCalm(s, n, NodeCancelled(n, s.batch[n].attempt), at); }
    case FlightDies(n) => if IsFlying(s, n) { DropLogCalm(s, n, Ended(n, s.batch[n].attempt, Failure, ""), at); }
    case FlightLost(n) => DropCalm(s, n);
    case FlightSucceeds(n, route) =>
      if IsFlying(s, n) && n in g.defs {
        DropCalm(s, n);
        var r := Some(if IsRouter(g, n) then "" else route);
        CommitCalm(g, Drop(s, n), n, s.batch[n].attempt, r, at);
        CalmTrans(s, Drop(s, n), Commit(g, Drop(s, n), n, s.batch[n].attempt, r, at));
      }
    case AskApproval(n) =>
      DropCalm(s, n);
      AskCalm(g, Drop(s, n), n, at);
      CalmTrans(s, Drop(s, n), DoAskApproval(g, Drop(s, n), n, at));
    case GateWaits(n, w) =>
      DropCalm(s, n);
      GateCalm(g, Drop(s, n), n, w, at);
      CalmTrans(s, Drop(s, n), DoGateWaits(g, Drop(s, n), n, w, at));
  }

  lemma StepCalm(g: Graph, s: RunState, step: Step, at: int)
    requires ValidGraph(g) && Inv(g, s) && ScanOk(g, s) && CalmStep(step)
    ensures Calm(s, Next(g, s, step, at))
  {
    hide Inv, Log, Calm, ValidGraph, DoReconcile, DoDecide, DoExpireApproval, DoCompleteWait, DoExpireWait, DoRecover,
         ScanOf, Before, ScanAfter;
    CalmSelf(s);
    match step
    case BeginScan(leased) => CalmAside(s, s, s.(scan := ScanOf(s, leased, g.sweep)));
    case Recover =>
      if s.scan != [] && !s.scan[0].asked {
        var v := s.scan[0];
        assert VisitOk(g, s, v);
        RecoverCalm(g, s, v.node, v.stop, at);
        var t := DoRecover(g, s, v.node, v.stop, at);
        CalmAside(s, t, t.(scan := ScanAfter(g, s)));
      }
    case Reconcile(answer, route) =>
      if s.scan != [] && s.scan[0].asked {
        var v := s.scan[0];
        assert VisitOk(g, s, v);
        ReconcileCalm(g, s, v.node, v.stop, answer, route, at);
        var t := DoReconcile(g, s, v.node, v.stop, answer, route, at);
        CalmAside(s, t, t.(scan := s.scan[1..]));
      }
    case Decide(a, granted) =>
      if a in s.approvals && s.approvals[a].verdict.Open? {
        ApprovalView(g, s, a);
        DecideCalm(g, s, a, granted, at);
      }
    case ExpireApproval(a) =>
      if a in s.approvals && s.approvals[a].verdict.Open? {
        ApprovalView(g, s, a);
        ExpireApprovalCalm(g, s, a, at);
      }
    case CompleteWait(w, route) =>
      if w in s.waits && s.waits[w].pending {
        WaitView(g, s, w);
        CompleteWaitCalm(g, s, w, route, at);
      }
    case ExpireWait(w) => if w in s.waits && s.waits[w].pending { WaitView(g, s, w); ExpireWaitCalm(g, s, w, at); }
    case _ => FlightStepCalm(g, s, step, at);
  }

  lemma {:induction false} CancelListsAreGentle(g: Graph, s: RunState, order: seq<string>)
    ensures AllGentle(CancelRows(s, order)) && AllGentle(CancelOthers(s, order))
  {
    if |order| > 0 { CancelListsAreGentle(g, s, order[..|order| - 1]); }
  }

  lemma {:induction false} CancelWaitsAreGentle(g: Graph, s: RunState, k: nat)
    ensures AllGentle(CancelWaits(g, s, k))
  {
    if k > 0 { CancelWaitsAreGentle(g, s, k - 1); }
  }

  /** t is a calm change of s, perhaps followed by the end of the run. */
  ghost predicate Closes(s: RunState, t: RunState) {
    || Calm(s, t)
    || (s.status.RunRunning? && !t.status.RunRunning? && s.acts <= t.acts && |s.acts| < |t.acts|
        && Calm(s, t.(status := s.status, acts := t.acts[..|t.acts| - 1])) &&
           t.acts[|t.acts| - 1] == Logged(RunEnded(t.status, "")))
  }

  lemma EndCloses(s: RunState, u: RunState, st: RunStatus, at: int)
    requires Calm(s, u) && s.status.RunRunning? && !st.RunRunning?
    ensures Closes(s, Log(u, RunEnded(st, ""), at))
  {
    var t := Log(u, RunEnded(st, ""), at);
    assert t.(status := s.status, acts := t.acts[..|t.acts| - 1]) == u;
  }

  lemma CancelCloses(g: Graph, s: RunState, at: int)
    requires s.status.RunRunning?
    ensures Closes(s, DoCancel(g, s, at))
  {
    hide Calm, LogAll, WaitLimit;
    var bs := CancelRows(s, g.order) + CancelOthers(s, g.order) + CancelWaits(g, s, WaitLimit(s.waits));
    CancelListsAreGentle(g, s, g.order);
    CancelWaitsAreGentle(g, s, WaitLimit(s.waits));
    LogAllCalm(s, bs, at);
    var t := LogAll(s, bs, at);
    if NoneActive(t) { EndCloses(s, t, RunCancelled, at); }
  }

  lemma EndIsNotRunning(g: Graph, s: RunState)
    ensures EndOf(g, s).Some? ==> !EndOf(g, s).value.RunRunning?
  {
  }

  lemma StepCloses(g: Graph, s: RunState, step: Step, at: int)
    requires ValidGraph(g) && Inv(g, s) && ScanOk(g, s) && !step.BeginStep? && !step.ListNodes? && !step.Claim?
    ensures Closes(s, Next(g, s, step, at))
  {
    hide Inv, Log, Calm, ValidGraph, DoCancel, EndOf;
    CalmSelf(s);
    EndIsNotRunning(g, s);
    match step
    case CancelRun => if s.status.RunRunning? { CancelCloses(g, s, at); }
    case AbandonRun => if s.status.RunRunning? { EndCloses(s, s, RunAbandoned, at); }
    case CompleteRun => if s.status.RunRunning? && EndOf(g, s).Some? { EndCloses(s, s, EndOf(g, s).value, at); }
    case _ => hide Next; StepCalm(g, s, step, at);
  }

  // ---- every later state of a run ----

  lemma RunNext(g: Graph, steps: seq<(Step, int)>, step: Step, at: int)
    ensures Run(g, steps + [(step, at)]) == Next(g, Run(g, steps), step, at)
  {
    assert (steps + [(step, at)])[..|steps|] == steps;
  }

  /** The last step of a longer run. */
  lemma Unsnoc(g: Graph, steps: seq<(Step, int)>, more: seq<(Step, int)>)
    requires |more| > 0
    ensures var (step, at) := more[|more| - 1];
            Run(g, steps + more) == Next(g, Run(g, steps + more[..|more| - 1]), step, at)
  {
    assert steps + more == (steps + more[..|more| - 1]) + [more[|more| - 1]];
    RunNext(g, steps + more[..|more| - 1], more[|more| - 1].0, more[|more| - 1].1);
  }

  /** A start is the only thing a claim can append, and only on a node that nothing has cancelled. */
  lemma ClaimAppends(g: Graph, s: RunState, n: string, at: int)
    ensures var t := Next(g, s, Claim(n), at);
            && t.status == s.status
            && (t.acts == s.acts ||
                (IsListed(s, n) && n in g.defs && Claimable(s, n) && t.acts == s.acts + [Logged(StartBody(g, s, n))]))
            && (forall x :: Has(s, x, Cancelled) ==> Has(t, x, Cancelled))
            && (forall x :: Has(s, x, CancelRequested) ==> Has(t, x, CancelRequested))
            && (forall x :: IsListed(t, x) ==> IsListed(s, x))
            && t.checked == s.checked
  {
    RunSteps.ClaimIs(g, s, n, at);
    hide Next;
    if IsListed(s, n) && n in g.defs && Claimable(s, n) { RunSteps.LogRest(s, StartBody(g, s, n), at); }
    hide Log, OperationKey;
  }

  /** A cancelled node stays cancelled, and one asked to stop can only become cancelled. */
  lemma StepKeepsCancellation(g: Graph, s: RunState, step: Step, at: int, n: string)
    requires ValidGraph(g) && Inv(g, s) && ScanOk(g, s)
    ensures Has(s, n, Cancelled) ==> Has(Next(g, s, step, at), n, Cancelled)
    ensures Has(s, n, CancelRequested) ==>
            Has(Next(g, s, step, at), n, CancelRequested) || Has(Next(g, s, step, at), n, Cancelled)
  {
    hide Next, Inv, ValidGraph, ScanOk;
    if step.Claim? {
      ClaimAppends(g, s, step.node, at);
    } else if step.BeginStep? {
      RunSteps.BeginIs(g, s, at);
    } else if step.ListNodes? {
      RunSteps.ListIs(g, s, at);
    } else {
      StepCloses(g, s, step, at);
    }
  }

  lemma {:induction false} CancellationIsFinal(g: Graph, steps: seq<(Step, int)>, more: seq<(Step, int)>, n: string)
    requires ValidGraph(g)
    ensures var s, t := Run(g, steps), Run(g, steps + more);
            && (Has(s, n, Cancelled) ==> Has(t, n, Cancelled))
            && (Has(s, n, CancelRequested) ==> Has(t, n, CancelRequested) || Has(t, n, Cancelled))
    decreases |more|
  {
    hide Inv, Next, ValidGraph;
    if |more| == 0 {
      assert steps + more == steps;
    } else {
      var init := more[..|more| - 1];
      CancellationIsFinal(g, steps, init, n);
      Unsnoc(g, steps, more);
      RunKeeps(g, steps + init);
      StepKeepsCancellation(g, Run(g, steps + init), more[|more| - 1].0, more[|more| - 1].1, n);
    }
  }

  // ---- a cancelled run starts nothing ----

  /** No start stands at or after position k. */
  ghost predicate NoStartFrom(acts: seq<Act>, k: nat) { forall i :: k <= i < |acts| ==> !IsStart(acts[i]) }

  lemma ClosesAppends(s: RunState, t: RunState)
    requires Closes(s, t)
    ensures s.acts <= t.acts && NoStartFrom(t.acts, |s.acts|)
  {
    if !Calm(s, t) {
      var u := t.(status := s.status, acts := t.acts[..|t.acts| - 1]);
      assert Calm(s, u);
      forall i | |s.acts| <= i < |t.acts|
        ensures !IsStart(t.acts[i])
      {
        if i < |u.acts| { assert u.acts[i] == t.acts[i]; }
      }
    }
  }

  /** Appending to the record, without starting anything unless the step is a claim. */
  lemma StepAppends(g: Graph, s: RunState, step: Step, at: int)
    requires ValidGraph(g) && Inv(g, s) && ScanOk(g, s)
    ensures s.acts <= Next(g, s, step, at).acts
    ensures !step.Claim? ==> NoStartFrom(Next(g, s, step, at).acts, |s.acts|)
  {
    hide Inv, Closes, ValidGraph;
    if step.Claim? {
      hide Next;
      ClaimAppends(g, s, step.node, at);
    } else if !step.BeginStep? && !step.ListNodes? {
      hide Next;
      StepCloses(g, s, step, at);
      ClosesAppends(s, Next(g, s, step, at));
    }
  }

  lemma FrozenStepStartsNothing(g: Graph, s: RunState, step: Step, at: int)
    requires ValidGraph(g) && Inv(g, s) && ScanOk(g, s) && Frozen(g, s)
    ensures NoStartFrom(Next(g, s, step, at).acts, |s.acts|)
  {
    hide Next;
    StepAppends(g, s, step, at);
    if step.Claim? {
      ClaimAppends(g, s, step.node, at);
      if IsListed(s, step.node) { FrozenIsNotClaimable(g, s, step.node); }
    }
  }

  lemma {:induction false} FrozenForever(g: Graph, steps: seq<(Step, int)>, more: seq<(Step, int)>)
    requires ValidGraph(g) && Frozen(g, Run(g, steps))
    ensures Frozen(g, Run(g, steps + more)) && Run(g, steps).acts <= Run(g, steps + more).acts
    ensures NoStartFrom(Run(g, steps + more).acts, |Run(g, steps).acts|)
    decreases |more|
  {
    hide Inv, Next, ValidGraph, Frozen;
    if |more| == 0 {
      assert steps + more == steps;
    } else {
      var init, step, at := more[..|more| - 1], more[|more| - 1].0, more[|more| - 1].1;
      FrozenForever(g, steps, init);
      Unsnoc(g, steps, more);
      RunKeeps(g, steps + init);
      var s := Run(g, steps + init);
      StepAppends(g, s, step, at);
      FrozenStepStartsNothing(g, s, step, at);
      StepKeeps(g, s, step, at);
      var t := Run(g, steps + more);
      assert forall i :: 0 <= i < |s.acts| ==> t.acts[i] == s.acts[i];
    }
  }

  /** Once a run has been cancelled, whatever happens next, none of its nodes is started again. */
  lemma CancelledRunStartsNothing(g: Graph, steps: seq<(Step, int)>, at: int, more: seq<(Step, int)>)
    requires ValidGraph(g) && Run(g, steps).status.RunRunning?
    ensures var t := Run(g, steps + [(CancelRun, at)] + more);
            && NoStartFrom(t.acts, |Run(g, steps).acts|)
            && (forall n :: n in g.defs ==>
                            n in t.nodes && (Settled(t.nodes[n].status) || t.nodes[n].status.CancelRequested?))
  {
    hide Inv, ValidGraph, DoCancel;
    var s := Run(g, steps);
    RunKeeps(g, steps);
    RunNext(g, steps, CancelRun, at);
    CancelKeeps(g, s, at);
    StepAppends(g, s, CancelRun, at);
    FrozenForever(g, steps + [(CancelRun, at)], more);
    var t, u := Run(g, steps + [(CancelRun, at)] + more), Run(g, steps + [(CancelRun, at)]);
    assert forall i :: 0 <= i < |u.acts| ==> t.acts[i] == u.acts[i];
  }

  // ---- starts ----

  predicate StartOf(act: Act, n: string) { IsStart(act) && act.body.node == n }
  predicate FailedAttempt(act: Act, n: string, a: int) {
    act.Logged? && act.body.NodeAttemptFailed? && act.body.node == n && act.body.attemptNo == a
  }
  predicate Resumed(act: Act, n: string, a: int) {
    act.Logged? && act.body.NodeRequeued? && act.body.node == n && act.body.attemptNo == a && act.body.resume
  }
  predicate Requeued(act: Act, n: string) {
    act.Logged? && act.body.NodeRequeued? && act.body.node == n && !act.body.resume
  }
  predicate MayRedo(act: Act, n: string) {
    act.Answered? && act.node == n && (act.answer.Absent? || act.answer.Rejected?)
  }


  /** The start of n after the record u. */
  ghost predicate Dispatched(g: Graph, u: Summary, n: string, a: int) {
    && n in g.defs
    && if u.starts == 0 then a == 1
       else && Justified(g.defs[n], u)
            && if g.defs[n].Task? then a == u.last + 1 || (a == u.last && u.resumed && g.defs[n].contract.Idempotent?)
               else g.defs[n] == Router(Some(Pure)) && a == u.last == 1
  }

  ghost predicate AllDispatched(g: Graph, acts: seq<Act>) {
    forall i :: 0 <= i < |acts| && IsStart(acts[i]) ==>
      Dispatched(g, Summarize(acts[..i], acts[i].body.node), acts[i].body.node, acts[i].body.attemptNo)
  }

  lemma ClaimDispatches(g: Graph, s: RunState, n: string)
    requires Inv(g, s) && IsListed(s, n) && n in g.defs && Claimable(s, n)
    ensures Dispatched(g, Summarize(s.acts, n), n, StartBody(g, s, n).attemptNo)
    ensures Summarize(s.acts, n).starts == 0 ==> Ready(g, s, n)
  {
    assert NodeOk(g, s, n);
    hide Summarize;
  }

  lemma StepDispatches(g: Graph, s: RunState, step: Step, at: int)
    requires ValidGraph(g) && Inv(g, s) && ScanOk(g, s) && AllDispatched(g, s.acts)
    ensures AllDispatched(g, Next(g, s, step, at).acts)
  {
    hide Next, Inv, Summarize, Dispatched;
    var t := Next(g, s, step, at);
    StepAppends(g, s, step, at);
    if step.Claim? { ClaimAppends(g, s, step.node, at); }
    forall i | 0 <= i < |t.acts| && IsStart(t.acts[i])
      ensures Dispatched(g, Summarize(t.acts[..i], t.acts[i].body.node), t.acts[i].body.node, t.acts[i].body.attemptNo)
    {
      if i < |s.acts| {
        assert t.acts[..i] == s.acts[..i];
      } else {
        assert t.acts[..i] == s.acts;
        ClaimDispatches(g, s, step.node);
      }
    }
  }

  lemma {:induction false} RunDispatches(g: Graph, steps: seq<(Step, int)>)
    requires ValidGraph(g)
    ensures AllDispatched(g, Run(g, steps).acts)
  {
    hide Next, ValidGraph, Dispatched;
    if |steps| > 0 {
      RunDispatches(g, steps[..|steps| - 1]);
      RunKeeps(g, steps[..|steps| - 1]);
      hide Inv, AllDispatched;
      StepDispatches(g, Run(g, steps[..|steps| - 1]), steps[|steps| - 1].0, steps[|steps| - 1].1);
    }
  }

  /** A start of a task carries the operation key of its attempt, any other start none. */
  predicate Keyed(g: Graph, act: Act) {
    IsStart(act) ==>
    act.body.opKey ==
    if IsTask(g, act.body.node) then OperationKey(g.run, act.body.node, act.body.attemptNo) else ""
  }

  lemma StepIsKeyed(g: Graph, s: RunState, step: Step, at: int)
    requires ValidGraph(g) && Inv(g, s) && ScanOk(g, s) && forall i :: 0 <= i < |s.acts| ==> Keyed(g, s.acts[i])
    ensures forall i :: 0 <= i < |Next(g, s, step, at).acts| ==> Keyed(g, Next(g, s, step, at).acts[i])
  {
    hide Next, Inv, OperationKey;
    StepAppends(g, s, step, at);
    if step.Claim? { ClaimAppends(g, s, step.node, at); }
  }

  lemma {:induction false} RunIsKeyed(g: Graph, steps: seq<(Step, int)>)
    requires ValidGraph(g)
    ensures forall i :: 0 <= i < |Run(g, steps).acts| ==> Keyed(g, Run(g, steps).acts[i])
  {
    hide Next, ValidGraph, Keyed, Inv;
    if |steps| > 0 {
      RunIsKeyed(g, steps[..|steps| - 1]);
      RunKeeps(g, steps[..|steps| - 1]);
      StepIsKeyed(g, Run(g, steps[..|steps| - 1]), steps[|steps| - 1].0, steps[|steps| - 1].1);
    }
  }

  /** Two starts of tasks carry the same operation key exactly if they start the same attempt of one node. */
  lemma OneKeyPerAttempt(g: Graph, steps: seq<(Step, int)>, k: nat, i: nat)
    requires ValidGraph(g)
    requires var acts := Run(g, steps).acts; k < |acts| && i < |acts| && IsStart(acts[k]) && IsStart(acts[i])
    requires var acts := Run(g, steps).acts; IsTask(g, acts[k].body.node) && IsTask(g, acts[i].body.node)
    ensures var b, c := Run(g, steps).acts[k].body, Run(g, steps).acts[i].body;
            b.opKey == c.opKey <==> b.node == c.node && b.attemptNo == c.attemptNo
  {
    var b, c := Run(g, steps).acts[k].body, Run(g, steps).acts[i].body;
    RunIsKeyed(g, steps);
    hide Run, OperationKey;
    assert Keyed(g, Run(g, steps).acts[k]) && Keyed(g, Run(g, steps).acts[i]);
    if b.opKey == c.opKey { KeysIdentifyAttempts(g.run, b.node, b.attemptNo, g.run, c.node, c.attemptNo); }
  }

  /** What the record says after the last start of n. */
  lemma {:induction false} SinceStart(acts: seq<Act>, k: nat, i: nat, n: string)
    requires k < i <= |acts| && StartOf(acts[k], n) && forall j :: k < j < i ==> !StartOf(acts[j], n)
    ensures var u, a := Summarize(acts[..i], n), acts[k].body.attemptNo;
            && u.starts > 0 && u.last == a
            && (u.failed <==> exists j :: k < j < i && FailedAttempt(acts[j], n, a))
            && (u.answered <==> exists j :: k < j < i && MayRedo(acts[j], n))
            && (u.resumed <==> exists j :: k < j < i && Resumed(acts[j], n, a))
            && (u.requeued <==> exists j :: k < j < i && Requeued(acts[j], n))
    decreases i
  {
    assert acts[..i] == acts[..i - 1] + [acts[i - 1]];
    SummarizeNext(acts[..i - 1], acts[i - 1], n);
    if k < i - 1 {
      SinceStart(acts, k, i - 1, n);
      hide Summarize;
      assert !StartOf(acts[i - 1], n);
    }
  }

  /** Why a node may start again after its start at k, and before position i: its attempt failed, it was
      resumed under its own number, it was put back for another attempt, or its executor said that the effect
      is not there. Gates start once, and routers again only with a pure executor. */
  ghost predicate Pardoned(d: NodeDef, acts: seq<Act>, n: string, k: nat, i: nat)
    requires k < i <= |acts| && IsStart(acts[k])
  {
    var a := acts[k].body.attemptNo;
    match d
    case Gate(_) => false
    case Router(c) => c == Some(Pure) && exists j :: k < j < i && Requeued(acts[j], n)
    case Task(c, _) =>
      || (exists j :: k < j < i && FailedAttempt(acts[j], n, a))
      || (c.Pure? && exists j :: k < j < i && Requeued(acts[j], n))
      || (c.Idempotent? && exists j :: k < j < i && Resumed(acts[j], n, a))
      || (c.Reconcilable? && exists j :: k < j < i && MayRedo(acts[j], n))
  }

  lemma StartView(g: Graph, steps: seq<(Step, int)>, i: nat)
    requires ValidGraph(g) && i < |Run(g, steps).acts| && IsStart(Run(g, steps).acts[i])
    ensures var acts := Run(g, steps).acts;
            var b := acts[i].body;
            Dispatched(g, Summarize(acts[..i], b.node), b.node, b.attemptNo) && Keyed(g, acts[i])
  {
    hide Run, Dispatched, Keyed, ValidGraph;
    RunDispatches(g, steps);
    RunIsKeyed(g, steps);
  }

  /** Two successive starts of a node: what happened in between allows the second. A task's second start has
      the next attempt number and another operation key, unless it resumes an idempotent attempt under the
      same number and key; a router starts again under number 1 and without a key. */
  lemma RestartRespectsContract(g: Graph, steps: seq<(Step, int)>, k: nat, i: nat, n: string)
    requires ValidGraph(g)
    requires var acts := Run(g, steps).acts;
             k < i < |acts| && StartOf(acts[k], n) && StartOf(acts[i], n) &&
             forall j :: k < j < i ==> !StartOf(acts[j], n)
    ensures n in g.defs && Pardoned(g.defs[n], Run(g, steps).acts, n, k, i)
    ensures var acts := Run(g, steps).acts;
            var a, b := acts[k].body.attemptNo, acts[i].body.attemptNo;
            if g.defs[n].Task? then
              && (b == a + 1 ||
                  (b == a && g.defs[n].contract.Idempotent? && exists j :: k < j < i && Resumed(acts[j], n, a)))
              && (acts[i].body.opKey == acts[k].body.opKey <==> b == a)
            else a == b == 1 && acts[i].body.opKey == acts[k].body.opKey == ""
  {
    hide Run, Summarize, ValidGraph, OperationKey;
    var acts := Run(g, steps).acts;
    StartView(g, steps, i);
    StartView(g, steps, k);
    SinceStart(acts, k, i, n);
    if g.defs[n].Task? {
      OneKeyPerAttempt(g, steps, k, i);
      hide Keyed;
    }
  }

  /** When a node is started for the first time all its dependencies are done and all routes into it have
      been traversed: there is a state before the start in which they are. */
  lemma {:induction false} FirstStartIsReady(g: Graph, steps: seq<(Step, int)>, i: nat, n: string)
    requires ValidGraph(g)
    requires var acts := Run(g, steps).acts;
             i < |acts| && StartOf(acts[i], n) && forall j :: 0 <= j < i ==> !StartOf(acts[j], n)
    ensures exists m :: 0 <= m < |steps| && Run(g, steps[..m]).acts == Run(g, steps).acts[..i] &&
                        Ready(g, Run(g, steps[..m]), n)
  {
    hide Next, Inv, ValidGraph, Summarize, Ready;
    var init := steps[..|steps| - 1];
    var s, step, at, t := Run(g, init), steps[|steps| - 1].0, steps[|steps| - 1].1, Run(g, steps);
    RunKeeps(g, init);
    StepAppends(g, s, step, at);
    if i < |s.acts| {
      assert s.acts[i] == t.acts[i];
      FirstStartIsReady(g, init, i, n);
      var m :| 0 <= m < |init| && Run(g, init[..m]).acts == s.acts[..i] && Ready(g, Run(g, init[..m]), n);
      assert steps[..m] == init[..m] && s.acts[..i] == t.acts[..i];
    } else {
      ClaimAppends(g, s, step.node, at);
      assert t.acts[..i] == s.acts;
      NeverStarted(s.acts, n);
      ClaimDispatches(g, s, n);
      assert steps[..|init|] == init;
    }
  }

  lemma {:induction false} NeverStarted(acts: seq<Act>, n: string)
    requires forall j :: 0 <= j < |acts| ==> !StartOf(acts[j], n)
    ensures Summarize(acts, n).starts == 0
  {
    if |acts| > 0 {
      assert !StartOf(acts[|acts| - 1], n);
      NeverStarted(acts[..|acts| - 1], n);
    }
  }
}
