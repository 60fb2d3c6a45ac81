/** A cancellation that cannot finish: a node that was asked to stop, and that nothing will cancel. */
module RunStuck {
  import opened Events
  import opened OperationKeys
  import opened Options
  import opened RunEngine
  import opened RunRecovery
  import opened RunSafety
  import opened RunTheorems
  import opened RunEnding
  import opened RunStranded

  // ---- what can still cancel a node ----

  /** The recovery under way gets to n, and its visit cancels it: n had been asked to stop when it was read,
      or its executor is asked about its effect. */
  ghost predicate Reaches(g: Graph, scan: seq<Visit>, n: string)
    requires IsTask(g, n)
  {
    exists i :: 0 <= i < |scan| && scan[i].node == n && (scan[i].stop || g.defs[n].contract.Reconcilable?) &&
                forall j :: 0 <= j < i ==> !Stops(g, scan[j])
  }

  /** A recovery cancels tasks of these contracts. */
  predicate Answerable(g: Graph, n: string) {
    IsTask(g, n) && (g.defs[n].contract.Pure? || g.defs[n].contract.Reconcilable?)
  }

  /** An execution is left to answer; or recovery cancels nodes of this contract and gets to the node, in the
      pass under way or in the next one, which a stranded gate or router would end. */
  ghost predicate Cancellable(g: Graph, s: RunState, n: string) {
    || IsFlying(s, n)
    || (Answerable(g, n) && (Reaches(g, s.scan, n) || forall b :: Before(g, b, n) ==> !Stranded(g, s, b)))
  }

  /** Asked to stop, and nothing can cancel it. */
  ghost predicate Stuck(g: Graph, s: RunState, n: string) { Has(s, n, CancelRequested) && !Cancellable(g, s, n) }

  // ---- nothing does ----

  /** A visit leaves a node whose contract recovery does not cancel as it is, if it was asked to stop. */
  lemma VisitLeaves(g: Graph, s: RunState, n: string, stop: bool, at: int)
    requires Inv(g, s) && n in g.defs && Has(s, n, CancelRequested)
    requires !Answerable(g, n) || (g.defs[n].contract.Pure? && !stop)
    ensures Has(DoRecover(g, s, n, stop, at), n, CancelRequested)
  {
    KnownIsTask(g, s, n);
    hide Inv;
  }

  lemma StuckVisit(g: Graph, s: RunState, step: Step, at: int, n: string)
    requires ValidGraph(g) && Inv(g, s) && ScanOk(g, s) && Stuck(g, s, n) && Visits(s, step, n)
    ensures Has(Next(g, s, step, at), n, CancelRequested) && !IsFlying(Next(g, s, step, at), n)
  {
    hide Inv, ValidGraph, Before, Stranded, DoRecover, DoReconcile, ScanAfter;
    var v := s.scan[0];
    assert VisitOk(g, s, v);
    if step.Recover? {
      if !v.asked {
        VisitLeaves(g, s, n, v.stop, at);
        RecoverSelf(g, s, n, v.stop, at);
      }
    } else {
      assert !v.asked;
    }
  }

  lemma StuckHolds(g: Graph, s: RunState, step: Step, at: int, n: string)
    requires ValidGraph(g) && Inv(g, s) && ScanOk(g, s) && Stuck(g, s, n)
    ensures Has(Next(g, s, step, at), n, CancelRequested) && !IsFlying(Next(g, s, step, at), n)
  {
    hide Inv, ScanOk, ValidGraph, Next, Reaches, Stranded, Before;
    if Visits(s, step, n) { StuckVisit(g, s, step, at, n); } else { InertStays(g, s, step, at, n); }
  }

  lemma ShutIsNotReached(g: Graph, scan: seq<Visit>, n: string)
    requires IsTask(g, n) && Shut(g, scan, n)
    ensures !Reaches(g, scan, n)
  {
  }

  /** A visit that does not cancel n does not bring a recovery nearer to it. */
  lemma ReachMoves(g: Graph, s: RunState, step: Step, at: int, n: string)
    requires ValidGraph(g) && Inv(g, s) && ScanOk(g, s) && (step.Recover? || step.Reconcile?) && IsTask(g, n)
    requires Reaches(g, Next(g, s, step, at).scan, n)
    ensures Reaches(g, s.scan, n)
  {
    hide ValidGraph, Inv, ScanOk, Next;
    if s.scan == [] {
      NoScanMoves(g, s, step, at);
    } else {
      ScanMoves(g, s, step, at);
      var scan := Next(g, s, step, at).scan;
      var i :| 0 <= i < |scan| && scan[i].node == n && (scan[i].stop || g.defs[n].contract.Reconcilable?) &&
               forall j :: 0 <= j < i ==> !Stops(g, scan[j]);
      var k := if scan == s.scan[1..] then i + 1 else i;
      forall j | 0 <= j < k
        ensures !Stops(g, s.scan[j])
      {
        if scan == s.scan[1..] {
          if j > 0 { assert scan[j - 1] == s.scan[j]; }
        } else {
          assert !Stops(g, scan[j]);
        }
      }
      assert s.scan[k].node == n && (s.scan[k].stop || g.defs[n].contract.Reconcilable?);
    }
  }

  lemma NothingReached(g: Graph, n: string)
    requires IsTask(g, n)
    ensures !Reaches(g, [], n)
  {
  }

  lemma StuckIsShutOff(g: Graph, s: RunState, step: Step, at: int, b: string, n: string)
    requires ValidGraph(g) && Inv(g, s) && ScanOk(g, s) && IsTask(g, n) && !Reaches(g, s.scan, n)
    requires Stranded(g, s, b) && Before(g, b, n)
    ensures !Reaches(g, Next(g, s, step, at).scan, n)
  {
    hide ValidGraph, Inv, ScanOk, Next, Reaches, Stranded, Before;
    if step.Recover? || step.Reconcile? {
      if Reaches(g, Next(g, s, step, at).scan, n) { ReachMoves(g, s, step, at, n); }
    } else if step.BeginScan? {
      BeginsUnreached(g, s, step.leased, at, b, n);
    } else {
      ScanWaits(g, s, step, at);
      NothingReached(g, n);
    }
  }

  lemma BeginsUnreached(g: Graph, s: RunState, leased: set<string>, at: int, b: string, n: string)
    requires ValidGraph(g) && Inv(g, s) && IsTask(g, n) && !Reaches(g, s.scan, n)
    requires Stranded(g, s, b) && Before(g, b, n)
    ensures !Reaches(g, Next(g, s, BeginScan(leased), at).scan, n)
  {
    hide ValidGraph, Inv, Reaches, Stranded, Before, ScanOf, Shut;
    if forall x :: x in leased ==> IsTask(g, x) {
      NewScanIsShut(g, s, leased, b, n);
      ShutIsNotReached(g, ScanOf(s, leased, g.sweep), n);
    }
  }

  lemma StuckStays(g: Graph, s: RunState, step: Step, at: int, n: string)
    requires ValidGraph(g) && Inv(g, s) && ScanOk(g, s) && Stuck(g, s, n)
    ensures Stuck(g, Next(g, s, step, at), n)
  {
    hide Inv, ScanOk, ValidGraph, Next, Reaches, Stranded, Before;
    StuckHolds(g, s, step, at, n);
    if Answerable(g, n) {
      var b :| Before(g, b, n) && Stranded(g, s, b);
      StrandedStays(g, s, step, at, b);
      StuckIsShutOff(g, s, step, at, b, n);
    }
  }

  lemma StuckIsInert(g: Graph, s: RunState, n: string)
    requires Stuck(g, s, n)
    ensures Inert(s, n)
  {
  }

  /** A stuck node stays stuck whatever happens, and its run never becomes cancelled or completed. */
  lemma {:induction false} StuckForever(g: Graph, steps: seq<(Step, int)>, more: seq<(Step, int)>, n: string)
    requires ValidGraph(g) && Stuck(g, Run(g, steps), n)
    requires !Run(g, steps).status.RunCancelled? && !Run(g, steps).status.RunCompleted?
    ensures var t := Run(g, steps + more); Stuck(g, t, n) && !t.status.RunCancelled? && !t.status.RunCompleted?
    decreases |more|
  {
    hide Inv, ScanOk, Next, ValidGraph, Stuck, Run;
    if |more| == 0 {
      assert steps + more == steps;
    } else {
      var init, step, at := more[..|more| - 1], more[|more| - 1].0, more[|more| - 1].1;
      StuckForever(g, steps, init, n);
      Unsnoc(g, steps, more);
      RunKeeps(g, steps + init);
      var s := Run(g, steps + init);
      StuckStays(g, s, step, at, n);
      StuckIsInert(g, s, n);
      StuckIsInert(g, Next(g, s, step, at), n);
      InertKeepsOpen(g, s, step, at, n);
    }
  }

  lemma {:induction false} StuckInEveryRun(g: Graph, steps: seq<(Step, int)>, more: seq<(Step, int)>, n: string)
    requires ValidGraph(g) && Stuck(g, Run(g, steps), n)
    ensures Stuck(g, Run(g, steps + more), n)
    decreases |more|
  {
    hide Inv, ScanOk, Next, ValidGraph, Stuck, Run;
    if |more| == 0 {
      assert steps + more == steps;
    } else {
      var init := more[..|more| - 1];
      StuckInEveryRun(g, steps, init, n);
      Unsnoc(g, steps, more);
      RunKeeps(g, steps + init);
      StuckStays(g, Run(g, steps + init), more[|more| - 1].0, more[|more| - 1].1, n);
    }
  }

  // ---- cancelling what can be cancelled ----

  lemma AnswerCancels(g: Graph, s: RunState, n: string)
    requires Has(s, n, CancelRequested) && IsFlying(s, n)
    ensures Has(Next(g, s, FlightCancelled(n), 0), n, Cancelled)
  {
  }

  /** A task that was asked to stop has an attempt. */
  lemma AskedIsKnown(g: Graph, s: RunState, n: string)
    requires Inv(g, s) && Has(s, n, CancelRequested)
    ensures n in g.defs && (IsTask(g, n) ==> n in s.latest)
  {
    assert NodeOk(g, s, n);
  }

  lemma AsksFirst(g: Graph, s: RunState)
    requires Inv(g, s) && ScanOk(g, s) && s.scan != [] && !s.scan[0].asked && !Stops(g, s.scan[0])
    ensures var v, t := s.scan[0], Next(g, s, Recover, 0);
            t.scan == if Executor(g.defs[v.node]) == Some(Reconcilable) then [v.(asked := true)] + s.scan[1..]
                      else s.scan[1..]
  {
    hide DoRecover, Inv, Before;
    assert VisitOk(g, s, s.scan[0]);
    ErrsIsStops(g, s, s.scan[0]);
  }

  lemma AnswerMovesOn(g: Graph, s: RunState, answer: Answer)
    requires ScanOk(g, s) && s.scan != [] && s.scan[0].asked
    ensures Next(g, s, Reconcile(answer, None), 0).scan == s.scan[1..]
  {
    hide DoReconcile, Before;
    assert VisitOk(g, s, s.scan[0]);
  }

  lemma PureVisitCancels(g: Graph, s: RunState, n: string)
    requires Inv(g, s) && ScanOk(g, s) && s.scan != [] && s.scan[0].node == n && s.scan[0].stop && !s.scan[0].asked
    requires IsTask(g, n) && g.defs[n].contract.Pure? && Has(s, n, CancelRequested)
    ensures Has(Next(g, s, Recover, 0), n, Cancelled)
  {
    AskedIsKnown(g, s, n);
    hide Inv, ScanOk;
  }

  lemma ConfirmationCancels(g: Graph, s: RunState, n: string)
    requires ScanOk(g, s) && s.scan != [] && s.scan[0].node == n && s.scan[0].asked && Has(s, n, CancelRequested)
    ensures Has(Next(g, s, Reconcile(Confirmed, None), 0), n, Cancelled)
  {
    assert VisitOk(g, s, s.scan[0]);
    hide ScanOk;
  }

  /** The steps of the visit at the head, with this answer if its executor is asked. */
  function VisitSteps(g: Graph, v: Visit, answer: Answer): seq<(Step, int)>
    requires v.node in g.defs
  {
    if v.asked then [(Reconcile(answer, None), 0)]
    else if Executor(g.defs[v.node]) == Some(Reconcilable) then [(Recover, 0), (Reconcile(answer, None), 0)]
    else [(Recover, 0)]
  }

  lemma TwoMore(g: Graph, steps: seq<(Step, int)>, a: (Step, int), b: (Step, int))
    ensures Run(g, steps + [a, b]) == Next(g, Run(g, steps + [a]), b.0, b.1)
  {
    RunNext(g, steps + [a], b.0, b.1);
    assert steps + [a, b] == steps + [a] + [b];
  }

  /** After a visit that does not stop the recovery the next one is at the head. */
  lemma HeadPasses(g: Graph, steps: seq<(Step, int)>)
    requires ValidGraph(g) && Run(g, steps).scan != [] && !Stops(g, Run(g, steps).scan[0])
    requires Run(g, steps).scan[0].node in g.defs
    ensures Run(g, steps + VisitSteps(g, Run(g, steps).scan[0], Unknown)).scan == Run(g, steps).scan[1..]
  {
    hide Run, Next, Inv, ScanOk, ValidGraph, Stops;
    var s := Run(g, steps);
    RunKeeps(g, steps);
    if s.scan[0].asked {
      AnswerMovesOn(g, s, Unknown);
      RunNext(g, steps, Reconcile(Unknown, None), 0);
    } else {
      AsksFirst(g, s);
      RunNext(g, steps, Recover, 0);
      if Executor(g.defs[s.scan[0].node]) == Some(Reconcilable) {
        RunKeeps(g, steps + [(Recover, 0)]);
        AnswerMovesOn(g, Run(g, steps + [(Recover, 0)]), Unknown);
        TwoMore(g, steps, (Recover, 0), (Reconcile(Unknown, None), 0));
      }
    }
  }

  lemma HeadCancels(g: Graph, steps: seq<(Step, int)>, n: string)
    requires ValidGraph(g) && Answerable(g, n) && Has(Run(g, steps), n, CancelRequested)
    requires var scan := Run(g, steps).scan;
             scan != [] && scan[0].node == n && (scan[0].stop || g.defs[n].contract.Reconcilable?)
    ensures Has(Run(g, steps + VisitSteps(g, Run(g, steps).scan[0], Confirmed)), n, Cancelled)
  {
    hide Run, Next, Inv, ScanOk, ValidGraph;
    var s := Run(g, steps);
    RunKeeps(g, steps);
    if s.scan[0].asked {
      ConfirmationCancels(g, s, n);
      RunNext(g, steps, Reconcile(Confirmed, None), 0);
    } else {
      RunNext(g, steps, Recover, 0);
      if g.defs[n].contract.Pure? {
        PureVisitCancels(g, s, n);
      } else {
        AsksFirst(g, s);
        RunKeeps(g, steps + [(Recover, 0)]);
        AskedIsAsked(g, s, n);
        ConfirmationCancels(g, Run(g, steps + [(Recover, 0)]), n);
        TwoMore(g, steps, (Recover, 0), (Reconcile(Confirmed, None), 0));
      }
    }
  }

  lemma AskedIsAsked(g: Graph, s: RunState, n: string)
    requires ScanOk(g, s) && s.scan != [] && s.scan[0].node == n && IsTask(g, n) && g.defs[n].contract.Reconcilable?
    requires Has(s, n, CancelRequested)
    ensures Has(Next(g, s, Recover, 0), n, CancelRequested)
  {
    assert VisitOk(g, s, s.scan[0]);
    hide ScanOk;
  }

  /** A recovery that reaches n cancels it. */
  lemma {:induction false} ReachCancels(g: Graph, steps: seq<(Step, int)>, n: string, i: nat)
      returns (more: seq<(Step, int)>)
    requires ValidGraph(g) && Answerable(g, n) && Has(Run(g, steps), n, CancelRequested)
    requires var scan := Run(g, steps).scan;
             && i < |scan| && scan[i].node == n && (scan[i].stop || g.defs[n].contract.Reconcilable?)
             && forall j :: 0 <= j < i ==> !Stops(g, scan[j])
    ensures Has(Run(g, steps + more), n, Cancelled)
    decreases i
  {
    hide Run, Next, Inv, ScanOk, ValidGraph, Stops;
    var s := Run(g, steps);
    RunKeeps(g, steps);
    if i == 0 {
      more := VisitSteps(g, s.scan[0], Confirmed);
      HeadCancels(g, steps, n);
    } else {
      HeadIsDefined(g, s);
      var pass := VisitSteps(g, s.scan[0], Unknown);
      HeadPasses(g, steps);
      CancellationIsFinal(g, steps, pass, n);
      if Has(Run(g, steps + pass), n, Cancelled) {
        more := pass;
      } else {
        var rest := ReachCancels(g, steps + pass, n, i - 1);
        more := pass + rest;
        assert steps + more == steps + pass + rest;
      }
    }
  }

  lemma HeadIsDefined(g: Graph, s: RunState)
    requires ScanOk(g, s) && s.scan != []
    ensures s.scan[0].node in g.defs
  {
    assert VisitOk(g, s, s.scan[0]);
  }

  function Airborne(s: RunState): set<string> { set m | m in s.batch && s.batch[m].Flying? }

  /** A flying node is cancelled; the others keep their rows and their places in the batch. */
  lemma LandOne(g: Graph, s: RunState, m: string)
    requires Inv(g, s) && m in Airborne(s)
    ensures var t := Next(g, s, FlightCancelled(m), 0);
            Airborne(t) == Airborne(s) - {m} && forall b :: Stranded(g, t, b) ==> Stranded(g, s, b)
  {
    FlyingView(g, s, m);
    hide Inv;
    MoveOne(Drop(s, m), NodeCancelled(m, s.batch[m].attempt), 0);
  }

  /** Executions under way can be ended without stranding anything. */
  lemma {:induction false} Land(g: Graph, steps: seq<(Step, int)>) returns (more: seq<(Step, int)>)
    requires ValidGraph(g)
    ensures var s, t := Run(g, steps), Run(g, steps + more);
            Airborne(t) == {} && forall b :: Stranded(g, t, b) ==> Stranded(g, s, b)
    decreases Airborne(Run(g, steps))
  {
    hide Run, Next, Inv, ScanOk, ValidGraph, Stranded;
    var s := Run(g, steps);
    if Airborne(s) == {} {
      assert steps + [] == steps;
      more := [];
    } else {
      var m :| m in Airborne(s);
      RunKeeps(g, steps);
      LandOne(g, s, m);
      RunNext(g, steps, FlightCancelled(m), 0);
      var rest := Land(g, steps + [(FlightCancelled(m), 0)]);
      more := [(FlightCancelled(m), 0)] + rest;
      assert steps + more == steps + [(FlightCancelled(m), 0)] + rest;
    }
  }

  lemma CrashIs(g: Graph, s: RunState, at: int)
    ensures Next(g, s, Crash, at) == s.(batch := map[], checked := false, scan := [])
  {
  }

  /** With nothing flying a new pass visits what it reads, and stops only at stranded nodes. */
  lemma BeginScanFrom(g: Graph, t: RunState)
    requires t.batch == map[] && !t.checked && t.scan == []
    ensures Next(g, t, BeginScan({}), 0) == t.(scan := ScanOf(t, {}, g.sweep))
  {
    hide ScanOf;
  }

  lemma FreshPass(g: Graph, s: RunState, n: string) returns (i: nat)
    requires ValidGraph(g) && Inv(g, s) && Airborne(s) == {} && Has(s, n, CancelRequested) && n in g.defs
    requires forall b :: Before(g, b, n) ==> !Stranded(g, s, b)
    ensures var scan := Next(g, Next(g, s, Crash, 0), BeginScan({}), 0).scan;
            && i < |scan| && scan[i].node == n && scan[i].stop
            && forall j :: 0 <= j < i ==> !Stops(g, scan[j])
  {
    hide Next, Inv, ScanOf, Before, Stops;
    var t := s.(batch := map[], checked := false, scan := []);
    CrashIs(g, s, 0);
    BeginScanFrom(g, t);
    CrashKeeps(g, s);
    var scan := ScanOf(t, {}, g.sweep);
    ScanOfIs(t, {}, g.sweep);
    BeginScanIsOk(g, t, {});
    assert n in g.sweep && Readable(t, {}, n);
    assert VisitOf(t, n) in scan;
    i :| 0 <= i < |scan| && scan[i] == VisitOf(t, n);
    forall j | 0 <= j < i
      ensures !Stops(g, scan[j])
    {
      assert scan[j] in scan && Before(g, scan[j].node, n);
      NotFlying(s, scan[j].node);
    }
  }

  lemma NotFlying(s: RunState, b: string)
    requires Airborne(s) == {}
    ensures !IsFlying(s, b)
  {
    assert b !in Airborne(s);
  }

  lemma NewPassCancels(g: Graph, steps: seq<(Step, int)>, n: string) returns (more: seq<(Step, int)>)
    requires ValidGraph(g) && Answerable(g, n) && Has(Run(g, steps), n, CancelRequested)
    requires forall b :: Before(g, b, n) ==> !Stranded(g, Run(g, steps), b)
    ensures Has(Run(g, steps + more), n, Cancelled)
  {
    hide Run, Next, Inv, ScanOk, ValidGraph, Stranded, Before, Stops;
    var land := Land(g, steps);
    CancellationIsFinal(g, steps, land, n);
    var t := Run(g, steps + land);
    if Has(t, n, Cancelled) {
      more := land;
    } else {
      RunKeeps(g, steps + land);
      var i := FreshPass(g, t, n);
      var begin := [(Crash, 0), (BeginScan({}), 0)];
      RunNext(g, steps + land, Crash, 0);
      TwoMore(g, steps + land, (Crash, 0), (BeginScan({}), 0));
      CancellationIsFinal(g, steps + land, begin, n);
      if Has(Run(g, steps + land + begin), n, Cancelled) {
        more := land + begin;
        assert steps + more == steps + land + begin;
      } else {
        var rest := ReachCancels(g, steps + land + begin, n, i);
        more := land + begin + rest;
        assert steps + more == steps + land + begin + rest;
      }
    }
  }

  lemma Rescue(g: Graph, steps: seq<(Step, int)>, n: string) returns (more: seq<(Step, int)>)
    requires ValidGraph(g) && Has(Run(g, steps), n, CancelRequested) && Cancellable(g, Run(g, steps), n)
    ensures Has(Run(g, steps + more), n, Cancelled)
  {
    hide Run, Next, ValidGraph, Stranded, Before, Stops;
    var s := Run(g, steps);
    if IsFlying(s, n) {
      AnswerCancels(g, s, n);
      RunNext(g, steps, FlightCancelled(n), 0);
      more := [(FlightCancelled(n), 0)];
    } else if Reaches(g, s.scan, n) {
      var i :| 0 <= i < |s.scan| && s.scan[i].node == n &&
               (s.scan[i].stop || g.defs[n].contract.Reconcilable?) &&
               forall j :: 0 <= j < i ==> !Stops(g, s.scan[j]);
      more := ReachCancels(g, steps, n, i);
    } else {
      more := NewPassCancels(g, steps, n);
    }
  }

  /** In every run, a node that was asked to stop can still become cancelled exactly if its execution is
      under way, or it is a task of a pure or reconcilable contract that a recovery gets to: the one under
      way, or a new one, which ends at the first gate or router whose execution is lost. */
  lemma CancelledExactlyIfCancellable(g: Graph, steps: seq<(Step, int)>, n: string)
    requires ValidGraph(g) && Has(Run(g, steps), n, CancelRequested)
    ensures (exists more :: Has(Run(g, steps + more), n, Cancelled)) <==> Cancellable(g, Run(g, steps), n)
  {
    hide Run, ValidGraph, Cancellable;
    if Cancellable(g, Run(g, steps), n) {
      var more := Rescue(g, steps, n);
      assert Has(Run(g, steps + more), n, Cancelled);
    } else {
      forall more
        ensures !Has(Run(g, steps + more), n, Cancelled)
      {
        StuckInEveryRun(g, steps, more, n);
      }
    }
  }

  // ---- how an execution is lost without a crash ----

  lemma WaitsAreDropped(g: Graph, s: RunState, n: string, w: Option<nat>, at: int)
    requires Has(s, n, CancelRequested) && IsFlying(s, n) && n in g.defs
    ensures DoAskApproval(g, Drop(s, n), n, at) == Drop(s, n) && DoGateWaits(g, Drop(s, n), n, w, at) == Drop(s, n)
  {
  }

  /** The execution of a node that was asked to stop may end without an answer and without a crash: by a
      failure, an uncertain result or a request to wait. */
  lemma EndsWithoutAnswer(g: Graph, s: RunState, step: Step, at: int, n: string)
    requires Has(s, n, CancelRequested) && IsFlying(s, n) && n in g.defs
    requires if g.defs[n].Gate? then step == GateWaits(n, if g.defs[n].listens then Some(0) else None)
             else g.defs[n].Task? && (step == FlightFails(n) || step == FlightUncertain(n) ||
                                      step == FlightDies(n) || step == AskApproval(n))
    ensures Has(Next(g, s, step, at), n, CancelRequested) && !IsFlying(Next(g, s, step, at), n)
  {
    match step
    case FlightFails(_) => FailureLeavesIt(g, s, at, n);
    case AskApproval(_) =>
      hide DoAskApproval;
      WaitsAreDropped(g, s, n, None, at);
    case GateWaits(_, w) =>
      hide DoGateWaits;
      WaitsAreDropped(g, s, n, w, at);
    case _ =>
  }

  lemma FailureLeavesIt(g: Graph, s: RunState, at: int, n: string)
    requires Has(s, n, CancelRequested) && IsFlying(s, n) && IsTask(g, n)
    ensures var t := Next(g, s, FlightFails(n), at); Has(t, n, CancelRequested) && !IsFlying(t, n)
  {
  }

  // ---- it can happen ----

  const ONCE: Graph := Graph(0, ["a"], ["a"], map["a" := Task(Idempotent, 1)], [])

  lemma OnceBegins()
    ensures ValidGraph(ONCE) && Next(ONCE, START, BeginStep, 1) == START.(checked := true)
    ensures Next(ONCE, START.(checked := true), ListNodes, 1) == START.(batch := map["a" := Listed(1)], rounds := 1)
  {
    assert ONCE.order[0] == "a" && ONCE.sweep[0] == "a";
    var s := START.(checked := true);
    assert RunEngine.Eligible(ONCE, s, "a") && s.nodes == map[];
    assert forall n :: n in ONCE.defs <==> n == "a";
    assert List(ONCE, s) == map["a" := Listed(1)];
    assert "a" in List(ONCE, s);
  }

  lemma OnceFlies(s: RunState)
    requires s == START.(batch := map["a" := Listed(1)], rounds := 1)
    ensures var t := Next(ONCE, s, Claim("a"), 2);
            t.status.RunRunning? && t.waits == map[] && t.batch == map["a" := Flying(1)] &&
            t.nodes.Keys == {"a"} && t.nodes["a"].status.Running?
  {
    assert IsListed(s, "a") && Claimable(s, "a") && "a" in ONCE.defs;
  }

  /** A running node of a running run is asked to stop, and the run stays open. */
  lemma IsAsked(g: Graph, s: RunState, n: string, at: int)
    requires ValidGraph(g) && Inv(g, s) && s.status.RunRunning? && Has(s, n, Running)
    ensures var t := Next(g, s, CancelRun, at);
            Has(t, n, CancelRequested) && t.status.RunRunning? && t.batch == s.batch
  {
    hide Inv, ValidGraph, DoCancel;
    CancelAside(g, s, at);
    CancelAt(g, s, at, n);
  }

  const ASKED: seq<(Step, int)> := [(BeginStep, 1), (ListNodes, 1), (Claim("a"), 2), (CancelRun, 3)]

  lemma AskedInFlight()
    ensures ValidGraph(ONCE) && Has(Run(ONCE, ASKED), "a", CancelRequested) && IsFlying(Run(ONCE, ASKED), "a")
  {
    hide Next, Inv, ValidGraph, Run;
    OnceBegins();
    var listed := START.(batch := map["a" := Listed(1)], rounds := 1);
    OnceFlies(listed);
    var steps := [(BeginStep, 1), (ListNodes, 1), (Claim("a"), 2)];
    assert Run(ONCE, []) == START by { EmptyRun(ONCE); }
    RunNext(ONCE, [], BeginStep, 1);
    RunNext(ONCE, [(BeginStep, 1)], ListNodes, 1);
    RunNext(ONCE, [(BeginStep, 1), (ListNodes, 1)], Claim("a"), 2);
    assert [] + [(BeginStep, 1)] == [(BeginStep, 1)];
    assert [(BeginStep, 1)] + [(ListNodes, 1)] == [(BeginStep, 1), (ListNodes, 1)];
    assert [(BeginStep, 1), (ListNodes, 1)] + [(Claim("a"), 2)] == steps;
    RunKeeps(ONCE, steps);
    IsAsked(ONCE, Run(ONCE, steps), "a", 3);
    RunNext(ONCE, steps, CancelRun, 3);
    assert steps + [(CancelRun, 3)] == ASKED;
  }

  lemma EmptyRun(g: Graph)
    ensures Run(g, []) == START
  {
  }

  /** Start, claim and cancel, and then a crash or an ordinary failure: the node is stuck. */
  lemma StuckIsReachable()
    ensures ValidGraph(ONCE)
    ensures Stuck(ONCE, Run(ONCE, ASKED + [(Crash, 4)]), "a")
    ensures Stuck(ONCE, Run(ONCE, ASKED + [(FlightFails("a"), 4)]), "a")
  {
    hide Next, ValidGraph, Run;
    AskedInFlight();
    RunNext(ONCE, ASKED, Crash, 4);
    CrashIs(ONCE, Run(ONCE, ASKED), 4);
    RunNext(ONCE, ASKED, FlightFails("a"), 4);
    EndsWithoutAnswer(ONCE, Run(ONCE, ASKED), FlightFails("a"), 4, "a");
  }

  // ---- a gate keeps a pure task from being cancelled ----

  const PAIR: Graph := Graph(0, ["a", "b"], ["a", "b"], map["a" := Gate(true), "b" := Task(Pure, 1)], [])

  lemma PairBegins()
    ensures ValidGraph(PAIR) && Next(PAIR, START, BeginStep, 1) == START.(checked := true)
    ensures Next(PAIR, START.(checked := true), ListNodes, 1) ==
            START.(batch := map["a" := Listed(1), "b" := Listed(1)], rounds := 1)
  {
    assert PAIR.order[0] == "a" && PAIR.sweep[0] == "a" && PAIR.order[1] == "b" && PAIR.sweep[1] == "b";
    var s := START.(checked := true);
    assert RunEngine.Eligible(PAIR, s, "a") && RunEngine.Eligible(PAIR, s, "b") && s.nodes == map[];
    assert forall n :: n in PAIR.defs <==> n == "a" || n == "b";
    assert List(PAIR, s) == map["a" := Listed(1), "b" := Listed(1)];
    assert "a" in List(PAIR, s);
  }

  lemma PairFlies(s: RunState)
    requires s == START.(batch := map["a" := Listed(1), "b" := Listed(1)], rounds := 1)
    ensures var t := Next(PAIR, Next(PAIR, s, Claim("a"), 2), Claim("b"), 2);
            t.status.RunRunning? && Has(t, "a", Running) && Has(t, "b", Running)
  {
    assert IsListed(s, "a") && Claimable(s, "a") && "a" in PAIR.defs && "b" in PAIR.defs;
    var t := Next(PAIR, s, Claim("a"), 2);
    assert IsListed(t, "b") && Claimable(t, "b") && Has(t, "a", Running) && t.status.RunRunning?;
  }

  /** A gate and a pure task are claimed, the driver crashes, the run is cancelled: recovery would cancel the
      task, but it reads the gate first and ends there, every time. */
  lemma GateKeepsTaskStuck()
    ensures ValidGraph(PAIR)
    ensures var s := Run(PAIR, [(BeginStep, 1), (ListNodes, 1), (Claim("a"), 2), (Claim("b"), 2)] +
                               [(Crash, 3)] + [(CancelRun, 4)]);
            Stranded(PAIR, s, "a") && Stuck(PAIR, s, "b")
  {
    hide Next, Inv, ValidGraph, Run;
    PairBegins();
    PairFlies(START.(batch := map["a" := Listed(1), "b" := Listed(1)], rounds := 1));
    var steps := [(BeginStep, 1), (ListNodes, 1), (Claim("a"), 2), (Claim("b"), 2)];
    FourSteps(PAIR, (BeginStep, 1), (ListNodes, 1), (Claim("a"), 2), (Claim("b"), 2));
    RunNext(PAIR, steps, Crash, 3);
    CrashIs(PAIR, Run(PAIR, steps), 3);
    RunKeeps(PAIR, steps + [(Crash, 3)]);
    var s := Run(PAIR, steps + [(Crash, 3)]);
    IsAsked(PAIR, s, "a", 4);
    IsAsked(PAIR, s, "b", 4);
    RunNext(PAIR, steps + [(Crash, 3)], CancelRun, 4);
    CancelLasts(PAIR, s, 4);
    var t := Next(PAIR, s, CancelRun, 4);
    NoScan(s);
    assert Before(PAIR, "a", "b") by { assert PAIR.sweep[0] == "a" && PAIR.sweep[1] == "b"; }
    assert Stranded(PAIR, t, "a");
    NothingReached(PAIR, "b");
  }

  lemma NoScan(s: RunState)
    requires s.status.RunRunning? && s.scan == []
    ensures Next(PAIR, s, CancelRun, 4).scan == []
  {
    hide LogAll, WaitLimit;
    LogAllAside(s, CancelRows(s, PAIR.order) + CancelOthers(s, PAIR.order) +
                   CancelWaits(PAIR, s, WaitLimit(s.waits)), 4);
  }
}
