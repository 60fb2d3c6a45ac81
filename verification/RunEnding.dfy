/** How runs end, and what can still happen afterwards. */
module RunEnding {
  import opened Events
  import opened OperationKeys
  import opened Options
  import opened RunEngine
  import opened RunRecovery
  import opened RunSafety
  import RunSteps
  import opened RunTheorems

  // ---- at most one end ----

  predicate EndOfRun(act: Act, st: RunStatus) { IsEnd(act) && act.body.status == st }

  /** No end while the run is running, exactly one afterwards, and it says how the run ended. */
  ghost predicate EndsOnce(s: RunState) {
    if s.status.RunRunning? then forall i :: 0 <= i < |s.acts| ==> !IsEnd(s.acts[i])
    else exists k :: 0 <= k < |s.acts| && EndOfRun(s.acts[k], s.status) &&
                     forall i :: 0 <= i < |s.acts| && i != k ==> !IsEnd(s.acts[i])
  }

  lemma CalmEndsOnce(s: RunState, t: RunState)
    requires Calm(s, t) && EndsOnce(s)
    ensures EndsOnce(t)
  {
    if !s.status.RunRunning? {
      var k :| 0 <= k < |s.acts| && EndOfRun(s.acts[k], s.status) &&
               forall i :: 0 <= i < |s.acts| && i != k ==> !IsEnd(s.acts[i]);
      assert EndOfRun(t.acts[k], t.status);
    }
  }

  lemma ClosesEndsOnce(s: RunState, t: RunState)
    requires Closes(s, t) && EndsOnce(s)
    ensures EndsOnce(t)
  {
    if Calm(s, t) {
      CalmEndsOnce(s, t);
    } else {
      var k := |t.acts| - 1;
      var u := t.(status := s.status, acts := t.acts[..k]);
      assert EndOfRun(t.acts[k], t.status);
      forall i | 0 <= i < k
        ensures !IsEnd(t.acts[i])
      {
        assert u.acts[i] == t.acts[i];
        if i < |s.acts| { assert s.acts[i] == t.acts[i]; }
      }
    }
  }

  lemma StepEndsOnce(g: Graph, s: RunState, step: Step, at: int)
    requires ValidGraph(g) && Inv(g, s) && ScanOk(g, s) && EndsOnce(s)
    ensures EndsOnce(Next(g, s, step, at))
  {
    hide Next, Inv, ValidGraph, ScanOk, Closes;
    if step.Claim? {
      ClaimAppends(g, s, step.node, at);
      if !s.status.RunRunning? {
        var k :| 0 <= k < |s.acts| && EndOfRun(s.acts[k], s.status) &&
                 forall i :: 0 <= i < |s.acts| && i != k ==> !IsEnd(s.acts[i]);
        assert EndOfRun(Next(g, s, step, at).acts[k], s.status);
      }
    } else if step.BeginStep? {
      RunSteps.BeginIs(g, s, at);
    } else if step.ListNodes? {
      RunSteps.ListIs(g, s, at);
    } else {
      StepCloses(g, s, step, at);
      ClosesEndsOnce(s, Next(g, s, step, at));
    }
  }

  /** A run gets at most one terminal event. */
  lemma {:induction false} RunEndsOnce(g: Graph, steps: seq<(Step, int)>)
    requires ValidGraph(g)
    ensures EndsOnce(Run(g, steps))
  {
    hide Next, ValidGraph, Inv;
    if |steps| > 0 {
      hide EndsOnce;
      RunEndsOnce(g, steps[..|steps| - 1]);
      RunKeeps(g, steps[..|steps| - 1]);
      StepEndsOnce(g, Run(g, steps[..|steps| - 1]), steps[|steps| - 1].0, steps[|steps| - 1].1);
    }
  }

  // ---- a completed run has finished every node ----

  ghost predicate AllDone(g: Graph, s: RunState) { forall n :: n in g.defs ==> Done(s, n) }

  lemma SameSize<T>(a: set<T>, b: set<T>)
    requires a <= b && |a| == |b|
    ensures a == b
  {
    assert b == a + (b - a);
    assert |b| == |a| + |b - a|;
  }

  lemma CompletedIsDone(g: Graph, s: RunState)
    requires (forall n :: n in s.nodes ==> n in g.defs) && EndOf(g, s) == Some(RunCompleted)
    ensures AllDone(g, s)
  {
    assert |g.defs| == |g.defs.Keys|;
    SameSize(DoneNodes(s), g.defs.Keys);
    assert forall n :: n in g.defs ==> n in DoneNodes(s);
  }

  lemma DoneStays(g: Graph, s: RunState, t: RunState)
    requires AllDone(g, s) && Progress(g, s, t)
    ensures AllDone(g, t)
  {
  }

  /** The status of a run changes once, and completion needs every node done. */
  lemma StatusMoves(g: Graph, s: RunState, step: Step, at: int)
    requires ValidGraph(g) && Inv(g, s) && ScanOk(g, s)
    ensures var t := Next(g, s, step, at);
            && (!s.status.RunRunning? ==> t.status == s.status)
            && (t.status != s.status && t.status.RunCompleted? ==>
                step.CompleteRun? && s.batch == map[] && !s.checked && EndOf(g, s) == Some(RunCompleted))
            && (t.status != s.status && t.status.RunCancelled? ==>
                step.CancelRun? || (step.CompleteRun? && s.batch == map[] && !s.checked))
            && (t.status != s.status && t.status.RunFailed? ==> step.CompleteRun? && s.batch == map[] && !s.checked)
  {
    hide Inv, ValidGraph, Calm, DoCancel, EndOf;
    if CalmStep(step) {
      hide Next;
      StepCalm(g, s, step, at);
      CalmStatus(s, Next(g, s, step, at));
    } else if step.Claim? {
      hide Next;
      ClaimAppends(g, s, step.node, at);
    } else if step.CancelRun? {
      if s.status.RunRunning? { CancelStatus(g, s, at); }
    }
  }

  lemma CalmStatus(s: RunState, t: RunState)
    requires Calm(s, t)
    ensures t.status == s.status && (t.checked ==> s.checked) && forall n :: IsListed(t, n) ==> IsListed(s, n)
  {
  }

  lemma CancelStatus(g: Graph, s: RunState, at: int)
    requires s.status.RunRunning?
    ensures var t := DoCancel(g, s, at); t.status.RunRunning? || t.status.RunCancelled?
  {
    hide LogAll, Calm, WaitLimit;
    var bs := CancelRows(s, g.order) + CancelOthers(s, g.order) + CancelWaits(g, s, WaitLimit(s.waits));
    CancelListsAreGentle(g, s, g.order);
    CancelWaitsAreGentle(g, s, WaitLimit(s.waits));
    LogAllCalm(s, bs, at);
    CalmStatus(s, LogAll(s, bs, at));
  }

  /** In a completed run every defined node has succeeded or been skipped. */
  lemma {:induction false} CompletedRunIsDone(g: Graph, steps: seq<(Step, int)>)
    requires ValidGraph(g)
    ensures Run(g, steps).status.RunCompleted? ==> AllDone(g, Run(g, steps))
  {
    hide Next, ValidGraph, AllDone, NodeOk, WaitOk, ApprovalOk, EndOf, Progress;
    if |steps| > 0 {
      var s, step, at := Run(g, steps[..|steps| - 1]), steps[|steps| - 1].0, steps[|steps| - 1].1;
      var t := Run(g, steps);
      CompletedRunIsDone(g, steps[..|steps| - 1]);
      RunKeeps(g, steps[..|steps| - 1]);
      StepKeeps(g, s, step, at);
      StatusMoves(g, s, step, at);
      if t.status.RunCompleted? {
        if !s.status.RunCompleted? { CompletedIsDone(g, s); }
        DoneStays(g, s, t);
      }
    }
  }

  // ---- starts after the end ----

  /** An ended run, unless it was abandoned, has nothing listed or about to be listed that could start. */
  ghost predicate EndIsQuiet(g: Graph, s: RunState) {
    !s.status.RunRunning? && !s.status.RunAbandoned? ==>
    Frozen(g, s) || (!s.checked && forall n :: !IsListed(s, n))
  }

  lemma ListsOnlyAtBegin(g: Graph, s: RunState, step: Step, at: int)
    requires ValidGraph(g) && Inv(g, s) && ScanOk(g, s) && !step.BeginStep? && !step.ListNodes? && !step.CancelRun?
    ensures forall n :: IsListed(Next(g, s, step, at), n) ==> IsListed(s, n)
    ensures Next(g, s, step, at).checked ==> s.checked
  {
    hide Inv, ValidGraph, Calm, EndOf;
    if CalmStep(step) {
      hide Next;
      StepCalm(g, s, step, at);
      CalmStatus(s, Next(g, s, step, at));
    } else if step.Claim? {
      hide Next;
      ClaimAppends(g, s, step.node, at);
    }
  }

  lemma FrozenStays(g: Graph, s: RunState, t: RunState)
    requires Frozen(g, s) && t.nodes == s.nodes
    ensures Frozen(g, t)
  {
  }

  lemma StepEndIsQuiet(g: Graph, s: RunState, step: Step, at: int)
    requires ValidGraph(g) && Inv(g, s) && ScanOk(g, s) && EndIsQuiet(g, s)
    ensures EndIsQuiet(g, Next(g, s, step, at))
  {
    hide Inv, ValidGraph, Frozen, DoCancel;
    var t := Next(g, s, step, at);
    if step.CancelRun? {
      CancelKeeps(g, s, at);
    } else if step.BeginStep? {
    } else if step.ListNodes? {
      hide List;
      if s.checked && Frozen(g, s) { FrozenStays(g, s, t); }
    } else {
      hide Next;
      ListsOnlyAtBegin(g, s, step, at);
      StatusMoves(g, s, step, at);
      StepKeeps(g, s, step, at);
    }
  }

  /** A start after the end is possible only in an abandoned run. */
  ghost predicate EndsFirst(acts: seq<Act>) {
    forall i, j :: 0 <= i < j < |acts| && IsEnd(acts[i]) && IsStart(acts[j]) ==> acts[i].body.status.RunAbandoned?
  }

  lemma StepEndsFirst(g: Graph, s: RunState, step: Step, at: int)
    requires ValidGraph(g) && Inv(g, s) && ScanOk(g, s) && EndIsQuiet(g, s) && EndsOnce(s) && EndsFirst(s.acts)
    ensures EndsFirst(Next(g, s, step, at).acts)
  {
    hide Inv, ValidGraph, Next, Frozen;
    var t := Next(g, s, step, at);
    StepAppends(g, s, step, at);
    assert forall i :: 0 <= i < |s.acts| ==> t.acts[i] == s.acts[i];
    if step.Claim? {
      ClaimAppends(g, s, step.node, at);
      if t.acts != s.acts {
        if Frozen(g, s) { FrozenIsNotClaimable(g, s, step.node); }
        forall i | 0 <= i < |s.acts| && IsEnd(s.acts[i])
          ensures s.acts[i].body.status.RunAbandoned?
        {
          assert !s.status.RunRunning?;
          var k :| 0 <= k < |s.acts| && EndOfRun(s.acts[k], s.status) &&
                   forall i :: 0 <= i < |s.acts| && i != k ==> !IsEnd(s.acts[i]);
          assert i == k;
        }
      }
    }
  }

  /** After a run has completed, failed or been cancelled none of its nodes is started. */
  lemma {:induction false} EndedRunStartsNothing(g: Graph, steps: seq<(Step, int)>)
    requires ValidGraph(g)
    ensures EndsFirst(Run(g, steps).acts) && EndIsQuiet(g, Run(g, steps))
  {
    hide Next, ValidGraph, Inv;
    if |steps| > 0 {
      hide EndsFirst, EndIsQuiet, EndsOnce;
      var init := steps[..|steps| - 1];
      EndedRunStartsNothing(g, init);
      RunKeeps(g, init);
      RunEndsOnce(g, init);
      StepEndsFirst(g, Run(g, init), steps[|steps| - 1].0, steps[|steps| - 1].1);
      StepEndIsQuiet(g, Run(g, init), steps[|steps| - 1].0, steps[|steps| - 1].1);
    }
  }

  // ---- an abandoned run ----

  /** A listed node that a claim would start. */
  ghost predicate CanStart(s: RunState, n: string) { IsListed(s, n) && Claimable(s, n) }

  /** The state after waits have expired, one after the other. */
  function Lapsed(g: Graph, s: RunState, ws: seq<(nat, int)>): RunState
    decreases |ws|
  {
    if |ws| == 0 then s else Lapsed(g, Next(g, s, ExpireWait(ws[0].0), ws[0].1), ws[1..])
  }

  function Lapses(ws: seq<(nat, int)>): seq<(Step, int)> {
    if |ws| == 0 then [] else [(ExpireWait(ws[0].0), ws[0].1)] + Lapses(ws[1..])
  }

  /** The driver has seen the run running and is about to list nodes, and a node is eligible, perhaps only
      after waits have expired. */
  ghost predicate MayList(g: Graph, s: RunState) {
    s.checked && exists ws, n :: n in g.defs && RunEngine.Eligible(g, Lapsed(g, s, ws), n)
  }

  lemma {:induction false} NothingLapses(g: Graph, s: RunState, ws: seq<(nat, int)>)
    requires forall w :: w in s.waits ==> !s.waits[w].pending
    ensures Lapsed(g, s, ws) == s
    decreases |ws|
  {
    if |ws| > 0 { NothingLapses(g, s, ws[1..]); }
  }

  /** Without pending waits a node must be eligible already. */
  lemma MayListWithoutWaits(g: Graph, s: RunState)
    requires forall w :: w in s.waits ==> !s.waits[w].pending
    ensures MayList(g, s) <==> s.checked && exists n :: n in g.defs && RunEngine.Eligible(g, s, n)
  {
    hide RunEngine.Eligible;
    if MayList(g, s) {
      var ws, n :| n in g.defs && RunEngine.Eligible(g, Lapsed(g, s, ws), n);
      NothingLapses(g, s, ws);
    }
    if s.checked && exists n :: n in g.defs && RunEngine.Eligible(g, s, n) {
      var n :| n in g.defs && RunEngine.Eligible(g, s, n);
      assert RunEngine.Eligible(g, Lapsed(g, s, []), n);
    }
  }

  /** Every listed node of an ended run has been cancelled, and the driver will list no other. */
  ghost predicate NothingToClaim(g: Graph, s: RunState) {
    && !s.status.RunRunning? && (forall n :: IsListed(s, n) ==> Has(s, n, Cancelled))
    && !MayList(g, s)
  }

  /** A listed node that cannot be claimed has been cancelled. */
  lemma UnclaimableIsCancelled(g: Graph, s: RunState)
    requires Inv(g, s)
    ensures forall n :: IsListed(s, n) && !Claimable(s, n) ==> Has(s, n, Cancelled)
  {
    hide Summarize, WaitOk, ApprovalOk, EdgeOk, Ready;
    forall n | IsListed(s, n) && !Claimable(s, n)
      ensures Has(s, n, Cancelled)
    {
      assert NodeOk(g, s, n);
    }
  }

  lemma CheckedListsNothing(g: Graph, s: RunState, at: int)
    requires s.checked && !MayList(g, s)
    ensures Next(g, s, ListNodes, at) == s.(checked := false)
  {
    hide RunEngine.Eligible;
    forall n | n in g.defs
      ensures !RunEngine.Eligible(g, s, n)
    {
      assert Lapsed(g, s, []) == s;
    }
    assert List(g, s) == map[];
  }

  /** In an ended run that the driver has checked, only the expiry of a wait can do anything. */
  lemma CheckedIsIdle(g: Graph, s: RunState, step: Step, at: int)
    requires ScanOk(g, s) && s.checked && !s.status.RunRunning?
    requires !step.ListNodes? && !step.Crash? && !step.ExpireWait?
    ensures Next(g, s, step, at) == s
  {
    hide VisitOk, InOrder;
  }

  lemma StepListsNothing(g: Graph, s: RunState, step: Step, at: int)
    requires ValidGraph(g) && Inv(g, s) && ScanOk(g, s) && NothingToClaim(g, s)
    ensures !MayList(g, Next(g, s, step, at))
  {
    hide Inv, ValidGraph, Next, ScanOk, RunEngine.Eligible;
    var t := Next(g, s, step, at);
    if s.checked {
      if step.ListNodes? {
        CheckedListsNothing(g, s, at);
      } else if step.ExpireWait? {
        LapseFirst(g, s, step.wait, at);
      } else if step.Crash? {
        CrashForgets(g, s, at);
      } else {
        CheckedIsIdle(g, s, step, at);
      }
    } else {
      ChecksOnlyRunning(g, s, step, at);
    }
  }

  lemma LapseFirst(g: Graph, s: RunState, w: nat, at: int)
    requires s.checked
    ensures MayList(g, Next(g, s, ExpireWait(w), at)) ==> MayList(g, s)
  {
    hide Next, RunEngine.Eligible;
    var t := Next(g, s, ExpireWait(w), at);
    if MayList(g, t) {
      var ws, n :| n in g.defs && RunEngine.Eligible(g, Lapsed(g, t, ws), n);
      assert ([(w, at)] + ws)[1..] == ws;
      assert Lapsed(g, s, [(w, at)] + ws) == Lapsed(g, t, ws);
    }
  }

  lemma CrashForgets(g: Graph, s: RunState, at: int)
    ensures !Next(g, s, Crash, at).checked
  {
  }

  lemma ChecksOnlyRunning(g: Graph, s: RunState, step: Step, at: int)
    requires ValidGraph(g) && Inv(g, s) && ScanOk(g, s) && !s.checked && !s.status.RunRunning?
    ensures !Next(g, s, step, at).checked
  {
    hide Inv, ValidGraph, ScanOk;
    if !step.BeginStep? && !step.ListNodes? && !step.CancelRun? {
      hide Next;
      ListsOnlyAtBegin(g, s, step, at);
    }
  }

  lemma StepClaimsNothing(g: Graph, s: RunState, step: Step, at: int)
    requires ValidGraph(g) && Inv(g, s) && ScanOk(g, s) && NothingToClaim(g, s)
    ensures NothingToClaim(g, Next(g, s, step, at)) && NoStartFrom(Next(g, s, step, at).acts, |s.acts|)
  {
    hide Inv, ValidGraph, Calm, ScanOk, MayList;
    var t := Next(g, s, step, at);
    StepListsNothing(g, s, step, at);
    if step.ListNodes? {
      if s.checked { CheckedListsNothing(g, s, at); }
      assert t == s.(checked := false);
      forall n | IsListed(t, n)
        ensures Has(t, n, Cancelled)
      {
        assert IsListed(s, n);
      }
    } else if !step.BeginStep? && !step.CancelRun? {
      hide Next;
      StepAppends(g, s, step, at);
      StatusMoves(g, s, step, at);
      ListsOnlyAtBegin(g, s, step, at);
      if step.Claim? { ClaimAppends(g, s, step.node, at); }
      forall n | IsListed(t, n)
        ensures Has(t, n, Cancelled)
      {
        StepKeepsCancellation(g, s, step, at, n);
      }
    }
  }

  lemma {:induction false} NeverClaims(g: Graph, steps: seq<(Step, int)>, more: seq<(Step, int)>)
    requires ValidGraph(g) && NothingToClaim(g, Run(g, steps))
    ensures NothingToClaim(g, Run(g, steps + more)) && Run(g, steps).acts <= Run(g, steps + more).acts
    ensures NoStartFrom(Run(g, steps + more).acts, |Run(g, steps).acts|)
    decreases |more|
  {
    hide Inv, Next, ValidGraph, NothingToClaim, ScanOk;
    if |more| == 0 {
      assert steps + more == steps;
    } else {
      var init, step, at := more[..|more| - 1], more[|more| - 1].0, more[|more| - 1].1;
      NeverClaims(g, steps, init);
      Unsnoc(g, steps, more);
      RunKeeps(g, steps + init);
      var s, t := Run(g, steps + init), Run(g, steps + more);
      StepAppends(g, s, step, at);
      StepClaimsNothing(g, s, step, at);
      assert forall i :: 0 <= i < |s.acts| ==> t.acts[i] == s.acts[i];
    }
  }

  lemma ClaimStarts(g: Graph, s: RunState, n: string, at: int)
    requires Inv(g, s) && CanStart(s, n)
    ensures Next(g, s, Claim(n), at).acts == s.acts + [Logged(StartBody(g, s, n))]
  {
    hide NodeOk, WaitOk, ApprovalOk, EdgeOk;
    assert n in g.defs;
  }

  // ---- the abandonment itself changes nothing that expiries look at ----

  /** Two states that differ in their records, but not in the decisions recorded, and in their status. */
  ghost predicate Twins(s: RunState, t: RunState) {
    && t.nodes == s.nodes && t.traversed == s.traversed && t.waits == s.waits && t.checked == s.checked
    && forall x {:trigger HasDecision(s.acts, x)} {:trigger HasDecision(t.acts, x)} ::
         HasDecision(s.acts, x) == HasDecision(t.acts, x)
  }

  lemma OneMoreDecision(acts: seq<Act>, b: Body, x: string)
    ensures HasDecision(acts + [Logged(b)], x) <==> HasDecision(acts, x) || (b.DecisionRecorded? && b.node == x)
  {
    if HasDecision(acts, x) {
      var i :| 0 <= i < |acts| && acts[i].Logged? && acts[i].body.DecisionRecorded? && acts[i].body.node == x;
      assert (acts + [Logged(b)])[i] == acts[i];
    }
    if b.DecisionRecorded? && b.node == x { assert (acts + [Logged(b)])[|acts|] == Logged(b); }
  }

  lemma LogTwins(s: RunState, t: RunState, b: Body, at: int)
    requires Twins(s, t)
    ensures Twins(Log(s, b, at), Log(t, b, at))
  {
    hide HasDecision;
    forall x
      ensures HasDecision(Log(s, b, at).acts, x) == HasDecision(Log(t, b, at).acts, x)
    {
      OneMoreDecision(s.acts, b, x);
      OneMoreDecision(t.acts, b, x);
    }
  }

  lemma {:induction false} LogAllTwins(s: RunState, t: RunState, bs: seq<Body>, at: int)
    requires Twins(s, t)
    ensures Twins(LogAll(s, bs, at), LogAll(t, bs, at))
    decreases |bs|
  {
    hide Twins, Log;
    if |bs| > 0 {
      LogTwins(s, t, bs[0], at);
      LogAllTwins(Log(s, bs[0], at), Log(t, bs[0], at), bs[1..], at);
    }
  }

  lemma {:induction false} DecisionsTwins(g: Graph, s: RunState, t: RunState, es: seq<EdgeDef>, n: string)
    requires Twins(s, t)
    ensures EligibilityDecisions(g, s, es, n) == EligibilityDecisions(g, t, es, n)
  {
    hide HasDecision;
    if |es| > 0 {
      DecisionsTwins(g, s, t, es[..|es| - 1], n);
      var to := es[|es| - 1].to;
      assert DependenciesDone(g, s, to) == DependenciesDone(g, t, to) by {
        assert forall x :: Done(s, x) == Done(t, x);
      }
    }
  }

  lemma FinishTwins(g: Graph, s: RunState, t: RunState, n: string, a: int, route: Option<string>, at: int)
    requires Twins(s, t)
    ensures Twins(Finish(g, s, n, a, route, at), Finish(g, t, n, a, route, at))
  {
    hide Log, LogAll;
    var b, ts, ds := Ended(n, a, Finished, ""), Traversals(g.edges, n, route), Decisions(g, n, route);
    LogTwins(s, t, b, at);
    var s1, t1 := Log(s, b, at), Log(t, b, at);
    LogAllTwins(s1, t1, ts, at);
    var s2, t2 := LogAll(s1, ts, at), LogAll(t1, ts, at);
    var ks := Skips(s2.nodes, Blocked(g, g.edges, n, route));
    LogAllTwins(s2, t2, ks, at);
    var s3, t3 := LogAll(s2, ks, at), LogAll(t2, ks, at);
    LogAllTwins(s3, t3, ds, at);
    var s4, t4 := LogAll(s3, ds, at), LogAll(t3, ds, at);
    DecisionsTwins(g, s4, t4, g.edges, n);
    LogAllTwins(s4, t4, EligibilityDecisions(g, s4, g.edges, n), at);
  }

  lemma ExpireTwins(g: Graph, s: RunState, t: RunState, w: nat, at: int)
    requires Twins(s, t)
    ensures Twins(Next(g, s, ExpireWait(w), at), Next(g, t, ExpireWait(w), at))
  {
    hide Log, Finish, RouteWith;
    if w in s.waits && s.waits[w].pending {
      var n, b := s.waits[w].node, WaitExpired(Some(Id(g.run, w)));
      LogTwins(s, t, b, at);
      var u, v := Log(s, b, at), Log(t, b, at);
      var a := RowOf(u.nodes, n).attemptCount;
      FinishTwins(g, u, v, n, a, RouteWith(g.edges, n, "timeout", "expired"), at);
      LogTwins(u, v, Ended(n, a, Failure, ""), at);
    }
  }

  lemma {:induction false} LapsedTwins(g: Graph, s: RunState, t: RunState, ws: seq<(nat, int)>)
    requires Twins(s, t)
    ensures Twins(Lapsed(g, s, ws), Lapsed(g, t, ws))
    decreases |ws|
  {
    hide Next, Twins;
    if |ws| > 0 {
      var step := ExpireWait(ws[0].0);
      ExpireTwins(g, s, t, ws[0].0, ws[0].1);
      LapsedTwins(g, Next(g, s, step, ws[0].1), Next(g, t, step, ws[0].1), ws[1..]);
    }
  }

  lemma TwinsMayList(g: Graph, s: RunState, t: RunState)
    requires Twins(s, t) && MayList(g, s)
    ensures MayList(g, t)
  {
    var ws, n :| n in g.defs && RunEngine.Eligible(g, Lapsed(g, s, ws), n);
    LapsedTwins(g, s, t, ws);
    assert RunEngine.Eligible(g, Lapsed(g, t, ws), n);
  }

  lemma AbandonIs(g: Graph, s: RunState, at: int)
    requires s.status.RunRunning?
    ensures var t := Next(g, s, AbandonRun, at);
            Twins(s, t) && Twins(t, s) && t.batch == s.batch && t.status.RunAbandoned?
  {
    hide HasDecision;
    forall x
      ensures HasDecision(s.acts, x) == HasDecision(Next(g, s, AbandonRun, at).acts, x)
    {
      OneMoreDecision(s.acts, RunEnded(RunAbandoned, ""), x);
    }
  }

  // ---- starting after all ----

  lemma {:induction false} LapsedRuns(g: Graph, steps: seq<(Step, int)>, ws: seq<(nat, int)>)
    ensures Run(g, steps + Lapses(ws)) == Lapsed(g, Run(g, steps), ws)
    decreases |ws|
  {
    hide Next, Run;
    if |ws| == 0 {
      assert steps + Lapses(ws) == steps;
    } else {
      var step := (ExpireWait(ws[0].0), ws[0].1);
      RunNext(g, steps, step.0, step.1);
      LapsedRuns(g, steps + [step], ws[1..]);
      assert steps + Lapses(ws) == steps + [step] + Lapses(ws[1..]);
    }
  }

  lemma ExpireKeepsChecked(g: Graph, s: RunState, w: nat, at: int)
    requires ValidGraph(g) && Inv(g, s)
    ensures Next(g, s, ExpireWait(w), at).checked == s.checked && Next(g, s, ExpireWait(w), at).batch == s.batch
  {
    RunSteps.ExpireWaitIs(g, s, w, at);
    hide Next, Inv, ValidGraph, FlightsLast, DoExpireWait;
    if w in s.waits && s.waits[w].pending { WaitLasts(g, s, w, "", at); }
  }

  lemma {:induction false} LapsedKeepsChecked(g: Graph, steps: seq<(Step, int)>, ws: seq<(nat, int)>)
    requires ValidGraph(g)
    ensures Lapsed(g, Run(g, steps), ws).checked == Run(g, steps).checked
    decreases |ws|
  {
    hide Next, Run, ValidGraph, Inv, ScanOk;
    if |ws| > 0 {
      RunKeeps(g, steps);
      ExpireKeepsChecked(g, Run(g, steps), ws[0].0, ws[0].1);
      RunNext(g, steps, ExpireWait(ws[0].0), ws[0].1);
      LapsedKeepsChecked(g, steps + [(ExpireWait(ws[0].0), ws[0].1)], ws[1..]);
    }
  }

  lemma ListedCanStart(g: Graph, s: RunState, n: string)
    requires s.checked && n in g.defs && RunEngine.Eligible(g, s, n)
    ensures CanStart(Next(g, s, ListNodes, 0), n)
  {
    assert n in List(g, s);
  }

  lemma StartIsLater(g: Graph, steps: seq<(Step, int)>, lapses: seq<(Step, int)>, n: string)
    requires ValidGraph(g) && CanStart(Run(g, steps + lapses), n)
    ensures exists more :: !NoStartFrom(Run(g, steps + more).acts, |Run(g, steps).acts|)
  {
    hide Next, Run, Inv, ValidGraph, ScanOk;
    var more := lapses + [(Claim(n), 0)];
    RunKeeps(g, steps + lapses);
    ClaimStarts(g, Run(g, steps + lapses), n, 0);
    RunNext(g, steps + lapses, Claim(n), 0);
    assert steps + more == steps + lapses + [(Claim(n), 0)];
    ActsGrow(g, steps, lapses);
    var acts := Run(g, steps + more).acts;
    assert IsStart(acts[|acts| - 1]);
  }

  lemma {:induction false} ActsGrow(g: Graph, steps: seq<(Step, int)>, more: seq<(Step, int)>)
    requires ValidGraph(g)
    ensures |Run(g, steps).acts| <= |Run(g, steps + more).acts|
    decreases |more|
  {
    hide Inv, Next, ValidGraph, ScanOk, Run;
    if |more| == 0 {
      assert steps + more == steps;
    } else {
      var init := more[..|more| - 1];
      ActsGrow(g, steps, init);
      Unsnoc(g, steps, more);
      RunKeeps(g, steps + init);
      StepAppends(g, Run(g, steps + init), more[|more| - 1].0, more[|more| - 1].1);
    }
  }

  lemma ListingStarts(g: Graph, steps: seq<(Step, int)>)
    requires ValidGraph(g) && MayList(g, Run(g, steps))
    ensures exists more :: !NoStartFrom(Run(g, steps + more).acts, |Run(g, steps).acts|)
  {
    hide Run, Next, ValidGraph, Lapsed, RunEngine.Eligible;
    var ws, n :| n in g.defs && RunEngine.Eligible(g, Lapsed(g, Run(g, steps), ws), n);
    var lapses := Lapses(ws);
    LapsedRuns(g, steps, ws);
    LapsedKeepsChecked(g, steps, ws);
    ListedCanStart(g, Run(g, steps + lapses), n);
    RunNext(g, steps + lapses, ListNodes, 0);
    assert steps + (lapses + [(ListNodes, 0)]) == steps + lapses + [(ListNodes, 0)];
    StartIsLater(g, steps, lapses + [(ListNodes, 0)], n);
  }

  /** After a running run was abandoned a node is still started in some continuation exactly if, at the
      time, the driver held a listed node that nothing had cancelled, or had seen the run running and was
      about to list a node that is eligible, perhaps only after pending waits have expired. */
  lemma AbandonedRunStartsExactlyIfListed(g: Graph, steps: seq<(Step, int)>, at: int)
    requires ValidGraph(g) && Run(g, steps).status.RunRunning?
    ensures var s, over := Run(g, steps), steps + [(AbandonRun, at)];
            (exists more :: !NoStartFrom(Run(g, over + more).acts, |Run(g, over).acts|)) <==>
            (exists n :: CanStart(s, n)) || MayList(g, s)
  {
    hide Next, Inv, ValidGraph, Run, ScanOk, MayList;
    var s, over := Run(g, steps), steps + [(AbandonRun, at)];
    var t := Run(g, over);
    RunKeeps(g, steps);
    RunNext(g, steps, AbandonRun, at);
    AbandonIs(g, s, at);
    RunKeeps(g, over);
    if exists n :: CanStart(s, n) {
      var n :| CanStart(s, n);
      assert over + [] == over;
      StartIsLater(g, over, [], n);
    } else if MayList(g, s) {
      TwinsMayList(g, s, t);
      ListingStarts(g, over);
    } else {
      UnclaimableIsCancelled(g, s);
      forall n | IsListed(t, n)
        ensures Has(t, n, Cancelled)
      {
        assert !CanStart(s, n);
      }
      if MayList(g, t) { TwinsMayList(g, t, s); }
      assert NothingToClaim(g, t);
      forall more
        ensures NoStartFrom(Run(g, over + more).acts, |t.acts|)
      {
        NeverClaims(g, over, more);
      }
    }
  }

  const LONE: Graph := Graph(0, ["a"], ["a"], map["a" := Task(Pure, 1)], [])

  lemma LoneBegins()
    ensures ValidGraph(LONE)
    ensures Next(LONE, START, BeginStep, 1) == START.(checked := true)
    ensures forall s: RunState :: s.checked && s.nodes == map[] && s.rounds == 0 ==>
              Next(LONE, s, ListNodes, 2) == s.(batch := map["a" := Listed(1)], rounds := 1, checked := false)
  {
    assert LONE.order[0] == "a" && LONE.sweep[0] == "a";
    assert forall n :: n in LONE.defs <==> n == "a";
    forall s: RunState | s.checked && s.nodes == map[] && s.rounds == 0
      ensures Next(LONE, s, ListNodes, 2) == s.(batch := map["a" := Listed(1)], rounds := 1, checked := false)
    {
      assert RunEngine.Eligible(LONE, s, "a");
      assert List(LONE, s) == map["a" := Listed(1)];
      assert "a" in List(LONE, s);
    }
  }

  lemma LoneIsAbandoned(s: RunState, at: int)
    requires s.status.RunRunning?
    ensures Next(LONE, s, AbandonRun, at) ==
            s.(acts := s.acts + [Logged(RunEnded(RunAbandoned, ""))], status := RunAbandoned)
  {
    assert Next(LONE, s, AbandonRun, at) == Log(s, RunEnded(RunAbandoned, ""), at);
  }

  lemma ListedStarts(t: RunState)
    requires t.batch == map["a" := Listed(1)] && t.nodes == map[]
    ensures Next(LONE, t, Claim("a"), 4).acts == t.acts + [Logged(Started("a", 1, OperationKey(0, "a", 1)))]
    ensures Next(LONE, t, Claim("a"), 4).status == t.status
  {
    assert IsListed(t, "a") && Claimable(t, "a") && "a" in LONE.defs;
  }

  lemma FourSteps(g: Graph, a: (Step, int), b: (Step, int), c: (Step, int), d: (Step, int))
    ensures Run(g, [a, b, c, d]) == Next(g, Next(g, Next(g, Next(g, START, a.0, a.1), b.0, b.1), c.0, c.1), d.0, d.1)
  {
    hide Next;
    RunNext(g, [], a.0, a.1);
    RunNext(g, [a], b.0, b.1);
    RunNext(g, [a, b], c.0, c.1);
    RunNext(g, [a, b, c], d.0, d.1);
    assert [] + [a] == [a] && [a] + [b] == [a, b] && [a, b] + [c] == [a, b, c] && [a, b, c] + [d] == [a, b, c, d];
  }

  /** A claim does not look at the run's status, nor does the listing: a node listed before the run was
      abandoned still starts, and so does one listed afterwards by a driver that checked before. */
  lemma AbandonedRunCanStart()
    ensures ValidGraph(LONE)
    ensures var s := Run(LONE, [(BeginStep, 1), (ListNodes, 2), (AbandonRun, 3), (Claim("a"), 4)]);
            s.status.RunAbandoned? && |s.acts| == 2 && IsEnd(s.acts[0]) && IsStart(s.acts[1])
    ensures var s := Run(LONE, [(BeginStep, 1), (AbandonRun, 3), (ListNodes, 2), (Claim("a"), 4)]);
            s.status.RunAbandoned? && |s.acts| == 2 && IsEnd(s.acts[0]) && IsStart(s.acts[1])
  {
    hide Next, Run, ValidGraph;
    LoneBegins();
    var s := START.(checked := true);
    var t := s.(batch := map["a" := Listed(1)], rounds := 1, checked := false);
    LoneIsAbandoned(t, 3);
    LoneIsAbandoned(s, 3);
    ListedStarts(Next(LONE, t, AbandonRun, 3));
    ListedStarts(Next(LONE, Next(LONE, s, AbandonRun, 3), ListNodes, 2));
    FourSteps(LONE, (BeginStep, 1), (ListNodes, 2), (AbandonRun, 3), (Claim("a"), 4));
    FourSteps(LONE, (BeginStep, 1), (AbandonRun, 3), (ListNodes, 2), (Claim("a"), 4));
  }
}
