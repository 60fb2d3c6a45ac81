/** What becomes of a failed attempt: another one while attempts are left, and then the failure of the node. */
module RunRetries {
  import opened Events
  import opened OperationKeys
  import opened Options
  import opened RunEngine
  import opened RunSafety
  import opened RunRecovery
  import opened RunTheorems
  import opened RunEnding

  // ---- a failed attempt ----

  /** The other rows stay. */
  ghost predicate OthersStay(s: RunState, t: RunState, n: string) {
    forall x :: x != n ==> (x in t.nodes <==> x in s.nodes) && (x in s.nodes ==> t.nodes[x] == s.nodes[x])
  }

  lemma LastAttemptFails(g: Graph, s: RunState, n: string, at: int)
    requires IsTask(g, n) && IsFlying(s, n) && n in s.nodes && s.batch[n].attempt >= g.defs[n].maxAttempts
    ensures var t := Next(g, s, FlightFails(n), at);
            && n !in t.batch && OthersStay(s, t, n) && n in t.nodes
            && t.nodes[n] == NodeAfter(s.nodes[n], Ended(n, s.batch[n].attempt, Failure, ""), at)
            && t.acts == s.acts + [Logged(Ended(n, s.batch[n].attempt, Failure, ""))]
  {
  }

  lemma EarlierAttemptFails(g: Graph, s: RunState, n: string, at: int)
    requires IsTask(g, n) && IsFlying(s, n) && n in s.nodes && s.batch[n].attempt < g.defs[n].maxAttempts
    ensures var t, a := Next(g, s, FlightFails(n), at), s.batch[n].attempt;
            && n in t.batch && t.batch[n] == Requeueing(a) && OthersStay(s, t, n) && n in t.nodes
            && t.nodes[n] == NodeAfter(s.nodes[n], NodeAttemptFailed(n, a, ""), at)
            && t.acts == s.acts + [Logged(NodeAttemptFailed(n, a, ""))]
  {
  }

  lemma FailedIsPutBack(g: Graph, s: RunState, n: string, at: int)
    requires n in s.nodes
    ensures var t := Next(g, s, FlightRequeues(n), at);
            if n !in s.batch then t == s
            else IsRequeueing(s, n) ==>
                   && n !in t.batch && OthersStay(s, t, n) && n in t.nodes
                   && if Cancelling(s.nodes[n].status) then t.nodes == s.nodes && t.acts == s.acts
                      else
                        && t.nodes[n] == s.nodes[n].(status := Eligible, finishedAt := None)
                        && t.acts == s.acts + [Logged(NodeRequeued(n, s.batch[n].attempt, false))]
  {
  }

  /** A failed attempt is put back exactly if attempts are left, and otherwise fails the node; nothing else moves. */
  lemma RetriedExactlyIfAttemptsAreLeft(g: Graph, s: RunState, n: string, at: int, later: int)
    requires Inv(g, s) && IsTask(g, n) && IsFlying(s, n) && Has(s, n, Running)
    ensures var a, max := s.batch[n].attempt, g.defs[n].maxAttempts;
            var u := Next(g, Next(g, s, FlightFails(n), at), FlightRequeues(n), later);
            && n !in u.batch && (a < max <==> Has(u, n, Eligible)) && (a >= max <==> Has(u, n, Failed))
            && u.nodes[n].attemptCount == a && OthersStay(s, u, n)
            && u.acts == s.acts +
                         if a < max then [Logged(NodeAttemptFailed(n, a, "")), Logged(NodeRequeued(n, a, false))]
                         else [Logged(NodeEnded(n, a, Failure, "", "executor", "contract", ""))]
  {
    RunningIsCounted(g, s, n);
    hide Inv, Next;
    var a, t := s.batch[n].attempt, Next(g, s, FlightFails(n), at);
    if a < g.defs[n].maxAttempts {
      EarlierAttemptFails(g, s, n, at);
      assert t.nodes[n] == s.nodes[n].(status := Eligible);
    } else {
      LastAttemptFails(g, s, n, at);
      assert Has(t, n, Failed) && t.nodes[n].attemptCount == a;
    }
    hide NodeAfter;
    FailedIsPutBack(g, t, n, later);
  }

  lemma RunningIsCounted(g: Graph, s: RunState, n: string)
    requires Inv(g, s) && IsTask(g, n) && IsFlying(s, n) && Has(s, n, Running)
    ensures s.nodes[n].attemptCount == s.batch[n].attempt
  {
    assert NodeOk(g, s, n);
    hide Inv, Summarize;
  }

  /** A node that was asked to stop meanwhile stays as it is. */
  lemma FailureLeavesAskedNode(g: Graph, s: RunState, n: string, at: int, later: int)
    requires IsTask(g, n) && IsFlying(s, n) && Has(s, n, CancelRequested)
    ensures var u := Next(g, Next(g, s, FlightFails(n), at), FlightRequeues(n), later);
            n !in u.batch && n in u.nodes && u.nodes[n] == s.nodes[n] && OthersStay(s, u, n)
  {
    hide Next;
    var t := Next(g, s, FlightFails(n), at);
    if s.batch[n].attempt < g.defs[n].maxAttempts {
      EarlierAttemptFails(g, s, n, at);
    } else {
      LastAttemptFails(g, s, n, at);
    }
    FailedIsPutBack(g, t, n, later);
  }

  // ---- every attempt is made ----

  predicate FliesIn(g: Graph, s: RunState, n: string) {
    s.status.RunRunning? && IsTask(g, n) && IsFlying(s, n) && Has(s, n, Running)
  }

  function Starts(s: RunState, n: string): nat { Summarize(s.acts, n).starts }

  /** An attempt fails, the driver starts anew, lists what it can start and claims n again. */
  function Again(n: string): seq<(Step, int)> {
    [(FlightFails(n), 0), (FlightRequeues(n), 0), (Crash, 0), (BeginStep, 0), (ListNodes, 0), (Claim(n), 0)]
  }

  lemma StepsApart(g: Graph, steps: seq<(Step, int)>, n: string)
    ensures var u := Next(g, Next(g, Run(g, steps), FlightFails(n), 0), FlightRequeues(n), 0);
            && Run(g, steps + Again(n)) == Next(g, Next(g, Next(g, Next(g, u, Crash, 0), BeginStep, 0), ListNodes, 0),
                                                Claim(n), 0)
            && Run(g, steps + Again(n)[..2]) == u
  {
    hide Next, Run;
    Stepwise(g, steps, n, 0);
    Stepwise(g, steps, n, 1);
    Stepwise(g, steps, n, 2);
    Stepwise(g, steps, n, 3);
    Stepwise(g, steps, n, 4);
    Stepwise(g, steps, n, 5);
    assert steps + Again(n)[..0] == steps && Again(n)[..6] == Again(n);
  }

  lemma Stepwise(g: Graph, steps: seq<(Step, int)>, n: string, k: nat)
    requires k < 6
    ensures Run(g, steps + Again(n)[..k + 1]) == Next(g, Run(g, steps + Again(n)[..k]), Again(n)[k].0, Again(n)[k].1)
  {
    hide Next, Run;
    RunNext(g, steps + Again(n)[..k], Again(n)[k].0, Again(n)[k].1);
    assert steps + Again(n)[..k + 1] == steps + Again(n)[..k] + [Again(n)[k]];
  }

  lemma FailureKeepsRunning(g: Graph, s: RunState, n: string)
    ensures Next(g, Next(g, s, FlightFails(n), 0), FlightRequeues(n), 0).status == s.status
  {
    hide Touch;
  }

  lemma ListedAgain(g: Graph, u: RunState, n: string)
    requires u.status.RunRunning? && IsTask(g, n) && Has(u, n, Eligible)
    ensures var v := Next(g, Next(g, Next(g, u, Crash, 0), BeginStep, 0), ListNodes, 0);
            && v.status.RunRunning? && IsListed(v, n) && v.batch[n].attempt == u.nodes[n].attemptCount + 1
            && v.nodes == u.nodes && v.acts == u.acts
  {
    var c := u.(batch := map[], checked := true, scan := []);
    assert Next(g, Next(g, u, Crash, 0), BeginStep, 0) == c;
    assert n in List(g, c);
  }

  lemma ClaimedAgain(g: Graph, v: RunState, n: string)
    requires v.status.RunRunning? && IsTask(g, n) && IsListed(v, n) && Has(v, n, Eligible)
    ensures var t := Next(g, v, Claim(n), 0);
            FliesIn(g, t, n) && t.batch[n].attempt == v.batch[n].attempt && Starts(t, n) == Starts(v, n) + 1
  {
    SummarizeNext(v.acts, Logged(StartBody(g, v, n)), n);
    hide Summarize;
  }

  lemma FailureStartsNothing(acts: seq<Act>, n: string, a: int)
    ensures Summarize(acts + [Logged(NodeAttemptFailed(n, a, "")), Logged(NodeRequeued(n, a, false))], n).starts ==
            Summarize(acts, n).starts
  {
    var b, c := Logged(NodeAttemptFailed(n, a, "")), Logged(NodeRequeued(n, a, false));
    SummarizeNext(acts, b, n);
    SummarizeNext(acts + [b], c, n);
    assert acts + [b, c] == acts + [b] + [c];
    hide Summarize;
  }

  lemma NextAttempt(g: Graph, steps: seq<(Step, int)>, n: string)
    requires ValidGraph(g) && FliesIn(g, Run(g, steps), n)
    requires Run(g, steps).batch[n].attempt < g.defs[n].maxAttempts
    ensures var s, t := Run(g, steps), Run(g, steps + Again(n));
            && FliesIn(g, t, n) && t.batch[n].attempt == s.batch[n].attempt + 1 && Starts(t, n) == Starts(s, n) + 1
  {
    var s := Run(g, steps);
    RunKeeps(g, steps);
    StepsApart(g, steps, n);
    hide Run, Next, Inv, ScanOk, ValidGraph, Summarize, Again;
    var u := Next(g, Next(g, s, FlightFails(n), 0), FlightRequeues(n), 0);
    RetriedExactlyIfAttemptsAreLeft(g, s, n, 0, 0);
    FailureKeepsRunning(g, s, n);
    FailureStartsNothing(s.acts, n, s.batch[n].attempt);
    ListedAgain(g, u, n);
    ClaimedAgain(g, Next(g, Next(g, Next(g, u, Crash, 0), BeginStep, 0), ListNodes, 0), n);
  }

  /** A task whose attempts all fail gets every attempt it is allowed, and then fails. */
  lemma {:induction false} EveryAttemptIsMade(g: Graph, steps: seq<(Step, int)>, n: string)
    returns (more: seq<(Step, int)>)
    requires ValidGraph(g) && FliesIn(g, Run(g, steps), n)
    ensures var s, t := Run(g, steps), Run(g, steps + more);
            var left := g.defs[n].maxAttempts - s.batch[n].attempt;
            Has(t, n, Failed) && Starts(t, n) == Starts(s, n) + if left > 0 then left else 0
    decreases g.defs[n].maxAttempts - Run(g, steps).batch[n].attempt
  {
    hide Run, Next, Inv, ScanOk, ValidGraph, Summarize;
    var s := Run(g, steps);
    if s.batch[n].attempt < g.defs[n].maxAttempts {
      NextAttempt(g, steps, n);
      var rest := EveryAttemptIsMade(g, steps + Again(n), n);
      more := Again(n) + rest;
      assert steps + more == steps + Again(n) + rest;
    } else {
      RunKeeps(g, steps);
      StepsApart(g, steps, n);
      RetriedExactlyIfAttemptsAreLeft(g, s, n, 0, 0);
      more := Again(n)[..2];
      SummarizeNext(s.acts, Logged(NodeEnded(n, s.batch[n].attempt, Failure, "", "executor", "contract", "")), n);
    }
  }
}
