/** What a recovery remembers: the nodes it read and has not visited yet are as it read them, or have been
    asked to stop since, and it keeps the order in which it read them. */
module RunRecovery {
  import opened Events
  import opened OperationKeys
  import opened Options
  import opened RunEngine
  import opened RunSafety

  /** Recovery reads a before b. */
  ghost predicate Before(g: Graph, a: string, b: string) {
    exists i, j :: 0 <= i < j < |g.sweep| && g.sweep[i] == a && g.sweep[j] == b
  }

  ghost predicate InOrder(g: Graph, scan: seq<Visit>) {
    forall i, j :: 0 <= i < j < |scan| ==> Before(g, scan[i].node, scan[j].node)
  }

  ghost predicate ScanOk(g: Graph, s: RunState) {
    && (s.checked ==> s.batch == map[] && s.scan == [])
    && (s.scan != [] ==> s.batch == map[])
    && (forall i :: 0 <= i < |s.scan| ==> VisitOk(g, s, s.scan[i]) && (s.scan[i].asked ==> i == 0))
    && InOrder(g, s.scan)
  }

  lemma BeforeIsStrict(g: Graph, a: string, b: string)
    requires ValidGraph(g) && Before(g, a, b)
    ensures a != b && !Before(g, b, a)
  {
  }

  // ---- what other steps leave alone ----

  ghost predicate SameAside(s: RunState, t: RunState) {
    t.checked == s.checked && t.scan == s.scan && t.batch == s.batch
  }

  /** Attempts under way stay under way, or are asked to stop. */
  ghost predicate FlightsLast(s: RunState, t: RunState) {
    && (forall x :: x in s.nodes && InFlight(s.nodes[x].status) ==>
          x in t.nodes && (t.nodes[x].status == s.nodes[x].status || t.nodes[x].status.CancelRequested?))
    && (forall x :: x in s.latest ==> x in t.latest)
  }

  lemma ScanStays(g: Graph, s: RunState, t: RunState)
    requires ScanOk(g, s) && SameAside(s, t) && FlightsLast(s, t)
    ensures ScanOk(g, t)
  {
    hide Before;
    forall i | 0 <= i < |t.scan|
      ensures VisitOk(g, t, t.scan[i])
    {
      assert VisitOk(g, s, s.scan[i]);
    }
  }

  lemma LogAside(s: RunState, b: Body, at: int)
    ensures SameAside(s, Log(s, b, at))
  {
  }

  lemma {:induction false} LogAllAside(s: RunState, bs: seq<Body>, at: int)
    ensures SameAside(s, LogAll(s, bs, at))
    decreases |bs|
  {
    hide Log;
    if |bs| > 0 {
      LogAside(s, bs[0], at);
      LogAllAside(Log(s, bs[0], at), bs[1..], at);
    }
  }

  lemma FinishLasts(g: Graph, s: RunState, n: string, a: int, route: Option<string>, at: int)
    requires ValidGraph(g) && n in g.defs && n in s.nodes && !InFlight(s.nodes[n].status)
    ensures var t := Finish(g, s, n, a, route, at); SameAside(s, t) && FlightsLast(s, t)
  {
    hide Summarize, Route, ValidGraph;
    var u := Log(s, Ended(n, a, Finished, ""), at);
    RouteRoutes(g, u, n, route, at);
    assert FlightsLast(s, u);
  }

  lemma ResolveLasts(g: Graph, s: RunState, n: string, route: Option<string>, at: int)
    requires ValidGraph(g) && n in g.defs && n in s.nodes && !InFlight(s.nodes[n].status)
    ensures var t := Resolve(g, s, n, route, at); SameAside(s, t) && FlightsLast(s, t)
  {
    hide Finish, ValidGraph;
    if route.Some? { FinishLasts(g, s, n, RowOf(s.nodes, n).attemptCount, route, at); }
  }

  lemma HeldIsIdle(g: Graph, s: RunState, n: string)
    requires Held(g, s, n)
    ensures n in g.defs && n in s.nodes && !InFlight(s.nodes[n].status)
  {
  }

  /** A state that differs from s in what is recorded about waits and approvals. */
  ghost predicate SameRows(s: RunState, t: RunState) {
    t.nodes == s.nodes && t.latest == s.latest && SameAside(s, t)
  }

  lemma HeldLasts(g: Graph, s: RunState, t: RunState, n: string, route: Option<string>, at: int)
    requires ValidGraph(g) && Held(g, s, n) && SameRows(s, t)
    ensures var u := Resolve(g, t, n, route, at); SameAside(s, u) && FlightsLast(s, u)
  {
    hide ValidGraph, Resolve, InFlight;
    assert !InFlight(s.nodes[n].status) by { HeldIsIdle(g, s, n); }
    ResolveLasts(g, t, n, route, at);
  }

  lemma StillRows(s: RunState, b: Body, at: int)
    requires b.ApprovalDecided? || b.Unprojected? || b.WaitCompleted? || b.WaitExpired?
    ensures SameRows(s, Log(s, b, at))
  {
  }

  lemma ApprovalLasts(g: Graph, s: RunState, a: nat, granted: bool, at: int)
    requires ValidGraph(g) && Inv(g, s) && a in s.approvals && s.approvals[a].verdict.Open?
    ensures var t := DoDecide(g, s, a, granted, at); SameAside(s, t) && FlightsLast(s, t)
    ensures var t := DoExpireApproval(g, s, a, at); SameAside(s, t) && FlightsLast(s, t)
  {
    hide Inv, ValidGraph, Resolve, RouteWith, Held, Log, FlightsLast;
    ApprovalView(g, s, a);
    var n, b, c := s.approvals[a].node, ApprovalDecided(granted, Id(g.run, a), "actor", "key"),
                   Unprojected("approval_expired");
    StillRows(s, b, at);
    StillRows(s, c, at);
    HeldLasts(g, s, Log(s, b, at), n,
              if granted then Some("success") else RouteWith(g.edges, n, "denied", "failure"), at);
    HeldLasts(g, s, Log(s, c, at).(approvals := s.approvals[a := s.approvals[a].(verdict := Expired)]), n,
              RouteWith(g.edges, n, "expired", "timeout"), at);
  }

  lemma WaitLasts(g: Graph, s: RunState, w: nat, route: string, at: int)
    requires ValidGraph(g) && Inv(g, s) && w in s.waits && s.waits[w].pending
    ensures var t := DoCompleteWait(g, s, w, route, at); SameAside(s, t) && FlightsLast(s, t)
    ensures var t := DoExpireWait(g, s, w, at); SameAside(s, t) && FlightsLast(s, t)
  {
    hide Inv, ValidGraph, Resolve, RouteWith, Held, Log, LogAll, FlightsLast;
    WaitView(g, s, w);
    var n, b1, b2, c := s.waits[w].node, Unprojected("external_event_received"),
                        WaitCompleted(Some(Id(g.run, w)), None, ""), WaitExpired(Some(Id(g.run, w)));
    LogTwo(s, b1, b2, at);
    StillRows(s, b1, at);
    StillRows(Log(s, b1, at), b2, at);
    StillRows(s, c, at);
    HeldLasts(g, s, LogAll(s, [b1, b2], at), n, Some(route), at);
    HeldLasts(g, s, Log(s, c, at), n, RouteWith(g.edges, n, "timeout", "expired"), at);
  }

  // ---- reading the candidates ----

  predicate Readable(s: RunState, leased: set<string>, n: string) {
    n in s.nodes && RecoverCandidate(s.nodes[n].status) && n !in leased
  }

  function VisitOf(s: RunState, n: string): Visit
    requires n in s.nodes
  {
    Visit(n, s.nodes[n].status.CancelRequested?, false)
  }

  lemma ScanOfSnoc(s: RunState, leased: set<string>, init: seq<string>, n: string)
    ensures ScanOf(s, leased, init + [n]) ==
            ScanOf(s, leased, init) + if Readable(s, leased, n) then [VisitOf(s, n)] else []
  {
    assert (init + [n])[..|init|] == init;
  }

  /** The visits are those of the candidates in the list. */
  lemma {:induction false} ScanOfIs(s: RunState, leased: set<string>, order: seq<string>)
    ensures forall v :: v in ScanOf(s, leased, order) <==>
                        v.node in order && Readable(s, leased, v.node) && v == VisitOf(s, v.node)
  {
    if |order| > 0 {
      var init, n := order[..|order| - 1], order[|order| - 1];
      assert order == init + [n];
      ScanOfIs(s, leased, init);
      ScanOfSnoc(s, leased, init, n);
    }
  }

  ghost predicate BeforeIn(order: seq<string>, a: string, b: string) {
    exists i, j :: 0 <= i < j < |order| && order[i] == a && order[j] == b
  }

  lemma {:induction false} ScanOfInOrder(s: RunState, leased: set<string>, order: seq<string>)
    requires forall i, j :: 0 <= i < j < |order| ==> order[i] != order[j]
    ensures var scan := ScanOf(s, leased, order);
            forall i, j :: 0 <= i < j < |scan| ==> BeforeIn(order, scan[i].node, scan[j].node)
  {
    if |order| > 0 {
      var init, n := order[..|order| - 1], order[|order| - 1];
      ScanOfInOrder(s, leased, init);
      ScanOfIs(s, leased, init);
      assert order == init + [n];
      ScanOfSnoc(s, leased, init, n);
      var before, scan := ScanOf(s, leased, init), ScanOf(s, leased, order);
      forall i, j | 0 <= i < j < |scan|
        ensures BeforeIn(order, scan[i].node, scan[j].node)
      {
        assert scan[i] == before[i];
        if j < |before| {
          assert scan[j] == before[j];
          assert BeforeIn(init, scan[i].node, scan[j].node);
          var k, l :| 0 <= k < l < |init| && init[k] == scan[i].node && init[l] == scan[j].node;
          assert order[k] == init[k] && order[l] == init[l];
        } else {
          assert scan[i].node in init && scan[j].node == n;
          var k :| 0 <= k < |init| && init[k] == scan[i].node;
          assert order[k] == init[k] && order[|init|] == n;
        }
      }
    }
  }

  lemma BeginScanIsOk(g: Graph, s: RunState, leased: set<string>)
    requires ValidGraph(g) && Inv(g, s) && s.batch == map[] && !s.checked
    ensures ScanOk(g, s.(scan := ScanOf(s, leased, g.sweep)))
  {
    hide ScanOf, Inv, Before, BeforeIn;
    var t := s.(scan := ScanOf(s, leased, g.sweep));
    ScanOfIs(s, leased, g.sweep);
    forall i | 0 <= i < |t.scan|
      ensures VisitOk(g, t, t.scan[i]) && !t.scan[i].asked
    {
      assert t.scan[i] in t.scan;
    }
    forall i, j | 0 <= i < j < |t.scan|
      ensures Before(g, t.scan[i].node, t.scan[j].node)
    {
      ReadBefore(g, s, leased, i, j);
    }
  }

  lemma ReadBefore(g: Graph, s: RunState, leased: set<string>, i: nat, j: nat)
    requires ValidGraph(g) && i < j < |ScanOf(s, leased, g.sweep)|
    ensures var scan := ScanOf(s, leased, g.sweep); Before(g, scan[i].node, scan[j].node)
  {
    hide ScanOf;
    ScanOfInOrder(s, leased, g.sweep);
    var scan := ScanOf(s, leased, g.sweep);
    assert BeforeIn(g.sweep, scan[i].node, scan[j].node);
  }

  // ---- visiting ----

  lemma CommitAside(g: Graph, s: RunState, n: string, a: int, route: Option<string>, at: int, x: string)
    requires ValidGraph(g) && n in g.defs && x != n && x in s.nodes
    ensures var t := Commit(g, s, n, a, route, at);
            SameAside(s, t) && x in t.nodes && t.nodes[x] == s.nodes[x] && (x in s.latest ==> x in t.latest)
  {
    hide Summarize, Route, ValidGraph;
    var u := Log(s, Ended(n, a, Finished, ""), at);
    if Has(s, n, Running) || Has(s, n, Reconciling) { RouteRoutes(g, u, n, route, at); }
  }

  /** An event about n leaves the other nodes alone. */
  lemma MoveOne(s: RunState, b: Body, at: int)
    requires MovesNode(b) && !b.NodeStarted? && !b.NodeEnded? && b.node in s.nodes
    ensures var t := Log(s, b, at);
            && SameAside(s, t) && t.latest == s.latest &&
               t.nodes == s.nodes[b.node := NodeAfter(s.nodes[b.node], b, at)]
  {
  }

  /** A visit leaves the other nodes alone. */
  lemma RecoverOther(g: Graph, s: RunState, n: string, stop: bool, at: int, x: string)
    requires n in g.defs && n in s.nodes && x != n && x in s.nodes
    ensures var t := DoRecover(g, s, n, stop, at);
            SameAside(s, t) && x in t.nodes && t.nodes[x] == s.nodes[x] && t.latest == s.latest
  {
    hide Log;
    MoveOne(s, NodeRequeued(n, 0, false), at);
    MoveOne(s, NodeReconciling(n), at);
    MoveOne(s, NodeWaiting(n), at);
    if n in s.latest {
      MoveOne(s, NodeRequeued(n, s.latest[n], true), at);
      MoveOne(s, NodeCancelled(n, s.latest[n]), at);
    }
  }

  lemma RecoverSelf(g: Graph, s: RunState, n: string, stop: bool, at: int)
    requires n in g.defs && n in s.nodes
    ensures var t := DoRecover(g, s, n, stop, at); SameAside(s, t) && t.latest == s.latest && n in t.nodes
    ensures Executor(g.defs[n]) == Some(Reconcilable) ==>
            var t := DoRecover(g, s, n, stop, at);
            t.nodes[n].status == if stop || Cancelling(s.nodes[n].status) then s.nodes[n].status else Reconciling
  {
    hide Log;
    MoveOne(s, NodeRequeued(n, 0, false), at);
    MoveOne(s, NodeReconciling(n), at);
    MoveOne(s, NodeWaiting(n), at);
    if n in s.latest {
      MoveOne(s, NodeRequeued(n, s.latest[n], true), at);
      MoveOne(s, NodeCancelled(n, s.latest[n]), at);
    }
  }

  lemma ReconcileOther(g: Graph, s: RunState, n: string, stop: bool, answer: Answer, route: Option<string>, at: int,
      x: string)
    requires ValidGraph(g) && n in g.defs && n in s.nodes && n in s.latest && x != n && x in s.nodes
    ensures var t := DoReconcile(g, s, n, stop, answer, route, at);
            SameAside(s, t) && x in t.nodes && t.nodes[x] == s.nodes[x] && (x in s.latest ==> x in t.latest)
  {
    hide ValidGraph, Commit;
    CommitAside(g, Record(s, n, answer), n, s.latest[n], route, at, x);
  }

  lemma ReconcileAside(g: Graph, s: RunState, n: string, stop: bool, answer: Answer, route: Option<string>, at: int)
    requires ValidGraph(g) && n in g.defs && n in s.nodes && n in s.latest
    ensures SameAside(s, DoReconcile(g, s, n, stop, answer, route, at))
  {
    hide ValidGraph, Route, Summarize;
    var r, a := Record(s, n, answer), s.latest[n];
    var u := Log(r, Ended(n, a, Finished, ""), at);
    RouteRoutes(g, u, n, route, at);
  }

  lemma RecoverScans(g: Graph, s: RunState, at: int)
    requires ValidGraph(g) && Inv(g, s) && ScanOk(g, s)
    ensures ScanOk(g, Next(g, s, Recover, at))
  {
    hide Before, DoRecover, ValidGraph, Inv;
    if s.scan != [] && !s.scan[0].asked {
      var v, t := s.scan[0], Next(g, s, Recover, at);
      KnownIsTask(g, s, v.node);
      assert VisitOk(g, s, v);
      RecoverSelf(g, s, v.node, v.stop, at);
      forall i | 0 <= i < |t.scan|
        ensures VisitOk(g, t, t.scan[i]) && (t.scan[i].asked ==> i == 0)
      {
        var k := if ScanAfter(g, s) == s.scan[1..] then i + 1 else i;
        assert VisitOk(g, s, s.scan[k]);
        if k > 0 {
          assert t.scan[i] == s.scan[k] && Before(g, v.node, s.scan[k].node);
          AfterFirst(g, v.node, s.scan[k].node);
          RecoverOther(g, s, v.node, v.stop, at, s.scan[k].node);
        }
      }
    }
  }

  lemma AfterFirst(g: Graph, a: string, b: string)
    requires ValidGraph(g) && Before(g, a, b)
    ensures a != b
  {
  }

  lemma ReconcileScans(g: Graph, s: RunState, answer: Answer, route: Option<string>, at: int)
    requires ValidGraph(g) && ScanOk(g, s)
    ensures ScanOk(g, Next(g, s, Reconcile(answer, route), at))
  {
    hide Before, DoReconcile, ValidGraph;
    if s.scan != [] && s.scan[0].asked && s.scan[0].node in s.nodes && s.scan[0].node in s.latest {
      var v, t := s.scan[0], Next(g, s, Reconcile(answer, route), at);
      assert VisitOk(g, s, v);
      ReconcileAside(g, s, v.node, v.stop, answer, route, at);
      forall i | 0 <= i < |t.scan|
        ensures VisitOk(g, t, t.scan[i]) && !t.scan[i].asked
      {
        assert t.scan[i] == s.scan[i + 1] && VisitOk(g, s, s.scan[i + 1]);
        AfterFirst(g, v.node, s.scan[i + 1].node);
        ReconcileOther(g, s, v.node, v.stop, answer, route, at, s.scan[i + 1].node);
      }
    }
  }
}
