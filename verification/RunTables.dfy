/** The engine's view of a run and the projected run_node rows are the same. */
module RunTables {
  import opened Events
  import opened OperationKeys
  import opened Options
  import opened Projection
  import Replay
  import opened RunEngine

  /** The node rows of a run in the tables, up to times. */
  ghost predicate NodesAgree(t: Tables, r: RunId, nodes: map<string, NodeRow>) {
    forall n :: NodeAgrees(t, r, nodes, n)
  }

  ghost predicate NodeAgrees(t: Tables, r: RunId, nodes: map<string, NodeRow>, n: string) {
    && (HasNode(t, r, n) <==> n in nodes)
    && NodeOf(t, r, n).status == RowOf(nodes, n).status
    && NodeOf(t, r, n).attemptCount == RowOf(nodes, n).attemptCount
  }

  ghost predicate NoNodes(ws: seq<Write>) { forall i :: 0 <= i < |ws| ==> !ws[i].key.NodeK? }

  ghost predicate SameNodes(s: Tables, t: Tables, r: RunId) {
    forall n :: HasNode(s, r, n) == HasNode(t, r, n) && NodeOf(s, r, n) == NodeOf(t, r, n)
  }

  lemma {:induction false} ApplyNoNodes(t: Tables, ws: seq<Write>, r: RunId)
    requires NoNodes(ws)
    ensures SameNodes(t, Apply(t, ws), r)
    decreases |ws|
  {
    if |ws| > 0 { ApplyNoNodes(t[ws[0].key := ws[0].row], ws[1..], r); }
  }

  lemma {:induction false} ApplyJoins(t: Tables, a: seq<Write>, b: seq<Write>)
    ensures Apply(t, a + b) == Apply(Apply(t, a), b)
    decreases |a|
  {
    if |a| == 0 {
      assert a + b == b;
    } else {
      assert (a + b)[1..] == a[1..] + b;
      ApplyJoins(t[a[0].key := a[0].row], a[1..], b);
    }
  }

  lemma ApplyOne(t: Tables, w: Write)
    ensures Apply(t, [w]) == t[w.key := w.row]
  {
    assert [w][1..] == [];
  }

  /** Status and attempt count after an event do not depend on its time. */
  lemma TimeDoesNotCount(a: NodeRow, b: NodeRow, body: Body, at: int, time: int)
    requires MovesNode(body) && a.status == b.status && a.attemptCount == b.attemptCount
    ensures var x, y := NodeAfter(a, body, at), NodeAfter(b, body, time);
            x.status == y.status && x.attemptCount == y.attemptCount
  {
  }

  /** A handler that moves a node, with whatever it writes besides. */
  lemma MoveFollows(t: Tables, ev: Event, nodes: map<string, NodeRow>, rest: seq<Write>, at: int)
    requires MovesNode(ev.body) && NodesAgree(t, ev.run, nodes) && NoNodes(rest)
    requires (NeedsNode(ev.body) ==> HasNode(t, ev.run, ev.body.node))
    ensures NodesAgree(Apply(t, MoveNode(t, ev) + rest), ev.run, Touch(nodes, ev.body, at))
  {
    var n := ev.body.node;
    var w := Write(NodeK(ev.run, n), NodeR(NodeAfter(NodeOf(t, ev.run, n), ev.body, ev.at)));
    var u := t[w.key := w.row];
    assert MoveNode(t, ev) == [w];
    ApplyOne(t, w);
    ApplyJoins(t, MoveNode(t, ev), rest);
    ApplyNoNodes(u, rest, ev.run);
    assert NodeAgrees(t, ev.run, nodes, n);
    TimeDoesNotCount(NodeOf(t, ev.run, n), RowOf(nodes, n), ev.body, ev.at, at);
    forall x
      ensures NodeAgrees(Apply(t, MoveNode(t, ev) + rest), ev.run, Touch(nodes, ev.body, at), x)
    {
      assert NodeAgrees(t, ev.run, nodes, x);
    }
  }

  /** What the handlers that move a node write. */
  lemma MovesWriteOneNode(t: Tables, ev: Event) returns (rest: seq<Write>)
    requires MovesNode(ev.body) && Writes(t, ev).Some?
    ensures NoNodes(rest) && Writes(t, ev).value == MoveNode(t, ev) + rest
    ensures (NeedsNode(ev.body) ==> HasNode(t, ev.run, ev.body.node))
  {
    var ws := Writes(t, ev).value;
    rest := ws[1..];
    hide HasNode, NodeOf, NodeAfter, AttemptAt, LatestAttempt, RunRowOf, EndedAttempt;
    assert |MoveNode(t, ev)| == 1 && ws[..1] == MoveNode(t, ev);
    assert ws == ws[..1] + rest;
  }

  lemma EnsureFollows(t0: Tables, t: Tables, r: RunId, nodes: map<string, NodeRow>, n: string)
    requires NodesAgree(t, r, nodes) && Grown(t0, t, r)
    ensures NodesAgree(Apply(t, EnsureNode(t0, r, n)), r, Ensure(nodes, n))
    ensures Grown(t0, Apply(t, EnsureNode(t0, r, n)), r)
  {
    var u := Apply(t, EnsureNode(t0, r, n));
    if !HasNode(t0, r, n) { ApplyOne(t, Write(NodeK(r, n), NodeR(PENDING))); }
    assert GrownAt(t0, t, r, n) && NodeAgrees(t, r, nodes, n);
    forall x
      ensures NodeAgrees(u, r, Ensure(nodes, n), x) && GrownAt(t0, u, r, x)
    {
      assert NodeAgrees(t, r, nodes, x) && GrownAt(t0, t, r, x);
    }
  }

  /** t has the node rows of t0 and perhaps some pending ones. */
  ghost predicate Grown(t0: Tables, t: Tables, r: RunId) { forall n :: GrownAt(t0, t, r, n) }

  ghost predicate GrownAt(t0: Tables, t: Tables, r: RunId, n: string) {
    if HasNode(t0, r, n) then HasNode(t, r, n) else NodeOf(t, r, n) == PENDING
  }

  lemma QuietFollows(t0: Tables, t: Tables, r: RunId, nodes: map<string, NodeRow>, ws: seq<Write>)
    requires NodesAgree(t, r, nodes) && Grown(t0, t, r) && NoNodes(ws)
    ensures NodesAgree(Apply(t, ws), r, nodes) && Grown(t0, Apply(t, ws), r)
  {
    ApplyNoNodes(t, ws, r);
    forall x
      ensures NodeAgrees(Apply(t, ws), r, nodes, x) && GrownAt(t0, Apply(t, ws), r, x)
    {
      assert NodeAgrees(t, r, nodes, x) && GrownAt(t0, t, r, x);
    }
  }

  lemma {:induction false} LinksFollow(t0: Tables, t: Tables, ev: Event, links: seq<Link>, i: nat,
      nodes: map<string, NodeRow>)
    requires NodesAgree(t, ev.run, nodes) && Grown(t0, t, ev.run)
    ensures NodesAgree(Apply(t, LinkWrites(t0, ev, links, i)), ev.run, EnsureLinks(nodes, links))
    decreases |links|
  {
    hide NodesAgree, Grown, Ensure, EnsureNode;
    if |links| > 0 {
      var a, b, c := EnsureNode(t0, ev.run, links[0].target),
                     Fresh(t0, LinkK(ev.id, i), LinkRow(ev.id, links[0].target, links[0])),
                     LinkWrites(t0, ev, links[1..], i + 1);
      EnsureFollows(t0, t, ev.run, nodes, links[0].target);
      QuietFollows(t0, Apply(t, a), ev.run, Ensure(nodes, links[0].target), b);
      LinksFollow(t0, Apply(Apply(t, a), b), ev, links[1..], i + 1, Ensure(nodes, links[0].target));
      ApplyJoins(t, a, b);
      ApplyJoins(t, a + b, c);
    }
  }

  lemma GrownSelf(t: Tables, r: RunId)
    ensures Grown(t, t, r)
  {
  }

  lemma DecisionFollows(t: Tables, ev: Event, nodes: map<string, NodeRow>)
    requires ev.body.DecisionRecorded? && NodesAgree(t, ev.run, nodes)
    ensures NodesAgree(Apply(t, Writes(t, ev).value), ev.run, EnsureLinks(Ensure(nodes, ev.body.node), ev.body.links))
  {
    hide NodesAgree, Grown, Ensure, EnsureNode, EnsureLinks;
    var a, b, c := EnsureNode(t, ev.run, ev.body.node),
                   Fresh(t, DecisionK(ev.id), DecisionRow(ev.body.node, ev.body.details, ev.at)),
                   LinkWrites(t, ev, ev.body.links, 0);
    GrownSelf(t, ev.run);
    EnsureFollows(t, t, ev.run, nodes, ev.body.node);
    QuietFollows(t, Apply(t, a), ev.run, Ensure(nodes, ev.body.node), b);
    LinksFollow(t, Apply(Apply(t, a), b), ev, ev.body.links, 0, Ensure(nodes, ev.body.node));
    ApplyJoins(t, a, b);
    ApplyJoins(t, a + b, c);
  }

  lemma WaitFollows(t: Tables, ev: Event, nodes: map<string, NodeRow>)
    requires ev.body.WaitRequested? && NodesAgree(t, ev.run, nodes) && Writes(t, ev).Some?
    ensures NodesAgree(Apply(t, Writes(t, ev).value), ev.run, Ensure(nodes, ev.body.node))
  {
    hide NodesAgree, Grown, Ensure, EnsureNode, NodeTaken;
    var a := EnsureNode(t, ev.run, ev.body.node);
    var ws := Writes(t, ev).value;
    var b := ws[|a|..];
    assert ws == a + b && NoNodes(b);
    GrownSelf(t, ev.run);
    EnsureFollows(t, t, ev.run, nodes, ev.body.node);
    QuietFollows(t, Apply(t, a), ev.run, Ensure(nodes, ev.body.node), b);
    ApplyJoins(t, a, b);
  }

  lemma {:induction false} ParamsHaveNoNodes(t: Tables, r: RunId, params: seq<Param>)
    ensures NoNodes(ParamWrites(t, r, params))
  {
    if |params| > 0 { ParamsHaveNoNodes(t, r, params[1..]); }
  }

  lemma OthersHaveNoNodes(t: Tables, ev: Event)
    requires !MovesNode(ev.body) && !ev.body.DecisionRecorded? && !ev.body.WaitRequested? && Writes(t, ev).Some?
    ensures NoNodes(Writes(t, ev).value)
  {
    hide HasNode, RunRowOf, IsPendingWait;
    if ev.body.RunStarted? { ParamsHaveNoNodes(t, ev.run, ev.body.params); }
  }

  /** One event, in the tables and in the engine. */
  lemma ProjectFollowsEngine(t: Tables, ev: Event, nodes: map<string, NodeRow>, at: int)
    requires NodesAgree(t, ev.run, nodes) && Project(t, ev).Some?
    ensures NodesAgree(Project(t, ev).value, ev.run, Touch(nodes, ev.body, at))
  {
    hide NodesAgree, Grown, IndexRefuses, Writes;
    if MovesNode(ev.body) {
      var rest := MovesWriteOneNode(t, ev);
      MoveFollows(t, ev, nodes, rest, at);
    } else if ev.body.DecisionRecorded? {
      DecisionFollows(t, ev, nodes);
    } else if ev.body.WaitRequested? {
      WaitFollows(t, ev, nodes);
    } else {
      OthersHaveNoNodes(t, ev);
      GrownSelf(t, ev.run);
      QuietFollows(t, t, ev.run, nodes, Writes(t, ev).value);
    }
  }

  // ---- whole runs ----

  /** The node rows that a record leaves, up to times. */
  function RowsOf(acts: seq<Act>): map<string, NodeRow> {
    if |acts| == 0 then map[]
    else
      var before, act := RowsOf(acts[..|acts| - 1]), acts[|acts| - 1];
      if act.Logged? then Touch(before, act.body, 0) else before
  }

  ghost predicate SameRowAt(a: map<string, NodeRow>, b: map<string, NodeRow>, n: string) {
    (n in a <==> n in b) && RowOf(a, n).status == RowOf(b, n).status &&
    RowOf(a, n).attemptCount == RowOf(b, n).attemptCount
  }

  ghost predicate SameRows(a: map<string, NodeRow>, b: map<string, NodeRow>) { forall n :: SameRowAt(a, b, n) }

  /** The engine's rows are those its record leaves. */
  ghost predicate Sound(s: RunState) { SameRows(s.nodes, RowsOf(s.acts)) }

  lemma EnsureSame(a: map<string, NodeRow>, b: map<string, NodeRow>, n: string)
    requires SameRows(a, b)
    ensures SameRows(Ensure(a, n), Ensure(b, n))
  {
    forall x
      ensures SameRowAt(Ensure(a, n), Ensure(b, n), x)
    {
      assert SameRowAt(a, b, x);
    }
  }

  lemma {:induction false} EnsureLinksSame(a: map<string, NodeRow>, b: map<string, NodeRow>, links: seq<Link>)
    requires SameRows(a, b)
    ensures SameRows(EnsureLinks(a, links), EnsureLinks(b, links))
    decreases |links|
  {
    hide SameRows, Ensure;
    if |links| > 0 {
      EnsureSame(a, b, links[0].target);
      EnsureLinksSame(Ensure(a, links[0].target), Ensure(b, links[0].target), links[1..]);
    }
  }

  lemma MoveSame(a: map<string, NodeRow>, b: map<string, NodeRow>, body: Body, at: int, time: int)
    requires SameRows(a, b) && MovesNode(body)
    ensures SameRows(Touch(a, body, at), Touch(b, body, time))
  {
    assert SameRowAt(a, b, body.node);
    TimeDoesNotCount(RowOf(a, body.node), RowOf(b, body.node), body, at, time);
    forall x
      ensures SameRowAt(Touch(a, body, at), Touch(b, body, time), x)
    {
      assert SameRowAt(a, b, x);
    }
  }

  lemma TouchSame(a: map<string, NodeRow>, b: map<string, NodeRow>, body: Body, at: int, time: int)
    requires SameRows(a, b)
    ensures SameRows(Touch(a, body, at), Touch(b, body, time))
  {
    hide SameRows, Ensure, EnsureLinks;
    if MovesNode(body) {
      MoveSame(a, b, body, at, time);
    } else if body.DecisionRecorded? {
      EnsureSame(a, b, body.node);
      EnsureLinksSame(Ensure(a, body.node), Ensure(b, body.node), body.links);
    } else if body.WaitRequested? {
      EnsureSame(a, b, body.node);
    }
  }

  lemma LogSound(s: RunState, b: Body, at: int)
    requires Sound(s)
    ensures Sound(Log(s, b, at))
  {
    hide SameRows, Touch;
    assert (s.acts + [Logged(b)])[..|s.acts|] == s.acts;
    TouchSame(s.nodes, RowsOf(s.acts), b, at, 0);
  }

  lemma {:induction false} LogAllSound(s: RunState, bs: seq<Body>, at: int)
    requires Sound(s)
    ensures Sound(LogAll(s, bs, at))
    decreases |bs|
  {
    hide Sound, Log;
    if |bs| > 0 {
      LogSound(s, bs[0], at);
      LogAllSound(Log(s, bs[0], at), bs[1..], at);
    }
  }

  lemma FinishSound(g: Graph, s: RunState, n: string, a: int, route: Option<string>, at: int)
    requires Sound(s)
    ensures Sound(Finish(g, s, n, a, route, at))
  {
    hide Sound, Log, LogAll;
    var r := Log(s, Ended(n, a, Finished, ""), at);
    LogSound(s, Ended(n, a, Finished, ""), at);
    var t := LogAll(r, Traversals(g.edges, n, route), at);
    LogAllSound(r, Traversals(g.edges, n, route), at);
    var u := LogAll(t, Skips(t.nodes, Blocked(g, g.edges, n, route)), at);
    LogAllSound(t, Skips(t.nodes, Blocked(g, g.edges, n, route)), at);
    var v := LogAll(u, Decisions(g, n, route), at);
    LogAllSound(u, Decisions(g, n, route), at);
    LogAllSound(v, EligibilityDecisions(g, v, g.edges, n), at);
  }

  lemma ResolveSound(g: Graph, s: RunState, n: string, route: Option<string>, at: int)
    requires Sound(s)
    ensures Sound(Resolve(g, s, n, route, at))
  {
    hide Sound, Log, Finish;
    var a := RowOf(s.nodes, n).attemptCount;
    if route.Some? { FinishSound(g, s, n, a, route, at); } else { LogSound(s, Ended(n, a, Failure, ""), at); }
  }

  lemma CommitSound(g: Graph, s: RunState, n: string, a: int, route: Option<string>, at: int)
    requires Sound(s)
    ensures Sound(Commit(g, s, n, a, route, at))
  {
    hide Sound, Log, Finish;
    LogSound(s, NodeCancelled(n, a), at);
    FinishSound(g, s, n, a, route, at);
  }

  lemma TransitionSound(s: RunState, n: string, b: Body, at: int)
    requires Sound(s)
    ensures Sound(Transition(s, n, b, at))
  {
    hide Sound, Log;
    LogSound(s, b, at);
  }

  /** Changes outside the record and the rows. */
  lemma AsideSound(s: RunState, t: RunState)
    requires Sound(s) && t.nodes == s.nodes && t.acts == s.acts
    ensures Sound(t)
  {
  }

  lemma RecordSound(s: RunState, n: string, answer: Answer)
    requires Sound(s)
    ensures Sound(Record(s, n, answer))
  {
    assert (s.acts + [Answered(n, answer)])[..|s.acts|] == s.acts;
  }

  lemma FlightStepSound(g: Graph, s: RunState, step: Step, at: int)
    requires Sound(s)
    requires step.Claim? || step.PreFail? || step.FlightFails? || step.FlightRequeues? || step.FlightUncertain? ||
             step.FlightCancelled? || step.FlightDies? || step.FlightSucceeds? || step.AskApproval? || step.GateWaits?
    ensures Sound(Next(g, s, step, at))
  {
    hide Sound, Log, LogAll, Commit, Transition, IsTask, IsGate, IsRouter;
    match step
    case Claim(n) =>
      AsideSound(s, Drop(s, n));
      if IsListed(s, n) && n in g.defs {
        var b := if g.defs[n].Task? then Started(n, s.batch[n].attempt, OperationKey(g.run, n, s.batch[n].attempt))
                 else Started(n, 1, "");
        LogSound(s, b, at);
        AsideSound(Log(s, b, at), Log(s, b, at).(batch := s.batch[n := Flying(s.batch[n].attempt)]));
      }
    case PreFail(n, rejected) =>
      AsideSound(s, Drop(s, n));
      if IsListed(s, n) {
        LogSound(Drop(s, n),
                 Ended(n, s.batch[n].attempt, Failure,
                       if rejected then OperationKey(g.run, n, s.batch[n].attempt) else ""), at);
      }
    case FlightFails(n) =>
      AsideSound(s, Drop(s, n));
      if IsFlying(s, n) {
        var a := s.batch[n].attempt;
        LogSound(Drop(s, n), Ended(n, a, Failure, ""), at);
        LogSound(s, NodeAttemptFailed(n, a, ""), at);
        AsideSound(Log(s, NodeAttemptFailed(n, a, ""), at),
                   Log(s, NodeAttemptFailed(n, a, ""), at).(batch := s.batch[n := Requeueing(a)]));
      }
    case FlightRequeues(n) =>
      AsideSound(s, Drop(s, n));
      if IsRequeueing(s, n) {
        TransitionSound(Drop(s, n), n, NodeRequeued(n, s.batch[n].attempt, false), at);
      }
    case FlightUncertain(n) =>
      AsideSound(s, Drop(s, n));
      if IsFlying(s, n) {
        LogSound(Drop(s, n), Ended(n, s.batch[n].attempt, Unsure, ""), at);
      }
    case FlightCancelled(n) =>
      AsideSound(s, Drop(s, n));
      if IsFlying(s, n) {
        LogSound(Drop(s, n), NodeCancelled(n, s.batch[n].attempt), at);
      }
    case FlightDies(n) =>
      AsideSound(s, Drop(s, n));
      if IsFlying(s, n) {
        LogSound(Drop(s, n), Ended(n, s.batch[n].attempt, Failure, ""), at);
      }
    case FlightSucceeds(n, route) =>
      AsideSound(s, Drop(s, n));
      if IsFlying(s, n) {
        CommitSound(g, Drop(s, n), n, s.batch[n].attempt, Some(if IsRouter(g, n) then "" else route), at);
      }
    case AskApproval(n) =>
      AsideSound(s, Drop(s, n));
      LogAllSound(Drop(s, n), [ApprovalRequested(n, "action", "scope", 0), NodeWaiting(n)], at);
    case GateWaits(n, w) =>
      AsideSound(s, Drop(s, n));
      TransitionSound(Drop(s, n), n, NodeWaiting(n), at);
      if w.Some? {
        LogAllSound(Drop(s, n), [WaitRequested(Some(Id(g.run, w.value)), n, "type", "key", "{}", 0), NodeWaiting(n)],
                    at);
      }
  }

  lemma RecoverSound(g: Graph, s: RunState, n: string, stop: bool, at: int)
    requires Sound(s) && n in g.defs && n in s.nodes
    ensures Sound(DoRecover(g, s, n, stop, at))
  {
    hide Sound, Log;
    LogSound(s, NodeRequeued(n, 0, false), at);
    LogSound(s, NodeReconciling(n), at);
    LogSound(s, NodeWaiting(n), at);
    if n in s.latest {
      LogSound(s, NodeCancelled(n, s.latest[n]), at);
      LogSound(s, NodeRequeued(n, s.latest[n], true), at);
    }
  }

  lemma ReconcileSound(g: Graph, s: RunState, n: string, stop: bool, answer: Answer, route: Option<string>, at: int)
    requires Sound(s) && n in s.nodes && n in s.latest
    ensures Sound(DoReconcile(g, s, n, stop, answer, route, at))
  {
    hide Sound, Log, Commit, Transition, Record;
    var t, a := Record(s, n, answer), s.latest[n];
    RecordSound(s, n, answer);
    LogSound(t, Ended(n, a, Failure, ""), at);
    TransitionSound(t, n, NodeWaiting(n), at);
    LogSound(t, NodeCancelled(n, a), at);
    TransitionSound(t, n, NodeRequeued(n, a, false), at);
    CommitSound(g, t, n, a, route, at);
  }

  lemma CancelSound(g: Graph, s: RunState, at: int)
    requires Sound(s)
    ensures Sound(DoCancel(g, s, at))
  {
    hide Sound, Log, LogAll, WaitLimit;
    var bs := CancelRows(s, g.order) + CancelOthers(s, g.order) + CancelWaits(g, s, WaitLimit(s.waits));
    LogAllSound(s, bs, at);
    LogSound(LogAll(s, bs, at), RunEnded(RunCancelled, ""), at);
  }

  lemma DecideSound(g: Graph, s: RunState, a: nat, granted: bool, at: int)
    requires Sound(s) && a in s.approvals
    ensures Sound(DoDecide(g, s, a, granted, at)) && Sound(DoExpireApproval(g, s, a, at))
  {
    hide Sound, Resolve, RouteWith;
    var n := s.approvals[a].node;
    var b := ApprovalDecided(granted, Id(g.run, a), "actor", "key");
    LogSound(s, b, at);
    ResolveSound(g, Log(s, b, at), n,
                 if granted then Some("success") else RouteWith(g.edges, n, "denied", "failure"), at);
    var u := Log(s, Unprojected("approval_expired"), at);
    var t := u.(approvals := s.approvals[a := s.approvals[a].(verdict := Expired)]);
    LogSound(s, Unprojected("approval_expired"), at);
    AsideSound(u, t);
    ResolveSound(g, t, n, RouteWith(g.edges, n, "expired", "timeout"), at);
  }

  lemma EndWaitSound(g: Graph, s: RunState, w: nat, route: string, at: int)
    requires Sound(s) && w in s.waits
    ensures Sound(DoCompleteWait(g, s, w, route, at)) && Sound(DoExpireWait(g, s, w, at))
  {
    hide Sound, Resolve, RouteWith, Log, LogAll;
    var n, bs := s.waits[w].node, [Unprojected("external_event_received"), WaitCompleted(Some(Id(g.run, w)), None, "")];
    LogAllSound(s, bs, at);
    ResolveSound(g, LogAll(s, bs, at), n, Some(route), at);
    LogSound(s, WaitExpired(Some(Id(g.run, w))), at);
    ResolveSound(g, Log(s, WaitExpired(Some(Id(g.run, w))), at), n, RouteWith(g.edges, n, "timeout", "expired"), at);
  }

  lemma StepSound(g: Graph, s: RunState, step: Step, at: int)
    requires Sound(s)
    ensures Sound(Next(g, s, step, at))
  {
    hide Sound, Log, List, EndOf, DoCancel, DoDecide, DoExpireApproval, DoCompleteWait, DoExpireWait, DoRecover,
         DoReconcile, ScanOf, ScanAfter;
    match step
    case BeginStep => AsideSound(s, s.(checked := true));
    case ListNodes =>
      AsideSound(s, s.(checked := false));
      AsideSound(s, s.(batch := List(g, s), rounds := s.rounds + 1, checked := false));
    case Crash => AsideSound(s, s.(batch := map[], checked := false, scan := []));
    case FlightLost(n) => AsideSound(s, Drop(s, n));
    case CancelRun => CancelSound(g, s, at);
    case AbandonRun => LogSound(s, RunEnded(RunAbandoned, ""), at);
    case CompleteRun => if EndOf(g, s).Some? { LogSound(s, RunEnded(EndOf(g, s).value, ""), at); }
    case BeginScan(leased) => AsideSound(s, s.(scan := ScanOf(s, leased, g.sweep)));
    case Recover =>
      if s.scan != [] && s.scan[0].node in g.defs && s.scan[0].node in s.nodes {
        var v := s.scan[0];
        RecoverSound(g, s, v.node, v.stop, at);
        var t := DoRecover(g, s, v.node, v.stop, at);
        AsideSound(t, t.(scan := ScanAfter(g, s)));
      }
    case Reconcile(answer, route) =>
      if s.scan != [] && s.scan[0].node in s.nodes && s.scan[0].node in s.latest {
        var v := s.scan[0];
        ReconcileSound(g, s, v.node, v.stop, answer, route, at);
        var t := DoReconcile(g, s, v.node, v.stop, answer, route, at);
        AsideSound(t, t.(scan := s.scan[1..]));
      }
    case Decide(a, granted) => if a in s.approvals { DecideSound(g, s, a, granted, at); }
    case ExpireApproval(a) => if a in s.approvals { DecideSound(g, s, a, true, at); }
    case CompleteWait(w, route) => if w in s.waits { EndWaitSound(g, s, w, route, at); }
    case ExpireWait(w) => if w in s.waits { EndWaitSound(g, s, w, "", at); }
    case _ => FlightStepSound(g, s, step, at);
  }

  lemma {:induction false} RunIsSound(g: Graph, steps: seq<(Step, int)>)
    ensures Sound(Run(g, steps))
  {
    hide Next;
    if |steps| == 0 {
    } else {
      hide Sound;
      RunIsSound(g, steps[..|steps| - 1]);
      StepSound(g, Run(g, steps[..|steps| - 1]), steps[|steps| - 1].0, steps[|steps| - 1].1);
    }
  }

  /** The events that a record stands for, in order. */
  function Bodies(acts: seq<Act>): seq<Body> {
    if |acts| == 0 then []
    else Bodies(acts[..|acts| - 1]) + if acts[|acts| - 1].Logged? then [acts[|acts| - 1].body] else []
  }

  /** evs are these events of run r, after the event that started it. */
  ghost predicate Carries(evs: seq<Event>, r: RunId, bodies: seq<Body>) {
    && |evs| == |bodies| + 1 && evs[0].body.RunStarted?
    && (forall i :: 0 <= i < |evs| ==> evs[i].run == r)
    && (forall i :: 0 <= i < |bodies| ==> evs[i + 1].body == bodies[i])
  }

  lemma {:induction false} FoldFollowsRecord(evs: seq<Event>, r: RunId, acts: seq<Act>)
    requires Carries(evs, r, Bodies(acts)) && Replay.Fold(evs).Some?
    ensures NodesAgree(Replay.Fold(evs).value, r, RowsOf(acts))
    decreases |acts|
  {
    hide Project, Touch;
    var init, ev := evs[..|evs| - 1], evs[|evs| - 1];
    if |acts| == 0 {
      assert init == [];
      NothingAgrees(r);
      ProjectFollowsEngine(map[], ev, map[], 0);
      StartTouchesNothing(ev.body);
    } else {
      var before := acts[..|acts| - 1];
      if acts[|acts| - 1].Logged? {
        assert Bodies(acts) == Bodies(before) + [acts[|acts| - 1].body];
        assert ev.body == Bodies(acts)[|Bodies(before)|];
        forall i | 0 <= i < |Bodies(before)|
          ensures init[i + 1].body == Bodies(before)[i]
        {
          assert Bodies(before)[i] == Bodies(acts)[i];
        }
        assert Carries(init, r, Bodies(before));
        FoldFollowsRecord(init, r, before);
        ProjectFollowsEngine(Replay.Fold(init).value, ev, RowsOf(before), 0);
      } else {
        assert Bodies(acts) == Bodies(before);
        FoldFollowsRecord(evs, r, before);
      }
    }
  }

  lemma NothingAgrees(r: RunId)
    ensures NodesAgree(map[], r, map[])
  {
  }

  lemma StartTouchesNothing(b: Body)
    requires b.RunStarted?
    ensures Touch(map[], b, 0) == map[]
  {
  }

  /** The run_node rows projected from the events of a run are the rows the engine's steps work with. */
  lemma TablesFollowRun(g: Graph, steps: seq<(Step, int)>, evs: seq<Event>)
    requires Carries(evs, g.run, Bodies(Run(g, steps).acts)) && Replay.Fold(evs).Some?
    ensures var t, s := Replay.Fold(evs).value, Run(g, steps);
            forall n :: (HasNode(t, g.run, n) <==> n in s.nodes) &&
                        (n in s.nodes ==>
                         NodeOf(t, g.run, n).status == s.nodes[n].status &&
                         NodeOf(t, g.run, n).attemptCount == s.nodes[n].attemptCount)
  {
    hide Run, RowsOf, Replay.Fold, Bodies, Carries, HasNode, NodeOf;
    var s, t := Run(g, steps), Replay.Fold(evs).value;
    RunIsSound(g, steps);
    FoldFollowsRecord(evs, g.run, s.acts);
    forall n
      ensures HasNode(t, g.run, n) <==> n in s.nodes
      ensures n in s.nodes ==>
              NodeOf(t, g.run, n).status == s.nodes[n].status &&
              NodeOf(t, g.run, n).attemptCount == s.nodes[n].attemptCount
    {
      assert NodeAgrees(t, g.run, RowsOf(s.acts), n) && SameRowAt(s.nodes, RowsOf(s.acts), n);
    }
  }
}
