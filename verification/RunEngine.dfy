/** The run engine: one run of a graph, its driver, and every transaction that can touch the run.

    Each step is one store transaction (or one in-memory move of the driver); a step whose guard does
    not hold changes nothing. Runs are arbitrary sequences of steps. */
module RunEngine {
  import opened Events
  import opened OperationKeys
  import opened Options

  // ---- the definition of a graph ----

  datatype Contract = Pure | Idempotent | Reconcilable | NonReplayable

  /** A router may name an executor, which only recovery looks at. A gate listens if it names an event type
      and a correlation key. */
  datatype NodeDef =
    | Router(executor: Option<Contract>)
    | Gate(listens: bool)
    | Task(contract: Contract, maxAttempts: int)

  datatype EdgeType = DependsOn | Produces | Consumes | RoutesTo | OtherEdge
  datatype EdgeDef = EdgeDef(id: string, from: string, to: string, typ: EdgeType, cond: string)

  /** `order` lists the defined nodes by key, `sweep` in the order in which recovery reads them; `edges` are
      ordered by id. */
  datatype Graph = Graph(
    run: RunId, order: seq<string>, sweep: seq<string>, defs: map<string, NodeDef>, edges: seq<EdgeDef>)

  predicate IsDependency(t: EdgeType) { t.DependsOn? || t.Produces? || t.Consumes? }

  ghost predicate ValidGraph(g: Graph) {
    && (forall n :: n in g.defs <==> n in g.order)
    && (forall i, j :: 0 <= i < j < |g.order| ==> g.order[i] != g.order[j])
    && (forall n :: n in g.defs <==> n in g.sweep)
    && (forall i, j :: 0 <= i < j < |g.sweep| ==> g.sweep[i] != g.sweep[j])
    && (forall n :: n in g.defs && g.defs[n].Task? ==> g.defs[n].maxAttempts >= 1)
    && (forall i {:trigger g.edges[i]} :: 0 <= i < |g.edges| ==> g.edges[i].from in g.defs && g.edges[i].to in g.defs)
    && (forall i, j :: 0 <= i < j < |g.edges| ==> g.edges[i].id != g.edges[j].id)
  }

  // ---- the state of a run ----

  /** What the driver holds for a node of the current step. */
  datatype Flight = Listed(attempt: int) | Flying(attempt: int) | Requeueing(attempt: int)

  datatype WaitState = WaitState(node: string, pending: bool)
  datatype Verdict = Open | Decided | Expired
  datatype ApprovalState = ApprovalState(node: string, verdict: Verdict)

  /** An executor's answer about an effect whose outcome is unknown. */
  datatype Answer = Confirmed | Absent | Rejected | Unknown | NotReconcilable | BadParams

  datatype Act = Logged(body: Body) | Answered(node: string, answer: Answer)

  /** A node that a recovery has read and not dealt with; `stop` says that it was asked to stop when it was
      read, `asked` that its executor is being asked about its effect. */
  datatype Visit = Visit(node: string, stop: bool, asked: bool)

  /** `checked` says that the driver has seen the run running and has not listed nodes yet; `scan` is what a
      recovery still has to visit. */
  datatype RunState = RunState(
    acts: seq<Act>, status: RunStatus, nodes: map<string, NodeRow>, latest: map<string, int>, traversed: set<string>,
    waits: map<nat, WaitState>, approvals: map<nat, ApprovalState>, batch: map<string, Flight>, rounds: nat,
    checked: bool, scan: seq<Visit>)

  const START := RunState([], RunRunning, map[], map[], {}, map[], map[], map[], 0, false, [])

  function RowOf(nodes: map<string, NodeRow>, n: string): NodeRow { if n in nodes then nodes[n] else PENDING }

  predicate Has(s: RunState, n: string, st: NodeStatus) { n in s.nodes && s.nodes[n].status == st }

  predicate Done(s: RunState, n: string) { Has(s, n, Succeeded) || Has(s, n, Skipped) }

  /** All dependencies done and all routes into the node traversed. */
  predicate Ready(g: Graph, s: RunState, n: string) {
    forall i {:trigger g.edges[i]} :: 0 <= i < |g.edges| && g.edges[i].to == n ==>
      && (IsDependency(g.edges[i].typ) ==> Done(s, g.edges[i].from))
      && (g.edges[i].typ.RoutesTo? ==> g.edges[i].id in s.traversed)
  }

  predicate Eligible(g: Graph, s: RunState, n: string) {
    if n in s.nodes && !s.nodes[n].status.Pending? then s.nodes[n].status.Eligible? else Ready(g, s, n)
  }

  // ---- appending an event ----

  function Ensure(nodes: map<string, NodeRow>, n: string): map<string, NodeRow> { nodes[n := RowOf(nodes, n)] }

  function EnsureLinks(nodes: map<string, NodeRow>, links: seq<Link>): map<string, NodeRow>
    decreases |links|
  {
    if |links| == 0 then nodes else EnsureLinks(Ensure(nodes, links[0].target), links[1..])
  }

  /** The node rows after an event. */
  function Touch(nodes: map<string, NodeRow>, b: Body, at: int): map<string, NodeRow> {
    if MovesNode(b) then
      if NeedsNode(b) && b.node !in nodes then nodes else nodes[b.node := NodeAfter(RowOf(nodes, b.node), b, at)]
    else if b.DecisionRecorded? then EnsureLinks(Ensure(nodes, b.node), b.links)
    else if b.WaitRequested? then Ensure(nodes, b.node)
    else nodes
  }

  function WaitNo(w: Option<Id>): nat { if w.Some? then w.value.n else 0 }

  function EndWait(s: RunState, w: nat): map<nat, WaitState> {
    if w in s.waits then s.waits[w := s.waits[w].(pending := false)] else s.waits
  }

  function Log(s: RunState, b: Body, at: int): RunState {
    s.(acts := s.acts + [Logged(b)],
       nodes := Touch(s.nodes, b, at),
       status := if b.RunEnded? then b.status else s.status,
       traversed := if b.EdgeTraversed? then s.traversed + {b.edge} else s.traversed,
       latest := if (b.NodeStarted? || b.NodeEnded?) && b.opKey != ""
                 then s.latest[b.node := if b.node in s.latest then Max(s.latest[b.node], b.attemptNo) else b.attemptNo]
                 else s.latest,
       waits := match b
                case WaitRequested(w, n, _, _, _, _) => s.waits[WaitNo(w) := WaitState(n, true)]
                case WaitCompleted(w, _, _) => EndWait(s, WaitNo(w))
                case WaitExpired(w) => EndWait(s, WaitNo(w))
                case WaitCancelled(w) => EndWait(s, WaitNo(w))
                case _ => s.waits,
       approvals := match b
                    case ApprovalRequested(n, _, _, _) => s.approvals[|s.acts| := ApprovalState(n, Open)]
                    case ApprovalDecided(_, a, _, _) =>
                      if a.n in s.approvals then s.approvals[a.n := s.approvals[a.n].(verdict := Decided)]
                      else s.approvals
                    case _ => s.approvals)
  }

  function LogAll(s: RunState, bs: seq<Body>, at: int): RunState
    decreases |bs|
  {
    if |bs| == 0 then s else LogAll(Log(s, bs[0], at), bs[1..], at)
  }

  function Started(n: string, a: int, key: string): Body { NodeStarted(n, a, key, "executor", "contract", "lease", 1) }

  function Ended(n: string, a: int, o: Outcome, key: string): Body {
    NodeEnded(n, a, o, key, "executor", "contract", "")
  }

  // ---- routing out of a finished node ----

  predicate Selects(e: EdgeDef, route: Option<string>) {
    e.typ.RoutesTo? && route.Some? && (e.cond == "" || e.cond == route.value)
  }

  function Traversals(es: seq<EdgeDef>, n: string, route: Option<string>): seq<Body> {
    if |es| == 0 then []
    else Traversals(es[..|es| - 1], n, route) +
         var e := es[|es| - 1];
         if e.from == n && (IsDependency(e.typ) || Selects(e, route))
         then [EdgeTraversed(e.id, if e.typ.RoutesTo? then e.cond else "", 0)]
         else []
  }

  predicate SelectedTarget(g: Graph, n: string, route: Option<string>, to: string) {
    exists i :: 0 <= i < |g.edges| && g.edges[i].from == n && g.edges[i].to == to && Selects(g.edges[i], route)
  }

  predicate OnlyRoutesFrom(g: Graph, to: string, n: string) {
    forall i :: 0 <= i < |g.edges| && g.edges[i].to == to && g.edges[i].typ.RoutesTo? ==> g.edges[i].from == n
  }

  /** A target that no route selected and that only n could have routed to. */
  predicate Blocks(g: Graph, n: string, route: Option<string>, e: EdgeDef) {
    e.from == n && e.typ.RoutesTo? && !SelectedTarget(g, n, route, e.to) && OnlyRoutesFrom(g, e.to, n)
  }

  /** The blocked targets, each once, in edge order. */
  function Blocked(g: Graph, es: seq<EdgeDef>, n: string, route: Option<string>): seq<string> {
    if |es| == 0 then []
    else
      var before := Blocked(g, es[..|es| - 1], n, route);
      var e := es[|es| - 1];
      if Blocks(g, n, route, e) && e.to !in before then before + [e.to] else before
  }

  function Skips(nodes: map<string, NodeRow>, targets: seq<string>): seq<Body> {
    if |targets| == 0 then []
    else Skips(nodes, targets[..|targets| - 1]) +
         if targets[|targets| - 1] in nodes then [] else [NodeSkipped(targets[|targets| - 1])]
  }

  function BlockedLinks(targets: seq<string>): seq<Link> {
    seq(|targets|, i requires 0 <= i < |targets| => Link(targets[i], "blocked_by", "decision", ""))
  }

  /** The decision that records the selection of e. */
  function SelectionOf(e: EdgeDef, n: string, first: bool, blocked: seq<string>): Body {
    DecisionRecorded(n, e.id,
                     [Link(e.to, "contributing", "decision", "")] + if first then BlockedLinks(blocked) else [])
  }

  /** One decision per selected edge; the first also names the blocked targets. */
  function RoutingDecisions(es: seq<EdgeDef>, n: string, route: Option<string>, blocked: seq<string>): seq<Body> {
    if |es| == 0 then []
    else
      var before := RoutingDecisions(es[..|es| - 1], n, route, blocked);
      var e := es[|es| - 1];
      if e.from == n && Selects(e, route) then before + [SelectionOf(e, n, before == [], blocked)] else before
  }

  function Candidates(es: seq<EdgeDef>, n: string): nat {
    if |es| == 0 then 0
    else Candidates(es[..|es| - 1], n) + if es[|es| - 1].from == n && es[|es| - 1].typ.RoutesTo? then 1 else 0
  }

  function Decisions(g: Graph, n: string, route: Option<string>): seq<Body> {
    var blocked := Blocked(g, g.edges, n, route);
    var selected := RoutingDecisions(g.edges, n, route, blocked);
    if Candidates(g.edges, n) == 0 then []
    else if selected == [] then [DecisionRecorded(n, "rejected", BlockedLinks(blocked))]
    else selected
  }

  predicate HasDecision(acts: seq<Act>, n: string) {
    exists i :: 0 <= i < |acts| && acts[i].Logged? && acts[i].body.DecisionRecorded? && acts[i].body.node == n
  }

  predicate DependenciesDone(g: Graph, s: RunState, n: string) {
    forall i {:trigger g.edges[i]} ::
      0 <= i < |g.edges| && g.edges[i].to == n && IsDependency(g.edges[i].typ) ==> Done(s, g.edges[i].from)
  }

  function DependencyLinks(es: seq<EdgeDef>, to: string): seq<Link> {
    if |es| == 0 then []
    else DependencyLinks(es[..|es| - 1], to) +
         if es[|es| - 1].to == to && IsDependency(es[|es| - 1].typ) then [Link(to, "contributing", "event", "")] else []
  }

  /** Why each dependent became eligible, each dependent once. */
  function EligibilityDecisions(g: Graph, s: RunState, es: seq<EdgeDef>, n: string): seq<Body> {
    if |es| == 0 then []
    else
      var before := EligibilityDecisions(g, s, es[..|es| - 1], n);
      var e := es[|es| - 1];
      if e.from == n && IsDependency(e.typ) && !SeenTarget(es[..|es| - 1], n, e.to) &&
         DependenciesDone(g, s, e.to) && !HasDecision(s.acts, e.to)
      then before + [DecisionRecorded(e.to, "", DependencyLinks(g.edges, e.to))]
      else before
  }

  predicate SeenTarget(es: seq<EdgeDef>, n: string, to: string) {
    exists i :: 0 <= i < |es| && es[i].from == n && es[i].to == to && IsDependency(es[i].typ)
  }

  /** Everything appended when a node has finished: traversals, skips, routing and eligibility decisions. */
  function Route(g: Graph, s: RunState, n: string, route: Option<string>, at: int): RunState {
    var t := LogAll(s, Traversals(g.edges, n, route), at);
    var u := LogAll(t, Skips(t.nodes, Blocked(g, g.edges, n, route)), at);
    var v := LogAll(u, Decisions(g, n, route), at);
    LogAll(v, EligibilityDecisions(g, v, g.edges, n), at)
  }

  /** node_finished followed by routing. */
  function Finish(g: Graph, s: RunState, n: string, a: int, route: Option<string>, at: int): RunState {
    Route(g, Log(s, Ended(n, a, Finished, ""), at), n, route, at)
  }

  // ---- transactions ----

  datatype Step =
    | BeginStep
    | ListNodes
    | Claim(node: string)
    | PreFail(node: string, rejected: bool)
    | FlightFails(node: string)
    | FlightRequeues(node: string)
    | FlightUncertain(node: string)
    | FlightCancelled(node: string)
    | FlightDies(node: string)
    | FlightLost(node: string)
    | FlightSucceeds(node: string, route: string)
    | AskApproval(node: string)
    | GateWaits(node: string, register: Option<nat>)
    | Crash
    | CancelRun
    | AbandonRun
    | CompleteRun
    | BeginScan(leased: set<string>)
    | Recover
    | Reconcile(answer: Answer, result: Option<string>)
    | Decide(approval: nat, granted: bool)
    | ExpireApproval(approval: nat)
    | CompleteWait(wait: nat, route: string)
    | ExpireWait(wait: nat)

  predicate IsListed(s: RunState, n: string) { n in s.batch && s.batch[n].Listed? }
  predicate IsFlying(s: RunState, n: string) { n in s.batch && s.batch[n].Flying? }
  predicate IsRequeueing(s: RunState, n: string) { n in s.batch && s.batch[n].Requeueing? }
  predicate IsTask(g: Graph, n: string) { n in g.defs && g.defs[n].Task? }
  predicate IsGate(g: Graph, n: string) { n in g.defs && g.defs[n].Gate? }
  predicate IsRouter(g: Graph, n: string) { n in g.defs && g.defs[n].Router? }

  function Drop(s: RunState, n: string): RunState { s.(batch := s.batch - {n}) }

  function List(g: Graph, s: RunState): map<string, Flight> {
    map n | n in g.defs && Eligible(g, s, n) :: Listed(RowOf(s.nodes, n).attemptCount + 1)
  }

  predicate Claimable(s: RunState, n: string) {
    n !in s.nodes || s.nodes[n].status.Eligible? || s.nodes[n].status.Pending?
  }

  function DoClaim(g: Graph, s: RunState, n: string, at: int): RunState
    requires IsListed(s, n) && n in g.defs
  {
    var a := s.batch[n].attempt;
    if !Claimable(s, n) then Drop(s, n)
    else
      Log(s,
          if g.defs[n].Task? then Started(n, a, OperationKey(g.run, n, a))
          else Started(n, 1, ""), at).(batch := s.batch[n := Flying(a)])
  }

  /** The outcome of a finished execution whose node may have been cancelled meanwhile. */
  function Commit(g: Graph, s: RunState, n: string, a: int, route: Option<string>, at: int): RunState {
    if Has(s, n, CancelRequested) then Log(s, NodeCancelled(n, a), at)
    else if Has(s, n, Running) || Has(s, n, Reconciling) then Finish(g, s, n, a, route, at)
    else s
  }

  /** A transition that a cancellation overrides. */
  function Transition(s: RunState, n: string, b: Body, at: int): RunState {
    if n !in s.nodes || Cancelling(s.nodes[n].status) then s else Log(s, b, at)
  }

  predicate TerminalForRegistration(st: NodeStatus) { Settled(st) || st.CancelRequested? }

  function DoAskApproval(g: Graph, s: RunState, n: string, at: int): RunState {
    if !s.status.RunRunning? || n !in s.nodes || TerminalForRegistration(s.nodes[n].status) then s
    else if exists a :: a in s.approvals && s.approvals[a].node == n && !s.approvals[a].verdict.Decided? then s
    else LogAll(s, [ApprovalRequested(n, "action", "scope", 0), NodeWaiting(n)], at)
  }

  function DoGateWaits(g: Graph, s: RunState, n: string, w: Option<nat>, at: int): RunState {
    if w.None? then Transition(s, n, NodeWaiting(n), at)
    else if !s.status.RunRunning? || w.value in s.waits then s
    else if n in s.nodes && TerminalForRegistration(s.nodes[n].status) then s
    else if exists x :: x in s.waits && s.waits[x].node == n && s.waits[x].pending then s
    else LogAll(s, [WaitRequested(Some(Id(g.run, w.value)), n, "type", "key", "{}", 0), NodeWaiting(n)], at)
  }

  /** Statuses with an attempt under way, which a cancellation can only request to stop. */
  predicate InFlight(st: NodeStatus) {
    st.Running? || st.Leased? || st.Uncertain? || st.Reconciling? || st.CancelRequested?
  }

  function CancelRows(s: RunState, order: seq<string>): seq<Body> {
    if |order| == 0 then []
    else
      var n := order[|order| - 1];
      CancelRows(s, order[..|order| - 1]) +
      if n !in s.nodes || Settled(s.nodes[n].status) || s.nodes[n].status.CancelRequested? then []
      else if InFlight(s.nodes[n].status) then [NodeCancelRequested(n)]
      else [NodeCancelled(n, 0)]
  }

  function CancelOthers(s: RunState, order: seq<string>): seq<Body> {
    if |order| == 0 then []
    else CancelOthers(s, order[..|order| - 1]) +
         if order[|order| - 1] in s.nodes then [] else [NodeCancelled(order[|order| - 1], 0)]
  }

  function CancelWaits(g: Graph, s: RunState, k: nat): seq<Body> {
    if k == 0 then []
    else CancelWaits(g, s, k - 1) +
         if k - 1 in s.waits && s.waits[k - 1].pending then [WaitCancelled(Some(Id(g.run, k - 1)))] else []
  }

  function WaitLimit(waits: map<nat, WaitState>): (k: nat)
    ensures forall w :: w in waits ==> w < k
  {
    var m := LargestKey(waits.Keys); m + 1
  }

  function LargestKey(ks: set<nat>): (k: nat)
    ensures forall w :: w in ks ==> w <= k
    decreases ks
  {
    if ks == {} then 0
    else
      assert exists w :: w in ks;
      LargestExists(ks);
      var w :| w in ks && forall x :: x in ks ==> x <= w;
      w
  }

  ghost predicate IsLargest(ks: set<nat>, w: nat) { w in ks && forall x :: x in ks ==> x <= w }

  lemma {:induction false} LargestExists(ks: set<nat>)
    requires exists w :: w in ks
    ensures exists w :: w in ks && forall x :: x in ks ==> x <= w
    decreases ks
  {
    var w :| w in ks;
    var rest := ks - {w};
    if exists x :: x in rest {
      LargestExists(rest);
      var m :| m in rest && forall x :: x in rest ==> x <= m;
      LargestOfTwo(ks, w, m);
    } else {
      assert forall x :: x in ks ==> x in rest || x == w;
      assert IsLargest(ks, w);
    }
  }

  lemma LargestOfTwo(ks: set<nat>, w: nat, m: nat)
    requires w in ks && IsLargest(ks - {w}, m)
    ensures IsLargest(ks, if m < w then w else m)
  {
    assert forall x :: x in ks ==> x in ks - {w} || x == w;
  }

  predicate Active(st: NodeStatus) { !Settled(st) }

  predicate NoneActive(s: RunState) { forall n :: n in s.nodes ==> !Active(s.nodes[n].status) }

  function DoCancel(g: Graph, s: RunState, at: int): RunState {
    var t := LogAll(s, CancelRows(s, g.order) + CancelOthers(s, g.order) + CancelWaits(g, s, WaitLimit(s.waits)), at);
    if NoneActive(t) then Log(t, RunEnded(RunCancelled, ""), at) else t
  }

  predicate Any(s: RunState, st: NodeStatus) { exists n :: n in s.nodes && s.nodes[n].status == st }

  function DoneNodes(s: RunState): set<string> {
    set n | n in s.nodes && (s.nodes[n].status.Succeeded? || s.nodes[n].status.Skipped?)
  }

  /** How a run with nothing left to start ends, if it ends. */
  function EndOf(g: Graph, s: RunState): Option<RunStatus> {
    if Any(s, Failed) then Some(RunFailed)
    else if !NoneActive(s) then None
    else if Any(s, Cancelled) then Some(RunCancelled)
    else if |DoneNodes(s)| == |g.defs| > 0 then Some(RunCompleted)
    else None
  }

  predicate RecoverCandidate(st: NodeStatus) { InFlight(st) }

  /** What a recovery reads: the candidates in the order of the sweep, without those whose lease runs. */
  function ScanOf(s: RunState, leased: set<string>, order: seq<string>): seq<Visit> {
    if |order| == 0 then []
    else
      var n := order[|order| - 1];
      ScanOf(s, leased, order[..|order| - 1]) +
      if n in s.nodes && RecoverCandidate(s.nodes[n].status) && n !in leased
      then [Visit(n, s.nodes[n].status.CancelRequested?, false)]
      else []
  }

  /** The contract that recovery finds in a definition. */
  function Executor(d: NodeDef): Option<Contract> {
    match d case Router(e) => e case Gate(_) => None case Task(c, _) => Some(c)
  }

  /** The visit ends the recovery with an error: there is no executor, or an attempt that is looked for. */
  predicate Errs(g: Graph, s: RunState, n: string, stop: bool)
    requires n in g.defs
  {
    match Executor(g.defs[n])
    case None => true
    case Some(c) => n !in s.latest && (stop || c.Idempotent? || c.Reconcilable?)
  }

  /** What is left to visit after the first visit; a reconcilable effect is asked about first. */
  function ScanAfter(g: Graph, s: RunState): seq<Visit>
    requires s.scan != [] && s.scan[0].node in g.defs
  {
    var v := s.scan[0];
    if Errs(g, s, v.node, v.stop) then []
    else if Executor(g.defs[v.node]) == Some(Reconcilable) then [v.(asked := true)] + s.scan[1..]
    else s.scan[1..]
  }

  function DoRecover(g: Graph, s: RunState, n: string, stop: bool, at: int): RunState
    requires n in g.defs && n in s.nodes
  {
    match Executor(g.defs[n])
    case None => s
    case Some(c) =>
      if stop then
        if n !in s.latest then s
        else
          match c
          case Pure => Log(s, NodeCancelled(n, s.latest[n]), at)
          case Reconcilable => s
          case _ => Transition(s, n, NodeWaiting(n), at)
      else
        match c
        case Pure => Transition(s, n, NodeRequeued(n, 0, false), at)
        case Idempotent => if n in s.latest then Log(s, NodeRequeued(n, s.latest[n], true), at) else s
        case Reconcilable => Log(s, NodeReconciling(n), at)
        case NonReplayable => Transition(s, n, NodeWaiting(n), at)
  }

  function Record(s: RunState, n: string, answer: Answer): RunState { s.(acts := s.acts + [Answered(n, answer)]) }

  function DoReconcile(g: Graph, s: RunState, n: string, stop: bool, answer: Answer, route: Option<string>,
      at: int): RunState
    requires n in s.nodes && n in s.latest
  {
    var t, a := Record(s, n, answer), s.latest[n];
    match answer
    case BadParams => Log(t, Ended(n, a, Failure, ""), at)
    case NotReconcilable => Transition(t, n, NodeWaiting(n), at)
    case Unknown => Transition(t, n, NodeWaiting(n), at)
    case Confirmed => if stop then Log(t, NodeCancelled(n, a), at) else Commit(g, t, n, a, route, at)
    case _ => if stop || Has(s, n, CancelRequested) then Log(t, NodeCancelled(n, a), at)
              else Transition(t, n, NodeRequeued(n, a, false), at)
  }

  /** The first route out of n with one of two conditions. */
  function RouteWith(es: seq<EdgeDef>, n: string, c1: string, c2: string): Option<string> {
    if |es| == 0 then None
    else if es[0].from == n && es[0].typ.RoutesTo? && (es[0].cond == c1 || es[0].cond == c2) then Some(es[0].cond)
    else RouteWith(es[1..], n, c1, c2)
  }

  /** A node that waited ends by a route, or fails when it has none. */
  function Resolve(g: Graph, s: RunState, n: string, route: Option<string>, at: int): RunState {
    var a := RowOf(s.nodes, n).attemptCount;
    if route.Some? then Finish(g, s, n, a, route, at) else Log(s, Ended(n, a, Failure, ""), at)
  }

  function DoDecide(g: Graph, s: RunState, a: nat, granted: bool, at: int): RunState
    requires a in s.approvals
  {
    var n := s.approvals[a].node;
    var t := Log(s, ApprovalDecided(granted, Id(g.run, a), "actor", "key"), at);
    Resolve(g, t, n, if granted then Some("success") else RouteWith(g.edges, n, "denied", "failure"), at)
  }

  function DoExpireApproval(g: Graph, s: RunState, a: nat, at: int): RunState
    requires a in s.approvals
  {
    var n := s.approvals[a].node;
    var t := Log(s, Unprojected("approval_expired"),
                 at).(approvals := s.approvals[a := s.approvals[a].(verdict := Expired)]);
    Resolve(g, t, n, RouteWith(g.edges, n, "expired", "timeout"), at)
  }

  function DoCompleteWait(g: Graph, s: RunState, w: nat, route: string, at: int): RunState
    requires w in s.waits
  {
    var t := LogAll(s, [Unprojected("external_event_received"), WaitCompleted(Some(Id(g.run, w)), None, "")], at);
    Resolve(g, t, s.waits[w].node, Some(route), at)
  }

  function DoExpireWait(g: Graph, s: RunState, w: nat, at: int): RunState
    requires w in s.waits
  {
    var n := s.waits[w].node;
    Resolve(g, Log(s, WaitExpired(Some(Id(g.run, w))), at), n, RouteWith(g.edges, n, "timeout", "expired"), at)
  }

  /** One step. */
  function Next(g: Graph, s: RunState, step: Step, at: int): RunState {
    match step
    case BeginStep =>
      if s.status.RunRunning? && s.batch == map[] && s.scan == [] then s.(checked := true) else s
    case ListNodes =>
      if !s.checked then s
      else if List(g, s) == map[] then s.(checked := false)
      else s.(batch := List(g, s), rounds := s.rounds + 1, checked := false)
    case Claim(n) => if IsListed(s, n) && n in g.defs then DoClaim(g, s, n, at) else s
    case PreFail(n, rejected) =>
      if IsListed(s, n) && IsTask(g, n)
      then Log(Drop(s, n),
               Ended(n, s.batch[n].attempt, Failure,
                     if rejected then OperationKey(g.run, n, s.batch[n].attempt) else ""), at)
      else s
    case FlightFails(n) =>
      if !IsFlying(s, n) || !IsTask(g, n) then s
      else
        var a := s.batch[n].attempt;
        if a >= g.defs[n].maxAttempts then Log(Drop(s, n), Ended(n, a, Failure, ""), at)
        else Log(s, NodeAttemptFailed(n, a, ""), at).(batch := s.batch[n := Requeueing(a)])
    case FlightRequeues(n) =>
      if IsRequeueing(s, n) then Transition(Drop(s, n), n, NodeRequeued(n, s.batch[n].attempt, false), at) else s
    case FlightUncertain(n) =>
      if IsFlying(s, n) && IsTask(g, n) then Log(Drop(s, n), Ended(n, s.batch[n].attempt, Unsure, ""), at) else s
    case FlightCancelled(n) =>
      if IsFlying(s, n) then Log(Drop(s, n), NodeCancelled(n, s.batch[n].attempt), at) else s
    case FlightDies(n) =>
      if IsFlying(s, n) && IsTask(g, n) then Log(Drop(s, n), Ended(n, s.batch[n].attempt, Failure, ""), at) else s
    case FlightLost(n) => if n in s.batch then Drop(s, n) else s
    case FlightSucceeds(n, route) =>
      if IsFlying(s, n) && n in g.defs && !IsGate(g, n)
      then Commit(g, Drop(s, n), n, s.batch[n].attempt, Some(if IsRouter(g, n) then "" else route), at)
      else s
    case AskApproval(n) => if IsFlying(s, n) && IsTask(g, n) then DoAskApproval(g, Drop(s, n), n, at) else s
    case GateWaits(n, w) => if IsFlying(s, n) && IsGate(g, n) && w.Some? == g.defs[n].listens
                          then DoGateWaits(g, Drop(s, n), n, w, at) else s
    case Crash => s.(batch := map[], checked := false, scan := [])
    case CancelRun => if s.status.RunRunning? then DoCancel(g, s, at) else s
    case AbandonRun => if s.status.RunRunning? then Log(s, RunEnded(RunAbandoned, ""), at) else s
    case CompleteRun =>
      if s.status.RunRunning? && s.batch == map[] && !s.checked && EndOf(g, s).Some?
      then Log(s, RunEnded(EndOf(g, s).value, ""), at)
      else s
    case BeginScan(leased) =>
      if s.batch == map[] && !s.checked && s.scan == [] && (forall n :: n in leased ==> IsTask(g, n))
      then s.(scan := ScanOf(s, leased, g.sweep))
      else s
    case Recover =>
      if s.scan != [] && !s.scan[0].asked && s.scan[0].node in g.defs && s.scan[0].node in s.nodes
      then DoRecover(g, s, s.scan[0].node, s.scan[0].stop, at).(scan := ScanAfter(g, s))
      else s
    case Reconcile(answer, route) =>
      if s.scan != [] && s.scan[0].asked && s.scan[0].node in s.nodes && s.scan[0].node in s.latest
      then DoReconcile(g, s, s.scan[0].node, s.scan[0].stop, answer, route, at).(scan := s.scan[1..])
      else s
    case Decide(a, granted) =>
      if s.status.RunRunning? && a in s.approvals && s.approvals[a].verdict.Open? then DoDecide(g, s, a, granted, at)
      else s
    case ExpireApproval(a) =>
      if s.status.RunRunning? && a in s.approvals && s.approvals[a].verdict.Open? then DoExpireApproval(g, s, a, at)
      else s
    case CompleteWait(w, route) =>
      if s.status.RunRunning? && w in s.waits && s.waits[w].pending then DoCompleteWait(g, s, w, route, at) else s
    case ExpireWait(w) => if w in s.waits && s.waits[w].pending then DoExpireWait(g, s, w, at) else s
  }

  /** The state after a sequence of steps, each at some time. */
  function Run(g: Graph, steps: seq<(Step, int)>): RunState {
    if |steps| == 0 then START
    else Next(g, Run(g, steps[..|steps| - 1]), steps[|steps| - 1].0, steps[|steps| - 1].1)
  }
}
