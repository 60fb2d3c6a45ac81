/** What every step of a run keeps. */
module RunSafety {
  import opened Collections
  import opened Events
  import opened OperationKeys
  import opened Options
  import opened RunEngine

  // ---- what the record says about one node ----

  /** `last` is the attempt number of the last start; the flags say what has happened since. */
  datatype Summary = Summary(
    starts: nat, last: int, failed: bool, answered: bool, resumed: bool, requeued: bool)

  const UNSTARTED := Summary(0, 0, false, false, false, false)

  function Update(u: Summary, act: Act, n: string): Summary {
    match act
    case Answered(m, answer) => if m == n && (answer.Absent? || answer.Rejected?) then u.(answered := true) else u
    case Logged(b) =>
      if b.NodeStarted? && b.node == n then Summary(u.starts + 1, b.attemptNo, false, false, false, false)
      else if b.NodeAttemptFailed? && b.node == n && b.attemptNo == u.last then u.(failed := true)
      else if b.NodeRequeued? && b.node == n && b.resume && b.attemptNo == u.last then u.(resumed := true)
      else if b.NodeRequeued? && b.node == n && !b.resume then u.(requeued := true)
      else u
  }

  function Summarize(acts: seq<Act>, n: string): Summary {
    if |acts| == 0 then UNSTARTED else Update(Summarize(acts[..|acts| - 1], n), acts[|acts| - 1], n)
  }

  lemma SummarizeNext(acts: seq<Act>, act: Act, n: string)
    ensures Summarize(acts + [act], n) == Update(Summarize(acts, n), act, n)
  {
    assert (acts + [act])[..|acts|] == acts;
  }

  /** The record allows the node to be started again. */
  predicate Justified(d: NodeDef, u: Summary) {
    match d
    case Gate(_) => false
    case Router(_) => u.requeued
    case Task(Pure, _) => u.failed || u.requeued
    case Task(Idempotent, _) => u.failed || u.resumed
    case Task(Reconcilable, _) => u.failed || u.answered
    case Task(NonReplayable, _) => u.failed
  }

  // ---- the invariant ----

  /** Every node is settled or has been asked to stop. */
  ghost predicate Frozen(g: Graph, s: RunState) {
    forall n :: n in g.defs ==> n in s.nodes && (Settled(s.nodes[n].status) || s.nodes[n].status.CancelRequested?)
  }

  ghost predicate AttemptsMatch(s: RunState, n: string, u: Summary)
    requires n in s.nodes
  {
    u.starts > 0 && u.last >= 1 && n in s.latest && s.latest[n] == u.last && s.nodes[n].attemptCount == u.last
  }

  ghost predicate StatusOk(g: Graph, s: RunState, n: string)
    requires n in g.defs && n in s.nodes
  {
    var row, u, d := s.nodes[n], Summarize(s.acts, n), g.defs[n];
    match row.status
    case Pending => u.starts == 0 && row.attemptCount == 0 && n !in s.latest
    case Eligible =>
      && u.starts > 0 && Justified(d, u)
      && (d.Task? ==>
            && u.last >= 1 && n in s.latest && s.latest[n] == u.last
            && (row.attemptCount == u.last || (row.attemptCount == u.last - 1 && u.resumed && d.contract.Idempotent?)))
      && (!d.Task? ==> d == Router(Some(Pure)) && u.last == 1 && row.attemptCount == 1)
    case Leased => false
    case Running =>
      if d.Task? then AttemptsMatch(s, n, u)
      else u.starts > 0 && (d.Gate? ==> u.starts == 1) && u.last == 1 && row.attemptCount == 1
    case Uncertain => d.Task? && AttemptsMatch(s, n, u)
    case Reconciling =>
      u.starts > 0 && Executor(d) == Some(Reconcilable) && (d.Task? ==> AttemptsMatch(s, n, u))
    case Waiting => u.starts > 0 && (d.Task? ==> AttemptsMatch(s, n, u))
    case CancelRequested => u.starts > 0 && (d.Task? ==> n in s.latest)
    case _ => true
  }

  ghost predicate FlightOk(g: Graph, s: RunState, n: string)
    requires n in g.defs && n in s.batch
  {
    var u, f, a := Summarize(s.acts, n), s.batch[n], s.batch[n].attempt;
    match f
    case Listed(_) =>
      if n !in s.nodes || s.nodes[n].status.Pending? then Ready(g, s, n) && a == 1
      else if s.nodes[n].status.Eligible? then a == s.nodes[n].attemptCount + 1
      else s.nodes[n].status.Cancelled?
    case Flying(_) =>
      n in s.nodes && (s.nodes[n].status.Running? || s.nodes[n].status.CancelRequested?) &&
      (g.defs[n].Task? ==> a == u.last)
    case Requeueing(_) =>
      && g.defs[n].Task? && n in s.nodes && u.failed && a == u.last
      && (s.nodes[n].status.Eligible? || Cancelling(s.nodes[n].status))
  }

  ghost predicate NodeOk(g: Graph, s: RunState, n: string)
    requires n in g.defs
  {
    && (n in s.nodes ==> StatusOk(g, s, n))
    && (n !in s.nodes ==> Summarize(s.acts, n).starts == 0 && n !in s.latest)
    && (!g.defs[n].Task? ==> n !in s.latest)
    && (n in s.batch ==> FlightOk(g, s, n))
  }

  /** A node someone waits for is waiting, or the whole run has been cancelled. */
  ghost predicate Held(g: Graph, s: RunState, n: string) {
    n in g.defs && n in s.nodes && n !in s.batch &&
    (s.nodes[n].status.Waiting? || (s.nodes[n].status.Cancelled? && Frozen(g, s)))
  }

  /** A gate that registers a wait. */
  predicate Listens(g: Graph, n: string) { IsGate(g, n) && g.defs[n].listens }

  ghost predicate WaitOk(g: Graph, s: RunState, w: nat)
    requires w in s.waits
  {
    s.waits[w].pending ==>
      && Held(g, s, s.waits[w].node) && Listens(g, s.waits[w].node)
      && forall x :: x in s.waits && s.waits[x].pending && s.waits[x].node == s.waits[w].node ==> x == w
  }

  ghost predicate ApprovalOk(g: Graph, s: RunState, a: nat)
    requires a in s.approvals
  {
    && a < |s.acts|
    && (s.approvals[a].verdict.Open? ==>
          && Held(g, s, s.approvals[a].node) && IsTask(g, s.approvals[a].node)
          && forall x :: x in s.approvals && s.approvals[x].verdict.Open? &&
                         s.approvals[x].node == s.approvals[a].node ==>
                         x == a)
  }

  /** Edges are traversed by finished nodes. */
  ghost predicate EdgeOk(g: Graph, s: RunState, e: EdgeDef) {
    e.id in s.traversed ==> Has(s, e.from, Succeeded) || Frozen(g, s)
  }

  ghost predicate Inv(g: Graph, s: RunState) {
    && (forall n :: n in s.nodes ==> n in g.defs)
    && (forall n :: n in s.batch ==> n in g.defs)
    && (forall n {:trigger NodeOk(g, s, n)} :: n in g.defs ==> NodeOk(g, s, n))
    && (forall w {:trigger WaitOk(g, s, w)} :: w in s.waits ==> WaitOk(g, s, w))
    && (forall a {:trigger ApprovalOk(g, s, a)} :: a in s.approvals ==> ApprovalOk(g, s, a))
    && (forall i {:trigger g.edges[i]} :: 0 <= i < |g.edges| ==> EdgeOk(g, s, g.edges[i]))
  }

  // ---- how a state may change around the node a step is about ----

  /** Finished nodes stay finished, traversed edges stay traversed, frozen runs stay frozen. */
  ghost predicate Progress(g: Graph, s: RunState, t: RunState) {
    && (forall n :: Done(s, n) ==> Done(t, n))
    && (forall n :: Has(s, n, Succeeded) ==> Has(t, n, Succeeded))
    && s.traversed <= t.traversed
    && (Frozen(g, s) ==> Frozen(g, t))
  }

  /** Nothing about node n has changed. */
  ghost predicate Same(s: RunState, t: RunState, n: string) {
    && (n in s.nodes <==> n in t.nodes) && (n in s.nodes ==> s.nodes[n] == t.nodes[n])
    && (n in s.batch <==> n in t.batch) && (n in s.batch ==> s.batch[n] == t.batch[n])
    && (n in s.latest <==> n in t.latest) && (n in s.latest ==> s.latest[n] == t.latest[n])
    && Summarize(s.acts, n) == Summarize(t.acts, n)
  }

  lemma SameKeepsNode(g: Graph, s: RunState, t: RunState, n: string)
    requires n in g.defs && NodeOk(g, s, n) && Progress(g, s, t) && Same(s, t, n)
    ensures NodeOk(g, t, n)
  {
  }

  lemma ReadyStays(g: Graph, s: RunState, t: RunState, n: string)
    requires Progress(g, s, t) && Ready(g, s, n)
    ensures Ready(g, t, n)
  {
  }

  /** The waits and approvals of t are those of s, up to some that have ended. */
  ghost predicate NoNewHolds(s: RunState, t: RunState) {
    && (forall w :: w in t.waits ==>
                    w in s.waits && t.waits[w].node == s.waits[w].node && (t.waits[w].pending ==> s.waits[w].pending))
    && (forall a :: a in t.approvals ==> a in s.approvals && t.approvals[a].node == s.approvals[a].node &&
                                         (t.approvals[a].verdict.Open? ==> s.approvals[a].verdict.Open?))
  }

  ghost predicate HoldsNode(s: RunState, n: string) {
    (exists w :: w in s.waits && s.waits[w].pending && s.waits[w].node == n) ||
    (exists a :: a in s.approvals && s.approvals[a].verdict.Open? && s.approvals[a].node == n)
  }

  /** Any node but the held ones may move; held nodes stay as they are, or settle into a frozen run. */
  lemma HoldsKept(g: Graph, s: RunState, t: RunState)
    requires Inv(g, s) && NoNewHolds(s, t) && |s.acts| <= |t.acts| && (Frozen(g, s) ==> Frozen(g, t))
    requires forall n {:trigger Held(g, t, n)} :: HoldsNode(t, n) && Held(g, s, n) ==> Held(g, t, n)
    ensures forall w {:trigger WaitOk(g, t, w)} :: w in t.waits ==> WaitOk(g, t, w)
    ensures forall a {:trigger ApprovalOk(g, t, a)} :: a in t.approvals ==> ApprovalOk(g, t, a)
  {
    forall w | w in t.waits
      ensures WaitOk(g, t, w)
    {
      assert WaitOk(g, s, w);
      if t.waits[w].pending { assert HoldsNode(t, t.waits[w].node); }
    }
    forall a | a in t.approvals
      ensures ApprovalOk(g, t, a)
    {
      assert ApprovalOk(g, s, a);
      if t.approvals[a].verdict.Open? { assert HoldsNode(t, t.approvals[a].node); }
    }
  }

  // ---- steps that move one node ----

  /** t differs from s at node n only, apart from waits and approvals that have ended. */
  ghost predicate Moves(g: Graph, s: RunState, t: RunState, n: string) {
    && n in g.defs && n in t.nodes && t.nodes.Keys == s.nodes.Keys + {n}
    && t.batch.Keys <= s.batch.Keys + {n}
    && t.traversed == s.traversed && |s.acts| <= |t.acts| && NoNewHolds(s, t)
    && (forall x {:trigger Same(s, t, x)} :: x != n ==> Same(s, t, x))
    && (Done(s, n) ==> t.nodes[n].status == s.nodes[n].status)
    && (Frozen(g, s) ==> Settled(t.nodes[n].status) || t.nodes[n].status.CancelRequested?)
  }

  lemma MoveProgresses(g: Graph, s: RunState, t: RunState, n: string)
    requires Moves(g, s, t, n)
    ensures Progress(g, s, t)
  {
    hide Summarize;
    forall x | x in s.nodes && x != n
      ensures x in t.nodes && t.nodes[x] == s.nodes[x]
    {
      assert Same(s, t, x);
    }
  }

  lemma MoveKeepsHolds(g: Graph, s: RunState, t: RunState, n: string)
    requires Inv(g, s) && Moves(g, s, t, n) && (HoldsNode(t, n) ==> Held(g, t, n)) && Progress(g, s, t)
    ensures forall w {:trigger WaitOk(g, t, w)} :: w in t.waits ==> WaitOk(g, t, w)
    ensures forall a {:trigger ApprovalOk(g, t, a)} :: a in t.approvals ==> ApprovalOk(g, t, a)
  {
    hide Summarize, NodeOk, WaitOk, ApprovalOk, EdgeOk;
    forall x | HoldsNode(t, x) && Held(g, s, x)
      ensures Held(g, t, x)
    {
      if x != n { assert Same(s, t, x); }
    }
    HoldsKept(g, s, t);
  }

  lemma MoveKeeps(g: Graph, s: RunState, t: RunState, n: string)
    requires Inv(g, s) && Moves(g, s, t, n) && NodeOk(g, t, n)
    requires HoldsNode(t, n) ==> Held(g, t, n)
    ensures Inv(g, t) && Progress(g, s, t)
  {
    hide Summarize, NodeOk, WaitOk, ApprovalOk, HoldsNode, Held, NoNewHolds;
    MoveProgresses(g, s, t, n);
    MoveKeepsHolds(g, s, t, n);
    forall x | x in g.defs
      ensures NodeOk(g, t, x)
    {
      if x != n {
        assert NodeOk(g, s, x) && Same(s, t, x);
        SameKeepsNode(g, s, t, x);
      }
    }
    assert forall i {:trigger g.edges[i]} :: 0 <= i < |g.edges| ==> EdgeOk(g, s, g.edges[i]);
  }

  /** A node in the batch, or with an attempt under way, is not held. */
  lemma BusyIsNotHeld(g: Graph, s: RunState, n: string)
    requires Inv(g, s) && (n in s.batch || (n in s.nodes && InFlight(s.nodes[n].status)))
    ensures !HoldsNode(s, n)
  {
    assert forall w :: w in s.waits && s.waits[w].pending ==> WaitOk(g, s, w);
    assert forall a :: a in s.approvals && s.approvals[a].verdict.Open? ==> ApprovalOk(g, s, a);
  }

  /** Logging an event about n leaves the other nodes alone. */
  lemma LogOther(s: RunState, b: Body, at: int, x: string)
    requires MovesNode(b) && b.node != x
    ensures Same(s, Log(s, b, at), x)
  {
    SummarizeNext(s.acts, Logged(b), x);
  }

  lemma LogMoves(g: Graph, s: RunState, b: Body, at: int)
    requires Inv(g, s) && MovesNode(b) && b.node in g.defs && (NeedsNode(b) ==> b.node in s.nodes)
    requires Done(s, b.node) ==> NodeAfter(s.nodes[b.node], b, at).status == s.nodes[b.node].status
    requires var st := NodeAfter(RowOf(s.nodes, b.node), b, at).status;
             Frozen(g, s) ==> Settled(st) || st.CancelRequested?
    ensures Moves(g, s, Log(s, b, at), b.node)
    ensures Log(s, b, at).nodes[b.node] == NodeAfter(RowOf(s.nodes, b.node), b, at)
    ensures Summarize(Log(s, b, at).acts, b.node) == Update(Summarize(s.acts, b.node), Logged(b), b.node)
  {
    SummarizeNext(s.acts, Logged(b), b.node);
    forall x | x != b.node
      ensures Same(s, Log(s, b, at), x)
    {
      LogOther(s, b, at, x);
    }
  }

  lemma MoveBatch(g: Graph, s: RunState, t: RunState, n: string, t': RunState)
    requires Moves(g, s, t, n) && t' == t.(batch := t'.batch)
    requires t'.batch.Keys <= s.batch.Keys + {n} &&
             forall x :: x != n ==> (x in t'.batch <==> x in t.batch) && (x in t.batch ==> t'.batch[x] == t.batch[x])
    ensures Moves(g, s, t', n)
  {
    forall x | x != n
      ensures Same(s, t', x)
    {
      assert Same(s, t, x);
    }
  }

  /** A frozen run has no claimable node in its batch. */
  lemma FrozenIsNotClaimable(g: Graph, s: RunState, n: string)
    requires Inv(g, s) && Frozen(g, s) && IsListed(s, n)
    ensures n in s.nodes && s.nodes[n].status.Cancelled? && !Claimable(s, n)
  {
    assert NodeOk(g, s, n);
  }

  lemma DropKeepsNode(g: Graph, s: RunState, n: string, x: string)
    requires x in g.defs && NodeOk(g, s, x)
    ensures NodeOk(g, Drop(s, n), x)
  {
    hide Summarize;
  }

  lemma DropKeepsHeld(g: Graph, s: RunState, n: string)
    ensures forall x :: Held(g, s, x) ==> Held(g, Drop(s, n), x)
  {
  }

  lemma DropKeeps(g: Graph, s: RunState, n: string)
    requires Inv(g, s)
    ensures Inv(g, Drop(s, n)) && Progress(g, s, Drop(s, n))
  {
    hide Summarize, NodeOk, WaitOk, ApprovalOk;
    var t := Drop(s, n);
    forall x | x in g.defs
      ensures NodeOk(g, t, x)
    {
      assert NodeOk(g, s, x);
      DropKeepsNode(g, s, n, x);
    }
    DropKeepsHeld(g, s, n);
    HoldsKept(g, s, t);
    assert forall i {:trigger g.edges[i]} :: 0 <= i < |g.edges| ==> EdgeOk(g, s, g.edges[i]);
  }

  /** The state after an event about a node, with the batch changed at that node. */
  ghost function Moved(s: RunState, b: Body, at: int, batch: map<string, Flight>): RunState {
    Log(s, b, at).(batch := batch)
  }

  ghost predicate BatchAt(s: RunState, batch: map<string, Flight>, n: string) {
    && batch.Keys <= s.batch.Keys + {n}
    && forall x :: x != n ==> (x in batch <==> x in s.batch) && (x in s.batch ==> batch[x] == s.batch[x])
  }

  /** What an event about n makes of n. */
  lemma MovedNode(s: RunState, b: Body, at: int, batch: map<string, Flight>)
    requires MovesNode(b) && (NeedsNode(b) ==> b.node in s.nodes)
    ensures var t, n := Moved(s, b, at, batch), b.node;
            && n in t.nodes && t.nodes[n] == NodeAfter(RowOf(s.nodes, n), b, at)
            && Summarize(t.acts, n) == Update(Summarize(s.acts, n), Logged(b), n)
            && t.latest == (if (b.NodeStarted? || b.NodeEnded?) && b.opKey != ""
                            then s.latest[n := if n in s.latest then Max(s.latest[n], b.attemptNo) else b.attemptNo]
                            else s.latest)
            && t.traversed == s.traversed && t.status == s.status && t.rounds == s.rounds
            && t.batch == batch && t.waits == s.waits && t.approvals == s.approvals && t.acts == s.acts + [Logged(b)]
            && (forall x :: x != n ==> (x in t.nodes <==> x in s.nodes) && (x in s.nodes ==> t.nodes[x] == s.nodes[x]))
  {
    SummarizeNext(s.acts, Logged(b), b.node);
  }

  /** An event may follow when it neither undoes a finished node nor stirs a frozen run. */
  ghost predicate MayMove(g: Graph, s: RunState, b: Body, at: int) {
    && MovesNode(b) && b.node in g.defs && (NeedsNode(b) ==> b.node in s.nodes)
    && (Done(s, b.node) ==> NodeAfter(s.nodes[b.node], b, at).status == s.nodes[b.node].status)
    && var st := NodeAfter(RowOf(s.nodes, b.node), b, at).status; (Frozen(g, s) ==> Settled(st) || st.CancelRequested?)
  }

  lemma MovedMoves(g: Graph, s: RunState, b: Body, at: int, batch: map<string, Flight>)
    requires Inv(g, s) && MayMove(g, s, b, at) && BatchAt(s, batch, b.node)
    ensures Moves(g, s, Moved(s, b, at, batch), b.node)
  {
    hide Summarize, NodeOk, WaitOk, ApprovalOk, EdgeOk;
    LogMoves(g, s, b, at);
    hide Log;
    MoveBatch(g, s, Log(s, b, at), b.node, Moved(s, b, at, batch));
  }

  /** The common proof of the steps that move one node. */
  lemma MovedKeeps(g: Graph, s: RunState, b: Body, at: int, batch: map<string, Flight>)
    requires Inv(g, s) && MovesNode(b) && MayMove(g, s, b, at) && BatchAt(s, batch, b.node)
    requires b.node in g.defs && NodeOk(g, Moved(s, b, at, batch), b.node)
    requires !HoldsNode(s, b.node)
    ensures Inv(g, Moved(s, b, at, batch)) && Progress(g, s, Moved(s, b, at, batch))
  {
    hide Inv, Moves, NodeOk, MayMove, BatchAt;
    MovedMoves(g, s, b, at, batch);
    SameHolds(g, s, b, at, batch);
    MoveKeeps(g, s, Moved(s, b, at, batch), b.node);
  }

  lemma SameHolds(g: Graph, s: RunState, b: Body, at: int, batch: map<string, Flight>)
    requires MayMove(g, s, b, at)
    ensures forall n :: HoldsNode(Moved(s, b, at, batch), n) <==> HoldsNode(s, n)
  {
  }

  function StartBody(g: Graph, s: RunState, n: string): Body
    requires IsListed(s, n) && n in g.defs
  {
    if g.defs[n].Task? then Started(n, s.batch[n].attempt, OperationKey(g.run, n, s.batch[n].attempt))
    else Started(n, 1, "")
  }

  lemma ClaimMoves(g: Graph, s: RunState, n: string, at: int)
    requires Inv(g, s) && IsListed(s, n) && n in g.defs && Claimable(s, n) && !Frozen(g, s)
    ensures var t := Moved(s, StartBody(g, s, n), at, s.batch[n := Flying(s.batch[n].attempt)]);
            Inv(g, t) && Progress(g, s, t)
  {
    hide Inv, Log, Moved, Frozen, Summarize, Drop, HoldsNode, Progress, NodeOk;
    var b, batch := StartBody(g, s, n), s.batch[n := Flying(s.batch[n].attempt)];
    StartedNodeOk(g, s, n, at);
    MovedKeeps(g, s, b, at, batch);
  }

  lemma StartedNodeOk(g: Graph, s: RunState, n: string, at: int)
    requires Inv(g, s) && IsListed(s, n) && n in g.defs && Claimable(s, n) && !Frozen(g, s)
    ensures var b, batch := StartBody(g, s, n), s.batch[n := Flying(s.batch[n].attempt)];
            && NodeOk(g, Moved(s, b, at, batch), n) && !HoldsNode(s, n) && !Done(s, n)
  {
    BusyView(g, s, n);
    ListedAttempt(g, s, n);
    hide Inv, Log, Moved, Frozen, HoldsNode, OperationKey, Ready, Justified, StatusOk, FlightOk;
    var b, batch := StartBody(g, s, n), s.batch[n := Flying(s.batch[n].attempt)];
    MovedNode(s, b, at, batch);
    hide Summarize;
    StartedOk(g, s, Moved(s, b, at, batch), n, at);
  }

  /** The attempt number of a listed node is one more than it has had. */
  lemma ListedAttempt(g: Graph, s: RunState, n: string)
    requires n in g.defs && NodeOk(g, s, n) && IsListed(s, n) && Claimable(s, n)
    ensures s.batch[n].attempt >= 1 && s.batch[n].attempt == RowOf(s.nodes, n).attemptCount + 1 && !Done(s, n)
    ensures n in s.latest && g.defs[n].Task? ==> s.latest[n] <= s.batch[n].attempt
    ensures !g.defs[n].Task? ==> n !in s.latest && RowOf(s.nodes, n).attemptCount <= 1
    ensures g.defs[n].Gate? ==> Summarize(s.acts, n).starts == 0
  {
    hide Summarize, Ready, Justified;
  }

  lemma StartedOk(g: Graph, s: RunState, t: RunState, n: string, at: int)
    requires IsListed(s, n) && n in g.defs && s.batch[n].attempt >= 1 && n in t.nodes && n in t.batch
    requires s.batch[n].attempt == RowOf(s.nodes, n).attemptCount + 1
    requires n in s.latest && g.defs[n].Task? ==> s.latest[n] <= s.batch[n].attempt
    requires !g.defs[n].Task? ==> n !in s.latest && RowOf(s.nodes, n).attemptCount <= 1
    requires g.defs[n].Gate? ==> Summarize(s.acts, n).starts == 0
    requires t.nodes[n] == NodeAfter(RowOf(s.nodes, n), StartBody(g, s, n), at)
    requires Summarize(t.acts, n) == Update(Summarize(s.acts, n), Logged(StartBody(g, s, n)), n)
    requires var b := StartBody(g, s, n);
             t.latest == (if b.opKey != ""
                          then s.latest[n := if n in s.latest then Max(s.latest[n], b.attemptNo) else b.attemptNo]
                          else s.latest)
    requires t.batch[n] == Flying(s.batch[n].attempt)
    ensures NodeOk(g, t, n)
  {
    hide Summarize, OperationKey, Ready, Justified;
  }

  lemma ClaimKeeps(g: Graph, s: RunState, n: string, at: int)
    requires Inv(g, s) && IsListed(s, n) && n in g.defs
    ensures Inv(g, DoClaim(g, s, n, at)) && Progress(g, s, DoClaim(g, s, n, at))
  {
    if Frozen(g, s) { FrozenIsNotClaimable(g, s, n); }
    hide Inv, Frozen, Summarize, HoldsNode, Progress;
    if Claimable(s, n) {
      ClaimMoves(g, s, n, at);
    } else {
      DropKeeps(g, s, n);
    }
  }

  /** What the invariant says about one node that is in the batch or has an attempt under way. */
  lemma BusyView(g: Graph, s: RunState, n: string)
    requires Inv(g, s) && (n in s.batch || (n in s.nodes && InFlight(s.nodes[n].status)))
    ensures n in g.defs && NodeOk(g, s, n) && !HoldsNode(s, n)
    ensures Frozen(g, s) ==> n in s.nodes && (Settled(s.nodes[n].status) || s.nodes[n].status.CancelRequested?)
  {
    BusyIsNotHeld(g, s, n);
  }

  lemma DropThenLog(s: RunState, n: string, b: Body, at: int)
    ensures Log(Drop(s, n), b, at) == Moved(s, b, at, s.batch - {n})
  {
  }

  /** The steps of a listed or flying node that end its place in the batch with one event. */
  lemma LeavesBatch(g: Graph, s: RunState, n: string, b: Body, at: int)
    requires Inv(g, s) && n in s.batch && MovesNode(b) && b.node == n
    requires match b
             case NodeEnded(_, a, o, key, _, _, _) => IsTask(g, n) && a == s.batch[n].attempt &&
               ((IsListed(s, n) && o.Failure?) || (IsFlying(s, n) && !o.Finished? && key == ""))
             case NodeCancelled(_, _) => IsFlying(s, n)
             case NodeRequeued(_, a, resume) => IsRequeueing(s, n) && !resume && a == s.batch[n].attempt &&
                                                !Cancelling(RowOf(s.nodes, n).status)
             case _ => false
    ensures Inv(g, Log(Drop(s, n), b, at)) && Progress(g, s, Log(Drop(s, n), b, at))
  {
    hide Inv, Log, Moved, Frozen, Summarize, Drop, HoldsNode, Ready, Progress;
    DropThenLog(s, n, b, at);
    var batch := s.batch - {n};
    BusyView(g, s, n);
    MovedNode(s, b, at, batch);
    assert NodeOk(g, Moved(s, b, at, batch), n);
    MovedKeeps(g, s, b, at, batch);
  }

  lemma AttemptFails(g: Graph, s: RunState, n: string, at: int)
    requires Inv(g, s) && IsFlying(s, n) && IsTask(g, n)
    ensures var a := s.batch[n].attempt;
            var t := Moved(s, NodeAttemptFailed(n, a, ""), at, s.batch[n := Requeueing(a)]);
            Inv(g, t) && Progress(g, s, t)
  {
    hide Inv, Log, Moved, Frozen, Summarize, Drop, HoldsNode, Ready, Progress;
    var a := s.batch[n].attempt;
    var b := NodeAttemptFailed(n, a, "");
    var batch := s.batch[n := Requeueing(a)];
    BusyView(g, s, n);
    MovedNode(s, b, at, batch);
    assert NodeOk(g, Moved(s, b, at, batch), n);
    MovedKeeps(g, s, b, at, batch);
  }

  lemma FlightFailsKeeps(g: Graph, s: RunState, n: string, at: int)
    requires Inv(g, s)
    ensures Inv(g, Next(g, s, FlightFails(n), at)) && Progress(g, s, Next(g, s, FlightFails(n), at))
  {
    if IsFlying(s, n) && IsTask(g, n) {
      var a := s.batch[n].attempt;
      if a >= g.defs[n].maxAttempts {
        LeavesBatch(g, s, n, Ended(n, a, Failure, ""), at);
      } else {
        AttemptFails(g, s, n, at);
      }
    }
  }

  lemma FlightRequeuesKeeps(g: Graph, s: RunState, n: string, at: int)
    requires Inv(g, s) && IsRequeueing(s, n)
    ensures Inv(g, Next(g, s, FlightRequeues(n), at)) && Progress(g, s, Next(g, s, FlightRequeues(n), at))
  {
    assert NodeOk(g, s, n);
    if Cancelling(s.nodes[n].status) {
      DropKeeps(g, s, n);
    } else {
      LeavesBatch(g, s, n, NodeRequeued(n, s.batch[n].attempt, false), at);
    }
  }

  // ---- recovery ----

  /** Events of a node that is not in the batch and has an attempt under way. */
  lemma RecoveryMoves(g: Graph, s: RunState, n: string, b: Body, at: int)
    requires Inv(g, s) && n !in s.batch && n in g.defs && n in s.nodes && InFlight(s.nodes[n].status)
    requires MovesNode(b) && b.node == n
    requires var d, st, u := g.defs[n], s.nodes[n].status, Summarize(s.acts, n);
             match b
             case NodeCancelled(_, _) => st.CancelRequested?
             case NodeRequeued(_, a, resume) =>
               if resume then d.Task? && d.contract.Idempotent? && n in s.latest && a == s.latest[n]
               else !st.CancelRequested? &&
                    (Executor(d) == Some(Pure) || (d.Task? && d.contract.Reconcilable? && u.answered))
             case NodeReconciling(_) => Executor(d) == Some(Reconcilable)
             case NodeWaiting(_) => true
             case NodeEnded(_, _, o, key, _, _, _) => o.Failure? && key == ""
             case _ => false
    ensures Inv(g, Log(s, b, at)) && Progress(g, s, Log(s, b, at))
  {
    hide Inv, Log, Moved, Frozen, Summarize, Drop, HoldsNode, Ready, Progress;
    BusyView(g, s, n);
    LogIsMoved(s, b, at);
    MovedNode(s, b, at, s.batch);
    assert NodeOk(g, Moved(s, b, at, s.batch), n);
    assert MayMove(g, s, b, at);
    hide NodeOk, MayMove;
    MovedKeeps(g, s, b, at, s.batch);
  }

  lemma LogIsMoved(s: RunState, b: Body, at: int)
    ensures Log(s, b, at) == Moved(s, b, at, s.batch)
  {
  }

  /** A candidate is still what it was when it was read, or has been asked to stop since. */
  ghost predicate VisitOk(g: Graph, s: RunState, v: Visit) {
    && v.node in g.defs && v.node in s.nodes && InFlight(s.nodes[v.node].status)
    && (v.stop ==> s.nodes[v.node].status.CancelRequested?)
    && (v.asked ==> IsTask(g, v.node) && g.defs[v.node].contract.Reconcilable? && v.node in s.latest &&
                    (Has(s, v.node, Reconciling) || Has(s, v.node, CancelRequested)))
  }

  lemma RecoverKeeps(g: Graph, s: RunState, v: Visit, at: int)
    requires Inv(g, s) && s.batch == map[] && VisitOk(g, s, v)
    ensures var t := DoRecover(g, s, v.node, v.stop, at); Inv(g, t) && Progress(g, s, t)
  {
    hide Inv, Log, Summarize, Progress;
    ProgressSelf(g, s);
    var n := v.node;
    match Executor(g.defs[n])
    case None =>
    case Some(c) =>
      KnownIsTask(g, s, n);
      if v.stop {
        if n in s.latest {
          if c.Pure? { RecoveryMoves(g, s, n, NodeCancelled(n, s.latest[n]), at); }
        }
      } else {
        match c
        case Pure =>
          if !Cancelling(s.nodes[n].status) { RecoveryMoves(g, s, n, NodeRequeued(n, 0, false), at); }
        case Idempotent => if n in s.latest { RecoveryMoves(g, s, n, NodeRequeued(n, s.latest[n], true), at); }
        case Reconcilable => RecoveryMoves(g, s, n, NodeReconciling(n), at);
        case NonReplayable =>
          if !Cancelling(s.nodes[n].status) { RecoveryMoves(g, s, n, NodeWaiting(n), at); }
      }
  }

  /** Only tasks have attempts. */
  lemma KnownIsTask(g: Graph, s: RunState, n: string)
    requires Inv(g, s) && n in g.defs
    ensures n in s.latest ==> g.defs[n].Task?
  {
    assert NodeOk(g, s, n);
  }

  // ---- routing ----

  ghost predicate RoutesInto(g: Graph, n: string, x: string) {
    exists i :: 0 <= i < |g.edges| && g.edges[i].from == n && g.edges[i].to == x && g.edges[i].typ.RoutesTo?
  }

  /** What routing out of n does: rows appear, pending or skipped, and edges of n are traversed. */
  ghost predicate Routed(g: Graph, s: RunState, t: RunState, n: string) {
    && t.status == s.status && t.batch == s.batch && t.latest == s.latest && t.waits == s.waits &&
       t.approvals == s.approvals
    && t.rounds == s.rounds && t.checked == s.checked && t.scan == s.scan && |s.acts| <= |t.acts|
    && (forall x {:trigger Summarize(t.acts, x)} :: Summarize(t.acts, x) == Summarize(s.acts, x))
    && (forall x :: x in s.nodes ==> x in t.nodes && t.nodes[x] == s.nodes[x])
    && (forall x :: x in t.nodes && x !in s.nodes ==>
          x in g.defs && t.nodes[x].attemptCount == 0 &&
          (t.nodes[x].status.Pending? || (t.nodes[x].status.Skipped? && RoutesInto(g, n, x))))
    && s.traversed <= t.traversed
    && (forall id :: id in t.traversed && id !in s.traversed ==>
                     exists i :: 0 <= i < |g.edges| && g.edges[i].id == id && g.edges[i].from == n)
  }

  lemma RoutedTrans(g: Graph, s: RunState, t: RunState, u: RunState, n: string)
    requires Routed(g, s, t, n) && Routed(g, t, u, n)
    ensures Routed(g, s, u, n)
  {
    hide Summarize;
    assert forall x {:trigger Summarize(u.acts, x)} :: Summarize(u.acts, x) == Summarize(t.acts, x) ==
                                                       Summarize(s.acts, x);
  }

  ghost predicate Quiet(g: Graph, n: string, b: Body) {
    match b
    case EdgeTraversed(id, _, _) => exists i :: 0 <= i < |g.edges| && g.edges[i].id == id && g.edges[i].from == n
    case DecisionRecorded(m, _, links) => m in g.defs && forall i :: 0 <= i < |links| ==> links[i].target in g.defs
    case NodeSkipped(x) => x in g.defs && RoutesInto(g, n, x)
    case _ => false
  }

  lemma {:induction false} EnsureLinksKeeps(g: Graph, nodes: map<string, NodeRow>, links: seq<Link>)
    requires forall i :: 0 <= i < |links| ==> links[i].target in g.defs
    ensures forall x :: x in nodes ==> x in EnsureLinks(nodes, links) && EnsureLinks(nodes, links)[x] == nodes[x]
    ensures forall x :: x in EnsureLinks(nodes, links) && x !in nodes ==>
                        x in g.defs && EnsureLinks(nodes, links)[x] == PENDING
    decreases |links|
  {
    if |links| > 0 { EnsureLinksKeeps(g, Ensure(nodes, links[0].target), links[1..]); }
  }

  lemma QuietLogRoutes(g: Graph, s: RunState, n: string, b: Body, at: int)
    requires Quiet(g, n, b) && (b.NodeSkipped? ==> b.node !in s.nodes)
    ensures Routed(g, s, Log(s, b, at), n)
    ensures forall x :: x in Log(s, b, at).nodes && x !in s.nodes && b.NodeSkipped? ==> x == b.node
  {
    forall x
      ensures Summarize(Log(s, b, at).acts, x) == Summarize(s.acts, x)
    {
      SummarizeNext(s.acts, Logged(b), x);
    }
    if b.DecisionRecorded? { EnsureLinksKeeps(g, Ensure(s.nodes, b.node), b.links); }
  }

  lemma RoutedSelf(g: Graph, s: RunState, n: string)
    ensures Routed(g, s, s, n)
  {
  }

  ghost predicate AllQuiet(g: Graph, n: string, bs: seq<Body>) { forall b :: b in bs ==> Quiet(g, n, b) }

  ghost predicate NoSkips(bs: seq<Body>) { forall b :: b in bs ==> !b.NodeSkipped? }

  /** Only skips, each of another node. */
  ghost predicate DistinctSkips(bs: seq<Body>) {
    (forall b :: b in bs ==> b.NodeSkipped?) && forall i, j :: 0 <= i < j < |bs| ==> bs[i] != bs[j]
  }

  lemma {:induction false} QuietLogAllRoutes(g: Graph, s: RunState, n: string, bs: seq<Body>, at: int)
    requires AllQuiet(g, n, bs) && (NoSkips(bs) || DistinctSkips(bs))
    requires forall b :: b in bs && b.NodeSkipped? ==> b.node !in s.nodes
    ensures Routed(g, s, LogAll(s, bs, at), n)
    decreases |bs|
  {
    hide Routed, Quiet, Log;
    if |bs| == 0 {
      RoutedSelf(g, s, n);
    } else {
      var t, rest := Log(s, bs[0], at), bs[1..];
      assert bs == [bs[0]] + rest;
      QuietLogRoutes(g, s, n, bs[0], at);
      forall b | b in rest && b.NodeSkipped?
        ensures b.node !in t.nodes
      {
        var i :| 0 <= i < |rest| && rest[i] == b;
        assert bs[0] != bs[i + 1];
      }
      QuietLogAllRoutes(g, t, n, rest, at);
      RoutedTrans(g, s, t, LogAll(t, rest, at), n);
    }
  }

  lemma {:induction false} TraversalsAreQuiet(g: Graph, es: seq<EdgeDef>, n: string, route: Option<string>)
    requires forall e :: e in es ==> e in g.edges
    ensures AllQuiet(g, n, Traversals(es, n, route)) && NoSkips(Traversals(es, n, route))
  {
    if |es| > 0 {
      var e := es[|es| - 1];
      TraversalsAreQuiet(g, es[..|es| - 1], n, route);
      assert e in g.edges;
    }
  }

  ghost predicate AllTargets(g: Graph, n: string, xs: seq<string>) {
    forall x :: x in xs ==> x in g.defs && RoutesInto(g, n, x)
  }

  lemma {:induction false} BlockedAreTargets(g: Graph, es: seq<EdgeDef>, n: string, route: Option<string>)
    requires ValidGraph(g) && forall e :: e in es ==> e in g.edges
    ensures AllTargets(g, n, Blocked(g, es, n, route)) && Distinct(Blocked(g, es, n, route))
  {
    if |es| > 0 {
      var e := es[|es| - 1];
      BlockedAreTargets(g, es[..|es| - 1], n, route);
      assert e in g.edges;
    }
  }

  lemma {:induction false} SkipsAreQuiet(g: Graph, nodes: map<string, NodeRow>, n: string, xs: seq<string>)
    requires AllTargets(g, n, xs) && Distinct(xs)
    ensures AllQuiet(g, n, Skips(nodes, xs)) && DistinctSkips(Skips(nodes, xs))
    ensures forall b :: b in Skips(nodes, xs) ==> b.NodeSkipped? && b.node !in nodes && b.node in xs
  {
    if |xs| > 0 {
      var init, x := xs[..|xs| - 1], xs[|xs| - 1];
      SkipsAreQuiet(g, nodes, n, init);
      assert x !in init;
      assert xs == init + [x];
    }
  }

  ghost predicate LinksDefined(g: Graph, links: seq<Link>) {
    forall i :: 0 <= i < |links| ==> links[i].target in g.defs
  }

  ghost predicate OnlyDecisions(bs: seq<Body>) { forall b :: b in bs ==> b.DecisionRecorded? }

  lemma {:induction false} RoutingDecisionsAreQuiet(g: Graph, es: seq<EdgeDef>, n: string, route: Option<string>,
      blocked: seq<string>)
    requires ValidGraph(g) && (forall e :: e in es ==> e in g.edges) && n in g.defs && AllTargets(g, n, blocked)
    ensures var bs := RoutingDecisions(es, n, route, blocked); AllQuiet(g, n, bs) && OnlyDecisions(bs)
  {
    if |es| > 0 {
      var e := es[|es| - 1];
      RoutingDecisionsAreQuiet(g, es[..|es| - 1], n, route, blocked);
      assert e in g.edges;
      assert forall i :: 0 <= i < |blocked| ==> blocked[i] in blocked;
      assert LinksDefined(g, BlockedLinks(blocked));
    }
  }

  lemma {:induction false} DependencyLinksAreDefined(g: Graph, es: seq<EdgeDef>, to: string)
    requires to in g.defs
    ensures LinksDefined(g, DependencyLinks(es, to))
  {
    if |es| > 0 { DependencyLinksAreDefined(g, es[..|es| - 1], to); }
  }

  lemma {:induction false} EligibilityIsQuiet(g: Graph, s: RunState, es: seq<EdgeDef>, n: string)
    requires ValidGraph(g) && forall e :: e in es ==> e in g.edges
    ensures var bs := EligibilityDecisions(g, s, es, n); AllQuiet(g, n, bs) && OnlyDecisions(bs)
  {
    if |es| > 0 {
      var e := es[|es| - 1];
      EligibilityIsQuiet(g, s, es[..|es| - 1], n);
      assert e in g.edges;
      DependencyLinksAreDefined(g, g.edges, e.to);
    }
  }

  lemma DecisionsAreQuiet(g: Graph, n: string, route: Option<string>)
    requires ValidGraph(g) && n in g.defs
    ensures AllQuiet(g, n, Decisions(g, n, route)) && OnlyDecisions(Decisions(g, n, route))
  {
    var blocked := Blocked(g, g.edges, n, route);
    BlockedAreTargets(g, g.edges, n, route);
    RoutingDecisionsAreQuiet(g, g.edges, n, route, blocked);
    assert forall i :: 0 <= i < |blocked| ==> blocked[i] in blocked;
  }

  lemma RouteRoutes(g: Graph, s: RunState, n: string, route: Option<string>, at: int)
    requires ValidGraph(g) && n in g.defs
    ensures Routed(g, s, Route(g, s, n, route, at), n)
  {
    hide AllQuiet, Routed, LogAll, ValidGraph;
    var es, blocked := g.edges, Blocked(g, g.edges, n, route);
    TraversalsAreQuiet(g, es, n, route);
    var t := LogAll(s, Traversals(es, n, route), at);
    QuietLogAllRoutes(g, s, n, Traversals(es, n, route), at);
    BlockedAreTargets(g, es, n, route);
    SkipsAreQuiet(g, t.nodes, n, blocked);
    var u := LogAll(t, Skips(t.nodes, blocked), at);
    QuietLogAllRoutes(g, t, n, Skips(t.nodes, blocked), at);
    RoutedTrans(g, s, t, u, n);
    DecisionsAreQuiet(g, n, route);
    var v := LogAll(u, Decisions(g, n, route), at);
    QuietLogAllRoutes(g, u, n, Decisions(g, n, route), at);
    RoutedTrans(g, s, u, v, n);
    EligibilityIsQuiet(g, v, es, n);
    QuietLogAllRoutes(g, v, n, EligibilityDecisions(g, v, es, n), at);
    RoutedTrans(g, s, v, LogAll(v, EligibilityDecisions(g, v, es, n), at), n);
  }

  // ---- finishing a node ----

  /** Routing finds none of n's edges traversed already, unless the run is frozen. */
  ghost predicate Untraversed(g: Graph, s: RunState, n: string) {
    forall i {:trigger g.edges[i]} :: 0 <= i < |g.edges| && g.edges[i].from == n && g.edges[i].id in s.traversed ==>
                                      Frozen(g, s)
  }

  lemma RoutedProgresses(g: Graph, s: RunState, t: RunState, n: string)
    requires Routed(g, s, t, n)
    ensures Progress(g, s, t)
  {
    hide Summarize;
  }

  lemma RoutedKeepsNode(g: Graph, s: RunState, t: RunState, n: string, x: string)
    requires x in g.defs && NodeOk(g, s, x) && Routed(g, s, t, n) && Progress(g, s, t) && Untraversed(g, s, n)
    ensures NodeOk(g, t, x)
  {
    assert Summarize(t.acts, x) == Summarize(s.acts, x);
    hide Summarize;
    if x in s.nodes {
      assert t.nodes[x] == s.nodes[x];
    } else if x in t.nodes && x in s.batch {
      assert Ready(g, s, x);
      ReadyStays(g, s, t, x);
      assert !RoutesInto(g, n, x);
    }
  }

  lemma RoutedKeeps(g: Graph, s: RunState, t: RunState, n: string)
    requires ValidGraph(g) && Inv(g, s) && n in g.defs && Routed(g, s, t, n) && Untraversed(g, s, n)
    requires Has(s, n, Succeeded) || Frozen(g, s)
    ensures Inv(g, t) && Progress(g, s, t)
  {
    hide Summarize, NodeOk, WaitOk, ApprovalOk;
    RoutedProgresses(g, s, t, n);
    forall x | x in g.defs
      ensures NodeOk(g, t, x)
    {
      assert NodeOk(g, s, x);
      RoutedKeepsNode(g, s, t, n, x);
    }
    RoutedKeepsHolds(g, s, t, n);
    forall i | 0 <= i < |g.edges|
      ensures EdgeOk(g, t, g.edges[i])
    {
      assert EdgeOk(g, s, g.edges[i]);
      if g.edges[i].id in t.traversed && g.edges[i].id !in s.traversed {
        var j :| 0 <= j < |g.edges| && g.edges[j].id == g.edges[i].id && g.edges[j].from == n;
        assert i == j;
      }
    }
  }

  lemma RoutedKeepsHolds(g: Graph, s: RunState, t: RunState, n: string)
    requires Inv(g, s) && Routed(g, s, t, n) && Progress(g, s, t)
    ensures forall w {:trigger WaitOk(g, t, w)} :: w in t.waits ==> WaitOk(g, t, w)
    ensures forall a {:trigger ApprovalOk(g, t, a)} :: a in t.approvals ==> ApprovalOk(g, t, a)
  {
    hide Summarize, NodeOk, WaitOk, ApprovalOk, EdgeOk;
    HoldsKept(g, s, t);
  }

  /** A node that is about to finish. */
  ghost predicate MayFinish(g: Graph, s: RunState, n: string) {
    && n in g.defs && n in s.nodes && n !in s.batch && !HoldsNode(s, n)
    && (s.nodes[n].status.Running? || s.nodes[n].status.Reconciling? || s.nodes[n].status.Waiting? ||
        (s.nodes[n].status.Cancelled? && Frozen(g, s)))
  }

  lemma FinishView(g: Graph, s: RunState, n: string)
    requires Inv(g, s) && MayFinish(g, s, n)
    ensures NodeOk(g, s, n) && Untraversed(g, s, n)
    ensures Frozen(g, s) ==> s.nodes[n].status.Cancelled?
  {
    forall i | 0 <= i < |g.edges| && g.edges[i].from == n && g.edges[i].id in s.traversed
      ensures Frozen(g, s)
    {
      assert EdgeOk(g, s, g.edges[i]);
    }
  }

  lemma EndKeeps(g: Graph, s: RunState, n: string, a: int, o: Outcome, at: int)
    requires Inv(g, s) && MayFinish(g, s, n) && !o.Unsure?
    ensures var t := Log(s, Ended(n, a, o, ""), at);
            && Inv(g, t) && Progress(g, s, t) && t.traversed == s.traversed
            && (o.Finished? ==> Has(t, n, Succeeded) || Frozen(g, t))
  {
    hide Inv, Log, Moved, Frozen, Summarize, HoldsNode, Ready, Untraversed;
    FinishView(g, s, n);
    var b := Ended(n, a, o, "");
    LogIsMoved(s, b, at);
    MovedNode(s, b, at, s.batch);
    assert NodeOk(g, Moved(s, b, at, s.batch), n);
    MovedKeeps(g, s, b, at, s.batch);
  }

  lemma FinishKeeps(g: Graph, s: RunState, n: string, a: int, route: Option<string>, at: int)
    requires ValidGraph(g) && Inv(g, s) && MayFinish(g, s, n)
    ensures Inv(g, Finish(g, s, n, a, route, at)) && Progress(g, s, Finish(g, s, n, a, route, at))
  {
    hide Inv, Log, Frozen, MayFinish, Route, Routed, ValidGraph;
    EndKeeps(g, s, n, a, Finished, at);
    FinishView(g, s, n);
    InDefs(g, s, n);
    var t := Log(s, Ended(n, a, Finished, ""), at);
    RouteRoutes(g, t, n, route, at);
    RoutedKeeps(g, t, Route(g, t, n, route, at), n);
  }

  lemma InDefs(g: Graph, s: RunState, n: string)
    requires MayFinish(g, s, n)
    ensures n in g.defs
  {
  }

  lemma ResolveKeeps(g: Graph, s: RunState, n: string, route: Option<string>, at: int)
    requires ValidGraph(g) && Inv(g, s) && MayFinish(g, s, n)
    ensures Inv(g, Resolve(g, s, n, route, at)) && Progress(g, s, Resolve(g, s, n, route, at))
  {
    hide Inv, Log, Frozen, MayFinish, Finish, ValidGraph, Progress;
    var a := RowOf(s.nodes, n).attemptCount;
    if route.Some? {
      FinishKeeps(g, s, n, a, route, at);
    } else {
      EndKeeps(g, s, n, a, Failure, at);
    }
  }

  /** A cancelled-requested or running node outside the batch is committed. */
  lemma CommitKeeps(g: Graph, s: RunState, n: string, a: int, route: Option<string>, at: int)
    requires ValidGraph(g) && Inv(g, s) && n in g.defs && n !in s.batch
    requires n in s.nodes
    requires (s.nodes[n].status.Running? || s.nodes[n].status.Reconciling? || s.nodes[n].status.CancelRequested?)
    ensures Inv(g, Commit(g, s, n, a, route, at)) && Progress(g, s, Commit(g, s, n, a, route, at))
  {
    hide Log, Finish, ValidGraph, Progress, Summarize;
    BusyIsNotHeld(g, s, n);
    if Has(s, n, CancelRequested) {
      CancelledMoves(g, s, n, a, at);
    } else {
      FinishKeeps(g, s, n, a, route, at);
    }
  }

  lemma CancelledMoves(g: Graph, s: RunState, n: string, a: int, at: int)
    requires Inv(g, s) && n !in s.batch && n in s.nodes && s.nodes[n].status.CancelRequested?
    ensures Inv(g, Log(s, NodeCancelled(n, a), at)) && Progress(g, s, Log(s, NodeCancelled(n, a), at))
  {
    hide Inv, Log, Moved, Frozen, Summarize, Drop, HoldsNode, Ready, Progress;
    var b := NodeCancelled(n, a);
    BusyView(g, s, n);
    LogIsMoved(s, b, at);
    MovedNode(s, b, at, s.batch);
    assert NodeOk(g, Moved(s, b, at, s.batch), n);
    MovedKeeps(g, s, b, at, s.batch);
  }

  lemma FlightSucceedsKeeps(g: Graph, s: RunState, n: string, route: string, at: int)
    requires ValidGraph(g) && Inv(g, s)
    ensures Inv(g, Next(g, s, FlightSucceeds(n, route), at)) && Progress(g, s, Next(g, s, FlightSucceeds(n, route), at))
  {
    hide Commit, Summarize, ValidGraph, NodeOk, Inv, Progress;
    ProgressSelf(g, s);
    if IsFlying(s, n) && n in g.defs && !IsGate(g, n) {
      FlyingView(g, s, n);
      DropKeeps(g, s, n);
      CommitKeeps(g, Drop(s, n), n, s.batch[n].attempt, Some(if IsRouter(g, n) then "" else route), at);
      ProgressTrans(g, s, Drop(s, n), Next(g, s, FlightSucceeds(n, route), at));
    }
  }

  lemma ProgressTrans(g: Graph, s: RunState, t: RunState, u: RunState)
    requires Progress(g, s, t) && Progress(g, t, u)
    ensures Progress(g, s, u)
  {
  }

  // ---- events that move no node ----

  ghost predicate Still(b: Body) {
    b.Unprojected? || b.WaitCompleted? || b.WaitExpired? || b.WaitCancelled? || b.ApprovalDecided? || b.RunEnded?
  }

  lemma StillTouchesNothing(nodes: map<string, NodeRow>, b: Body, at: int)
    requires Still(b)
    ensures Touch(nodes, b, at) == nodes
  {
  }

  lemma StillSame(g: Graph, s: RunState, b: Body, at: int)
    requires Still(b)
    ensures var t := Log(s, b, at);
            && (forall x {:trigger Same(s, t, x)} :: Same(s, t, x)) && t.nodes == s.nodes && t.batch == s.batch &&
               t.latest == s.latest
            && t.traversed == s.traversed && t.acts == s.acts + [Logged(b)] && t.rounds == s.rounds && NoNewHolds(s, t)
            && (!b.RunEnded? ==> t.status == s.status)
  {
    forall x
      ensures Summarize(Log(s, b, at).acts, x) == Summarize(s.acts, x)
    {
      SummarizeNext(s.acts, Logged(b), x);
    }
    hide Summarize, Touch;
    assert Touch(s.nodes, b, at) == s.nodes by { StillTouchesNothing(s.nodes, b, at); }
  }

  /** A state that differs from s in ended waits and approvals only. */
  lemma StillKeeps(g: Graph, s: RunState, t: RunState)
    requires Inv(g, s) && (forall x {:trigger Same(s, t, x)} :: Same(s, t, x)) && t.nodes == s.nodes
    requires t.batch == s.batch && t.latest == s.latest
    requires t.traversed == s.traversed && |s.acts| <= |t.acts| && NoNewHolds(s, t)
    ensures Inv(g, t) && Progress(g, s, t)
  {
    hide Summarize, NodeOk, WaitOk, ApprovalOk, NoNewHolds;
    assert Progress(g, s, t);
    forall x | x in g.defs
      ensures NodeOk(g, t, x)
    {
      assert NodeOk(g, s, x) && Same(s, t, x);
      SameKeepsNode(g, s, t, x);
    }
    HoldsKept(g, s, t);
    assert forall i {:trigger g.edges[i]} :: 0 <= i < |g.edges| ==> EdgeOk(g, s, g.edges[i]);
  }

  lemma StillLogKeeps(g: Graph, s: RunState, b: Body, at: int)
    requires Inv(g, s) && Still(b)
    ensures Inv(g, Log(s, b, at)) && Progress(g, s, Log(s, b, at))
  {
    hide Inv, Log, Same, NoNewHolds;
    StillSame(g, s, b, at);
    StillKeeps(g, s, Log(s, b, at));
  }

  // ---- approvals and waits ----

  /** Only this approval is open on the node, and no wait is pending there. */
  lemma ApprovalView(g: Graph, s: RunState, a: nat)
    requires Inv(g, s) && a in s.approvals && s.approvals[a].verdict.Open?
    ensures Held(g, s, s.approvals[a].node) && IsTask(g, s.approvals[a].node)
    ensures forall x :: x in s.approvals && s.approvals[x].verdict.Open? &&
                        s.approvals[x].node == s.approvals[a].node ==>
                        x == a
    ensures forall w :: w in s.waits && s.waits[w].pending ==> s.waits[w].node != s.approvals[a].node
  {
    assert ApprovalOk(g, s, a);
    assert forall w :: w in s.waits && s.waits[w].pending ==> WaitOk(g, s, w);
  }

  lemma WaitView(g: Graph, s: RunState, w: nat)
    requires Inv(g, s) && w in s.waits && s.waits[w].pending
    ensures Held(g, s, s.waits[w].node) && Listens(g, s.waits[w].node)
    ensures forall x :: x in s.waits && s.waits[x].pending && s.waits[x].node == s.waits[w].node ==> x == w
    ensures forall a :: a in s.approvals && s.approvals[a].verdict.Open? ==> s.approvals[a].node != s.waits[w].node
  {
    assert WaitOk(g, s, w);
    assert forall a :: a in s.approvals && s.approvals[a].verdict.Open? ==> ApprovalOk(g, s, a);
  }

  /** Once its only hold has ended a held node may finish. */
  lemma ReleasedMayFinish(g: Graph, s: RunState, t: RunState, n: string)
    requires Held(g, s, n) && t.nodes == s.nodes && t.batch == s.batch && !HoldsNode(t, n)
    ensures MayFinish(g, t, n)
  {
  }

  lemma DecideKeeps(g: Graph, s: RunState, a: nat, granted: bool, at: int)
    requires ValidGraph(g) && Inv(g, s) && a in s.approvals && s.approvals[a].verdict.Open?
    ensures Inv(g, DoDecide(g, s, a, granted, at)) && Progress(g, s, DoDecide(g, s, a, granted, at))
  {
    hide Inv, Resolve, Progress, ValidGraph, Held, MayFinish, RouteWith, Same, NoNewHolds;
    var n, b := s.approvals[a].node, ApprovalDecided(granted, Id(g.run, a), "actor", "key");
    var t := Log(s, b, at);
    var route := if granted then Some("success") else RouteWith(g.edges, n, "denied", "failure");
    StillSame(g, s, b, at);
    StillLogKeeps(g, s, b, at);
    ApprovalView(g, s, a);
    assert t.approvals == s.approvals[a := s.approvals[a].(verdict := Decided)] && t.waits == s.waits;
    ReleasedMayFinish(g, s, t, n);
    ResolveKeeps(g, t, n, route, at);
    ProgressTrans(g, s, t, Resolve(g, t, n, route, at));
  }

  lemma ExpireApprovalKeeps(g: Graph, s: RunState, a: nat, at: int)
    requires ValidGraph(g) && Inv(g, s) && a in s.approvals && s.approvals[a].verdict.Open?
    ensures Inv(g, DoExpireApproval(g, s, a, at)) && Progress(g, s, DoExpireApproval(g, s, a, at))
  {
    hide Inv, Resolve, Progress, ValidGraph, Held, MayFinish, RouteWith;
    var n, b := s.approvals[a].node, Unprojected("approval_expired");
    var u := Log(s, b, at);
    var t := u.(approvals := s.approvals[a := s.approvals[a].(verdict := Expired)]);
    StillSame(g, s, b, at);
    forall x
      ensures Same(s, t, x)
    {
      assert Same(s, u, x);
    }
    assert NoNewHolds(s, t);
    StillKeeps(g, s, t);
    ApprovalView(g, s, a);
    ReleasedMayFinish(g, s, t, n);
    ResolveKeeps(g, t, n, RouteWith(g.edges, n, "expired", "timeout"), at);
    ProgressTrans(g, s, t, Resolve(g, t, n, RouteWith(g.edges, n, "expired", "timeout"), at));
  }

  lemma EndWaitKeeps(g: Graph, s: RunState, w: nat, b: Body, route: Option<string>, at: int)
    requires ValidGraph(g) && Inv(g, s) && w in s.waits && s.waits[w].pending
    requires b == WaitCompleted(Some(Id(g.run, w)), None, "") || b == WaitExpired(Some(Id(g.run, w)))
    ensures var t := Resolve(g, Log(s, b, at), s.waits[w].node, route, at); Inv(g, t) && Progress(g, s, t)
  {
    hide Inv, Resolve, Progress, ValidGraph, Held, MayFinish, Same, NoNewHolds;
    var n, t := s.waits[w].node, Log(s, b, at);
    StillSame(g, s, b, at);
    StillLogKeeps(g, s, b, at);
    WaitView(g, s, w);
    assert t.waits == s.waits[w := s.waits[w].(pending := false)] && t.approvals == s.approvals;
    ReleasedMayFinish(g, s, t, n);
    ResolveKeeps(g, t, n, route, at);
    ProgressTrans(g, s, t, Resolve(g, t, n, route, at));
  }

  lemma LogTwo(s: RunState, a: Body, b: Body, at: int)
    ensures LogAll(s, [a, b], at) == Log(Log(s, a, at), b, at)
  {
    assert [a, b][1..] == [b] && [b][1..] == [];
    assert LogAll(Log(s, a, at), [b], at) == LogAll(Log(Log(s, a, at), b, at), [], at);
  }

  lemma CompleteWaitKeeps(g: Graph, s: RunState, w: nat, route: string, at: int)
    requires ValidGraph(g) && Inv(g, s) && w in s.waits && s.waits[w].pending
    ensures Inv(g, DoCompleteWait(g, s, w, route, at)) && Progress(g, s, DoCompleteWait(g, s, w, route, at))
  {
    hide Inv, Resolve, Progress, ValidGraph, Same, NoNewHolds;
    var b1, b2 := Unprojected("external_event_received"), WaitCompleted(Some(Id(g.run, w)), None, "");
    var t := Log(s, b1, at);
    LogTwo(s, b1, b2, at);
    StillSame(g, s, b1, at);
    StillLogKeeps(g, s, b1, at);
    assert t.waits == s.waits;
    EndWaitKeeps(g, t, w, b2, Some(route), at);
    ProgressTrans(g, s, t, DoCompleteWait(g, s, w, route, at));
  }

  /** A new hold on a node that has just gone into waiting. */
  lemma NewHoldKeeps(g: Graph, s: RunState, t: RunState, n: string, hold: nat)
    requires Inv(g, s) && n in g.defs && n !in s.batch && n in s.nodes && s.nodes[n].status.Waiting? && !HoldsNode(s, n)
    requires (forall x {:trigger Same(s, t, x)} :: Same(s, t, x)) && t.nodes == s.nodes && t.batch == s.batch
    requires t.latest == s.latest
    requires t.traversed == s.traversed && |s.acts| < |t.acts|
    requires if Listens(g, n)
             then t.approvals == s.approvals && hold !in s.waits && t.waits == s.waits[hold := WaitState(n, true)]
             else IsTask(g, n) && t.waits == s.waits && hold !in s.approvals && hold < |t.acts| &&
                  t.approvals == s.approvals[hold := ApprovalState(n, Open)]
    ensures Inv(g, t) && Progress(g, s, t)
  {
    hide Summarize, NodeOk;
    assert Progress(g, s, t);
    forall x | x in g.defs
      ensures NodeOk(g, t, x)
    {
      assert NodeOk(g, s, x) && Same(s, t, x);
      SameKeepsNode(g, s, t, x);
    }
    forall w | w in t.waits
      ensures WaitOk(g, t, w)
    {
      if w in s.waits { assert WaitOk(g, s, w); }
    }
    forall a | a in t.approvals
      ensures ApprovalOk(g, t, a)
    {
      if a in s.approvals { assert ApprovalOk(g, s, a); }
    }
    assert forall i {:trigger g.edges[i]} :: 0 <= i < |g.edges| ==> EdgeOk(g, s, g.edges[i]);
  }

  /** A flying node leaves the batch and waits. */
  lemma WaitsKeeps(g: Graph, s: RunState, n: string, at: int)
    requires Inv(g, s) && IsFlying(s, n) && n in s.nodes && s.nodes[n].status.Running?
    ensures var t := Log(Drop(s, n), NodeWaiting(n), at);
            && Inv(g, t) && Progress(g, s, t) && n in t.nodes && t.nodes[n].status.Waiting? && n !in t.batch &&
               !HoldsNode(t, n) && n in g.defs
  {
    hide Inv, Log, Moved, Frozen, Summarize, Drop, HoldsNode, Ready, Progress;
    DropThenLog(s, n, NodeWaiting(n), at);
    BusyView(g, s, n);
    MovedNode(s, NodeWaiting(n), at, s.batch - {n});
    assert NodeOk(g, Moved(s, NodeWaiting(n), at, s.batch - {n}), n);
    MovedKeeps(g, s, NodeWaiting(n), at, s.batch - {n});
    SameHolds(g, s, NodeWaiting(n), at, s.batch - {n});
  }

  lemma Commute(s: RunState, hold: Body, n: string, at: int)
    requires n in s.nodes && ((hold.ApprovalRequested? && hold.node == n) || (hold.WaitRequested? && hold.node == n))
    ensures var t, w := Log(Log(s, hold, at), NodeWaiting(n), at), Log(s, NodeWaiting(n), at);
            && (forall x {:trigger Same(w, t, x)} :: Same(w, t, x)) && t.nodes == w.nodes && t.batch == w.batch &&
               t.latest == w.latest
            && t.traversed == w.traversed && |w.acts| < |t.acts|
  {
    var u, w := Log(s, hold, at), Log(s, NodeWaiting(n), at);
    var t := Log(u, NodeWaiting(n), at);
    assert u.nodes == s.nodes;
    forall x
      ensures Summarize(w.acts, x) == Summarize(t.acts, x)
    {
      SummarizeNext(s.acts, Logged(hold), x);
      SummarizeNext(u.acts, Logged(NodeWaiting(n)), x);
      SummarizeNext(s.acts, Logged(NodeWaiting(n)), x);
    }
  }

  lemma FlyingView(g: Graph, s: RunState, n: string)
    requires Inv(g, s) && IsFlying(s, n)
    ensures n in g.defs && n in s.nodes && (s.nodes[n].status.Running? || s.nodes[n].status.CancelRequested?)
  {
    assert NodeOk(g, s, n);
  }

  lemma ApprovalsAreOld(g: Graph, s: RunState)
    requires Inv(g, s)
    ensures forall a :: a in s.approvals ==> a < |s.acts|
  {
    forall a | a in s.approvals
      ensures a < |s.acts|
    {
      assert ApprovalOk(g, s, a);
    }
  }

  lemma AskApprovalKeeps(g: Graph, s: RunState, n: string, at: int)
    requires Inv(g, s) && IsFlying(s, n) && IsTask(g, n)
    ensures var t := DoAskApproval(g, Drop(s, n), n, at); Inv(g, t) && Progress(g, s, t)
  {
    var u := Drop(s, n);
    DropKeeps(g, s, n);
    FlyingView(g, s, n);
    ApprovalsAreOld(g, s);
    hide Inv, Summarize, Progress, HoldsNode, Same;
    if DoAskApproval(g, u, n, at) != u {
      var hold := ApprovalRequested(n, "action", "scope", 0);
      var w, t := Log(u, NodeWaiting(n), at), Log(Log(u, hold, at), NodeWaiting(n), at);
      LogTwo(u, hold, NodeWaiting(n), at);
      WaitsKeeps(g, s, n, at);
      Commute(u, hold, n, at);
      assert t.approvals == w.approvals[|u.acts| := ApprovalState(n, Open)] && t.waits == w.waits &&
             |u.acts| !in w.approvals;
      NewHoldKeeps(g, w, t, n, |u.acts|);
      ProgressTrans(g, s, w, t);
    }
  }

  lemma GateWaitsKeeps(g: Graph, s: RunState, n: string, register: Option<nat>, at: int)
    requires Inv(g, s) && IsFlying(s, n) && IsGate(g, n) && register.Some? == g.defs[n].listens
    ensures var t := DoGateWaits(g, Drop(s, n), n, register, at); Inv(g, t) && Progress(g, s, t)
  {
    var u := Drop(s, n);
    DropKeeps(g, s, n);
    FlyingView(g, s, n);
    hide Inv, Summarize, Progress, HoldsNode, Same;
    if register.None? {
      if !Cancelling(s.nodes[n].status) { WaitsKeeps(g, s, n, at); }
    } else if DoGateWaits(g, u, n, register, at) != u {
      var hold := WaitRequested(Some(Id(g.run, register.value)), n, "type", "key", "{}", 0);
      var w, t := Log(u, NodeWaiting(n), at), Log(Log(u, hold, at), NodeWaiting(n), at);
      LogTwo(u, hold, NodeWaiting(n), at);
      WaitsKeeps(g, s, n, at);
      Commute(u, hold, n, at);
      assert register.value !in w.waits && t.waits == w.waits[register.value := WaitState(n, true)] &&
             t.approvals == w.approvals;
      NewHoldKeeps(g, w, t, n, register.value);
      ProgressTrans(g, s, w, t);
    }
  }

  // ---- the driver ----

  lemma CrashKeeps(g: Graph, s: RunState)
    requires Inv(g, s)
    ensures var t := s.(batch := map[], checked := false, scan := []); Inv(g, t) && Progress(g, s, t)
  {
    var t := s.(batch := map[], checked := false, scan := []);
    forall x | x in g.defs
      ensures NodeOk(g, t, x)
    {
      assert NodeOk(g, s, x);
    }
    HoldsKept(g, s, t);
    assert forall i {:trigger g.edges[i]} :: 0 <= i < |g.edges| ==> EdgeOk(g, s, g.edges[i]);
  }

  /** What the driver and a recovery remember beside the batch is not part of the invariant. */
  lemma AsideKeeps(g: Graph, s: RunState, t: RunState)
    requires Inv(g, s) && t == s.(checked := t.checked, scan := t.scan)
    ensures Inv(g, t) && Progress(g, s, t)
  {
    hide Summarize, WaitOk, ApprovalOk;
    forall x | x in g.defs
      ensures NodeOk(g, t, x)
    {
      assert NodeOk(g, s, x);
    }
    HoldsKept(g, s, t);
    assert forall i {:trigger g.edges[i]} :: 0 <= i < |g.edges| ==> EdgeOk(g, s, g.edges[i]);
  }

  lemma ListKeeps(g: Graph, s: RunState)
    requires Inv(g, s) && s.batch == map[]
    ensures var t := s.(batch := List(g, s), rounds := s.rounds + 1, checked := false); Inv(g, t) && Progress(g, s, t)
  {
    var t := s.(batch := List(g, s), rounds := s.rounds + 1, checked := false);
    forall x | x in g.defs
      ensures NodeOk(g, t, x)
    {
      assert NodeOk(g, s, x);
    }
    HoldsKept(g, s, t);
    assert forall i {:trigger g.edges[i]} :: 0 <= i < |g.edges| ==> EdgeOk(g, s, g.edges[i]);
  }

  // ---- reconciliation ----

  lemma RecordKeepsNode(g: Graph, s: RunState, n: string, answer: Answer, x: string)
    requires x in g.defs && NodeOk(g, s, x)
    ensures NodeOk(g, Record(s, n, answer), x)
  {
    SummarizeNext(s.acts, Answered(n, answer), x);
    hide Summarize;
  }

  lemma RecordKeeps(g: Graph, s: RunState, n: string, answer: Answer)
    requires Inv(g, s)
    ensures var t := Record(s, n, answer);
            && Inv(g, t) && Progress(g, s, t)
            && Summarize(t.acts, n) == Update(Summarize(s.acts, n), Answered(n, answer), n)
  {
    hide Summarize, NodeOk, WaitOk, ApprovalOk;
    var t := Record(s, n, answer);
    forall x | x in g.defs
      ensures NodeOk(g, t, x)
    {
      assert NodeOk(g, s, x);
      RecordKeepsNode(g, s, n, answer, x);
    }
    SummarizeNext(s.acts, Answered(n, answer), n);
    HoldsKept(g, s, t);
    assert forall i {:trigger g.edges[i]} :: 0 <= i < |g.edges| ==> EdgeOk(g, s, g.edges[i]);
  }

  lemma ReconcileKeeps(g: Graph, s: RunState, v: Visit, answer: Answer, route: Option<string>, at: int)
    requires ValidGraph(g) && Inv(g, s) && s.batch == map[] && VisitOk(g, s, v) && v.asked
    ensures var t := DoReconcile(g, s, v.node, v.stop, answer, route, at); Inv(g, t) && Progress(g, s, t)
  {
    hide Inv, Log, Summarize, Progress, ValidGraph, Commit;
    var n := v.node;
    var t, a := Record(s, n, answer), s.latest[n];
    RecordKeeps(g, s, n, answer);
    var u := DoReconcile(g, s, n, v.stop, answer, route, at);
    if answer.BadParams? {
      RecoveryMoves(g, t, n, Ended(n, a, Failure, ""), at);
    } else if answer.NotReconcilable? || answer.Unknown? {
      if !Cancelling(s.nodes[n].status) { RecoveryMoves(g, t, n, NodeWaiting(n), at); } else { ProgressSelf(g, t); }
    } else if v.stop || (!answer.Confirmed? && Has(s, n, CancelRequested)) {
      CancelledMoves(g, t, n, a, at);
    } else if answer.Confirmed? {
      CommitKeeps(g, t, n, a, route, at);
    } else {
      RecoveryMoves(g, t, n, NodeRequeued(n, a, false), at);
    }
    ProgressTrans(g, s, t, u);
  }

  lemma ProgressSelf(g: Graph, s: RunState)
    ensures Progress(g, s, s)
  {
  }
}
