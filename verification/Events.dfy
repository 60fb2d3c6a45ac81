/** Run events, and how each of them moves the row of the node it is about.

    Row ids are made by the run they belong to; an id names that run and a number. Ids of runs are
    numbers, ordered as the store orders them. A time is a number of milliseconds. */
module Events {
  import opened Options

  type RunId = nat
  datatype Id = Id(run: RunId, n: nat)

  datatype NodeStatus =
    | Pending | Eligible | Leased | Running | Succeeded | Failed | Uncertain | Waiting | Reconciling
    | CancelRequested | Cancelled | Skipped

  datatype RunStatus = RunRunning | RunCompleted | RunFailed | RunCancelled | RunAbandoned

  datatype Outcome = Finished | Failure | Unsure

  datatype Param = Param(name: string, kind: string, value: Option<string>)
  datatype Link = Link(target: string, attribution: string, source: string, group: string)

  datatype Body =
    | RunStarted(version: string, digest: string, paramsDigest: string, params: seq<Param>, trigger: string,
                 schedule: string, tick: int)
    | NodeStarted(node: string, attemptNo: int, opKey: string, executor: string, contract: string,
                  leaseToken: string, leaseExpires: int)
    | NodeEnded(node: string, attemptNo: int, outcome: Outcome, opKey: string, executor: string, contract: string,
                result: string)                       // node_finished, node_failed, node_uncertain
    | NodeCancelRequested(node: string)
    | NodeSkipped(node: string)
    | NodeCancelled(node: string, attemptNo: int)
    | NodeRequeued(node: string, attemptNo: int, resume: bool)
    | NodeWaiting(node: string)
    | NodeReconciling(node: string)
    | NodeAttemptFailed(node: string, attemptNo: int, result: string)
    | EdgeTraversed(edge: string, route: string, sequenceInRun: int)
    | ArtifactPublished(node: string, name: string, hash: string, details: string)
    | EvaluationFailed(artifact: Id, evaluator: string, evidence: string)
    | EffectIntent(attempt: Id, opKey: string, target: string, digest: string)
    | EffectReceipt(effect: Id, effectStatus: string, receipt: string, reference: string)
    | ApprovalRequested(node: string, action: string, scope: string, expiresAt: int)
    | ApprovalDecided(granted: bool, approval: Id, decidedBy: string, key: string)
    | DecisionRecorded(node: string, details: string, links: seq<Link>)
    | RunEnded(status: RunStatus, detail: string)     // run_completed, _failed, _cancelled, _abandoned
    | WaitRequested(wait: Option<Id>, node: string, eventType: string, correlationKey: string, condition: string,
                    expiresAt: int)
    | WaitCompleted(wait: Option<Id>, received: Option<Id>, digest: string)
    | WaitExpired(wait: Option<Id>)
    | WaitCancelled(wait: Option<Id>)
    | Unprojected(name: string)

  datatype Event = Event(id: Id, run: RunId, sequence: int, at: int, causation: Option<Id>, key: string, body: Body)

  // ---- the row of one node ----

  datatype NodeRow = NodeRow(status: NodeStatus, attemptCount: int, startedAt: Option<int>, finishedAt: Option<int>)

  const PENDING := NodeRow(Pending, 0, None, None)

  function Max(a: int, b: int): int { if a < b then b else a }

  /** SQL's COALESCE. */
  function Coalesce<T>(a: Option<T>, b: Option<T>): Option<T> { if a.Some? then a else b }

  function Nullable(s: string): Option<string> { if s == "" then None else Some(s) }

  function NullableInt(v: int): Option<int> { if v == 0 then None else Some(v) }

  predicate Cancelling(s: NodeStatus) { s.CancelRequested? || s.Cancelled? }

  /** Statuses that a cancellation leaves alone. */
  predicate Settled(s: NodeStatus) { s.Succeeded? || s.Failed? || s.Skipped? || s.Cancelled? }

  function EndStatus(o: Outcome): NodeStatus {
    match o case Finished => Succeeded case Failure => Failed case Unsure => Uncertain
  }

  function FinishTime(o: Outcome, at: int): Option<int> { if o.Unsure? then None else Some(at) }

  /** node_started counts attempts from one. */
  function AttemptOf(attemptNo: int): int { if attemptNo <= 0 then 1 else attemptNo }

  /** The events that move a node's status. */
  predicate MovesNode(b: Body) {
    b.NodeStarted? || b.NodeEnded? || b.NodeCancelRequested? || b.NodeSkipped? || b.NodeCancelled? || b.NodeRequeued? ||
    b.NodeWaiting? || b.NodeReconciling? || b.NodeAttemptFailed?
  }

  /** These handlers insist on an existing node row; the others make a pending one. */
  predicate NeedsNode(b: Body) {
    b.NodeCancelRequested? || b.NodeAttemptFailed? || b.ApprovalRequested?
  }

  /** The node row after an event about it. */
  function NodeAfter(row: NodeRow, b: Body, at: int): NodeRow
    requires MovesNode(b)
  {
    match b
    case NodeStarted(_, n, _, _, _, _, _) =>
      NodeRow(Running, Max(row.attemptCount, AttemptOf(n)), Coalesce(row.startedAt, Some(at)), row.finishedAt)
    case NodeEnded(_, n, outcome, _, _, _, _) =>
      if Cancelling(row.status) then row
      else row.(status := EndStatus(outcome), attemptCount := Max(row.attemptCount, n),
                finishedAt := Coalesce(FinishTime(outcome, at), row.finishedAt))
    case NodeCancelRequested(_) =>
      if Settled(row.status) then row else row.(status := CancelRequested)
    case NodeSkipped(_) =>
      if Cancelling(row.status) then row else row.(status := Skipped, finishedAt := Some(at))
    case NodeCancelled(_, _) =>
      if Settled(row.status) then row else row.(status := Cancelled, finishedAt := Some(at))
    case NodeRequeued(_, n, resume) =>
      if Cancelling(row.status) then row
      else if resume && n > 0 then row.(status := Eligible, finishedAt := None, attemptCount := n - 1)
      else row.(status := Eligible, finishedAt := None)
    case NodeWaiting(_) =>
      if Cancelling(row.status) then row else row.(status := Waiting)
    case NodeReconciling(_) =>
      if Cancelling(row.status) then row else row.(status := Reconciling)
    case NodeAttemptFailed(_, _, _) =>
      if row.status.Running? || row.status.Leased? then row.(status := Eligible) else row
  }
}
