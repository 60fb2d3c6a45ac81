/** The tables the event log is projected onto, and the handler of every event type.

    All projected tables are one map from table and primary key to row. */
module Projection {
  import opened Events
  import opened Options

  datatype Key =
    | RunK(run: RunId)
    | ParamK(run: RunId, name: string)
    | NodeK(run: RunId, node: string)
    | AttemptK(run: RunId, node: string, no: int)
    | EdgeK(id: Id)
    | ArtifactK(id: Id)
    | EvaluationK(id: Id)
    | EffectK(id: Id)
    | ApprovalK(id: Id)
    | DecisionK(id: Id)
    | LinkK(id: Id, i: nat)
    | AnchorK(id: Id)
    | OutcomeK(run: RunId)      // outcome.run_id is UNIQUE
    | WaitK(id: Id)
  {
    /** The run a row belongs to. */
    function Owner(): RunId {
      match this
      case RunK(r) => r
      case ParamK(r, _) => r
      case NodeK(r, _) => r
      case AttemptK(r, _, _) => r
      case OutcomeK(r) => r
      case EdgeK(e) => e.run
      case ArtifactK(e) => e.run
      case EvaluationK(e) => e.run
      case EffectK(e) => e.run
      case ApprovalK(e) => e.run
      case DecisionK(e) => e.run
      case LinkK(e, _) => e.run
      case AnchorK(e) => e.run
      case WaitK(e) => e.run
    }
  }

  datatype AttemptStatus = ARunning | ASucceeded | AFailed | AUncertain | ACancelled
  datatype WaitStatus = WPending | WCompleted | WExpired | WCancelled

  datatype Row =
    | RunRow(version: string, digest: string, paramsDigest: string, schedule: Option<string>, tick: Option<int>,
             trigger: Option<string>, status: RunStatus, createdAt: int,
             startedAt: Option<int>, finishedAt: Option<int>)
    | ParamRow(kind: string, value: Option<string>)
    | NodeR(node: NodeRow)
    | AttemptRow(id: Id, opKey: string, executor: string, contract: string, leaseToken: Option<string>,
                 leaseExpires: Option<int>, attempt: AttemptStatus, result: Option<string>,
                 begun: Option<int>, ended: Option<int>)
    | EdgeRow(edge: string, route: Option<string>, sequenceInRun: int, at: int)
    | ArtifactRow(producer: string, name: string, hash: string, details: string, at: int)
    | EvaluationRow(artifact: Id, evaluator: string, evidence: Option<string>, at: int)
    | EffectRow(attemptId: Id, opKey: string, target: string, effect: string, digest: string, receipt: Option<string>,
                reference: Option<string>, createdAt: int, updatedAt: int)
    | ApprovalRow(about: string, version: string, action: string, scope: string, expiresAt: int,
                  decision: Option<bool>, decidedBy: string, decidedAt: Option<int>, key: string, createdAt: int)
    | DecisionRow(about: string, details: string, at: int)
    | LinkRow(decisionId: Id, target: string, link: Link)
    | AnchorRow(version: string, at: int)
    | OutcomeRow(id: Id, outcome: RunStatus, detail: Option<string>, at: int)
    | WaitRow(about: string, version: string, digest: string, eventType: string, correlationKey: string,
              condition: string, wait: WaitStatus, expires: Option<int>, completedBy: Option<Id>,
              payloadDigest: Option<string>, createdAt: int, completedAt: Option<int>)

  type Tables = map<Key, Row>
  datatype Write = Write(key: Key, row: Row)

  function Apply(t: Tables, ws: seq<Write>): Tables
    decreases |ws|
  {
    if |ws| == 0 then t else Apply(t[ws[0].key := ws[0].row], ws[1..])
  }

  // ---- handlers: what an event writes, or None when the handler fails or a foreign key refuses the row ----

  function Fresh(t: Tables, k: Key, row: Row): seq<Write> {   // INSERT ... ON CONFLICT DO NOTHING
    if k in t then [] else [Write(k, row)]
  }

  function NodeOf(t: Tables, run: RunId, node: string): NodeRow {
    var k := NodeK(run, node);
    if k in t && t[k].NodeR? then t[k].node else PENDING
  }

  predicate HasNode(t: Tables, run: RunId, node: string) {
    NodeK(run, node) in t && t[NodeK(run, node)].NodeR?
  }

  function EnsureNode(t: Tables, run: RunId, node: string): seq<Write> {
    if HasNode(t, run, node) then [] else [Write(NodeK(run, node), NodeR(PENDING))]
  }

  function RunRowOf(t: Tables, run: RunId): Option<Row> {
    if RunK(run) in t && t[RunK(run)].RunRow? then Some(t[RunK(run)]) else None
  }

  function AttemptAt(t: Tables, k: Key): Option<Row> {
    if k in t && t[k].AttemptRow? then Some(t[k]) else None
  }

  /** An attempt of the run has this id. */
  predicate HasAttempt(t: Tables, r: RunId, id: Id) {
    exists a :: a in t && a.AttemptK? && a.run == r && t[a].AttemptRow? && t[a].id == id
  }

  /** The attempt numbers recorded for a node. */
  function AttemptNos(t: Tables, run: RunId, node: string): set<int> {
    set k | k in t && k.AttemptK? && k.run == run && k.node == node && t[k].AttemptRow? :: k.no
  }

  predicate IsLatest(nos: set<int>, n: int) { n in nos && forall m :: m in nos ==> m <= n }

  lemma {:induction false} LatestExists(nos: set<int>)
    requires exists n :: n in nos
    ensures exists n :: IsLatest(nos, n)
    decreases nos
  {
    var n :| n in nos;
    var rest := nos - {n};
    if exists m :: m in rest {
      LatestExists(rest);
      var m :| IsLatest(rest, m);
      assert forall x :: x in nos ==> x in rest || x == n;
      assert IsLatest(nos, if m < n then n else m);
    } else {
      assert forall m :: m in nos ==> m in rest || m == n;
      assert IsLatest(nos, n);
    }
  }

  function LatestAttempt(t: Tables, run: RunId, node: string): (r: Option<int>)
    ensures r.Some? <==> exists n :: n in AttemptNos(t, run, node)
    ensures r.Some? ==> IsLatest(AttemptNos(t, run, node), r.value)
  {
    var nos := AttemptNos(t, run, node);
    if exists n :: n in nos then
      LatestExists(nos);
      var n :| IsLatest(nos, n);
      Some(n)
    else None
  }

  function EndAttempt(o: Outcome): AttemptStatus {
    match o case Finished => ASucceeded case Failure => AFailed case Unsure => AUncertain
  }

  function MoveNode(t: Tables, ev: Event): seq<Write>
    requires MovesNode(ev.body)
  {
    [Write(NodeK(ev.run, ev.body.node), NodeR(NodeAfter(NodeOf(t, ev.run, ev.body.node), ev.body, ev.at)))]
  }

  function OnRunStarted(t: Tables, ev: Event): Option<seq<Write>>
    requires ev.body.RunStarted?
  {
    var b := ev.body;
    if b.digest == "" && RunRowOf(t, ev.run).None? then None
    else
      var digest := if b.digest == "" then RunRowOf(t, ev.run).value.digest else b.digest;
      Some(Fresh(t, RunK(ev.run), FirstRunRow(b, digest, ev.at)) + ParamWrites(t, ev.run, b.params))
  }

  function FirstRunRow(b: Body, digest: string, at: int): Row
    requires b.RunStarted?
  {
    RunRow(b.version, digest, if b.paramsDigest == "" then "{}" else b.paramsDigest, Nullable(b.schedule),
           NullableInt(b.tick), Nullable(b.trigger), RunRunning, at, None, None)
  }

  /** Of several parameters with one name the first is kept, so it is written last. */
  function ParamWrites(t: Tables, run: RunId, params: seq<Param>): seq<Write> {
    if |params| == 0 then []
    else ParamWrites(t, run, params[1..]) +
         Fresh(t, ParamK(run, params[0].name), ParamRow(params[0].kind, params[0].value))
  }

  function OnNodeStarted(t: Tables, ev: Event): Option<seq<Write>>
    requires ev.body.NodeStarted?
  {
    var b := ev.body;
    if b.node == "" then None
    else
      var run := RunRowOf(t, ev.run);
      var touched := if run.Some? && run.value.startedAt.None?
                     then [Write(RunK(ev.run), run.value.(startedAt := Some(ev.at)))]
                     else [];
      var k := AttemptK(ev.run, b.node, AttemptOf(b.attemptNo));
      var prior := AttemptAt(t, k);
      var row :=
        if prior.None? then
          AttemptRow(ev.id, b.opKey, b.executor, b.contract, Nullable(b.leaseToken), NullableInt(b.leaseExpires),
                     ARunning, None, Some(ev.at), None)
        else
          prior.value.(leaseToken := Coalesce(Nullable(b.leaseToken), prior.value.leaseToken),
                     leaseExpires := Coalesce(NullableInt(b.leaseExpires), prior.value.leaseExpires),
                     attempt := ARunning, begun := Coalesce(prior.value.begun, Some(ev.at)));
      Some(MoveNode(t, ev) + touched + if b.opKey == "" then [] else [Write(k, row)])
  }

  function EndedAttempt(row: Row, b: Body, at: int): Row
    requires row.AttemptRow? && b.NodeEnded?
  {
    if row.attempt.ACancelled? then row
    else row.(attempt := EndAttempt(b.outcome), ended := Coalesce(FinishTime(b.outcome, at), row.ended),
              result := Coalesce(Nullable(b.result), row.result))
  }

  function OnNodeEnded(t: Tables, ev: Event): Option<seq<Write>>
    requires ev.body.NodeEnded?
  {
    var b := ev.body;
    if b.attemptNo > 0 then
      var k := AttemptK(ev.run, b.node, b.attemptNo);
      var prior := AttemptAt(t, k);
      if prior.None? && b.opKey != "" then
        if b.executor == "" || b.contract == "" then None
        else
          var made := AttemptRow(ev.id, b.opKey, b.executor, b.contract, None, None, AFailed, Nullable(b.result), None,
                                 FinishTime(b.outcome, ev.at));
          Some(MoveNode(t, ev) + [Write(k, EndedAttempt(made, b, ev.at))])
      else
        Some(MoveNode(t, ev) + if prior.None? then [] else [Write(k, EndedAttempt(prior.value, b, ev.at))])
    else
      var latest := LatestAttempt(t, ev.run, b.node);
      Some(MoveNode(t, ev) +
           if latest.None? then []
           else
             var k := AttemptK(ev.run, b.node, latest.value);
             if AttemptAt(t, k).None? then [] else [Write(k, EndedAttempt(AttemptAt(t, k).value, b, ev.at))])
  }

  function OnNodeCancelled(t: Tables, ev: Event): seq<Write>
    requires ev.body.NodeCancelled?
  {
    var k := AttemptK(ev.run, ev.body.node, ev.body.attemptNo);
    var prior := AttemptAt(t, k);
    MoveNode(t, ev) +
    if ev.body.attemptNo > 0 && prior.Some? && (prior.value.attempt.ARunning? || prior.value.attempt.AUncertain?)
    then [Write(k, prior.value.(attempt := ACancelled, ended := Some(ev.at)))] else []
  }

  function OnAttemptFailed(t: Tables, ev: Event): Option<seq<Write>>
    requires ev.body.NodeAttemptFailed?
  {
    var b := ev.body;
    var k := AttemptK(ev.run, b.node, b.attemptNo);
    var prior := AttemptAt(t, k);
    if !HasNode(t, ev.run, b.node) then None
    else Some(MoveNode(t, ev) +
              if prior.None? then []
              else [Write(k,
                          prior.value.(attempt := AFailed, ended := Some(ev.at),
                                       result := Coalesce(Nullable(b.result), prior.value.result)))])
  }

  function OnEffectReceipt(t: Tables, ev: Event): seq<Write>
    requires ev.body.EffectReceipt?
  {
    var b := ev.body;
    var k := EffectK(b.effect);
    if k in t && t[k].EffectRow? then
      [Write(k, t[k].(effect := b.effectStatus, receipt := Coalesce(Nullable(b.receipt), t[k].receipt),
                      reference := Coalesce(Nullable(b.reference), t[k].reference), updatedAt := ev.at))]
    else []
  }

  function OnApprovalRequested(t: Tables, ev: Event): Option<seq<Write>>
    requires ev.body.ApprovalRequested?
  {
    var b := ev.body;
    var run := RunRowOf(t, ev.run);
    if !HasNode(t, ev.run, b.node) || run.None? then None
    else Some(Fresh(t, ApprovalK(ev.id),
                    ApprovalRow(b.node, run.value.version, b.action, b.scope, b.expiresAt, None, "", None, "", ev.at)))
  }

  function OnApprovalDecided(t: Tables, ev: Event): seq<Write>
    requires ev.body.ApprovalDecided?
  {
    var k := ApprovalK(ev.body.approval);
    if k in t && t[k].ApprovalRow? then
      [Write(k,
             t[k].(decision := Some(ev.body.granted), decidedBy := ev.body.decidedBy, decidedAt := Some(ev.at),
                   key := ev.body.key))]
    else []
  }

  function LinkWrites(t: Tables, ev: Event, links: seq<Link>, i: nat): seq<Write> {
    if |links| == 0 then []
    else EnsureNode(t, ev.run, links[0].target) + Fresh(t, LinkK(ev.id, i), LinkRow(ev.id, links[0].target, links[0])) +
         LinkWrites(t, ev, links[1..], i + 1)
  }

  function OnRunEnded(t: Tables, ev: Event): Option<seq<Write>>
    requires ev.body.RunEnded?
  {
    var run := RunRowOf(t, ev.run);
    var k := OutcomeK(ev.run);
    if run.None? || (k in t && t[k].OutcomeRow? && t[k].id != ev.id) then None
    else Some([Write(RunK(ev.run), run.value.(status := ev.body.status, finishedAt := Some(ev.at)))] +
              Fresh(t, AnchorK(ev.id), AnchorRow(run.value.version, ev.at)) +
              Fresh(t, k, OutcomeRow(ev.id, ev.body.status, Nullable(ev.body.detail), ev.at)))
  }

  function WaitOf(wait: Option<Id>, ev: Event): Key {
    WaitK(if wait.Some? then wait.value else ev.id)
  }

  predicate IsPendingWait(t: Tables, k: Key) {
    k in t && k.WaitK? && t[k].WaitRow? && t[k].wait.WPending?
  }

  /** The other wait o is pending on this event and correlation key. */
  predicate HoldsPair(t: Tables, o: Key, k: Key, eventType: string, correlationKey: string) {
    o != k && IsPendingWait(t, o) && t[o].eventType == eventType && t[o].correlationKey == correlationKey
  }

  predicate PairTaken(t: Tables, k: Key, eventType: string, correlationKey: string) {
    exists o :: o in t && HoldsPair(t, o, k, eventType, correlationKey)
  }

  /** Another wait is pending on the same node. */
  predicate NodeTaken(t: Tables, k: Key, run: RunId, node: string) {
    exists o :: o in t && o != k && IsPendingWait(t, o) && o.Owner() == run && t[o].about == node
  }

  /** The handler of external_wait_requested, without the index over all runs. */
  function OnWaitRequested(t: Tables, ev: Event): Option<seq<Write>>
    requires ev.body.WaitRequested?
  {
    var b := ev.body;
    var run := RunRowOf(t, ev.run);
    var k := WaitOf(b.wait, ev);
    if run.None? then None
    else if k !in t && NodeTaken(t, k, ev.run, b.node) then None
    else Some(EnsureNode(t, ev.run, b.node) +
              Fresh(t, k, WaitRow(b.node, run.value.version, run.value.digest, b.eventType, b.correlationKey,
                                  b.condition, WPending, NullableInt(b.expiresAt), None, None, ev.at, None)))
  }

  function OnWaitEnded(t: Tables, ev: Event, wait: Option<Id>, status: WaitStatus, received: Option<Id>,
      digest: Option<string>): seq<Write> {
    var k := WaitOf(wait, ev);
    if IsPendingWait(t, k) then
      [Write(k, t[k].(wait := status, completedBy := Coalesce(received, t[k].completedBy),
                      payloadDigest := Coalesce(digest, t[k].payloadDigest), completedAt := Some(ev.at)))]
    else []
  }

  /** The run has an artifact of this node with this name and content. */
  predicate ArtifactTaken(t: Tables, run: RunId, node: string, name: string, hash: string) {
    exists o :: o in t && o.ArtifactK? && o.Owner() == run && t[o].ArtifactRow? &&
                t[o].producer == node && t[o].name == name && t[o].hash == hash
  }

  function OnArtifactPublished(t: Tables, ev: Event): Option<seq<Write>>
    requires ev.body.ArtifactPublished?
  {
    var b := ev.body;
    if ArtifactK(ev.id) !in t && ArtifactTaken(t, ev.run, b.node, b.name, b.hash) then None
    else Some(Fresh(t, ArtifactK(ev.id), ArtifactRow(b.node, b.name, b.hash, b.details, ev.at)))
  }

  /** What the handler of an event writes. The unique index on pending waits is checked by Project. */
  function Writes(t: Tables, ev: Event): Option<seq<Write>> {
    match ev.body
    case RunStarted(_, _, _, _, _, _, _) => OnRunStarted(t, ev)
    case NodeStarted(_, _, _, _, _, _, _) => OnNodeStarted(t, ev)
    case NodeEnded(_, _, _, _, _, _, _) => OnNodeEnded(t, ev)
    case NodeCancelRequested(n) => if HasNode(t, ev.run, n) then Some(MoveNode(t, ev)) else None
    case NodeSkipped(_) => Some(MoveNode(t, ev))
    case NodeCancelled(_, _) => Some(OnNodeCancelled(t, ev))
    case NodeRequeued(_, _, _) => Some(MoveNode(t, ev))
    case NodeWaiting(_) => Some(MoveNode(t, ev))
    case NodeReconciling(_) => Some(MoveNode(t, ev))
    case NodeAttemptFailed(_, _, _) => OnAttemptFailed(t, ev)
    case EdgeTraversed(e, r, s) => Some(Fresh(t, EdgeK(ev.id), EdgeRow(e, Nullable(r), s, ev.at)))
    case ArtifactPublished(_, _, _, _) => OnArtifactPublished(t, ev)
    case EvaluationFailed(a, who, e) =>
      if ArtifactK(a) !in t then None
      else Some(Fresh(t, EvaluationK(ev.id), EvaluationRow(a, who, Nullable(e), ev.at)))
    case EffectIntent(a, o, target, d) =>
      if !HasAttempt(t, ev.run, a) then None
      else Some(Fresh(t, EffectK(ev.id), EffectRow(a, o, target, "pending", d, None, None, ev.at, ev.at)))
    case EffectReceipt(_, _, _, _) => Some(OnEffectReceipt(t, ev))
    case ApprovalRequested(_, _, _, _) => OnApprovalRequested(t, ev)
    case ApprovalDecided(_, _, _, _) => Some(OnApprovalDecided(t, ev))
    case DecisionRecorded(n, d, links) =>
      Some(EnsureNode(t, ev.run, n) + Fresh(t, DecisionK(ev.id), DecisionRow(n, d, ev.at)) +
           LinkWrites(t, ev, links, 0))
    case RunEnded(_, _) => OnRunEnded(t, ev)
    case WaitRequested(_, _, _, _, _, _) => OnWaitRequested(t, ev)
    case WaitCompleted(w, r, d) =>
      Some(OnWaitEnded(t, ev, w, WCompleted, Coalesce(r, ev.causation), Nullable(d)))
    case WaitExpired(w) => Some(OnWaitEnded(t, ev, w, WExpired, None, None))
    case WaitCancelled(w) => Some(OnWaitEnded(t, ev, w, WCancelled, None, None))
    case Unprojected(_) => Some([])
  }

  /** A new pending wait whose event and correlation key another pending wait already holds. */
  predicate IndexRefuses(t: Tables, ev: Event) {
    ev.body.WaitRequested? && WaitOf(ev.body.wait, ev) !in t &&
    PairTaken(t, WaitOf(ev.body.wait, ev), ev.body.eventType, ev.body.correlationKey)
  }

  /** One event applied to the tables; None when the transaction fails. */
  function Project(t: Tables, ev: Event): Option<Tables> {
    if Writes(t, ev).None? || IndexRefuses(t, ev) then None else Some(Apply(t, Writes(t, ev).value))
  }
}
