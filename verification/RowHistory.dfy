/** What the projected rows say about the events: who made a row, and which later event it shows. */
module RowHistory {
  import opened Events
  import opened Options
  import opened Projection
  import opened Replay

  // ---- which events can touch a row ----

  predicate Asks(ev: Event, k: Key) { ev.body.WaitRequested? && WaitOf(ev.body.wait, ev) == k }

  predicate EndsWait(ev: Event, k: Key) {
    (ev.body.WaitCompleted? || ev.body.WaitExpired? || ev.body.WaitCancelled?) && WaitOf(ev.body.wait, ev) == k
  }

  /** The status a wait gets from the event that ends it. */
  function EndStatus(b: Body): WaitStatus {
    if b.WaitCompleted? then WCompleted else if b.WaitExpired? then WExpired else WCancelled
  }

  predicate Requests(ev: Event, k: Key) { ev.body.ApprovalRequested? && ApprovalK(ev.id) == k }
  predicate Decides(ev: Event, k: Key) { ev.body.ApprovalDecided? && ApprovalK(ev.body.approval) == k }
  predicate Intends(ev: Event, k: Key) { ev.body.EffectIntent? && EffectK(ev.id) == k }
  predicate Receives(ev: Event, k: Key) { ev.body.EffectReceipt? && EffectK(ev.body.effect) == k }
  predicate Publishes(ev: Event, k: Key) { ev.body.ArtifactPublished? && ArtifactK(ev.id) == k }
  predicate EndsRun(ev: Event, r: RunId) { ev.body.RunEnded? && ev.run == r }

  /** The event may write the row. */
  predicate Concerns(ev: Event, k: Key) {
    match k
    case WaitK(_) => Asks(ev, k) || EndsWait(ev, k)
    case ApprovalK(_) => Requests(ev, k) || Decides(ev, k)
    case EffectK(_) => Intends(ev, k) || Receives(ev, k)
    case ArtifactK(_) => Publishes(ev, k)
    case OutcomeK(r) => EndsRun(ev, r)
    case _ => true
  }

  ghost predicate NoWrite(ws: seq<Write>, k: Key) { forall i :: 0 <= i < |ws| ==> ws[i].key != k }

  lemma {:induction false} ApplyElsewhere(t: Tables, ws: seq<Write>, k: Key)
    requires NoWrite(ws, k)
    ensures k in Apply(t, ws) <==> k in t
    ensures k in t ==> Apply(t, ws)[k] == t[k]
    decreases |ws|
  {
    if |ws| > 0 {
      assert NoWrite(ws[1..], k);
      ApplyElsewhere(t[ws[0].key := ws[0].row], ws[1..], k);
    }
  }

  /** A list of writes with one write of k. */
  lemma {:induction false} ApplyOnce(t: Tables, a: seq<Write>, w: Write, b: seq<Write>)
    requires NoWrite(a, w.key) && NoWrite(b, w.key)
    ensures w.key in Apply(t, a + [w] + b) && Apply(t, a + [w] + b)[w.key] == w.row
    decreases |a|
  {
    var ws := a + [w] + b;
    if |a| == 0 {
      assert ws[1..] == b;
      ApplyElsewhere(t[w.key := w.row], b, w.key);
    } else {
      assert ws[1..] == a[1..] + [w] + b;
      assert NoWrite(a[1..], w.key);
      ApplyOnce(t[a[0].key := a[0].row], a[1..], w, b);
    }
  }

  /** The keys of the rows studied here. */
  predicate Recorded(k: Key) { k.WaitK? || k.ApprovalK? || k.EffectK? || k.ArtifactK? || k.OutcomeK? }

  lemma {:induction false} LinksWriteNone(t: Tables, ev: Event, links: seq<Link>, i: nat, k: Key)
    requires Recorded(k)
    ensures NoWrite(LinkWrites(t, ev, links, i), k)
    decreases |links|
  {
    if |links| > 0 { LinksWriteNone(t, ev, links[1..], i + 1, k); }
  }

  lemma {:induction false} ParamsWriteNone(t: Tables, r: RunId, params: seq<Param>, k: Key)
    requires Recorded(k)
    ensures NoWrite(ParamWrites(t, r, params), k)
    decreases |params|
  {
    if |params| > 0 { ParamsWriteNone(t, r, params[1..], k); }
  }

  /** The handlers that move a node write its row, its attempts and the start of the run. */
  lemma MovesWriteNone(t: Tables, ev: Event, k: Key)
    requires Recorded(k) && MovesNode(ev.body) && Writes(t, ev).Some?
    ensures NoWrite(Writes(t, ev).value, k)
  {
    hide AttemptAt, LatestAttempt, NodeOf, HasNode, RunRowOf, EndedAttempt, NodeAfter, Recorded;
    assert !k.NodeK? && !k.AttemptK? && !k.RunK? by { NotThese(k); }
    match ev.body
    case NodeStarted(_, _, _, _, _, _, _) => StartWritesNone(t, ev, k);
    case NodeEnded(_, _, _, _, _, _, _) => EndWritesNone(t, ev, k);
    case _ =>
  }

  lemma NotThese(k: Key)
    requires Recorded(k)
    ensures !k.NodeK? && !k.AttemptK? && !k.RunK?
  {
  }

  lemma StartWritesNone(t: Tables, ev: Event, k: Key)
    requires ev.body.NodeStarted? && OnNodeStarted(t, ev).Some? && !k.NodeK? && !k.AttemptK? && !k.RunK?
    ensures NoWrite(OnNodeStarted(t, ev).value, k)
  {
    hide AttemptAt, NodeOf, NodeAfter;
  }

  lemma EndWritesNone(t: Tables, ev: Event, k: Key)
    requires ev.body.NodeEnded? && OnNodeEnded(t, ev).Some? && !k.NodeK? && !k.AttemptK?
    ensures NoWrite(OnNodeEnded(t, ev).value, k)
  {
    hide AttemptAt, LatestAttempt, NodeOf, EndedAttempt, NodeAfter;
  }

  lemma WaitsWriteNone(t: Tables, ev: Event, k: Key)
    requires ev.body.WaitRequested? || ev.body.WaitCompleted? || ev.body.WaitExpired? || ev.body.WaitCancelled?
    requires Recorded(k) && !Concerns(ev, k) && Writes(t, ev).Some?
    ensures NoWrite(Writes(t, ev).value, k)
  {
    hide RunRowOf, HasNode, IsPendingWait, NodeTaken;
  }

  lemma ApprovalsWriteNone(t: Tables, ev: Event, k: Key)
    requires ev.body.ApprovalRequested? || ev.body.ApprovalDecided? || ev.body.RunEnded?
    requires Recorded(k) && !Concerns(ev, k) && Writes(t, ev).Some?
    ensures NoWrite(Writes(t, ev).value, k)
  {
    hide HasNode, RunRowOf;
  }

  lemma RecordsWriteNone(t: Tables, ev: Event, k: Key)
    requires !MovesNode(ev.body) && !ev.body.RunStarted? && !ev.body.DecisionRecorded?
    requires !ev.body.WaitRequested? && !ev.body.WaitCompleted? && !ev.body.WaitExpired? && !ev.body.WaitCancelled?
    requires Recorded(k) && !Concerns(ev, k) && Writes(t, ev).Some?
    ensures NoWrite(Writes(t, ev).value, k)
  {
    hide MovesNode, HasAttempt, OnApprovalRequested, OnApprovalDecided, OnRunEnded;
    if ev.body.ApprovalRequested? || ev.body.ApprovalDecided? || ev.body.RunEnded? { ApprovalsWriteNone(t, ev, k); }
  }

  /** An event that does not concern a row leaves it alone. */
  lemma OthersWriteNone(t: Tables, ev: Event, k: Key)
    requires Recorded(k) && !Concerns(ev, k) && Writes(t, ev).Some?
    ensures NoWrite(Writes(t, ev).value, k)
  {
    if MovesNode(ev.body) {
      MovesWriteNone(t, ev, k);
    } else if ev.body.WaitRequested? || ev.body.WaitCompleted? || ev.body.WaitExpired? || ev.body.WaitCancelled? {
      WaitsWriteNone(t, ev, k);
    } else if ev.body.RunStarted? || ev.body.DecisionRecorded? {
      hide HasNode, RunRowOf, FirstRunRow, WaitOf;
      if ev.body.DecisionRecorded? { LinksWriteNone(t, ev, ev.body.links, 0, k); }
      if ev.body.RunStarted? { ParamsWriteNone(t, ev.run, ev.body.params, k); }
    } else {
      RecordsWriteNone(t, ev, k);
    }
  }

  lemma Untouched(t: Tables, ev: Event, k: Key)
    requires Recorded(k) && !Concerns(ev, k) && Project(t, ev).Some?
    ensures var u := Project(t, ev).value; (k in u <==> k in t) && (k in t ==> u[k] == t[k])
  {
    hide Writes;
    OthersWriteNone(t, ev, k);
    ApplyElsewhere(t, Writes(t, ev).value, k);
  }

  // ---- what the events that move no node write ----

  /** Rows of nodes without one, its own records, the row of its run if it starts or ends it, and no attempts. */
  predicate OtherWrite(t: Tables, ev: Event, w: Write) {
    match w.key
    case RunK(r) => r == ev.run && (ev.body.RunStarted? || ev.body.RunEnded?)
    case NodeK(r, n) => r == ev.run && w.row == NodeR(PENDING) && !HasNode(t, r, n)
    case ParamK(r, _) => r == ev.run && ev.body.RunStarted? && w.key !in t
    case AttemptK(_, _, _) => false
    case EdgeK(id) => id == ev.id && w.key !in t
    case EvaluationK(id) => id == ev.id && w.key !in t
    case DecisionK(id) => id == ev.id && w.key !in t
    case LinkK(id, _) => id == ev.id && w.key !in t
    case AnchorK(id) => id == ev.id && w.key !in t
    case _ => true
  }

  ghost predicate OtherWrites(t: Tables, ev: Event, ws: seq<Write>) {
    forall i :: 0 <= i < |ws| ==> OtherWrite(t, ev, ws[i])
  }

  lemma {:induction false} LinksWriteOthers(t: Tables, ev: Event, links: seq<Link>, i: nat)
    ensures OtherWrites(t, ev, LinkWrites(t, ev, links, i))
    decreases |links|
  {
    hide HasNode;
    if |links| > 0 { LinksWriteOthers(t, ev, links[1..], i + 1); }
  }

  lemma {:induction false} ParamsWriteOthers(t: Tables, ev: Event, params: seq<Param>)
    requires ev.body.RunStarted?
    ensures OtherWrites(t, ev, ParamWrites(t, ev.run, params))
    decreases |params|
  {
    if |params| > 0 { ParamsWriteOthers(t, ev, params[1..]); }
  }

  lemma WaitsWriteOthers(t: Tables, ev: Event)
    requires ev.body.WaitRequested? || ev.body.WaitCompleted? || ev.body.WaitExpired? || ev.body.WaitCancelled?
    requires Writes(t, ev).Some?
    ensures OtherWrites(t, ev, Writes(t, ev).value)
  {
    hide HasNode, RunRowOf, IsPendingWait, NodeTaken;
  }

  lemma RestWriteOthers(t: Tables, ev: Event)
    requires ev.body.EdgeTraversed? || ev.body.ArtifactPublished? || ev.body.EvaluationFailed? ||
             ev.body.EffectIntent? ||
             ev.body.EffectReceipt? || ev.body.ApprovalRequested? || ev.body.ApprovalDecided? || ev.body.Unprojected?
    requires Writes(t, ev).Some?
    ensures OtherWrites(t, ev, Writes(t, ev).value)
  {
    hide MovesNode, HasNode, RunRowOf, HasAttempt, ArtifactTaken;
  }

  lemma OthersWrite(t: Tables, ev: Event)
    requires !MovesNode(ev.body) && Writes(t, ev).Some?
    ensures OtherWrites(t, ev, Writes(t, ev).value)
  {
    hide HasNode, RunRowOf, FirstRunRow, IsPendingWait, NodeTaken, HasAttempt, ArtifactTaken;
    match ev.body
    case DecisionRecorded(_, _, links) => LinksWriteOthers(t, ev, links, 0); hide MovesNode, LinkWrites;
    case RunStarted(_, _, _, params, _, _, _) => ParamsWriteOthers(t, ev, params); hide MovesNode, ParamWrites;
    case WaitRequested(_, _, _, _, _, _) => WaitsWriteOthers(t, ev); hide MovesNode, Writes;
    case WaitCompleted(_, _, _) => WaitsWriteOthers(t, ev); hide MovesNode, Writes;
    case WaitExpired(_) => WaitsWriteOthers(t, ev); hide MovesNode, Writes;
    case WaitCancelled(_) => WaitsWriteOthers(t, ev); hide MovesNode, Writes;
    case RunEnded(_, _) => hide MovesNode;
    case _ => RestWriteOthers(t, ev); hide MovesNode, Writes;
  }

  // ---- waits ----

  /** A wait row carries what its request says. */
  ghost predicate WaitCarries(row: Row, ev: Event)
    requires ev.body.WaitRequested?
  {
    && row.WaitRow? && row.about == ev.body.node && row.eventType == ev.body.eventType
    && row.correlationKey == ev.body.correlationKey && row.condition == ev.body.condition && row.createdAt == ev.at
    && row.expires == if ev.body.expiresAt == 0 then None else Some(ev.body.expiresAt)
  }

  lemma AskStep(t: Tables, ev: Event, k: Key)
    requires Asks(ev, k) && Project(t, ev).Some?
    ensures var u := Project(t, ev).value;
            && k in u && (k in t ==> u[k] == t[k])
            && (k !in t ==> WaitCarries(u[k], ev) && u[k].wait.WPending?)
  {
    var ensured, run := EnsureNode(t, ev.run, ev.body.node), RunRowOf(t, ev.run).value;
    if k in t {
      ApplyElsewhere(t, Writes(t, ev).value, k);
    } else {
      var w := Write(k, WaitRow(ev.body.node, run.version, run.digest, ev.body.eventType, ev.body.correlationKey,
                                ev.body.condition, WPending, NullableInt(ev.body.expiresAt), None, None, ev.at, None));
      assert Writes(t, ev).value == ensured + [w] + [];
      ApplyOnce(t, ensured, w, []);
    }
  }

  lemma EndStep(t: Tables, ev: Event, k: Key)
    requires EndsWait(ev, k) && Project(t, ev).Some?
    ensures var u := Project(t, ev).value;
            && (k in u <==> k in t)
            && (k in t && t[k].WaitRow? ==>
                  && u[k].WaitRow?
                  && (forall e: Event :: e.body.WaitRequested? && WaitCarries(t[k], e) ==> WaitCarries(u[k], e))
                  && if t[k].wait.WPending? then u[k].wait == EndStatus(ev.body) && u[k].completedAt == Some(ev.at)
                     else u[k] == t[k])
  {
    if IsPendingWait(t, k) {
      var w := Writes(t, ev).value[0];
      assert Writes(t, ev).value == [] + [w] + [];
      ApplyOnce(t, [], w, []);
    }
  }

  ghost predicate FirstAsk(evs: seq<Event>, k: Key, i: nat) {
    i < |evs| && Asks(evs[i], k) && forall j :: 0 <= j < i ==> !Asks(evs[j], k)
  }

  /** No event after i and before j ends the wait. */
  ghost predicate NotEnded(evs: seq<Event>, k: Key, i: nat, j: nat)
    requires j <= |evs|
  {
    forall m {:trigger evs[m]} :: i < m < j ==> !EndsWait(evs[m], k)
  }

  ghost predicate FirstEnd(evs: seq<Event>, k: Key, i: nat, j: nat) {
    i < j < |evs| && EndsWait(evs[j], k) && NotEnded(evs, k, i, j)
  }

  predicate ShowsEnd(row: Row, ev: Event)
    requires row.WaitRow?
  {
    row.wait == EndStatus(ev.body) && row.completedAt == Some(ev.at)
  }

  lemma {:induction false} UnaskedHasNoRow(evs: seq<Event>, k: Key)
    requires k.WaitK? && Fold(evs).Some? && forall j :: 0 <= j < |evs| ==> !Asks(evs[j], k)
    ensures k !in Fold(evs).value
  {
    hide Project;
    if |evs| > 0 {
      var n := |evs| - 1;
      UnaskedHasNoRow(evs[..n], k);
      var t := Fold(evs[..n]).value;
      if EndsWait(evs[n], k) { EndStep(t, evs[n], k); } else { Untouched(t, evs[n], k); }
    }
  }

  /** The row after one more event. */
  lemma NextWaitRow(t: Tables, ev: Event, k: Key)
    requires k.WaitK? && k in t && t[k].WaitRow? && Project(t, ev).Some?
    ensures var u := Project(t, ev).value;
            && k in u && u[k].WaitRow?
            && (forall e: Event :: e.body.WaitRequested? && WaitCarries(t[k], e) ==> WaitCarries(u[k], e))
            && if EndsWait(ev, k) && t[k].wait.WPending? then ShowsEnd(u[k], ev) else u[k] == t[k]
  {
    hide Project, WaitCarries;
    if Asks(ev, k) {
      AskStep(t, ev, k);
    } else if EndsWait(ev, k) {
      EndStep(t, ev, k);
    } else {
      Untouched(t, ev, k);
    }
  }

  /** In every log that can be projected a requested wait has a row with what its first request says. It is
      pending if no later event ended it, and otherwise shows the first that did; later ones change nothing. */
  lemma {:induction false} WaitRowTells(evs: seq<Event>, k: Key, i: nat)
    requires k.WaitK? && Fold(evs).Some? && FirstAsk(evs, k, i)
    ensures k in Fold(evs).value && WaitCarries(Fold(evs).value[k], evs[i])
    ensures var row := Fold(evs).value[k];
            && (NotEnded(evs, k, i, |evs|) ==> row.wait.WPending?)
            && forall j: nat :: FirstEnd(evs, k, i, j) ==> ShowsEnd(row, evs[j])
    decreases |evs|
  {
    hide Project, EndsWait, EndStatus;
    var n := |evs| - 1;
    var init, ev, t := evs[..n], evs[n], Fold(evs[..n]).value;
    if i == n {
      UnaskedHasNoRow(init, k);
      AskStep(t, ev, k);
    } else {
      WaitRowTells(init, k, i);
      NextWaitRow(t, ev, k);
      assert forall m :: 0 <= m < n ==> init[m] == evs[m];
      assert NotEnded(evs, k, i, n) <==> NotEnded(init, k, i, n);
      forall j: nat | FirstEnd(evs, k, i, j)
        ensures ShowsEnd(Fold(evs).value[k], evs[j])
      {
        if j < n {
          assert FirstEnd(init, k, i, j);
          EndIsNotPending(evs[j].body);
        }
      }
    }
  }

  lemma EndIsNotPending(b: Body)
    ensures !EndStatus(b).WPending?
  {
  }

  // ---- approvals ----

  ghost predicate ApprovalCarries(row: Row, ev: Event)
    requires ev.body.ApprovalRequested?
  {
    && row.ApprovalRow? && row.about == ev.body.node && row.action == ev.body.action && row.scope == ev.body.scope
    && row.expiresAt == ev.body.expiresAt && row.createdAt == ev.at
  }

  predicate ShowsDecision(row: Row, ev: Event)
    requires row.ApprovalRow?
  {
    && ev.body.ApprovalDecided? && row.decision == Some(ev.body.granted) && row.decidedBy == ev.body.decidedBy
    && row.key == ev.body.key && row.decidedAt == Some(ev.at)
  }

  lemma RequestStep(t: Tables, ev: Event, k: Key)
    requires Requests(ev, k) && Project(t, ev).Some?
    ensures var u := Project(t, ev).value;
            && k in u && (k in t ==> u[k] == t[k])
            && (k !in t ==> ApprovalCarries(u[k], ev) && u[k].decision.None?)
  {
    if k in t {
      ApplyElsewhere(t, Writes(t, ev).value, k);
    } else {
      var w := Writes(t, ev).value[0];
      assert Writes(t, ev).value == [] + [w] + [];
      ApplyOnce(t, [], w, []);
    }
  }

  lemma DecideStep(t: Tables, ev: Event, k: Key)
    requires Decides(ev, k) && Project(t, ev).Some?
    ensures var u := Project(t, ev).value;
            && (k in u <==> k in t)
            && (k in t && t[k].ApprovalRow? ==>
                  && u[k].ApprovalRow? && ShowsDecision(u[k], ev)
                  && forall e: Event :: e.body.ApprovalRequested? && ApprovalCarries(t[k], e) ==>
                                        ApprovalCarries(u[k], e))
  {
    if k in t && t[k].ApprovalRow? {
      var w := Writes(t, ev).value[0];
      assert Writes(t, ev).value == [] + [w] + [];
      ApplyOnce(t, [], w, []);
    }
  }

  ghost predicate FirstRequest(evs: seq<Event>, k: Key, i: nat) {
    i < |evs| && Requests(evs[i], k) && forall j :: 0 <= j < i ==> !Requests(evs[j], k)
  }

  /** No event after i decides the approval. */
  ghost predicate NotDecided(evs: seq<Event>, k: Key, i: nat) {
    forall m {:trigger evs[m]} :: i < m < |evs| ==> !Decides(evs[m], k)
  }

  ghost predicate LastDecision(evs: seq<Event>, k: Key, i: nat, j: nat) {
    i < j < |evs| && Decides(evs[j], k) && NotDecided(evs, k, j)
  }

  lemma {:induction false} UnrequestedHasNoRow(evs: seq<Event>, k: Key)
    requires k.ApprovalK? && Fold(evs).Some? && forall j :: 0 <= j < |evs| ==> !Requests(evs[j], k)
    ensures k !in Fold(evs).value
  {
    hide Project;
    if |evs| > 0 {
      var n := |evs| - 1;
      UnrequestedHasNoRow(evs[..n], k);
      var t := Fold(evs[..n]).value;
      if Decides(evs[n], k) { DecideStep(t, evs[n], k); } else { Untouched(t, evs[n], k); }
    }
  }

  lemma NextApprovalRow(t: Tables, ev: Event, k: Key)
    requires k.ApprovalK? && k in t && t[k].ApprovalRow? && Project(t, ev).Some?
    ensures var u := Project(t, ev).value;
            && k in u && u[k].ApprovalRow?
            && (forall e: Event :: e.body.ApprovalRequested? && ApprovalCarries(t[k], e) ==> ApprovalCarries(u[k], e))
            && if Decides(ev, k) then ShowsDecision(u[k], ev) else u[k] == t[k]
  {
    hide Project, ApprovalCarries;
    if Requests(ev, k) {
      RequestStep(t, ev, k);
    } else if Decides(ev, k) {
      DecideStep(t, ev, k);
    } else {
      Untouched(t, ev, k);
    }
  }

  /** In every log that can be projected a requested approval has a row with what its request says. It is
      undecided if no later event decides it, and otherwise shows the last that does: the projection does
      not keep the first decision, the transactions do. */
  lemma {:induction false} ApprovalRowTells(evs: seq<Event>, k: Key, i: nat)
    requires k.ApprovalK? && Fold(evs).Some? && FirstRequest(evs, k, i)
    ensures k in Fold(evs).value && ApprovalCarries(Fold(evs).value[k], evs[i])
    ensures var row := Fold(evs).value[k];
            && (NotDecided(evs, k, i) ==> row.decision.None?)
            && forall j: nat :: LastDecision(evs, k, i, j) ==> ShowsDecision(row, evs[j])
    decreases |evs|
  {
    hide Project, Decides, ShowsDecision;
    var n := |evs| - 1;
    var init, ev, t := evs[..n], evs[n], Fold(evs[..n]).value;
    if i == n {
      UnrequestedHasNoRow(init, k);
      RequestStep(t, ev, k);
    } else {
      ApprovalRowTells(init, k, i);
      NextApprovalRow(t, ev, k);
      assert forall m :: 0 <= m < n ==> init[m] == evs[m];
      assert !Decides(ev, k) ==> (NotDecided(evs, k, i) <==> NotDecided(init, k, i));
      forall j: nat | LastDecision(evs, k, i, j)
        ensures ShowsDecision(Fold(evs).value[k], evs[j])
      {
        if j < n {
          assert !Decides(ev, k);
          assert LastDecision(init, k, i, j);
        }
      }
    }
  }

  // ---- effects ----

  ghost predicate EffectCarries(row: Row, ev: Event)
    requires ev.body.EffectIntent?
  {
    && row.EffectRow? && row.attemptId == ev.body.attempt && row.opKey == ev.body.opKey && row.target == ev.body.target
    && row.digest == ev.body.digest && row.createdAt == ev.at
  }

  lemma IntendStep(t: Tables, ev: Event, k: Key)
    requires Intends(ev, k) && k !in t && Project(t, ev).Some?
    ensures var u := Project(t, ev).value; k in u && EffectCarries(u[k], ev) && u[k].effect == "pending"
  {
    var w := Writes(t, ev).value[0];
    assert Writes(t, ev).value == [] + [w] + [];
    ApplyOnce(t, [], w, []);
  }

  lemma NextEffectRow(t: Tables, ev: Event, k: Key)
    requires k.EffectK? && k in t && t[k].EffectRow? && Project(t, ev).Some?
    ensures var u := Project(t, ev).value;
            && k in u && u[k].EffectRow?
            && (forall e: Event :: e.body.EffectIntent? && EffectCarries(t[k], e) ==> EffectCarries(u[k], e))
            && if Receives(ev, k) then u[k].effect == ev.body.effectStatus && u[k].updatedAt == ev.at else u[k] == t[k]
  {
    if Intends(ev, k) {
      ApplyElsewhere(t, Writes(t, ev).value, k);
    } else if Receives(ev, k) {
      var w := Writes(t, ev).value[0];
      assert Writes(t, ev).value == [] + [w] + [];
      ApplyOnce(t, [], w, []);
    } else {
      hide Project;
      Untouched(t, ev, k);
    }
  }

  lemma {:induction false} UnintendedHasNoRow(evs: seq<Event>, k: Key)
    requires k.EffectK? && Fold(evs).Some? && forall j :: 0 <= j < |evs| ==> !Intends(evs[j], k)
    ensures k !in Fold(evs).value
  {
    if |evs| > 0 {
      var n := |evs| - 1;
      var t, ev := Fold(evs[..n]).value, evs[n];
      UnintendedHasNoRow(evs[..n], k);
      if Receives(ev, k) {
        assert Writes(t, ev).value == [];
      } else {
        hide Project;
        Untouched(t, ev, k);
      }
    }
  }

  ghost predicate FirstIntent(evs: seq<Event>, k: Key, i: nat) {
    i < |evs| && Intends(evs[i], k) && forall j :: 0 <= j < i ==> !Intends(evs[j], k)
  }

  ghost predicate LastReceipt(evs: seq<Event>, k: Key, i: nat, j: nat) {
    i < j < |evs| && Receives(evs[j], k) && forall m {:trigger evs[m]} :: j < m < |evs| ==> !Receives(evs[m], k)
  }

  /** In every log that can be projected an intended effect has a row with what its intent says. It is
      pending until a receipt for it comes, and then has the status of the last one. */
  lemma {:induction false} EffectRowTells(evs: seq<Event>, k: Key, i: nat)
    requires k.EffectK? && Fold(evs).Some? && FirstIntent(evs, k, i)
    ensures k in Fold(evs).value && EffectCarries(Fold(evs).value[k], evs[i])
    ensures var row := Fold(evs).value[k];
            && ((forall j {:trigger evs[j]} :: i < j < |evs| ==> !Receives(evs[j], k)) ==> row.effect == "pending")
            && forall j: nat :: LastReceipt(evs, k, i, j) ==>
                                row.effect == evs[j].body.effectStatus && row.updatedAt == evs[j].at
    decreases |evs|
  {
    hide Project;
    var n := |evs| - 1;
    var init, ev, t := evs[..n], evs[n], Fold(evs[..n]).value;
    if i == n {
      UnintendedHasNoRow(init, k);
      IntendStep(t, ev, k);
    } else {
      EffectRowTells(init, k, i);
      NextEffectRow(t, ev, k);
      assert forall m :: 0 <= m < n ==> init[m] == evs[m];
      forall j: nat | LastReceipt(evs, k, i, j)
        ensures Fold(evs).value[k].effect == evs[j].body.effectStatus && Fold(evs).value[k].updatedAt == evs[j].at
      {
        if j < n { assert LastReceipt(init, k, i, j); }
      }
    }
  }

  // ---- the end of a run ----

  lemma EndRunStep(t: Tables, ev: Event)
    requires ev.body.RunEnded? && Project(t, ev).Some?
    ensures var u, k := Project(t, ev).value, OutcomeK(ev.run);
            && RunRowOf(u, ev.run).Some? && StatusAt(u, ev.run) == ev.body.status
            && (k in t && t[k].OutcomeRow? ==> t[k].id == ev.id)
            && k in u && (k !in t ==> u[k] == OutcomeRow(ev.id, ev.body.status, Nullable(ev.body.detail), ev.at))
            && (k in t ==> u[k] == t[k])
  {
    var k, run, ws := OutcomeK(ev.run), RunRowOf(t, ev.run).value, Writes(t, ev).value;
    var first := Write(RunK(ev.run), run.(status := ev.body.status, finishedAt := Some(ev.at)));
    assert ws == [] + [first] + ws[1..];
    ApplyOnce(t, [], first, ws[1..]);
    if k in t {
      ApplyElsewhere(t, ws, k);
    } else {
      var last := Write(k, OutcomeRow(ev.id, ev.body.status, Nullable(ev.body.detail), ev.at));
      assert ws == ws[..|ws| - 1] + [last] + [];
      ApplyOnce(t, ws[..|ws| - 1], last, []);
    }
  }

  /** At most one ending event of a run can be projected, if the events of the log have distinct ids, and the outcome of
      the run says what that event says. */
  lemma {:induction false} OneEnding(evs: seq<Event>, r: RunId)
    requires Fold(evs).Some? && forall i, j :: 0 <= i < j < |evs| ==> evs[i].id != evs[j].id
    ensures var t, k := Fold(evs).value, OutcomeK(r);
            && (k in t ==> t[k].OutcomeRow?)
            && (k in t <==> exists i :: 0 <= i < |evs| && EndsRun(evs[i], r))
            && forall i :: 0 <= i < |evs| && EndsRun(evs[i], r) ==>
                           t[k] == OutcomeRow(evs[i].id, evs[i].body.status, Nullable(evs[i].body.detail), evs[i].at)
    ensures forall i, j :: 0 <= i < j < |evs| ==> !(EndsRun(evs[i], r) && EndsRun(evs[j], r))
  {
    hide Project;
    if |evs| > 0 {
      var n := |evs| - 1;
      var init, ev, t := evs[..n], evs[n], Fold(evs[..n]).value;
      OneEnding(init, r);
      assert forall i :: 0 <= i < n ==> init[i] == evs[i];
      if EndsRun(ev, r) { EndRunStep(t, ev); } else { Untouched(t, ev, OutcomeK(r)); }
    }
  }

  /** The status of the run's row; a run without a row counts as running. */
  function StatusAt(t: Tables, r: RunId): RunStatus {
    if RunRowOf(t, r).Some? then RunRowOf(t, r).value.status else RunRunning
  }

  /** Writes of the run's own row that give it this status. */
  ghost predicate RunWrites(ws: seq<Write>, r: RunId, st: RunStatus) {
    forall i :: 0 <= i < |ws| && ws[i].key == RunK(r) ==> ws[i].row.RunRow? && ws[i].row.status == st
  }

  lemma {:induction false} ApplyRunWrites(t: Tables, ws: seq<Write>, r: RunId, st: RunStatus)
    requires RunWrites(ws, r, st) && (RunRowOf(t, r).Some? ==> StatusAt(t, r) == st)
    ensures RunRowOf(Apply(t, ws), r).Some? ==> StatusAt(Apply(t, ws), r) == st
    ensures RunRowOf(t, r).Some? ==> RunRowOf(Apply(t, ws), r).Some?
    decreases |ws|
  {
    if |ws| > 0 {
      assert RunWrites(ws[1..], r, st);
      ApplyRunWrites(t[ws[0].key := ws[0].row], ws[1..], r, st);
    }
  }

  lemma {:induction false} LinksAreNotRuns(t: Tables, ev: Event, links: seq<Link>, i: nat)
    ensures forall j :: 0 <= j < |LinkWrites(t, ev, links, i)| ==> !LinkWrites(t, ev, links, i)[j].key.RunK?
    decreases |links|
  {
    if |links| > 0 { LinksAreNotRuns(t, ev, links[1..], i + 1); }
  }

  lemma {:induction false} ParamsAreNotRuns(t: Tables, r: RunId, params: seq<Param>)
    ensures forall j :: 0 <= j < |ParamWrites(t, r, params)| ==> !ParamWrites(t, r, params)[j].key.RunK?
    decreases |params|
  {
    if |params| > 0 { ParamsAreNotRuns(t, r, params[1..]); }
  }

  lemma MovesKeepRun(t: Tables, ev: Event, r: RunId)
    requires MovesNode(ev.body) && Writes(t, ev).Some?
    ensures RunWrites(Writes(t, ev).value, r, StatusAt(t, r))
  {
    hide AttemptAt, LatestAttempt, NodeOf, HasNode, EndedAttempt, NodeAfter;
    match ev.body
    case NodeEnded(_, _, _, _, _, _, _) => EndIsNotRun(t, ev);
    case _ =>
  }

  lemma EndIsNotRun(t: Tables, ev: Event)
    requires ev.body.NodeEnded? && OnNodeEnded(t, ev).Some?
    ensures forall j :: 0 <= j < |OnNodeEnded(t, ev).value| ==> !OnNodeEnded(t, ev).value[j].key.RunK?
  {
    hide AttemptAt, LatestAttempt, NodeOf, EndedAttempt, NodeAfter;
  }

  lemma OthersKeepRun(t: Tables, ev: Event, r: RunId)
    requires !EndsRun(ev, r) && Writes(t, ev).Some?
    ensures RunWrites(Writes(t, ev).value, r, StatusAt(t, r))
  {
    if MovesNode(ev.body) {
      MovesKeepRun(t, ev, r);
    } else {
      hide HasNode, IsPendingWait, NodeTaken;
      if ev.body.DecisionRecorded? { LinksAreNotRuns(t, ev, ev.body.links, 0); }
      if ev.body.RunStarted? { ParamsAreNotRuns(t, ev.run, ev.body.params); }
    }
  }

  lemma OtherKeepsStatus(t: Tables, ev: Event, r: RunId)
    requires !EndsRun(ev, r) && Project(t, ev).Some?
    ensures var u := Project(t, ev).value;
            StatusAt(u, r) == StatusAt(t, r) && (RunRowOf(t, r).Some? ==> RunRowOf(u, r).Some?)
  {
    hide Writes, RunRowOf;
    OthersKeepRun(t, ev, r);
    ApplyRunWrites(t, Writes(t, ev).value, r, StatusAt(t, r));
  }

  /** In every log that can be projected, the row of a run has the status of the event that ended the run,
      and is running while there is none. */
  lemma {:induction false} RunRowTells(evs: seq<Event>, r: RunId)
    requires Fold(evs).Some? && forall i, j :: 0 <= i < j < |evs| ==> evs[i].id != evs[j].id
    ensures var t := Fold(evs).value;
            && ((forall i :: 0 <= i < |evs| ==> !EndsRun(evs[i], r)) ==> StatusAt(t, r) == RunRunning)
            && forall i :: 0 <= i < |evs| && EndsRun(evs[i], r) ==>
                           RunRowOf(t, r).Some? && StatusAt(t, r) == evs[i].body.status
  {
    hide Project, RunRowOf, StatusAt;
    if |evs| > 0 {
      var n := |evs| - 1;
      var init, ev, t := evs[..n], evs[n], Fold(evs[..n]).value;
      OneEnding(evs, r);
      RunRowTells(init, r);
      assert forall i :: 0 <= i < n ==> init[i] == evs[i];
      if EndsRun(ev, r) { EndRunStep(t, ev); } else { OtherKeepsStatus(t, ev, r); }
    } else {
      NoRunAtFirst(r);
    }
  }

  lemma NoRunAtFirst(r: RunId)
    ensures RunRowOf(map[], r).None? && StatusAt(map[], r) == RunRunning
  {
  }
}
