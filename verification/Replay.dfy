/** The append-only log, the tables kept beside it, and rebuilding the tables from the log. */
module Replay {
  import opened Events
  import opened Options
  import opened Projection

  // ---- a run sees only its own rows ----

  /** The ids an event uses to find rows are ids of its own run. */
  predicate LocalIds(ev: Event) {
    && ev.id.run == ev.run && (ev.causation.Some? ==> ev.causation.value.run == ev.run)
    && match ev.body
       case EvaluationFailed(a, _, _) => a.run == ev.run
       case EffectIntent(a, _, _, _) => a.run == ev.run
       case EffectReceipt(e, _, _, _) => e.run == ev.run
       case ApprovalDecided(_, a, _, _) => a.run == ev.run
       case WaitRequested(w, _, _, _, _, _) => w.Some? ==> w.value.run == ev.run
       case WaitCompleted(w, r, _) => (w.Some? ==> w.value.run == ev.run) && (r.Some? ==> r.value.run == ev.run)
       case WaitExpired(w) => w.Some? ==> w.value.run == ev.run
       case WaitCancelled(w) => w.Some? ==> w.value.run == ev.run
       case _ => true
  }

  /** The two tables have the same rows of run r. */
  ghost predicate Agree(s: Tables, t: Tables, r: RunId) {
    forall k: Key :: k.Owner() == r ==> (k in s <==> k in t) && (k in s ==> s[k] == t[k])
  }

  ghost predicate OnlyRun(t: Tables, r: RunId) {
    forall k :: k in t ==> k.Owner() == r
  }

  ghost predicate OwnedBy(ws: seq<Write>, r: RunId) {
    forall i :: 0 <= i < |ws| ==> ws[i].key.Owner() == r
  }

  lemma {:induction false} ApplyAgrees(s: Tables, t: Tables, ws: seq<Write>, r: RunId)
    requires Agree(s, t, r)
    ensures Agree(Apply(s, ws), Apply(t, ws), r)
    decreases |ws|
  {
    if |ws| > 0 {
      ApplyAgrees(s[ws[0].key := ws[0].row], t[ws[0].key := ws[0].row], ws[1..], r);
    }
  }

  lemma {:induction false} ApplyElsewhere(t: Tables, ws: seq<Write>, r: RunId, other: RunId)
    requires OwnedBy(ws, r) && other != r
    ensures Agree(Apply(t, ws), t, other)
    decreases |ws|
  {
    if |ws| > 0 {
      ApplyElsewhere(t[ws[0].key := ws[0].row], ws[1..], r, other);
    }
  }

  lemma {:induction false} ApplyOnlyRun(t: Tables, ws: seq<Write>, r: RunId)
    requires OwnedBy(ws, r) && OnlyRun(t, r)
    ensures OnlyRun(Apply(t, ws), r)
    decreases |ws|
  {
    if |ws| > 0 {
      ApplyOnlyRun(t[ws[0].key := ws[0].row], ws[1..], r);
    }
  }

  lemma {:induction false} ParamWritesLocal(s: Tables, t: Tables, r: RunId, params: seq<Param>)
    requires Agree(s, t, r)
    ensures ParamWrites(s, r, params) == ParamWrites(t, r, params) && OwnedBy(ParamWrites(t, r, params), r)
  {
    if |params| > 0 { ParamWritesLocal(s, t, r, params[1..]); }
  }

  lemma {:induction false} LinkWritesLocal(s: Tables, t: Tables, ev: Event, links: seq<Link>, i: nat)
    requires Agree(s, t, ev.run) && LocalIds(ev)
    ensures LinkWrites(s, ev, links, i) == LinkWrites(t, ev, links, i) && OwnedBy(LinkWrites(t, ev, links, i), ev.run)
    decreases |links|
  {
    if |links| > 0 { LinkWritesLocal(s, t, ev, links[1..], i + 1); }
  }

  lemma LatestAttemptLocal(s: Tables, t: Tables, r: RunId, node: string)
    requires Agree(s, t, r)
    ensures LatestAttempt(s, r, node) == LatestAttempt(t, r, node)
  {
    assert forall n :: n in AttemptNos(s, r, node) <==>
                       AttemptK(r, node, n) in s && s[AttemptK(r, node, n)].AttemptRow?;
    assert forall n :: n in AttemptNos(t, r, node) <==>
                       AttemptK(r, node, n) in t && t[AttemptK(r, node, n)].AttemptRow?;
    assert forall n :: n in AttemptNos(s, r, node) <==> n in AttemptNos(t, r, node);
  }

  lemma HasAttemptLocal(s: Tables, t: Tables, r: RunId, id: Id)
    requires Agree(s, t, r)
    ensures HasAttempt(s, r, id) == HasAttempt(t, r, id)
  {
  }

  lemma NodeTakenLocal(s: Tables, t: Tables, k: Key, r: RunId, node: string)
    requires Agree(s, t, r)
    ensures NodeTaken(s, k, r, node) == NodeTaken(t, k, r, node)
  {
    if NodeTaken(s, k, r, node) {
      var o :| o in s && o != k && IsPendingWait(s, o) && o.Owner() == r && s[o].about == node;
      assert IsPendingWait(t, o);
    }
    if NodeTaken(t, k, r, node) {
      var o :| o in t && o != k && IsPendingWait(t, o) && o.Owner() == r && t[o].about == node;
      assert IsPendingWait(s, o);
    }
  }

  lemma OnArtifactPublishedLocal(s: Tables, t: Tables, ev: Event)
    requires Agree(s, t, ev.run) && LocalIds(ev) && ev.body.ArtifactPublished?
    ensures OnArtifactPublished(s, ev) == OnArtifactPublished(t, ev)
    ensures OnArtifactPublished(t, ev).Some? ==> OwnedBy(OnArtifactPublished(t, ev).value, ev.run)
  {
    var b := ev.body;
    if ArtifactTaken(s, ev.run, b.node, b.name, b.hash) {
      var o :| o in s && o.ArtifactK? && o.Owner() == ev.run && s[o].ArtifactRow? &&
               s[o].producer == b.node && s[o].name == b.name && s[o].hash == b.hash;
      assert o in t && t[o] == s[o];
    }
    if ArtifactTaken(t, ev.run, b.node, b.name, b.hash) {
      var o :| o in t && o.ArtifactK? && o.Owner() == ev.run && t[o].ArtifactRow? &&
               t[o].producer == b.node && t[o].name == b.name && t[o].hash == b.hash;
      assert o in s && s[o] == t[o];
    }
  }

  lemma OnRunStartedLocal(s: Tables, t: Tables, ev: Event)
    requires Agree(s, t, ev.run) && LocalIds(ev) && ev.body.RunStarted?
    ensures OnRunStarted(s, ev) == OnRunStarted(t, ev)
    ensures OnRunStarted(t, ev).Some? ==> OwnedBy(OnRunStarted(t, ev).value, ev.run)
  {
    ParamWritesLocal(s, t, ev.run, ev.body.params);
  }

  lemma OnNodeStartedLocal(s: Tables, t: Tables, ev: Event)
    requires Agree(s, t, ev.run) && LocalIds(ev) && ev.body.NodeStarted?
    ensures OnNodeStarted(s, ev) == OnNodeStarted(t, ev)
    ensures OnNodeStarted(t, ev).Some? ==> OwnedBy(OnNodeStarted(t, ev).value, ev.run)
  {
  }

  lemma OnNodeEndedLocal(s: Tables, t: Tables, ev: Event)
    requires Agree(s, t, ev.run) && LocalIds(ev) && ev.body.NodeEnded?
    ensures OnNodeEnded(s, ev) == OnNodeEnded(t, ev)
    ensures OnNodeEnded(t, ev).Some? ==> OwnedBy(OnNodeEnded(t, ev).value, ev.run)
  {
    LatestAttemptLocal(s, t, ev.run, ev.body.node);
  }

  lemma OnAttemptFailedLocal(s: Tables, t: Tables, ev: Event)
    requires Agree(s, t, ev.run) && LocalIds(ev) && ev.body.NodeAttemptFailed?
    ensures OnAttemptFailed(s, ev) == OnAttemptFailed(t, ev)
    ensures OnAttemptFailed(t, ev).Some? ==> OwnedBy(OnAttemptFailed(t, ev).value, ev.run)
  {
  }

  lemma OnApprovalRequestedLocal(s: Tables, t: Tables, ev: Event)
    requires Agree(s, t, ev.run) && LocalIds(ev) && ev.body.ApprovalRequested?
    ensures OnApprovalRequested(s, ev) == OnApprovalRequested(t, ev)
    ensures OnApprovalRequested(t, ev).Some? ==> OwnedBy(OnApprovalRequested(t, ev).value, ev.run)
  {
  }

  lemma OnRunEndedLocal(s: Tables, t: Tables, ev: Event)
    requires Agree(s, t, ev.run) && LocalIds(ev) && ev.body.RunEnded?
    ensures OnRunEnded(s, ev) == OnRunEnded(t, ev)
    ensures OnRunEnded(t, ev).Some? ==> OwnedBy(OnRunEnded(t, ev).value, ev.run)
  {
  }

  lemma OnWaitRequestedLocal(s: Tables, t: Tables, ev: Event)
    requires Agree(s, t, ev.run) && LocalIds(ev) && ev.body.WaitRequested?
    ensures OnWaitRequested(s, ev) == OnWaitRequested(t, ev)
    ensures OnWaitRequested(t, ev).Some? ==> OwnedBy(OnWaitRequested(t, ev).value, ev.run)
  {
    NodeTakenLocal(s, t, WaitOf(ev.body.wait, ev), ev.run, ev.body.node);
  }

  lemma OnNodeCancelledLocal(s: Tables, t: Tables, ev: Event)
    requires Agree(s, t, ev.run) && LocalIds(ev) && ev.body.NodeCancelled?
    ensures OnNodeCancelled(s, ev) == OnNodeCancelled(t, ev) && OwnedBy(OnNodeCancelled(t, ev), ev.run)
  {
  }

  lemma OnEffectReceiptLocal(s: Tables, t: Tables, ev: Event)
    requires Agree(s, t, ev.run) && LocalIds(ev) && ev.body.EffectReceipt?
    ensures OnEffectReceipt(s, ev) == OnEffectReceipt(t, ev) && OwnedBy(OnEffectReceipt(t, ev), ev.run)
  {
  }

  lemma OnApprovalDecidedLocal(s: Tables, t: Tables, ev: Event)
    requires Agree(s, t, ev.run) && LocalIds(ev) && ev.body.ApprovalDecided?
    ensures OnApprovalDecided(s, ev) == OnApprovalDecided(t, ev) && OwnedBy(OnApprovalDecided(t, ev), ev.run)
  {
  }

  lemma OnWaitEndedLocal(s: Tables, t: Tables, ev: Event, wait: Option<Id>, status: WaitStatus, received: Option<Id>,
      digest: Option<string>)
    requires Agree(s, t, ev.run) && ev.id.run == ev.run && (wait.Some? ==> wait.value.run == ev.run)
    ensures OnWaitEnded(s, ev, wait, status, received, digest) == OnWaitEnded(t, ev, wait, status, received, digest)
    ensures OwnedBy(OnWaitEnded(t, ev, wait, status, received, digest), ev.run)
  {
  }

  lemma OnDecisionLocal(s: Tables, t: Tables, ev: Event)
    requires Agree(s, t, ev.run) && LocalIds(ev) && ev.body.DecisionRecorded?
    ensures Writes(s, ev) == Writes(t, ev) && OwnedBy(Writes(t, ev).value, ev.run)
  {
    hide LinkWrites;
    LinkWritesLocal(s, t, ev, ev.body.links, 0);
  }

  lemma MovesAreLocal(s: Tables, t: Tables, ev: Event)
    requires Agree(s, t, ev.run) && LocalIds(ev) && MovesNode(ev.body)
    ensures Writes(s, ev) == Writes(t, ev)
    ensures Writes(t, ev).Some? ==> OwnedBy(Writes(t, ev).value, ev.run)
  {
    hide OnNodeStarted, OnNodeEnded, OnAttemptFailed, OnNodeCancelled, NodeAfter;
    match ev.body
    case NodeStarted(_, _, _, _, _, _, _) => OnNodeStartedLocal(s, t, ev);
    case NodeEnded(_, _, _, _, _, _, _) => OnNodeEndedLocal(s, t, ev);
    case NodeCancelled(_, _) => OnNodeCancelledLocal(s, t, ev);
    case NodeAttemptFailed(_, _, _) => OnAttemptFailedLocal(s, t, ev);
    case _ =>
  }

  /** Handlers read and write only rows of the event's own run. */
  lemma HandlersAreLocal(s: Tables, t: Tables, ev: Event)
    requires Agree(s, t, ev.run) && LocalIds(ev)
    ensures Writes(s, ev) == Writes(t, ev)
    ensures Writes(t, ev).Some? ==> OwnedBy(Writes(t, ev).value, ev.run)
  {
    hide OnRunStarted, OnApprovalRequested, OnRunEnded, OnWaitRequested, OnWaitEnded, OnEffectReceipt,
         OnApprovalDecided, OnArtifactPublished, MoveNode, OnNodeStarted, OnNodeEnded, OnNodeCancelled,
         OnAttemptFailed, HasAttempt, HasNode, LinkWrites;
    match ev.body
    case RunStarted(_, _, _, _, _, _, _) => OnRunStartedLocal(s, t, ev);
    case ArtifactPublished(_, _, _, _) => OnArtifactPublishedLocal(s, t, ev);
    case EffectIntent(a, _, _, _) => HasAttemptLocal(s, t, ev.run, a);
    case EffectReceipt(_, _, _, _) => OnEffectReceiptLocal(s, t, ev);
    case ApprovalRequested(_, _, _, _) => OnApprovalRequestedLocal(s, t, ev);
    case ApprovalDecided(_, _, _, _) => OnApprovalDecidedLocal(s, t, ev);
    case DecisionRecorded(_, _, _) => OnDecisionLocal(s, t, ev);
    case RunEnded(_, _) => OnRunEndedLocal(s, t, ev);
    case WaitRequested(_, _, _, _, _, _) => OnWaitRequestedLocal(s, t, ev);
    case WaitCompleted(w, r, d) => OnWaitEndedLocal(s, t, ev, w, WCompleted, Coalesce(r, ev.causation), Nullable(d));
    case WaitExpired(w) => OnWaitEndedLocal(s, t, ev, w, WExpired, None, None);
    case WaitCancelled(w) => OnWaitEndedLocal(s, t, ev, w, WCancelled, None, None);
    case _ => if MovesNode(ev.body) { MovesAreLocal(s, t, ev); }
  }

  // ---- folding a log ----

  function Fold(evs: seq<Event>): Option<Tables> {
    if |evs| == 0 then Some(map[])
    else
      var before := Fold(evs[..|evs| - 1]);
      if before.None? then None else Project(before.value, evs[|evs| - 1])
  }

  /** The events of one run, in log order. */
  function History(evs: seq<Event>, r: RunId): seq<Event> {
    if |evs| == 0 then []
    else History(evs[..|evs| - 1], r) + if evs[|evs| - 1].run == r then [evs[|evs| - 1]] else []
  }

  ghost predicate AllLocal(evs: seq<Event>) {
    forall i :: 0 <= i < |evs| ==> LocalIds(evs[i])
  }

  /** What one event does, seen by its own run and by the others. */
  lemma RefusalIsShared(t: Tables, own: Tables, ev: Event)
    requires LocalIds(ev) && Agree(t, own, ev.run) && OnlyRun(own, ev.run) && IndexRefuses(own, ev)
    ensures IndexRefuses(t, ev)
  {
    var k := WaitOf(ev.body.wait, ev);
    var o :| o in own && HoldsPair(own, o, k, ev.body.eventType, ev.body.correlationKey);
    assert o in t && HoldsPair(t, o, k, ev.body.eventType, ev.body.correlationKey);
  }

  lemma ProjectIsLocal(t: Tables, own: Tables, ev: Event)
    requires LocalIds(ev) && Agree(t, own, ev.run) && OnlyRun(own, ev.run)
    ensures Project(t, ev).Some? ==> Project(own, ev).Some?
    ensures Project(own, ev).Some? ==>
      (Project(t, ev).None? <==> IndexRefuses(t, ev))
    ensures Project(t, ev).Some? ==> Agree(Project(t, ev).value, Project(own, ev).value, ev.run)
    ensures Project(t, ev).Some? ==> forall r :: r != ev.run ==> Agree(Project(t, ev).value, t, r)
    ensures Project(own, ev).Some? ==> OnlyRun(Project(own, ev).value, ev.run) && !IndexRefuses(own, ev)
  {
    hide Writes, LocalIds;
    HandlersAreLocal(t, own, ev);
    HandlersAreLocal(own, own, ev);
    if IndexRefuses(own, ev) { RefusalIsShared(t, own, ev); }
    hide IndexRefuses;
    if Writes(t, ev).Some? {
      var ws := Writes(t, ev).value;
      ApplyAgrees(t, own, ws, ev.run);
      ApplyOnlyRun(own, ws, ev.run);
      forall r | r != ev.run
        ensures Agree(Apply(t, ws), t, r)
      {
        ApplyElsewhere(t, ws, ev.run, r);
      }
    }
  }

  lemma {:induction false} HistoryIsLocal(evs: seq<Event>, r: RunId)
    requires AllLocal(evs)
    ensures AllLocal(History(evs, r)) && forall i :: 0 <= i < |History(evs, r)| ==> History(evs, r)[i].run == r
  {
    if |evs| > 0 { HistoryIsLocal(evs[..|evs| - 1], r); }
  }

  /** A run's rows are what its own events make of empty tables. */
  lemma {:induction false} FoldByRun(evs: seq<Event>, r: RunId)
    requires AllLocal(evs) && Fold(evs).Some?
    ensures Fold(History(evs, r)).Some? && OnlyRun(Fold(History(evs, r)).value, r)
    ensures Agree(Fold(evs).value, Fold(History(evs, r)).value, r)
  {
    hide Project;
    if |evs| > 0 {
      var init, ev := evs[..|evs| - 1], evs[|evs| - 1];
      FoldByRun(init, ev.run);
      ProjectIsLocal(Fold(init).value, Fold(History(init, ev.run)).value, ev);
      if ev.run == r {
        assert History(evs, r)[..|History(evs, r)| - 1] == History(init, r);
      } else {
        FoldByRun(init, r);
        assert History(evs, r) == History(init, r);
        assert Agree(Project(Fold(init).value, ev).value, Fold(init).value, r);
      }
    }
  }

  // ---- the live log ----

  /** A transaction that grows the log: the first event of a new run, or any later event. */
  datatype Step = StartRun(ev: Event) | Append(ev: Event)

  datatype Ledger = Ledger(log: seq<Event>, tables: Tables)

  const EMPTY := Ledger([], map[])

  function MaxSequence(log: seq<Event>, r: RunId): int {
    if |log| == 0 then 0
    else
      var rest := MaxSequence(log[..|log| - 1], r);
      if log[|log| - 1].run == r then Max(rest, log[|log| - 1].sequence) else rest
  }

  predicate HasKey(log: seq<Event>, key: string) { exists i :: 0 <= i < |log| && log[i].key == key }

  predicate HasId(log: seq<Event>, id: Id) { exists i :: 0 <= i < |log| && log[i].id == id }

  /** The checks of an append: fresh idempotency key, growing sequence, and the keys the row refers to. */
  predicate MayAppend(g: Ledger, ev: Event) {
    && (ev.key != "" ==> !HasKey(g.log, ev.key))
    && ev.sequence > MaxSequence(g.log, ev.run)
    && !HasId(g.log, ev.id)
    && RunK(ev.run) in g.tables
    && (ev.causation.Some? ==> HasId(g.log, ev.causation.value))
    && (ev.body.WaitCompleted? && ev.body.received.Some? ==> HasId(g.log, ev.body.received.value))
  }

  function Appended(g: Ledger, ev: Event): Option<Ledger> {
    if !MayAppend(g, ev) || Project(g.tables, ev).None? then None
    else Some(Ledger(g.log + [ev], Project(g.tables, ev).value))
  }

  /** Starting a run writes the run row itself before it appends run_started. */
  function Started(g: Ledger, ev: Event): Option<Ledger> {
    if !ev.body.RunStarted? || ev.body.digest == "" || ev.sequence != 1 || RunK(ev.run) in g.tables then None
    else Appended(g.(tables := g.tables[RunK(ev.run) := FirstRunRow(ev.body, ev.body.digest, ev.at)]), ev)
  }

  function Take(g: Ledger, step: Step): Option<Ledger> {
    match step case StartRun(ev) => Started(g, ev) case Append(ev) => Appended(g, ev)
  }

  /** The ledger after transactions that all committed. */
  function Live(steps: seq<Step>): Option<Ledger> {
    if |steps| == 0 then Some(EMPTY)
    else
      var before := Live(steps[..|steps| - 1]);
      if before.None? then None else Take(before.value, steps[|steps| - 1])
  }

  lemma {:induction false} RowsNeedRuns(t: Tables, ws: seq<Write>, k: Key)
    requires k in t
    ensures k in Apply(t, ws)
    decreases |ws|
  {
    if |ws| > 0 { RowsNeedRuns(t[ws[0].key := ws[0].row], ws[1..], k); }
  }

  /** Writing the run row early makes no difference. */
  lemma StartIsProjected(t: Tables, ev: Event)
    requires ev.body.RunStarted? && ev.body.digest != "" && RunK(ev.run) !in t
    ensures Project(t[RunK(ev.run) := FirstRunRow(ev.body, ev.body.digest, ev.at)], ev) == Project(t, ev)
  {
    var row := FirstRunRow(ev.body, ev.body.digest, ev.at);
    var s := t[RunK(ev.run) := row];
    SameParams(t, s, ev.run, ev.body.params);
    var ws := ParamWrites(t, ev.run, ev.body.params);
    assert Writes(s, ev).value == [] + ws == ws;
    assert Writes(t, ev).value == [Write(RunK(ev.run), row)] + ws;
    assert ([Write(RunK(ev.run), row)] + ws)[1..] == ws;
  }

  lemma {:induction false} SameParams(t: Tables, s: Tables, r: RunId, params: seq<Param>)
    requires forall name :: ParamK(r, name) in t <==> ParamK(r, name) in s
    ensures ParamWrites(t, r, params) == ParamWrites(s, r, params)
  {
    if |params| > 0 { SameParams(t, s, r, params[1..]); }
  }

  /** The live tables are the fold of the log. */
  lemma {:induction false} LiveIsFold(steps: seq<Step>)
    requires Live(steps).Some?
    ensures Fold(Live(steps).value.log) == Some(Live(steps).value.tables)
  {
    hide Project;
    if |steps| > 0 {
      LiveIsFold(steps[..|steps| - 1]);
      var g, ev := Live(steps[..|steps| - 1]).value, steps[|steps| - 1].ev;
      assert (g.log + [ev])[..|g.log|] == g.log;
      if steps[|steps| - 1].StartRun? {
        StartIsProjected(g.tables, ev);
      }
    }
  }

  ghost predicate Increasing(evs: seq<Event>) {
    forall i, j :: 0 <= i < j < |evs| ==> evs[i].sequence < evs[j].sequence
  }

  lemma {:induction false} HistoryBelowMax(log: seq<Event>, r: RunId)
    ensures forall i :: 0 <= i < |History(log, r)| ==> History(log, r)[i].sequence <= MaxSequence(log, r)
  {
    if |log| > 0 { HistoryBelowMax(log[..|log| - 1], r); }
  }

  /** Each run's history carries strictly increasing sequence numbers. */
  lemma {:induction false} LiveHistoriesIncrease(steps: seq<Step>, r: RunId)
    requires Live(steps).Some?
    ensures Increasing(History(Live(steps).value.log, r))
  {
    hide Project;
    if |steps| > 0 {
      LiveHistoriesIncrease(steps[..|steps| - 1], r);
      var g, ev := Live(steps[..|steps| - 1]).value, steps[|steps| - 1].ev;
      HistoryBelowMax(g.log, r);
      assert (g.log + [ev])[..|g.log|] == g.log;
    }
  }

  /** An event is appended exactly if its key and id are new, its number is greater than those of its run's events, its
      run has a row, the events it refers to are there, and it can be projected. */
  lemma AppendsExactlyWhen(g: Ledger, ev: Event)
    ensures Appended(g, ev).Some? <==>
            && (forall e :: e in g.log ==> e.id != ev.id && (ev.key != "" ==> e.key != ev.key))
            && ev.sequence > 0 && (forall e :: e in g.log && e.run == ev.run ==> e.sequence < ev.sequence)
            && RunK(ev.run) in g.tables && (ev.causation.Some? ==> exists e :: e in g.log && e.id == ev.causation.value)
            && (ev.body.WaitCompleted? && ev.body.received.Some? ==>
                  exists e :: e in g.log && e.id == ev.body.received.value)
            && Project(g.tables, ev).Some?
    ensures Appended(g, ev).Some? ==>
              Appended(g, ev) == Some(Ledger(g.log + [ev], Project(g.tables, ev).value))
  {
    hide Project;
    MaxIsLeast(g.log, ev.run, ev.sequence);
    HasIdIs(g.log, ev.id);
    if ev.causation.Some? { HasIdIs(g.log, ev.causation.value); }
    if ev.body.WaitCompleted? && ev.body.received.Some? { HasIdIs(g.log, ev.body.received.value); }
    assert HasKey(g.log, ev.key) <==> exists e :: e in g.log && e.key == ev.key by {
      if e :| e in g.log && e.key == ev.key { var i :| 0 <= i < |g.log| && g.log[i] == e; }
    }
  }

  lemma HasIdIs(log: seq<Event>, id: Id)
    ensures HasId(log, id) <==> exists e :: e in log && e.id == id
  {
    if e :| e in log && e.id == id { var i :| 0 <= i < |log| && log[i] == e; }
  }

  lemma {:induction false} MaxIsLeast(log: seq<Event>, r: RunId, bound: int)
    ensures MaxSequence(log, r) < bound <==> bound > 0 && forall e :: e in log && e.run == r ==> e.sequence < bound
  {
    if |log| > 0 {
      MaxIsLeast(log[..|log| - 1], r, bound);
      assert log == log[..|log| - 1] + [log[|log| - 1]];
    }
  }

  /** No two events of a live log have one id, and none but empty keys repeat. */
  lemma {:induction false} LiveKeysAreUnique(steps: seq<Step>)
    requires Live(steps).Some?
    ensures var log := Live(steps).value.log;
            forall i, j :: 0 <= i < j < |log| ==>
                           log[i].id != log[j].id && (log[i].key == log[j].key ==> log[i].key == "")
  {
    hide Project;
    if |steps| > 0 { LiveKeysAreUnique(steps[..|steps| - 1]); }
  }

  // ---- replaying by run and sequence ----

  predicate Before(a: Event, b: Event) { a.run < b.run || (a.run == b.run && a.sequence < b.sequence) }

  /** The log in the order in which a rebuild reads it. */
  ghost predicate IsReplayOrder(log: seq<Event>, ordered: seq<Event>) {
    multiset(ordered) == multiset(log) && forall i, j :: 0 <= i < j < |ordered| ==> Before(ordered[i], ordered[j])
  }

  lemma {:induction false} HistoryCounts(evs: seq<Event>, r: RunId, e: Event)
    ensures multiset(History(evs, r))[e] == if e.run == r then multiset(evs)[e] else 0
  {
    if |evs| > 0 {
      HistoryCounts(evs[..|evs| - 1], r, e);
      assert evs == evs[..|evs| - 1] + [evs[|evs| - 1]];
    }
  }

  lemma SameLast(p: seq<Event>, q: seq<Event>)
    requires Increasing(p) && Increasing(q) && multiset(p) == multiset(q) && |p| == |q| > 0
    ensures p[|p| - 1] == q[|q| - 1]
  {
    var n := |p| - 1;
    assert p[n] in multiset(q) && q[n] in multiset(p);
    var i :| 0 <= i <= n && q[i] == p[n];
    var j :| 0 <= j <= n && p[j] == q[n];
  }

  lemma WithoutLast(p: seq<Event>)
    requires |p| > 0
    ensures multiset(p[..|p| - 1]) == multiset(p) - multiset{p[|p| - 1]}
  {
    assert p == p[..|p| - 1] + [p[|p| - 1]];
  }

  lemma SameLength(p: seq<Event>, q: seq<Event>)
    requires multiset(p) == multiset(q)
    ensures |p| == |q|
  {
    assert |multiset(p)| == |p| && |multiset(q)| == |q|;
  }

  lemma {:induction false} SameIncreasing(p: seq<Event>, q: seq<Event>)
    requires Increasing(p) && Increasing(q) && multiset(p) == multiset(q)
    ensures p == q
    decreases |p|
  {
    SameLength(p, q);
    if |p| > 0 {
      var x, p', q' := p[|p| - 1], p[..|p| - 1], q[..|q| - 1];
      SameLast(p, q);
      WithoutLast(p);
      WithoutLast(q);
      assert p == p' + [x];
      assert q == q' + [x];
      hide Increasing;
      PrefixIncreases(p);
      PrefixIncreases(q);
      SameIncreasing(p', q');
    }
  }

  lemma PrefixIncreases(p: seq<Event>)
    requires Increasing(p) && |p| > 0
    ensures Increasing(p[..|p| - 1])
  {
  }

  lemma {:induction false} OrderedHistory(ordered: seq<Event>, r: RunId)
    requires forall i, j :: 0 <= i < j < |ordered| ==> Before(ordered[i], ordered[j])
    ensures Increasing(History(ordered, r))
    ensures forall e :: e in History(ordered, r) ==> e in ordered && e.run == r
  {
    if |ordered| > 0 { OrderedHistory(ordered[..|ordered| - 1], r); }
  }

  /** Reading in replay order keeps every run's history as it was. */
  lemma ReplayKeepsHistories(log: seq<Event>, ordered: seq<Event>, r: RunId)
    requires IsReplayOrder(log, ordered) && Increasing(History(log, r))
    ensures History(ordered, r) == History(log, r)
  {
    OrderedHistory(ordered, r);
    forall e
      ensures multiset(History(ordered, r))[e] == multiset(History(log, r))[e]
    {
      HistoryCounts(ordered, r, e);
      HistoryCounts(log, r, e);
    }
    SameIncreasing(History(ordered, r), History(log, r));
  }

  lemma {:induction false} HistoryJoins(a: seq<Event>, b: seq<Event>, r: RunId)
    ensures History(a + b, r) == History(a, r) + History(b, r)
  {
    if |b| == 0 {
      assert a + b == a;
    } else {
      assert (a + b)[..|a + b| - 1] == a + b[..|b| - 1];
      HistoryJoins(a, b[..|b| - 1], r);
    }
  }

  lemma {:induction false} HistoryOfOthers(evs: seq<Event>, r: RunId)
    requires forall i :: 0 <= i < |evs| ==> evs[i].run != r
    ensures History(evs, r) == []
  {
    if |evs| > 0 { HistoryOfOthers(evs[..|evs| - 1], r); }
  }

  /** When a run's event is read, runs before it are complete and runs after it have not begun. */
  lemma OrderGroupsRuns(ordered: seq<Event>, n: nat, r: RunId)
    requires forall i, j :: 0 <= i < j < |ordered| ==> Before(ordered[i], ordered[j])
    requires n < |ordered| && r != ordered[n].run
    ensures History(ordered[..n], r) == if r < ordered[n].run then History(ordered, r) else []
  {
    if r < ordered[n].run {
      HistoryOfOthers(ordered[n..], r);
      HistoryJoins(ordered[..n], ordered[n..], r);
      assert ordered[..n] + ordered[n..] == ordered;
    } else {
      HistoryOfOthers(ordered[..n], r);
    }
  }

  // ---- which waits a history has requested ----

  predicate RequestsKey(ev: Event, k: Key) { ev.body.WaitRequested? && WaitOf(ev.body.wait, ev) == k }

  lemma {:induction false} ApplyKeys(t: Tables, ws: seq<Write>, k: Key)
    ensures k in Apply(t, ws) <==> k in t || exists i :: 0 <= i < |ws| && ws[i].key == k
    decreases |ws|
  {
    if |ws| > 0 { ApplyKeys(t[ws[0].key := ws[0].row], ws[1..], k); }
  }

  ghost predicate NoWaits(ws: seq<Write>) { forall i :: 0 <= i < |ws| ==> !ws[i].key.WaitK? }

  lemma {:induction false} ParamsAreNoWaits(t: Tables, r: RunId, params: seq<Param>)
    ensures NoWaits(ParamWrites(t, r, params))
  {
    if |params| > 0 { ParamsAreNoWaits(t, r, params[1..]); }
  }

  lemma {:induction false} LinksAreNoWaits(t: Tables, ev: Event, links: seq<Link>, i: nat)
    ensures NoWaits(LinkWrites(t, ev, links, i))
    decreases |links|
  {
    if |links| > 0 { LinksAreNoWaits(t, ev, links[1..], i + 1); }
  }

  predicate EndsWait(b: Body) { b.WaitCompleted? || b.WaitExpired? || b.WaitCancelled? }

  lemma StartMakesNoWaits(t: Tables, ev: Event)
    requires ev.body.NodeStarted? && OnNodeStarted(t, ev).Some?
    ensures NoWaits(OnNodeStarted(t, ev).value)
  {
    hide NodeAfter, NodeOf, AttemptAt, RunRowOf;
  }

  lemma EndMakesNoWaits(t: Tables, ev: Event)
    requires ev.body.NodeEnded? && OnNodeEnded(t, ev).Some?
    ensures NoWaits(OnNodeEnded(t, ev).value)
  {
    hide NodeAfter, NodeOf, AttemptAt, LatestAttempt, EndedAttempt;
  }

  lemma RunEndMakesNoWaits(t: Tables, ev: Event)
    requires ev.body.RunEnded? && OnRunEnded(t, ev).Some?
    ensures NoWaits(OnRunEnded(t, ev).value)
  {
    hide RunRowOf;
  }

  lemma OthersMakeNoWaits(t: Tables, ev: Event)
    requires !ev.body.WaitRequested? && !EndsWait(ev.body) && Writes(t, ev).Some?
    ensures NoWaits(Writes(t, ev).value)
  {
    hide NodeAfter, NodeOf, AttemptAt, FirstRunRow, RunRowOf, HasNode, OnNodeStarted, OnNodeEnded, OnRunEnded;
    match ev.body
    case NodeStarted(_, _, _, _, _, _, _) => StartMakesNoWaits(t, ev);
    case NodeEnded(_, _, _, _, _, _, _) => EndMakesNoWaits(t, ev);
    case RunEnded(_, _) => RunEndMakesNoWaits(t, ev);
    case RunStarted(_, _, _, params, _, _, _) => ParamsAreNoWaits(t, ev.run, params);
    case DecisionRecorded(_, _, links) => LinksAreNoWaits(t, ev, links, 0);
    case _ =>
  }

  /** Only external_wait_requested makes wait rows. */
  lemma WaitsComeFromRequests(t: Tables, ev: Event, k: Key)
    requires k.WaitK? && Writes(t, ev).Some?
    ensures k in Apply(t, Writes(t, ev).value) <==> k in t || RequestsKey(ev, k)
  {
    var ws := Writes(t, ev).value;
    ApplyKeys(t, ws, k);
    if !ev.body.WaitRequested? && !EndsWait(ev.body) {
      hide Writes;
      OthersMakeNoWaits(t, ev);
    } else if RequestsKey(ev, k) && k !in t {
      assert ws[|ws| - 1].key == k;
    }
  }

  lemma {:induction false} WaitRows(evs: seq<Event>, k: Key)
    requires k.WaitK? && Fold(evs).Some?
    ensures k in Fold(evs).value <==> exists i :: 0 <= i < |evs| && RequestsKey(evs[i], k)
  {
    hide Writes, IndexRefuses, RequestsKey;
    if |evs| > 0 {
      var init, ev := evs[..|evs| - 1], evs[|evs| - 1];
      WaitRows(init, k);
      WaitsComeFromRequests(Fold(init).value, ev, k);
      assert forall i :: 0 <= i < |init| ==> evs[i] == init[i];
    }
  }

  // ---- when a rebuild succeeds, and what it builds ----

  /** Event m of run r's history makes a wait: none before it in the run asked for the same id. */
  ghost predicate NewRequest(h: seq<Event>, m: nat) {
    m < |h| && h[m].body.WaitRequested? &&
    forall i :: 0 <= i < m ==> !RequestsKey(h[i], WaitOf(h[m].body.wait, h[m]))
  }

  /** An earlier run ends with a pending wait on the pair that event m of run r once asked for. */
  ghost predicate Clash(t: Tables, log: seq<Event>, r: RunId, m: nat) {
    && NewRequest(History(log, r), m)
    && exists o :: o in t && o.Owner() < r &&
         HoldsPair(t, o, WaitOf(History(log, r)[m].body.wait, History(log, r)[m]), History(log, r)[m].body.eventType,
                   History(log, r)[m].body.correlationKey)
  }

  lemma {:induction false} PrefixFolds(evs: seq<Event>, n: nat)
    requires n <= |evs| && Fold(evs).Some?
    ensures Fold(evs[..n]).Some?
    decreases |evs|
  {
    if n < |evs| {
      PrefixFolds(evs[..|evs| - 1], n);
      assert evs[..|evs| - 1][..n] == evs[..n];
    } else {
      assert evs[..n] == evs;
    }
  }

  /** The run's own earlier events never refuse the event, since they did not when it was appended. */
  lemma OwnHistoryAccepts(log: seq<Event>, r: RunId, m: nat)
    requires AllLocal(log) && Fold(log).Some? && m < |History(log, r)|
    ensures Fold(History(log, r)[..m]).Some?
    ensures Project(Fold(History(log, r)[..m]).value, History(log, r)[m]).Some?
  {
    var h := History(log, r);
    FoldByRun(log, r);
    PrefixFolds(h, m);
    PrefixFolds(h, m + 1);
    assert h[..m + 1][..m] == h[..m];
  }

  /** The tables a rebuild has reached before event n agree with the final ones on finished runs. */
  ghost predicate Reached(t: Tables, ordered: seq<Event>, n: nat, s: Tables)
    requires n < |ordered|
  {
    && (forall o: Key :: o.Owner() < ordered[n].run ==> (o in s <==> o in t) && (o in s ==> s[o] == t[o]))
    && (forall o: Key :: ordered[n].run < o.Owner() ==> o !in s)
  }

  lemma FoldOfNothing()
    ensures Fold([]) == Some(map[])
  {
  }

  lemma ReachedState(log: seq<Event>, t: Tables, ordered: seq<Event>, n: nat)
    requires AllLocal(log) && AllLocal(ordered) && Fold(log) == Some(t) && n < |ordered| && Fold(ordered[..n]).Some?
    requires forall i, j :: 0 <= i < j < |ordered| ==> Before(ordered[i], ordered[j])
    requires forall r :: History(ordered, r) == History(log, r)
    ensures Reached(t, ordered, n, Fold(ordered[..n]).value)
  {
    hide Fold, History;
    var s := Fold(ordered[..n]).value;
    assert AllLocal(ordered[..n]);
    FoldOfNothing();
    forall o: Key | o.Owner() != ordered[n].run
      ensures o.Owner() < ordered[n].run ==> (o in s <==> o in t) && (o in s ==> s[o] == t[o])
      ensures ordered[n].run < o.Owner() ==> o !in s
    {
      OrderGroupsRuns(ordered, n, o.Owner());
      FoldByRun(ordered[..n], o.Owner());
      FoldByRun(log, o.Owner());
    }
  }

  /** Reading one more event in replay order fails exactly when it clashes. */
  lemma ReplayStep(log: seq<Event>, t: Tables, ordered: seq<Event>, n: nat, m: nat)
    requires AllLocal(log) && AllLocal(ordered) && Fold(log) == Some(t) && n < |ordered| && Fold(ordered[..n]).Some?
    requires forall i, j :: 0 <= i < j < |ordered| ==> Before(ordered[i], ordered[j])
    requires forall r :: History(ordered, r) == History(log, r)
    requires m < |History(log, ordered[n].run)| && History(log, ordered[n].run)[m] == ordered[n]
    requires History(ordered[..n], ordered[n].run) == History(log, ordered[n].run)[..m]
    ensures Project(Fold(ordered[..n]).value, ordered[n]).None? <==> Clash(t, log, ordered[n].run, m)
  {
    hide Project, Fold, History, Clash, IndexRefuses, HoldsPair;
    var s, ev := Fold(ordered[..n]).value, ordered[n];
    var h := History(log, ev.run);
    assert AllLocal(ordered[..n]);
    OwnHistoryAccepts(log, ev.run, m);
    var own := Fold(h[..m]).value;
    FoldByRun(ordered[..n], ev.run);
    ProjectIsLocal(s, own, ev);
    ReachedState(log, t, ordered, n);
    RefusesWhenClashing(t, log, ev.run, m, s, own);
  }

  lemma RefusesWhenClashing(t: Tables, log: seq<Event>, r: RunId, m: nat, s: Tables, own: Tables)
    requires m < |History(log, r)| && LocalIds(History(log, r)[m])
    requires History(log, r)[m].run == r && Fold(History(log, r)[..m]) == Some(own)
    requires Agree(s, own, r) && !IndexRefuses(own, History(log, r)[m])
    requires forall o: Key :: o.Owner() < r ==> (o in s <==> o in t) && (o in s ==> s[o] == t[o])
    requires forall o: Key :: r < o.Owner() ==> o !in s
    ensures IndexRefuses(s, History(log, r)[m]) <==> Clash(t, log, r, m)
  {
    var h := History(log, r);
    var ev := h[m];
    if !ev.body.WaitRequested? { return; }
    var k := WaitOf(ev.body.wait, ev);
    WaitRows(h[..m], k);
    assert forall i :: 0 <= i < m ==> h[..m][i] == h[i];
    assert k !in s <==> NewRequest(h, m);
    hide NewRequest, Fold, LocalIds;
    PairsAgree(s, t, own, k, r, ev.body.eventType, ev.body.correlationKey);
  }

  /** An earlier run holds the pair in t exactly when some run holds it in s. */
  lemma PairsAgree(s: Tables, t: Tables, own: Tables, k: Key, r: RunId, eventType: string, correlationKey: string)
    requires k.Owner() == r && Agree(s, own, r) && (k !in own ==> !PairTaken(own, k, eventType, correlationKey))
    requires forall o: Key :: o.Owner() < r ==> (o in s <==> o in t) && (o in s ==> s[o] == t[o])
    requires forall o: Key :: r < o.Owner() ==> o !in s
    ensures k !in s ==> (PairTaken(s, k, eventType, correlationKey) <==>
                           exists o :: o in t && o.Owner() < r && HoldsPair(t, o, k, eventType, correlationKey))
  {
    if k !in s && PairTaken(s, k, eventType, correlationKey) {
      var o :| o in s && HoldsPair(s, o, k, eventType, correlationKey);
      assert o in own ==> !HoldsPair(own, o, k, eventType, correlationKey);
      assert o.Owner() != r;
      assert HoldsPair(t, o, k, eventType, correlationKey);
    }
    if o :| o in t && o.Owner() < r && HoldsPair(t, o, k, eventType, correlationKey) {
      assert HoldsPair(s, o, k, eventType, correlationKey);
    }
  }

  /** None of the events that these histories hold clashes. */
  ghost predicate NoneClashes(t: Tables, log: seq<Event>, read: seq<Event>) {
    forall r, m {:trigger Clash(t, log, r, m)} :: 0 <= m < |History(read, r)| ==> !Clash(t, log, r, m)
  }

  lemma HistoryGrows(read: seq<Event>, ev: Event, r: RunId)
    ensures History(read + [ev], r) == History(read, r) + if r == ev.run then [ev] else []
  {
    assert (read + [ev])[..|read|] == read;
  }

  lemma OneMoreClashes(t: Tables, log: seq<Event>, read: seq<Event>, ev: Event)
    ensures NoneClashes(t, log, read + [ev]) <==>
            NoneClashes(t, log, read) && !Clash(t, log, ev.run, |History(read, ev.run)|)
  {
    hide Clash, History;
    var all, m := read + [ev], |History(read, ev.run)|;
    forall r
      ensures |History(all, r)| == |History(read, r)| + if r == ev.run then 1 else 0
    {
      HistoryGrows(read, ev, r);
    }
    if NoneClashes(t, log, read) && !Clash(t, log, ev.run, m) {
      forall r, k | 0 <= k < |History(all, r)|
        ensures !Clash(t, log, r, k)
      {
      }
    }
    if NoneClashes(t, log, all) {
      assert !Clash(t, log, ev.run, m);
      forall r, k | 0 <= k < |History(read, r)|
        ensures !Clash(t, log, r, k)
      {
      }
    }
  }

  lemma ReadIsPrefix(log: seq<Event>, ordered: seq<Event>, n: nat, r: RunId)
    requires n <= |ordered| && History(ordered, r) == History(log, r)
    ensures History(ordered[..n], r) <= History(log, r)
  {
    HistoryJoins(ordered[..n], ordered[n..], r);
    assert ordered[..n] + ordered[n..] == ordered;
  }

  lemma FoldNext(evs: seq<Event>, n: nat)
    requires 0 < n <= |evs|
    ensures Fold(evs[..n]) == if Fold(evs[..n - 1]).None? then None else Project(Fold(evs[..n - 1]).value, evs[n - 1])
  {
    assert evs[..n][..n - 1] == evs[..n - 1];
  }

  lemma {:induction false} ReplayPrefix(log: seq<Event>, t: Tables, ordered: seq<Event>, n: nat)
    requires AllLocal(log) && AllLocal(ordered) && Fold(log) == Some(t) && n <= |ordered|
    requires forall i, j :: 0 <= i < j < |ordered| ==> Before(ordered[i], ordered[j])
    requires forall r :: History(ordered, r) == History(log, r)
    ensures Fold(ordered[..n]).Some? <==> NoneClashes(t, log, ordered[..n])
  {
    hide Clash, Project, AllLocal, Before, NoneClashes, History, Fold;
    if n == 0 {
      NoneReadNoneClash(t, log, ordered[..0]);
      FoldOfNothing();
      assert ordered[..0] == [];
    } else {
      var ev := ordered[n - 1];
      assert ordered[..n] == ordered[..n - 1] + [ev];
      ReplayPrefix(log, t, ordered, n - 1);
      ReadIsPrefix(log, ordered, n, ev.run);
      ReadIsPrefix(log, ordered, n - 1, ev.run);
      HistoryGrows(ordered[..n - 1], ev, ev.run);
      OneMoreClashes(t, log, ordered[..n - 1], ev);
      FoldNext(ordered, n);
      if Fold(ordered[..n - 1]).Some? {
        ReplayStep(log, t, ordered, n - 1, |History(ordered[..n - 1], ev.run)|);
      }
    }
  }

  lemma NoneReadNoneClash(t: Tables, log: seq<Event>, read: seq<Event>)
    requires read == []
    ensures NoneClashes(t, log, read)
  {
  }

  lemma AllLocalPermutes(log: seq<Event>, ordered: seq<Event>)
    requires AllLocal(log) && multiset(ordered) == multiset(log)
    ensures AllLocal(ordered)
  {
    forall i | 0 <= i < |ordered|
      ensures LocalIds(ordered[i])
    {
      assert ordered[i] in multiset(log);
    }
  }

  /** Replaying a log by run and sequence succeeds exactly when no wait request clashes with a pending
      wait of an earlier run, and then it gives the tables the log gave in its own order. */
  lemma ReplayTheorem(log: seq<Event>, t: Tables, ordered: seq<Event>)
    requires Fold(log) == Some(t) && AllLocal(log) && IsReplayOrder(log, ordered)
    requires forall r :: Increasing(History(log, r))
    ensures Fold(ordered).Some? <==> forall r, m {:trigger Clash(t, log, r, m)} :: !Clash(t, log, r, m)
    ensures Fold(ordered).Some? ==> Fold(ordered).value == t
  {
    AllLocalPermutes(log, ordered);
    forall r
      ensures History(ordered, r) == History(log, r)
    {
      ReplayKeepsHistories(log, ordered, r);
    }
    assert ordered[..|ordered|] == ordered;
    ReplayPrefix(log, t, ordered, |ordered|);
    if Fold(ordered).Some? {
      var s := Fold(ordered).value;
      forall k: Key
        ensures (k in s <==> k in t) && (k in s ==> s[k] == t[k])
      {
        FoldByRun(ordered, k.Owner());
        FoldByRun(log, k.Owner());
      }
      assert s == t;
    }
  }

  /** Rebuilding the tables of a live ledger. */
  lemma RebuildTheorem(steps: seq<Step>, ordered: seq<Event>)
    requires Live(steps).Some? && AllLocal(Live(steps).value.log)
    requires IsReplayOrder(Live(steps).value.log, ordered)
    ensures var g := Live(steps).value;
            Fold(ordered).Some? <==>
            forall r, m {:trigger Clash(g.tables, g.log, r, m)} :: !Clash(g.tables, g.log, r, m)
    ensures Fold(ordered).Some? ==> Fold(ordered).value == Live(steps).value.tables
  {
    hide Clash;
    var g := Live(steps).value;
    LiveIsFold(steps);
    forall r
      ensures Increasing(History(g.log, r))
    {
      LiveHistoriesIncrease(steps, r);
    }
    ReplayTheorem(g.log, g.tables, ordered);
  }

  // ---- a ledger whose rebuild fails ----

  function StartEvent(r: RunId): Event {
    Event(Id(r, 0), r, 1, 1, None, "", RunStarted("v", "d", "", [], "", "", 0))
  }

  function RequestEvent(r: RunId): Event {
    Event(Id(r, 1), r, 2, 1, None, "", WaitRequested(None, "gate", "check_run", "sha", "{}", 0))
  }

  function CompleteEvent(r: RunId): Event {
    Event(Id(r, 2), r, 3, 1, None, "", WaitCompleted(Some(Id(r, 1)), None, ""))
  }

  /** Run 1 and run 2 start in this order; run 2 waits and completes, then run 1 waits on the same pair. */
  const REUSED_PAIR := [StartRun(StartEvent(1)), StartRun(StartEvent(2)), Append(RequestEvent(2)),
                        Append(CompleteEvent(2)), Append(RequestEvent(1))]

  function Ledger1(): Ledger {
    Ledger([StartEvent(1)], map[RunK(1) := FirstRunRow(StartEvent(1).body, "d", 1)])
  }

  function Ledger2(): Ledger {
    Ledger(Ledger1().log + [StartEvent(2)], Ledger1().tables[RunK(2) := FirstRunRow(StartEvent(2).body, "d", 1)])
  }

  function PendingRow(): Row {
    WaitRow("gate", "v", "d", "check_run", "sha", "{}", WPending, None, None, None, 1, None)
  }

  function Ledger3(): Ledger {
    Ledger(Ledger2().log + [RequestEvent(2)],
           Ledger2().tables[NodeK(2, "gate") := NodeR(PENDING)][WaitK(Id(2, 1)) := PendingRow()])
  }

  function Ledger4(): Ledger {
    Ledger(Ledger3().log + [CompleteEvent(2)],
           Ledger3().tables[WaitK(Id(2, 1)) := PendingRow().(wait := WCompleted, completedAt := Some(1))])
  }

  function Ledger5(): Ledger {
    Ledger(Ledger4().log + [RequestEvent(1)],
           Ledger4().tables[NodeK(1, "gate") := NodeR(PENDING)][WaitK(Id(1, 1)) := PendingRow()])
  }

  lemma ApplyTwo(t: Tables, a: Write, b: Write)
    ensures Apply(t, []) == t && Apply(t, [a]) == t[a.key := a.row]
    ensures Apply(t, [a, b]) == t[a.key := a.row][b.key := b.row]
  {
    assert [a][1..] == [] && [b][1..] == [] && [a, b][1..] == [b];
    var t1 := t[a.key := a.row];
    assert Apply(t1, []) == t1;
    assert Apply(t1, [b]) == Apply(t1[b.key := b.row], []);
    assert Apply(t, [a, b]) == Apply(t1, [b]);
  }

  lemma StartTakes(g: Ledger, r: RunId)
    requires RunK(r) !in g.tables && MaxSequence(g.log, r) == 0 && !HasId(g.log, Id(r, 0))
    ensures Started(g, StartEvent(r)) ==
            Some(Ledger(g.log + [StartEvent(r)], g.tables[RunK(r) := FirstRunRow(StartEvent(r).body, "d", 1)]))
  {
    var ev := StartEvent(r);
    var w := Write(RunK(r), FirstRunRow(ev.body, "d", 1));
    StartIsProjected(g.tables, ev);
    ApplyTwo(g.tables, w, w);
    assert ev.body.digest == "d" && |ev.body.digest| == 1;
    assert ParamWrites(g.tables, r, []) == [];
    assert Writes(g.tables, ev).value == [w] + [] == [w];
    assert Project(g.tables, ev) == Some(g.tables[w.key := w.row]);
    assert MayAppend(g.(tables := g.tables[w.key := w.row]), ev);
  }

  lemma RequestTakes(g: Ledger, r: RunId)
    requires RunK(r) in g.tables && g.tables[RunK(r)] == FirstRunRow(StartEvent(r).body, "d", 1)
    requires NodeK(r, "gate") !in g.tables && WaitK(Id(r, 1)) !in g.tables && MaxSequence(g.log, r) == 1
    requires !HasId(g.log, Id(r, 1))
    requires forall k :: k in g.tables ==> !IsPendingWait(g.tables, k)
    ensures Appended(g, RequestEvent(r)) ==
            Some(Ledger(g.log + [RequestEvent(r)],
                        g.tables[NodeK(r, "gate") := NodeR(PENDING)][WaitK(Id(r, 1)) := PendingRow()]))
  {
    var ev := RequestEvent(r);
    var a, b := Write(NodeK(r, "gate"), NodeR(PENDING)), Write(WaitK(Id(r, 1)), PendingRow());
    ApplyTwo(g.tables, a, b);
    assert Writes(g.tables, ev).value == [a] + [b] == [a, b];
  }

  lemma CompleteTakes(g: Ledger)
    requires RunK(2) in g.tables && IsPendingWait(g.tables, WaitK(Id(2, 1)))
    requires g.tables[WaitK(Id(2, 1))] == PendingRow()
    requires MaxSequence(g.log, 2) == 2 && !HasId(g.log, Id(2, 2))
    ensures Appended(g, CompleteEvent(2)) ==
            Some(Ledger(g.log + [CompleteEvent(2)],
                        g.tables[WaitK(Id(2, 1)) := PendingRow().(wait := WCompleted, completedAt := Some(1))]))
  {
    var w := Write(WaitK(Id(2, 1)), PendingRow().(wait := WCompleted, completedAt := Some(1)));
    ApplyTwo(g.tables, w, w);
    assert Writes(g.tables, CompleteEvent(2)) == Some([w]);
  }

  lemma {:induction false} LiveStep(steps: seq<Step>, n: nat, g: Ledger)
    requires n < |steps| && Live(steps[..n]) == Some(g)
    ensures Live(steps[..n + 1]) == Take(g, steps[n])
  {
    assert steps[..n + 1][..n] == steps[..n];
  }

  lemma MaxOfAppended(log: seq<Event>, ev: Event, r: RunId)
    ensures MaxSequence(log + [ev], r) ==
            if ev.run == r then Max(MaxSequence(log, r), ev.sequence) else MaxSequence(log, r)
    ensures forall id :: HasId(log + [ev], id) <==> HasId(log, id) || ev.id == id
  {
    assert (log + [ev])[..|log|] == log;
    assert (log + [ev])[|log|] == ev;
    forall id | HasId(log, id)
      ensures HasId(log + [ev], id)
    {
      var i :| 0 <= i < |log| && log[i].id == id;
      assert (log + [ev])[i].id == id;
    }
  }

  lemma ExampleStep1()
    ensures Take(EMPTY, REUSED_PAIR[0]) == Some(Ledger1())
  {
    StartTakes(EMPTY, 1);
    assert [] + [StartEvent(1)] == Ledger1().log;
  }

  lemma NothingYet(r: RunId)
    ensures MaxSequence([], r) == 0 && forall id :: !HasId([], id)
  {
  }

  /** The sequences and ids after the first event. */
  lemma FirstFacts(r: RunId)
    ensures MaxSequence(Ledger1().log, r) == if r == 1 then 1 else 0
    ensures forall id :: HasId(Ledger1().log, id) <==> id == Id(1, 0)
  {
    hide MaxSequence, HasId, FirstRunRow;
    NothingYet(r);
    MaxOfAppended([], StartEvent(1), r);
    assert [] + [StartEvent(1)] == [StartEvent(1)];
  }

  lemma ExampleStep2()
    ensures Take(Ledger1(), REUSED_PAIR[1]) == Some(Ledger2())
  {
    FirstFacts(2);
    StartTakes(Ledger1(), 2);
  }

  lemma SecondFacts(r: RunId)
    ensures MaxSequence(Ledger2().log, r) == if r == 1 || r == 2 then 1 else 0
    ensures forall id :: HasId(Ledger2().log, id) <==> id == Id(1, 0) || id == Id(2, 0)
  {
    FirstFacts(r);
    MaxOfAppended(Ledger1().log, StartEvent(2), r);
  }

  lemma ExampleStep3()
    ensures Take(Ledger2(), REUSED_PAIR[2]) == Some(Ledger3())
  {
    SecondFacts(2);
    RequestTakes(Ledger2(), 2);
  }

  lemma ExampleStep4()
    ensures Take(Ledger3(), REUSED_PAIR[3]) == Some(Ledger4())
  {
    SecondFacts(2);
    MaxOfAppended(Ledger2().log, RequestEvent(2), 2);
    CompleteTakes(Ledger3());
  }

  lemma ExampleStep5()
    ensures Take(Ledger4(), REUSED_PAIR[4]) == Some(Ledger5())
  {
    SecondFacts(1);
    MaxOfAppended(Ledger2().log, RequestEvent(2), 1);
    MaxOfAppended(Ledger3().log, CompleteEvent(2), 1);
    RequestTakes(Ledger4(), 1);
  }

  /** The live run of the example. */
  lemma ReusedPairIsLive()
    ensures Live(REUSED_PAIR) == Some(Ledger5())
  {
    hide Take, Ledger1, Ledger2, Ledger3, Ledger4, Ledger5;
    var s := REUSED_PAIR;
    assert s[..5] == s && s[..0] == [];
    ExampleStep1();
    LiveStep(s, 0, EMPTY);
    ExampleStep2();
    LiveStep(s, 1, Ledger1());
    ExampleStep3();
    LiveStep(s, 2, Ledger2());
    ExampleStep4();
    LiveStep(s, 3, Ledger3());
    ExampleStep5();
    LiveStep(s, 4, Ledger4());
  }

  lemma RunTwoHistory()
    ensures History(Ledger5().log, 2) == [StartEvent(2), RequestEvent(2), CompleteEvent(2)]
  {
    hide History;
    HistoryOfOthers(Ledger1().log, 2);
    HistoryGrows(Ledger1().log, StartEvent(2), 2);
    HistoryGrows(Ledger2().log, RequestEvent(2), 2);
    HistoryGrows(Ledger3().log, CompleteEvent(2), 2);
    HistoryGrows(Ledger4().log, RequestEvent(1), 2);
  }

  lemma ExampleClashes()
    ensures Clash(Ledger5().tables, Ledger5().log, 2, 1) && AllLocal(Ledger5().log)
  {
    RunTwoHistory();
    var o := WaitK(Id(1, 1));
    assert o in Ledger5().tables && HoldsPair(Ledger5().tables, o, WaitK(Id(2, 1)), "check_run", "sha");
  }

  /** A rebuild can fail: the pending-wait index is global, but a replay goes run by run. */
  lemma RebuildCanFail(ordered: seq<Event>)
    requires IsReplayOrder(Ledger5().log, ordered)
    ensures Live(REUSED_PAIR) == Some(Ledger5()) && Fold(ordered).None?
  {
    hide Ledger5, Clash, History, Live, AllLocal;
    ReusedPairIsLive();
    ExampleClashes();
    RebuildTheorem(REUSED_PAIR, ordered);
  }

  // ---- the store ----

  class Store {
    var events: seq<Event>
    var tables: Tables

    ghost function View(): Ledger
      reads this
    {
      Ledger(events, tables)
    }

    constructor ()
      ensures View() == EMPTY
    {
      events, tables := [], map[];
    }

    /** Appends an event with the next sequence number of its run, or changes nothing. */
    method AppendTx(id: Id, run: RunId, at: int, causation: Option<Id>, key: string, body: Body)
      returns (ok: bool, ev: Event)
      modifies this
      ensures ev == Event(id, run, MaxSequence(old(events), run) + 1, at, causation, key, body)
      ensures ok <==> Appended(old(View()), ev).Some?
      ensures View() == if ok then Appended(old(View()), ev).value else old(View())
    {
      ev := Event(id, run, MaxSequence(events, run) + 1, at, causation, key, body);
      ok := AppendEventTx(ev);
    }

    method AppendEventTx(ev: Event) returns (ok: bool)
      modifies this
      ensures ok <==> Appended(old(View()), ev).Some?
      ensures View() == if ok then Appended(old(View()), ev).value else old(View())
    {
      if ev.key != "" && HasKey(events, ev.key) {
        return false;
      }
      if ev.sequence <= MaxSequence(events, ev.run) || HasId(events, ev.id) || RunK(ev.run) !in tables {
        return false;
      }
      if ev.causation.Some? && !HasId(events, ev.causation.value) {
        return false;
      }
      if ev.body.WaitCompleted? && ev.body.received.Some? && !HasId(events, ev.body.received.value) {
        return false;
      }
      var projected := Project(tables, ev);
      if projected.None? {
        return false;
      }
      events := events + [ev];
      tables := projected.value;
      ok := true;
    }

    /** Inserts the run row, then appends run_started; undoes both when the append fails. */
    method StartRunTx(ev: Event) returns (ok: bool)
      requires ev.body.RunStarted? && ev.body.digest != "" && ev.sequence == 1
      modifies this
      ensures ok <==> Started(old(View()), ev).Some?
      ensures View() == if ok then Started(old(View()), ev).value else old(View())
    {
      if RunK(ev.run) in tables {
        return false;
      }
      var before := tables;
      tables := tables[RunK(ev.run) := FirstRunRow(ev.body, ev.body.digest, ev.at)];
      ok := AppendEventTx(ev);
      if !ok {
        tables := before;
      }
    }

    /** Wipes the tables and replays the log; a failing event undoes everything. */
    method RebuildProjections(ordered: seq<Event>) returns (ok: bool, diverged: bool)
      requires IsReplayOrder(events, ordered)
      modifies this`tables
      ensures ok <==> Fold(ordered).Some?
      ensures tables == if ok then Fold(ordered).value else old(tables)
      ensures diverged <==> ok && tables != old(tables)
    {
      var before := tables;
      tables := map[];
      ok, diverged := true, false;
      assert ordered[..|ordered|] == ordered;
      for i := 0 to |ordered|
        invariant Fold(ordered[..i]) == Some(tables)
      {
        assert ordered[..i + 1][..i] == ordered[..i];
        var projected := Project(tables, ordered[i]);
        if projected.None? {
          tables := before;
          FoldStaysFailed(ordered, i + 1);
          return false, false;
        }
        tables := projected.value;
      }
      diverged := tables != before;
    }
  }

  lemma {:induction false} FoldStaysFailed(evs: seq<Event>, n: nat)
    requires n <= |evs| && Fold(evs[..n]).None?
    ensures Fold(evs).None?
  {
    if Fold(evs).Some? { PrefixFolds(evs, n); }
  }
}
