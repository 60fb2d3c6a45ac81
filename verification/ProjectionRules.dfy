/** When an event can be projected, in terms of the rows that are there. */
module ProjectionRules {
  import opened Events
  import opened Options
  import opened Projection

  predicate RunIsThere(t: Tables, r: RunId) { RunK(r) in t && t[RunK(r)].RunRow? }

  predicate NodeIsThere(t: Tables, r: RunId, n: string) { NodeK(r, n) in t && t[NodeK(r, n)].NodeR? }

  /** The wait is pending. */
  predicate Open(t: Tables, k: Key) { k.WaitK? && k in t && t[k].WaitRow? && t[k].wait.WPending? }

  /** The artifact is the run's, of the same node, name and content. */
  predicate SameArtifact(t: Tables, k: Key, ev: Event)
    requires ev.body.ArtifactPublished?
  {
    && k.ArtifactK? && k in t && k.id.run == ev.run && t[k].ArtifactRow?
    && (t[k].producer, t[k].name, t[k].hash) == (ev.body.node, ev.body.name, ev.body.hash)
  }

  /** The other wait is pending on the same node of the run, or on the same event and correlation key in any run. */
  predicate InTheWay(t: Tables, o: Key, ev: Event)
    requires ev.body.WaitRequested?
  {
    Open(t, o) &&
    ((o.id.run == ev.run && t[o].about == ev.body.node) ||
     (t[o].eventType == ev.body.eventType && t[o].correlationKey == ev.body.correlationKey))
  }

  function WaitKey(ev: Event): Key
    requires ev.body.WaitRequested?
  {
    if ev.body.wait.Some? then WaitK(ev.body.wait.value) else WaitK(ev.id)
  }

  /** What an event needs. */
  ghost predicate Needs(t: Tables, ev: Event) {
    var r := ev.run;
    match ev.body
    case RunStarted(_, digest, _, _, _, _, _) => digest != "" || RunIsThere(t, r)
    case NodeStarted(n, _, _, _, _, _, _) => n != ""
    case NodeEnded(n, no, _, key, executor, contract, _) =>
      no <= 0 || key == "" || (executor != "" && contract != "") ||
      (AttemptK(r, n, no) in t && t[AttemptK(r, n, no)].AttemptRow?)
    case NodeCancelRequested(n) => NodeIsThere(t, r, n)
    case NodeAttemptFailed(n, _, _) => NodeIsThere(t, r, n)
    case ArtifactPublished(_, _, _, _) => ArtifactK(ev.id) in t || forall k :: !SameArtifact(t, k, ev)
    case EvaluationFailed(a, _, _) => ArtifactK(a) in t
    case EffectIntent(a, _, _, _) => exists n, no :: AttemptK(r, n, no) in t && t[AttemptK(r, n, no)].AttemptRow? &&
                                                     t[AttemptK(r, n, no)].id == a
    case ApprovalRequested(n, _, _, _) => RunIsThere(t, r) && NodeIsThere(t, r, n)
    case RunEnded(_, _) => RunIsThere(t, r) && (OutcomeK(r) in t && t[OutcomeK(r)].OutcomeRow? ==>
                                                  t[OutcomeK(r)].id == ev.id)
    case WaitRequested(_, _, _, _, _, _) =>
      RunIsThere(t, r) && (WaitKey(ev) in t || forall o :: o != WaitKey(ev) ==> !InTheWay(t, o, ev))
    case _ => true
  }

  /** An event can be projected exactly if what it needs is there and nothing is in its way. */
  lemma ProjectsExactlyWhen(t: Tables, ev: Event)
    ensures Project(t, ev).Some? <==> Needs(t, ev)
  {
    hide NodeOf, NodeAfter, EndedAttempt, LatestAttempt, LinkWrites, ParamWrites, Apply, FirstRunRow;
    match ev.body
    case WaitRequested(_, _, _, _, _, _) => WaitsExactlyWhen(t, ev);
    case ArtifactPublished(_, _, _, _) => PublishesExactlyWhen(t, ev);
    case EffectIntent(a, _, _, _) => IntendsExactlyWhen(t, ev);
    case _ =>
  }

  lemma WaitsExactlyWhen(t: Tables, ev: Event)
    requires ev.body.WaitRequested?
    ensures Project(t, ev).Some? <==> Needs(t, ev)
  {
    var k := WaitKey(ev);
    if o :| o in t && o != k && IsPendingWait(t, o) && o.Owner() == ev.run && t[o].about == ev.body.node {
      assert InTheWay(t, o, ev);
    }
    if o :| o in t && HoldsPair(t, o, k, ev.body.eventType, ev.body.correlationKey) { assert InTheWay(t, o, ev); }
    if o :| o != k && InTheWay(t, o, ev) { assert o in t && IsPendingWait(t, o); }
    hide Apply;
  }

  lemma PublishesExactlyWhen(t: Tables, ev: Event)
    requires ev.body.ArtifactPublished?
    ensures Project(t, ev).Some? <==> Needs(t, ev)
  {
    var b := ev.body;
    if o :| o in t && o.ArtifactK? && o.Owner() == ev.run && t[o].ArtifactRow? && t[o].producer == b.node &&
            t[o].name == b.name && t[o].hash == b.hash {
      assert SameArtifact(t, o, ev);
    }
    hide Apply;
  }

  lemma IntendsExactlyWhen(t: Tables, ev: Event)
    requires ev.body.EffectIntent?
    ensures Project(t, ev).Some? <==> Needs(t, ev)
  {
    var a := ev.body.attempt;
    if k :| k in t && k.AttemptK? && k.run == ev.run && t[k].AttemptRow? && t[k].id == a {
      assert k == AttemptK(ev.run, k.node, k.no);
    }
    hide Apply;
  }
}
