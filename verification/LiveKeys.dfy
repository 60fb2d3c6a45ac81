/** Every store that grew by appending events keeps its foreign keys, and its runs stay apart. */
module LiveKeys {
  import opened Events
  import opened Options
  import opened Projection
  import opened Replay
  import Gc
  import RowHistory

  // ---- what a row needs ----

  /** The row refers to rows and events that exist and belong to its own run. */
  ghost predicate SoundRow(t: Tables, log: seq<Event>, k: Key, row: Row) {
    match k
    case RunK(_) => true
    case ParamK(r, _) => RunK(r) in t
    case NodeK(r, _) => RunK(r) in t
    case AttemptK(r, n, _) => row.AttemptRow? && row.id.run == r && NodeK(r, n) in t
    case EdgeK(e) => RunK(e.run) in t
    case ArtifactK(e) => RunK(e.run) in t
    case EvaluationK(e) => RunK(e.run) in t && row.EvaluationRow? && row.artifact.run == e.run &&
                           ArtifactK(row.artifact) in t
    case EffectK(e) => row.EffectRow? && row.attemptId.run == e.run && HasAttempt(t, e.run, row.attemptId)
    case ApprovalK(e) => RunK(e.run) in t && row.ApprovalRow? && NodeK(e.run, row.about) in t
    case DecisionK(e) => RunK(e.run) in t && row.DecisionRow? && NodeK(e.run, row.about) in t
    case LinkK(e, _) => row.LinkRow? && row.decisionId == e && DecisionK(e) in t && NodeK(e.run, row.target) in t
    case AnchorK(e) => OutcomeK(e.run) in t && t[OutcomeK(e.run)].OutcomeRow? && t[OutcomeK(e.run)].id == e
    case OutcomeK(r) => RunK(r) in t && row.OutcomeRow? && row.id.run == r && AnchorK(row.id) in t
    case WaitK(e) =>
      && RunK(e.run) in t && row.WaitRow? && NodeK(e.run, row.about) in t
      && (row.completedBy.Some? ==> HasId(log, row.completedBy.value) && row.completedBy.value.run == e.run)
  }

  ghost predicate Sound(t: Tables, log: seq<Event>) { forall k :: k in t ==> SoundRow(t, log, k, t[k]) }

  /** Rows stay, attempts keep their ids, and outcomes never change. */
  ghost predicate Grows(t: Tables, u: Tables) {
    forall k :: k in t ==>
      && k in u
      && (k.AttemptK? && t[k].AttemptRow? ==> u[k].AttemptRow? && u[k].id == t[k].id)
      && (k.OutcomeK? ==> u[k] == t[k])
  }

  lemma SoundStays(t: Tables, u: Tables, log: seq<Event>, more: seq<Event>, k: Key, row: Row)
    requires SoundRow(t, log, k, row) && Grows(t, u)
    ensures SoundRow(u, log + more, k, row)
  {
    match k
    case EffectK(e) => AttemptStays(t, u, e.run, row.attemptId);
    case WaitK(_) => if row.completedBy.Some? { IdStays(log, more, row.completedBy.value); }
    case _ =>
  }

  lemma AttemptStays(t: Tables, u: Tables, r: RunId, id: Id)
    requires HasAttempt(t, r, id) && Grows(t, u)
    ensures HasAttempt(u, r, id)
  {
    var a :| a in t && a.AttemptK? && a.run == r && t[a].AttemptRow? && t[a].id == id;
    assert a in u && u[a].AttemptRow? && u[a].id == id;
  }

  lemma IdStays(log: seq<Event>, more: seq<Event>, id: Id)
    requires HasId(log, id)
    ensures HasId(log + more, id)
  {
    var i :| 0 <= i < |log| && log[i].id == id;
    assert (log + more)[i].id == id;
  }

  // ---- lists of writes ----

  lemma {:induction false} ApplyComesFrom(t: Tables, ws: seq<Write>, k: Key)
    requires k in Apply(t, ws)
    ensures (k in t && Apply(t, ws)[k] == t[k]) || exists i :: 0 <= i < |ws| && ws[i] == Write(k, Apply(t, ws)[k])
    decreases |ws|
  {
    if |ws| > 0 {
      var u := t[ws[0].key := ws[0].row];
      ApplyComesFrom(u, ws[1..], k);
      if i :| 0 <= i < |ws[1..]| && ws[1..][i] == Write(k, Apply(t, ws)[k]) {
        assert ws[i + 1] == Write(k, Apply(t, ws)[k]);
      } else if k == ws[0].key {
        assert ws[0] == Write(k, Apply(t, ws)[k]);
      }
    }
  }

  lemma {:induction false} ApplyHas(t: Tables, ws: seq<Write>)
    ensures forall k :: k in t ==> k in Apply(t, ws)
    ensures forall i :: 0 <= i < |ws| ==> ws[i].key in Apply(t, ws)
    decreases |ws|
  {
    if |ws| > 0 {
      ApplyHas(t[ws[0].key := ws[0].row], ws[1..]);
      forall i | 0 <= i < |ws|
        ensures ws[i].key in Apply(t, ws)
      {
        if i > 0 { assert ws[1..][i - 1] == ws[i]; }
      }
    }
  }

  /** A write keeps the ids of attempts and no outcome is written twice. */
  ghost predicate Keeps(t: Tables, w: Write) {
    && (w.key.AttemptK? && w.key in t && t[w.key].AttemptRow? ==> w.row.AttemptRow? && w.row.id == t[w.key].id)
    && (w.key.OutcomeK? ==> w.key !in t)
  }

  lemma WritesGrow(t: Tables, ws: seq<Write>)
    requires forall i :: 0 <= i < |ws| ==> Keeps(t, ws[i])
    ensures Grows(t, Apply(t, ws))
  {
    ApplyHas(t, ws);
    forall k | k in t
      ensures k.AttemptK? && t[k].AttemptRow? ==> Apply(t, ws)[k].AttemptRow? && Apply(t, ws)[k].id == t[k].id
      ensures k.OutcomeK? ==> Apply(t, ws)[k] == t[k]
    {
      ApplyComesFrom(t, ws, k);
    }
  }

  /** Good writes: each keeps what it must, and its row is sound in any tables that have grown and hold the
      keys that the event writes. */
  ghost predicate GoodWrites(t: Tables, log: seq<Event>, ev: Event, ws: seq<Write>) {
    && (forall i :: 0 <= i < |ws| ==> Keeps(t, ws[i]))
    && (forall i :: 0 <= i < |ws| ==> SoundRow(Apply(t, ws), log + [ev], ws[i].key, ws[i].row))
  }

  lemma GoodWritesKeepSound(t: Tables, log: seq<Event>, ev: Event, ws: seq<Write>)
    requires Sound(t, log) && GoodWrites(t, log, ev, ws)
    ensures Sound(Apply(t, ws), log + [ev]) && Grows(t, Apply(t, ws))
  {
    hide SoundRow, Keeps;
    WritesGrow(t, ws);
    var u := Apply(t, ws);
    forall k | k in u
      ensures SoundRow(u, log + [ev], k, u[k])
    {
      ApplyComesFrom(t, ws, k);
      if k in t && u[k] == t[k] {
        SoundStays(t, u, log, [ev], k, t[k]);
      }
    }
  }

  // ---- the handlers ----

  ghost predicate Accepted(t: Tables, log: seq<Event>, ev: Event) {
    && Sound(t, log) && LocalIds(ev) && RunK(ev.run) in t && Writes(t, ev).Some?
    && (ev.causation.Some? ==> HasId(log, ev.causation.value))
    && (ev.body.WaitCompleted? && ev.body.received.Some? ==> HasId(log, ev.body.received.value))
  }

  /** The keys that the writes and the old rows have. */
  ghost predicate Holds(t: Tables, ws: seq<Write>, u: Tables) {
    (forall k :: k in t ==> k in u) && forall i :: 0 <= i < |ws| ==> ws[i].key in u
  }

  lemma AttemptRowSound(t: Tables, log: seq<Event>, k: Key)
    requires Sound(t, log) && k.AttemptK? && AttemptAt(t, k).Some?
    ensures AttemptAt(t, k).value.id.run == k.run && AttemptAt(t, k).value == t[k]
  {
    assert SoundRow(t, log, k, t[k]);
  }

  /** What a handler that moves a node writes: the node, its attempts under their own ids, and the run. */
  ghost predicate MoveShape(t: Tables, ev: Event, ws: seq<Write>)
    requires MovesNode(ev.body)
  {
    && |ws| > 0 && ws[0].key == NodeK(ev.run, ev.body.node)
    && forall i :: 0 <= i < |ws| ==>
         match ws[i].key
         case RunK(_) => true
         case NodeK(r, _) => r == ev.run
         case AttemptK(r, n, _) =>
           && r == ev.run && n == ev.body.node && ws[i].row.AttemptRow?
           && ws[i].row.id == if AttemptAt(t, ws[i].key).Some? then AttemptAt(t, ws[i].key).value.id else ev.id
         case _ => false
  }

  lemma StartShape(t: Tables, ev: Event)
    requires ev.body.NodeStarted? && OnNodeStarted(t, ev).Some?
    ensures MoveShape(t, ev, OnNodeStarted(t, ev).value)
  {
    hide NodeAfter, NodeOf;
  }

  lemma EndShape(t: Tables, ev: Event)
    requires ev.body.NodeEnded? && OnNodeEnded(t, ev).Some?
    ensures MoveShape(t, ev, OnNodeEnded(t, ev).value)
  {
    hide NodeAfter, NodeOf, LatestAttempt;
  }

  lemma CancelShape(t: Tables, ev: Event)
    requires ev.body.NodeCancelled?
    ensures MoveShape(t, ev, OnNodeCancelled(t, ev))
  {
    hide NodeAfter, NodeOf;
  }

  lemma FailShape(t: Tables, ev: Event)
    requires ev.body.NodeAttemptFailed? && OnAttemptFailed(t, ev).Some?
    ensures MoveShape(t, ev, OnAttemptFailed(t, ev).value)
  {
    hide NodeAfter, NodeOf;
  }

  lemma MovesShape(t: Tables, ev: Event)
    requires MovesNode(ev.body) && Writes(t, ev).Some?
    ensures MoveShape(t, ev, Writes(t, ev).value)
  {
    hide MoveShape, OnNodeStarted, OnNodeEnded, OnNodeCancelled, OnAttemptFailed;
    match ev.body
    case NodeStarted(_, _, _, _, _, _, _) => StartShape(t, ev);
    case NodeEnded(_, _, _, _, _, _, _) => EndShape(t, ev);
    case NodeCancelled(_, _) => CancelShape(t, ev);
    case NodeAttemptFailed(_, _, _) => FailShape(t, ev);
    case _ => PlainShape(t, ev);
  }

  lemma PlainShape(t: Tables, ev: Event)
    requires MovesNode(ev.body)
    ensures MoveShape(t, ev, MoveNode(t, ev))
  {
  }

  lemma ShapeIsGood(t: Tables, log: seq<Event>, ev: Event, ws: seq<Write>)
    requires Sound(t, log) && RunK(ev.run) in t && ev.id.run == ev.run && MovesNode(ev.body) && MoveShape(t, ev, ws)
    ensures GoodWrites(t, log, ev, ws)
  {
    hide Sound;
    ApplyHas(t, ws);
    forall i | 0 <= i < |ws|
      ensures Keeps(t, ws[i]) && SoundRow(Apply(t, ws), log + [ev], ws[i].key, ws[i].row)
    {
      var k := ws[i].key;
      if k.AttemptK? && AttemptAt(t, k).Some? { AttemptRowSound(t, log, k); }
    }
  }

  lemma MovesGood(t: Tables, log: seq<Event>, ev: Event)
    requires Accepted(t, log, ev) && MovesNode(ev.body)
    ensures GoodWrites(t, log, ev, Writes(t, ev).value)
  {
    hide Sound, MoveShape, GoodWrites, Writes;
    MovesShape(t, ev);
    ShapeIsGood(t, log, ev, Writes(t, ev).value);
  }

  lemma {:induction false} ParamsGood(t: Tables, r: RunId, params: seq<Param>)
    ensures forall i :: 0 <= i < |ParamWrites(t, r, params)| ==>
                        ParamWrites(t, r, params)[i].key.ParamK? && ParamWrites(t, r, params)[i].key.run == r
  {
    if |params| > 0 { ParamsGood(t, r, params[1..]); }
  }

  lemma StartedGood(t: Tables, log: seq<Event>, ev: Event)
    requires Accepted(t, log, ev) && ev.body.RunStarted?
    ensures GoodWrites(t, log, ev, Writes(t, ev).value)
  {
    hide Sound, RunRowOf, FirstRunRow;
    ApplyHas(t, Writes(t, ev).value);
    ParamsGood(t, ev.run, ev.body.params);
  }

  /** The rows that an event adds by itself. */
  lemma RecordsGood(t: Tables, log: seq<Event>, ev: Event)
    requires Accepted(t, log, ev)
    requires ev.body.EdgeTraversed? || ev.body.ArtifactPublished? || ev.body.EvaluationFailed? || ev.body.Unprojected?
    ensures GoodWrites(t, log, ev, Writes(t, ev).value)
  {
    hide Sound;
    ApplyHas(t, Writes(t, ev).value);
  }

  lemma IntentGood(t: Tables, log: seq<Event>, ev: Event)
    requires Accepted(t, log, ev) && ev.body.EffectIntent?
    ensures GoodWrites(t, log, ev, Writes(t, ev).value)
  {
    hide Sound, HasAttempt;
    var ws := Writes(t, ev).value;
    WritesGrow(t, ws);
    AttemptStays(t, Apply(t, ws), ev.run, ev.body.attempt);
  }

  lemma ReceiptGood(t: Tables, log: seq<Event>, ev: Event)
    requires Accepted(t, log, ev) && ev.body.EffectReceipt?
    ensures GoodWrites(t, log, ev, Writes(t, ev).value)
  {
    hide HasAttempt;
    var ws, k := Writes(t, ev).value, EffectK(ev.body.effect);
    WritesGrow(t, ws);
    if |ws| > 0 {
      assert SoundRow(t, log, k, t[k]);
      AttemptStays(t, Apply(t, ws), k.id.run, t[k].attemptId);
    }
  }

  lemma ApprovalsGood(t: Tables, log: seq<Event>, ev: Event)
    requires Accepted(t, log, ev) && (ev.body.ApprovalRequested? || ev.body.ApprovalDecided?)
    ensures GoodWrites(t, log, ev, Writes(t, ev).value)
  {
    hide RunRowOf;
    ApplyHas(t, Writes(t, ev).value);
    if ev.body.ApprovalDecided? {
      var k := ApprovalK(ev.body.approval);
      if k in t { assert SoundRow(t, log, k, t[k]); }
    }
  }

  /** Links hang on the decision of the event, and their targets have rows. */
  ghost predicate LinkShape(t: Tables, ev: Event, ws: seq<Write>, all: seq<Write>) {
    forall i :: 0 <= i < |ws| ==>
      match ws[i].key
      case NodeK(r, _) => r == ev.run
      case LinkK(e, _) =>
        e == ev.id && ws[i].row.LinkRow? && ws[i].row.decisionId == e &&
        (HasNode(t, ev.run, ws[i].row.target) ||
         exists j :: 0 <= j < |all| && all[j].key == NodeK(ev.run, ws[i].row.target))
      case _ => false
  }

  lemma ShapesJoin(t: Tables, ev: Event, a: seq<Write>, b: seq<Write>, all: seq<Write>)
    requires LinkShape(t, ev, a, all) && LinkShape(t, ev, b, all)
    ensures LinkShape(t, ev, a + b, all)
  {
    assert forall i :: |a| <= i < |a + b| ==> (a + b)[i] == b[i - |a|];
  }

  lemma ShapeWidens(t: Tables, ev: Event, ws: seq<Write>, head: seq<Write>, all: seq<Write>)
    requires LinkShape(t, ev, ws, all)
    ensures LinkShape(t, ev, ws, head + all)
  {
    assert forall j :: 0 <= j < |all| ==> (head + all)[|head| + j] == all[j];
  }

  lemma {:induction false} LinksShape(t: Tables, ev: Event, links: seq<Link>, i: nat)
    ensures LinkShape(t, ev, LinkWrites(t, ev, links, i), LinkWrites(t, ev, links, i))
    decreases |links|
  {
    if |links| > 0 {
      var x := links[0].target;
      var a, b := EnsureNode(t, ev.run, x), Fresh(t, LinkK(ev.id, i), LinkRow(ev.id, x, links[0]));
      var c := LinkWrites(t, ev, links[1..], i + 1);
      LinksShape(t, ev, links[1..], i + 1);
      ShapeWidens(t, ev, c, a + b, c);
      hide LinkWrites;
      var all := a + b + c;
      if !HasNode(t, ev.run, x) { assert all[0].key == NodeK(ev.run, x); }
      hide HasNode;
      assert LinkShape(t, ev, a, all) && LinkShape(t, ev, b, all);
      hide LinkShape;
      ShapesJoin(t, ev, a, b, all);
      ShapesJoin(t, ev, a + b, c, all);
    }
  }

  lemma DecisionGood(t: Tables, log: seq<Event>, ev: Event)
    requires Accepted(t, log, ev) && ev.body.DecisionRecorded?
    ensures GoodWrites(t, log, ev, Writes(t, ev).value)
  {
    hide Sound, HasNode, LinkWrites;
    var node, links := EnsureNode(t, ev.run, ev.body.node), LinkWrites(t, ev, ev.body.links, 0);
    var made := Fresh(t, DecisionK(ev.id), DecisionRow(ev.body.node, ev.body.details, ev.at));
    var ws := Writes(t, ev).value;
    assert ws == node + made + links;
    LinksShape(t, ev, ev.body.links, 0);
    ApplyHas(t, ws);
    var u := Apply(t, ws);
    forall i | 0 <= i < |links|
      ensures links[i].key in u
    {
      assert ws[|node| + |made| + i] == links[i];
    }
    EnsuredIs(t, ev.run, ev.body.node, ws, u);
    DecisionIsThere(t, ev, ws, u, |node|);
    forall i | 0 <= i < |ws|
      ensures Keeps(t, ws[i]) && SoundRow(u, log + [ev], ws[i].key, ws[i].row)
    {
      if i >= |node| + |made| {
        var w := links[i - |node| - |made|];
        assert ws[i] == w;
        if w.key.LinkK? { TargetIs(t, ev, links, i - |node| - |made|, u); }
      }
    }
  }

  lemma DecisionIsThere(t: Tables, ev: Event, ws: seq<Write>, u: Tables, i: nat)
    requires Holds(t, ws, u) && (DecisionK(ev.id) in t || (i < |ws| && ws[i].key == DecisionK(ev.id)))
    ensures DecisionK(ev.id) in u
  {
  }

  lemma EnsuredIs(t: Tables, r: RunId, n: string, ws: seq<Write>, u: Tables)
    requires Holds(t, ws, u) && EnsureNode(t, r, n) <= ws
    ensures NodeK(r, n) in u
  {
    if !HasNode(t, r, n) { assert ws[0] == EnsureNode(t, r, n)[0]; }
  }

  lemma TargetIs(t: Tables, ev: Event, links: seq<Write>, i: nat, u: Tables)
    requires i < |links| && links[i].key.LinkK? && LinkShape(t, ev, links, links)
    requires (forall k :: k in t ==> k in u) && forall j :: 0 <= j < |links| ==> links[j].key in u
    ensures links[i].row.LinkRow? && NodeK(ev.run, links[i].row.target) in u
  {
  }

  lemma EndingGood(t: Tables, log: seq<Event>, ev: Event)
    requires Accepted(t, log, ev) && ev.body.RunEnded?
    ensures GoodWrites(t, log, ev, Writes(t, ev).value)
  {
    hide RunRowOf;
    var ws, k, a := Writes(t, ev).value, OutcomeK(ev.run), AnchorK(ev.id);
    ApplyHas(t, ws);
    if k in t {
      assert SoundRow(t, log, k, t[k]);
      assert a in t;
    } else {
      assert a in t ==> SoundRow(t, log, a, t[a]);
      assert |ws| == 3 && ws[1].key == a && ws[2].key == k;
      assert ws == ws[..2] + [ws[2]] + [];
      RowHistory.ApplyOnce(t, ws[..2], ws[2], []);
    }
  }

  lemma WaitAskGood(t: Tables, log: seq<Event>, ev: Event)
    requires Accepted(t, log, ev) && ev.body.WaitRequested?
    ensures GoodWrites(t, log, ev, Writes(t, ev).value)
  {
    hide Sound, RunRowOf, HasNode, NodeTaken;
    var ws := Writes(t, ev).value;
    ApplyHas(t, ws);
    EnsuredIs(t, ev.run, ev.body.node, ws, Apply(t, ws));
  }

  lemma WaitEndGood(t: Tables, log: seq<Event>, ev: Event)
    requires Accepted(t, log, ev) && (ev.body.WaitCompleted? || ev.body.WaitExpired? || ev.body.WaitCancelled?)
    ensures GoodWrites(t, log, ev, Writes(t, ev).value)
  {
    var ws, k := Writes(t, ev).value, WaitOf(ev.body.wait, ev);
    ApplyHas(t, ws);
    if |ws| > 0 {
      assert SoundRow(t, log, k, t[k]);
      var done := ws[0].row.completedBy;
      if done.Some? { IdStays(log, [ev], done.value); }
    }
  }

  /** What any handler writes is good. */
  lemma AllGood(t: Tables, log: seq<Event>, ev: Event)
    requires Accepted(t, log, ev)
    ensures GoodWrites(t, log, ev, Writes(t, ev).value)
  {
    hide Accepted, GoodWrites, Writes;
    match ev.body
    case RunStarted(_, _, _, _, _, _, _) => StartedGood(t, log, ev);
    case EdgeTraversed(_, _, _) => RecordsGood(t, log, ev);
    case ArtifactPublished(_, _, _, _) => RecordsGood(t, log, ev);
    case EvaluationFailed(_, _, _) => RecordsGood(t, log, ev);
    case Unprojected(_) => RecordsGood(t, log, ev);
    case EffectIntent(_, _, _, _) => IntentGood(t, log, ev);
    case EffectReceipt(_, _, _, _) => ReceiptGood(t, log, ev);
    case ApprovalRequested(_, _, _, _) => ApprovalsGood(t, log, ev);
    case ApprovalDecided(_, _, _, _) => ApprovalsGood(t, log, ev);
    case DecisionRecorded(_, _, _) => DecisionGood(t, log, ev);
    case RunEnded(_, _) => EndingGood(t, log, ev);
    case WaitRequested(_, _, _, _, _, _) => WaitAskGood(t, log, ev);
    case WaitCompleted(_, _, _) => WaitEndGood(t, log, ev);
    case WaitExpired(_) => WaitEndGood(t, log, ev);
    case WaitCancelled(_) => WaitEndGood(t, log, ev);
    case _ => MovesGood(t, log, ev);
  }

  // ---- ledgers ----

  /** The events of the log belong to started runs, and are caused by events of their own run. */
  ghost predicate SoundLog(g: Ledger) {
    forall i {:trigger g.log[i]} :: 0 <= i < |g.log| ==>
      && RunK(g.log[i].run) in g.tables && g.log[i].id.run == g.log[i].run
      && (g.log[i].causation.Some? ==>
          HasId(g.log, g.log[i].causation.value) && g.log[i].causation.value.run == g.log[i].run)
  }

  lemma AppendKeepsKeys(g: Ledger, ev: Event)
    requires Sound(g.tables, g.log) && SoundLog(g) && LocalIds(ev) && Appended(g, ev).Some?
    ensures var h := Appended(g, ev).value; Sound(h.tables, h.log) && SoundLog(h)
  {
    hide Sound, Writes, GoodWrites, LocalIds;
    var h := Appended(g, ev).value;
    AllGood(g.tables, g.log, ev);
    GoodWritesKeepSound(g.tables, g.log, ev, Writes(g.tables, ev).value);
    forall i | 0 <= i < |h.log|
      ensures RunK(h.log[i].run) in h.tables && h.log[i].id.run == h.log[i].run
      ensures h.log[i].causation.Some? ==>
                HasId(h.log, h.log[i].causation.value) && h.log[i].causation.value.run == h.log[i].run
    {
      LocalParts(ev);
      if i < |g.log| { assert h.log[i] == g.log[i]; }
      if h.log[i].causation.Some? { IdStays(g.log, [ev], h.log[i].causation.value); }
    }
  }

  lemma LocalParts(ev: Event)
    requires LocalIds(ev)
    ensures ev.id.run == ev.run && (ev.causation.Some? ==> ev.causation.value.run == ev.run)
  {
  }

  lemma NewRunKeepsKeys(g: Ledger, r: RunId, row: Row)
    requires Sound(g.tables, g.log) && SoundLog(g) && RunK(r) !in g.tables
    ensures var t := g.tables[RunK(r) := row]; Sound(t, g.log) && SoundLog(Ledger(g.log, t))
  {
    var t := g.tables[RunK(r) := row];
    assert Grows(g.tables, t);
    forall k | k in t
      ensures SoundRow(t, g.log, k, t[k])
    {
      if k != RunK(r) {
        SoundStays(g.tables, t, g.log, [], k, t[k]);
        assert g.log + [] == g.log;
      }
    }
  }

  lemma {:induction false} LiveIsSound(steps: seq<Step>)
    requires Live(steps).Some? && AllLocal(Live(steps).value.log)
    ensures var g := Live(steps).value; Sound(g.tables, g.log) && SoundLog(g)
  {
    hide Sound, SoundLog, Appended, LocalIds, FirstRunRow;
    if |steps| == 0 {
      EmptyIsSound();
    } else {
      var init, step := steps[..|steps| - 1], steps[|steps| - 1];
      var g, h := Live(init).value, Live(steps).value;
      var ev := match step case StartRun(e) => e case Append(e) => e;
      TakeAppends(g, step);
      assert forall i :: 0 <= i < |g.log| ==> h.log[i] == g.log[i];
      assert h.log[|g.log|] == ev;
      assert AllLocal(g.log) by {
        assert forall i :: 0 <= i < |g.log| ==> LocalIds(h.log[i]);
      }
      LiveIsSound(init);
      match step
      case Append(_) => AppendKeepsKeys(g, ev);
      case StartRun(_) =>
        var row := FirstRunRow(ev.body, ev.body.digest, ev.at);
        NewRunKeepsKeys(g, ev.run, row);
        AppendKeepsKeys(g.(tables := g.tables[RunK(ev.run) := row]), ev);
    }
  }

  lemma EmptyIsSound()
    ensures Sound(EMPTY.tables, EMPTY.log) && SoundLog(EMPTY)
  {
  }

  lemma TakeAppends(g: Ledger, step: Step)
    requires Take(g, step).Some?
    ensures Take(g, step).value.log == g.log + [match step case StartRun(e) => e case Append(e) => e]
  {
    hide Project;
  }

  // ---- the rows that outlive runs ----

  /** The rows that are kept beside the projections refer to rows that exist. */
  ghost predicate OthersRefer(d: Gc.Db) {
    && (forall m :: m in d.metrics ==> AnchorK(d.metrics[m]) in d.tables)
    && (forall m :: m in d.cited ==> m in d.metrics)
    && (forall p :: p in d.proposals && d.proposals[p].Some? ==> ApprovalK(d.proposals[p].value) in d.tables)
    && (forall s :: s in d.schedules && d.schedules[s].Some? ==> RunK(d.schedules[s].value) in d.tables)
  }

  lemma SoundRefers(d: Gc.Db, k: Key)
    requires Sound(d.tables, d.log) && k in d.tables
    ensures Gc.RefersToRows(d, k) && Gc.WithinRun(d, k)
  {
    assert SoundRow(d.tables, d.log, k, d.tables[k]);
    if k.EffectK? { EffectRefers(d, k); }
  }

  lemma EffectRefers(d: Gc.Db, k: Key)
    requires Sound(d.tables, d.log) && k in d.tables && k.EffectK?
    ensures Gc.RefersToRows(d, k) && Gc.WithinRun(d, k)
  {
    var t := d.tables;
    assert SoundRow(t, d.log, k, t[k]);
    forall a | a in t && a.AttemptK? && t[a].AttemptRow? && t[a].id == t[k].attemptId
      ensures a.run == k.id.run
    {
      assert SoundRow(t, d.log, a, t[a]);
    }
  }

  /** Whatever was appended and started, all foreign keys hold and the rows of a run refer to rows of the
      same run, if those beside the projections refer to existing rows: what collecting runs relies on. */
  lemma LiveStoresKeepTheirKeys(steps: seq<Step>, d: Gc.Db)
    requires Live(steps).Some? && AllLocal(Live(steps).value.log)
    requires d.tables == Live(steps).value.tables && d.log == Live(steps).value.log && OthersRefer(d)
    ensures Gc.ForeignKeysHold(d) && Gc.RunsAreSeparate(d)
  {
    hide Sound, Gc.RefersToRows, Gc.WithinRun, Live;
    LiveIsSound(steps);
    forall k | k in d.tables
      ensures Gc.RefersToRows(d, k) && Gc.WithinRun(d, k)
    {
      SoundRefers(d, k);
    }
  }
}
