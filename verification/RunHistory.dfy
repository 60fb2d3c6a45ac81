/** What the projected rows of a run and of its nodes say about the events: where a status and the times come from. */
module RunHistory {
  import opened Events
  import opened Options
  import opened Projection
  import RecordHistory
  import opened Replay
  import opened RowHistory

  // ---- the rows of nodes ----

  /** The event is about the node. */
  predicate About(ev: Event, r: RunId, n: string) { MovesNode(ev.body) && ev.run == r && ev.body.node == n }

  /** The events that can give a node each status. */
  predicate Sets(b: Body, st: NodeStatus) {
    match st
    case Running => b.NodeStarted?
    case Succeeded => b.NodeEnded? && b.outcome.Finished?
    case Failed => b.NodeEnded? && b.outcome.Failure?
    case Uncertain => b.NodeEnded? && b.outcome.Unsure?
    case Eligible => b.NodeRequeued? || b.NodeAttemptFailed?
    case Waiting => b.NodeWaiting?
    case Reconciling => b.NodeReconciling?
    case CancelRequested => b.NodeCancelRequested?
    case Cancelled => b.NodeCancelled?
    case Skipped => b.NodeSkipped?
    case Leased => false
    case Pending => false
  }

  /** What one event about a node does to its row. */
  lemma EventMoves(row: NodeRow, b: Body, at: int)
    requires MovesNode(b)
    ensures var t := NodeAfter(row, b, at);
            && (t.status == row.status || Sets(b, t.status))
            && (t.startedAt == if b.NodeStarted? && row.startedAt.None? then Some(at) else row.startedAt)
            && (t.status.Succeeded? || t.status.Failed? || t.status.Skipped? || t.status.Cancelled? ==>
                  (t.status == row.status && t.finishedAt == row.finishedAt) ||
                  (Sets(b, t.status) && t.finishedAt == Some(at)))
            && (b.NodeRequeued? && t.status.Eligible? ==> t.finishedAt.None?)
  {
  }

  /** Rows made for nodes without one change nothing. */
  lemma {:induction false} EnsuringKeeps(t: Tables, ev: Event, u: Tables, ws: seq<Write>, r: RunId, n: string)
    requires OtherWrites(t, ev, ws) && NodeOf(u, r, n) == NodeOf(t, r, n)
    ensures NodeOf(Apply(u, ws), r, n) == NodeOf(t, r, n)
    decreases |ws|
  {
    if |ws| > 0 {
      assert OtherWrites(t, ev, ws[1..]) && OtherWrite(t, ev, ws[0]);
      EnsuringKeeps(t, ev, u[ws[0].key := ws[0].row], ws[1..], r, n);
    }
  }

  /** The handlers that move a node write its row first and no other. */
  lemma MovesWriteOne(t: Tables, ev: Event)
    requires MovesNode(ev.body) && Writes(t, ev).Some?
    ensures var ws := Writes(t, ev).value;
            && |ws| > 0 && ws[0] == MoveNode(t, ev)[0] && forall i :: 0 < i < |ws| ==> !ws[i].key.NodeK?
  {
    hide HasNode, NodeOf, NodeAfter, AttemptAt, LatestAttempt, RunRowOf, EndedAttempt;
  }

  /** The row of a node after an event. */
  lemma NodeStep(t: Tables, ev: Event, r: RunId, n: string)
    requires Project(t, ev).Some?
    ensures NodeOf(Project(t, ev).value, r, n) ==
            if About(ev, r, n) then NodeAfter(NodeOf(t, r, n), ev.body, ev.at) else NodeOf(t, r, n)
  {
    hide NodeAfter, Writes;
    var ws, k := Writes(t, ev).value, NodeK(r, n);
    if MovesNode(ev.body) {
      MovesWriteOne(t, ev);
      if About(ev, r, n) {
        assert ws == [] + [ws[0]] + ws[1..];
        ApplyOnce(t, [], ws[0], ws[1..]);
      } else {
        RowHistory.ApplyElsewhere(t, ws, k);
      }
    } else {
      OthersWrite(t, ev);
      EnsuringKeeps(t, ev, t, ws, r, n);
    }
  }

  ghost predicate FirstStart(evs: seq<Event>, r: RunId, n: string, j: nat) {
    j < |evs| && About(evs[j], r, n) && evs[j].body.NodeStarted? &&
    forall i :: 0 <= i < j ==> !(About(evs[i], r, n) && evs[i].body.NodeStarted?)
  }

  /** The row's status comes from an event of the log, and so does the time at which the node ended. */
  ghost predicate Explained(evs: seq<Event>, r: RunId, n: string, row: NodeRow) {
    && (row.status.Pending? ||
        exists j :: 0 <= j < |evs| && About(evs[j], r, n) && Sets(evs[j].body, row.status))
    && (row.status.Succeeded? || row.status.Failed? || row.status.Skipped? || row.status.Cancelled? ==>
          exists j :: 0 <= j < |evs| && About(evs[j], r, n) && Sets(evs[j].body, row.status) &&
                      row.finishedAt == Some(evs[j].at))
  }

  lemma ExplainedOnceMore(evs: seq<Event>, r: RunId, n: string, was: NodeRow, row: NodeRow)
    requires |evs| > 0 && Explained(evs[..|evs| - 1], r, n, was)
    requires var ev := evs[|evs| - 1];
             row == if About(ev, r, n) then NodeAfter(was, ev.body, ev.at) else was
    ensures Explained(evs, r, n, row)
  {
    var init, ev := evs[..|evs| - 1], evs[|evs| - 1];
    assert forall j :: 0 <= j < |init| ==> init[j] == evs[j];
    if About(ev, r, n) { EventMoves(was, ev.body, ev.at); }
    hide NodeAfter, Sets, About;
    if row.status == was.status {
      if !row.status.Pending? {
        var j :| 0 <= j < |init| && About(init[j], r, n) && Sets(init[j].body, row.status);
        assert About(evs[j], r, n) && Sets(evs[j].body, row.status);
      }
    } else {
      assert About(evs[|init|], r, n) && Sets(evs[|init|].body, row.status);
    }
    if row.status.Succeeded? || row.status.Failed? || row.status.Skipped? || row.status.Cancelled? {
      if row.finishedAt == was.finishedAt && row.status == was.status {
        var j :| 0 <= j < |init| && About(init[j], r, n) && Sets(init[j].body, row.status) &&
                 row.finishedAt == Some(init[j].at);
        assert About(evs[j], r, n) && Sets(evs[j].body, row.status) && row.finishedAt == Some(evs[j].at);
      } else {
        assert About(evs[|init|], r, n) && row.finishedAt == Some(evs[|init|].at);
      }
    }
  }

  /** In every log that can be projected, a node's status comes from an event that gives it, an ended node has the
      time of such an event, and a node has the time of its first start. */
  lemma {:induction false} NodeRowTells(evs: seq<Event>, r: RunId, n: string)
    requires Fold(evs).Some?
    ensures var row := NodeOf(Fold(evs).value, r, n);
            && Explained(evs, r, n, row)
            && (row.startedAt.None? <==>
                forall j :: 0 <= j < |evs| ==> !(About(evs[j], r, n) && evs[j].body.NodeStarted?))
            && forall j: nat :: FirstStart(evs, r, n, j) ==> row.startedAt == Some(evs[j].at)
  {
    hide Project, NodeOf, NodeAfter;
    if |evs| > 0 {
      var init, ev := evs[..|evs| - 1], evs[|evs| - 1];
      var was, row := NodeOf(Fold(init).value, r, n), NodeOf(Fold(evs).value, r, n);
      NodeRowTells(init, r, n);
      NodeStep(Fold(init).value, ev, r, n);
      ExplainedOnceMore(evs, r, n, was, row);
      if About(ev, r, n) { EventMoves(was, ev.body, ev.at); }
      hide Fold, Explained, About;
      assert forall j :: 0 <= j < |init| ==> init[j] == evs[j];
      forall j: nat | FirstStart(evs, r, n, j)
        ensures row.startedAt == Some(evs[j].at)
      {
        if j < |init| { assert FirstStart(init, r, n, j); }
      }
    } else {
      NoNodeAtFirst(r, n);
    }
  }

  lemma NoNodeAtFirst(r: RunId, n: string)
    ensures NodeOf(map[], r, n) == PENDING
  {
  }

  // ---- the row of a run ----

  ghost predicate NoRun(ws: seq<Write>, r: RunId) { forall i :: 0 <= i < |ws| ==> ws[i].key != RunK(r) }

  lemma {:induction false} ParamsAreNoRun(t: Tables, q: RunId, params: seq<Param>, r: RunId)
    ensures NoRun(ParamWrites(t, q, params), r)
    decreases |params|
  {
    if |params| > 0 { ParamsAreNoRun(t, q, params[1..], r); }
  }

  /** The events that can write the row of a run: its start, its end, and the start of a node of it. */
  predicate MovesRun(ev: Event, r: RunId) {
    ev.run == r && (ev.body.RunStarted? || ev.body.RunEnded? || ev.body.NodeStarted?)
  }

  lemma OthersAreNoRun(t: Tables, ev: Event, r: RunId)
    requires !MovesRun(ev, r) && Writes(t, ev).Some?
    ensures NoRun(Writes(t, ev).value, r)
  {
    if MovesNode(ev.body) {
      hide HasNode, NodeOf, NodeAfter, LatestAttempt, AttemptAt, EndedAttempt, RunRowOf;
    } else {
      OthersWrite(t, ev);
      hide Writes;
    }
  }

  /** What the event that starts a run says about it. */
  predicate StartedAs(row: Row, ev: Event)
    requires ev.body.RunStarted?
  {
    var b := ev.body;
    && row.RunRow? && row.version == b.version && (b.digest != "" ==> row.digest == b.digest)
    && row.paramsDigest == (if b.paramsDigest == "" then "{}" else b.paramsDigest)
    && row.schedule == (if b.schedule == "" then None else Some(b.schedule))
    && row.tick == (if b.tick == 0 then None else Some(b.tick))
    && row.trigger == (if b.trigger == "" then None else Some(b.trigger)) && row.createdAt == ev.at
  }

  lemma RunStartStep(t: Tables, ev: Event)
    requires ev.body.RunStarted? && Project(t, ev).Some? && RunK(ev.run) !in t
    ensures var u, k := Project(t, ev).value, RunK(ev.run);
            k in u && StartedAs(u[k], ev) && u[k].startedAt.None? && u[k].finishedAt.None? && u[k].status.RunRunning?
  {
    var ws := Writes(t, ev).value;
    ParamsAreNoRun(t, ev.run, ev.body.params, ev.run);
    hide ParamWrites;
    assert ws == [] + [ws[0]] + ws[1..];
    ApplyOnce(t, [], ws[0], ws[1..]);
  }

  /** A run that has its row: what an event makes of it. */
  lemma RunStep(t: Tables, ev: Event, r: RunId)
    requires RunK(r) in t && t[RunK(r)].RunRow? && Project(t, ev).Some?
    ensures var u, k := Project(t, ev).value, RunK(r);
            && k in u && u[k].RunRow?
            && u[k] == t[k].(status := if EndsRun(ev, r) then ev.body.status else t[k].status,
                             finishedAt := if EndsRun(ev, r) then Some(ev.at) else t[k].finishedAt,
                             startedAt := if ev.run == r && ev.body.NodeStarted? && t[k].startedAt.None?
                                          then Some(ev.at) else t[k].startedAt)
  {
    var ws, k := Writes(t, ev).value, RunK(r);
    if MovesRun(ev, r) {
      match ev.body
      case RunStarted(_, _, _, params, _, _, _) =>
        ParamsAreNoRun(t, r, params, r);
        hide ParamWrites;
        RowHistory.ApplyElsewhere(t, ws, k);
      case RunEnded(_, _) =>
        assert ws == [] + [ws[0]] + ws[1..];
        ApplyOnce(t, [], ws[0], ws[1..]);
      case NodeStarted(_, _, _, _, _, _, _) => NodeStartsRun(t, ev);
    } else {
      OthersAreNoRun(t, ev, r);
      hide Writes;
      RowHistory.ApplyElsewhere(t, ws, k);
    }
  }

  lemma NodeStartsRun(t: Tables, ev: Event)
    requires RunK(ev.run) in t && t[RunK(ev.run)].RunRow? && ev.body.NodeStarted? && Project(t, ev).Some?
    ensures var u, k := Project(t, ev).value, RunK(ev.run);
            k in u && u[k] == if t[k].startedAt.None? then t[k].(startedAt := Some(ev.at)) else t[k]
  {
    hide NodeOf, NodeAfter, AttemptAt;
    var ws, k := Writes(t, ev).value, RunK(ev.run);
    if t[k].startedAt.None? {
      assert ws[1].key == k && ws == [ws[0]] + [ws[1]] + ws[2..];
      ApplyOnce(t, [ws[0]], ws[1], ws[2..]);
    } else {
      RowHistory.ApplyElsewhere(t, ws, k);
    }
  }

  ghost predicate FirstOf(evs: seq<Event>, r: RunId, i: nat) {
    i < |evs| && evs[i].run == r && evs[i].body.RunStarted? &&
    forall j :: 0 <= j < i ==> !(evs[j].run == r && evs[j].body.RunStarted?)
  }

  lemma {:induction false} UnstartedHasNoRow(evs: seq<Event>, r: RunId)
    requires Fold(evs).Some? && forall j :: 0 <= j < |evs| ==> !(evs[j].run == r && evs[j].body.RunStarted?)
    ensures RunK(r) !in Fold(evs).value
  {
    hide Project;
    if |evs| > 0 {
      var t, ev := Fold(evs[..|evs| - 1]).value, evs[|evs| - 1];
      UnstartedHasNoRow(evs[..|evs| - 1], r);
      StaysWithoutRun(t, ev, r);
    }
  }

  lemma StaysWithoutRun(t: Tables, ev: Event, r: RunId)
    requires RunK(r) !in t && Project(t, ev).Some? && !(ev.run == r && ev.body.RunStarted?)
    ensures RunK(r) !in Project(t, ev).value
  {
    var ws := Writes(t, ev).value;
    if MovesRun(ev, r) {
      hide NodeOf, NodeAfter, AttemptAt;
    } else {
      OthersAreNoRun(t, ev, r);
      hide Writes;
    }
    RowHistory.ApplyElsewhere(t, ws, RunK(r));
  }

  /** The run's first node starts at j, after the run. */
  ghost predicate FirstNode(evs: seq<Event>, r: RunId, i: nat, j: nat) {
    i < j < |evs| && evs[j].run == r && evs[j].body.NodeStarted? &&
    forall m :: i < m < j ==> !(evs[m].run == r && evs[m].body.NodeStarted?)
  }

  ghost predicate LastEnd(evs: seq<Event>, r: RunId, i: nat, j: nat) {
    i < j < |evs| && EndsRun(evs[j], r) && forall m :: j < m < |evs| ==> !EndsRun(evs[m], r)
  }

  /** The row of a run says what its first start says, when its first node started, and when and how it ended. */
  ghost predicate RunTells(evs: seq<Event>, r: RunId, i: nat, row: Row)
    requires i < |evs| && evs[i].body.RunStarted?
  {
    && StartedAs(row, evs[i])
    && (row.startedAt.None? <==> forall j :: i < j < |evs| ==> !(evs[j].run == r && evs[j].body.NodeStarted?))
    && (forall j: nat :: FirstNode(evs, r, i, j) ==> row.startedAt == Some(evs[j].at))
    && ((forall j :: i < j < |evs| ==> !EndsRun(evs[j], r)) ==> row.finishedAt.None? && row.status.RunRunning?)
    && (forall j: nat :: LastEnd(evs, r, i, j) ==>
                         row.finishedAt == Some(evs[j].at) && row.status == evs[j].body.status)
  }

  lemma RunTellsMore(evs: seq<Event>, r: RunId, i: nat, was: Row, row: Row)
    requires i < |evs| - 1 && evs[..|evs| - 1][i] == evs[i] && evs[i].body.RunStarted?
    requires RunTells(evs[..|evs| - 1], r, i, was)
    requires var ev := evs[|evs| - 1];
             row == was.(status := if EndsRun(ev, r) then ev.body.status else was.status,
                         finishedAt := if EndsRun(ev, r) then Some(ev.at) else was.finishedAt,
                         startedAt := if ev.run == r && ev.body.NodeStarted? && was.startedAt.None? then Some(ev.at)
                                      else was.startedAt)
    ensures RunTells(evs, r, i, row)
  {
    var n, init := |evs| - 1, evs[..|evs| - 1];
    assert forall j :: 0 <= j < n ==> init[j] == evs[j];
    forall j: nat | FirstNode(evs, r, i, j)
      ensures row.startedAt == Some(evs[j].at)
    {
      if j < n { assert FirstNode(init, r, i, j); }
    }
    forall j: nat | LastEnd(evs, r, i, j)
      ensures row.finishedAt == Some(evs[j].at) && row.status == evs[j].body.status
    {
      if j < n { assert LastEnd(init, r, i, j) && !EndsRun(evs[n], r); }
    }
  }

  /** In every log that can be projected a run that was started has a row that tells this. */
  lemma {:induction false} RunRowShows(evs: seq<Event>, r: RunId, i: nat)
    requires Fold(evs).Some? && FirstOf(evs, r, i)
    ensures RunK(r) in Fold(evs).value && RunTells(evs, r, i, Fold(evs).value[RunK(r)])
    decreases |evs|
  {
    hide Project, RunTells;
    var n := |evs| - 1;
    var init := evs[..n];
    assert forall j :: 0 <= j < n ==> init[j] == evs[j];
    if i == n {
      UnstartedHasNoRow(init, r);
      RunStartStep(Fold(init).value, evs[n]);
      TellsAtFirst(evs, r, Fold(evs).value[RunK(r)]);
    } else {
      RunRowShows(init, r, i);
      IsRunRow(init, r, i, Fold(init).value[RunK(r)]);
      RunStep(Fold(init).value, evs[n], r);
      RunTellsMore(evs, r, i, Fold(init).value[RunK(r)], Fold(evs).value[RunK(r)]);
    }
  }

  lemma IsRunRow(evs: seq<Event>, r: RunId, i: nat, row: Row)
    requires i < |evs| && evs[i].body.RunStarted? && RunTells(evs, r, i, row)
    ensures row.RunRow?
  {
  }

  lemma TellsAtFirst(evs: seq<Event>, r: RunId, row: Row)
    requires |evs| > 0 && evs[|evs| - 1].body.RunStarted? && StartedAs(row, evs[|evs| - 1])
    requires row.startedAt.None? && row.finishedAt.None? && row.status.RunRunning?
    ensures RunTells(evs, r, |evs| - 1, row)
  {
  }

  // ---- the parameters of a run ----

  ghost predicate Lists(params: seq<Param>, name: string) { exists j :: 0 <= j < |params| && params[j].name == name }

  /** The first entry of that name. */
  ghost predicate FirstEntry(params: seq<Param>, name: string, j: nat) {
    j < |params| && params[j].name == name && forall i :: 0 <= i < j ==> params[i].name != name
  }

  lemma {:induction false} ParamsApply(t: Tables, r: RunId, params: seq<Param>, name: string)
    requires ParamK(r, name) !in t
    ensures var u, k := Apply(t, ParamWrites(t, r, params)), ParamK(r, name);
            && (k in u <==> Lists(params, name))
            && forall j: nat :: FirstEntry(params, name, j) ==>
                                k in u && u[k] == ParamRow(params[j].kind, params[j].value)
    decreases |params|
  {
    if |params| > 0 {
      var rest, k := ParamWrites(t, r, params[1..]), ParamK(r, name);
      var last := Fresh(t, ParamK(r, params[0].name), ParamRow(params[0].kind, params[0].value));
      ParamsApply(t, r, params[1..], name);
      RecordHistory.AppendApply(t, rest, last);
      if params[0].name == name {
        assert last == [Write(k, ParamRow(params[0].kind, params[0].value))];
        assert forall j: nat :: FirstEntry(params, name, j) ==> j == 0;
      } else {
        RowHistory.ApplyElsewhere(Apply(t, rest), last, k);
        assert Lists(params, name) <==> Lists(params[1..], name) by { ListsLater(params, name); }
        forall j: nat | FirstEntry(params, name, j)
          ensures j > 0 && FirstEntry(params[1..], name, j - 1)
        {
        }
      }
    }
  }

  lemma ListsLater(params: seq<Param>, name: string)
    requires |params| > 0 && params[0].name != name
    ensures Lists(params, name) <==> Lists(params[1..], name)
  {
    if j :| 0 <= j < |params| && params[j].name == name { assert params[1..][j - 1].name == name; }
  }

  /** The event starts the run with a parameter of that name. */
  ghost predicate Gives(ev: Event, r: RunId, name: string) {
    ev.run == r && ev.body.RunStarted? && Lists(ev.body.params, name)
  }

  lemma ParamStep(t: Tables, ev: Event, r: RunId, name: string)
    requires Project(t, ev).Some?
    ensures var u, k := Project(t, ev).value, ParamK(r, name);
            && (k in u <==> k in t || Gives(ev, r, name)) && (k in t ==> u[k] == t[k])
            && (k !in t && Gives(ev, r, name) ==>
                  forall j: nat :: FirstEntry(ev.body.params, name, j) ==>
                                   u[k] == ParamRow(ev.body.params[j].kind, ev.body.params[j].value))
  {
    var ws, k := Writes(t, ev).value, ParamK(r, name);
    if ev.run == r && ev.body.RunStarted? && k !in t {
      StartGives(t, ev, name);
    } else {
      assert RowHistory.NoWrite(ws, k) by {
        if MovesNode(ev.body) { MovesGiveNone(t, ev, k); } else { OthersWrite(t, ev); }
      }
      hide Writes;
      RowHistory.ApplyElsewhere(t, ws, k);
    }
  }

  lemma MovesGiveNone(t: Tables, ev: Event, k: Key)
    requires MovesNode(ev.body) && Writes(t, ev).Some? && k.ParamK?
    ensures RowHistory.NoWrite(Writes(t, ev).value, k)
  {
    hide HasNode, NodeOf, NodeAfter, LatestAttempt, AttemptAt, EndedAttempt, RunRowOf;
  }

  lemma StartGives(t: Tables, ev: Event, name: string)
    requires ev.body.RunStarted? && Project(t, ev).Some? && ParamK(ev.run, name) !in t
    ensures var u, k, params := Project(t, ev).value, ParamK(ev.run, name), ev.body.params;
            && (k in u <==> Lists(params, name))
            && forall j: nat :: FirstEntry(params, name, j) ==>
                                k in u && u[k] == ParamRow(params[j].kind, params[j].value)
  {
    hide FirstRunRow, Lists, FirstEntry, ParamWrites;
    var b := ev.body;
    var digest := if b.digest == "" then RunRowOf(t, ev.run).value.digest else b.digest;
    var run := Fresh(t, RunK(ev.run), FirstRunRow(b, digest, ev.at));
    var params := ParamWrites(t, ev.run, b.params);
    assert Writes(t, ev).value == run + params;
    RecordHistory.AppendApply(t, run, params);
    var u := Apply(t, run);
    assert u == if run == [] then t else t[run[0].key := run[0].row];
    SameParams(t, u, ev.run, b.params);
    ParamsApply(u, ev.run, b.params, name);
  }

  /** A parameter of a run has a row exactly if an event that started the run lists it; the first entry of its name in
      the first such event gives the row for good. */
  lemma {:induction false} ParamRowTells(evs: seq<Event>, r: RunId, name: string)
    requires Fold(evs).Some?
    ensures var t, k := Fold(evs).value, ParamK(r, name);
            && (k in t <==> exists i :: 0 <= i < |evs| && Gives(evs[i], r, name))
            && forall i, j: nat ::
                 0 <= i < |evs| && Gives(evs[i], r, name) && (forall m :: 0 <= m < i ==> !Gives(evs[m], r, name)) &&
                 FirstEntry(evs[i].body.params, name, j) ==>
                   t[k] == ParamRow(evs[i].body.params[j].kind, evs[i].body.params[j].value)
    decreases |evs|
  {
    hide Project, Gives, FirstEntry;
    if |evs| > 0 {
      var n := |evs| - 1;
      var init := evs[..n];
      assert forall i :: 0 <= i < n ==> init[i] == evs[i];
      ParamRowTells(init, r, name);
      ParamStep(Fold(init).value, evs[n], r, name);
    }
  }
}
