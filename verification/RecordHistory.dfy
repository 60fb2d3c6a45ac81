/** The rows that are written once and never change: traversed edges, evaluations, decisions with their links, and the
    outcome of a run. Each says what its event says. */
module RecordHistory {
  import opened Events
  import opened Options
  import opened Projection
  import opened Replay
  import opened RowHistory

  /** A row that an event inserts under its own id. */
  predicate Inserted(k: Key) { k.EdgeK? || k.EvaluationK? || k.DecisionK? || k.LinkK? || k.AnchorK? }

  ghost predicate DistinctIds(evs: seq<Event>) { forall i, j :: 0 <= i < j < |evs| ==> evs[i].id != evs[j].id }

  /** The rows inserted by an event are new and under its id. */
  ghost predicate OwnRows(t: Tables, ev: Event, ws: seq<Write>) {
    forall i :: 0 <= i < |ws| && Inserted(ws[i].key) ==> ws[i].key !in t && ws[i].key.id == ev.id
  }

  lemma MovesInsertNone(t: Tables, ev: Event)
    requires MovesNode(ev.body) && Writes(t, ev).Some?
    ensures OwnRows(t, ev, Writes(t, ev).value)
  {
    hide NodeOf, NodeAfter, HasNode, RunRowOf, LatestAttempt, EndedAttempt, AttemptAt;
    match ev.body
    case NodeStarted(_, _, _, _, _, _, _) =>
    case NodeEnded(_, _, _, _, _, _, _) => EndInsertsNone(t, ev);
    case _ =>
  }

  lemma EndInsertsNone(t: Tables, ev: Event)
    requires ev.body.NodeEnded? && OnNodeEnded(t, ev).Some?
    ensures OwnRows(t, ev, OnNodeEnded(t, ev).value)
  {
    hide NodeOf, NodeAfter, LatestAttempt, EndedAttempt, AttemptAt;
  }

  lemma InsertsAreOwn(t: Tables, ev: Event)
    requires Writes(t, ev).Some?
    ensures OwnRows(t, ev, Writes(t, ev).value)
  {
    if MovesNode(ev.body) {
      MovesInsertNone(t, ev);
    } else {
      OthersWrite(t, ev);
      hide Writes;
    }
  }

  /** A row that is there stays as it is. */
  lemma OldStays(t: Tables, ev: Event, k: Key)
    requires Inserted(k) && k in t && Project(t, ev).Some?
    ensures k in Project(t, ev).value && Project(t, ev).value[k] == t[k]
  {
    InsertsAreOwn(t, ev);
    hide Writes;
    RowHistory.ApplyElsewhere(t, Writes(t, ev).value, k);
  }

  /** Rows come only from events with their id. */
  lemma {:induction false} RowHasEvent(evs: seq<Event>, k: Key)
    requires Inserted(k) && Fold(evs).Some? && k in Fold(evs).value
    ensures exists i :: 0 <= i < |evs| && evs[i].id == k.id
  {
    hide Project;
    if |evs| > 0 {
      var n := |evs| - 1;
      var t := Fold(evs[..n]).value;
      if k in t {
        RowHasEvent(evs[..n], k);
        var i :| 0 <= i < n && evs[..n][i].id == k.id;
        assert evs[i].id == k.id;
      } else {
        NewIsOwn(t, evs[n], k);
      }
    }
  }

  lemma NewIsOwn(t: Tables, ev: Event, k: Key)
    requires Inserted(k) && k !in t && Project(t, ev).Some? && k in Project(t, ev).value
    ensures ev.id == k.id
  {
    InsertsAreOwn(t, ev);
    hide Writes;
    if NoWrite(Writes(t, ev).value, k) { RowHistory.ApplyElsewhere(t, Writes(t, ev).value, k); }
  }

  // ---- what an event inserts ----

  lemma {:induction false} ApplyLast(t: Tables, ws: seq<Write>, k: Key, i: nat)
    requires i < |ws| && ws[i].key == k && forall j :: i < j < |ws| ==> ws[j].key != k
    ensures k in Apply(t, ws) && Apply(t, ws)[k] == ws[i].row
  {
    assert ws == ws[..i] + [ws[i]] + ws[i + 1..];
    AppendApply(t, ws[..i], [ws[i]] + ws[i + 1..]);
    assert ws[..i] + ([ws[i]] + ws[i + 1..]) == ws;
    var u := Apply(t, ws[..i]);
    assert ([ws[i]] + ws[i + 1..])[1..] == ws[i + 1..];
    RowHistory.ApplyElsewhere(u[k := ws[i].row], ws[i + 1..], k);
  }

  lemma {:induction false} AppendApply(t: Tables, a: seq<Write>, b: seq<Write>)
    ensures Apply(t, a + b) == Apply(Apply(t, a), b)
    decreases |a|
  {
    if |a| == 0 {
      assert a + b == b;
    } else {
      assert (a + b)[1..] == a[1..] + b;
      AppendApply(t[a[0].key := a[0].row], a[1..], b);
    }
  }

  /** The j-th link is written, and nothing after it under its key. */
  lemma {:induction false} LinkIsWritten(t: Tables, ev: Event, links: seq<Link>, i: nat, j: nat) returns (p: nat)
    requires j < |links| && LinkK(ev.id, i + j) !in t
    ensures var ws := LinkWrites(t, ev, links, i);
            && p < |ws| && ws[p] == Write(LinkK(ev.id, i + j), LinkRow(ev.id, links[j].target, links[j]))
            && forall q :: p < q < |ws| ==> ws[q].key != LinkK(ev.id, i + j)
    decreases |links|
  {
    var first := EnsureNode(t, ev.run, links[0].target) +
                 Fresh(t, LinkK(ev.id, i), LinkRow(ev.id, links[0].target, links[0]));
    var rest := LinkWrites(t, ev, links[1..], i + 1);
    LaterLinks(t, ev, links[1..], i + 1);
    assert LinkWrites(t, ev, links, i) == first + rest;
    if j == 0 {
      p := |first| - 1;
    } else {
      var q := LinkIsWritten(t, ev, links[1..], i + 1, j - 1);
      p := |first| + q;
      assert links[1..][j - 1] == links[j];
    }
  }

  lemma {:induction false} LaterLinks(t: Tables, ev: Event, links: seq<Link>, i: nat)
    ensures forall q :: 0 <= q < |LinkWrites(t, ev, links, i)| && LinkWrites(t, ev, links, i)[q].key.LinkK? ==>
              LinkWrites(t, ev, links, i)[q].key.i >= i
    decreases |links|
  {
    if |links| > 0 { LaterLinks(t, ev, links[1..], i + 1); }
  }

  /** The rows of an event that records something, each with what the event says. */
  ghost predicate HasRows(t: Tables, ev: Event) {
    match ev.body
    case EdgeTraversed(e, r, n) =>
      EdgeK(ev.id) in t && t[EdgeK(ev.id)] == EdgeRow(e, if r == "" then None else Some(r), n, ev.at)
    case EvaluationFailed(a, who, e) =>
      EvaluationK(ev.id) in t &&
      t[EvaluationK(ev.id)] == EvaluationRow(a, who, if e == "" then None else Some(e), ev.at)
    case DecisionRecorded(n, d, links) =>
      && DecisionK(ev.id) in t && t[DecisionK(ev.id)] == DecisionRow(n, d, ev.at)
      && forall j: nat :: j < |links| ==> LinkRecorded(t, ev.id, links, j)
    case RunEnded(_, _) => AnchorK(ev.id) in t && t[AnchorK(ev.id)].AnchorRow? && t[AnchorK(ev.id)].at == ev.at
    case _ => true
  }

  ghost predicate LinkRecorded(t: Tables, id: Id, links: seq<Link>, j: nat)
    requires j < |links|
  {
    LinkK(id, j) in t && t[LinkK(id, j)] == LinkRow(id, links[j].target, links[j])
  }

  lemma SimpleStep(t: Tables, ev: Event)
    requires ev.body.EdgeTraversed? || ev.body.EvaluationFailed? || ev.body.RunEnded?
    requires Project(t, ev).Some? && EdgeK(ev.id) !in t && EvaluationK(ev.id) !in t && AnchorK(ev.id) !in t
    ensures HasRows(Project(t, ev).value, ev)
  {
    hide RunRowOf;
    var ws := Writes(t, ev).value;
    ApplyLast(t, ws, if ev.body.EdgeTraversed? then EdgeK(ev.id)
                     else if ev.body.EvaluationFailed? then EvaluationK(ev.id) else AnchorK(ev.id),
              if ev.body.RunEnded? then 1 else 0);
  }

  /** What a decision writes: its own row and then its links. */
  lemma DecisionWrites(t: Tables, ev: Event) returns (p: nat)
    requires ev.body.DecisionRecorded? && Project(t, ev).Some? && DecisionK(ev.id) !in t
    ensures var ws, tail := Writes(t, ev).value, LinkWrites(t, ev, ev.body.links, 0);
            && Project(t, ev).value == Apply(t, ws) && p < |ws| && ws[p + 1..] == tail
            && ws[p] == Write(DecisionK(ev.id), DecisionRow(ev.body.node, ev.body.details, ev.at))
  {
    hide LinkWrites;
    p := |EnsureNode(t, ev.run, ev.body.node)|;
  }

  lemma LinkStep(t: Tables, ev: Event, ws: seq<Write>, p: nat, j: nat)
    requires ev.body.DecisionRecorded? && j < |ev.body.links| && LinkK(ev.id, j) !in t
    requires p < |ws| && ws[p + 1..] == LinkWrites(t, ev, ev.body.links, 0)
    ensures LinkRecorded(Apply(t, ws), ev.id, ev.body.links, j)
  {
    var q := LinkIsWritten(t, ev, ev.body.links, 0, j);
    hide LinkWrites;
    assert ws[p + 1 + q] == ws[p + 1..][q];
    assert forall r :: p + 1 + q < r < |ws| ==> ws[r] == ws[p + 1..][r - p - 1];
    ApplyLast(t, ws, LinkK(ev.id, j), p + 1 + q);
  }

  lemma DecisionStep(t: Tables, ev: Event)
    requires ev.body.DecisionRecorded? && Project(t, ev).Some? && DecisionK(ev.id) !in t
    requires forall j: nat :: LinkK(ev.id, j) !in t
    ensures HasRows(Project(t, ev).value, ev)
  {
    var p := DecisionWrites(t, ev);
    var ws := Writes(t, ev).value;
    NoDecisions(t, ev, ev.body.links, 0);
    hide Project, Writes, LinkWrites;
    assert forall r :: p < r < |ws| ==> ws[r] == ws[p + 1..][r - p - 1];
    ApplyLast(t, ws, DecisionK(ev.id), p);
    forall j: nat | j < |ev.body.links|
      ensures LinkRecorded(Project(t, ev).value, ev.id, ev.body.links, j)
    {
      LinkStep(t, ev, ws, p, j);
    }
  }

  lemma {:induction false} NoDecisions(t: Tables, ev: Event, links: seq<Link>, i: nat)
    ensures forall q :: 0 <= q < |LinkWrites(t, ev, links, i)| ==> !LinkWrites(t, ev, links, i)[q].key.DecisionK?
    decreases |links|
  {
    if |links| > 0 { NoDecisions(t, ev, links[1..], i + 1); }
  }

  lemma RowsStay(t: Tables, ev: Event, past: Event)
    requires HasRows(t, past) && Project(t, ev).Some?
    ensures HasRows(Project(t, ev).value, past)
  {
    hide Project;
    match past.body
    case EdgeTraversed(_, _, _) => OldStays(t, ev, EdgeK(past.id));
    case EvaluationFailed(_, _, _) => OldStays(t, ev, EvaluationK(past.id));
    case DecisionRecorded(_, _, links) =>
      OldStays(t, ev, DecisionK(past.id));
      forall j: nat | j < |links|
        ensures LinkRecorded(Project(t, ev).value, past.id, links, j)
      {
        assert LinkRecorded(t, past.id, links, j);
        OldStays(t, ev, LinkK(past.id, j));
      }
    case RunEnded(_, _) => OldStays(t, ev, AnchorK(past.id));
    case _ =>
  }

  lemma NotThereYet(evs: seq<Event>, k: Key)
    requires |evs| > 0 && Fold(evs[..|evs| - 1]).Some? && DistinctIds(evs) && Inserted(k) && k.id == evs[|evs| - 1].id
    ensures k !in Fold(evs[..|evs| - 1]).value
  {
    hide Fold;
    var init := evs[..|evs| - 1];
    assert forall i :: 0 <= i < |init| ==> init[i].id != k.id;
    if k in Fold(init).value { RowHasEvent(init, k); }
  }

  lemma EventRecords(evs: seq<Event>)
    requires |evs| > 0 && Fold(evs).Some? && DistinctIds(evs)
    ensures HasRows(Fold(evs).value, evs[|evs| - 1])
  {
    var n := |evs| - 1;
    var ev, t := evs[n], Fold(evs[..n]).value;
    assert Fold(evs) == Project(t, ev);
    forall k: Key | Inserted(k) && k.id == ev.id
      ensures k !in t
    {
      NotThereYet(evs, k);
    }
    hide Fold, Project, Writes;
    if ev.body.DecisionRecorded? {
      DecisionStep(t, ev);
    } else if ev.body.EdgeTraversed? || ev.body.EvaluationFailed? || ev.body.RunEnded? {
      SimpleStep(t, ev);
    }
  }

  /** In every log that can be projected each event that records something has its rows, unchanged. */
  lemma {:induction false} RecordsTell(evs: seq<Event>, i: nat)
    requires Fold(evs).Some? && DistinctIds(evs) && i < |evs|
    ensures HasRows(Fold(evs).value, evs[i])
    decreases |evs|
  {
    hide Project, HasRows;
    if i == |evs| - 1 {
      EventRecords(evs);
    } else {
      var n := |evs| - 1;
      RecordsTell(evs[..n], i);
      RowsStay(Fold(evs[..n]).value, evs[n], evs[i]);
    }
  }
}
