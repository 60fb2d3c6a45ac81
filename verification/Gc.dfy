/** Garbage collection of finished runs: which runs may go, what is deleted, and what a dry run
    predicts. */
module Gc {
  import opened Collections
  import opened Events
  import opened Options
  import opened Projection
  import Replay

  /** The store: projected tables, the log, and the rows that outlive runs. A metric is anchored to a
      run's outcome; `cited` are the metrics some proposal refers to; a proposal may hold an approval. */
  datatype Db = Db(tables: Tables, log: seq<Event>, metrics: map<nat, Id>, cited: set<nat>,
                   proposals: map<nat, Option<Id>>, schedules: map<string, Option<RunId>>)

  // ---- foreign keys ----

  ghost predicate AttemptExists(t: Tables, id: Id) {
    exists a :: a in t && a.AttemptK? && t[a].AttemptRow? && t[a].id == id
  }

  /** The rows a row refers to exist. */
  ghost predicate RefersToRows(d: Db, k: Key)
    requires k in d.tables
  {
    var t, row := d.tables, d.tables[k];
    match k
    case RunK(_) => true
    case AnchorK(_) => true
    case ParamK(r, _) => RunK(r) in t
    case NodeK(r, _) => RunK(r) in t
    case AttemptK(r, n, _) => row.AttemptRow? && NodeK(r, n) in t
    case EdgeK(e) => RunK(e.run) in t
    case ArtifactK(e) => RunK(e.run) in t
    case EvaluationK(e) => RunK(e.run) in t && row.EvaluationRow? && ArtifactK(row.artifact) in t
    case EffectK(_) => row.EffectRow? && AttemptExists(t, row.attemptId)
    case ApprovalK(e) => RunK(e.run) in t && row.ApprovalRow? && NodeK(e.run, row.about) in t
    case DecisionK(e) => RunK(e.run) in t && row.DecisionRow? && NodeK(e.run, row.about) in t
    case LinkK(e, _) => row.LinkRow? && DecisionK(row.decisionId) in t && NodeK(e.run, row.target) in t
    case OutcomeK(r) => RunK(r) in t && row.OutcomeRow? && AnchorK(row.id) in t
    case WaitK(e) => RunK(e.run) in t && row.WaitRow? && NodeK(e.run, row.about) in t &&
                     (row.completedBy.Some? ==> Replay.HasId(d.log, row.completedBy.value))
  }

  ghost predicate ForeignKeysHold(d: Db) {
    && (forall k :: k in d.tables ==> RefersToRows(d, k))
    && (forall i {:trigger d.log[i]} :: 0 <= i < |d.log| ==>
          RunK(d.log[i].run) in d.tables &&
          (d.log[i].causation.Some? ==> Replay.HasId(d.log, d.log[i].causation.value)))
    && (forall m :: m in d.metrics ==> AnchorK(d.metrics[m]) in d.tables)
    && (forall m :: m in d.cited ==> m in d.metrics)
    && (forall p :: p in d.proposals && d.proposals[p].Some? ==> ApprovalK(d.proposals[p].value) in d.tables)
    && (forall s :: s in d.schedules && d.schedules[s].Some? ==> RunK(d.schedules[s].value) in d.tables)
  }

  /** References between a run's rows stay inside the run, and a run's anchors are those of its outcome. */
  ghost predicate WithinRun(d: Db, k: Key)
    requires k in d.tables
  {
    var t, row := d.tables, d.tables[k];
    match k
    case EvaluationK(e) => row.EvaluationRow? && row.artifact.run == e.run
    case EffectK(e) => row.EffectRow? &&
                       forall a :: a in t && a.AttemptK? && t[a].AttemptRow? && t[a].id == row.attemptId ==>
                                   a.run == e.run
    case LinkK(e, _) => row.LinkRow? && row.decisionId.run == e.run
    case OutcomeK(r) => row.OutcomeRow? && row.id.run == r
    case AnchorK(e) => OutcomeK(e.run) in t && t[OutcomeK(e.run)].OutcomeRow? && t[OutcomeK(e.run)].id == e
    case WaitK(e) => row.WaitRow? && (row.completedBy.Some? ==> row.completedBy.value.run == e.run)
    case _ => true
  }

  ghost predicate RunsAreSeparate(d: Db) {
    && (forall k :: k in d.tables ==> WithinRun(d, k))
    && (forall i {:trigger d.log[i]} :: 0 <= i < |d.log| ==>
          d.log[i].id.run == d.log[i].run &&
          (d.log[i].causation.Some? ==> d.log[i].causation.value.run == d.log[i].run))
  }

  // ---- which runs may be deleted ----

  predicate Terminal(s: RunStatus) { !s.RunRunning? }

  /** No proposal holds an approval of the run. */
  predicate NoHeldApproval(d: Db, r: RunId) {
    forall p :: p in d.proposals ==>
                !(d.proposals[p].Some? && d.proposals[p].value.run == r && ApprovalK(d.proposals[p].value) in d.tables)
  }

  /** No proposal cites a metric of the run's outcome. */
  predicate NoCitedMetric(d: Db, r: RunId) {
    OutcomeK(r) in d.tables && d.tables[OutcomeK(r)].OutcomeRow? ==>
      forall m :: m in d.metrics ==> !(d.metrics[m] == d.tables[OutcomeK(r)].id && m in d.cited)
  }

  predicate MayGo(d: Db, r: RunId) {
    RunK(r) in d.tables && d.tables[RunK(r)].RunRow? && Terminal(d.tables[RunK(r)].status) &&
    NoHeldApproval(d, r) && NoCitedMetric(d, r)
  }

  /** Run a was created after run b; runs of one time are ordered by id. */
  predicate Newer(d: Db, a: RunId, b: RunId)
    requires RunK(a) in d.tables && d.tables[RunK(a)].RunRow? && RunK(b) in d.tables && d.tables[RunK(b)].RunRow?
  {
    var x, y := d.tables[RunK(a)].createdAt, d.tables[RunK(b)].createdAt;
    x > y || (x == y && a > b)
  }

  /** All runs, newest first. */
  ghost predicate NewestFirst(d: Db, runs: seq<RunId>) {
    && (forall i :: 0 <= i < |runs| ==> RunK(runs[i]) in d.tables && d.tables[RunK(runs[i])].RunRow?)
    && (forall r: RunId :: RunK(r) in d.tables ==> r in runs)
    && (forall i, j :: 0 <= i < j < |runs| ==> Newer(d, runs[i], runs[j]))
  }

  predicate Expired(d: Db, r: RunId, cutoff: int)
    requires RunK(r) in d.tables && d.tables[RunK(r)].RunRow?
  {
    d.tables[RunK(r)].finishedAt.Some? && d.tables[RunK(r)].finishedAt.value < cutoff
  }

  /** Keeps as many runs as asked for, if there are so many, each of them newer than every other run. */
  method KeepNewestIds(ghost d: Db, runs: seq<RunId>, keep: int) returns (kept: set<RunId>)
    requires NewestFirst(d, runs)
    ensures forall r :: r in kept ==> r in runs
    ensures |kept| == if keep <= 0 then 0 else if keep < |runs| then keep else |runs|
    ensures forall r, q :: r in kept && q in runs && q !in kept ==>
              && d.tables[RunK(q)].createdAt <= d.tables[RunK(r)].createdAt
              && (d.tables[RunK(q)].createdAt == d.tables[RunK(r)].createdAt ==> q < r)
  {
    kept := {};
    if keep <= 0 {
      return;
    }
    RunsAreDistinct(d, runs);
    var n := if keep < |runs| then keep else |runs|;
    for i := 0 to n
      invariant forall r :: r in kept <==> exists j :: 0 <= j < i && runs[j] == r
      invariant |kept| == i
    {
      kept := kept + {runs[i]};
    }
    forall r, q | r in kept && q in runs && q !in kept
      ensures Newer(d, r, q)
    {
      var i :| 0 <= i < n && runs[i] == r;
      var j :| 0 <= j < |runs| && runs[j] == q;
      assert i < j;
    }
  }

  /** A run that may go and is not among the kept ones. */
  predicate Loose(d: Db, kept: set<RunId>, r: RunId) { MayGo(d, r) && r !in kept }

  predicate Collectable(d: Db, kept: set<RunId>, cutoff: int, r: RunId) { Loose(d, kept, r) && Expired(d, r, cutoff) }

  /** Finished, but without a finish time. */
  predicate Anomalous(d: Db, kept: set<RunId>, r: RunId) { Loose(d, kept, r) && d.tables[RunK(r)].finishedAt.None? }

  /** A run is collected exactly if it has ended, long enough ago, is not kept, no proposal holds one of its approvals
      and none cites a metric of its outcome. */
  lemma CollectedExactlyWhen(d: Db, kept: set<RunId>, cutoff: int, r: RunId)
    ensures Collectable(d, kept, cutoff, r) <==>
            && RunK(r) in d.tables && d.tables[RunK(r)].RunRow? && r !in kept
            && d.tables[RunK(r)].status in {RunCompleted, RunFailed, RunCancelled, RunAbandoned}
            && d.tables[RunK(r)].finishedAt.Some? && d.tables[RunK(r)].finishedAt.value < cutoff
            && (forall p, a: Id :: p in d.proposals && d.proposals[p] == Some(a) && a.run == r ==>
                  ApprovalK(a) !in d.tables)
            && (forall m :: m in d.cited && m in d.metrics && OutcomeK(r) in d.tables &&
                            d.tables[OutcomeK(r)].OutcomeRow? ==>
                  d.metrics[m] != d.tables[OutcomeK(r)].id)
  {
    assert NoHeldApproval(d, r) <==>
           forall p, a: Id :: p in d.proposals && d.proposals[p] == Some(a) && a.run == r ==> ApprovalK(a) !in d.tables;
  }

  /** The runs to delete, newest first, and how many finished runs have no finish time. */
  method Candidates(d: Db, runs: seq<RunId>, kept: set<RunId>, cutoff: int)
    returns (candidates: seq<RunId>, anomalies: nat)
    requires NewestFirst(d, runs)
    ensures forall r :: r in candidates <==> r in runs && Collectable(d, kept, cutoff, r)
    ensures Distinct(candidates)
    ensures anomalies == |set r | r in runs && Anomalous(d, kept, r)|
  {
    RunsAreDistinct(d, runs);
    NoneRepeats();
    hide NewestFirst, Collectable, Anomalous, Distinct;
    candidates, anomalies := [], 0;
    ghost var odd: set<RunId> := {};
    for i := 0 to |runs|
      invariant forall r :: r in candidates <==> r in runs[..i] && Collectable(d, kept, cutoff, r)
      invariant forall r :: r in odd <==> r in runs[..i] && Anomalous(d, kept, r)
      invariant Distinct(candidates) && anomalies == |odd|
    {
      NextRun(runs, i);
      candidates, anomalies, odd := Consider(d, kept, cutoff, runs[i], candidates, anomalies, odd);
    }
    assert runs[..|runs|] == runs;
    assert odd == set r | r in runs && Anomalous(d, kept, r);
  }

  /** One run more is a candidate, an anomaly or neither. */
  method Consider(d: Db, kept: set<RunId>, cutoff: int, r: RunId, before: seq<RunId>, count: nat,
      ghost oddBefore: set<RunId>)
    returns (candidates: seq<RunId>, anomalies: nat, ghost odd: set<RunId>)
    requires r !in before && r !in oddBefore && Distinct(before) && count == |oddBefore|
    ensures forall q :: q in candidates <==> q in before || (q == r && Collectable(d, kept, cutoff, r))
    ensures forall q :: q in odd <==> q in oddBefore || (q == r && Anomalous(d, kept, r))
    ensures Distinct(candidates) && anomalies == |odd|
  {
    candidates, anomalies, odd := before, count, oddBefore;
    var collect, anomalous := Classify(d, kept, cutoff, r);
    hide Collectable, Anomalous, Distinct;
    if anomalous {
      anomalies := anomalies + 1;
      odd := odd + {r};
    } else if collect {
      OneMore(candidates, r);
      candidates := candidates + [r];
    }
  }

  method Classify(d: Db, kept: set<RunId>, cutoff: int, r: RunId) returns (collect: bool, anomalous: bool)
    ensures collect == Collectable(d, kept, cutoff, r) && anomalous == Anomalous(d, kept, r) && !(collect && anomalous)
  {
    collect, anomalous := false, false;
    if !MayGo(d, r) || r in kept { return; }
    if d.tables[RunK(r)].finishedAt.None? {
      anomalous := true;
      return;
    }
    collect := d.tables[RunK(r)].finishedAt.value < cutoff;
  }

  lemma NoneRepeats()
    ensures Distinct<RunId>([])
  {
  }

  lemma OneMore(runs: seq<RunId>, r: RunId)
    requires Distinct(runs) && r !in runs
    ensures Distinct(runs + [r])
  {
  }

  lemma NextRun(runs: seq<RunId>, i: nat)
    requires Distinct(runs) && i < |runs|
    ensures runs[i] !in runs[..i] && forall r :: r in runs[..i + 1] <==> r in runs[..i] || r == runs[i]
  {
    assert runs[..i + 1] == runs[..i] + [runs[i]];
  }

  lemma RunsAreDistinct(d: Db, runs: seq<RunId>)
    requires NewestFirst(d, runs)
    ensures Distinct(runs)
  {
  }

  // ---- deleting ----

  datatype Table =
    | TWait | TLink | TDecision | TEvaluation | TEffect | TArtifact | TOutcome | TMetric | TAnchor | TApproval
    | TAttempt | TEdge | TNode | TParam | TEvent | TRun

  /** Tables in the order in which they are emptied: a table comes before those its query reads. */
  const ORDER: seq<Table> := [TWait, TLink, TDecision, TEvaluation, TEffect, TArtifact, TOutcome, TMetric, TAnchor,
                              TApproval, TAttempt, TEdge, TNode, TParam, TEvent, TRun]

  function TableOf(k: Key): Table {
    match k
    case RunK(_) => TRun
    case ParamK(_, _) => TParam
    case NodeK(_, _) => TNode
    case AttemptK(_, _, _) => TAttempt
    case EdgeK(_) => TEdge
    case ArtifactK(_) => TArtifact
    case EvaluationK(_) => TEvaluation
    case EffectK(_) => TEffect
    case ApprovalK(_) => TApproval
    case DecisionK(_) => TDecision
    case LinkK(_, _) => TLink
    case AnchorK(_) => TAnchor
    case OutcomeK(_) => TOutcome
    case WaitK(_) => TWait
  }

  function Rank(x: Table): nat {
    match x
    case TWait => 0 case TLink => 1 case TDecision => 2 case TEvaluation => 3 case TEffect => 4 case TArtifact => 5
    case TOutcome => 6 case TMetric => 7 case TAnchor => 8 case TApproval => 9 case TAttempt => 10 case TEdge => 11
    case TNode => 12 case TParam => 13 case TEvent => 14 case TRun => 15
  }

  /** The anchors of the outcomes of these runs. */
  function AnchorsOf(t: Tables, runs: set<RunId>): set<Id> {
    set k | k in t && k.OutcomeK? && k.run in runs && t[k].OutcomeRow? :: t[k].id
  }

  /** The rows a table's query selects. Attempts, effects and links are found through the rows they hang on. */
  predicate Selected(t: Tables, runs: set<RunId>, anchors: set<Id>, k: Key)
    requires k in t
  {
    match k
    case AttemptK(r, n, _) => NodeK(r, n) in t && r in runs
    case EffectK(_) =>
      t[k].EffectRow? && exists a :: a in t && a.AttemptK? && t[a].AttemptRow? && t[a].id == t[k].attemptId &&
                                     NodeK(a.run, a.node) in t && a.run in runs
    case LinkK(_, _) => t[k].LinkRow? && DecisionK(t[k].decisionId) in t && t[k].decisionId.run in runs
    case AnchorK(e) => e in anchors
    case _ => k.Owner() in runs
  }

  /** The query of table x selects the row. */
  predicate Picks(t: Tables, runs: set<RunId>, anchors: set<Id>, x: Table, k: Key)
    requires k in t
  {
    TableOf(k) == x && Selected(t, runs, anchors, k)
  }

  function SelectedKeys(t: Tables, runs: set<RunId>, anchors: set<Id>, x: Table): set<Key> {
    set k | k in t && Picks(t, runs, anchors, x, k)
  }

  function SelectedMetrics(d: Db, anchors: set<Id>): set<nat> {
    set m | m in d.metrics && d.metrics[m] in anchors && m !in d.cited
  }

  function CountEvents(log: seq<Event>, runs: set<RunId>): nat {
    if |log| == 0 then 0 else CountEvents(log[..|log| - 1], runs) + if log[|log| - 1].run in runs then 1 else 0
  }

  /** The row count the dry run reports for a table. */
  function DryCount(d: Db, runs: set<RunId>, x: Table): nat {
    if x.TMetric? then |SelectedMetrics(d, AnchorsOf(d.tables, runs))|
    else if x.TEvent? then CountEvents(d.log, runs)
    else |SelectedKeys(d.tables, runs, AnchorsOf(d.tables, runs), x)|
  }

  /** Counts the rows of one table row by row. */
  method CountTable(t: Tables, runs: set<RunId>, anchors: set<Id>, x: Table) returns (n: nat)
    ensures n == |SelectedKeys(t, runs, anchors, x)|
  {
    hide Picks;
    n := 0;
    var rest := t.Keys;
    ghost var counted: set<Key> := {};
    while rest != {}
      invariant rest <= t.Keys && n == |counted|
      invariant forall k :: k in counted <==> k in t && k !in rest && Picks(t, runs, anchors, x, k)
      decreases rest
    {
      var k := AnyOf(rest);
      rest := rest - {k};
      if Picks(t, runs, anchors, x, k) {
        n := n + 1;
        counted := counted + {k};
      }
    }
    assert counted == SelectedKeys(t, runs, anchors, x);
  }

  method CountMetrics(d: Db, anchors: set<Id>) returns (n: nat)
    ensures n == |SelectedMetrics(d, anchors)|
  {
    n := 0;
    var rest := d.metrics.Keys;
    ghost var counted: set<nat> := {};
    while rest != {}
      invariant rest <= d.metrics.Keys && n == |counted|
      invariant forall m :: m in counted <==> m in d.metrics && m !in rest && d.metrics[m] in anchors && m !in d.cited
      decreases rest
    {
      var m := AnyOf(rest);
      rest := rest - {m};
      if d.metrics[m] in anchors && m !in d.cited {
        n := n + 1;
        counted := counted + {m};
      }
    }
    assert counted == SelectedMetrics(d, anchors);
  }

  /** The events of these runs, by position in the log. */
  function EventsOf(log: seq<Event>, runs: set<RunId>): set<nat> { set i: nat | i < |log| && log[i].run in runs }

  method CountLog(log: seq<Event>, runs: set<RunId>) returns (n: nat)
    ensures n == CountEvents(log, runs) == |EventsOf(log, runs)|
  {
    n := 0;
    for i := 0 to |log|
      invariant n == CountEvents(log[..i], runs) == |EventsOf(log[..i], runs)|
    {
      EventsNext(log, runs, i);
      if log[i].run in runs { n := n + 1; }
    }
    assert log[..|log|] == log;
  }

  lemma EventsNext(log: seq<Event>, runs: set<RunId>, i: nat)
    requires i < |log|
    ensures CountEvents(log[..i + 1], runs) == CountEvents(log[..i], runs) + if log[i].run in runs then 1 else 0
    ensures |EventsOf(log[..i + 1], runs)| == |EventsOf(log[..i], runs)| + if log[i].run in runs then 1 else 0
  {
    assert log[..i + 1][..i] == log[..i];
    var before := EventsOf(log[..i], runs);
    assert EventsOf(log[..i + 1], runs) == if log[i].run in runs then before + {i} else before;
  }

  method CountOne(d: Db, runs: set<RunId>, anchors: set<Id>, x: Table) returns (n: nat)
    requires anchors == AnchorsOf(d.tables, runs)
    ensures n == DryCount(d, runs, x)
  {
    hide SelectedKeys, SelectedMetrics, CountEvents, AnchorsOf;
    match x
    case TMetric => n := CountMetrics(d, anchors);
    case TEvent => n := CountLog(d.log, runs);
    case _ => n := CountTable(d.tables, runs, anchors, x);
  }

  /** The dry run counts, table by table, the rows that the deletion selects. */
  method CountRows(d: Db, runs: set<RunId>) returns (counts: map<Table, nat>)
    ensures forall x :: x in counts && counts[x] == DryCount(d, runs, x)
  {
    counts := map[];
    var anchors := AnchorsOf(d.tables, runs);
    for i := 0 to |ORDER|
      invariant forall j :: 0 <= j < i ==> ORDER[j] in counts && counts[ORDER[j]] == DryCount(d, runs, ORDER[j])
    {
      hide DryCount;
      var n := CountOne(d, runs, anchors, ORDER[i]);
      counts := counts[ORDER[i] := n];
    }
    forall x: Table
      ensures x in counts && counts[x] == DryCount(d, runs, x)
    {
      assert ORDER[Rank(x)] == x;
    }
  }

  // ---- what deletion leaves ----

  function WithoutRuns(t: Tables, runs: set<RunId>): Tables { map k | k in t && k.Owner() !in runs :: t[k] }

  function LogWithout(log: seq<Event>, runs: set<RunId>): seq<Event> {
    if |log| == 0 then []
    else LogWithout(log[..|log| - 1], runs) + if log[|log| - 1].run in runs then [] else [log[|log| - 1]]
  }

  /** The database with every row of these runs gone and the schedules' last runs cleared. */
  function Purged(d: Db, runs: set<RunId>): Db {
    Db(WithoutRuns(d.tables, runs), LogWithout(d.log, runs),
       map m | m in d.metrics && d.metrics[m].run !in runs :: d.metrics[m],
       d.cited, d.proposals,
       map s | s in d.schedules ::
         if d.schedules[s].Some? && d.schedules[s].value in runs then None else d.schedules[s])
  }

  lemma {:induction false} LogWithoutKeeps(log: seq<Event>, runs: set<RunId>)
    ensures forall e :: e in LogWithout(log, runs) <==> e in log && e.run !in runs
    ensures |LogWithout(log, runs)| + CountEvents(log, runs) == |log|
  {
    if |log| > 0 {
      LogWithoutKeeps(log[..|log| - 1], runs);
      assert log == log[..|log| - 1] + [log[|log| - 1]];
    }
  }

  lemma LogIdsStay(d: Db, runs: set<RunId>)
    requires RunsAreSeparate(d)
    ensures forall id: Id :: Replay.HasId(d.log, id) && id.run !in runs ==> Replay.HasId(Purged(d, runs).log, id)
  {
    var p := Purged(d, runs);
    LogWithoutKeeps(d.log, runs);
    forall id: Id | Replay.HasId(d.log, id) && id.run !in runs
      ensures Replay.HasId(p.log, id)
    {
      var i :| 0 <= i < |d.log| && d.log[i].id == id;
      assert d.log[i] in p.log;
    }
  }

  lemma LogStaysValid(d: Db, runs: set<RunId>, i: nat)
    requires ForeignKeysHold(d) && RunsAreSeparate(d) && i < |Purged(d, runs).log|
    ensures var p := Purged(d, runs);
            && RunK(p.log[i].run) in p.tables && p.log[i].id.run == p.log[i].run
            && (p.log[i].causation.Some? ==>
                 Replay.HasId(p.log, p.log[i].causation.value) && p.log[i].causation.value.run == p.log[i].run)
  {
    hide RefersToRows, WithinRun;
    var p := Purged(d, runs);
    LogWithoutKeeps(d.log, runs);
    LogIdsStay(d, runs);
    assert p.log[i] in p.log;
    var j :| 0 <= j < |d.log| && d.log[j] == p.log[i];
  }

  lemma ReferrersStayValid(d: Db, runs: set<RunId>)
    requires ForeignKeysHold(d) && RunsAreSeparate(d) && forall r :: r in runs ==> MayGo(d, r)
    ensures var p := Purged(d, runs);
            && (forall m :: m in p.metrics ==> AnchorK(p.metrics[m]) in p.tables)
            && (forall m :: m in p.cited ==> m in p.metrics)
            && (forall x :: x in p.proposals && p.proposals[x].Some? ==> ApprovalK(p.proposals[x].value) in p.tables)
            && (forall x :: x in p.schedules && p.schedules[x].Some? ==> RunK(p.schedules[x].value) in p.tables)
  {
    hide RefersToRows, WithinRun;
    var p := Purged(d, runs);
    forall m | m in d.cited
      ensures m in p.metrics
    {
      CitedMetricStays(d, runs, m);
    }
    forall x | x in p.proposals && p.proposals[x].Some?
      ensures ApprovalK(p.proposals[x].value) in p.tables
    {
      assert p.proposals[x].value.run in runs ==> NoHeldApproval(d, p.proposals[x].value.run);
    }
  }

  /** Deleting runs that may go leaves every foreign key valid. */
  lemma PurgeKeepsForeignKeys(d: Db, runs: set<RunId>)
    requires ForeignKeysHold(d) && RunsAreSeparate(d) && forall r :: r in runs ==> MayGo(d, r)
    ensures ForeignKeysHold(Purged(d, runs)) && RunsAreSeparate(Purged(d, runs))
  {
    hide RefersToRows, WithinRun, Purged;
    var p := Purged(d, runs);
    LogIdsStay(d, runs);
    ReferrersStayValid(d, runs);
    forall k | k in p.tables
      ensures RefersToRows(p, k) && WithinRun(p, k)
    {
      PurgeKeepsRow(d, runs, k);
    }
    forall i | 0 <= i < |p.log|
      ensures RunK(p.log[i].run) in p.tables && p.log[i].id.run == p.log[i].run
      ensures p.log[i].causation.Some? ==>
                Replay.HasId(p.log, p.log[i].causation.value) && p.log[i].causation.value.run == p.log[i].run
    {
      LogStaysValid(d, runs, i);
    }
  }

  lemma CitedMetricStays(d: Db, runs: set<RunId>, m: nat)
    requires ForeignKeysHold(d) && RunsAreSeparate(d) && (forall r :: r in runs ==> MayGo(d, r)) && m in d.cited
    ensures m in d.metrics && d.metrics[m].run !in runs
  {
    var a := AnchorK(d.metrics[m]);
    assert WithinRun(d, a);
    assert d.metrics[m].run in runs ==> NoCitedMetric(d, d.metrics[m].run);
  }

  lemma PurgeKeepsEffect(d: Db, runs: set<RunId>, e: Id)
    requires ForeignKeysHold(d) && RunsAreSeparate(d) && EffectK(e) in Purged(d, runs).tables
    ensures RefersToRows(Purged(d, runs), EffectK(e)) && WithinRun(Purged(d, runs), EffectK(e))
  {
    var k := EffectK(e);
    assert RefersToRows(d, k) && WithinRun(d, k);
    var a :| a in d.tables && a.AttemptK? && d.tables[a].AttemptRow? && d.tables[a].id == d.tables[k].attemptId;
    assert a.run == e.run;
    assert a in Purged(d, runs).tables;
  }

  lemma RowStays(d: Db, p: Db, runs: set<RunId>, k: Key)
    requires k in d.tables && RefersToRows(d, k) && WithinRun(d, k) && !k.EffectK? &&
             p.tables == WithoutRuns(d.tables, runs)
    requires k in p.tables && forall id: Id :: Replay.HasId(d.log, id) && id.run !in runs ==> Replay.HasId(p.log, id)
    ensures RefersToRows(p, k) && WithinRun(p, k)
  {
    hide AttemptExists, Replay.HasId;
  }

  lemma PurgeKeepsRow(d: Db, runs: set<RunId>, k: Key)
    requires ForeignKeysHold(d) && RunsAreSeparate(d) && k in Purged(d, runs).tables
    requires forall id: Id :: Replay.HasId(d.log, id) && id.run !in runs ==> Replay.HasId(Purged(d, runs).log, id)
    ensures RefersToRows(Purged(d, runs), k) && WithinRun(Purged(d, runs), k)
  {
    if k.EffectK? {
      PurgeKeepsEffect(d, runs, k.id);
    } else {
      assert RefersToRows(d, k) && WithinRun(d, k);
      RowStays(d, Purged(d, runs), runs, k);
    }
  }

  // ---- the deleting transaction ----

  /** The tables after the first i tables of the order have been emptied of these runs. */
  function Partial(t: Tables, runs: set<RunId>, i: nat): Tables {
    map k | k in t && !(Rank(TableOf(k)) < i && k.Owner() in runs) :: t[k]
  }

  lemma KeyView(d: Db, k: Key)
    requires ForeignKeysHold(d) && RunsAreSeparate(d) && k in d.tables
    ensures RefersToRows(d, k) && WithinRun(d, k)
  {
  }

  lemma PartialIs(t: Tables, runs: set<RunId>, i: nat)
    ensures forall a: Key :: a in Partial(t, runs, i) <==> a in t && !(Rank(TableOf(a)) < i && a.Owner() in runs)
    ensures forall a: Key :: a in Partial(t, runs, i) ==> Partial(t, runs, i)[a] == t[a]
  {
  }

  lemma SelectsOwnedEffect(d: Db, runs: set<RunId>, i: nat, k: Key)
    requires ForeignKeysHold(d) && RunsAreSeparate(d) && i <= Rank(TableOf(k)) && k in d.tables && k.EffectK?
    ensures k in Partial(d.tables, runs, i)
    ensures Selected(Partial(d.tables, runs, i), runs, AnchorsOf(d.tables, runs), k) <==> k.Owner() in runs
  {
    hide ForeignKeysHold, RunsAreSeparate, Partial, AnchorsOf;
    var t, cur := d.tables, Partial(d.tables, runs, i);
    KeyView(d, k);
    PartialIs(t, runs, i);
    var a :| a in t && a.AttemptK? && t[a].AttemptRow? && t[a].id == t[k].attemptId;
    KeyView(d, a);
    assert a in cur && NodeK(a.run, a.node) in cur;
  }

  lemma SelectsOwnedAnchor(d: Db, runs: set<RunId>, i: nat, k: Key)
    requires ForeignKeysHold(d) && RunsAreSeparate(d) && i <= Rank(TableOf(k)) && k in d.tables && k.AnchorK?
    ensures k in Partial(d.tables, runs, i)
    ensures Selected(Partial(d.tables, runs, i), runs, AnchorsOf(d.tables, runs), k) <==> k.Owner() in runs
  {
    hide ForeignKeysHold, RunsAreSeparate, Partial, RefersToRows;
    var t, e, o := d.tables, k.id, OutcomeK(k.id.run);
    KeyView(d, k);
    KeyView(d, o);
    PartialIs(t, runs, i);
    if e in AnchorsOf(t, runs) {
      var o2 :| o2 in t && o2.OutcomeK? && o2.run in runs && t[o2].OutcomeRow? && t[o2].id == e;
      KeyView(d, o2);
    }
  }

  /** When a table's turn comes, its query selects exactly its rows of these runs. */
  lemma SelectsOwnedRows(d: Db, runs: set<RunId>, i: nat, k: Key)
    requires ForeignKeysHold(d) && RunsAreSeparate(d) && i <= Rank(TableOf(k)) && k in d.tables
    ensures k in Partial(d.tables, runs, i)
    ensures Selected(Partial(d.tables, runs, i), runs, AnchorsOf(d.tables, runs), k) <==> k.Owner() in runs
  {
    hide ForeignKeysHold, RunsAreSeparate, Partial, AnchorsOf;
    if k.EffectK? {
      SelectsOwnedEffect(d, runs, i, k);
    } else if k.AnchorK? {
      SelectsOwnedAnchor(d, runs, i, k);
    } else {
      KeyView(d, k);
      PartialIs(d.tables, runs, i);
    }
  }

  lemma RankNames(x: Table, y: Table)
    ensures Rank(x) < |ORDER| && ORDER[Rank(x)] == x
    ensures Rank(x) == Rank(y) ==> x == y
  {
    assert ORDER[Rank(y)] == y;
  }

  lemma StepSelection(d: Db, runs: set<RunId>, i: nat, x: Table)
    requires ForeignKeysHold(d) && RunsAreSeparate(d) && i == Rank(x)
    ensures SelectedKeys(Partial(d.tables, runs, i), runs, AnchorsOf(d.tables, runs), x) ==
            SelectedKeys(d.tables, runs, AnchorsOf(d.tables, runs), x)
    ensures Partial(d.tables, runs, i) - SelectedKeys(d.tables, runs, AnchorsOf(d.tables, runs), x) ==
            Partial(d.tables, runs, i + 1)
    ensures x.TMetric? || x.TEvent? ==> Partial(d.tables, runs, i) == Partial(d.tables, runs, i + 1)
  {
    hide Selected, TableOf, Rank, RefersToRows, WithinRun, AnchorsOf;
    var all := AnchorsOf(d.tables, runs);
    forall k | k in d.tables && TableOf(k) == x
      ensures k in Partial(d.tables, runs, i)
      ensures Selected(Partial(d.tables, runs, i), runs, all, k) <==> k.Owner() in runs
      ensures Selected(d.tables, runs, all, k) <==> k.Owner() in runs
    {
      SelectsOwnedRows(d, runs, i, k);
      SelectsOwnedRows(d, runs, 0, k);
      assert Partial(d.tables, runs, 0) == d.tables;
    }
    forall k: Key
      ensures Rank(TableOf(k)) == i <==> TableOf(k) == x
    {
      RankNames(TableOf(k), x);
    }
    OtherTables();
    assert x.TMetric? || x.TEvent? ==> forall k :: k in d.tables ==> TableOf(k) != x;
  }

  lemma OtherTables()
    ensures forall k: Key :: !TableOf(k).TMetric? && !TableOf(k).TEvent?
  {
  }

  /** After the metrics have been deleted none hangs on an anchor that is about to go. */
  lemma AnchorsAreFree(d: Db, runs: set<RunId>)
    requires ForeignKeysHold(d) && RunsAreSeparate(d) && forall r :: r in runs ==> MayGo(d, r)
    ensures SelectedMetrics(d, AnchorsOf(d.tables, runs)) == set m | m in d.metrics && d.metrics[m].run in runs
    ensures forall m :: m in d.metrics - SelectedMetrics(d, AnchorsOf(d.tables, runs)) ==>
                        d.metrics[m] !in AnchorsOf(d.tables, runs)
  {
    var all := AnchorsOf(d.tables, runs);
    forall m | m in d.metrics
      ensures d.metrics[m] in all <==> d.metrics[m].run in runs
      ensures d.metrics[m].run in runs ==> m !in d.cited
    {
      var e := d.metrics[m];
      assert AnchorK(e) in d.tables;
      SelectsOwnedRows(d, runs, 0, AnchorK(e));
      assert Partial(d.tables, runs, 0) == d.tables;
      assert WithinRun(d, AnchorK(e));
      assert e.run in runs ==> NoCitedMetric(d, e.run);
    }
  }

  class Collector {
    var tables: Tables
    var log: seq<Event>
    var metrics: map<nat, Id>
    var cited: set<nat>
    var proposals: map<nat, Option<Id>>
    var schedules: map<string, Option<RunId>>

    ghost function View(): Db
      reads this
    {
      Db(tables, log, metrics, cited, proposals, schedules)
    }

    /** DELETE FROM one table. */
    method DeleteFrom(x: Table, runs: set<RunId>, anchors: set<Id>, ghost d: Db) returns (n: nat)
      requires ForeignKeysHold(d) && RunsAreSeparate(d) && anchors == AnchorsOf(d.tables, runs)
      requires forall r :: r in runs ==> MayGo(d, r)
      requires tables == Partial(d.tables, runs, Rank(x)) && cited == d.cited
      requires log == if Rank(x) <= Rank(TEvent) then d.log else LogWithout(d.log, runs)
      requires metrics == if Rank(x) <= Rank(TMetric) then d.metrics else d.metrics - SelectedMetrics(d, anchors)
      modifies this`tables, this`log, this`metrics
      ensures tables == Partial(d.tables, runs, Rank(x) + 1)
      ensures log == if Rank(x) < Rank(TEvent) then d.log else LogWithout(d.log, runs)
      ensures metrics == if Rank(x) < Rank(TMetric) then d.metrics else d.metrics - SelectedMetrics(d, anchors)
      ensures n == DryCount(d, runs, x)
    {
      hide Selected, Purged, TableOf, RefersToRows, WithinRun, AnchorsOf, MayGo, ORDER, Partial;
      StepSelection(d, runs, Rank(x), x);
      AnchorsAreFree(d, runs);
      if x.TMetric? {
        var gone := set m | m in metrics && metrics[m] in anchors && m !in cited;
        metrics := metrics - gone;
        n := |gone|;
      } else if x.TEvent? {
        n := CountEvents(log, runs);
        log := LogWithout(log, runs);
      } else {
        var gone := set k | k in tables && TableOf(k) == x && Selected(tables, runs, anchors, k) &&
                            (k.AnchorK? ==> forall m :: m in metrics ==> metrics[m] != k.id);
        AnchorIdsSelected(tables, runs, anchors, x);
        assert gone == SelectedKeys(tables, runs, anchors, x);
        tables := tables - gone;
        n := |gone|;
      }
    }

    /** Deletes the runs table by table and clears the schedules that name them. */
    method DeleteRuns(runIds: seq<RunId>) returns (counts: map<Table, nat>)
      requires ForeignKeysHold(View()) && RunsAreSeparate(View()) && forall r :: r in runIds ==> MayGo(View(), r)
      modifies this
      ensures View() == Purged(old(View()), (set r | r in runIds))
      ensures forall x :: x in counts && counts[x] == DryCount(old(View()), (set r | r in runIds), x)
    {
      hide Selected, Purged, TableOf, RefersToRows, WithinRun, MayGo, Partial, DryCount, AnchorsOf, ForeignKeysHold,
        RunsAreSeparate, ORDER, Rank, WithoutRuns, SelectedMetrics;
      ghost var d := View();
      var runs := set r | r in runIds;
      LastIsRun();
      counts := ZeroCounts();
      if |runIds| == 0 {
        assert runs == {};
        NothingToDelete(d);
        return;
      }
      var anchors := AnchorsOf(tables, runs);
      PartialEnds(d, runs);
      for i := 0 to |ORDER| - 1
        invariant tables == Partial(d.tables, runs, i) && cited == d.cited && proposals == d.proposals
        invariant schedules == d.schedules
        invariant log == if i <= Rank(TEvent) then d.log else LogWithout(d.log, runs)
        invariant metrics == if i <= Rank(TMetric) then d.metrics else d.metrics - SelectedMetrics(d, anchors)
        invariant forall j :: 0 <= j < i ==> ORDER[j] in counts && counts[ORDER[j]] == DryCount(d, runs, ORDER[j])
      {
        RankOfOrder(i);
        var n := DeleteFrom(ORDER[i], runs, anchors, d);
        counts := counts[ORDER[i] := n];
      }
      ClearSchedules(runIds, runs);
      RankOfOrder(|ORDER| - 1);
      var n := DeleteFrom(TRun, runs, anchors, d);
      counts := counts[TRun := n];
      AllCounted(d, runs, counts);
      AnchorsAreFree(d, runs);
      PurgedParts(d, runs, View());
    }

    /** UPDATE schedule SET last_run_id = NULL, one deleted run at a time. */
    method ClearSchedules(runIds: seq<RunId>, ghost runs: set<RunId>)
      requires runs == set r | r in runIds
      modifies this`schedules
      ensures schedules == map s | s in old(schedules) ::
                if old(schedules)[s].Some? && old(schedules)[s].value in runs then None else old(schedules)[s]
    {
      ghost var before := schedules;
      for i := 0 to |runIds|
        invariant schedules == map s | s in before ::
                    if before[s].Some? && before[s].value in runIds[..i] then None else before[s]
      {
        assert runIds[..i + 1] == runIds[..i] + [runIds[i]];
        schedules := map s | s in schedules :: if schedules[s] == Some(runIds[i]) then None else schedules[s];
      }
      assert runIds[..|runIds|] == runIds;
    }
  }

  lemma NoneSelected(t: Tables, x: Table)
    ensures AnchorsOf(t, {}) == {} && SelectedKeys(t, {}, {}, x) == {}
  {
    forall k | k in t
      ensures !Selected(t, {}, {}, k)
    {
    }
  }

  lemma NothingToDelete(d: Db)
    ensures d == Purged(d, {}) && forall x :: DryCount(d, {}, x) == 0
  {
    hide SelectedKeys, AnchorsOf;
    LogWithoutNone(d.log);
    assert WithoutRuns(d.tables, {}) == d.tables;
    PurgedParts(d, {}, d);
    forall x: Table
      ensures DryCount(d, {}, x) == 0
    {
      NoneSelected(d.tables, x);
      assert SelectedMetrics(d, {}) == {};
    }
  }

  lemma {:induction false} LogWithoutNone(log: seq<Event>)
    ensures LogWithout(log, {}) == log && CountEvents(log, {}) == 0
  {
    if |log| > 0 {
      LogWithoutNone(log[..|log| - 1]);
      assert log == log[..|log| - 1] + [log[|log| - 1]];
    }
  }

  method ZeroCounts() returns (counts: map<Table, nat>)
    ensures forall x :: x in counts && counts[x] == 0
  {
    counts := map[];
    for i := 0 to |ORDER|
      invariant forall j :: 0 <= j < i ==> ORDER[j] in counts && counts[ORDER[j]] == 0
    {
      counts := counts[ORDER[i] := 0];
    }
    forall x: Table
      ensures x in counts && counts[x] == 0
    {
      RankNames(x, x);
      assert ORDER[Rank(x)] in counts;
    }
  }

  lemma LastIsRun()
    ensures |ORDER| == 16 && ORDER[15] == TRun && Rank(TRun) == 15 && Rank(TEvent) == 14 && Rank(TMetric) == 7
  {
  }

  lemma RankOfOrder(i: nat)
    requires i < |ORDER|
    ensures Rank(ORDER[i]) == i
  {
  }

  lemma PartialEnds(d: Db, runs: set<RunId>)
    ensures Partial(d.tables, runs, 0) == d.tables && Partial(d.tables, runs, |ORDER|) == WithoutRuns(d.tables, runs)
  {
    forall k: Key
      ensures Rank(TableOf(k)) < |ORDER|
    {
      RankNames(TableOf(k), TableOf(k));
    }
  }

  lemma AllCounted(d: Db, runs: set<RunId>, counts: map<Table, nat>)
    requires forall j :: 0 <= j < |ORDER| ==> ORDER[j] in counts && counts[ORDER[j]] == DryCount(d, runs, ORDER[j])
    ensures forall x :: x in counts && counts[x] == DryCount(d, runs, x)
  {
    forall x: Table
      ensures x in counts && counts[x] == DryCount(d, runs, x)
    {
      RankNames(x, x);
      assert ORDER[Rank(x)] in counts;
    }
  }

  lemma PurgedParts(d: Db, runs: set<RunId>, p: Db)
    requires p.tables == WithoutRuns(d.tables, runs) && p.log == LogWithout(d.log, runs)
    requires p.metrics == d.metrics - (set m | m in d.metrics && d.metrics[m].run in runs)
    requires p.cited == d.cited && p.proposals == d.proposals
    requires p.schedules == map s | s in d.schedules ::
                if d.schedules[s].Some? && d.schedules[s].value in runs then None else d.schedules[s]
    ensures p == Purged(d, runs)
  {
  }

  lemma AnchorIdsSelected(t: Tables, runs: set<RunId>, anchors: set<Id>, x: Table)
    ensures forall k :: k in t && k.AnchorK? && Selected(t, runs, anchors, k) ==> k.id in anchors
    ensures forall k: Key :: k.AnchorK? && TableOf(k) == x ==> x.TAnchor?
  {
  }

  // ---- collecting and rebuilding ----

  lemma {:induction false} ApplyWithout(t: Tables, ws: seq<Write>, r: RunId, runs: set<RunId>)
    requires Replay.OwnedBy(ws, r) && r !in runs
    ensures Apply(WithoutRuns(t, runs), ws) == WithoutRuns(Apply(t, ws), runs)
    decreases |ws|
  {
    if |ws| > 0 {
      var k, row := ws[0].key, ws[0].row;
      assert WithoutRuns(t, runs)[k := row] == WithoutRuns(t[k := row], runs);
      ApplyWithout(t[k := row], ws[1..], r, runs);
    }
  }

  lemma ProjectWithout(t: Tables, ev: Event, runs: set<RunId>)
    requires Replay.LocalIds(ev) && Project(t, ev).Some?
    ensures ev.run in runs ==> WithoutRuns(Project(t, ev).value, runs) == WithoutRuns(t, runs)
    ensures ev.run !in runs ==> Project(WithoutRuns(t, runs), ev) == Some(WithoutRuns(Project(t, ev).value, runs))
  {
    hide Writes;
    var w := WithoutRuns(t, runs);
    Replay.HandlersAreLocal(t, t, ev);
    var ws := Writes(t, ev).value;
    if ev.run in runs {
      forall k: Key | k.Owner() !in runs
        ensures k in Apply(t, ws) <==> k in t
        ensures k in t ==> Apply(t, ws)[k] == t[k]
      {
        Replay.ApplyElsewhere(t, ws, ev.run, k.Owner());
      }
    } else {
      Replay.HandlersAreLocal(w, t, ev);
      ApplyWithout(t, ws, ev.run, runs);
      assert forall o :: o in w ==> o in t && w[o] == t[o];
    }
  }

  /** The remaining events make exactly the remaining rows. */
  lemma {:induction false} FoldWithout(log: seq<Event>, runs: set<RunId>)
    requires Replay.AllLocal(log) && Replay.Fold(log).Some?
    ensures Replay.Fold(LogWithout(log, runs)) == Some(WithoutRuns(Replay.Fold(log).value, runs))
  {
    hide Project;
    if |log| > 0 {
      var init, ev := log[..|log| - 1], log[|log| - 1];
      FoldWithout(init, runs);
      ProjectWithout(Replay.Fold(init).value, ev, runs);
      if ev.run !in runs {
        assert LogWithout(log, runs)[..|LogWithout(log, runs)| - 1] == LogWithout(init, runs);
      } else {
        assert LogWithout(log, runs) == LogWithout(init, runs);
      }
    }
  }

  lemma {:induction false} HistoryWithout(log: seq<Event>, runs: set<RunId>, r: RunId)
    ensures Replay.History(LogWithout(log, runs), r) == if r in runs then [] else Replay.History(log, r)
  {
    if |log| > 0 {
      var init, ev := log[..|log| - 1], log[|log| - 1];
      HistoryWithout(init, runs, r);
      if ev.run !in runs {
        assert LogWithout(log, runs)[..|LogWithout(log, runs)| - 1] == LogWithout(init, runs);
      } else {
        assert LogWithout(log, runs) == LogWithout(init, runs);
      }
    }
  }

  lemma {:induction false} LocalWithout(log: seq<Event>, runs: set<RunId>)
    requires Replay.AllLocal(log)
    ensures Replay.AllLocal(LogWithout(log, runs))
  {
    if |log| > 0 { LocalWithout(log[..|log| - 1], runs); }
  }

  /** A request of a remaining run clashes with a pending wait of an earlier remaining run. */
  ghost predicate RemainingClash(t: Tables, log: seq<Event>, runs: set<RunId>, r: RunId, m: nat) {
    && r !in runs && Replay.NewRequest(Replay.History(log, r), m)
    && var ev := Replay.History(log, r)[m];
       exists o :: o in t && o.Owner() < r && o.Owner() !in runs &&
                   HoldsPair(t, o, WaitOf(ev.body.wait, ev), ev.body.eventType, ev.body.correlationKey)
  }

  lemma NoRequestInNothing(m: nat)
    ensures !Replay.NewRequest([], m)
  {
  }

  /** The clashes of what a collection leaves are the clashes between remaining runs. */
  lemma ClashWithout(t: Tables, log: seq<Event>, runs: set<RunId>, r: RunId, m: nat)
    ensures Replay.Clash(WithoutRuns(t, runs), LogWithout(log, runs), r, m) <==> RemainingClash(t, log, runs, r, m)
  {
    hide Replay.NewRequest;
    HistoryWithout(log, runs, r);
    NoRequestInNothing(m);
    if r !in runs && Replay.NewRequest(Replay.History(log, r), m) {
      RequestIndex(Replay.History(log, r), m);
      var ev := Replay.History(log, r)[m];
      var k := WaitOf(ev.body.wait, ev);
      forall o
        ensures o in WithoutRuns(t, runs) &&
                HoldsPair(WithoutRuns(t, runs), o, k, ev.body.eventType, ev.body.correlationKey) <==>
                o in t && o.Owner() !in runs && HoldsPair(t, o, k, ev.body.eventType, ev.body.correlationKey)
      {
      }
    }
  }

  lemma RequestIndex(evs: seq<Event>, m: nat)
    requires Replay.NewRequest(evs, m)
    ensures m < |evs| && evs[m].body.WaitRequested?
  {
  }

  /** After runs of a live store were collected, reading the remaining log run by run gives the remaining
      tables exactly if no request of a remaining run clashes with another remaining run. */
  lemma RebuildAfterCollecting(steps: seq<Replay.Step>, runs: set<RunId>, rest: seq<Event>)
    requires Replay.Live(steps).Some? && Replay.AllLocal(Replay.Live(steps).value.log)
    requires Replay.IsReplayOrder(LogWithout(Replay.Live(steps).value.log, runs), rest)
    ensures var g := Replay.Live(steps).value;
            && (Replay.Fold(rest).Some? <==>
                forall r, m {:trigger RemainingClash(g.tables, g.log, runs, r, m)} ::
                  !RemainingClash(g.tables, g.log, runs, r, m))
            && (Replay.Fold(rest).Some? ==> Replay.Fold(rest).value == WithoutRuns(g.tables, runs))
  {
    hide Replay.Clash, RemainingClash, Replay.AllLocal;
    var g := Replay.Live(steps).value;
    Replay.LiveIsFold(steps);
    FoldWithout(g.log, runs);
    LocalWithout(g.log, runs);
    forall r
      ensures Replay.Increasing(Replay.History(LogWithout(g.log, runs), r))
    {
      HistoryWithout(g.log, runs, r);
      Replay.LiveHistoriesIncrease(steps, r);
    }
    Replay.ReplayTheorem(LogWithout(g.log, runs), WithoutRuns(g.tables, runs), rest);
    forall r, m: nat
      ensures Replay.Clash(WithoutRuns(g.tables, runs), LogWithout(g.log, runs), r, m) <==>
              RemainingClash(g.tables, g.log, runs, r, m)
    {
      ClashWithout(g.tables, g.log, runs, r, m);
    }
  }

  lemma RemainingWasThere(t: Tables, log: seq<Event>, runs: set<RunId>, r: RunId, m: nat)
    requires RemainingClash(t, log, runs, r, m)
    ensures Replay.Clash(t, log, r, m)
  {
  }

  /** In particular a store that could be rebuilt before a collection can be rebuilt afterwards. */
  lemma CollectingKeepsRebuildable(steps: seq<Replay.Step>, runs: set<RunId>, full: seq<Event>, rest: seq<Event>)
    requires Replay.Live(steps).Some? && Replay.AllLocal(Replay.Live(steps).value.log)
    requires Replay.IsReplayOrder(Replay.Live(steps).value.log, full) && Replay.Fold(full).Some?
    requires Replay.IsReplayOrder(LogWithout(Replay.Live(steps).value.log, runs), rest)
    ensures Replay.Fold(rest) == Some(WithoutRuns(Replay.Live(steps).value.tables, runs))
  {
    hide Replay.Clash, RemainingClash;
    var g := Replay.Live(steps).value;
    Replay.RebuildTheorem(steps, full);
    RebuildAfterCollecting(steps, runs, rest);
    forall r, m: nat
      ensures !RemainingClash(g.tables, g.log, runs, r, m)
    {
      if RemainingClash(g.tables, g.log, runs, r, m) { RemainingWasThere(g.tables, g.log, runs, r, m); }
    }
  }
}
