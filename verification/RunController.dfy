/** The controller of one run: the loops that read its rows and append its events, each shown to do what
    the step functions of RunEngine say. */
module RunController {
  import opened Collections
  import opened Events
  import opened OperationKeys
  import opened Options
  import opened RunEngine
  import opened RunSafety
  import RunSteps
  import opened RunTheorems

  lemma LogAllSnoc(s: RunState, bs: seq<Body>, b: Body, at: int)
    ensures LogAll(s, bs + [b], at) == Log(LogAll(s, bs, at), b, at)
  {
    LogAllAppend(s, bs, [b], at);
    LogOne(LogAll(s, bs, at), b, at);
  }

  lemma Prefixes<T>(xs: seq<T>, i: nat)
    requires i < |xs|
    ensures xs[..i + 1][..i] == xs[..i] && xs[..i + 1][i] == xs[i]
  {
  }

  /** The nodes of `order` that are eligible, in that order. */
  function EligibleIn(g: Graph, s: RunState, order: seq<string>): seq<string> {
    if |order| == 0 then []
    else EligibleIn(g, s, order[..|order| - 1]) +
         if RunEngine.Eligible(g, s, order[|order| - 1]) then [order[|order| - 1]] else []
  }

  lemma {:induction false} EligibleInIs(g: Graph, s: RunState, order: seq<string>)
    ensures forall n :: n in EligibleIn(g, s, order) <==> n in order && RunEngine.Eligible(g, s, n)
  {
    hide RunEngine.Eligible;
    if |order| > 0 {
      EligibleInIs(g, s, order[..|order| - 1]);
      assert order == order[..|order| - 1] + [order[|order| - 1]];
    }
  }

  /** The nodes a step lists are the eligible ones, in key order. */
  lemma ListsTheEligible(g: Graph, s: RunState)
    requires ValidGraph(g)
    ensures forall n :: n in List(g, s) <==> n in EligibleIn(g, s, g.order)
  {
    hide RunEngine.Eligible;
    EligibleInIs(g, s, g.order);
  }

  /** The statuses that the completion query counts as active. */
  const ACTIVE: set<NodeStatus> := {
    Pending, Eligible, Leased, Running, Uncertain, Waiting, Reconciling, CancelRequested
  }

  lemma ActiveIs()
    ensures forall st :: st in ACTIVE <==> Active(st)
  {
  }

  class Controller {
    const g: Graph
    var acts: seq<Act>
    var status: RunStatus
    var nodes: map<string, NodeRow>
    var latest: map<string, int>
    var traversed: set<string>
    var waits: map<nat, WaitState>
    var approvals: map<nat, ApprovalState>
    var batch: map<string, Flight>
    var rounds: nat
    var checked: bool
    var scan: seq<Visit>

    constructor (graph: Graph)
      ensures g == graph && State() == START
    {
      g := graph;
      acts, status, nodes, latest, traversed := [], RunRunning, map[], map[], {};
      waits, approvals, batch, rounds, checked, scan := map[], map[], map[], 0, false, [];
    }

    ghost function State(): RunState
      reads this
    {
      RunState(acts, status, nodes, latest, traversed, waits, approvals, batch, rounds, checked, scan)
    }

    method EnsureRow(n: string)
      modifies `nodes
      ensures nodes == Ensure(old(nodes), n)
    {
      if n !in nodes { nodes := nodes[n := PENDING]; }
      assert nodes == Ensure(old(nodes), n);
    }

    method EnsureTargets(links: seq<Link>)
      modifies `nodes
      ensures nodes == EnsureLinks(old(nodes), links)
    {
      var i := 0;
      while i < |links|
        invariant 0 <= i <= |links| && EnsureLinks(nodes, links[i..]) == EnsureLinks(old(nodes), links)
      {
        EnsureRow(links[i].target);
        assert links[i..][1..] == links[i + 1..];
        i := i + 1;
      }
    }

    method EndWaitRow(w: nat)
      modifies `waits
      ensures waits == EndWait(old(State()), w)
    {
      if w in waits { waits := waits[w := waits[w].(pending := false)]; }
    }

    method ProjectNodes(b: Body, at: int)
      modifies `nodes
      ensures nodes == Touch(old(nodes), b, at)
    {
      if MovesNode(b) {
        if !NeedsNode(b) { EnsureRow(b.node); }
        if b.node in nodes { nodes := nodes[b.node := NodeAfter(nodes[b.node], b, at)]; }
        assert nodes == Touch(old(nodes), b, at);
      } else if b.DecisionRecorded? {
        EnsureRow(b.node);
        EnsureTargets(b.links);
      } else if b.WaitRequested? {
        EnsureRow(b.node);
      }
    }

    method ProjectWaits(b: Body, at: int, ghost s: RunState)
      requires waits == s.waits
      modifies `waits
      ensures waits == Log(s, b, at).waits
    {
      RunSteps.LogWaits(s, b, at);
      hide Log;
      match b
      case WaitRequested(w, n, _, _, _, _) => waits := waits[WaitNo(w) := WaitState(n, true)];
      case WaitCompleted(w, _, _) => EndWaitRow(WaitNo(w));
      case WaitExpired(w) => EndWaitRow(WaitNo(w));
      case WaitCancelled(w) => EndWaitRow(WaitNo(w));
      case _ =>
    }

    method ProjectApprovals(b: Body, at: int, ghost s: RunState)
      requires approvals == s.approvals && acts == s.acts
      modifies `approvals
      ensures approvals == Log(s, b, at).approvals
    {
      RunSteps.LogApprovals(s, b, at);
      hide Log;
      match b
      case ApprovalRequested(n, _, _, _) => approvals := approvals[|acts| := ApprovalState(n, Open)];
      case ApprovalDecided(_, a, _, _) =>
        if a.n in approvals {
          approvals := approvals[a.n := approvals[a.n].(verdict := Decided)];
        }
      case _ =>
    }

    method ProjectLatest(b: Body, at: int, ghost s: RunState)
      requires latest == s.latest
      modifies `latest
      ensures latest == Log(s, b, at).latest
    {
      RunSteps.LogLatest(s, b, at);
      hide Log;
      if (b.NodeStarted? || b.NodeEnded?) && b.opKey != "" {
        latest := latest[b.node := if b.node in latest then Max(latest[b.node], b.attemptNo) else b.attemptNo];
      }
    }

    /** One event, appended and projected. */
    method Append(b: Body, at: int)
      modifies this
      ensures State() == Log(old(State()), b, at)
    {
      ghost var s := State();
      RunSteps.LogRest(s, b, at);
      hide Log, Touch;
      ProjectNodes(b, at);
      ProjectWaits(b, at, s);
      ProjectApprovals(b, at, s);
      ProjectLatest(b, at, s);
      if b.EdgeTraversed? { traversed := traversed + {b.edge}; }
      if b.RunEnded? { status := b.status; }
      acts := acts + [Logged(b)];
    }

    // ---- choosing what to run ----

    method IsDone(n: string) returns (r: bool)
      ensures r == Done(State(), n)
    {
      r := n in nodes && (nodes[n].status.Succeeded? || nodes[n].status.Skipped?);
    }

    method IsReady(n: string) returns (ready: bool)
      ensures ready == Ready(g, State(), n)
    {
      ready := true;
      var i := 0;
      while i < |g.edges|
        invariant 0 <= i <= |g.edges|
        invariant ready == forall j {:trigger g.edges[j]} :: 0 <= j < i && g.edges[j].to == n ==>
            && (IsDependency(g.edges[j].typ) ==> Done(State(), g.edges[j].from))
            && (g.edges[j].typ.RoutesTo? ==> g.edges[j].id in traversed)
      {
        var e := g.edges[i];
        if e.to == n {
          match e.typ
          case DependsOn | Produces | Consumes =>
            var d := IsDone(e.from);
            if !d { ready := false; }
          case RoutesTo => if e.id !in traversed { ready := false; }
          case OtherEdge =>
        }
        if !ready { return; }
        i := i + 1;
      }
    }

    /** The nodes to run next, in key order. */
    method EligibleNodes() returns (out: seq<string>)
      ensures out == EligibleIn(g, State(), g.order)
    {
      out := [];
      var i := 0;
      while i < |g.order|
        invariant 0 <= i <= |g.order| && out == EligibleIn(g, State(), g.order[..i])
      {
        var n := g.order[i];
        Prefixes(g.order, i);
        if n in nodes && !nodes[n].status.Pending? {
          if nodes[n].status.Eligible? { out := out + [n]; }
        } else {
          var ready := IsReady(n);
          if ready { out := out + [n]; }
        }
        i := i + 1;
      }
      assert g.order[..i] == g.order;
    }

    /** The claim transaction of a listed node. */
    method Claim(n: string, at: int) returns (claimed: bool)
      requires n in g.defs
      modifies this
      ensures State() == Next(g, old(State()), Step.Claim(n), at)
      ensures claimed <==> old(IsListed(State(), n) && Claimable(State(), n))
    {
      claimed := false;
      if n !in batch || !batch[n].Listed? { return; }
      if n in nodes && !nodes[n].status.Eligible? && !nodes[n].status.Pending? {
        batch := batch - {n};
        return;
      }
      var a, before := batch[n].attempt, batch;
      Append(if g.defs[n].Task? then Started(n, a, OperationKey(g.run, n, a)) else Started(n, 1, ""), at);
      batch := before[n := Flying(a)];
      claimed := true;
    }

    // ---- finishing a node ----

    method OnlyIncomingRoutesFrom(to: string, n: string) returns (r: bool)
      ensures r == OnlyRoutesFrom(g, to, n)
    {
      var count, i := 0, 0;
      while i < |g.edges|
        invariant 0 <= i <= |g.edges| && count >= 0
        invariant count == 0 <==>
                  forall j :: 0 <= j < i && g.edges[j].to == to && g.edges[j].typ.RoutesTo? ==> g.edges[j].from == n
      {
        if g.edges[i].to == to && g.edges[i].typ.RoutesTo? && g.edges[i].from != n { count := count + 1; }
        i := i + 1;
      }
      r := count == 0;
    }

    method TraverseEdge(e: EdgeDef, n: string, route: Option<string>, at: int) returns (selected: bool)
      modifies this
      ensures selected <==> e.from == n && Selects(e, route)
      ensures State() == if e.from == n && (IsDependency(e.typ) || Selects(e, route))
                         then Log(old(State()), EdgeTraversed(e.id, if e.typ.RoutesTo? then e.cond else "", 0), at)
                         else old(State())
    {
      hide Log;
      selected := false;
      if e.from == n {
        match e.typ
        case DependsOn | Produces | Consumes => Append(EdgeTraversed(e.id, "", 0), at);
        case RoutesTo =>
          if route.Some? && (e.cond == "" || route.value == e.cond) {
            Append(EdgeTraversed(e.id, e.cond, 0), at);
            selected := true;
          }
        case OtherEdge =>
      }
    }

    method Traverse(n: string, route: Option<string>, at: int) returns (selectedTargets: set<string>)
      modifies this
      ensures State() == LogAll(old(State()), Traversals(g.edges, n, route), at)
      ensures forall x :: x in selectedTargets <==> SelectedTarget(g, n, route, x)
    {
      hide Log, LogAll, State, SelectedIn, SelectedTarget;
      ghost var s := State();
      LogOne(s, NodeSkipped(n), at);
      NoneSelected(n, route);
      selectedTargets := {};
      var i := 0;
      while i < |g.edges|
        invariant 0 <= i <= |g.edges| && State() == LogAll(s, Traversals(g.edges[..i], n, route), at)
        invariant forall x :: x in selectedTargets <==> SelectedIn(g.edges[..i], n, route, x)
      {
        var e := g.edges[i];
        Prefixes(g.edges, i);
        SelectedNext(g.edges, i, n, route);
        ghost var bs, b := Traversals(g.edges[..i], n, route),
                           EdgeTraversed(e.id, if e.typ.RoutesTo? then e.cond else "", 0);
        LogAllSnoc(s, bs, b, at);
        assert Traversals(g.edges[..i + 1], n, route) ==
               if e.from == n && (IsDependency(e.typ) || Selects(e, route)) then bs + [b] else bs + [];
        assert bs + [] == bs;
        var selected := TraverseEdge(e, n, route, at);
        if selected { selectedTargets := selectedTargets + {e.to}; }
        i := i + 1;
      }
      assert g.edges[..i] == g.edges;
      AllSelected(g, n, route);
    }

    method BlockedTargets(n: string, route: Option<string>, selectedTargets: set<string>) returns (skipped: seq<string>)
      requires forall x :: x in selectedTargets <==> SelectedTarget(g, n, route, x)
      ensures skipped == Blocked(g, g.edges, n, route)
    {
      skipped := [];
      var i := 0;
      while i < |g.edges|
        invariant 0 <= i <= |g.edges| && skipped == Blocked(g, g.edges[..i], n, route)
      {
        var e := g.edges[i];
        Prefixes(g.edges, i);
        var only := OnlyIncomingRoutesFrom(e.to, n);
        if e.from == n && e.typ.RoutesTo? && e.to !in selectedTargets && only {
          if e.to !in skipped { skipped := skipped + [e.to]; }
        }
        i := i + 1;
      }
      assert g.edges[..i] == g.edges;
    }

    method SkipBlocked(n: string, skipped: seq<string>, at: int)
      requires Distinct(skipped)
      modifies this
      ensures State() == LogAll(old(State()), Skips(old(nodes), skipped), at)
    {
      var i := 0;
      while i < |skipped|
        invariant 0 <= i <= |skipped| && State() == LogAll(old(State()), Skips(old(nodes), skipped[..i]), at)
        invariant forall x :: x !in skipped[..i] ==> (x in nodes <==> x in old(nodes))
      {
        var key := skipped[i];
        Prefixes(skipped, i);
        assert key !in skipped[..i];
        ghost var bs := Skips(old(nodes), skipped[..i]);
        if key !in nodes {
          LogAllSnoc(old(State()), bs, NodeSkipped(key), at);
          Append(NodeSkipped(key), at);
        } else {
          assert Skips(old(nodes), skipped[..i + 1]) == bs;
        }
        i := i + 1;
      }
      assert skipped[..i] == skipped;
    }

    method RecordSelection(e: EdgeDef, n: string, route: Option<string>, first: bool, blocked: seq<string>, at: int)
      returns (chosen: bool)
      modifies this
      ensures chosen <==> e.from == n && Selects(e, route)
      ensures State() == if chosen then Log(old(State()), SelectionOf(e, n, first, blocked), at) else old(State())
    {
      hide Log, State;
      chosen := e.from == n && e.typ.RoutesTo? && route.Some? && (e.cond == "" || e.cond == route.value);
      if chosen { Append(SelectionOf(e, n, first, blocked), at); }
    }

    /** One decision per selected edge, or one that rejects every candidate. */
    method RecordRouting(n: string, route: Option<string>, blocked: seq<string>, at: int)
      requires blocked == Blocked(g, g.edges, n, route)
      modifies this
      ensures State() == LogAll(old(State()), Decisions(g, n, route), at)
    {
      hide Log, LogAll, State, Selects, SelectionOf, BlockedLinks;
      ghost var s := State();
      var candidates, selected, i := 0, 0, 0;
      LogOne(s, NodeSkipped(n), at);
      while i < |g.edges|
        invariant 0 <= i <= |g.edges| && State() == LogAll(s, RoutingDecisions(g.edges[..i], n, route, blocked), at)
        invariant candidates == Candidates(g.edges[..i], n)
        invariant selected == |RoutingDecisions(g.edges[..i], n, route, blocked)| <= candidates
      {
        var e := g.edges[i];
        RoutingNext(g.edges, i, n, route, blocked);
        hide RoutingDecisions, Candidates;
        LogAllSnoc(s, RoutingDecisions(g.edges[..i], n, route, blocked), SelectionOf(e, n, selected == 0, blocked), at);
        if e.from == n && e.typ.RoutesTo? { candidates := candidates + 1; }
        var chosen := RecordSelection(e, n, route, selected == 0, blocked, at);
        if chosen { selected := selected + 1; }
        i := i + 1;
      }
      assert g.edges[..i] == g.edges;
      if candidates > 0 && selected == 0 {
        LogOne(s, DecisionRecorded(n, "rejected", BlockedLinks(blocked)), at);
        Append(DecisionRecorded(n, "rejected", BlockedLinks(blocked)), at);
      }
    }

    method AllDependenciesDone(n: string) returns (r: bool)
      ensures r == DependenciesDone(g, State(), n)
    {
      r := true;
      var i := 0;
      while i < |g.edges|
        invariant 0 <= i <= |g.edges|
        invariant r ==
                  forall j {:trigger g.edges[j]} :: 0 <= j < i && g.edges[j].to == n && IsDependency(g.edges[j].typ) ==>
                                                    Done(State(), g.edges[j].from)
      {
        if g.edges[i].to == n && IsDependency(g.edges[i].typ) {
          var d := IsDone(g.edges[i].from);
          if !d { r := false; }
        }
        i := i + 1;
      }
    }

    method CountDecisions(n: string) returns (count: nat)
      ensures count > 0 <==> HasDecision(acts, n)
    {
      count := 0;
      var i := 0;
      while i < |acts|
        invariant 0 <= i <= |acts|
        invariant count > 0 <==>
                  exists j :: 0 <= j < i && acts[j].Logged? && acts[j].body.DecisionRecorded? && acts[j].body.node == n
      {
        if acts[i].Logged? && acts[i].body.DecisionRecorded? && acts[i].body.node == n { count := count + 1; }
        i := i + 1;
      }
    }

    /** Why each newly eligible dependent of n became eligible. */
    method RecordEligibility(n: string, at: int)
      modifies this
      ensures State() == LogAll(old(State()), EligibilityDecisions(g, old(State()), g.edges, n), at)
    {
      hide Log, LogAll, HasDecision, DependenciesDone;
      ghost var s := State();
      LogOne(s, NodeSkipped(n), at);
      var seen: set<string> := {};
      var i := 0;
      while i < |g.edges|
        invariant 0 <= i <= |g.edges| && State() == LogAll(s, EligibilityDecisions(g, s, g.edges[..i], n), at)
        invariant forall x :: x in seen <==> SeenTarget(g.edges[..i], n, x)
        invariant forall x :: x !in seen ==> HasDecision(acts, x) == HasDecision(s.acts, x)
        invariant SameDone(s, State())
      {
        var e := g.edges[i];
        Prefixes(g.edges, i);
        SeenNext(g.edges, i, n);
        ghost var bs := EligibilityDecisions(g, s, g.edges[..i], n);
        var b := DecisionRecorded(e.to, "", DependencyLinks(g.edges, e.to));
        LogAllSnoc(s, bs, b, at);
        if e.from == n && IsDependency(e.typ) && e.to !in seen {
          var done := AllDependenciesDone(e.to);
          SameDependencies(g, s, State(), e.to);
          var progressed := CountDecisions(e.to);
          seen := seen + {e.to};
          if done && progressed == 0 {
            DecisionOnly(State(), b, at);
            Append(b, at);
          }
        }
        i := i + 1;
      }
      assert g.edges[..i] == g.edges;
    }

    /** Everything that follows the end of a node. */
    method RouteFrom(n: string, route: Option<string>, at: int)
      requires ValidGraph(g)
      modifies this
      ensures State() == Route(g, old(State()), n, route, at)
    {
      hide Log, LogAll, ValidGraph;
      var selectedTargets := Traverse(n, route, at);
      var skipped := BlockedTargets(n, route, selectedTargets);
      BlockedAreTargets(g, g.edges, n, route);
      SkipBlocked(n, skipped, at);
      RecordRouting(n, route, skipped, at);
      RecordEligibility(n, at);
    }

    /** The transaction that commits a result, unless the node was cancelled meanwhile. */
    method CommitNodeSuccess(n: string, a: int, route: Option<string>, at: int)
      requires ValidGraph(g)
      modifies this
      ensures State() == Commit(g, old(State()), n, a, route, at)
    {
      hide Log, Route, ValidGraph;
      if n !in nodes { return; }
      var terminal := Ended(n, a, Finished, "");
      if nodes[n].status.CancelRequested? {
        terminal := NodeCancelled(n, a);
      } else if !nodes[n].status.Running? && !nodes[n].status.Reconciling? {
        return;
      }
      Append(terminal, at);
      if terminal.NodeCancelled? { return; }
      RouteFrom(n, route, at);
    }

    method AppendNodeTransition(n: string, b: Body, at: int)
      modifies this
      ensures State() == Transition(old(State()), n, b, at)
    {
      hide Log;
      if n !in nodes || nodes[n].status.CancelRequested? || nodes[n].status.Cancelled? { return; }
      Append(b, at);
    }

    /** A failed attempt ends the node, or is put back in a second transaction. */
    method RecordAttemptFailure(n: string, at: int)
      requires IsFlying(State(), n) && IsTask(g, n)
      modifies this
      ensures State() == Next(g, Next(g, old(State()), FlightFails(n), at), FlightRequeues(n), at)
    {
      var a := batch[n].attempt;
      ghost var s := State();
      if a >= g.defs[n].maxAttempts {
        batch := batch - {n};
        Append(Ended(n, a, Failure, ""), at);
        assert State() == Next(g, s, FlightFails(n), at) && n !in batch;
      } else {
        var before := batch;
        Append(NodeAttemptFailed(n, a, ""), at);
        batch := before[n := Requeueing(a)];
        ghost var t := State();
        assert t == Next(g, s, FlightFails(n), at) && IsRequeueing(t, n);
        hide Log;
        batch := batch - {n};
        AppendNodeTransition(n, NodeRequeued(n, a, false), at);
        assert State() == Next(g, t, FlightRequeues(n), at);
      }
    }

    // ---- cancelling the run ----

    method CancelStartedNodes(at: int)
      modifies this
      ensures State() == LogAll(old(State()), CancelRows(old(State()), g.order), at)
    {
      hide Log, LogAll;
      ghost var s := State();
      LogOne(s, NodeCancelled("", 0), at);
      var entries, i := nodes, 0;
      while i < |g.order|
        invariant 0 <= i <= |g.order| && State() == LogAll(s, CancelRows(s, g.order[..i]), at)
      {
        var n := g.order[i];
        Prefixes(g.order, i);
        ghost var bs := CancelRows(s, g.order[..i]);
        if n in entries && !Settled(entries[n].status) && !entries[n].status.CancelRequested? {
          var b := if InFlight(entries[n].status) then NodeCancelRequested(n) else NodeCancelled(n, 0);
          LogAllSnoc(s, bs, b, at);
          assert CancelRows(s, g.order[..i + 1]) == bs + [b];
          Append(b, at);
        } else {
          assert CancelRows(s, g.order[..i + 1]) == bs;
        }
        i := i + 1;
      }
      assert g.order[..i] == g.order;
    }

    /** `started` holds the rows as they were before the first loop. */
    method CancelOtherNodes(s: RunState, at: int)
      modifies this
      ensures State() == LogAll(old(State()), CancelOthers(s, g.order), at)
    {
      hide Log, LogAll;
      ghost var t := State();
      LogOne(t, NodeCancelled("", 0), at);
      var i := 0;
      while i < |g.order|
        invariant 0 <= i <= |g.order| && State() == LogAll(t, CancelOthers(s, g.order[..i]), at)
      {
        var n := g.order[i];
        Prefixes(g.order, i);
        ghost var bs := CancelOthers(s, g.order[..i]);
        if n !in s.nodes {
          LogAllSnoc(t, bs, NodeCancelled(n, 0), at);
          assert CancelOthers(s, g.order[..i + 1]) == bs + [NodeCancelled(n, 0)];
          Append(NodeCancelled(n, 0), at);
        } else {
          assert CancelOthers(s, g.order[..i + 1]) == bs;
        }
        i := i + 1;
      }
      assert g.order[..i] == g.order;
    }

    method CancelPendingWaits(s: RunState, at: int)
      modifies this
      ensures State() == LogAll(old(State()), CancelWaits(g, s, WaitLimit(s.waits)), at)
    {
      hide Log, LogAll;
      ghost var t := State();
      LogOne(t, NodeCancelled("", 0), at);
      var k, limit := 0, WaitLimit(s.waits);
      while k < limit
        invariant 0 <= k <= limit && State() == LogAll(t, CancelWaits(g, s, k), at)
      {
        ghost var bs := CancelWaits(g, s, k);
        if k in s.waits && s.waits[k].pending {
          var b := WaitCancelled(Some(Id(g.run, k)));
          LogAllSnoc(t, bs, b, at);
          assert CancelWaits(g, s, k + 1) == bs + [b];
          Append(b, at);
        } else {
          assert CancelWaits(g, s, k + 1) == bs;
        }
        k := k + 1;
      }
    }

    ghost function Rows(which: set<NodeStatus>): set<string>
      reads this
    {
      set n | n in nodes && nodes[n].status in which
    }

    method CountRows(which: set<NodeStatus>) returns (count: nat)
      ensures count == |Rows(which)|
    {
      count := 0;
      var rest := nodes.Keys;
      ghost var counted: set<string> := {};
      while rest != {}
        invariant rest <= nodes.Keys && count == |counted|
        invariant forall n :: n in counted <==> n in nodes && n !in rest && nodes[n].status in which
        decreases rest
      {
        var n := AnyOf(rest);
        rest := rest - {n};
        if nodes[n].status in which {
          count := count + 1;
          counted := counted + {n};
        }
      }
      assert counted == Rows(which);
    }

    method Tally() returns (active: nat, failed: nat, cancelled: nat, done: nat)
      ensures (active == 0 <==> NoneActive(State())) && (failed > 0 <==> Any(State(), Failed))
      ensures (cancelled > 0 <==> Any(State(), Cancelled))
      ensures done == |DoneNodes(State())|
    {
      active := CountRows(ACTIVE);
      failed := CountRows({Failed});
      cancelled := CountRows({Cancelled});
      done := CountRows({Succeeded, NodeStatus.Skipped});
      assert Rows({Succeeded, NodeStatus.Skipped}) == DoneNodes(State());
      ActiveRows();
      AnyRows(Failed);
      AnyRows(Cancelled);
    }

    lemma ActiveRows()
      ensures |Rows(ACTIVE)| == 0 <==> NoneActive(State())
    {
      ActiveIs();
      hide Settled;
      assert forall n :: n in Rows(ACTIVE) <==> n in nodes && Active(nodes[n].status);
      if |Rows(ACTIVE)| == 0 { assert forall n :: n !in Rows(ACTIVE); }
    }

    lemma AnyRows(st: NodeStatus)
      ensures |Rows({st})| > 0 <==> Any(State(), st)
    {
      if |Rows({st})| > 0 { assert exists n :: n in Rows({st}); }
      if n :| n in nodes && nodes[n].status == st { assert n in Rows({st}); }
    }

    method CancelRun(at: int)
      modifies this
      ensures State() == Next(g, old(State()), Step.CancelRun, at)
    {
      RunSteps.CancelIs(g, State(), at);
      hide Next, Log, LogAll, WaitLimit, CancelRows, CancelOthers, CancelWaits, NoneActive;
      if !status.RunRunning? { return; }
      var s := RunState(acts, status, nodes, latest, traversed, waits, approvals, batch, rounds, checked, scan);
      LogAllAppend(s, CancelRows(s, g.order) + CancelOthers(s, g.order), CancelWaits(g, s, WaitLimit(s.waits)), at);
      LogAllAppend(s, CancelRows(s, g.order), CancelOthers(s, g.order), at);
      CancelStartedNodes(at);
      CancelOtherNodes(s, at);
      CancelPendingWaits(s, at);
      var active, _, _, _ := Tally();
      if active == 0 { Append(RunEnded(RunCancelled, ""), at); }
    }

    /** Ends a run whose driver has nothing left to start. */
    method TryCompleteRun(at: int)
      requires batch == map[] && !checked
      modifies this
      ensures State() == Next(g, old(State()), CompleteRun, at)
    {
      hide Log, NoneActive, Any, DoneNodes;
      if !status.RunRunning? { return; }
      var active, failed, cancelled, done := Tally();
      if failed > 0 {
        Append(RunEnded(RunFailed, ""), at);
      } else if active > 0 {
      } else if cancelled > 0 {
        Append(RunEnded(RunCancelled, ""), at);
      } else if done == |g.defs| && |g.defs| > 0 {
        Append(RunEnded(RunCompleted, ""), at);
      }
    }

    // ---- recovery ----

    /** Reads the candidates of a recovery, without those whose lease runs. */
    method ReadCandidates(leased: set<string>)
      requires batch == map[] && !checked && scan == [] && forall n :: n in leased ==> IsTask(g, n)
      modifies `scan
      ensures State() == Next(g, old(State()), BeginScan(leased), 0)
    {
      var list: seq<Visit>, i := [], 0;
      while i < |g.sweep|
        invariant 0 <= i <= |g.sweep| && list == ScanOf(State(), leased, g.sweep[..i])
        invariant State() == old(State())
      {
        var n := g.sweep[i];
        Prefixes(g.sweep, i);
        if n in nodes {
          var st := nodes[n].status;
          if (st.Uncertain? || st.Leased? || st.Running? || st.Reconciling? || st.CancelRequested?) && n !in leased {
            list := list + [Visit(n, st.CancelRequested?, false)];
          }
        }
        i := i + 1;
      }
      assert g.sweep[..i] == g.sweep;
      ghost var s := State();
      assert s.batch == map[] && s.scan == [] && !s.checked;
      assert forall n :: n in leased ==> IsTask(g, n);
      assert Next(g, s, BeginScan(leased), 0) == s.(scan := ScanOf(s, leased, g.sweep));
      scan := list;
    }

    method HasAttempt(n: string) returns (r: bool)
      ensures r == (n in latest)
    {
      r := n in latest;
    }

    /** Visits the first candidate. An error ends the recovery; the answer about an effect comes later. */
    method RecoverNode(at: int)
      requires scan != [] && !scan[0].asked && scan[0].node in g.defs && scan[0].node in nodes
      modifies this
      ensures State() == Next(g, old(State()), Step.Recover, at)
    {
      hide Log;
      var v, rest := scan[0], scan[1..];
      var n, c := v.node, Executor(g.defs[v.node]);
      if c.None? {
        scan := [];
        return;
      }
      var known := HasAttempt(n);
      if v.stop && !known {
        scan := [];
        return;
      }
      match c.value
      case Pure =>
        if v.stop { Append(NodeCancelled(n, latest[n]), at); }
        else { AppendNodeTransition(n, NodeRequeued(n, 0, false), at); }
        scan := rest;
      case Idempotent =>
        if v.stop { AppendNodeTransition(n, NodeWaiting(n), at); }
        else if known { Append(NodeRequeued(n, latest[n], true), at); }
        scan := if known then rest else [];
      case Reconcilable =>
        if !v.stop { Append(NodeReconciling(n), at); }
        scan := if known then [v.(asked := true)] + rest else [];
      case NonReplayable =>
        AppendNodeTransition(n, NodeWaiting(n), at);
        scan := rest;
    }
  }

  /** Which nodes are done does not change. */
  ghost predicate SameDone(s: RunState, t: RunState) { forall x :: Done(s, x) == Done(t, x) }

  lemma SameDependencies(g: Graph, s: RunState, t: RunState, n: string)
    requires SameDone(s, t)
    ensures DependenciesDone(g, s, n) == DependenciesDone(g, t, n)
  {
  }

  ghost predicate SelectedIn(es: seq<EdgeDef>, n: string, route: Option<string>, x: string) {
    exists e :: e in es && e.from == n && e.to == x && Selects(e, route)
  }

  lemma SelectedNext(es: seq<EdgeDef>, i: nat, n: string, route: Option<string>)
    requires i < |es|
    ensures forall x :: SelectedIn(es[..i + 1], n, route, x) <==>
                        SelectedIn(es[..i], n, route, x) || (es[i].from == n && Selects(es[i], route) && x == es[i].to)
  {
    assert es[..i + 1] == es[..i] + [es[i]];
    forall x
      ensures SelectedIn(es[..i + 1], n, route, x) <==>
              SelectedIn(es[..i], n, route, x) || (es[i].from == n && Selects(es[i], route) && x == es[i].to)
    {
      if SelectedIn(es[..i], n, route, x) {
        var e :| e in es[..i] && e.from == n && e.to == x && Selects(e, route);
        assert e in es[..i + 1];
      }
      if es[i].from == n && Selects(es[i], route) && x == es[i].to { assert es[i] in es[..i + 1]; }
    }
  }

  lemma NoneSelected(n: string, route: Option<string>)
    ensures forall x :: !SelectedIn([], n, route, x)
  {
  }

  lemma AllSelected(g: Graph, n: string, route: Option<string>)
    ensures forall x :: SelectedIn(g.edges, n, route, x) <==> SelectedTarget(g, n, route, x)
  {
    forall x
      ensures SelectedIn(g.edges, n, route, x) <==> SelectedTarget(g, n, route, x)
    {
      if SelectedIn(g.edges, n, route, x) {
        var e :| e in g.edges && e.from == n && e.to == x && Selects(e, route);
        var i :| 0 <= i < |g.edges| && g.edges[i] == e;
      }
      if SelectedTarget(g, n, route, x) {
        var i :| 0 <= i < |g.edges| && g.edges[i].from == n && g.edges[i].to == x && Selects(g.edges[i], route);
        assert g.edges[i] in g.edges;
      }
    }
  }

  lemma RoutingNext(es: seq<EdgeDef>, i: nat, n: string, route: Option<string>, blocked: seq<string>)
    requires i < |es|
    ensures var before, e := RoutingDecisions(es[..i], n, route, blocked), es[i];
            RoutingDecisions(es[..i + 1], n, route, blocked) ==
              if e.from == n && Selects(e, route) then
                before + [SelectionOf(e, n, before == [], blocked)]
              else before
    ensures Candidates(es[..i + 1], n) ==
            Candidates(es[..i], n) + if es[i].from == n && es[i].typ.RoutesTo? then 1 else 0
    ensures Selects(es[i], route) ==> es[i].typ.RoutesTo?
  {
    assert es[..i + 1][..i] == es[..i];
  }

  lemma SeenNext(es: seq<EdgeDef>, i: nat, n: string)
    requires i < |es|
    ensures forall x :: SeenTarget(es[..i + 1], n, x) <==>
                        SeenTarget(es[..i], n, x) || (es[i].from == n && IsDependency(es[i].typ) && x == es[i].to)
  {
    forall x
      ensures SeenTarget(es[..i + 1], n, x) <==>
              SeenTarget(es[..i], n, x) || (es[i].from == n && IsDependency(es[i].typ) && x == es[i].to)
    {
      assert es[..i + 1] == es[..i] + [es[i]];
      if SeenTarget(es[..i], n, x) {
        var j :| 0 <= j < i && es[..i][j].from == n && es[..i][j].to == x && IsDependency(es[..i][j].typ);
        assert es[..i + 1][j] == es[..i][j];
      }
      if es[i].from == n && IsDependency(es[i].typ) && x == es[i].to { assert es[..i + 1][i] == es[i]; }
    }
  }

  /** A decision makes rows, but none that is done, and is a decision about its own node only. */
  lemma DecisionOnly(s: RunState, b: Body, at: int)
    requires b.DecisionRecorded?
    ensures SameDone(s, Log(s, b, at))
    ensures forall x :: x != b.node ==> HasDecision(Log(s, b, at).acts, x) == HasDecision(s.acts, x)
  {
    var t := Log(s, b, at);
    DecisionRows(s.nodes, b.node, b.links);
    assert t.nodes == EnsureLinks(Ensure(s.nodes, b.node), b.links);
    forall x
      ensures Done(s, x) == Done(t, x)
    {
      assert RowOf(t.nodes, x) == RowOf(s.nodes, x);
    }
    forall x | x != b.node
      ensures HasDecision(t.acts, x) == HasDecision(s.acts, x)
    {
      assert forall i :: 0 <= i < |s.acts| ==> t.acts[i] == s.acts[i];
    }
  }

  lemma {:induction false} DecisionRows(nodes: map<string, NodeRow>, n: string, links: seq<Link>)
    ensures forall x :: RowOf(EnsureLinks(Ensure(nodes, n), links), x) == RowOf(nodes, x)
    decreases |links|
  {
    if |links| > 0 {
      DecisionRows(Ensure(nodes, n), links[0].target, links[1..]);
    }
  }
}
