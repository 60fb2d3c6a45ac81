/** The decisions recorded when a node finishes: one for each route taken, or one that rejects them all. */
module RunDecisions {
  import opened Collections
  import opened Events
  import opened Options
  import opened RunEngine
  import opened RunRouting
  import opened RunOutcomes

  predicate IsRoute(e: EdgeDef, n: string) { e.from == n && e.typ.RoutesTo? }

  predicate IsTaken(e: EdgeDef, n: string, route: Option<string>) { IsRoute(e, n) && GoesBy(e, route) }

  /** The links name the targets passed over, each once. */
  ghost predicate NamesPassedOver(g: Graph, n: string, route: Option<string>, links: seq<Link>) {
    && (forall i :: 0 <= i < |links| ==> links[i] == Link(links[i].target, "blocked_by", "decision", ""))
    && (forall i, j :: 0 <= i < j < |links| ==> links[i].target != links[j].target)
    && (forall x :: PassedOver(g, n, route, x) <==> exists i :: 0 <= i < |links| && links[i].target == x)
  }

  lemma {:induction false} BlockedOnce(g: Graph, es: seq<EdgeDef>, n: string, route: Option<string>)
    ensures Distinct(Blocked(g, es, n, route))
  {
    hide Blocks;
    if |es| > 0 {
      BlockedOnce(g, es[..|es| - 1], n, route);
      var before, xs := Blocked(g, es[..|es| - 1], n, route), Blocked(g, es, n, route);
      assert xs == before || (xs == before + [es[|es| - 1].to] && es[|es| - 1].to !in before);
    }
  }

  lemma BlockedLinksName(g: Graph, n: string, route: Option<string>)
    ensures NamesPassedOver(g, n, route, BlockedLinks(Blocked(g, g.edges, n, route)))
  {
    hide Blocked, PassedOver, Blocks;
    BlockedOnce(g, g.edges, n, route);
    var xs := Blocked(g, g.edges, n, route);
    var links := BlockedLinks(xs);
    forall x
      ensures PassedOver(g, n, route, x) <==> exists i :: 0 <= i < |links| && links[i].target == x
    {
      PassedOverIsBlocked(g, n, route, x);
      BlockedAre(g, g.edges, n, route, x);
      if x in xs {
        var i :| 0 <= i < |xs| && xs[i] == x;
        assert links[i].target == x;
      }
    }
  }

  lemma {:induction false} CountsRoutes(es: seq<EdgeDef>, n: string)
    ensures Candidates(es, n) == 0 <==> forall i :: 0 <= i < |es| ==> !IsRoute(es[i], n)
  {
    if |es| > 0 { CountsRoutes(es[..|es| - 1], n); }
  }

  /** The routes out of n that are taken, in the order of the edges. */
  function RoutesTaken(es: seq<EdgeDef>, n: string, route: Option<string>): (taken: seq<EdgeDef>)
    ensures forall e :: e in taken <==> e in es && IsTaken(e, n, route)
  {
    if |es| == 0 then []
    else
      var before := RoutesTaken(es[..|es| - 1], n, route);
      assert es == es[..|es| - 1] + [es[|es| - 1]];
      if IsTaken(es[|es| - 1], n, route) then before + [es[|es| - 1]] else before
  }

  lemma {:induction false} SelectionsAre(es: seq<EdgeDef>, n: string, route: Option<string>, blocked: seq<string>)
    ensures var ds, taken := RoutingDecisions(es, n, route, blocked), RoutesTaken(es, n, route);
            && |ds| == |taken|
            && forall i :: 0 <= i < |ds| ==>
                 ds[i] == DecisionRecorded(n, taken[i].id, [Link(taken[i].to, "contributing", "decision", "")] +
                                                           if i == 0 then BlockedLinks(blocked) else [])
  {
    hide BlockedLinks;
    if |es| > 0 {
      SelectionsAre(es[..|es| - 1], n, route, blocked);
      assert es[|es| - 1].from == n && Selects(es[|es| - 1], route) <==> IsTaken(es[|es| - 1], n, route);
    }
  }

  /** A node without routes decides nothing; one whose routes are all left out records one rejection, which names the
      targets passed over; otherwise there is one decision for each route taken, and the first names them. */
  lemma DecisionsAreExact(g: Graph, n: string, route: Option<string>)
    ensures var ds, taken := Decisions(g, n, route), RoutesTaken(g.edges, n, route);
            var links := BlockedLinks(Blocked(g, g.edges, n, route));
            && NamesPassedOver(g, n, route, links)
            && if forall i :: 0 <= i < |g.edges| ==> !IsRoute(g.edges[i], n) then ds == []
               else if taken == [] then ds == [DecisionRecorded(n, "rejected", links)]
               else
                 && |ds| == |taken|
                 && forall i :: 0 <= i < |ds| ==>
                      ds[i] == DecisionRecorded(n, taken[i].id, [Link(taken[i].to, "contributing", "decision", "")] +
                                                                if i == 0 then links else [])
  {
    hide RoutingDecisions, Blocked, BlockedLinks, NamesPassedOver, IsRoute, RoutesTaken;
    BlockedLinksName(g, n, route);
    CountsRoutes(g.edges, n);
    SelectionsAre(g.edges, n, route, Blocked(g, g.edges, n, route));
  }
}
