/** The transactions of a step on their own: what `Next` makes of each, without the others. */
module RunSteps {
  import opened Events
  import opened Options
  import opened RunEngine

  lemma BeginIs(g: Graph, s: RunState, at: int)
    ensures Next(g, s, BeginStep, at) ==
            if s.status.RunRunning? && s.batch == map[] && s.scan == [] then s.(checked := true) else s
  {
    hide Log;
  }

  lemma ListIs(g: Graph, s: RunState, at: int)
    ensures Next(g, s, ListNodes, at) ==
            if !s.checked then s
            else if List(g, s) == map[] then s.(checked := false)
            else s.(batch := List(g, s), rounds := s.rounds + 1, checked := false)
  {
    hide List;
  }

  lemma ClaimIs(g: Graph, s: RunState, n: string, at: int)
    ensures Next(g, s, Claim(n), at) == if IsListed(s, n) && n in g.defs then DoClaim(g, s, n, at) else s
  {
    hide DoClaim;
  }

  lemma CancelIs(g: Graph, s: RunState, at: int)
    ensures Next(g, s, CancelRun, at) == if s.status.RunRunning? then DoCancel(g, s, at) else s
  {
    hide DoCancel;
  }

  lemma DecideIs(g: Graph, s: RunState, a: nat, granted: bool, at: int)
    ensures Next(g, s, Decide(a, granted), at) ==
            if s.status.RunRunning? && a in s.approvals && s.approvals[a].verdict.Open?
            then DoDecide(g, s, a, granted, at) else s
  {
    hide DoDecide;
  }

  lemma ExpireApprovalIs(g: Graph, s: RunState, a: nat, at: int)
    ensures Next(g, s, ExpireApproval(a), at) ==
            if s.status.RunRunning? && a in s.approvals && s.approvals[a].verdict.Open?
            then DoExpireApproval(g, s, a, at) else s
  {
    hide DoExpireApproval;
  }

  lemma CompleteWaitIs(g: Graph, s: RunState, w: nat, route: string, at: int)
    ensures Next(g, s, CompleteWait(w, route), at) ==
            if s.status.RunRunning? && w in s.waits && s.waits[w].pending then DoCompleteWait(g, s, w, route, at) else s
  {
    hide DoCompleteWait;
  }

  lemma ExpireWaitIs(g: Graph, s: RunState, w: nat, at: int)
    ensures Next(g, s, ExpireWait(w), at) ==
            if w in s.waits && s.waits[w].pending then DoExpireWait(g, s, w, at) else s
  {
    hide DoExpireWait;
  }

  // ---- one event ----

  lemma LogWaits(s: RunState, b: Body, at: int)
    ensures Log(s, b, at).waits ==
            match b
            case WaitRequested(w, n, _, _, _, _) => s.waits[WaitNo(w) := WaitState(n, true)]
            case WaitCompleted(w, _, _) => EndWait(s, WaitNo(w))
            case WaitExpired(w) => EndWait(s, WaitNo(w))
            case WaitCancelled(w) => EndWait(s, WaitNo(w))
            case _ => s.waits
  {
    hide Touch, EndWait;
  }

  lemma LogApprovals(s: RunState, b: Body, at: int)
    ensures Log(s, b, at).approvals ==
            match b
            case ApprovalRequested(n, _, _, _) => s.approvals[|s.acts| := ApprovalState(n, Open)]
            case ApprovalDecided(_, a, _, _) =>
              if a.n in s.approvals then s.approvals[a.n := s.approvals[a.n].(verdict := Decided)] else s.approvals
            case _ => s.approvals
  {
    hide Touch, EndWait;
  }

  lemma LogRest(s: RunState, b: Body, at: int)
    ensures Log(s, b, at) ==
            s.(acts := s.acts + [Logged(b)],
               nodes := Touch(s.nodes, b, at),
               status := if b.RunEnded? then b.status else s.status,
               traversed := if b.EdgeTraversed? then s.traversed + {b.edge} else s.traversed,
               latest := Log(s, b, at).latest,
               waits := Log(s, b, at).waits,
               approvals := Log(s, b, at).approvals)
  {
    hide Touch, EndWait;
  }

  lemma LogLatest(s: RunState, b: Body, at: int)
    ensures Log(s, b, at).latest ==
            if (b.NodeStarted? || b.NodeEnded?) && b.opKey != "" then
              s.latest[b.node := if b.node in s.latest then Max(s.latest[b.node], b.attemptNo) else b.attemptNo]
            else s.latest
  {
    hide Touch, EndWait;
  }
}
