/** Which reply each decision gets, and what an expiry says. */
module ApprovalReplies {
  import opened Approvals
  import opened Events
  import opened Options
  import opened Texts

  predicate Plain(s: string) { forall i :: 0 <= i < |s| ==> s[i] >= ' ' && s[i] != 127 as char }

  /** What is asked of a decision: the lengths and characters of its texts, and that no credential is among them. */
  predicate InOrder(req: Request) {
    && req.approval != "" && req.actor != "" && req.key != "" && req.decision in {"grant", "deny"}
    && |req.approval| <= 512 && |req.actor| <= 256 && |req.key| <= 512 && |req.reason| <= 1024
    && Plain(req.actor) && Plain(req.key) && Plain(req.reason) && !req.secret
  }

  /** An approval of the run that the decision names, if it names one. */
  predicate Named(s: State, req: Request) {
    req.approval in s.approvals && (req.run.Some? ==> s.approvals[req.approval].run == req.run.value)
  }

  ghost predicate Used(s: State, key: string) { exists i :: 0 <= i < |s.log| && s.log[i].key == key }

  /** Undecided, not expired by the clock or by an event, in a run that is there. */
  ghost predicate InTime(s: State, id: string, now: int) {
    && id in s.approvals && s.approvals[id].decision.None? && now < s.approvals[id].expiresAt
    && !Used(s, EXPIRY_KEY + id) && s.approvals[id].run in s.runs
  }

  /** The run still has the version and definition for which the approval was asked. */
  predicate SameDefinition(s: State, a: Approval) {
    && a.run in s.runs && s.runs[a.run].version == a.version
    && s.runs[a.run].digest == if a.version in s.digests then s.digests[a.version] else ""
  }

  /** Each reply to a decision under a new key is given exactly under its own condition. */
  lemma RepliesExactlyWhen(s: State, req: Request, now: int)
    ensures var r, a := DoDecide(s, req, now).1, req.approval;
            && (r.Invalid? <==> !InOrder(req))
            && (InOrder(req) && Used(s, req.key) ==> r.NotFound? || r.Already? || r.Conflict?)
            && (InOrder(req) && !Used(s, req.key) ==>
                  && (r.NotFound? <==>
                      !Named(s, req) || (s.approvals[a].decision.None? && !Used(s, EXPIRY_KEY + a) &&
                                         now < s.approvals[a].expiresAt && s.approvals[a].run !in s.runs))
                  && (r.Conflict? <==>
                      Named(s, req) && (s.approvals[a].decision.Some? ||
                                        (InTime(s, a, now) && SameDefinition(s, s.approvals[a]) &&
                                         !s.runs[s.approvals[a].run].running)))
                  && (r.TooLate? <==>
                      Named(s, req) && s.approvals[a].decision.None? &&
                      (s.approvals[a].expiresAt <= now || Used(s, EXPIRY_KEY + a)))
                  && (r.PolicyDenied? <==> Named(s, req) && InTime(s, a, now) && !SameDefinition(s, s.approvals[a]))
                  && (r.Done? <==>
                      Named(s, req) && InTime(s, a, now) && SameDefinition(s, s.approvals[a]) &&
                      s.runs[s.approvals[a].run].running))
  {
    RecordedWhen(s.log, req.key);
    hide Recorded;
  }

  /** An accepted decision is the one that was asked for. */
  lemma DoneIsAsAsked(s: State, req: Request, now: int)
    requires DoDecide(s, req, now).1.Done?
    ensures var (t, r) := DoDecide(s, req, now);
            && r == Done(if req.decision == "grant" then Grant else Deny, req.actor)
            && t.approvals == s.approvals[req.approval := s.approvals[req.approval].(
                                            decision := Some(Decision(r.verdict, req.actor, req.key)))]
            && t.log == s.log + [Entry(req.key, Ruled(req.approval, r.verdict, req.actor))]
  {
    hide Recorded, KeyUsed;
  }

  // ---- over any calls ----

  /** The call asks for the approval: seven days, if no time is given. */
  predicate Asks(call: Call, id: string, a: Approval) {
    && call.Register? && call.id == id && call.run == a.run && call.node == a.node && !call.terminal
    && a.expiresAt == call.now + if call.expiresIn <= 0 then 604800000 else call.expiresIn
  }

  /** The call decides the approval so, before its time is up. */
  predicate Decides(call: Call, id: string, a: Approval, d: Decision) {
    && call.Decide? && call.request.approval == id && call.now < a.expiresAt && call.request.actor == d.actor
    && call.request.key == d.key && (call.request.decision == "grant" <==> d.verdict.Grant?)
  }

  /** What a step can do to an approval. */
  lemma StepRules(s: State, call: Call, id: string)
    requires id in Next(s, call).approvals
    ensures var a := Next(s, call).approvals[id];
            if id !in s.approvals then Asks(call, id, a) && a.decision.None?
            else a == s.approvals[id] ||
                 (s.approvals[id].decision.None? && a.decision.Some? && a == s.approvals[id].(decision := a.decision) &&
                  Decides(call, id, a, a.decision.value))
  {
    hide Recorded, KeyUsed, VersionMatches, WellFormed;
    if call.Decide? && DoDecide(s, call.request, call.now).1.Done? {
      DoneIsAsAsked(s, call.request, call.now);
      RepliesExactlyWhen(s, call.request, call.now);
    }
  }

  /** Over any calls every approval was asked for by a registration, and a decision it has was made by a call in
      time. */
  lemma {:induction false} ApprovalsAreAccountedFor(calls: seq<Call>, id: string)
    requires id in After(START, calls).approvals
    ensures var a := After(START, calls).approvals[id];
            && (exists i :: 0 <= i < |calls| && Asks(calls[i], id, a))
            && (a.decision.Some? ==>
                  exists i :: 0 <= i < |calls| && Decides(calls[i], id, a, a.decision.value))
  {
    hide Next;
    var init, call := calls[..|calls| - 1], calls[|calls| - 1];
    var s, a := After(START, init), After(START, calls).approvals[id];
    StepRules(s, call, id);
    assert forall i :: 0 <= i < |init| ==> calls[i] == init[i];
    assert calls[|init|] == call;
    if id in s.approvals {
      ApprovalsAreAccountedFor(init, id);
      var i :| 0 <= i < |init| && Asks(init[i], id, s.approvals[id]);
      assert Asks(calls[i], id, a);
      if a == s.approvals[id] && a.decision.Some? {
        var j :| 0 <= j < |init| && Decides(init[j], id, a, a.decision.value);
        assert Decides(calls[j], id, a, a.decision.value);
      }
    }
  }

  /** An approval lapses only at or after its time, under its own expiry key. */
  lemma {:induction false} LapsesAfterItsTime(calls: seq<Call>, k: nat)
    requires k < |After(START, calls).log| && After(START, calls).log[k].what.Lapsed?
    ensures var s := After(START, calls);
            var id := s.log[k].what.approval;
            && id in s.approvals && s.log[k].key == "approval_expired:" + id
            && exists i :: 0 <= i < |calls| && calls[i].Expire? && calls[i].approval == id &&
                           s.approvals[id].expiresAt <= calls[i].now
  {
    hide Next;
    var init, call := calls[..|calls| - 1], calls[|calls| - 1];
    var s, t := After(START, init), After(START, calls);
    StepLogs(s, call);
    assert forall i :: 0 <= i < |init| ==> calls[i] == init[i];
    if k < |s.log| {
      LapsesAfterItsTime(init, k);
      var id := s.log[k].what.approval;
      StepRules(s, call, id);
      var i :| 0 <= i < |init| && init[i].Expire? && init[i].approval == id && s.approvals[id].expiresAt <= init[i].now;
      assert calls[i] == init[i];
    } else {
      assert calls[|init|] == call;
    }
  }

  lemma StepLogs(s: State, call: Call)
    ensures var t := Next(s, call);
            && |s.log| <= |t.log| && (forall i :: 0 <= i < |s.log| ==> t.log[i] == s.log[i])
            && (forall id :: id in s.approvals ==> id in t.approvals)
            && (forall i :: |s.log| <= i < |t.log| && t.log[i].what.Lapsed? ==>
                  call.Expire? && t.log[i] == Entry("approval_expired:" + call.approval, Lapsed(call.approval)) &&
                  call.approval in t.approvals && t.approvals[call.approval].expiresAt <= call.now)
  {
    hide Recorded, KeyUsed, VersionMatches, WellFormed;
  }

  // ---- asking and lapsing ----

  /** An approval of the node without a decision; one that has lapsed counts. */
  predicate Undecided(s: State, id: string, run: RunId, node: string) {
    && id in s.approvals && s.approvals[id].run == run && s.approvals[id].node == node
    && s.approvals[id].decision.None?
  }

  ghost predicate IsAsked(s: State, run: RunId, node: string) { exists a :: Undecided(s, a, run, node) }

  /** A registration asks for an approval exactly if the run is running, the node has not ended, the id is free and the
      node is not asked already; otherwise it changes nothing. */
  lemma AsksExactlyWhen(s: State, call: Call)
    requires call.Register?
    ensures var t := Next(s, call);
            if call.run in s.runs && s.runs[call.run].running && !call.terminal && call.id !in s.approvals &&
               !IsAsked(s, call.run, call.node)
            then
              && t.approvals.Keys == s.approvals.Keys + {call.id}
              && (forall a :: a in s.approvals ==> t.approvals[a] == s.approvals[a])
              && Asks(call, call.id, t.approvals[call.id]) && t.approvals[call.id].decision.None?
              && t.approvals[call.id].version == s.runs[call.run].version
              && t.log == s.log + [Entry("", Requested(call.id)), Entry("", Unrelated)]
            else t == s
  {
    if a :| a in s.approvals && s.approvals[a].run == call.run && s.approvals[a].node == call.node &&
            s.approvals[a].decision.None? {
      assert Undecided(s, a, call.run, call.node);
    }
  }

  /** An expiry is recorded exactly for an undecided approval whose time is up, in a running run, whose expiry key is
      free. */
  lemma LapsesExactlyWhen(s: State, id: string, now: int)
    ensures var t := Next(s, Expire(id, now));
            && t.approvals == s.approvals && t.runs == s.runs
            && t.log == s.log + if id in s.approvals && s.approvals[id].decision.None? &&
                                   s.approvals[id].expiresAt <= now && !Used(s, "approval_expired:" + id) &&
                                   s.approvals[id].run in s.runs && s.runs[s.approvals[id].run].running
                                then [Entry("approval_expired:" + id, Lapsed(id))] else []
  {
    assert EXPIRY_KEY + id == "approval_expired:" + id;
    assert s.log + [] == s.log;
  }

  /** Over any calls a node has at most one approval without a decision. */
  lemma {:induction false} OneUndecidedPerNode(calls: seq<Call>, a: string, b: string, run: RunId, node: string)
    requires Undecided(After(START, calls), a, run, node) && Undecided(After(START, calls), b, run, node)
    ensures a == b
  {
    var s, call := After(START, calls[..|calls| - 1]), calls[|calls| - 1];
    StepRules(s, call, a);
    StepRules(s, call, b);
    if Undecided(s, a, run, node) && Undecided(s, b, run, node) {
      OneUndecidedPerNode(calls[..|calls| - 1], a, b, run, node);
    } else if call.Register? {
      AsksExactlyWhen(s, call);
    }
    hide Next;
  }
}
