/** Which reply each delivery gets, and what a completed wait says about the delivery that completed it. */
module WaitReplies {
  import opened Conditions
  import opened Events
  import opened Options
  import opened Texts
  import opened Waits

  // ---- every reply, in terms of the delivery's own fields ----

  function Fields(d: Delivery): seq<string> { [d.providerEvent, d.eventType, d.source, d.correlation, d.status] }

  /** A field is empty, longer than 512, has a control character or looks like a credential; or there is no
      wait id, the payload cannot be normalised, or its digest is wrong. */
  ghost predicate IllFormed(d: Delivery) {
    || (exists x :: x in Fields(d) && (x == "" || |x| > 512 || x in d.secrets ||
                                       exists k :: 0 <= k < |x| && (x[k] < ' ' || x[k] == 127 as char)))
    || d.wait == "" || !Normalized(d.payload, d.secrets) || !d.digestOk
  }

  lemma MalformedExactlyWhen(d: Delivery)
    ensures WellFormed(d) <==> !IllFormed(d)
  {
    hide Normalized;
    assert Fields(d)[0] == d.providerEvent && Fields(d)[1] == d.eventType && Fields(d)[2] == d.source;
    assert Fields(d)[3] == d.correlation && Fields(d)[4] == d.status;
  }

  /** The delivery is well formed and its event id is new. */
  ghost predicate IsNew(s: State, d: Delivery) {
    !IllFormed(d) && forall i :: 0 <= i < |s.log| ==> s.log[i].key != d.providerEvent
  }

  /** The wait is pending in a running run, on the event type and correlation key of the delivery. */
  predicate Fits(s: State, d: Delivery) {
    && d.wait in s.waits
    && var w := s.waits[d.wait];
       w.status.IsPending? && w.run in s.runs && s.runs[w.run].running && w.eventType == d.eventType &&
       w.correlation == d.correlation
  }

  /** The two are the same but for capitals in the first. */
  predicate SameLetters(a: string, b: string) {
    |a| == |b| &&
    forall i :: 0 <= i < |a| ==> a[i] as int == b[i] as int - if 'A' <= a[i] <= 'Z' then 32 else 0
  }

  const UNFINISHED: seq<string> := ["queued", "pending", "in_progress", "running", "started", "waiting"]

  /** The status is one of these words, in capitals or not. */
  ghost predicate Unfinished(status: string) {
    exists i :: 0 <= i < |UNFINISHED| && SameLetters(status, UNFINISHED[i])
  }

  lemma LowerIs(a: string, b: string)
    ensures Lower(a) == b <==> SameLetters(a, b)
  {
  }

  lemma UnfinishedExactlyWhen(status: string)
    ensures NonTerminal(status) <==> Unfinished(status)
  {
    hide Lower, SameLetters;
    forall i | 0 <= i < |UNFINISHED|
      ensures Lower(status) == UNFINISHED[i] <==> SameLetters(status, UNFINISHED[i])
    {
      LowerIs(status, UNFINISHED[i]);
    }
    assert NonTerminal(status) <==> Lower(status) in UNFINISHED by {
      assert UNFINISHED[0] == "queued" && UNFINISHED[1] == "pending" && UNFINISHED[2] == "in_progress";
      assert UNFINISHED[3] == "running" && UNFINISHED[4] == "started" && UNFINISHED[5] == "waiting";
    }
  }

  /** The delivery says "success", and an entry of the wait's condition does not hold. */
  predicate FailsCondition(w: Wait, d: Delivery) {
    d.status == "success" && w.condition.Obj? &&
    exists k :: k in w.condition.fields && !Holds(k, w.condition.fields[k], d.status, d.payload)
  }

  /** Each reply is given exactly under its own condition. */
  lemma RepliesExactlyWhen(s: State, d: Delivery)
    ensures var r := DoComplete(s, d).1;
            && (r.Malformed? <==> IllFormed(d))
            && (r.Duplicate? <==> !IllFormed(d) && !IsNew(s, d) &&
                                  d.wait in s.waits && s.waits[d.wait].status.WasCompleted?)
            && (r.Processed? <==> !IllFormed(d) && !IsNew(s, d) &&
                                  !(d.wait in s.waits && s.waits[d.wait].status.WasCompleted?))
            && (r.Unknown? <==> IsNew(s, d) && d.wait !in s.waits)
            && (r.Conflict? <==> IsNew(s, d) && d.wait in s.waits && !Fits(s, d))
            && (r.NotYet? <==> IsNew(s, d) && Fits(s, d) &&
                               (Unfinished(d.status) || FailsCondition(s.waits[d.wait], d)))
            && (r.Accepted? <==> IsNew(s, d) && Fits(s, d) &&
                                 !Unfinished(d.status) && !FailsCondition(s.waits[d.wait], d))
  {
    hide WellFormed, IllFormed, NonTerminal, Unfinished, Holds;
    MalformedExactlyWhen(d);
    UnfinishedExactlyWhen(d.status);
  }

  // ---- every answer to a registration ----

  predicate HasOwnId(r: Registration) { r.id.Some? && r.id.value != "" }

  function IdOf(r: Registration): string { if HasOwnId(r) then r.id.value else r.newId }

  /** The registration names a node of the definition of its running run, an event type and a key, and its condition, if
      any, is an object. */
  predicate Asked(s: State, r: Registration) {
    && r.node != "" && r.eventType != "" && r.correlation != "" && r.run in s.runs && s.runs[r.run].running
    && (r.condition.Some? ==> r.condition.value.Obj?)
    && s.runs[r.run].version in s.graphs && r.node in s.graphs[s.runs[r.run].version]
  }

  /** A pending wait is for the event type and key, or for the node of the run. */
  ghost predicate Occupied(s: State, r: Registration) {
    exists w :: StillPending(s, w) &&
                ((s.waits[w].eventType == r.eventType && s.waits[w].correlation == r.correlation) ||
                 (s.waits[w].run == r.run && s.waits[w].node == r.node))
  }

  /** The pending wait asks for the same, for the run's present version and definition. */
  predicate SameAsked(s: State, w: string, r: Registration)
    requires r.run in s.runs
  {
    && StillPending(s, w) && s.waits[w].run == r.run && s.waits[w].node == r.node
    && s.waits[w].eventType == r.eventType && s.waits[w].correlation == r.correlation
    && s.waits[w].version == s.runs[r.run].version && s.waits[w].digest == s.runs[r.run].digest
    && s.waits[w].condition == if r.condition.Some? then r.condition.value else Obj(map[])
  }

  /** A wait is registered exactly if what it asks for is in order, its id is free, no pending wait occupies its key or
      node, and the node has not ended. */
  lemma RegistersExactlyWhen(s: State, r: Registration)
    ensures DoRegister(s, r).1.Registered? <==>
            && Asked(s, r) && IdOf(r) !in s.waits && !Occupied(s, r)
            && !((r.run, r.node) in s.terminal && s.terminal[(r.run, r.node)])
    ensures DoRegister(s, r).1.Registered? ==> DoRegister(s, r).1.id == IdOf(r)
    ensures !DoRegister(s, r).1.Registered? ==> DoRegister(s, r).0 == s
  {
    OccupiedIs(s, r);
    hide AddWait, Occupied, PendingPair, PendingAt, AlreadyWaits;
  }

  lemma OccupiedIs(s: State, r: Registration)
    ensures IdOf(r) !in s.waits ==>
              (Occupied(s, r) <==> PendingPair(s, r.eventType, r.correlation) || PendingAt(s, r.run, r.node, IdOf(r)))
    ensures AlreadyWaits(s, r) ==> Occupied(s, r) && PendingPair(s, r.eventType, r.correlation)
  {
    if AlreadyWaits(s, r) {
      var w :| w in s.waits && StillPending(s, w) && SameWait(s.waits[w], r);
      assert StillPending(s, w);
    }
  }

  /** A registration under an id of its own is answered with the wait of that id exactly if it asks for the same. */
  lemma ReusesExactlyWhen(s: State, r: Registration)
    requires Asked(s, r) && HasOwnId(r)
    ensures DoRegister(s, r).1.Reused? <==> SameAsked(s, IdOf(r), r)
    ensures DoRegister(s, r).1.Bad? <==> false
  {
    hide PendingPair, PendingAt, AlreadyWaits;
  }

  /** A registration without an id is answered with a pending wait of its node, event type and key exactly if there is
      one, whatever condition that wait has. */
  lemma UnnamedReusesExactlyWhen(s: State, r: Registration)
    requires !HasOwnId(r) && r.newId !in s.waits
    ensures DoRegister(s, r).1.Reused? <==>
            && r.node != "" && r.eventType != "" && r.correlation != "" && r.run in s.runs && s.runs[r.run].running
            && (r.condition.Some? ==> r.condition.value.Obj?)
            && exists w :: w in s.waits && SameWait(s.waits[w], r) && s.waits[w].status.IsPending?
  {
    if w :| w in s.waits && SameWait(s.waits[w], r) && s.waits[w].status.IsPending? { assert StillPending(s, w); }
    hide PendingPair, PendingAt, AddWait;
  }

  /** The same registration once more finds the wait that it made and changes nothing. */
  lemma RegisteringTwiceReuses(s: State, r: Registration)
    requires DoRegister(s, r).1.Registered?
    ensures var t := DoRegister(s, r).0; DoRegister(t, r) == (t, Reused)
  {
    var t := DoRegister(s, r).0;
    assert StillPending(t, IdOf(r)) && SameWait(t.waits[IdOf(r)], r);
    hide PendingPair, PendingAt;
  }

  // ---- what a completed wait says ----

  /** What a step that leaves a wait completed did to it: nothing, or it accepted a delivery that fits. */
  lemma StepCompletes(s: State, call: Call, w: string)
    requires w in Next(s, call).waits && Next(s, call).waits[w].status.WasCompleted?
    ensures var row := Next(s, call).waits[w];
            || (w in s.waits && s.waits[w] == row)
            || (call.Deliver? && call.delivery.wait == w && DoComplete(s, call.delivery).1.Accepted? && w in s.waits &&
                row == s.waits[w].(status := WasCompleted))
  {
    hide WellFormed, Conflicts, Inconclusive, KeyUsed, SameContract, AlreadyWaits, PendingPair, PendingAt;
  }

  /** Over any calls a completed wait was completed by a delivery to it that was accepted: one of its own event
      type and correlation key, with a final status, while its run was running. */
  lemma {:induction false} CompletedByItsOwnDelivery(calls: seq<Call>, w: string)
    requires w in After(START, calls).waits && After(START, calls).waits[w].status.WasCompleted?
    ensures exists i :: 0 <= i < |calls| && calls[i].Deliver? &&
                        var s, d, row := After(START, calls[..i]), calls[i].delivery, After(START, calls).waits[w];
                        && d.wait == w && d.eventType == row.eventType && d.correlation == row.correlation
                        && !Unfinished(d.status) && !FailsCondition(row, d) && IsNew(s, d)
                        && StillPending(s, w) && row.run in s.runs && s.runs[row.run].running
  {
    hide Next, IllFormed, FailsCondition, Unfinished;
    var init, call := calls[..|calls| - 1], calls[|calls| - 1];
    var s := After(START, init);
    StepCompletes(s, call, w);
    if w in s.waits && s.waits[w] == After(START, calls).waits[w] {
      CompletedByItsOwnDelivery(init, w);
      var i :| 0 <= i < |init| && init[i].Deliver? &&
               var s, d, row := After(START, init[..i]), init[i].delivery, After(START, init).waits[w];
               && d.wait == w && d.eventType == row.eventType && d.correlation == row.correlation
               && !Unfinished(d.status) && !FailsCondition(row, d) && IsNew(s, d)
               && StillPending(s, w) && row.run in s.runs && s.runs[row.run].running;
      assert calls[..i] == init[..i] && calls[i] == init[i];
    } else {
      RepliesExactlyWhen(s, call.delivery);
      SameCondition(s.waits[w], After(START, calls).waits[w], call.delivery);
      assert calls[..|init|] == init;
    }
  }

  lemma SameCondition(v: Wait, w: Wait, d: Delivery)
    requires v.condition == w.condition
    ensures FailsCondition(v, d) <==> FailsCondition(w, d)
  {
  }

  // ---- where waits come from, and how else they end ----

  /** A wait that a step adds is the one its registration asks for. */
  lemma StepAdds(s: State, call: Call, w: string)
    requires w !in s.waits && w in Next(s, call).waits
    ensures call.Register? && AsRegistered(Next(s, call).waits[w], call.registration)
    ensures Next(s, call).waits[w].status.IsPending?
  {
    hide WellFormed, Conflicts, Inconclusive, KeyUsed, SameContract, AlreadyWaits, PendingPair, PendingAt;
  }

  predicate AsRegistered(row: Wait, r: Registration) {
    && row.run == r.run && row.node == r.node && row.eventType == r.eventType && row.correlation == r.correlation
    && row.condition == (if r.condition.Some? then r.condition.value else Obj(map[]))
    && row.expires == (if r.expiresAt > 0 then Some(r.expiresAt) else None)
  }

  /** A step changes no more of a wait than that it leaves pending, and then for a reason. */
  lemma StepEnds(s: State, call: Call, w: string)
    requires w in s.waits
    ensures w in Next(s, call).waits
    ensures var row, was := Next(s, call).waits[w], s.waits[w];
            row == was ||
            (was.status.IsPending? && row == was.(status := row.status) &&
             match row.status
             case IsPending => false
             case WasCompleted => call.Deliver? && call.delivery.wait == w
             case WasExpired => call.Expire? && call.wait == w && was.expires.Some? && was.expires.value <= call.now
             case WasCancelled => call == CancelWait(w))
  {
    hide WellFormed, Inconclusive, KeyUsed, SameContract, AlreadyWaits, PendingPair, PendingAt;
  }

  /** Over any calls every wait is what some registration asked for; if it has expired, some call came at or after
      its time, and if it was cancelled, some call cancelled it. */
  lemma {:induction false} WaitsAreAccountedFor(calls: seq<Call>, w: string)
    requires w in After(START, calls).waits
    ensures var row := After(START, calls).waits[w];
            && (exists i :: 0 <= i < |calls| && calls[i].Register? && AsRegistered(row, calls[i].registration))
            && (row.status.WasExpired? ==>
                  exists i :: 0 <= i < |calls| && calls[i].Expire? && calls[i].wait == w &&
                              row.expires.Some? && row.expires.value <= calls[i].now)
            && (row.status.WasCancelled? ==> CancelWait(w) in calls)
  {
    hide Next;
    var init, call := calls[..|calls| - 1], calls[|calls| - 1];
    var s, row := After(START, init), After(START, calls).waits[w];
    assert forall i :: 0 <= i < |init| ==> calls[i] == init[i];
    if w in s.waits {
      WaitsAreAccountedFor(init, w);
      StepEnds(s, call, w);
      var i :| 0 <= i < |init| && init[i].Register? && AsRegistered(s.waits[w], init[i].registration);
      assert calls[i] == init[i] && AsRegistered(row, calls[i].registration);
      if s.waits[w] == row && row.status.WasExpired? {
        var j :| 0 <= j < |init| && init[j].Expire? && init[j].wait == w &&
                 row.expires.Some? && row.expires.value <= init[j].now;
        assert calls[j] == init[j];
      }
    } else {
      StepAdds(s, call, w);
      assert calls[|init|] == call && AsRegistered(row, call.registration);
    }
  }

  /** A wait expires exactly if it is pending and its time is up. */
  lemma ExpiresExactlyWhen(s: State, w: string, now: int)
    ensures var t := Next(s, Expire(w, now));
            if w in s.waits && s.waits[w].status.IsPending? && s.waits[w].expires.Some? &&
               s.waits[w].expires.value <= now
            then
              && t.waits == s.waits[w := s.waits[w].(status := WasExpired)]
              && t.log == s.log + [Entry("", Lapsed(w))]
            else t == s
  {
  }
}
