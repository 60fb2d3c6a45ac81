/** External waits: registering them, delivering provider events to them, and letting them expire. */
module Waits {
  import opened Texts
  import opened Collections
  import opened Events
  import opened Options
  import opened Conditions

  datatype What =
    | Asked(wait: string) | Received(wait: string) | Refused(wait: string) | Observed(wait: string)
    | Completed(wait: string) | Lapsed(wait: string) | Dropped(wait: string) | Unrelated

  /** An event of the log; an entry without a key has a generated one that no provider can guess. */
  datatype Entry = Entry(key: string, what: What)

  datatype Status = IsPending | WasCompleted | WasExpired | WasCancelled

  datatype Wait = Wait(run: RunId, node: string, version: string, digest: string, eventType: string,
                       correlation: string, condition: Json, status: Status, expires: Option<int>)

  datatype RunInfo = RunInfo(running: bool, version: string, digest: string)

  /** `graphs` gives the nodes of a version, `terminal` says of every existing run node whether it has ended. */
  datatype State = State(log: seq<Entry>, waits: map<string, Wait>, runs: map<RunId, RunInfo>,
                         graphs: map<string, set<string>>, terminal: map<(RunId, string), bool>)

  const START := State([], map[], map[], map[], map[])

  predicate KeyUsed(log: seq<Entry>, key: string) { exists i :: 0 <= i < |log| && log[i].key == key }

  // ---- registration ----

  /** `id` is the configured wait id, if any, and `newId` a new one. */
  datatype Registration = Registration(run: RunId, node: string, eventType: string, correlation: string,
                                       condition: Option<Json>, expiresAt: int, id: Option<string>, newId: string)

  datatype Answer = Registered(id: string) | Reused | Bad | Clash

  predicate StillPending(s: State, w: string) { w in s.waits && s.waits[w].status.IsPending? }

  predicate PendingPair(s: State, eventType: string, correlation: string) {
    exists w :: w in s.waits && StillPending(s, w) && s.waits[w].eventType == eventType &&
                s.waits[w].correlation == correlation
  }

  predicate PendingAt(s: State, run: RunId, node: string, id: string) {
    exists w :: w in s.waits && w != id && StillPending(s, w) && s.waits[w].run == run && s.waits[w].node == node
  }

  predicate SameWait(w: Wait, r: Registration) {
    w.run == r.run && w.node == r.node && w.eventType == r.eventType && w.correlation == r.correlation
  }

  predicate AlreadyWaits(s: State, r: Registration) {
    exists w :: w in s.waits && StillPending(s, w) && SameWait(s.waits[w], r)
  }

  predicate SameContract(w: Wait, r: Registration, info: RunInfo, condition: Json) {
    SameWait(w, r) && w.version == info.version && w.digest == info.digest && w.condition == condition
  }

  function ConditionOf(r: Registration): Json { if r.condition.None? then Obj(map[]) else r.condition.value }

  function NodesOf(s: State, version: string): set<string> { if version in s.graphs then s.graphs[version] else {} }

  function AddWait(s: State, id: string, r: Registration): State
    requires r.run in s.runs
  {
    var info, at := s.runs[r.run], (r.run, r.node);
    s.(log := s.log + [Entry("", Asked(id)), Entry("", Unrelated)],
       terminal := if at in s.terminal then s.terminal else s.terminal[at := false],
       waits := s.waits[id := Wait(r.run, r.node, info.version, info.digest, r.eventType, r.correlation,
                                   ConditionOf(r), IsPending,
                                   if r.expiresAt > 0 then Some(r.expiresAt) else None)])
  }

  /** Registration under a known id. */
  function RegisterAs(s: State, id: string, r: Registration): (State, Answer)
    requires r.run in s.runs
  {
    if r.node !in NodesOf(s, s.runs[r.run].version) then (s, Bad)
    else if id in s.waits then
      (s,
       if s.waits[id].status.IsPending? && SameContract(s.waits[id], r, s.runs[r.run], ConditionOf(r)) then Reused
       else Clash)
    else if PendingPair(s, r.eventType, r.correlation) then (s, Clash)
    else if (r.run, r.node) in s.terminal && s.terminal[(r.run, r.node)] then (s, Clash)
    else if PendingAt(s, r.run, r.node, id) then (s, Clash)
    else (AddWait(s, id, r), Registered(id))
  }

  function DoRegister(s: State, r: Registration): (State, Answer) {
    if r.node == "" || r.eventType == "" || r.correlation == "" || r.run !in s.runs then (s, Bad)
    else if !s.runs[r.run].running then (s, Clash)
    else if !ConditionOf(r).Obj? then (s, Bad)
    else if r.id.Some? && r.id.value != "" then RegisterAs(s, r.id.value, r)
    else if AlreadyWaits(s, r) then (s, Reused)
    else RegisterAs(s, r.newId, r)
  }

  // ---- deliveries ----

  /** `digestOk` says that the payload's digest is the one given, `secrets` which strings look like credentials. */
  datatype Delivery = Delivery(wait: string, providerEvent: string, eventType: string, source: string,
                               correlation: string, status: string, payload: Json,
                               digestOk: bool, secrets: set<string>)

  datatype Reply = Malformed | Unknown | Accepted(route: string) | Duplicate | Processed | Conflict | NotYet

  predicate GoodText(s: string, secrets: set<string>) { 0 < |s| <= 512 && !HasControlChars(s) && s !in secrets }

  predicate WellFormed(d: Delivery) {
    && d.wait != "" && GoodText(d.providerEvent, d.secrets) && GoodText(d.eventType, d.secrets) &&
       GoodText(d.source, d.secrets)
    && GoodText(d.correlation, d.secrets) && GoodText(d.status, d.secrets) && Normalized(d.payload, d.secrets) &&
       d.digestOk
  }

  /** Why a well-formed delivery with a new key is turned away for good. */
  predicate Conflicts(s: State, d: Delivery)
    requires d.wait in s.waits
  {
    var w := s.waits[d.wait];
    !w.status.IsPending? || w.eventType != d.eventType || w.correlation != d.correlation || w.run !in s.runs ||
    !s.runs[w.run].running
  }

  /** The delivery says nothing final yet. */
  predicate Inconclusive(w: Wait, d: Delivery) {
    NonTerminal(d.status) ||
    (HasPredicate(w.condition) && !Satisfied(w.condition, d.status, d.payload) && d.status == "success")
  }

  function RouteOf(w: Wait, d: Delivery): string {
    if Satisfied(w.condition, d.status, d.payload) then "success" else d.status
  }

  function Record(s: State, key: string, what: What): State { s.(log := s.log + [Entry(key, what)]) }

  function Settle(s: State, w: string, status: Status): State
    requires w in s.waits
  {
    s.(waits := s.waits[w := s.waits[w].(status := status)])
  }

  function AcceptDelivery(s: State, d: Delivery): State
    requires d.wait in s.waits
  {
    Settle(s.(log := s.log +
              [Entry(d.providerEvent, Received(d.wait)), Entry("", Completed(d.wait)), Entry("", Unrelated)]), d.wait,
           WasCompleted)
  }

  function DoComplete(s: State, d: Delivery): (State, Reply) {
    if !WellFormed(d) then (s, Malformed)
    else if KeyUsed(s.log, d.providerEvent) then
      (s, if d.wait in s.waits && s.waits[d.wait].status.WasCompleted? then Duplicate else Processed)
    else if d.wait !in s.waits then (s, Unknown)
    else if Conflicts(s, d) then (Record(s, d.providerEvent, Refused(d.wait)), Conflict)
    else if Inconclusive(s.waits[d.wait], d) then (Record(s, "", Observed(d.wait)), NotYet)
    else (AcceptDelivery(s, d), Accepted(RouteOf(s.waits[d.wait], d)))
  }

  // ---- the other calls ----

  predicate MayExpire(s: State, w: string, now: int) {
    StillPending(s, w) && s.waits[w].expires.Some? && s.waits[w].expires.value <= now
  }

  function DoExpire(s: State, w: string, now: int): State {
    if MayExpire(s, w, now) then Settle(Record(s, "", Lapsed(w)), w, WasExpired) else s
  }

  datatype Call =
    | StartRun(run: RunId, version: string, digest: string, nodes: set<string>)
    | EndRun(run: RunId)
    | MoveNode(run: RunId, node: string, ended: bool)
    | Register(registration: Registration)
    | Deliver(delivery: Delivery)
    | Expire(wait: string, now: int)
    | CancelWait(wait: string)        // one pending wait of a run that is being cancelled
    | Append(key: string)

  function Next(s: State, call: Call): State {
    match call
    case StartRun(r, v, d, nodes) =>
      if r in s.runs then s
      else s.(runs := s.runs[r := RunInfo(true, v, d)],
              graphs := if v in s.graphs then s.graphs else s.graphs[v := nodes])
    case EndRun(r) => if r in s.runs then s.(runs := s.runs[r := s.runs[r].(running := false)]) else s
    case MoveNode(r, n, ended) => s.(terminal := s.terminal[(r, n) := ended])
    case Register(r) => DoRegister(s, r).0
    case Deliver(d) => DoComplete(s, d).0
    case Expire(w, now) => DoExpire(s, w, now)
    case CancelWait(w) => if StillPending(s, w) then Settle(Record(s, "", Dropped(w)), w, WasCancelled) else s
    case Append(key) => if key != "" && KeyUsed(s.log, key) then s else Record(s, key, Unrelated)
  }

  function After(s: State, calls: seq<Call>): State {
    if |calls| == 0 then s else Next(After(s, calls[..|calls| - 1]), calls[|calls| - 1])
  }

  // ---- at most one pending wait, left at most once ----

  predicate SameNode(v: Wait, w: Wait) { v.run == w.run && v.node == w.node }

  predicate SamePair(v: Wait, w: Wait) { v.eventType == w.eventType && v.correlation == w.correlation }

  ghost predicate OnePerNode(s: State) {
    forall v, w :: StillPending(s, v) && StillPending(s, w) && SameNode(s.waits[v], s.waits[w]) ==> v == w
  }

  ghost predicate OnePerPair(s: State) {
    forall v, w :: StillPending(s, v) && StillPending(s, w) && SamePair(s.waits[v], s.waits[w]) ==> v == w
  }

  predicate Ends(e: Entry, w: string) { (e.what.Completed? || e.what.Lapsed? || e.what.Dropped?) && e.what.wait == w }

  function EndOf(st: Status, w: string): What
    requires !st.IsPending?
  {
    match st case WasCompleted => Completed(w) case WasExpired => Lapsed(w) case WasCancelled => Dropped(w)
  }

  ghost predicate NeverEnded(log: seq<Entry>, w: string) { forall i :: 0 <= i < |log| ==> !Ends(log[i], w) }

  /** The log ends each settled wait once, in the way its row says, and no other wait. */
  ghost predicate EndsMatch(s: State, w: string) {
    if w in s.waits && !s.waits[w].status.IsPending? then
      exists k :: 0 <= k < |s.log| && s.log[k] == Entry("", EndOf(s.waits[w].status, w)) &&
                  forall i :: 0 <= i < |s.log| && i != k ==> !Ends(s.log[i], w)
    else NeverEnded(s.log, w)
  }

  ghost predicate Inv(s: State) {
    OnePerNode(s) && OnePerPair(s) && forall w {:trigger EndsMatch(s, w)} :: EndsMatch(s, w)
  }

  /** Appending entries that end no wait, with the rows of old waits as they were. */
  lemma QuietKeepsEnds(s: State, t: State, w: string)
    requires EndsMatch(s, w) && s.log <= t.log && (forall i :: |s.log| <= i < |t.log| ==> !Ends(t.log[i], w))
    requires if w in s.waits then w in t.waits && t.waits[w].status == s.waits[w].status
             else w in t.waits ==> t.waits[w].status.IsPending?
    ensures EndsMatch(t, w)
  {
    assert forall i :: 0 <= i < |s.log| ==> t.log[i] == s.log[i];
    if w in s.waits && !s.waits[w].status.IsPending? {
      var k :| 0 <= k < |s.log| && s.log[k] == Entry("", EndOf(s.waits[w].status, w)) &&
               forall i :: 0 <= i < |s.log| && i != k ==> !Ends(s.log[i], w);
      assert t.log[k] == s.log[k];
    }
  }

  lemma SettleKeeps(s: State, t: State, w: string, k: nat)
    requires Inv(s) && StillPending(s, w) && s.log <= t.log && |s.log| <= k < |t.log|
    requires w in t.waits && !t.waits[w].status.IsPending? && t.waits == s.waits[w := t.waits[w]]
    requires t.log[k] == Entry("", EndOf(t.waits[w].status, w))
    requires forall i, v :: |s.log| <= i < |t.log| && Ends(t.log[i], v) ==> i == k && v == w
    ensures Inv(t)
  {
    forall v
      ensures EndsMatch(t, v)
    {
      assert EndsMatch(s, v);
      if v == w {
        assert forall i :: 0 <= i < |s.log| ==> t.log[i] == s.log[i] && !Ends(s.log[i], w);
      } else {
        QuietKeepsEnds(s, t, v);
      }
    }
    assert forall v :: StillPending(t, v) ==> StillPending(s, v);
  }

  lemma QuietKeeps(s: State, t: State)
    requires Inv(s) && s.log <= t.log && t.waits == s.waits
    requires forall i, v :: |s.log| <= i < |t.log| ==> !Ends(t.log[i], v)
    ensures Inv(t)
  {
    forall v
      ensures EndsMatch(t, v)
    {
      assert EndsMatch(s, v);
      QuietKeepsEnds(s, t, v);
    }
    assert forall v :: StillPending(t, v) <==> StillPending(s, v);
  }

  lemma AddKeeps(s: State, id: string, r: Registration)
    requires Inv(s) && r.run in s.runs && id !in s.waits && !PendingPair(s, r.eventType, r.correlation)
    requires !PendingAt(s, r.run, r.node, id)
    ensures Inv(AddWait(s, id, r))
  {
    var t := AddWait(s, id, r);
    forall v
      ensures EndsMatch(t, v)
    {
      assert EndsMatch(s, v);
      QuietKeepsEnds(s, t, v);
    }
    forall v | v in s.waits && StillPending(s, v)
      ensures !(s.waits[v].run == r.run && s.waits[v].node == r.node)
      ensures !(s.waits[v].eventType == r.eventType && s.waits[v].correlation == r.correlation)
    {
    }
    assert forall v :: StillPending(t, v) <==> v == id || StillPending(s, v);
  }

  lemma RegisterKeeps(s: State, r: Registration)
    requires Inv(s)
    ensures Inv(DoRegister(s, r).0)
  {
    hide Inv;
    var t := DoRegister(s, r).0;
    if t != s {
      var id := if r.id.Some? && r.id.value != "" then r.id.value else r.newId;
      AddKeeps(s, id, r);
    }
  }

  lemma DeliverKeeps(s: State, d: Delivery)
    requires Inv(s)
    ensures Inv(DoComplete(s, d).0)
  {
    hide Inv, WellFormed, Inconclusive, Conflicts, KeyUsed;
    var t := DoComplete(s, d).0;
    if DoComplete(s, d).1.Accepted? {
      assert StillPending(s, d.wait) by { NotConflicting(s, d); }
      SettleKeeps(s, t, d.wait, |s.log| + 1);
    } else {
      QuietKeeps(s, t);
    }
  }

  lemma NotConflicting(s: State, d: Delivery)
    requires d.wait in s.waits && !Conflicts(s, d)
    ensures StillPending(s, d.wait)
  {
  }

  lemma CallKeeps(s: State, call: Call)
    requires Inv(s)
    ensures Inv(Next(s, call))
  {
    hide Inv, DoRegister, DoComplete, KeyUsed;
    match call
    case Register(r) => RegisterKeeps(s, r);
    case Deliver(d) => DeliverKeeps(s, d);
    case Expire(w, now) => if MayExpire(s, w, now) { SettleKeeps(s, Next(s, call), w, |s.log|); }
    case CancelWait(w) => if StillPending(s, w) { SettleKeeps(s, Next(s, call), w, |s.log|); }
    case _ => QuietKeeps(s, Next(s, call));
  }

  lemma {:induction false} CallsKeep(s: State, calls: seq<Call>)
    requires Inv(s)
    ensures Inv(After(s, calls))
  {
    hide Inv, Next;
    if |calls| > 0 {
      CallsKeep(s, calls[..|calls| - 1]);
      CallKeeps(After(s, calls[..|calls| - 1]), calls[|calls| - 1]);
    }
  }

  /** In every reachable state at most one wait is pending on a node, and at most one on an event and
      correlation key; each wait has left pending at most once, and its row says how. */
  lemma WaitsAreSound(calls: seq<Call>)
    ensures OnePerNode(After(START, calls)) && OnePerPair(After(START, calls))
    ensures forall w, i, j :: 0 <= i < j < |After(START, calls).log| && Ends(After(START, calls).log[i], w) ==>
                              !Ends(After(START, calls).log[j], w)
  {
    var s := After(START, calls);
    CallsKeep(START, calls);
    forall w, i, j | 0 <= i < j < |s.log| && Ends(s.log[i], w)
      ensures !Ends(s.log[j], w)
    {
      assert EndsMatch(s, w);
    }
  }

  /** A wait that is no longer pending never changes again. */
  lemma SettledWaitStays(s: State, call: Call, w: string)
    requires w in s.waits && !s.waits[w].status.IsPending?
    ensures w in Next(s, call).waits && Next(s, call).waits[w] == s.waits[w]
  {
    hide WellFormed, Inconclusive, KeyUsed, PendingPair, PendingAt;
  }

  // ---- deliveries that say nothing final ----

  /** The states answer every later call alike. */
  ghost predicate Alike(s: State, t: State) {
    && s.waits == t.waits && s.runs == t.runs && s.graphs == t.graphs && s.terminal == t.terminal
    && forall key :: key != "" ==> (KeyUsed(s.log, key) <==> KeyUsed(t.log, key))
  }

  lemma KeyAfter(log: seq<Entry>, more: seq<Entry>, key: string)
    ensures KeyUsed(log + more, key) <==> KeyUsed(log, key) || KeyUsed(more, key)
  {
    var all := log + more;
    if KeyUsed(log, key) {
      var i :| 0 <= i < |log| && log[i].key == key;
      assert all[i].key == key;
    }
    if KeyUsed(more, key) {
      var i :| 0 <= i < |more| && more[i].key == key;
      assert all[|log| + i].key == key;
    }
  }

  lemma AppendAlike(s: State, t: State, more: seq<Entry>, s': State, t': State)
    requires Alike(s, t) && s'.log == s.log + more && t'.log == t.log + more
    requires s'.waits == t'.waits && s'.runs == t'.runs && s'.graphs == t'.graphs && s'.terminal == t'.terminal
    ensures Alike(s', t')
  {
    forall key | key != ""
      ensures KeyUsed(s'.log, key) <==> KeyUsed(t'.log, key)
    {
      KeyAfter(s.log, more, key);
      KeyAfter(t.log, more, key);
    }
  }

  lemma ConflictsAlike(s: State, t: State, d: Delivery)
    requires Alike(s, t) && d.wait in s.waits
    ensures Conflicts(s, d) == Conflicts(t, d)
  {
  }

  /** What a delivery appends. */
  function Appended(d: Delivery, reply: Reply): seq<Entry> {
    match reply
    case Conflict => [Entry(d.providerEvent, Refused(d.wait))]
    case NotYet => [Entry("", Observed(d.wait))]
    case Accepted(_) => [Entry(d.providerEvent, Received(d.wait)), Entry("", Completed(d.wait)), Entry("", Unrelated)]
    case _ => []
  }

  lemma DeliveryAppends(s: State, d: Delivery)
    ensures DoComplete(s, d).0.log == s.log + Appended(d, DoComplete(s, d).1)
    ensures var t := DoComplete(s, d).0; t.runs == s.runs && t.graphs == s.graphs && t.terminal == s.terminal
  {
    hide KeyUsed, WellFormed, Inconclusive, Conflicts;
  }

  lemma DeliverAlike(s: State, t: State, d: Delivery)
    requires Alike(s, t)
    ensures DoComplete(s, d).1 == DoComplete(t, d).1 && Alike(DoComplete(s, d).0, DoComplete(t, d).0)
  {
    DeliveryAppends(s, d);
    DeliveryAppends(t, d);
    assert WellFormed(d) ==> d.providerEvent != "";
    if d.wait in s.waits { ConflictsAlike(s, t, d); }
    hide KeyUsed, WellFormed, Inconclusive, Conflicts, Appended;
    AppendAlike(s, t, Appended(d, DoComplete(s, d).1), DoComplete(s, d).0, DoComplete(t, d).0);
  }

  lemma RegisterAppends(s: State, r: Registration)
    ensures var (t, answer) := DoRegister(s, r);
            t.log == s.log + (if answer.Registered? then [Entry("", Asked(answer.id)), Entry("", Unrelated)] else [])
  {
    hide PendingPair, PendingAt, SameContract, AlreadyWaits;
  }

  lemma RegisterAsAlike(s: State, t: State, id: string, r: Registration)
    requires Alike(s, t) && r.run in s.runs
    ensures RegisterAs(s, id, r).1 == RegisterAs(t, id, r).1
    ensures var x, y := RegisterAs(s, id, r).0, RegisterAs(t, id, r).0;
            x.waits == y.waits && x.runs == y.runs && x.graphs == y.graphs && x.terminal == y.terminal
  {
    PendingAlike(s, t, r);
    hide KeyUsed, PendingPair, PendingAt, SameContract, NodesOf, StillPending;
  }

  lemma RegisterAlike(s: State, t: State, r: Registration)
    requires Alike(s, t)
    ensures DoRegister(s, r).1 == DoRegister(t, r).1 && Alike(DoRegister(s, r).0, DoRegister(t, r).0)
  {
    hide KeyUsed, RegisterAs, AlreadyWaits, PendingPair, PendingAt, StillPending, NodesOf;
    RegisterAppends(s, r);
    RegisterAppends(t, r);
    PendingAlike(s, t, r);
    if r.run in s.runs {
      RegisterAsAlike(s, t, r.newId, r);
      if r.id.Some? { RegisterAsAlike(s, t, r.id.value, r); }
    }
    var answer := DoRegister(s, r).1;
    var more := if answer.Registered? then [Entry("", Asked(answer.id)), Entry("", Unrelated)] else [];
    AppendAlike(s, t, more, DoRegister(s, r).0, DoRegister(t, r).0);
  }

  lemma PendingAlike(s: State, t: State, r: Registration)
    requires Alike(s, t)
    ensures forall w :: StillPending(s, w) <==> StillPending(t, w)
    ensures PendingPair(s, r.eventType, r.correlation) == PendingPair(t, r.eventType, r.correlation)
    ensures forall id :: PendingAt(s, r.run, r.node, id) == PendingAt(t, r.run, r.node, id)
    ensures AlreadyWaits(s, r) == AlreadyWaits(t, r)
    ensures forall v :: NodesOf(s, v) == NodesOf(t, v)
  {
  }

  lemma CallAlike(s: State, t: State, call: Call)
    requires Alike(s, t)
    ensures Alike(Next(s, call), Next(t, call))
  {
    match call
    case Register(r) => RegisterAlike(s, t, r);
    case Deliver(d) => DeliverAlike(s, t, d);
    case Append(key) => AppendCallAlike(s, t, key);
    case _ => OtherCallAlike(s, t, call);
  }

  lemma AppendCallAlike(s: State, t: State, key: string)
    requires Alike(s, t)
    ensures Alike(Next(s, Append(key)), Next(t, Append(key)))
  {
    hide KeyUsed;
    var more := if key != "" && KeyUsed(s.log, key) then [] else [Entry(key, Unrelated)];
    AppendAlike(s, t, more, Next(s, Append(key)), Next(t, Append(key)));
  }

  lemma OtherCallAlike(s: State, t: State, call: Call)
    requires Alike(s, t) && !call.Register? && !call.Deliver? && !call.Append?
    ensures Alike(Next(s, call), Next(t, call))
  {
    hide KeyUsed;
    var more := match call
                case Expire(w, now) => if MayExpire(s, w, now) then [Entry("", Lapsed(w))] else []
                case CancelWait(w) => if StillPending(s, w) then [Entry("", Dropped(w))] else []
                case _ => [];
    AppendAlike(s, t, more, Next(s, call), Next(t, call));
  }

  /** A delivery that is only observed leaves a state that answers everything as before. */
  lemma ObservedIsAlike(s: State, d: Delivery)
    requires DoComplete(s, d).1.NotYet?
    ensures Alike(s, DoComplete(s, d).0)
  {
    var t := DoComplete(s, d).0;
    forall key | key != ""
      ensures KeyUsed(s.log, key) <==> KeyUsed(t.log, key)
    {
      KeyAfter(s.log, [Entry("", Observed(d.wait))], key);
    }
  }

  /** Each delivery of the list is only observed. */
  ghost predicate AllObserved(s: State, ds: seq<Delivery>) {
    forall i :: 0 <= i < |ds| ==> DoComplete(AfterDeliveries(s, ds[..i]), ds[i]).1.NotYet?
  }

  function AfterDeliveries(s: State, ds: seq<Delivery>): State {
    if |ds| == 0 then s else DoComplete(AfterDeliveries(s, ds[..|ds| - 1]), ds[|ds| - 1]).0
  }

  lemma AlikeTrans(s: State, t: State, u: State)
    requires Alike(s, t) && Alike(t, u)
    ensures Alike(s, u)
  {
  }

  lemma {:induction false} ObservationsAreAlike(s: State, ds: seq<Delivery>)
    requires AllObserved(s, ds)
    ensures Alike(s, AfterDeliveries(s, ds))
  {
    hide DoComplete, Alike;
    if |ds| == 0 {
      SelfAlike(s);
    } else {
      var init := ds[..|ds| - 1];
      forall i | 0 <= i < |init|
        ensures DoComplete(AfterDeliveries(s, init[..i]), init[i]).1.NotYet?
      {
        assert init[..i] == ds[..i];
      }
      ObservationsAreAlike(s, init);
      ObservedIsAlike(AfterDeliveries(s, init), ds[|ds| - 1]);
      AlikeTrans(s, AfterDeliveries(s, init), AfterDeliveries(s, ds));
    }
  }

  lemma SelfAlike(s: State)
    ensures Alike(s, s)
  {
  }

  lemma {:induction false} CallsAlike(s: State, t: State, calls: seq<Call>)
    requires Alike(s, t)
    ensures Alike(After(s, calls), After(t, calls))
  {
    hide Alike, Next;
    if |calls| > 0 {
      CallsAlike(s, t, calls[..|calls| - 1]);
      CallAlike(After(s, calls[..|calls| - 1]), After(t, calls[..|calls| - 1]), calls[|calls| - 1]);
    }
  }

  /** A well-formed delivery under a new key that finds its wait and says nothing final. */
  predicate SaysNothing(s: State, d: Delivery) {
    && WellFormed(d) && !KeyUsed(s.log, d.providerEvent)
    && d.wait in s.waits && !Conflicts(s, d) && Inconclusive(s.waits[d.wait], d)
  }

  lemma ObservedExactlyIfNothing(s: State, d: Delivery)
    ensures DoComplete(s, d).1.NotYet? <==> SaysNothing(s, d)
  {
    hide WellFormed, KeyUsed, Conflicts, Inconclusive;
  }

  lemma NothingAlike(s: State, t: State, d: Delivery)
    requires Alike(s, t)
    ensures SaysNothing(s, d) == SaysNothing(t, d)
  {
    ObservedExactlyIfNothing(s, d);
    ObservedExactlyIfNothing(t, d);
    DeliverAlike(s, t, d);
  }

  /** Deliveries that say nothing in the state before all of them are observed one after the other. */
  lemma {:induction false} NothingIsObserved(s: State, ds: seq<Delivery>)
    requires forall i :: 0 <= i < |ds| ==> SaysNothing(s, ds[i])
    ensures AllObserved(s, ds)
  {
    hide DoComplete, Alike, SaysNothing;
    if |ds| > 0 {
      var n := |ds| - 1;
      var init := ds[..n];
      assert forall i :: 0 <= i < n ==> init[i] == ds[i];
      NothingIsObserved(s, init);
      ObservationsAreAlike(s, init);
      NothingAlike(s, AfterDeliveries(s, init), ds[n]);
      ObservedExactlyIfNothing(AfterDeliveries(s, init), ds[n]);
      forall i | 0 <= i < |ds|
        ensures DoComplete(AfterDeliveries(s, ds[..i]), ds[i]).1.NotYet?
      {
        if i < n { assert init[..i] == ds[..i]; }
      }
    }
  }

  /** Any number of non-terminal or condition-failing deliveries to pending waits, and any calls after them,
      leave a later delivery the reply it would have had without them, also one under the same event id. */
  lemma ObservationsChangeNothing(s: State, ds: seq<Delivery>, calls: seq<Call>, d: Delivery)
    requires forall i :: 0 <= i < |ds| ==> SaysNothing(s, ds[i])
    ensures DoComplete(After(AfterDeliveries(s, ds), calls), d).1 == DoComplete(After(s, calls), d).1
  {
    hide Alike, SaysNothing, AllObserved;
    NothingIsObserved(s, ds);
    ObservationsAreAlike(s, ds);
    CallsAlike(s, AfterDeliveries(s, ds), calls);
    DeliverAlike(After(s, calls), After(AfterDeliveries(s, ds), calls), d);
  }

  // ---- deliveries that use up their key ----

  /** A delivery that could be accepted can still be accepted after another one under its provider event id
      exactly if that one named no wait, or met a pending wait that it matched and said nothing final. */
  lemma RetryWorksUnlessConsumed(s: State, d: Delivery, retry: Delivery)
    requires WellFormed(d) && WellFormed(retry) && retry.providerEvent == d.providerEvent
    requires DoComplete(s, retry).1.Accepted?
    ensures DoComplete(DoComplete(s, d).0, retry).1.Accepted? <==>
              d.wait !in s.waits || (!Conflicts(s, d) && Inconclusive(s.waits[d.wait], d))
  {
    hide WellFormed, Conflicts, Inconclusive;
    var t := DoComplete(s, d).0;
    if DoComplete(s, d).1.NotYet? {
      ObservedIsAlike(s, d);
      DeliverAlike(s, t, retry);
    } else if DoComplete(s, d).1.Conflict? || DoComplete(s, d).1.Accepted? {
      assert t.log[|s.log|].key == d.providerEvent;
      assert KeyUsed(t.log, retry.providerEvent);
    }
  }

  lemma CallAppends(s: State, call: Call)
    ensures s.log <= Next(s, call).log
  {
    hide KeyUsed, DoComplete, DoRegister;
    match call
    case Register(r) => RegisterAppends(s, r);
    case Deliver(d) => DeliveryAppends(s, d);
    case _ =>
  }

  lemma {:induction false} KeyStaysUsed(s: State, calls: seq<Call>, key: string)
    requires KeyUsed(s.log, key)
    ensures KeyUsed(After(s, calls).log, key)
  {
    hide Next;
    if |calls| > 0 {
      var t, call := After(s, calls[..|calls| - 1]), calls[|calls| - 1];
      KeyStaysUsed(s, calls[..|calls| - 1], key);
      CallAppends(t, call);
      var i :| 0 <= i < |t.log| && t.log[i].key == key;
      assert Next(t, call).log[i].key == key;
    }
  }

  /** A delivery that does not match its wait uses up its event id for good, even if its status is not
      terminal: nothing is accepted under that id again, whatever is called. */
  lemma MismatchConsumesTheKey(s: State, d: Delivery, calls: seq<Call>, retry: Delivery)
    requires WellFormed(d) && d.wait in s.waits && Conflicts(s, d) && retry.providerEvent == d.providerEvent
    ensures !DoComplete(After(DoComplete(s, d).0, calls), retry).1.Accepted?
  {
    hide WellFormed, Conflicts, Inconclusive;
    var t := DoComplete(s, d).0;
    if !KeyUsed(s.log, d.providerEvent) { assert t.log[|s.log|].key == d.providerEvent; }
    KeyStaysUsed(t, calls, d.providerEvent);
  }

  /** Accepting a delivery takes the route of its status, unless a condition holds: then it is success,
      whatever the status. */
  lemma RouteIsStatusOrSuccess(s: State, d: Delivery)
    requires DoComplete(s, d).1.Accepted?
    ensures var w, r := s.waits[d.wait], DoComplete(s, d).1.route;
            && d.wait in s.waits && !NonTerminal(d.status)
            && (r == "success" <==>
                Satisfied(w.condition, d.status, d.payload) || (d.status == "success" && !HasPredicate(w.condition)))
            && (r != "success" ==> r == d.status)
  {
  }

  /** Expiry looks at the wait only: it goes through in a run that has ended, where a delivery is refused. */
  lemma ExpiryIgnoresTheRun(s: State, d: Delivery, now: int)
    requires MayExpire(s, d.wait, now) && s.waits[d.wait].run in s.runs && !s.runs[s.waits[d.wait].run].running
    requires WellFormed(d) && !KeyUsed(s.log, d.providerEvent)
    ensures DoComplete(s, d).1.Conflict?
    ensures DoExpire(s, d.wait, now).waits[d.wait].status.WasExpired?
  {
  }

  // ---- the tables ----

  /** The entries let these waits lapse that are due and not in `rest`, each once. */
  ghost predicate LapsesBut(more: seq<Entry>, start: State, now: int, rest: set<string>) {
    && (forall i :: 0 <= i < |more| ==> more[i].key == "" && more[i].what.Lapsed?)
    && (forall i, j :: 0 <= i < j < |more| ==> more[i] != more[j])
    && (forall w {:trigger Lapsed(w)} :: Entry("", Lapsed(w)) in more <==> MayExpire(start, w, now) && w !in rest)
  }

  ghost predicate LapsesOnce(more: seq<Entry>, start: State, now: int) { LapsesBut(more, start, now, {}) }

  lemma LapseMore(more: seq<Entry>, start: State, now: int, rest: set<string>, w: string)
    requires LapsesBut(more, start, now, rest) && w in rest && MayExpire(start, w, now)
    ensures LapsesBut(more + [Entry("", Lapsed(w))], start, now, rest - {w})
  {
  }

  lemma StillDue(start: State, s: State, w: string, now: int)
    requires MayExpire(start, w, now) && w in s.waits && s.waits[w] == start.waits[w]
    ensures MayExpire(s, w, now) && w in start.waits
    ensures DoExpire(s, w, now) ==
            s.(log := s.log + [Entry("", Lapsed(w))], waits := s.waits[w := start.waits[w].(status := WasExpired)])
  {
  }

  /** The waits in `rest` are still to lapse; the other due ones of `start` have, and nothing else has changed. */
  ghost predicate SweptBut(s: State, start: State, more: seq<Entry>, now: int, rest: set<string>) {
    && s.runs == start.runs && s.graphs == start.graphs && s.terminal == start.terminal
    && s.waits.Keys == start.waits.Keys && s.log == start.log + more && LapsesBut(more, start, now, rest)
    && (forall w :: w in rest ==> MayExpire(start, w, now))
    && forall w :: w in s.waits ==> s.waits[w] == RowAfterSweep(start, now, rest, w)
  }

  function RowAfterSweep(start: State, now: int, rest: set<string>, w: string): Wait
    requires w in start.waits
  {
    if MayExpire(start, w, now) && w !in rest then start.waits[w].(status := WasExpired) else start.waits[w]
  }

  lemma NoneLapsed(start: State, now: int, rest: set<string>)
    requires forall w :: w in rest <==> MayExpire(start, w, now)
    ensures SweptBut(start, start, [], now, rest)
  {
  }

  lemma SweepMore(s: State, start: State, more: seq<Entry>, now: int, rest: set<string>, w: string)
    requires SweptBut(s, start, more, now, rest) && w in rest
    ensures SweptBut(DoExpire(s, w, now), start, more + [Entry("", Lapsed(w))], now, rest - {w})
  {
    assert w in s.waits && s.waits[w] == start.waits[w] by { hide LapsesBut; }
    LapseMore(more, start, now, rest, w);
    StillDue(start, s, w, now);
    hide LapsesBut, MayExpire, DoExpire;
  }

  lemma SweepEnds(s: State, start: State, more: seq<Entry>, now: int)
    requires SweptBut(s, start, more, now, {})
    ensures s.runs == start.runs && s.graphs == start.graphs && s.terminal == start.terminal
    ensures s.waits.Keys == start.waits.Keys && start.log <= s.log && LapsesOnce(s.log[|start.log|..], start, now)
    ensures forall w :: w in s.waits ==>
              s.waits[w] ==
              if MayExpire(start, w, now) then start.waits[w].(status := WasExpired) else start.waits[w]
  {
    hide LapsesBut, MayExpire;
    assert s.log[|start.log|..] == more;
  }

  class Gateway {
    var log: seq<Entry>
    var waits: map<string, Wait>
    var runs: map<RunId, RunInfo>
    var graphs: map<string, set<string>>
    var terminal: map<(RunId, string), bool>

    ghost function View(): State
      reads this
    {
      State(log, waits, runs, graphs, terminal)
    }

    method HasKey(key: string) returns (r: bool)
      ensures r == KeyUsed(log, key)
    {
      r := false;
      var i := 0;
      while i < |log|
        invariant 0 <= i <= |log| && r == exists j :: 0 <= j < i && log[j].key == key
      {
        if log[i].key == key { r := true; }
        i := i + 1;
      }
    }

    /** Some pending wait holds the event and correlation key, or the node. */
    method CountPending(r: Registration, id: string) returns (pair: bool, node: bool, both: bool)
      ensures pair == PendingPair(View(), r.eventType, r.correlation)
      ensures node == PendingAt(View(), r.run, r.node, id)
      ensures both == AlreadyWaits(View(), r)
    {
      hide SameContract;
      pair, node, both := false, false, false;
      var rest := waits.Keys;
      ghost var seen: set<string> := {};
      while rest != {}
        invariant rest + seen == waits.Keys
        invariant pair ==
                  exists w :: w in seen && StillPending(View(), w) && waits[w].eventType == r.eventType &&
                              waits[w].correlation == r.correlation
        invariant node ==
                  exists w :: w in seen && w != id && StillPending(View(), w) && waits[w].run == r.run &&
                              waits[w].node == r.node
        invariant both == exists w :: w in seen && StillPending(View(), w) && SameWait(waits[w], r)
        decreases rest
      {
        var k := AnyOf(rest);
        rest := rest - {k};
        seen := seen + {k};
        var w := waits[k];
        if w.status.IsPending? {
          if w.eventType == r.eventType && w.correlation == r.correlation { pair := true; }
          if k != id && w.run == r.run && w.node == r.node { node := true; }
          if w.run == r.run && w.node == r.node && w.eventType == r.eventType && w.correlation == r.correlation {
            both := true;
          }
        }
      }
    }

    method RegisterExternalWait(r: Registration) returns (answer: Answer)
      modifies this
      ensures View() == DoRegister(old(View()), r).0
      ensures answer == DoRegister(old(View()), r).1
    {
      hide PendingPair, PendingAt, AlreadyWaits;
      if r.node == "" || r.eventType == "" || r.correlation == "" || r.run !in runs { return Bad; }
      if !runs[r.run].running { return Clash; }
      var condition := if r.condition.None? then Obj(map[]) else r.condition.value;
      if !condition.Obj? { return Bad; }
      var id := r.newId;
      if r.id.Some? && r.id.value != "" { id := r.id.value; }
      var pair, node, both := CountPending(r, id);
      if !(r.id.Some? && r.id.value != "") && both { return Reused; }
      var info := runs[r.run];
      if info.version !in graphs || r.node !in graphs[info.version] { return Bad; }
      if id in waits {
        return if waits[id].status.IsPending? && SameContract(waits[id], r, info, condition) then Reused else Clash;
      }
      if pair { return Clash; }
      var at := (r.run, r.node);
      if at in terminal && terminal[at] { return Clash; }
      if node { return Clash; }
      if at !in terminal { terminal := terminal[at := false]; }
      log := log + [Entry("", Asked(id)), Entry("", Unrelated)];
      waits := waits[id := Wait(r.run, r.node, info.version, info.digest, r.eventType, r.correlation,
                                condition, IsPending,
                                if r.expiresAt > 0 then Some(r.expiresAt) else None)];
      answer := Registered(id);
    }

    method CompleteExternalWait(d: Delivery) returns (reply: Reply)
      modifies this
      ensures View() == DoComplete(old(View()), d).0
      ensures reply == DoComplete(old(View()), d).1
    {
      hide WellFormed, NonTerminal, Satisfied, HasPredicate, KeyUsed;
      if !WellFormed(d) { return Malformed; }
      var known := HasKey(d.providerEvent);
      if known { return if d.wait in waits && waits[d.wait].status.WasCompleted? then Duplicate else Processed; }
      if d.wait !in waits { return Unknown; }
      var w := waits[d.wait];
      if !w.status.IsPending? || w.eventType != d.eventType || w.correlation != d.correlation || w.run !in runs ||
         !runs[w.run].running {
        log := log + [Entry(d.providerEvent, Refused(d.wait))];
        return Conflict;
      }
      if NonTerminal(d.status) {
        log := log + [Entry("", Observed(d.wait))];
        return NotYet;
      }
      var satisfied, hasPredicate := EvaluateExpectedCondition(w.condition, d.status, d.payload);
      var route := d.status;
      if hasPredicate {
        if satisfied {
          route := "success";
        } else if d.status == "success" {
          log := log + [Entry("", Observed(d.wait))];
          return NotYet;
        }
      }
      SatisfiedHas(w.condition, d.status, d.payload);
      log := log + [Entry(d.providerEvent, Received(d.wait)), Entry("", Completed(d.wait)), Entry("", Unrelated)];
      waits := waits[d.wait := w.(status := WasCompleted)];
      reply := Accepted(route);
    }

    method ExpireOne(w: string, now: int)
      modifies this
      ensures View() == DoExpire(old(View()), w, now)
    {
      if w !in waits || !waits[w].status.IsPending? || waits[w].expires.None? || waits[w].expires.value > now {
        return;
      }
      log := log + [Entry("", Lapsed(w))];
      waits := waits[w := waits[w].(status := WasExpired)];
    }

    /** The waits that are due. */
    method ListDue(now: int) returns (due: set<string>)
      ensures due <= waits.Keys && forall w :: w in due <==> MayExpire(View(), w, now)
    {
      due := set w | w in waits && waits[w].status.IsPending? && waits[w].expires.Some? &&
                     waits[w].expires.value <= now;
    }

    /** Every listed wait expires, with one event each; the others stay as they are. */
    method ExpireExternalWaits(now: int)
      modifies this
      ensures runs == old(runs) && graphs == old(graphs) && terminal == old(terminal) && waits.Keys == old(waits).Keys
      ensures old(log) <= log && LapsesOnce(log[|old(log)|..], old(View()), now)
      ensures forall w :: w in waits ==>
                waits[w] ==
                if old(MayExpire(View(), w, now)) then old(waits[w]).(status := WasExpired) else old(waits[w])
    {
      hide LapsesOnce, SweptBut, MayExpire, DoExpire;
      ghost var start, more: seq<Entry> := View(), [];
      var rest := ListDue(now);
      NoneLapsed(start, now, rest);
      while rest != {}
        invariant SweptBut(View(), start, more, now, rest)
        decreases rest
      {
        var w := AnyOf(rest);
        SweepMore(View(), start, more, now, rest, w);
        rest := rest - {w};
        more := more + [Entry("", Lapsed(w))];
        ExpireOne(w, now);
      }
      SweepEnds(View(), start, more, now);
    }
  }

  lemma SatisfiedHas(cond: Json, status: string, payload: Json)
    ensures Satisfied(cond, status, payload) ==> HasPredicate(cond)
  {
  }
}
