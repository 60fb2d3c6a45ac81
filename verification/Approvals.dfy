/** Approvals: registering a gate, deciding it once, and letting it lapse.

    Every event may carry an idempotency key, and one key names one event in the whole log, whoever
    chose it: clients choose the keys of decisions, the controller those of expiries. */
module Approvals {
  import opened Texts
  import opened Collections
  import opened Events
  import opened Options

  datatype Verdict = Grant | Deny

  datatype What =
    | Requested(approval: string)
    | Ruled(approval: string, verdict: Verdict, actor: string)    // approval_granted, approval_denied
    | Lapsed(approval: string)                                    // approval_expired
    | Unrelated

  datatype Entry = Entry(key: string, what: What)

  datatype Decision = Decision(verdict: Verdict, actor: string, key: string)
  datatype Approval = Approval(run: RunId, node: string, version: string, expiresAt: int, decision: Option<Decision>)
  datatype RunInfo = RunInfo(running: bool, version: string, digest: string)

  datatype State = State(log: seq<Entry>, approvals: map<string, Approval>, runs: map<RunId, RunInfo>,
                         digests: map<string, string>)

  const MAX_FIELD := 512
  const MAX_ACTOR := 256
  const MAX_REASON := 1024
  const EXPIRY_KEY := "approval_expired:"
  const DEFAULT_EXPIRY := 7 * 24 * 60 * 60 * 1000

  /** `secret` says that the actor or the key has the shape of a credential. */
  datatype Request = Request(
    approval: string, run: Option<RunId>, decision: string, actor: string, key: string, reason: string, secret: bool)

  predicate WellFormed(req: Request) {
    && 0 < |req.approval| <= MAX_FIELD
    && (req.decision == "grant" || req.decision == "deny")
    && 0 < |req.actor| <= MAX_ACTOR && !HasControlChars(req.actor)
    && 0 < |req.key| <= MAX_FIELD && !HasControlChars(req.key) && !req.secret
    && |req.reason| <= MAX_REASON && !HasControlChars(req.reason)
  }

  function VerdictOf(decision: string): Verdict { if decision == "deny" then Deny else Grant }

  datatype Reply =
    | Invalid | NotFound | Conflict | TooLate | PolicyDenied
    | Done(verdict: Verdict, actor: string)
    | Already(verdict: Verdict, actor: string)

  /** The event recorded under a key. */
  function Recorded(log: seq<Entry>, key: string): Option<What> {
    if |log| == 0 then None
    else if log[|log| - 1].key == key then Some(log[|log| - 1].what)
    else Recorded(log[..|log| - 1], key)
  }

  predicate KeyUsed(log: seq<Entry>, key: string) { exists i :: 0 <= i < |log| && log[i].key == key }

  lemma {:induction false} RecordedWhen(log: seq<Entry>, key: string)
    ensures Recorded(log, key).Some? <==> KeyUsed(log, key)
    ensures Recorded(log, key).Some? ==> exists i :: 0 <= i < |log| && log[i] == Entry(key, Recorded(log, key).value)
  {
    if |log| > 0 && log[|log| - 1].key != key {
      var init := log[..|log| - 1];
      RecordedWhen(init, key);
      if KeyUsed(init, key) {
        var i :| 0 <= i < |init| && init[i] == Entry(key, Recorded(init, key).value);
        assert log[i] == init[i];
      }
      if KeyUsed(log, key) {
        var i :| 0 <= i < |log| && log[i].key == key;
        assert init[i] == log[i];
      }
    }
  }

  // ---- the calls ----

  datatype Call =
    | StartRun(run: RunId, version: string, digest: string)
    | EndRun(run: RunId)
    | Register(run: RunId, node: string, terminal: bool, id: string, now: int, expiresIn: int)
    | Decide(request: Request, now: int)
    | Expire(approval: string, now: int)
    | Append(key: string)

  const START := State([], map[], map[], map[])

  predicate VersionMatches(s: State, a: Approval)
    requires a.run in s.runs
  {
    s.runs[a.run].version == a.version &&
    s.runs[a.run].digest == if a.version in s.digests then s.digests[a.version] else ""
  }

  function Rule(s: State, id: string, d: Decision): State
    requires id in s.approvals
  {
    s.(log := s.log + [Entry(d.key, Ruled(id, d.verdict, d.actor))],
       approvals := s.approvals[id := s.approvals[id].(decision := Some(d))])
  }

  /** One decision of a client. */
  function DoDecide(s: State, req: Request, now: int): (State, Reply) {
    if !WellFormed(req) then (s, Invalid)
    else if req.approval !in s.approvals then (s, NotFound)
    else
      var a := s.approvals[req.approval];
      if req.run.Some? && req.run.value != a.run then (s, NotFound)
      else
        match Recorded(s.log, req.key)
        case Some(Ruled(id, verdict, actor)) => (s, if id == req.approval then Already(verdict, actor) else Conflict)
        case Some(_) => (s, Conflict)
        case None =>
          if a.decision.Some? then (s, Conflict)
          else if KeyUsed(s.log, EXPIRY_KEY + req.approval) || a.expiresAt <= now then (s, TooLate)
          else if a.run !in s.runs then (s, NotFound)
          else if !VersionMatches(s, a) then (s, PolicyDenied)
          else if !s.runs[a.run].running then (s, Conflict)
          else
            var verdict := VerdictOf(req.decision);
            (Rule(s, req.approval, Decision(verdict, req.actor, req.key)), Done(verdict, req.actor))
  }

  predicate MayLapse(s: State, id: string, now: int) {
    && id in s.approvals && s.approvals[id].decision.None? && s.approvals[id].expiresAt <= now
    && s.approvals[id].run in s.runs && s.runs[s.approvals[id].run].running && !KeyUsed(s.log, EXPIRY_KEY + id)
  }

  /** The expiry of one approval; a key conflict is passed over in silence. */
  function DoExpire(s: State, id: string, now: int): State {
    if MayLapse(s, id, now) then s.(log := s.log + [Entry(EXPIRY_KEY + id, Lapsed(id))]) else s
  }

  /** Registration finds an undecided approval of the node, or makes one under a new id. */
  function DoRegister(s: State, run: RunId, node: string, terminal: bool, id: string, now: int, expiresIn: int): State {
    if run !in s.runs || !s.runs[run].running || terminal || id in s.approvals then s
    else if exists a :: a in s.approvals && s.approvals[a].run == run && s.approvals[a].node == node &&
                        s.approvals[a].decision.None? then
      s
    else
      var expiry := now + if expiresIn <= 0 then DEFAULT_EXPIRY else expiresIn;
      s.(log := s.log + [Entry("", Requested(id)), Entry("", Unrelated)],
         approvals := s.approvals[id := Approval(run, node, s.runs[run].version, expiry, None)])
  }

  function Next(s: State, call: Call): State {
    match call
    case StartRun(r, v, d) =>
      if r in s.runs then s
      else s.(runs := s.runs[r := RunInfo(true, v, d)],
              digests := if v in s.digests then s.digests else s.digests[v := d])
    case EndRun(r) => if r in s.runs then s.(runs := s.runs[r := s.runs[r].(running := false)]) else s
    case Register(r, n, terminal, id, now, e) => DoRegister(s, r, n, terminal, id, now, e)
    case Decide(req, now) => DoDecide(s, req, now).0
    case Expire(id, now) => DoExpire(s, id, now)
    case Append(key) => if key != "" && KeyUsed(s.log, key) then s else s.(log := s.log + [Entry(key, Unrelated)])
  }

  function After(s: State, calls: seq<Call>): State {
    if |calls| == 0 then s else Next(After(s, calls[..|calls| - 1]), calls[|calls| - 1])
  }

  // ---- the invariant ----

  predicate RulesOn(e: Entry, id: string) { (e.what.Ruled? || e.what.Lapsed?) && e.what.approval == id }

  ghost predicate UniqueKeys(log: seq<Entry>) {
    forall i, j :: 0 <= i < j < |log| && log[i].key == log[j].key ==> log[i].key == ""
  }

  ghost predicate EntryOk(s: State, e: Entry) {
    match e.what
    case Ruled(id, v, who) => e.key != "" && id in s.approvals &&
                              s.approvals[id].decision == Some(Decision(v, who, e.key))
    case Lapsed(id) => e.key == EXPIRY_KEY + id && id in s.approvals && s.approvals[id].decision.None?
    case _ => true
  }

  ghost predicate RowOk(s: State, id: string)
    requires id in s.approvals
  {
    var d := s.approvals[id].decision;
    d.Some? ==> Entry(d.value.key, Ruled(id, d.value.verdict, d.value.actor)) in s.log
  }

  ghost predicate Inv(s: State) {
    && UniqueKeys(s.log)
    && (forall e {:trigger EntryOk(s, e)} :: e in s.log ==> EntryOk(s, e))
    && (forall id {:trigger RowOk(s, id)} :: id in s.approvals ==> RowOk(s, id))
  }

  lemma KeyOf(id: string)
    ensures EXPIRY_KEY + id != ""
  {
    assert |EXPIRY_KEY + id| > 0;
  }

  lemma KeysDiffer(a: string, b: string)
    requires EXPIRY_KEY + a == EXPIRY_KEY + b
    ensures a == b
  {
    assert a == (EXPIRY_KEY + a)[|EXPIRY_KEY|..];
    assert b == (EXPIRY_KEY + b)[|EXPIRY_KEY|..];
  }

  lemma RuleKeeps(s: State, id: string, d: Decision)
    requires Inv(s) && id in s.approvals && s.approvals[id].decision.None? && d.key != "" && !KeyUsed(s.log, d.key)
    requires !KeyUsed(s.log, EXPIRY_KEY + id)
    ensures Inv(Rule(s, id, d))
  {
    var t := Rule(s, id, d);
    forall e | e in t.log
      ensures EntryOk(t, e)
    {
      if e in s.log {
        assert EntryOk(s, e);
        var i :| 0 <= i < |s.log| && s.log[i] == e;
        assert s.log[i].key != EXPIRY_KEY + id;
      }
    }
    forall a | a in t.approvals
      ensures RowOk(t, a)
    {
      if a != id { assert RowOk(s, a); }
    }
  }

  lemma ExpireKeeps(s: State, id: string, now: int)
    requires Inv(s)
    ensures Inv(DoExpire(s, id, now))
  {
    var t := DoExpire(s, id, now);
    forall e | e in t.log
      ensures EntryOk(t, e)
    {
      if e in s.log { assert EntryOk(s, e); }
    }
    forall a | a in t.approvals
      ensures RowOk(t, a)
    {
      assert RowOk(s, a);
    }
  }

  lemma DecideKeeps(s: State, req: Request, now: int)
    requires Inv(s)
    ensures Inv(DoDecide(s, req, now).0)
  {
    RecordedWhen(s.log, req.key);
    if DoDecide(s, req, now).0 != s {
      RuleKeeps(s, req.approval, Decision(VerdictOf(req.decision), req.actor, req.key));
    }
  }

  lemma RegisterKeeps(s: State, run: RunId, node: string, terminal: bool, id: string, now: int, expiresIn: int)
    requires Inv(s)
    ensures Inv(DoRegister(s, run, node, terminal, id, now, expiresIn))
  {
    var t := DoRegister(s, run, node, terminal, id, now, expiresIn);
    forall e | e in t.log
      ensures EntryOk(t, e)
    {
      if e in s.log { assert EntryOk(s, e); }
    }
    forall a | a in t.approvals
      ensures RowOk(t, a)
    {
      if a in s.approvals { assert RowOk(s, a); }
    }
  }

  lemma OtherCallKeeps(s: State, call: Call)
    requires Inv(s) && (call.StartRun? || call.EndRun? || call.Append?)
    ensures Inv(Next(s, call))
  {
    var t := Next(s, call);
    forall e | e in t.log
      ensures EntryOk(t, e)
    {
      if e in s.log { assert EntryOk(s, e); }
    }
    forall a | a in t.approvals
      ensures RowOk(t, a)
    {
      assert RowOk(s, a);
    }
  }

  lemma CallKeeps(s: State, call: Call)
    requires Inv(s)
    ensures Inv(Next(s, call))
  {
    hide Inv;
    match call
    case Register(r, n, terminal, id, now, e) => RegisterKeeps(s, r, n, terminal, id, now, e);
    case Decide(req, now) => DecideKeeps(s, req, now);
    case Expire(id, now) => ExpireKeeps(s, id, now);
    case _ => OtherCallKeeps(s, call);
  }

  lemma {:induction false} CallsKeep(s: State, calls: seq<Call>)
    requires Inv(s)
    ensures Inv(After(s, calls))
  {
    hide Inv, Next;
    if |calls| > 0 {
      CallsKeep(s, calls[..|calls| - 1]);
      CallKeeps(After(s, calls[..|calls| - 1]), calls[|calls| - 1]);
    }
  }

  // ---- what callers can rely on ----

  /** Each approval is granted, denied or expired at most once, whatever is called. */
  lemma RuledAtMostOnce(calls: seq<Call>, id: string, i: nat, j: nat)
    requires var log := After(START, calls).log; i < j < |log| && RulesOn(log[i], id)
    ensures !RulesOn(After(START, calls).log[j], id)
  {
    var s := After(START, calls);
    CallsKeep(START, calls);
    assert s.log[i] in s.log && s.log[j] in s.log;
    assert EntryOk(s, s.log[i]) && EntryOk(s, s.log[j]);
    KeyOf(id);
  }

  /** A decision that has been recorded stays, with its approval row. */
  lemma CallKeepsRuling(s: State, call: Call, e: Entry)
    requires Inv(s) && e in s.log && e.what.Ruled?
    ensures var t := Next(s, call);
            && e in t.log && e.what.approval in s.approvals && e.what.approval in t.approvals
            && t.approvals[e.what.approval] == s.approvals[e.what.approval]
  {
    assert EntryOk(s, e);
    if call.Decide? { RecordedWhen(s.log, call.request.key); }
  }

  lemma {:induction false} RulingStays(s: State, calls: seq<Call>, e: Entry)
    requires Inv(s) && e in s.log && e.what.Ruled?
    ensures var t := After(s, calls);
            && Inv(t) && e in t.log && e.what.approval in s.approvals && e.what.approval in t.approvals
            && t.approvals[e.what.approval] == s.approvals[e.what.approval]
  {
    hide Next, Inv;
    if |calls| == 0 {
      CallKeepsRuling(s, EndRun(0), e);
    } else {
      var t := After(s, calls[..|calls| - 1]);
      RulingStays(s, calls[..|calls| - 1], e);
      CallKeepsRuling(t, calls[|calls| - 1], e);
      CallKeeps(t, calls[|calls| - 1]);
    }
  }

  lemma RecordedIs(s: State, e: Entry)
    requires Inv(s) && e in s.log && e.key != ""
    ensures Recorded(s.log, e.key) == Some(e.what)
  {
    RecordedWhen(s.log, e.key);
    var i :| 0 <= i < |s.log| && s.log[i] == e;
    assert KeyUsed(s.log, e.key);
    var j :| 0 <= j < |s.log| && s.log[j] == Entry(e.key, Recorded(s.log, e.key).value);
    assert i == j;
  }

  /** Repeating a decision's key, with any verdict, actor and time and after any other calls, returns the
      original decision and actor and changes nothing. */
  lemma ReplayReturnsOriginal(calls: seq<Call>, e: Entry, more: seq<Call>, req: Request, now: int)
    requires e in After(START, calls).log && e.what.Ruled?
    requires WellFormed(req) && req.approval == e.what.approval && req.key == e.key
    ensures var s, t := After(START, calls), After(After(START, calls), more);
            && e.what.approval in s.approvals
            && (req.run.None? || req.run.value == s.approvals[e.what.approval].run ==>
                  DoDecide(t, req, now) == (t, Already(e.what.verdict, e.what.actor)))
  {
    var s := After(START, calls);
    CallsKeep(START, calls);
    assert EntryOk(s, e);
    RulingStays(s, more, e);
    RecordedIs(After(s, more), e);
  }

  /** A decision that was accepted is the answer to every later request under its key: the verdict asked
      for and the actor who asked, whatever the repetition says and whatever was called in between. */
  lemma AcceptedDecisionIsTheAnswer(calls: seq<Call>, req: Request, now: int, more: seq<Call>, again: Request,
      later: int)
    requires DoDecide(After(START, calls), req, now).1.Done?
    requires WellFormed(again) && again.approval == req.approval && again.key == req.key && again.run.None?
    ensures var t := After(After(START, calls + [Decide(req, now)]), more);
            && DoDecide(t, again, later) == (t, Already(if req.decision == "deny" then Deny else Grant, req.actor))
            && req.approval in t.approvals
            && t.approvals[req.approval].decision ==
               Some(Decision(if req.decision == "deny" then Deny else Grant, req.actor, req.key))
  {
    var s, all := After(START, calls), calls + [Decide(req, now)];
    assert all[..|calls|] == calls;
    var d := Decision(VerdictOf(req.decision), req.actor, req.key);
    var u := Rule(s, req.approval, d);
    assert After(START, all) == u;
    var e := Entry(d.key, Ruled(req.approval, d.verdict, d.actor));
    assert u.log[|s.log|] == e;
    CallsKeep(START, all);
    RulingStays(u, more, e);
    ReplayReturnsOriginal(all, e, more, again, later);
  }

  /** No other key changes a decision: the row keeps it, and a request under a new key conflicts. */
  lemma OtherKeysConflict(calls: seq<Call>, e: Entry, more: seq<Call>, req: Request, now: int)
    requires e in After(START, calls).log && e.what.Ruled?
    requires WellFormed(req) && req.approval == e.what.approval && req.key != e.key
    ensures var s, t := After(START, calls), After(After(START, calls), more);
            && e.what.approval in t.approvals
            && t.approvals[e.what.approval].decision == Some(Decision(e.what.verdict, e.what.actor, e.key))
            && (req.run.None? || req.run.value == t.approvals[e.what.approval].run ==>
                DoDecide(t, req, now) == (t, Conflict))
  {
    var s := After(START, calls);
    CallsKeep(START, calls);
    assert EntryOk(s, e);
    RulingStays(s, more, e);
    var t := After(s, more);
    RecordedWhen(t.log, req.key);
    if KeyUsed(t.log, req.key) {
      var i :| 0 <= i < |t.log| && t.log[i] == Entry(req.key, Recorded(t.log, req.key).value);
      assert EntryOk(t, t.log[i]);
    }
  }

  // ---- a key that looks like an expiry ----

  /** Some call can still rule on the approval. */
  ghost predicate CanBeRuled(s: State, id: string) {
    exists call :: Rules(s, call, id)
  }

  ghost predicate Rules(s: State, call: Call, id: string) {
    |s.log| < |Next(s, call).log| && RulesOn(Next(s, call).log[|s.log|], id)
  }

  /** An undecided approval of a running run can still be decided or expire exactly when nothing has
      been recorded under its expiry key. */
  lemma OpenUnlessKeyTaken(s: State, id: string)
    requires id in s.approvals && s.approvals[id].decision.None? && s.approvals[id].run in s.runs
    requires s.runs[s.approvals[id].run].running
    ensures CanBeRuled(s, id) <==> !KeyUsed(s.log, EXPIRY_KEY + id)
  {
    if !KeyUsed(s.log, EXPIRY_KEY + id) {
      var call := Expire(id, s.approvals[id].expiresAt);
      assert Next(s, call).log[|s.log|] == Entry(EXPIRY_KEY + id, Lapsed(id));
      assert Rules(s, call, id);
    } else {
      forall call
        ensures !Rules(s, call, id)
      {
      }
    }
  }

  /** Nothing rules on an approval whose expiry key is used, nor frees the key. */
  lemma KeyStaysTaken(s: State, call: Call, id: string)
    requires KeyUsed(s.log, EXPIRY_KEY + id)
    ensures s.log <= Next(s, call).log && KeyUsed(Next(s, call).log, EXPIRY_KEY + id)
    ensures forall i :: |s.log| <= i < |Next(s, call).log| ==> !RulesOn(Next(s, call).log[i], id)
  {
    var t := Next(s, call);
    var i :| 0 <= i < |s.log| && s.log[i].key == EXPIRY_KEY + id;
    assert t.log[i] == s.log[i];
  }

  lemma {:induction false} TakenForever(s: State, calls: seq<Call>, id: string)
    requires KeyUsed(s.log, EXPIRY_KEY + id)
    ensures var t := After(s, calls);
            && s.log <= t.log && KeyUsed(t.log, EXPIRY_KEY + id)
            && forall i :: |s.log| <= i < |t.log| ==> !RulesOn(t.log[i], id)
  {
    hide Next;
    if |calls| > 0 {
      TakenForever(s, calls[..|calls| - 1], id);
      KeyStaysTaken(After(s, calls[..|calls| - 1]), calls[|calls| - 1], id);
    }
  }

  /** A client that decides one approval under the expiry key of another leaves the other one undecided
      for good: no later call grants, denies or expires it. */
  lemma NamesakeKeyBlocks(s: State, a: string, b: string, req: Request, now: int, more: seq<Call>)
    requires a != b && req.approval == a && req.key == EXPIRY_KEY + b && DoDecide(s, req, now).1.Done?
    ensures var t := DoDecide(s, req, now).0;
            forall i :: |t.log| <= i < |After(t, more).log| ==> !RulesOn(After(t, more).log[i], b)
  {
    var t := DoDecide(s, req, now).0;
    assert t.log[|s.log|].key == EXPIRY_KEY + b;
    TakenForever(t, more, b);
  }

  function Open(node: string): Approval { Approval(0, node, "v1", 1000, None) }

  const C1 := StartRun(0, "v1", "d1")
  const C2 := Register(0, "n", false, "a", 0, 1000)
  const C3 := Register(0, "m", false, "b", 0, 1000)

  function S1(): State { State([], map[], map[0 := RunInfo(true, "v1", "d1")], map["v1" := "d1"]) }

  function S2(): State {
    S1().(log := [Entry("", Requested("a")), Entry("", Unrelated)], approvals := map["a" := Open("n")])
  }

  function S3(): State {
    S2().(log := S2().log + [Entry("", Requested("b")), Entry("", Unrelated)],
          approvals := map["a" := Open("n"), "b" := Open("m")])
  }

  lemma SetUp()
    ensures After(START, [C1, C2, C3]) == S3()
  {
    assert Next(START, C1) == S1();
    assert Next(S1(), C2) == S2();
    assert Next(S2(), C3) == S3();
    hide Next;
    AfterThree(START, C1, C2, C3);
  }

  lemma NothingRecorded(key: string)
    requires key != ""
    ensures Recorded(S3().log, key).None? && !KeyUsed(S3().log, key)
  {
    assert !KeyUsed(S3().log, key);
    RecordedWhen(S3().log, key);
  }

  /** Two approvals of one run, the first decided under the expiry key of the second. */
  lemma NamesakeExample()
    ensures var t := DoDecide(After(START, [C1, C2, C3]),
                              Request("a", None, "grant", "ann", EXPIRY_KEY + "b", "", false), 1);
            t.1.Done? && "b" in t.0.approvals && t.0.approvals["b"].decision.None? && !CanBeRuled(t.0, "b")
  {
    SetUp();
    hide After;
    var key := EXPIRY_KEY + "b";
    assert |key| == 18 && |"ann"| == 3 && |"a"| == 1 && |""| == 0;
    var req := Request("a", None, "grant", "ann", key, "", false);
    assert !HasControlChars("ann") && !HasControlChars("") && !HasControlChars(key);
    NothingRecorded(key);
    KeyOf("a");
    NothingRecorded(EXPIRY_KEY + "a");
    hide Recorded, KeyUsed, HasControlChars;
    assert DoDecide(S3(), req, 1) == (Rule(S3(), "a", Decision(Grant, "ann", key)), Done(Grant, "ann"));
    var t := Rule(S3(), "a", Decision(Grant, "ann", key));
    RulingUsesKey(S3(), "a", Decision(Grant, "ann", key));
    OpenUnlessKeyTaken(t, "b");
  }

  lemma RulingUsesKey(s: State, id: string, d: Decision)
    requires id in s.approvals
    ensures KeyUsed(Rule(s, id, d).log, d.key)
  {
    assert Rule(s, id, d).log[|s.log|].key == d.key;
  }

  lemma AfterThree(s: State, a: Call, b: Call, c: Call)
    ensures After(s, [a, b, c]) == Next(Next(Next(s, a), b), c)
  {
    hide Next;
    assert [a][..0] == [] && After(s, []) == s;
    assert After(s, [a]) == Next(s, a);
    assert [a, b][..1] == [a];
    assert After(s, [a, b]) == Next(Next(s, a), b);
    assert [a, b, c][..2] == [a, b];
  }

  // ---- the tables ----

  class Desk {
    var log: seq<Entry>
    var approvals: map<string, Approval>
    var runs: map<RunId, RunInfo>
    var digests: map<string, string>

    ghost function View(): State
      reads this
    {
      State(log, approvals, runs, digests)
    }

    method FindKey(key: string) returns (found: Option<What>)
      ensures found == Recorded(log, key)
    {
      found := None;
      var i := 0;
      while i < |log|
        invariant 0 <= i <= |log| && found == Recorded(log[..i], key)
      {
        assert log[..i + 1][..i] == log[..i];
        if log[i].key == key { found := Some(log[i].what); }
        i := i + 1;
      }
      assert log[..i] == log;
    }

    method DecideApproval(req: Request, now: int) returns (reply: Reply)
      modifies this
      ensures View() == DoDecide(old(View()), req, now).0
      ensures reply == DoDecide(old(View()), req, now).1
    {
      if !WellFormed(req) { return Invalid; }
      if req.approval !in approvals { return NotFound; }
      var a := approvals[req.approval];
      if req.run.Some? && req.run.value != a.run { return NotFound; }
      var existing := FindKey(req.key);
      if existing.Some? {
        if existing.value.Ruled? && existing.value.approval == req.approval {
          return Already(existing.value.verdict, existing.value.actor);
        }
        return Conflict;
      }
      if a.decision.Some? { return Conflict; }
      var expiry := FindKey(EXPIRY_KEY + req.approval);
      RecordedWhen(log, EXPIRY_KEY + req.approval);
      if expiry.Some? || a.expiresAt <= now { return TooLate; }
      if a.run !in runs { return NotFound; }
      var bound := if a.version in digests then digests[a.version] else "";
      if runs[a.run].version != a.version || runs[a.run].digest != bound { return PolicyDenied; }
      if !runs[a.run].running { return Conflict; }
      var verdict := if req.decision == "deny" then Deny else Grant;
      log := log + [Entry(req.key, Ruled(req.approval, verdict, req.actor))];
      approvals := approvals[req.approval := a.(decision := Some(Decision(verdict, req.actor, req.key)))];
      reply := Done(verdict, req.actor);
    }

    /** A node that already has an undecided approval gets no second one. */
    method RegisterApprovalGate(run: RunId, node: string, terminal: bool, id: string, now: int, expiresIn: int)
      modifies this
      ensures View() == DoRegister(old(View()), run, node, terminal, id, now, expiresIn)
    {
      if run !in runs || !runs[run].running || terminal || id in approvals { return; }
      var rest := approvals.Keys;
      while rest != {}
        invariant rest <= approvals.Keys && forall a :: a in approvals && a !in rest ==>
            !(approvals[a].run == run && approvals[a].node == node && approvals[a].decision.None?)
        modifies {}
        decreases rest
      {
        var a := AnyOf(rest);
        if approvals[a].run == run && approvals[a].node == node && approvals[a].decision.None? { return; }
        rest := rest - {a};
      }
      log := log + [Entry("", Requested(id)), Entry("", Unrelated)];
      approvals := approvals[id := Approval(run, node, runs[run].version,
                                            now + if expiresIn <= 0 then DEFAULT_EXPIRY else expiresIn, None)];
    }

    method ExpireOne(id: string, now: int)
      requires id in approvals && approvals[id].expiresAt <= now
      modifies this
      ensures View() == DoExpire(old(View()), id, now)
    {
      var a := approvals[id];
      if a.decision.Some? || a.run !in runs || !runs[a.run].running { return; }
      var existing := FindKey(EXPIRY_KEY + id);
      RecordedWhen(log, EXPIRY_KEY + id);
      if existing.Some? { return; }
      log := log + [Entry(EXPIRY_KEY + id, Lapsed(id))];
    }

    /** Every approval that can lapse does, with one event each, and nothing else changes; afterwards none
        can lapse at this time. */
    method ExpireApprovals(now: int)
      modifies this
      ensures approvals == old(approvals) && runs == old(runs) && digests == old(digests) && old(log) <= log
      ensures LapsesBut(log[|old(log)|..], old(View()), now, {})
      ensures forall id :: !MayLapse(View(), id, now)
    {
      ghost var start, more: seq<Entry> := View(), [];
      var rest := set id | id in approvals && approvals[id].decision.None? && approvals[id].expiresAt <= now;
      hide LapsesBut, MayLapse;
      NoneLapsed(start, now, rest);
      while rest != {}
        invariant View() == With(start, more) && LapsesBut(more, start, now, rest)
        invariant forall id :: id in rest ==> id in start.approvals && start.approvals[id].expiresAt <= now
        decreases rest
      {
        var id := AnyOf(rest);
        SameChance(start, more, now, rest, id);
        LapseMore(start, more, now, rest, id);
        rest := rest - {id};
        if MayLapse(start, id, now) { more := more + [Entry(EXPIRY_KEY + id, Lapsed(id))]; }
        ExpireOne(id, now);
      }
      NoneCanLapse(start, more, now);
    }
  }

  // ---- a round of expiry ----

  ghost function With(s: State, more: seq<Entry>): State { s.(log := s.log + more) }

  /** The entries let those approvals lapse that can and are not in `rest`, each once. */
  ghost predicate LapsesBut(more: seq<Entry>, start: State, now: int, rest: set<string>) {
    && (forall i :: 0 <= i < |more| ==> more[i].what.Lapsed? && more[i].key == EXPIRY_KEY + more[i].what.approval)
    && (forall i, j :: 0 <= i < j < |more| ==> more[i] != more[j])
    && (forall id {:trigger Lapsed(id)} ::
          Entry(EXPIRY_KEY + id, Lapsed(id)) in more <==> MayLapse(start, id, now) && id !in rest)
  }

  lemma NoneLapsed(start: State, now: int, rest: set<string>)
    requires forall id :: id in start.approvals && start.approvals[id].decision.None? &&
                          start.approvals[id].expiresAt <= now ==>
                          id in rest
    ensures LapsesBut([], start, now, rest)
  {
    hide KeyUsed;
  }

  /** The lapses so far do not touch the chance of an approval that has not had its turn. */
  lemma SameChance(start: State, more: seq<Entry>, now: int, rest: set<string>, id: string)
    requires LapsesBut(more, start, now, rest) && id in rest
    ensures MayLapse(With(start, more), id, now) <==> MayLapse(start, id, now)
    ensures With(start, more).log == start.log + more
    ensures DoExpire(With(start, more), id, now) ==
            With(start, if MayLapse(start, id, now) then more + [Entry(EXPIRY_KEY + id, Lapsed(id))] else more)
  {
    var key, all := EXPIRY_KEY + id, start.log + more;
    if KeyUsed(start.log, key) {
      var i :| 0 <= i < |start.log| && start.log[i].key == key;
      assert all[i].key == key;
    }
    if KeyUsed(all, key) && !KeyUsed(start.log, key) {
      var i :| 0 <= i < |all| && all[i].key == key;
      var e := more[i - |start.log|];
      KeysDiffer(id, e.what.approval);
    }
    assert all + [Entry(key, Lapsed(id))] == start.log + (more + [Entry(key, Lapsed(id))]);
  }

  lemma LapseMore(start: State, more: seq<Entry>, now: int, rest: set<string>, id: string)
    requires LapsesBut(more, start, now, rest) && id in rest
    ensures LapsesBut(if MayLapse(start, id, now) then more + [Entry(EXPIRY_KEY + id, Lapsed(id))]
                      else more, start, now, rest - {id})
  {
    hide MayLapse;
  }

  lemma NoneCanLapse(start: State, more: seq<Entry>, now: int)
    requires LapsesBut(more, start, now, {})
    ensures forall id :: !MayLapse(With(start, more), id, now)
  {
    forall id
      ensures !MayLapse(With(start, more), id, now)
    {
      var all := start.log + more;
      if MayLapse(start, id, now) {
        assert Entry(EXPIRY_KEY + id, Lapsed(id)) in more;
        var i :| 0 <= i < |more| && more[i] == Entry(EXPIRY_KEY + id, Lapsed(id));
        assert all[|start.log| + i].key == EXPIRY_KEY + id;
      } else if KeyUsed(start.log, EXPIRY_KEY + id) {
        var i :| 0 <= i < |start.log| && start.log[i].key == EXPIRY_KEY + id;
        assert all[i].key == EXPIRY_KEY + id;
      }
    }
  }
}
