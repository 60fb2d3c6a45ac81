/** Calls that show what the laws of external waits allow: a retry that comes too late, a failure that
    is routed as a success, and a wait that outlives its run. */
module WaitExamples {
  import opened Conditions
  import opened Events
  import opened Options
  import opened Texts
  import opened Waits

  /** One run with one gate, which waits for a failure. */
  const CONDITION := Obj(map["status" := Str("failure")])
  const STARTED := Call.StartRun(0, "v", "d", {"n"})
  const ASKED := Call.Register(Registration(0, "n", "check", "c", Some(CONDITION), 100, Some("w"), "x"))
  const ENDED := Call.EndRun(0)

  function Pending(): Wait { Wait(0, "n", "v", "d", "check", "c", CONDITION, IsPending, Some(100)) }

  function Begun(): State { State([], map[], map[0 := RunInfo(true, "v", "d")], map["v" := {"n"}], map[]) }

  function Waiting(): State {
    Begun().(log := [Entry("", Asked("w")), Entry("", Unrelated)], waits := map["w" := Pending()],
             terminal := map[(0, "n") := false])
  }

  function Delivered(eventType: string, status: string): Delivery {
    Delivery("w", "e", eventType, "s", "c", status, Obj(map[]), true, {})
  }

  lemma Setup()
    ensures After(START, [STARTED, ASKED]) == Waiting()
  {
    assert Next(START, STARTED) == Begun();
    RegisterIs();
    hide Next;
    assert [STARTED][..0] == [] && [STARTED, ASKED][..1] == [STARTED];
    assert After(START, [STARTED]) == Next(START, STARTED);
  }

  lemma RegisterIs()
    ensures Next(Begun(), ASKED) == Waiting()
  {
    var r := ASKED.registration;
    assert |"n"| == 1 && |"check"| == 5 && |"c"| == 1 && |"w"| == 1;
    assert !PendingPair(Begun(), "check", "c") && !PendingAt(Begun(), 0, "n", "w");
    assert RegisterAs(Begun(), "w", r).0 == AddWait(Begun(), "w", r);
    assert AddWait(Begun(), "w", r) == Waiting();
  }

  lemma GoodTexts()
    ensures forall s :: s in {"e", "s", "c", "check", "other", "failure", "queued"} ==> GoodText(s, {})
  {
    forall s | s in {"e", "s", "c", "check", "other", "failure", "queued"}
      ensures GoodText(s, {})
    {
      assert !HasControlChars("e") && !HasControlChars("s") && !HasControlChars("c") && !HasControlChars("check");
      assert !HasControlChars("other") && !HasControlChars("failure") && !HasControlChars("queued");
    }
  }

  lemma DeliveredIsWellFormed(eventType: string, status: string)
    requires eventType == "check" || eventType == "other"
    requires status == "failure" || status == "queued"
    ensures WellFormed(Delivered(eventType, status))
  {
    GoodTexts();
    hide GoodText;
    assert |"w"| == 1;
  }

  lemma NoKeyUsed(key: string)
    requires key != ""
    ensures !KeyUsed(Waiting().log, key)
  {
  }

  lemma FailureSatisfies()
    ensures Satisfied(CONDITION, "failure", Obj(map[])) && !NonTerminal("failure")
  {
    assert "status" in CONDITION.fields;
    assert Holds("status", Str("failure"), "failure", Obj(map[]));
    assert Lower("failure") == "failure" && |"failure"| == 7;
    assert |"queued"| == 6 && |"in_progress"| == 11;
    assert "failure"[0] == 'f' && "pending"[0] == 'p' && "running"[0] == 'r' && "started"[0] == 's' &&
           "waiting"[0] == 'w';
  }

  /** The delivery that the wait is for has status "failure", and the gate takes the route "success". */
  lemma FailureIsRoutedAsSuccess()
    ensures DoComplete(After(START, [STARTED, ASKED]), Delivered("check", "failure")).1 == Accepted("success")
  {
    Setup();
    DeliveredIsWellFormed("check", "failure");
    assert |"e"| == 1;
    NoKeyUsed("e");
    FailureSatisfies();
    hide WellFormed, KeyUsed, Satisfied, NonTerminal, After;
    assert !Conflicts(Waiting(), Delivered("check", "failure"));
    assert RouteOf(Pending(), Delivered("check", "failure")) == "success";
  }

  /** A delivery with a mistyped event type, even one that only says "queued", uses up the event id: the
      corrected delivery would have been accepted, and is refused. */
  lemma MistypedDeliverySpoilsTheRetry()
    ensures var s, first, retry := After(START, [STARTED, ASKED]), Delivered("other", "queued"),
                                   Delivered("check", "failure");
            DoComplete(s, first).1.Conflict? && DoComplete(s, retry).1.Accepted? &&
            DoComplete(DoComplete(s, first).0, retry).1.Processed?
  {
    var first, retry := Delivered("other", "queued"), Delivered("check", "failure");
    Setup();
    FailureIsRoutedAsSuccess();
    DeliveredIsWellFormed("other", "queued");
    DeliveredIsWellFormed("check", "failure");
    assert |"e"| == 1 && |"other"| == 5 && "other"[0] == 'o' && "check"[0] == 'c';
    NoKeyUsed("e");
    hide WellFormed, Satisfied, NonTerminal, After;
    assert Conflicts(Waiting(), first);
    var t := DoComplete(Waiting(), first).0;
    assert t.log[2].key == "e";
  }

  /** A wait of a run that has ended stays pending: a delivery to it is refused, yet it still expires. */
  lemma WaitOutlivesItsRun()
    ensures var s := Next(After(START, [STARTED, ASKED]), ENDED);
            && StillPending(s, "w") && 0 in s.runs && !s.runs[0].running
            && DoComplete(s, Delivered("check", "failure")).1.Conflict?
            && DoExpire(s, "w", 100).waits["w"].status.WasExpired?
  {
    Setup();
    DeliveredIsWellFormed("check", "failure");
    assert |"e"| == 1;
    NoKeyUsed("e");
    hide WellFormed, KeyUsed, After;
    var s := Next(Waiting(), ENDED);
    assert 0 in s.runs && !s.runs[0].running && s.log == Waiting().log && s.waits == Waiting().waits;
    ExpiryIgnoresTheRun(s, Delivered("check", "failure"), 100);
  }
}
