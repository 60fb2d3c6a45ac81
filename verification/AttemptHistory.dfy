/** What the projected row of an attempt says about the events: who made it, and which later event it shows. */
module AttemptHistory {
  import opened Events
  import opened Options
  import opened Projection
  import opened Replay
  import opened RowHistory

  // ---- the events about an attempt ----

  predicate Here(ev: Event, k: Key)
    requires k.AttemptK?
  {
    match ev.body
    case NodeStarted(n, _, _, _, _, _, _) => ev.run == k.run && n == k.node
    case NodeEnded(n, _, _, _, _, _, _) => ev.run == k.run && n == k.node
    case NodeCancelled(n, _) => ev.run == k.run && n == k.node
    case NodeAttemptFailed(n, _, _) => ev.run == k.run && n == k.node
    case _ => false
  }

  /** The attempt is started under a key; attempts count from one. */
  predicate Starts(ev: Event, k: Key)
    requires k.AttemptK?
  {
    Here(ev, k) && ev.body.NodeStarted? && ev.body.opKey != "" &&
    k.no == if ev.body.attemptNo > 0 then ev.body.attemptNo else 1
  }

  /** The event makes the attempt's row if there is none: a start, or an end that names the attempt and its key. */
  predicate Makes(ev: Event, k: Key)
    requires k.AttemptK?
  {
    Starts(ev, k) ||
    (Here(ev, k) && ev.body.NodeEnded? && ev.body.opKey != "" && ev.body.attemptNo == k.no && k.no > 0)
  }

  predicate Fails(ev: Event, k: Key)
    requires k.AttemptK?
  {
    Here(ev, k) && ev.body.NodeAttemptFailed? && ev.body.attemptNo == k.no
  }

  predicate Cancels(ev: Event, k: Key)
    requires k.AttemptK?
  {
    Here(ev, k) && ev.body.NodeCancelled? && ev.body.attemptNo == k.no && k.no > 0
  }

  // ---- one event ----

  /** The row is the latest of its node's. */
  ghost predicate Latest(t: Tables, k: Key)
    requires k.AttemptK?
  {
    k in t && forall m: Key :: m.AttemptK? && m.run == k.run && m.node == k.node && m in t && t[m].AttemptRow? ==>
      m.no <= k.no
  }

  /** An end is about the attempt it names, or about the latest. */
  ghost predicate Ends(t: Tables, ev: Event, k: Key)
    requires k.AttemptK?
  {
    Here(ev, k) && ev.body.NodeEnded? && if ev.body.attemptNo > 0 then ev.body.attemptNo == k.no else Latest(t, k)
  }

  lemma LatestIs(t: Tables, k: Key)
    requires k.AttemptK? && k in t && t[k].AttemptRow?
    ensures LatestAttempt(t, k.run, k.node).Some?
    ensures LatestAttempt(t, k.run, k.node) == Some(k.no) <==> Latest(t, k)
  {
    assert k.no in AttemptNos(t, k.run, k.node);
    forall m: Key | m.AttemptK? && m.run == k.run && m.node == k.node
      ensures m in t && t[m].AttemptRow? <==> m.no in AttemptNos(t, k.run, k.node)
    {
    }
    var n := LatestAttempt(t, k.run, k.node).value;
    assert AttemptK(k.run, k.node, n) in t;
    hide LatestAttempt, AttemptNos;
  }

  ghost predicate NoAttempts(ws: seq<Write>) { forall i :: 0 <= i < |ws| ==> !ws[i].key.AttemptK? }

  lemma OthersWriteNoAttempts(t: Tables, ev: Event)
    requires Writes(t, ev).Some?
    requires !ev.body.NodeStarted? && !ev.body.NodeEnded? && !ev.body.NodeCancelled? && !ev.body.NodeAttemptFailed?
    ensures NoAttempts(Writes(t, ev).value)
  {
    if MovesNode(ev.body) {
      hide HasNode, NodeOf, NodeAfter;
    } else {
      OthersWrite(t, ev);
      hide Writes;
    }
  }

  // ---- the row after an event ----

  function Named(o: Outcome): AttemptStatus {
    if o == Finished then ASucceeded else if o == Failure then AFailed else AUncertain
  }

  /** The row of an attempt that is started for the first time, and of one that is started again. */
  function Begun(ev: Event): Row
    requires ev.body.NodeStarted?
  {
    AttemptRow(ev.id, ev.body.opKey, ev.body.executor, ev.body.contract,
               if ev.body.leaseToken == "" then None else Some(ev.body.leaseToken),
               if ev.body.leaseExpires == 0 then None
               else Some(ev.body.leaseExpires), ARunning, None, Some(ev.at), None)
  }

  predicate Resumes(row: Row, was: Row, ev: Event)
    requires was.AttemptRow? && ev.body.NodeStarted?
  {
    && row.AttemptRow? && row.attempt.ARunning?
    && row.begun == (if was.begun.Some? then was.begun else Some(ev.at))
    && row.leaseToken == (if ev.body.leaseToken == "" then was.leaseToken else Some(ev.body.leaseToken))
    && row.leaseExpires == (if ev.body.leaseExpires == 0 then was.leaseExpires else Some(ev.body.leaseExpires))
    && row.id == was.id && row.opKey == was.opKey && row.executor == was.executor && row.contract == was.contract
    && row.result == was.result && row.ended == was.ended
  }

  /** The row shows how the attempt ended; a new result replaces the old one. */
  predicate ShowsEnd(row: Row, was: Row, ev: Event)
    requires was.AttemptRow? && ev.body.NodeEnded?
  {
    && row.AttemptRow? && row.attempt == Named(ev.body.outcome)
    && row.ended == (if ev.body.outcome.Unsure? then was.ended else Some(ev.at))
    && row.result == (if ev.body.result == "" then was.result else Some(ev.body.result))
    && row == was.(attempt := row.attempt, ended := row.ended, result := row.result)
  }

  lemma StartStep(t: Tables, ev: Event, k: Key)
    requires k.AttemptK? && Starts(ev, k) && Project(t, ev).Some? && (k in t ==> t[k].AttemptRow?)
    ensures var u := Project(t, ev).value;
            k in u && if k in t then Resumes(u[k], t[k], ev) else u[k] == Begun(ev)
  {
    hide NodeOf, NodeAfter, RunRowOf;
    var ws := Writes(t, ev).value;
    assert ws[|ws| - 1].key == k;
    assert ws == ws[..|ws| - 1] + [ws[|ws| - 1]] + [];
    ApplyOnce(t, ws[..|ws| - 1], ws[|ws| - 1], []);
  }

  lemma EndStep(t: Tables, ev: Event, k: Key)
    requires k.AttemptK? && Here(ev, k) && ev.body.NodeEnded? && Project(t, ev).Some? && (k in t ==> t[k].AttemptRow?)
    ensures var u := Project(t, ev).value;
            if k in t then
              && k in u
              && if Ends(t, ev, k) && !t[k].attempt.ACancelled? then ShowsEnd(u[k], t[k], ev) else u[k] == t[k]
            else if Makes(ev, k) then
              && k in u && u[k].AttemptRow? && u[k].attempt == Named(ev.body.outcome) && u[k].begun.None?
              && u[k].id == ev.id && u[k].opKey == ev.body.opKey && u[k].executor == ev.body.executor
              && u[k].contract == ev.body.contract && u[k].leaseToken.None? && u[k].leaseExpires.None?
              && u[k].result == (if ev.body.result == "" then None else Some(ev.body.result))
              && u[k].ended == (if ev.body.outcome.Unsure? then None else Some(ev.at))
            else k !in u
  {
    if k in t { LatestIs(t, k); }
    hide NodeOf, NodeAfter, LatestAttempt, Latest;
    var ws := Writes(t, ev).value;
    if |ws| == 2 && ws[1].key == k {
      assert ws == [ws[0]] + [ws[1]] + [];
      ApplyOnce(t, [ws[0]], ws[1], []);
    } else {
      RowHistory.ApplyElsewhere(t, ws, k);
    }
  }

  lemma CancelStep(t: Tables, ev: Event, k: Key)
    requires k.AttemptK? && Here(ev, k) && ev.body.NodeCancelled? && Project(t, ev).Some?
    requires k in t ==> t[k].AttemptRow?
    ensures var u := Project(t, ev).value;
            && (k in u <==> k in t)
            && (k in t ==>
                  u[k] == if Cancels(ev, k) && (t[k].attempt.ARunning? || t[k].attempt.AUncertain?)
                          then t[k].(attempt := ACancelled, ended := Some(ev.at)) else t[k])
  {
    hide NodeOf, NodeAfter;
    var ws := Writes(t, ev).value;
    if |ws| == 2 && ws[1].key == k {
      assert ws == [ws[0]] + [ws[1]] + [];
      ApplyOnce(t, [ws[0]], ws[1], []);
    } else {
      RowHistory.ApplyElsewhere(t, ws, k);
    }
  }

  lemma FailStep(t: Tables, ev: Event, k: Key)
    requires k.AttemptK? && Here(ev, k) && ev.body.NodeAttemptFailed? && Project(t, ev).Some?
    requires k in t ==> t[k].AttemptRow?
    ensures var u := Project(t, ev).value;
            && (k in u <==> k in t)
            && (k in t ==>
                  if Fails(ev, k) then
                    && u[k].AttemptRow? &&
                       u[k] == t[k].(attempt := AFailed, ended := Some(ev.at), result := u[k].result)
                    && u[k].result == if ev.body.result == "" then t[k].result else Some(ev.body.result)
                  else u[k] == t[k])
  {
    hide NodeOf, NodeAfter, HasNode;
    var ws := Writes(t, ev).value;
    if |ws| == 2 && ws[1].key == k {
      assert ws == [ws[0]] + [ws[1]] + [];
      ApplyOnce(t, [ws[0]], ws[1], []);
    } else {
      RowHistory.ApplyElsewhere(t, ws, k);
    }
  }

  /** Other events leave the row alone. */
  lemma OtherStep(t: Tables, ev: Event, k: Key)
    requires k.AttemptK? && !Here(ev, k) && Project(t, ev).Some?
    ensures var u := Project(t, ev).value; (k in u <==> k in t) && (k in t ==> u[k] == t[k])
  {
    hide Writes, OnNodeStarted, OnNodeEnded, OnNodeCancelled, OnAttemptFailed;
    var ws := Writes(t, ev).value;
    if ev.body.NodeStarted? || ev.body.NodeEnded? || ev.body.NodeCancelled? || ev.body.NodeAttemptFailed? {
      ElsewhereStep(t, ev, k);
    } else {
      OthersWriteNoAttempts(t, ev);
    }
    RowHistory.ApplyElsewhere(t, ws, k);
  }

  lemma ElsewhereStep(t: Tables, ev: Event, k: Key)
    requires k.AttemptK? && !Here(ev, k) && Writes(t, ev).Some?
    requires ev.body.NodeStarted? || ev.body.NodeEnded? || ev.body.NodeCancelled? || ev.body.NodeAttemptFailed?
    ensures NoWrite(Writes(t, ev).value, k)
  {
    hide NodeOf, NodeAfter, HasNode, RunRowOf, LatestAttempt, EndedAttempt, AttemptAt;
  }

  /** A start without a key makes no row and changes none. */
  lemma KeylessStep(t: Tables, ev: Event, k: Key)
    requires k.AttemptK? && Here(ev, k) && ev.body.NodeStarted? && !Starts(ev, k) && Project(t, ev).Some?
    ensures var u := Project(t, ev).value; (k in u <==> k in t) && (k in t ==> u[k] == t[k])
  {
    hide NodeOf, NodeAfter, RunRowOf;
    RowHistory.ApplyElsewhere(t, Writes(t, ev).value, k);
  }

  // ---- the whole log ----

  ghost predicate MadeBefore(evs: seq<Event>, i: nat, k: Key)
    requires i <= |evs| && k.AttemptK?
  {
    exists j :: 0 <= j < i && Makes(evs[j], k)
  }

  /** An attempt has a row exactly if an event of the log makes it. */
  lemma {:induction false} RowExactlyIfMade(evs: seq<Event>, k: Key)
    requires k.AttemptK? && Fold(evs).Some?
    ensures var t := Fold(evs).value; (k in t <==> MadeBefore(evs, |evs|, k)) && (k in t ==> t[k].AttemptRow?)
  {
    hide Project;
    if |evs| > 0 {
      var n := |evs| - 1;
      var init, ev, t := evs[..n], evs[n], Fold(evs[..n]).value;
      RowExactlyIfMade(init, k);
      assert forall j :: 0 <= j < n ==> init[j] == evs[j];
      assert MadeBefore(evs, |evs|, k) <==> MadeBefore(init, n, k) || Makes(ev, k);
      EventMakes(t, ev, k);
    }
  }

  lemma EventMakes(t: Tables, ev: Event, k: Key)
    requires k.AttemptK? && Project(t, ev).Some? && (k in t ==> t[k].AttemptRow?)
    ensures var u := Project(t, ev).value; (k in u <==> k in t || Makes(ev, k)) && (k in u ==> u[k].AttemptRow?)
  {
    hide Project, Latest;
    if !Here(ev, k) {
      OtherStep(t, ev, k);
    } else {
      match ev.body
      case NodeStarted(_, _, _, _, _, _, _) => if Starts(ev, k) { StartStep(t, ev, k); } else { KeylessStep(t, ev, k); }
      case NodeEnded(_, _, _, _, _, _, _) => EndStep(t, ev, k);
      case NodeCancelled(_, _) => CancelStep(t, ev, k);
      case NodeAttemptFailed(_, _, _) => FailStep(t, ev, k);
    }
  }

  /** The end at i is about the attempt: it names it, or the attempt is the newest made before. */
  ghost predicate EndsAt(evs: seq<Event>, i: nat, k: Key)
    requires i < |evs| && k.AttemptK?
  {
    && Here(evs[i], k) && evs[i].body.NodeEnded?
    && if evs[i].body.attemptNo > 0 then evs[i].body.attemptNo == k.no
       else MadeBefore(evs, i, k) &&
            forall m: Key :: m.AttemptK? && m.run == k.run && m.node == k.node && MadeBefore(evs, i, m) ==> m.no <= k.no
  }

  lemma EndsIs(evs: seq<Event>, k: Key)
    requires |evs| > 0 && k.AttemptK? && Fold(evs[..|evs| - 1]).Some?
    ensures var n := |evs| - 1;
            var t := Fold(evs[..n]).value;
            k in t ==> (Ends(t, evs[n], k) <==> EndsAt(evs, n, k))
  {
    hide Fold, Makes, Here;
    var n := |evs| - 1;
    var t := Fold(evs[..n]).value;
    forall m: Key | m.AttemptK?
      ensures m in t && t[m].AttemptRow? <==> MadeBefore(evs, n, m)
    {
      RowExactlyIfMade(evs[..n], m);
      assert forall j :: 0 <= j < n ==> evs[..n][j] == evs[j];
    }
    RowExactlyIfMade(evs[..n], k);
  }

  /** A start, a failed attempt or an end of the attempt. */
  ghost predicate Marks(evs: seq<Event>, i: nat, k: Key)
    requires i < |evs| && k.AttemptK?
  {
    Starts(evs[i], k) || Fails(evs[i], k) || EndsAt(evs, i, k)
  }

  ghost predicate LastMark(evs: seq<Event>, k: Key, c: nat, m: nat)
    requires c <= |evs| && k.AttemptK?
  {
    m < c && Marks(evs, m, k) && forall j :: m < j < c ==> !Marks(evs, j, k)
  }

  /** A cancellation at c finds the attempt running, or with an unknown outcome. */
  ghost predicate Open(evs: seq<Event>, k: Key, c: nat)
    requires c <= |evs| && k.AttemptK?
  {
    exists m: nat :: LastMark(evs, k, c, m) &&
                     (evs[m].body.NodeStarted? || (evs[m].body.NodeEnded? && evs[m].body.outcome.Unsure?))
  }

  /** The attempt, made at i, is cancelled at c for good: it is neither started again nor reported failed later. */
  ghost predicate CutOff(evs: seq<Event>, k: Key, i: nat, c: nat)
    requires k.AttemptK?
  {
    && i < c < |evs| && Cancels(evs[c], k) && Open(evs, k, c)
    && forall j {:trigger evs[j]} :: c < j < |evs| ==> !Starts(evs[j], k) && !Fails(evs[j], k)
  }

  ghost predicate FirstMake(evs: seq<Event>, k: Key, i: nat)
    requires k.AttemptK?
  {
    i < |evs| && Makes(evs[i], k) && forall j :: 0 <= j < i ==> !Makes(evs[j], k)
  }

  /** What the last mark says. */
  ghost predicate Shows(row: Row, ev: Event)
    requires row.AttemptRow?
  {
    match ev.body
    case NodeStarted(_, _, _, _, _, _, _) => row.attempt.ARunning?
    case NodeAttemptFailed(_, _, r) =>
      row.attempt.AFailed? && row.ended == Some(ev.at) && (r != "" ==> row.result == Some(r))
    case NodeEnded(_, _, o, _, _, _, r) =>
      row.attempt == Named(o) && (!o.Unsure? ==> row.ended == Some(ev.at)) && (r != "" ==> row.result == Some(r))
    case _ => false
  }

  lemma MarksPrefix(evs: seq<Event>, k: Key, c: nat)
    requires |evs| > 0 && k.AttemptK? && c < |evs|
    ensures forall i: nat :: i < c ==> (Marks(evs, i, k) <==> Marks(evs[..c], i, k))
  {
    var init := evs[..c];
    forall i: nat, m: Key | i < c && m.AttemptK?
      ensures MadeBefore(evs, i, m) <==> MadeBefore(init, i, m)
    {
      assert forall j :: 0 <= j < i ==> init[j] == evs[j];
    }
    hide MadeBefore, Starts, Fails, Here;
    forall i: nat | i < c
      ensures Marks(evs, i, k) <==> Marks(init, i, k)
    {
      assert init[i] == evs[i];
    }
  }

  lemma {:induction false} LastMarkExists(evs: seq<Event>, k: Key, c: nat, i: nat) returns (m: nat)
    requires k.AttemptK? && i < c <= |evs| && Marks(evs, i, k)
    ensures LastMark(evs, k, c, m) && i <= m
    decreases c
  {
    if Marks(evs, c - 1, k) { m := c - 1; } else { m := LastMarkExists(evs, k, c - 1, i); }
  }

  /** The row shows the last mark of the attempt, or that it was cut off, and when. */
  ghost predicate Tells(evs: seq<Event>, k: Key, i: nat, row: Row)
    requires k.AttemptK?
  {
    && row.AttemptRow?
    && (row.attempt.ACancelled? <==> exists c: nat :: CutOff(evs, k, i, c))
    && (row.attempt.ACancelled? ==> exists c: nat :: CutOff(evs, k, i, c) && row.ended == Some(evs[c].at))
    && (!row.attempt.ACancelled? ==> forall m: nat :: LastMark(evs, k, |evs|, m) ==> Shows(row, evs[m]))
  }

  ghost predicate NeverCutOff(evs: seq<Event>, k: Key, i: nat)
    requires k.AttemptK?
  {
    forall c: nat :: !CutOff(evs, k, i, c)
  }

  /** How the marks of a log carry over to the log with one more event. */
  lemma LongerMarks(evs: seq<Event>, k: Key)
    requires |evs| > 0 && k.AttemptK?
    ensures var n, init := |evs| - 1, evs[..|evs| - 1];
            && (forall c: nat, m: nat :: c <= n ==> (LastMark(evs, k, c, m) <==> LastMark(init, k, c, m)))
            && (Marks(evs, n, k) ==> LastMark(evs, k, n + 1, n))
            && (!Marks(evs, n, k) ==> forall m: nat :: LastMark(evs, k, n + 1, m) <==> LastMark(init, k, n, m))
  {
    MarksPrefix(evs, k, |evs| - 1);
    hide Marks;
    var n := |evs| - 1;
    if !Marks(evs, n, k) {
      forall m: nat
        ensures LastMark(evs, k, n + 1, m) <==> LastMark(evs, k, n, m)
      {
      }
    }
  }

  lemma LongerOpens(evs: seq<Event>, k: Key)
    requires |evs| > 0 && k.AttemptK?
    ensures forall c: nat :: c < |evs| ==> (Open(evs, k, c) <==> Open(evs[..|evs| - 1], k, c))
  {
    LongerMarks(evs, k);
    var init := evs[..|evs| - 1];
    forall c: nat, m: nat | c < |evs| && LastMark(init, k, c, m)
      ensures m < |init|
    {
    }
    hide LastMark;
    assert forall j :: 0 <= j < |init| ==> init[j] == evs[j];
    forall c: nat | c < |evs|
      ensures Open(evs, k, c) <==> Open(init, k, c)
    {
    }
  }

  lemma LongerCuts(evs: seq<Event>, k: Key, i: nat)
    requires |evs| > 0 && k.AttemptK?
    ensures var n, init := |evs| - 1, evs[..|evs| - 1];
            && (forall c: nat :: c < n ==>
                  (CutOff(evs, k, i, c) <==> CutOff(init, k, i, c) && !Starts(evs[n], k) && !Fails(evs[n], k)))
            && (CutOff(evs, k, i, n) <==> i < n && Cancels(evs[n], k) && Open(evs, k, n))
  {
    LongerOpens(evs, k);
    hide Open, Starts, Fails, Cancels;
    var init := evs[..|evs| - 1];
    assert forall j :: 0 <= j < |init| ==> init[j] == evs[j];
    forall c: nat | c < |evs| - 1
      ensures CutOff(evs, k, i, c) <==>
              CutOff(init, k, i, c) && !Starts(evs[|evs| - 1], k) && !Fails(evs[|evs| - 1], k)
    {
    }
  }

  /** The last event marks the attempt. */
  lemma MarkTells(evs: seq<Event>, k: Key, i: nat, row: Row)
    requires |evs| > 0 && k.AttemptK? && Marks(evs, |evs| - 1, k) && row.AttemptRow? && Shows(row, evs[|evs| - 1])
    requires Starts(evs[|evs| - 1], k) || Fails(evs[|evs| - 1], k) ||
             NeverCutOff(evs[..|evs| - 1], k, i)
    ensures Tells(evs, k, i, row)
  {
    LongerMarks(evs, k);
    LongerCuts(evs, k, i);
    hide Open, LastMark, Marks, Here;
    var n := |evs| - 1;
    assert !Cancels(evs[n], k) by { MarkIsNoCancel(evs, k); }
    forall c: nat
      ensures !CutOff(evs, k, i, c)
    {
      if c < n { assert !CutOff(evs, k, i, c); }
    }
    assert !row.attempt.ACancelled?;
    forall m: nat | LastMark(evs, k, n + 1, m)
      ensures Shows(row, evs[m])
    {
      OneLastMark(evs, k, n + 1, m, n);
    }
  }

  lemma MarkIsNoCancel(evs: seq<Event>, k: Key)
    requires |evs| > 0 && k.AttemptK? && Marks(evs, |evs| - 1, k)
    ensures !Cancels(evs[|evs| - 1], k)
  {
  }

  /** The last event says nothing about the attempt, or is an end that comes after its cancellation. */
  lemma QuietTells(evs: seq<Event>, k: Key, i: nat, row: Row)
    requires |evs| > 0 && k.AttemptK? && Tells(evs[..|evs| - 1], k, i, row)
    requires !Starts(evs[|evs| - 1], k) && !Fails(evs[|evs| - 1], k)
    requires !Cancels(evs[|evs| - 1], k) || !Open(evs, k, |evs| - 1) || row.attempt.ACancelled?
    requires !Marks(evs, |evs| - 1, k) || row.attempt.ACancelled?
    ensures Tells(evs, k, i, row)
  {
    LongerMarks(evs, k);
    LongerCuts(evs, k, i);
    hide Open, LastMark, Marks, Starts, Fails, Cancels, Shows;
    var n := |evs| - 1;
    var init := evs[..n];
    if row.attempt.ACancelled? {
      var c: nat :| CutOff(init, k, i, c) && row.ended == Some(init[c].at);
      assert CutOff(evs, k, i, c) && evs[c] == init[c];
    } else {
      forall m: nat | LastMark(evs, k, n + 1, m)
        ensures Shows(row, evs[m])
      {
        assert LastMark(init, k, n, m);
        assert m < n by { MarkIsBefore(init, k, n, m); }
        assert init[m] == evs[m];
      }
    }
  }

  lemma MarkIsBefore(evs: seq<Event>, k: Key, c: nat, m: nat)
    requires c <= |evs| && k.AttemptK? && LastMark(evs, k, c, m)
    ensures m < c && Marks(evs, m, k)
  {
  }

  /** The last event cancels the attempt. */
  lemma CancelTells(evs: seq<Event>, k: Key, i: nat, row: Row)
    requires |evs| > 0 && k.AttemptK? && i < |evs| - 1 && Cancels(evs[|evs| - 1], k) && Open(evs, k, |evs| - 1)
    requires row.AttemptRow? && row.attempt.ACancelled? && row.ended == Some(evs[|evs| - 1].at)
    ensures Tells(evs, k, i, row)
  {
    hide Open, LastMark, Marks, Starts, Fails, Cancels, Shows;
    assert CutOff(evs, k, i, |evs| - 1);
  }

  /** An attempt that is running or whose outcome is unknown is open to a cancellation, and no other that is not
      cancelled. */
  lemma OpenIs(evs: seq<Event>, k: Key, i: nat, row: Row)
    requires k.AttemptK? && Tells(evs, k, i, row) && !row.attempt.ACancelled? && i < |evs| && Marks(evs, i, k)
    ensures Open(evs, k, |evs|) <==> row.attempt.ARunning? || row.attempt.AUncertain?
  {
    hide Marks;
    var m := LastMarkExists(evs, k, |evs|, i);
    assert Shows(row, evs[m]);
    forall l: nat | LastMark(evs, k, |evs|, l)
      ensures l == m
    {
      OneLastMark(evs, k, |evs|, l, m);
    }
  }

  lemma OneLastMark(evs: seq<Event>, k: Key, c: nat, l: nat, m: nat)
    requires c <= |evs| && k.AttemptK? && LastMark(evs, k, c, l) && LastMark(evs, k, c, m)
    ensures l == m
  {
  }

  // ---- what the row tells ----

  /** A start: it marks the attempt, or has no key. */
  lemma StartTells(evs: seq<Event>, k: Key, i: nat, was: Row, row: Row)
    requires |evs| > 0 && k.AttemptK? && Tells(evs[..|evs| - 1], k, i, was) && evs[|evs| - 1].body.NodeStarted?
    requires was.AttemptRow? && if Starts(evs[|evs| - 1], k) then Resumes(row, was, evs[|evs| - 1]) else row == was
    ensures Tells(evs, k, i, row)
  {
    hide Tells, Open, Marks, Here;
    if Starts(evs[|evs| - 1], k) {
      StartMarks(evs, k);
      MarkTells(evs, k, i, row);
    } else {
      KeylessIsQuiet(evs, k);
      QuietTells(evs, k, i, row);
    }
  }

  lemma EndTells(evs: seq<Event>, k: Key, i: nat, was: Row, row: Row)
    requires |evs| > 0 && k.AttemptK? && Tells(evs[..|evs| - 1], k, i, was) && evs[|evs| - 1].body.NodeEnded?
    requires was.AttemptRow?
    requires if EndsAt(evs, |evs| - 1, k) && !was.attempt.ACancelled? then ShowsEnd(row, was, evs[|evs| - 1])
             else row == was
    ensures Tells(evs, k, i, row)
  {
    EndMarks(evs, k);
    hide Tells, Open, Marks, EndsAt, Here;
    if EndsAt(evs, |evs| - 1, k) && !was.attempt.ACancelled? {
      NotCutOff(evs[..|evs| - 1], k, i, was);
      MarkTells(evs, k, i, row);
    } else {
      QuietTells(evs, k, i, row);
    }
  }

  lemma CancelledTells(evs: seq<Event>, k: Key, i: nat, was: Row, row: Row)
    requires |evs| > 0 && k.AttemptK? && Tells(evs[..|evs| - 1], k, i, was) && evs[|evs| - 1].body.NodeCancelled?
    requires i < |evs| - 1 && Marks(evs[..|evs| - 1], i, k) && was.AttemptRow?
    requires row == if Cancels(evs[|evs| - 1], k) && (was.attempt.ARunning? || was.attempt.AUncertain?)
                    then was.(attempt := ACancelled, ended := Some(evs[|evs| - 1].at)) else was
    ensures Tells(evs, k, i, row)
  {
    LongerOpens(evs, k);
    CancelIsQuiet(evs, k);
    if !was.attempt.ACancelled? { OpenIs(evs[..|evs| - 1], k, i, was); }
    hide Tells, Open, Marks, Here, Cancels;
    if Cancels(evs[|evs| - 1], k) && (was.attempt.ARunning? || was.attempt.AUncertain?) {
      CancelTells(evs, k, i, row);
    } else {
      QuietTells(evs, k, i, row);
    }
  }

  lemma FailedTells(evs: seq<Event>, k: Key, i: nat, was: Row, row: Row)
    requires |evs| > 0 && k.AttemptK? && Tells(evs[..|evs| - 1], k, i, was) && evs[|evs| - 1].body.NodeAttemptFailed?
    requires was.AttemptRow? && row.AttemptRow?
    requires var ev := evs[|evs| - 1];
             if Fails(ev, k) then
               && row == was.(attempt := AFailed, ended := Some(ev.at), result := row.result)
               && row.result == if ev.body.result == "" then was.result else Some(ev.body.result)
             else row == was
    ensures Tells(evs, k, i, row)
  {
    hide Tells, Open, Marks, Here;
    if Fails(evs[|evs| - 1], k) {
      FailMarks(evs, k);
      MarkTells(evs, k, i, row);
    } else {
      OtherFailureIsQuiet(evs, k);
      QuietTells(evs, k, i, row);
    }
  }

  /** The row after one more event about an attempt that has one. */
  lemma TellsOneMore(evs: seq<Event>, k: Key, i: nat, t: Tables)
    requires k.AttemptK? && i < |evs| - 1 && Makes(evs[i], k) && Project(t, evs[|evs| - 1]).Some?
    requires Fold(evs[..|evs| - 1]) == Some(t) && k in t && Tells(evs[..|evs| - 1], k, i, t[k])
    ensures var u := Project(t, evs[|evs| - 1]).value; k in u && Tells(evs, k, i, u[k])
  {
    var n, init := |evs| - 1, evs[..|evs| - 1];
    var ev, u := evs[n], Project(t, evs[n]).value;
    EndsIs(evs, k);
    assert init[i] == evs[i];
    MadeMarks(init, k, i);
    TellsIsAttempt(init, k, i, t[k]);
    hide Fold, Project, Tells, Open, Cancels, Marks, Latest, Makes, Starts, Fails, EndsAt, Ends, Resumes, ShowsEnd;
    if !Here(ev, k) {
      OtherStep(t, ev, k);
      ElsewhereIsQuiet(evs, k);
      QuietTells(evs, k, i, u[k]);
    } else {
      match ev.body
      case NodeStarted(_, _, _, _, _, _, _) =>
        if Starts(ev, k) { StartStep(t, ev, k); } else { KeylessStep(t, ev, k); }
        StartTells(evs, k, i, t[k], u[k]);
      case NodeEnded(_, _, _, _, _, _, _) =>
        EndStep(t, ev, k);
        EndTells(evs, k, i, t[k], u[k]);
      case NodeCancelled(_, _) =>
        CancelStep(t, ev, k);
        CancelledTells(evs, k, i, t[k], u[k]);
      case NodeAttemptFailed(_, _, _) =>
        FailStep(t, ev, k);
        FailedTells(evs, k, i, t[k], u[k]);
    }
  }

  lemma TellsIsAttempt(evs: seq<Event>, k: Key, i: nat, row: Row)
    requires k.AttemptK? && Tells(evs, k, i, row)
    ensures row.AttemptRow?
  {
  }

  lemma NotCutOff(evs: seq<Event>, k: Key, i: nat, row: Row)
    requires k.AttemptK? && Tells(evs, k, i, row) && !row.attempt.ACancelled?
    ensures NeverCutOff(evs, k, i)
  {
  }

  lemma MadeMarks(evs: seq<Event>, k: Key, i: nat)
    requires k.AttemptK? && i < |evs| && Makes(evs[i], k)
    ensures Marks(evs, i, k)
  {
  }

  lemma ElsewhereIsQuiet(evs: seq<Event>, k: Key)
    requires |evs| > 0 && k.AttemptK? && !Here(evs[|evs| - 1], k)
    ensures !Marks(evs, |evs| - 1, k) && !Cancels(evs[|evs| - 1], k)
    ensures !Starts(evs[|evs| - 1], k) && !Fails(evs[|evs| - 1], k)
  {
  }

  lemma KeylessIsQuiet(evs: seq<Event>, k: Key)
    requires |evs| > 0 && k.AttemptK? && evs[|evs| - 1].body.NodeStarted? && !Starts(evs[|evs| - 1], k)
    ensures !Marks(evs, |evs| - 1, k) && !Cancels(evs[|evs| - 1], k) && !Fails(evs[|evs| - 1], k)
  {
  }

  lemma StartMarks(evs: seq<Event>, k: Key)
    requires |evs| > 0 && k.AttemptK? && Starts(evs[|evs| - 1], k)
    ensures Marks(evs, |evs| - 1, k)
  {
  }

  lemma FailMarks(evs: seq<Event>, k: Key)
    requires |evs| > 0 && k.AttemptK? && Fails(evs[|evs| - 1], k)
    ensures Marks(evs, |evs| - 1, k)
  {
  }

  lemma EndMarks(evs: seq<Event>, k: Key)
    requires |evs| > 0 && k.AttemptK? && evs[|evs| - 1].body.NodeEnded?
    ensures Marks(evs, |evs| - 1, k) <==> EndsAt(evs, |evs| - 1, k)
    ensures !Cancels(evs[|evs| - 1], k) && !Starts(evs[|evs| - 1], k) && !Fails(evs[|evs| - 1], k)
  {
  }

  lemma CancelIsQuiet(evs: seq<Event>, k: Key)
    requires |evs| > 0 && k.AttemptK? && evs[|evs| - 1].body.NodeCancelled?
    ensures !Marks(evs, |evs| - 1, k) && !Starts(evs[|evs| - 1], k) && !Fails(evs[|evs| - 1], k)
  {
  }

  lemma OtherFailureIsQuiet(evs: seq<Event>, k: Key)
    requires |evs| > 0 && k.AttemptK? && evs[|evs| - 1].body.NodeAttemptFailed? && !Fails(evs[|evs| - 1], k)
    ensures !Marks(evs, |evs| - 1, k) && !Starts(evs[|evs| - 1], k) && !Cancels(evs[|evs| - 1], k)
  {
  }

  /** The row that the first event makes. */
  lemma FirstTells(evs: seq<Event>, k: Key)
    requires |evs| > 0 && k.AttemptK? && Fold(evs).Some? && FirstMake(evs, k, |evs| - 1)
    ensures k in Fold(evs).value && Tells(evs, k, |evs| - 1, Fold(evs).value[k])
  {
    var n, init := |evs| - 1, evs[..|evs| - 1];
    var ev, t := evs[n], Fold(init).value;
    RowExactlyIfMade(init, k);
    assert forall j :: 0 <= j < n ==> init[j] == evs[j];
    assert k !in t && Project(t, ev) == Fold(evs);
    MadeMarks(evs, k, n);
    hide Fold, Project, Tells, Latest, Marks;
    if Starts(ev, k) { StartStep(t, ev, k); } else { EndStep(t, ev, k); }
    NoneCutOff(init, k, n);
    MarkTells(evs, k, n, Fold(evs).value[k]);
  }

  lemma NoneCutOff(evs: seq<Event>, k: Key, i: nat)
    requires k.AttemptK? && |evs| <= i
    ensures NeverCutOff(evs, k, i)
  {
  }

  /** In every log that can be projected an attempt has a row from the event that first makes it: a start under a
      key, or an end that names the attempt and a key. The row shows the last start, failure or end of the attempt,
      where an end without a number is that of the node's newest attempt; but it says cancelled exactly if a
      cancellation found the attempt running or its outcome unknown and it was neither started again nor reported
      failed since. */
  lemma {:induction false} AttemptRowTells(evs: seq<Event>, k: Key, i: nat)
    requires k.AttemptK? && Fold(evs).Some? && FirstMake(evs, k, i)
    ensures k in Fold(evs).value && Tells(evs, k, i, Fold(evs).value[k])
    decreases |evs|
  {
    if i == |evs| - 1 {
      FirstTells(evs, k);
    } else {
      hide Project, Tells, Makes;
      assert forall j :: 0 <= j < |evs| - 1 ==> evs[..|evs| - 1][j] == evs[j];
      AttemptRowTells(evs[..|evs| - 1], k, i);
      TellsOneMore(evs, k, i, Fold(evs[..|evs| - 1]).value);
    }
  }

  // ---- what does not change, and what only starts change ----

  /** The row has the id, key, executor and contract of the event that made it, the time of the first start, and the
      token and expiry of the last start that gave one. */
  ghost predicate Carries(evs: seq<Event>, k: Key, i: nat, row: Row)
    requires k.AttemptK? && i < |evs| && Makes(evs[i], k)
  {
    row.AttemptRow? && IsOf(row, evs[i]) && Begins(evs, k, row) && Leased(evs, k, row)
  }

  predicate IsOf(row: Row, ev: Event)
    requires row.AttemptRow? && (ev.body.NodeStarted? || ev.body.NodeEnded?)
  {
    row.id == ev.id && row.opKey == ev.body.opKey && row.executor == ev.body.executor &&
    row.contract == ev.body.contract
  }

  ghost predicate Begins(evs: seq<Event>, k: Key, row: Row)
    requires k.AttemptK? && row.AttemptRow?
  {
    && (row.begun.None? <==> NeverStarts(evs, k))
    && forall j: nat :: FirstStart(evs, k, j) ==> row.begun == Some(evs[j].at)
  }

  ghost predicate Leased(evs: seq<Event>, k: Key, row: Row)
    requires k.AttemptK? && row.AttemptRow?
  {
    && (forall j: nat :: LastToken(evs, k, j) ==> row.leaseToken == Some(evs[j].body.leaseToken))
    && (forall j: nat :: LastExpiry(evs, k, j) ==> row.leaseExpires == Some(evs[j].body.leaseExpires))
  }

  ghost predicate NeverStarts(evs: seq<Event>, k: Key)
    requires k.AttemptK?
  {
    forall j :: 0 <= j < |evs| ==> !Starts(evs[j], k)
  }

  ghost predicate FirstStart(evs: seq<Event>, k: Key, j: nat)
    requires k.AttemptK?
  {
    j < |evs| && Starts(evs[j], k) && forall m :: 0 <= m < j ==> !Starts(evs[m], k)
  }

  predicate GivesToken(ev: Event, k: Key)
    requires k.AttemptK?
  {
    Starts(ev, k) && ev.body.leaseToken != ""
  }

  predicate GivesExpiry(ev: Event, k: Key)
    requires k.AttemptK?
  {
    Starts(ev, k) && ev.body.leaseExpires != 0
  }

  ghost predicate LastToken(evs: seq<Event>, k: Key, j: nat)
    requires k.AttemptK?
  {
    j < |evs| && GivesToken(evs[j], k) && forall m :: j < m < |evs| ==> !GivesToken(evs[m], k)
  }

  ghost predicate LastExpiry(evs: seq<Event>, k: Key, j: nat)
    requires k.AttemptK?
  {
    j < |evs| && GivesExpiry(evs[j], k) && forall m :: j < m < |evs| ==> !GivesExpiry(evs[m], k)
  }

  /** An event that is no start leaves all this alone. */
  lemma OnlyStartsChange(t: Tables, ev: Event, k: Key)
    requires k.AttemptK? && k in t && t[k].AttemptRow? && Project(t, ev).Some? && !Starts(ev, k)
    ensures var u := Project(t, ev).value;
            && k in u && u[k].AttemptRow? && u[k].id == t[k].id && u[k].opKey == t[k].opKey
            && u[k].executor == t[k].executor && u[k].contract == t[k].contract && u[k].begun == t[k].begun
            && u[k].leaseToken == t[k].leaseToken && u[k].leaseExpires == t[k].leaseExpires
  {
    hide Project, Latest;
    if !Here(ev, k) {
      OtherStep(t, ev, k);
    } else {
      match ev.body
      case NodeStarted(_, _, _, _, _, _, _) => KeylessStep(t, ev, k);
      case NodeEnded(_, _, _, _, _, _, _) => EndStep(t, ev, k);
      case NodeCancelled(_, _) => CancelStep(t, ev, k);
      case NodeAttemptFailed(_, _, _) => FailStep(t, ev, k);
    }
  }

  /** What one event makes of the begin and the lease of a row. */
  predicate StartedBy(row: Row, was: Row, ev: Event, k: Key)
    requires k.AttemptK? && row.AttemptRow? && was.AttemptRow?
  {
    && row.begun == (if Starts(ev, k) && was.begun.None? then Some(ev.at) else was.begun)
    && row.leaseToken == (if GivesToken(ev, k) then Some(ev.body.leaseToken) else was.leaseToken)
    && row.leaseExpires == (if GivesExpiry(ev, k) then Some(ev.body.leaseExpires) else was.leaseExpires)
  }

  lemma FieldsStep(t: Tables, ev: Event, k: Key)
    requires k.AttemptK? && k in t && t[k].AttemptRow? && Project(t, ev).Some?
    ensures var u := Project(t, ev).value;
            && k in u && u[k].AttemptRow? && u[k].id == t[k].id && u[k].opKey == t[k].opKey
            && u[k].executor == t[k].executor && u[k].contract == t[k].contract && StartedBy(u[k], t[k], ev, k)
  {
    hide Project, Here;
    if Starts(ev, k) { StartStep(t, ev, k); } else { OnlyStartsChange(t, ev, k); }
  }

  lemma LeasedOneMore(evs: seq<Event>, k: Key, was: Row, row: Row)
    requires |evs| > 0 && k.AttemptK? && row.AttemptRow? && was.AttemptRow?
    requires StartedBy(row, was, evs[|evs| - 1], k) && Leased(evs[..|evs| - 1], k, was)
    ensures Leased(evs, k, row)
  {
    assert forall ev: Event :: GivesToken(ev, k) || GivesExpiry(ev, k) ==> ev.body.NodeStarted?;
    hide GivesToken, GivesExpiry, Starts;
    var n, init := |evs| - 1, evs[..|evs| - 1];
    assert forall j :: 0 <= j < n ==> init[j] == evs[j];
    forall j: nat | LastToken(evs, k, j)
      ensures row.leaseToken == Some(evs[j].body.leaseToken)
    {
      if j < n { assert LastToken(init, k, j) && !GivesToken(evs[n], k); }
    }
    forall j: nat | LastExpiry(evs, k, j)
      ensures row.leaseExpires == Some(evs[j].body.leaseExpires)
    {
      if j < n { assert LastExpiry(init, k, j) && !GivesExpiry(evs[n], k); }
    }
  }

  lemma BeginsOneMore(evs: seq<Event>, k: Key, was: Row, row: Row)
    requires |evs| > 0 && k.AttemptK? && row.AttemptRow? && was.AttemptRow?
    requires StartedBy(row, was, evs[|evs| - 1], k) && Begins(evs[..|evs| - 1], k, was)
    ensures Begins(evs, k, row)
  {
    hide GivesToken, GivesExpiry, Starts;
    var n, init := |evs| - 1, evs[..|evs| - 1];
    assert forall j :: 0 <= j < n ==> init[j] == evs[j];
    assert NeverStarts(evs, k) <==> NeverStarts(init, k) && !Starts(evs[n], k);
    forall j: nat | FirstStart(evs, k, j)
      ensures row.begun == Some(evs[j].at)
    {
      if j < n { assert FirstStart(init, k, j) && Starts(init[j], k); } else { assert NeverStarts(init, k); }
    }
  }

  lemma CarriesOneMore(evs: seq<Event>, k: Key, i: nat, t: Tables)
    requires k.AttemptK? && i < |evs| - 1 && Makes(evs[i], k) && Project(t, evs[|evs| - 1]).Some?
    requires evs[..|evs| - 1][i] == evs[i] && k in t && Carries(evs[..|evs| - 1], k, i, t[k])
    ensures var u := Project(t, evs[|evs| - 1]).value; k in u && Carries(evs, k, i, u[k])
  {
    hide Project, Makes, Here, Starts, GivesToken, GivesExpiry, StartedBy, FirstStart, NeverStarts, LastToken,
         LastExpiry;
    var n := |evs| - 1;
    var u := Project(t, evs[n]).value;
    FieldsStep(t, evs[n], k);
    LeasedOneMore(evs, k, t[k], u[k]);
    BeginsOneMore(evs, k, t[k], u[k]);
  }

  lemma FirstCarries(evs: seq<Event>, k: Key)
    requires |evs| > 0 && k.AttemptK? && Fold(evs).Some? && FirstMake(evs, k, |evs| - 1)
    ensures k in Fold(evs).value && Carries(evs, k, |evs| - 1, Fold(evs).value[k])
  {
    var n, init := |evs| - 1, evs[..|evs| - 1];
    var ev, t, u := evs[n], Fold(init).value, Fold(evs).value;
    RowExactlyIfMade(init, k);
    assert forall j :: 0 <= j < n ==> init[j] == evs[j];
    assert k !in t && Project(t, ev) == Fold(evs);
    NeverStarted(init, k);
    hide Fold, Project, Latest, Leased, Begins;
    if Starts(ev, k) { StartStep(t, ev, k); } else { EndStep(t, ev, k); }
    var none := u[k].(begun := None, leaseToken := None, leaseExpires := None);
    NothingBegun(init, k, none);
    hide Starts, Here;
    LeasedOneMore(evs, k, none, u[k]);
    BeginsOneMore(evs, k, none, u[k]);
  }

  lemma NeverStarted(evs: seq<Event>, k: Key)
    requires k.AttemptK? && forall j :: 0 <= j < |evs| ==> !Makes(evs[j], k)
    ensures NeverStarts(evs, k)
  {
  }

  lemma NothingBegun(evs: seq<Event>, k: Key, row: Row)
    requires k.AttemptK? && NeverStarts(evs, k) && row.AttemptRow? && row.begun.None?
    ensures Begins(evs, k, row) && Leased(evs, k, row)
  {
  }

  /** What the row of an attempt keeps from the event that made it, and what it has from its starts. */
  lemma {:induction false} AttemptRowCarries(evs: seq<Event>, k: Key, i: nat)
    requires k.AttemptK? && Fold(evs).Some? && FirstMake(evs, k, i)
    ensures k in Fold(evs).value && Carries(evs, k, i, Fold(evs).value[k])
    decreases |evs|
  {
    if i == |evs| - 1 {
      FirstCarries(evs, k);
    } else {
      hide Project, Carries, Makes;
      assert forall j :: 0 <= j < |evs| - 1 ==> evs[..|evs| - 1][j] == evs[j];
      AttemptRowCarries(evs[..|evs| - 1], k, i);
      CarriesOneMore(evs, k, i, Fold(evs[..|evs| - 1]).value);
    }
  }
}
