/** Firing due schedules: one run for a tick that is due, or a skip of all ticks that have piled up. */
module Scheduling {
  import opened Collections
  import opened Options
  import opened Cron
  import opened CronSearch

  /** The last skip: its first and last tick and how many ticks it skipped. */
  datatype Window = Window(first: int, last: int, count: nat)

  /** A schedule's row; `next` is the minute of its next tick and `fired` the ticks of the runs started for it. */
  datatype Row = Row(cron: Schedule, enabled: bool, next: int, skippedCount: nat, window: Option<Window>,
                     fired: seq<int>)

  predicate Due(t: int, now: int) { 60000 * t <= now }

  function NextTick(cron: Schedule, t: int): Option<int> { Search(cron, MinuteAfter(60000 * t), BOUND) }

  lemma NextTickIs(cron: Schedule, t: int)
    ensures MinuteAfter(60000 * t) == t + 1
    ensures NextTick(cron, t).Some? ==>
              var n := NextTick(cron, t).value; t < n && Matches(cron, n) && forall u :: t < u < n ==> !Matches(cron, u)
  {
    hide Matches;
    SearchIsLeast(cron, t + 1, BOUND);
  }

  datatype Skip = Skip(next: int, last: int, count: nat)

  /** From a tick that is skipped, over the ticks due now, to the first one that is not. */
  function SkipTicks(cron: Schedule, cur: int, now: int): Option<Skip>
    decreases if Due(cur, now) then now - 60000 * cur else -1
  {
    NextTickIs(cron, cur);
    match NextTick(cron, cur)
    case None => None
    case Some(n) =>
      if !Due(n, now) then Some(Skip(n, cur, 1))
      else
        match SkipTicks(cron, n, now)
        case None => None
        case Some(k) => Some(k.(count := k.count + 1))
  }

  /** One schedule at one time; `startOk` says whether a run can be started. */
  function Fire(row: Row, now: int, startOk: bool): Row {
    if !row.enabled || !Due(row.next, now) then row
    else
      match NextTick(row.cron, row.next)
      case None => row
      case Some(n) =>
        if Due(n, now) then
          match SkipTicks(row.cron, row.next, now)
          case None => row
          case Some(k) => row.(next := k.next, skippedCount := row.skippedCount + k.count,
                               window := Some(Window(row.next, k.last, k.count)))
        else if startOk then row.(next := n, fired := row.fired + [row.next])
        else row
  }

  datatype Call = Tick(now: int, startOk: bool) | Enable(on: bool)

  function Next(row: Row, call: Call): Row {
    match call
    case Tick(now, startOk) => Fire(row, now, startOk)
    case Enable(on) => row.(enabled := on)
  }

  function After(row: Row, calls: seq<Call>): Row {
    if |calls| == 0 then row else Next(After(row, calls[..|calls| - 1]), calls[|calls| - 1])
  }

  // ---- every tick is accounted for ----

  /** The ticks of a schedule from a up to, but not including, b. */
  function Ticks(cron: Schedule, a: int, b: int): set<int> { set t | a <= t < b && Matches(cron, t) }

  lemma TicksJoin(cron: Schedule, a: int, b: int, c: int)
    requires a <= b <= c
    ensures |Ticks(cron, a, c)| == |Ticks(cron, a, b)| + |Ticks(cron, b, c)|
  {
    hide Matches;
    assert Ticks(cron, a, c) == Ticks(cron, a, b) + Ticks(cron, b, c);
    assert Ticks(cron, a, b) !! Ticks(cron, b, c);
  }

  lemma OneTick(cron: Schedule, t: int, n: int)
    requires Matches(cron, t) && t < n && forall u :: t < u < n ==> !Matches(cron, u)
    ensures Ticks(cron, t, n) == {t}
  {
    hide Matches;
  }

  lemma {:induction false} SkipCounts(cron: Schedule, cur: int, now: int)
    requires Matches(cron, cur) && SkipTicks(cron, cur, now).Some?
    ensures var k := SkipTicks(cron, cur, now).value;
            && cur <= k.last < k.next && Matches(cron, k.next) && Matches(cron, k.last) && !Due(k.next, now) &&
               (Due(cur, now) ==> Due(k.last, now))
            && k.count == |Ticks(cron, cur, k.next)| && (forall u :: k.last < u < k.next ==> !Matches(cron, u))
    decreases if Due(cur, now) then now - 60000 * cur else -1
  {
    hide Matches, Ticks, NextTick;
    NextTickIs(cron, cur);
    var n := NextTick(cron, cur).value;
    OneTick(cron, cur, n);
    if Due(n, now) {
      SkipCounts(cron, n, now);
      TicksJoin(cron, cur, n, SkipTicks(cron, cur, now).value.next);
    }
  }

  predicate Increasing(xs: seq<int>) { forall i, j :: 0 <= i < j < |xs| ==> xs[i] < xs[j] }

  /** Every tick from `first` up to the next one has been fired or counted as skipped. */
  ghost predicate Accounted(row: Row, first: int, skipped: nat) {
    && first <= row.next && Matches(row.cron, row.next) && skipped <= row.skippedCount
    && Increasing(row.fired) && (forall t :: t in row.fired ==> t in Ticks(row.cron, first, row.next))
    && |Ticks(row.cron, first, row.next)| == |row.fired| + row.skippedCount - skipped
  }

  lemma FireAccounts(row: Row, now: int, startOk: bool, first: int, skipped: nat)
    requires Accounted(row, first, skipped)
    ensures Accounted(Fire(row, now, startOk), first, skipped)
  {
    hide Matches, NextTick;
    var r := Fire(row, now, startOk);
    NextTickIs(row.cron, row.next);
    if r != row {
      var n := NextTick(row.cron, row.next).value;
      TicksJoin(row.cron, first, row.next, r.next) by {
        if Due(n, now) { SkipCounts(row.cron, row.next, now); }
      }
      if Due(n, now) {
        SkipCounts(row.cron, row.next, now);
      } else {
        OneTick(row.cron, row.next, n);
        assert forall i :: 0 <= i < |row.fired| ==> row.fired[i] in row.fired;
      }
    }
  }

  /** Over any calls, at any times, the ticks from the first up to the current one are exactly those fired
      and those counted as skipped; none is fired twice. */
  lemma {:induction false} TicksAreConserved(row: Row, calls: seq<Call>)
    requires Matches(row.cron, row.next) && row.fired == []
    ensures var r := After(row, calls);
            && r.cron == row.cron && Accounted(r, row.next, row.skippedCount)
  {
    hide Matches, Fire;
    if |calls| == 0 {
      assert Ticks(row.cron, row.next, row.next) == {};
    } else {
      var r, call := After(row, calls[..|calls| - 1]), calls[|calls| - 1];
      TicksAreConserved(row, calls[..|calls| - 1]);
      if call.Tick? {
        FireAccounts(r, call.now, call.startOk, row.next, row.skippedCount);
        FireKeepsCron(r, call.now, call.startOk);
      }
    }
  }

  lemma FireKeepsCron(row: Row, now: int, startOk: bool)
    ensures Fire(row, now, startOk).cron == row.cron
  {
    hide NextTick, SkipTicks;
  }

  /** The ticks counted as skipped are not fired, and their number is what the count says. */
  lemma SkippedAreTheRest(row: Row, calls: seq<Call>)
    requires Matches(row.cron, row.next) && row.fired == []
    ensures var r := After(row, calls);
            var fired := set t | t in r.fired;
            fired <= Ticks(row.cron, row.next, r.next) &&
            |Ticks(row.cron, row.next, r.next) - fired| == r.skippedCount - row.skippedCount
  {
    hide Matches;
    TicksAreConserved(row, calls);
    var r := After(row, calls);
    var fired := set t | t in r.fired;
    var ticks := Ticks(row.cron, row.next, r.next);
    DistinctSize(r.fired);
    assert ticks == (ticks - fired) + fired;
  }

  lemma LastIsNew(xs: seq<int>)
    requires Increasing(xs) && |xs| > 0
    ensures xs[|xs| - 1] !in xs[..|xs| - 1]
  {
  }

  lemma {:induction false} DistinctSize(xs: seq<int>)
    requires Increasing(xs)
    ensures |set t | t in xs| == |xs|
  {
    if |xs| > 0 {
      var init, last := xs[..|xs| - 1], xs[|xs| - 1];
      DistinctSize(init);
      assert xs == init + [last];
      LastIsNew(xs);
      assert (set t | t in xs) == (set t | t in init) + {last};
    }
  }

  /** A call that skips reports the ticks of its window, all of them due and none of them fired. */
  lemma WindowHoldsSkipped(row: Row, now: int, startOk: bool, first: int, skipped: nat)
    requires Accounted(row, first, skipped) && Fire(row, now, startOk).skippedCount != row.skippedCount
    ensures var r := Fire(row, now, startOk);
            && r.window.Some? && r.window.value.first == row.next && Due(r.window.value.last, now) && !Due(r.next, now)
            && r.fired == row.fired && r.skippedCount == row.skippedCount + r.window.value.count
            && r.window.value.count == |Ticks(row.cron, r.window.value.first, r.window.value.last + 1)|
  {
    hide Matches, NextTick, Ticks;
    SkipCounts(row.cron, row.next, now);
    var r := Fire(row, now, startOk);
    var w := r.window.value;
    TicksJoin(row.cron, w.first, w.last + 1, r.next);
    NoTicks(row.cron, w.last + 1, r.next);
  }

  lemma NoTicks(cron: Schedule, a: int, b: int)
    requires forall u :: a <= u < b ==> !Matches(cron, u)
    ensures Ticks(cron, a, b) == {}
  {
    hide Matches;
  }

  /** A run that is started carries a tick that is due, and no later tick is due with it. */
  lemma FiredIsLatest(row: Row, now: int, startOk: bool)
    requires Fire(row, now, startOk).fired != row.fired
    ensures var r := Fire(row, now, startOk);
            && r.fired == row.fired + [row.next] && Due(row.next, now) && r.skippedCount == row.skippedCount
            && forall u :: row.next < u && Due(u, now) ==> !Matches(row.cron, u)
  {
    hide Matches, NextTick, SkipTicks;
    NextTickIs(row.cron, row.next);
  }

  // ---- exactly when a tick is fired, and when it is skipped ----

  /** The search from a tick finds a later one. */
  ghost predicate HasLater(cron: Schedule, t: int) { exists u :: t < u <= t + BOUND && Matches(cron, u) }

  /** A later tick is due as well. */
  ghost predicate HasPiledUp(cron: Schedule, t: int, now: int) {
    exists u :: t < u && 60000 * u <= now && Matches(cron, u)
  }

  lemma FindsLater(cron: Schedule, t: int, now: int)
    ensures NextTick(cron, t).Some? <==> HasLater(cron, t)
    ensures NextTick(cron, t).Some? ==> (Due(NextTick(cron, t).value, now) <==> HasPiledUp(cron, t, now))
  {
    hide Matches;
    SearchIsLeast(cron, t + 1, BOUND);
    NextTickIs(cron, t);
  }

  /** A tick is fired exactly if the schedule is enabled, the tick is due and no later one is, a later one is found
      and a run can be started. Then the schedule moves on to the next tick. */
  lemma FiresExactlyWhen(row: Row, now: int, startOk: bool)
    ensures var r := Fire(row, now, startOk);
            && (r.fired != row.fired <==>
                row.enabled && 60000 * row.next <= now && startOk && HasLater(row.cron, row.next) &&
                !HasPiledUp(row.cron, row.next, now))
            && (r.fired != row.fired ==>
                  && r == row.(fired := row.fired + [row.next], next := r.next)
                  && row.next < r.next && Matches(row.cron, r.next)
                  && forall u :: row.next < u < r.next ==> !Matches(row.cron, u))
  {
    hide Matches, NextTick, SkipTicks;
    FindsLater(row.cron, row.next, now);
    NextTickIs(row.cron, row.next);
  }

  /** The ticks that have piled up can be skipped: from each of them a later one is found. */
  ghost predicate CanSkip(cron: Schedule, t: int, now: int) {
    forall u :: t <= u && 60000 * u <= now && (u == t || Matches(cron, u)) ==> HasLater(cron, u)
  }

  lemma {:induction false} SkipsWhenFound(cron: Schedule, t: int, now: int)
    requires Due(t, now)
    ensures SkipTicks(cron, t, now).Some? <==> CanSkip(cron, t, now)
    decreases now - 60000 * t
  {
    hide Matches, NextTick, HasLater;
    FindsLater(cron, t, now);
    NextTickIs(cron, t);
    if NextTick(cron, t).Some? && Due(NextTick(cron, t).value, now) {
      var n := NextTick(cron, t).value;
      SkipsWhenFound(cron, n, now);
      assert CanSkip(cron, t, now) <==> CanSkip(cron, n, now);
    }
  }

  /** Ticks are skipped exactly if the schedule is enabled and more than one of its ticks is due, and a later tick
      is found from each of them. */
  lemma SkipsExactlyWhen(row: Row, now: int, startOk: bool)
    ensures Fire(row, now, startOk).skippedCount != row.skippedCount <==>
            row.enabled && 60000 * row.next <= now && HasPiledUp(row.cron, row.next, now) &&
            CanSkip(row.cron, row.next, now)
  {
    hide Matches, NextTick, SkipTicks, HasLater, CanSkip, HasPiledUp;
    FindsLater(row.cron, row.next, now);
    if Due(row.next, now) {
      SkipsWhenFound(row.cron, row.next, now);
      if SkipTicks(row.cron, row.next, now).Some? { SkippedIsPositive(row.cron, row.next, now); }
      NeedsLater(row.cron, row.next, now);
    }
  }

  lemma NeedsLater(cron: Schedule, t: int, now: int)
    requires Due(t, now)
    ensures CanSkip(cron, t, now) ==> HasLater(cron, t)
  {
  }

  lemma SkippedIsPositive(cron: Schedule, t: int, now: int)
    requires SkipTicks(cron, t, now).Some?
    ensures SkipTicks(cron, t, now).value.count > 0
  {
  }

  // ---- the tables ----

  class Scheduler {
    var rows: map<string, Row>

    /** The loop over the ticks that have piled up. */
    method SkipScheduleTicks(row: Row, now: int) returns (r: Row)
      requires Due(row.next, now)
      ensures r == match SkipTicks(row.cron, row.next, now)
                   case None => row
                   case Some(k) => row.(next := k.next, skippedCount := row.skippedCount + k.count,
                                        window := Some(Window(row.next, k.last, k.count)))
    {
      hide Matches, MinuteAfter, Search;
      var cur, last, count := row.next, row.next, 1;
      while true
        invariant Due(cur, now) && last == cur && count >= 1
        invariant SkipTicks(row.cron, row.next, now) ==
                  match SkipTicks(row.cron, cur, now)
                  case None => None
                  case Some(k) => Some(k.(count := k.count + count - 1))
        decreases now - 60000 * cur
      {
        NextTickIs(row.cron, cur);
        var n := CronSearch.Next(row.cron, 60000 * cur);
        assert n == NextTick(row.cron, cur);
        if n.None? { return row; }
        cur := n.value;
        if 60000 * cur > now { break; }
        last := cur;
        count := count + 1;
      }
      r := row.(next := cur, skippedCount := row.skippedCount + count, window := Some(Window(row.next, last, count)));
    }

    method FireOneSchedule(name: string, now: int, startOk: bool)
      requires name in rows && rows[name].enabled && Due(rows[name].next, now)
      modifies this
      ensures rows == old(rows)[name := Fire(old(rows)[name], now, startOk)]
    {
      hide Matches, MinuteAfter, Search, SkipTicks;
      var row := rows[name];
      NextTickIs(row.cron, row.next);
      var n := CronSearch.Next(row.cron, 60000 * row.next);
      assert n == NextTick(row.cron, row.next);
      if n.None? { return; }
      if 60000 * n.value <= now {
        var r := SkipScheduleTicks(row, now);
        rows := rows[name := r];
      } else if startOk {
        rows := rows[name := row.(next := n.value, fired := row.fired + [row.next])];
      }
    }

    /** Every due schedule is fired once; `ok` names those whose run can be started. */
    method FireDueSchedules(now: int, ok: set<string>)
      modifies this
      ensures rows.Keys == old(rows).Keys
      ensures forall name :: name in rows ==> rows[name] == Fire(old(rows)[name], now, name in ok)
    {
      hide Fire;
      ghost var start := rows;
      var due := set name | name in rows && rows[name].enabled && Due(rows[name].next, now);
      forall name | name in rows && name !in due
        ensures rows[name] == Fire(rows[name], now, name in ok)
      {
        NotDue(rows[name], now, name in ok);
      }
      while due != {}
        invariant rows.Keys == start.Keys && due <= rows.Keys
        invariant forall name :: name in rows ==>
                                 rows[name] == if name in due then start[name] else Fire(start[name], now, name in ok)
        invariant forall name :: name in due ==> rows[name].enabled && Due(rows[name].next, now)
        decreases due
      {
        var name := AnyOf(due);
        due := due - {name};
        FireOneSchedule(name, now, name in ok);
      }
    }
  }

  lemma NotDue(row: Row, now: int, startOk: bool)
    requires !row.enabled || !Due(row.next, now)
    ensures Fire(row, now, startOk) == row
  {
  }
}
