/** The scheduled restart: schedule, extend, cancel, and the loop that looks until nothing has been busy for a while.
    Times are integers (nanoseconds). */
module Restart {
  import opened Options

  const SECOND := 1_000_000_000
  const QUIET := 4 * SECOND
  const DEFAULT_TIMEOUT := 7200 * SECOND
  const MAX_TIMEOUT := 86400 * SECOND

  /** A pending schedule, numbered in the order they were made. */
  datatype Sched = Sched(number: nat, since: int, deadline: int, asker: string)

  /** clearSince belongs to the loop of the pending schedule. */
  datatype State = State(pending: Option<Sched>, clearSince: Option<int>, made: nat, last: string, lastAt: int)

  /** A look reads the clock for the deadline, after counting the busy sessions, and for the quiet time. */
  datatype Step =
    | Schedule(now: int, timeoutMin: int, asker: string)
    | Cancel(now: int, why: string)
    | Look(t0: int, t1: int, t2: int, busy: bool, fails: bool)

  datatype End = Fired | Expired | Cancelled

  const START := State(None, None, 0, "", 0)

  function Timeout(min: int): int {
    if min <= 0 then DEFAULT_TIMEOUT
    else if min * 60 * SECOND < MAX_TIMEOUT then min * 60 * SECOND else MAX_TIMEOUT
  }

  function Dropped(s: State, why: string, now: int): State {
    if s.pending.None? then s
    else if why == "" then s.(pending := None)
    else s.(pending := None, last := why, lastAt := now)
  }

  function ClearSince(s: State, t1: int): int {
    if s.clearSince.Some? then s.clearSince.value else t1
  }

  function Next(s: State, st: Step): State {
    match st
    case Schedule(now, timeoutMin, asker) =>
      var deadline := now + Timeout(timeoutMin);
      if s.pending.Some? then
        (if deadline > s.pending.value.deadline then s.(pending := Some(s.pending.value.(deadline := deadline))) else s)
      else
        State(Some(Sched(s.made, now, deadline, asker)), None, s.made + 1, "", 0)
    case Cancel(now, why) => Dropped(s, why, now)
    case Look(t0, t1, t2, busy, fails) =>
      if s.pending.None? then s
      else if t0 > s.pending.value.deadline then Dropped(s, "expired", t1)
      else if busy then s.(clearSince := None)
      else
        var c := s.(clearSince := Some(ClearSince(s, t1)));
        if t2 - c.clearSince.value < QUIET then c
        else if fails then c.(pending := None, last := "failed", lastAt := t2)
        else c.(pending := None)
  }

  /** How a step ends the pending schedule, if it does. */
  function Ends(s: State, st: Step): Option<End> {
    if s.pending.None? || Next(s, st).pending.Some? then None
    else Some(if st.Cancel? then Cancelled else if st.Look? && st.t0 > s.pending.value.deadline then Expired else Fired)
  }

  function At(run: seq<Step>): State {
    if run == [] then START else Next(At(run[..|run| - 1]), run[|run| - 1])
  }

  predicate PendingIs(s: State, n: nat) {
    s.pending.Some? && s.pending.value.number == n
  }

  // ---- a schedule ends once, its deadline only moves later ----

  lemma {:induction false} PendingIsNewest(run: seq<Step>)
    ensures At(run).pending.Some? ==> At(run).pending.value.number == At(run).made - 1
  {
    if run != [] {
      PendingIsNewest(run[..|run| - 1]);
    }
  }

  /** Once another state has come, a schedule of that number or less is not pending again. */
  lemma {:induction false} GoneForGood(run: seq<Step>, i: nat, n: nat)
    requires i <= |run| && At(run[..i]).pending.None? && n < At(run[..i]).made
    ensures n < At(run).made && !PendingIs(At(run), n)
    ensures At(run).pending.Some? ==> n < At(run).pending.value.number
  {
    if i == |run| {
      assert run[..i] == run;
    } else {
      var h := run[..|run| - 1];
      assert h[..i] == run[..i];
      GoneForGood(h, i, n);
    }
  }

  /** A schedule ends at most once: one that a step ends is older than any a later step ends. In particular a
      cancelled or expired schedule never fires. */
  lemma {:induction false} EndsOnce(run: seq<Step>, i: nat, j: nat)
    requires i < j < |run|
    requires Ends(At(run[..i]), run[i]).Some? && Ends(At(run[..j]), run[j]).Some?
    ensures At(run[..i]).pending.value.number < At(run[..j]).pending.value.number
  {
    assert run[..i + 1][..i] == run[..i];
    assert run[..j][..i + 1] == run[..i + 1];
    PendingIsNewest(run[..i]);
    GoneForGood(run[..j], i + 1, At(run[..i]).pending.value.number);
  }

  /** While a schedule is pending, asking again keeps it, and its deadline only moves later. */
  lemma {:induction false} DeadlineMovesLater(run: seq<Step>, i: nat, n: nat)
    requires i <= |run| && PendingIs(At(run[..i]), n) && PendingIs(At(run), n)
    ensures var p, q := At(run[..i]).pending.value, At(run).pending.value;
      q.deadline >= p.deadline && q.since == p.since && q.asker == p.asker
  {
    if i == |run| {
      assert run[..i] == run;
    } else {
      var h := run[..|run| - 1];
      assert h[..i] == run[..i];
      PendingIsNewest(run[..i]);
      MadeGrows(h, i);
      if PendingIs(At(h), n) {
        DeadlineMovesLater(h, i, n);
      }
    }
  }

  lemma {:induction false} MadeGrows(h: seq<Step>, i: nat)
    requires i <= |h|
    ensures At(h[..i]).made <= At(h).made
  {
    if i == |h| {
      assert h[..i] == h;
    } else {
      assert h[..|h| - 1][..i] == h[..i];
      MadeGrows(h[..|h| - 1], i);
    }
  }

  /** The request at k made or extended schedule n. */
  ghost predicate Asks(run: seq<Step>, k: nat, n: nat) {
    k < |run| && run[k].Schedule? && PendingIs(At(run[..k + 1]), n)
  }

  function Until(st: Step): int
    requires st.Schedule?
  {
    st.now + Timeout(st.timeoutMin)
  }

  lemma AskedBefore(h: seq<Step>, c: Step, n: nat)
    ensures forall k: nat :: Asks(h + [c], k, n) <==>
      (if k == |h| then c.Schedule? && PendingIs(Next(At(h), c), n) else Asks(h, k, n))
  {
    var run := h + [c];
    assert run[..|h|] == h && run[..|h| + 1] == run;
    assert forall k: nat :: k < |h| ==> run[..k + 1] == h[..k + 1] && run[k] == h[k];
  }

  /** A pending schedule waits exactly until the latest of the deadlines it was asked for. */
  lemma {:induction false} DeadlineIsLatestAsked(run: seq<Step>)
    requires At(run).pending.Some?
    ensures var p := At(run).pending.value;
      && (exists k: nat :: Asks(run, k, p.number) && p.deadline == Until(run[k]))
      && (forall k: nat :: Asks(run, k, p.number) ==> Until(run[k]) <= p.deadline)
  {
    var h, c := run[..|run| - 1], run[|run| - 1];
    assert run == h + [c];
    var n := At(run).pending.value.number;
    AskedBefore(h, c, n);
    if At(h).pending.Some? {
      DeadlineIsLatestAsked(h);
      var k: nat :| Asks(h, k, n) && At(h).pending.value.deadline == Until(h[k]);
      assert Asks(run, k, n) && run[k] == h[k];
    } else {
      NobodyAsked(h, n);
    }
    assert c.Schedule? ==> Asks(run, |h|, n);
    forall k: nat | Asks(run, k, n) ensures Until(run[k]) <= At(run).pending.value.deadline {
      assert k < |h| ==> Asks(h, k, n) && run[k] == h[k];
    }
  }

  /** Nobody asked for a schedule before it was made. */
  lemma {:induction false} NobodyAsked(h: seq<Step>, n: nat)
    requires n >= At(h).made
    ensures forall k: nat :: !Asks(h, k, n)
  {
    forall k: nat | Asks(h, k, n) ensures false {
      MadeGrows(h, k + 1);
      PendingIsNewest(h[..k + 1]);
    }
  }

  // ---- when it fires ----

  predicate Before(run: seq<Step>, t: int) {
    run != [] ==>
      match run[|run| - 1]
      case Schedule(now, _, _) => now <= t
      case Cancel(now, _) => now <= t
      case Look(_, _, t2, _, _) => t2 <= t
  }

  function Begins(st: Step): int {
    match st
    case Schedule(now, _, _) => now
    case Cancel(now, _) => now
    case Look(t0, _, _, _, _) => t0
  }

  /** The clock does not go back. */
  predicate Clocked(run: seq<Step>) {
    run != [] ==>
      var n := |run| - 1;
      Before(run[..n], Begins(run[n])) && (run[n].Look? ==> run[n].t0 <= run[n].t1 <= run[n].t2) && Clocked(run[..n])
  }

  /** From the look at j to now schedule n has been pending, and every look found nothing busy. */
  predicate ClearFrom(run: seq<Step>, j: nat, n: nat) {
    && j < |run|
    && PendingIs(At(run[..|run| - 1]), n) && PendingIs(At(run), n)
    && (run[|run| - 1].Look? ==> !run[|run| - 1].busy)
    && (if j == |run| - 1 then run[j].Look? else ClearFrom(run[..|run| - 1], j, n))
  }

  ghost predicate NoneClear(run: seq<Step>, n: nat) {
    forall j: nat :: !ClearFrom(run, j, n)
  }

  /** c is when the first look of the current clear stretch counted. */
  ghost predicate FirstClear(run: seq<Step>, n: nat, c: int) {
    && (exists j: nat :: ClearFrom(run, j, n) && run[j].Look? && run[j].t1 == c)
    && (forall j: nat :: ClearFrom(run, j, n) ==> run[j].Look? && c <= run[j].t1)
  }

  ghost predicate Tracks(run: seq<Step>) {
    var s := At(run);
    s.pending.Some? ==>
      if s.clearSince.None? then NoneClear(run, s.pending.value.number)
      else FirstClear(run, s.pending.value.number, s.clearSince.value)
  }

  lemma SinceIsPast(run: seq<Step>, t: int)
    requires Clocked(run) && Before(run, t) && At(run).clearSince.Some?
    ensures At(run).clearSince.value <= t
  {}

  lemma TracksStep(h: seq<Step>, c: Step)
    requires Tracks(h) && (c.Look? ==> At(h).clearSince.Some? ==> At(h).clearSince.value <= c.t1)
    ensures Tracks(h + [c])
  {}

  lemma {:induction false} TracksAlways(run: seq<Step>)
    requires Clocked(run)
    ensures Tracks(run)
  {
    if run != [] {
      var h, c := run[..|run| - 1], run[|run| - 1];
      assert run == h + [c];
      TracksAlways(h);
      if At(h).clearSince.Some? { SinceIsPast(h, Begins(c)); }
      TracksStep(h, c);
    }
  }

  /** At a look that started by the deadline and found nothing busy, the quiet time has passed when some earlier
      look, or this one, lies that far back, and from it on the same schedule was pending and no look was busy. */
  ghost predicate QuietLongEnough(run: seq<Step>, look: Step, n: nat)
    requires look.Look?
  {
    || look.t2 - look.t1 >= QUIET
    || exists j: nat :: ClearFrom(run, j, n) && run[j].Look? && look.t2 - run[j].t1 >= QUIET
  }

  /** A look restarts exactly when a schedule is pending (so not cancelled), its deadline has not passed, nothing
      is busy, and every look of a stretch of at least the quiet time found nothing busy either. */
  lemma FiresIff(run: seq<Step>, look: Step)
    requires Clocked(run + [look]) && look.Look?
    ensures Ends(At(run), look) == Some(Fired) <==>
      && At(run).pending.Some? && look.t0 <= At(run).pending.value.deadline && !look.busy
      && QuietLongEnough(run, look, At(run).pending.value.number)
    ensures Ends(At(run), look) == Some(Expired) <==>
      At(run).pending.Some? && look.t0 > At(run).pending.value.deadline
  {
    assert (run + [look])[..|run|] == run;
    TracksAlways(run);
    if At(run).clearSince.Some? { SinceIsPast(run, look.t0); }
  }

  /** The server's fields, the loop's clearSince among them. */
  class Restarter {
    var sched: Option<Sched>
    var clearSince: Option<int>
    var made: nat
    var last: string
    var lastAt: int
    ghost var run: seq<Step>

    ghost predicate Valid() reads this {
      At(run) == State(sched, clearSince, made, last, lastAt)
    }

    constructor ()
      ensures Valid() && run == []
    {
      sched, clearSince, made, last, lastAt := None, None, 0, "", 0;
      run := [];
    }

    method ScheduleRestart(now: int, timeoutMin: int, asker: string)
      requires Valid()
      modifies this
      ensures Valid() && run == old(run) + [Schedule(now, timeoutMin, asker)]
    {
      AtStep(run, Schedule(now, timeoutMin, asker));
      run := run + [Schedule(now, timeoutMin, asker)];
      var timeout := Limit(timeoutMin);
      var deadline := now + timeout;
      if sched.None? {
        sched := Some(Sched(made, now, deadline, asker));
        made, last, lastAt, clearSince := made + 1, "", 0, None;
      } else if deadline > sched.value.deadline {
        sched := Some(sched.value.(deadline := deadline));
      }
    }

    method CancelScheduled(now: int, why: string) returns (was: bool)
      requires Valid()
      modifies this
      ensures Valid() && run == old(run) + [Cancel(now, why)]
      ensures was == old(sched).Some? && sched.None?
    {
      AtStep(run, Cancel(now, why));
      run := run + [Cancel(now, why)];
      was := sched.Some?;
      if was {
        sched := None;
        if why != "" {
          last, lastAt := why, now;
        }
      }
    }

    /** One turn of the wait loop; done when there is nothing left to wait for. */
    method LookOnce(t0: int, t1: int, t2: int, busy: bool, fails: bool) returns (done: bool, restarts: bool)
      requires Valid()
      modifies this
      ensures Valid() && run == old(run) + [Look(t0, t1, t2, busy, fails)]
      ensures done <==> sched.None?
      ensures restarts <==> Ends(At(old(run)), Look(t0, t1, t2, busy, fails)) == Some(Fired)
    {
      AtStep(run, Look(t0, t1, t2, busy, fails));
      run := run + [Look(t0, t1, t2, busy, fails)];
      if sched.None? {
        return true, false;
      }
      if t0 > sched.value.deadline {
        sched, last, lastAt := None, "expired", t1;
        return true, false;
      }
      if busy {
        clearSince := None;
        return false, false;
      }
      if clearSince.None? {
        clearSince := Some(t1);
      }
      if t2 - clearSince.value < QUIET {
        return false, false;
      }
      sched := None;
      if fails {
        last, lastAt := "failed", t2;
      }
      return true, true;
    }
  }

  method Limit(timeoutMin: int) returns (timeout: int)
    ensures timeout == Timeout(timeoutMin) && 0 < timeout <= MAX_TIMEOUT
  {
    timeout := timeoutMin * 60 * SECOND;
    if timeout <= 0 {
      timeout := DEFAULT_TIMEOUT;
    }
    if timeout > MAX_TIMEOUT {
      timeout := MAX_TIMEOUT;
    }
  }

  lemma AtStep(run: seq<Step>, st: Step)
    ensures At(run + [st]) == Next(At(run), st)
  {}

  /** How long a request waits at most: as many minutes as it says, two hours if it says none, never over a day. */
  lemma TimeoutIs(min: int)
    ensures min <= 0 ==> Timeout(min) == 2 * 60 * 60 * 1_000_000_000
    ensures 0 < min <= 24 * 60 ==> Timeout(min) == min * 60_000_000_000
    ensures min > 24 * 60 ==> Timeout(min) == 24 * 60 * 60 * 1_000_000_000
    ensures QUIET == 4_000_000_000
  {}

  /** A new schedule starts with its request's deadline; a pending one has it moved only by a later deadline. */
  lemma ScheduleDoes(s: State, now: int, timeoutMin: int, asker: string)
    ensures var t := Next(s, Schedule(now, timeoutMin, asker));
      && t.pending.Some?
      && (s.pending.None? ==>
            t.pending == Some(Sched(s.made, now, now + Timeout(timeoutMin), asker)) && t.clearSince.None? && t.last == "")
      && (s.pending.Some? ==>
            var p, q := s.pending.value, t.pending.value;
            && q.deadline == (if now + Timeout(timeoutMin) > p.deadline then now + Timeout(timeoutMin) else p.deadline)
            && q.number == p.number && q.since == p.since && q.asker == p.asker && t.clearSince == s.clearSince)
  {}

  /** What is reported of a schedule that has ended: why it was cancelled, if for a reason, that it has expired, or
      that the restart failed; nothing of one that fired. */
  lemma LastSays(s: State, st: Step)
    requires Ends(s, st).Some?
    ensures var t := Next(s, st);
      match Ends(s, st).value
      case Cancelled => st.Cancel? && (if st.why == "" then t.last == s.last else t.last == st.why && t.lastAt == st.now)
      case Expired => st.Look? && t.last == "expired" && t.lastAt == st.t1
      case Fired => st.Look? && (if st.fails then t.last == "failed" && t.lastAt == st.t2 else t.last == s.last)
  {}
}
