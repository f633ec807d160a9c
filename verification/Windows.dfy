/** The two sliding windows, requests per app in an hour and wrong break-glass guesses in ten minutes.
    Times are integers (nanoseconds). */
module Windows {
  const SECOND := 1_000_000_000
  const HOUR := 3600 * SECOND
  const RATE_PER_HOUR := 30
  const GUESS_WINDOW := 600 * SECOND
  const GUESS_MAX := 5

  /** The times after cut, in order. */
  function Kept(ts: seq<int>, cut: int): seq<int> {
    if ts == [] then []
    else
      var n := |ts| - 1;
      if ts[n] > cut then Kept(ts[..n], cut) + [ts[n]] else Kept(ts[..n], cut)
  }

  /** A call: read the clock, drop what has expired, count; what passes and is to be counted is written down
      with a second reading of the clock. */
  datatype Call = Call(now: int, later: int, counts: bool)

  predicate Passes(times: seq<int>, win: int, max: nat, c: Call) {
    |Kept(times, c.now - win)| < max
  }

  function Noted(times: seq<int>, win: int, max: nat, c: Call): seq<int> {
    var kept := Kept(times, c.now - win);
    if Passes(times, win, max, c) && c.counts then kept + [c.later] else kept
  }

  /** The times written down after a run of calls. */
  function After(win: int, max: nat, run: seq<Call>): seq<int> {
    if run == [] then [] else Noted(After(win, max, run[..|run| - 1]), win, max, run[|run| - 1])
  }

  function CountedWith(all: seq<int>, times: seq<int>, win: int, max: nat, c: Call): seq<int> {
    if Passes(times, win, max, c) && c.counts then all + [c.later] else all
  }

  /** All times ever counted in a run, by whole history. */
  function Counted(win: int, max: nat, run: seq<Call>): seq<int> {
    if run == [] then []
    else
      var n := |run| - 1;
      CountedWith(Counted(win, max, run[..n]), After(win, max, run[..n]), win, max, run[n])
  }

  /** The last call of a run was over by now. */
  predicate Before(run: seq<Call>, now: int) {
    run != [] ==> run[|run| - 1].later <= now
  }

  /** A clock that does not go back. */
  predicate Clocked(run: seq<Call>) {
    run != [] ==>
      var c := run[|run| - 1];
      c.now <= c.later && Before(run[..|run| - 1], c.now) && Clocked(run[..|run| - 1])
  }

  ghost predicate Sorted(ts: seq<int>) {
    forall i, j :: 0 <= i < j < |ts| ==> ts[i] <= ts[j]
  }

  lemma KeptAppend(ts: seq<int>, t: int, cut: int)
    ensures Kept(ts + [t], cut) == if t > cut then Kept(ts, cut) + [t] else Kept(ts, cut)
  {}

  lemma {:induction false} KeptAgain(ts: seq<int>, cut: int, later: int)
    requires cut <= later
    ensures Kept(Kept(ts, cut), later) == Kept(ts, later)
  {
    if ts != [] {
      var n := |ts| - 1;
      KeptAgain(ts[..n], cut, later);
      KeptAppend(Kept(ts[..n], cut), ts[n], later);
    }
  }

  /** Of sorted times the kept ones are the last. */
  lemma {:induction false} KeptIsSuffix(ts: seq<int>, cut: int) returns (k: nat)
    requires Sorted(ts)
    ensures k <= |ts| && Kept(ts, cut) == ts[k..]
    ensures forall i :: 0 <= i < |ts| ==> (ts[i] > cut <==> k <= i)
  {
    if ts == [] {
      k := 0;
    } else {
      var n := |ts| - 1;
      k := KeptIsSuffix(ts[..n], cut);
      if ts[n] > cut {
        assert ts[k..] == ts[..n][k..] + [ts[n]];
      } else {
        k := n + 1;
      }
    }
  }

  lemma OneMore(win: int, max: nat, h: seq<Call>, c: Call)
    ensures After(win, max, h + [c]) == Noted(After(win, max, h), win, max, c)
    ensures Counted(win, max, h + [c]) == CountedWith(Counted(win, max, h), After(win, max, h), win, max, c)
    ensures Clocked(h + [c]) ==> Clocked(h) && Before(h, c.now) && c.now <= c.later
  {}

  lemma SortedAppend(ts: seq<int>, t: int)
    requires Sorted(ts) && forall x <- ts :: x <= t
    ensures Sorted(ts + [t])
  {
    assert forall i :: 0 <= i < |ts| ==> ts[i] in ts;
  }

  lemma {:induction false} CountedInOrder(win: int, max: nat, run: seq<Call>, now: int)
    requires Clocked(run) && Before(run, now)
    ensures Sorted(Counted(win, max, run)) && forall t <- Counted(win, max, run) :: t <= now
  {
    if run != [] {
      var h, c := run[..|run| - 1], run[|run| - 1];
      assert run == h + [c];
      OneMore(win, max, h, c);
      CountedInOrder(win, max, h, c.now);
      SortedAppend(Counted(win, max, h), c.later);
    }
  }

  lemma KeptBoth(a: seq<int>, b: seq<int>, t: int, cut: int)
    requires Kept(a, cut) == Kept(b, cut)
    ensures Kept(a + [t], cut) == Kept(b + [t], cut)
  {
    KeptAppend(a, t, cut);
    KeptAppend(b, t, cut);
  }

  lemma RecentStep(times: seq<int>, all: seq<int>, win: int, max: nat, c: Call, cut: int)
    requires Kept(times, c.now - win) == Kept(all, c.now - win) && c.now - win <= cut
    ensures Kept(Noted(times, win, max, c), cut) == Kept(CountedWith(all, times, win, max, c), cut)
  {
    KeptAgain(all, c.now - win, cut);
    KeptBoth(Kept(times, c.now - win), all, c.later, cut);
  }

  /** Nothing that still matters is ever thrown away: what the window holds is the recent part of everything
      counted since the start. */
  lemma {:induction false} WindowIsRecentHistory(win: int, max: nat, run: seq<Call>, now: int)
    requires win > 0 && Clocked(run) && Before(run, now)
    ensures Kept(After(win, max, run), now - win) == Kept(Counted(win, max, run), now - win)
  {
    if run != [] {
      var h, c := run[..|run| - 1], run[|run| - 1];
      assert run == h + [c];
      OneMore(win, max, h, c);
      WindowIsRecentHistory(win, max, h, c.now);
      RecentStep(After(win, max, h), Counted(win, max, h), win, max, c, now - win);
    }
  }

  lemma SamePasses(a: seq<int>, b: seq<int>, win: int, max: nat, c: Call)
    requires Kept(a, c.now - win) == Kept(b, c.now - win)
    ensures Passes(a, win, max, c) <==> |Kept(b, c.now - win)| < max
  {}

  /** A call passes exactly when fewer than max of all those ever counted are younger than the window. */
  lemma PassesIff(win: int, max: nat, run: seq<Call>, c: Call)
    requires win > 0 && Clocked(run) && Before(run, c.now)
    ensures Passes(After(win, max, run), win, max, c) <==> |Kept(Counted(win, max, run), c.now - win)| < max
  {
    WindowIsRecentHistory(win, max, run, c.now);
    SamePasses(After(win, max, run), Counted(win, max, run), win, max, c);
  }

  /** Any max + 1 counted calls in a row span at least the window: in any stretch of its length at most max count. */
  lemma {:induction false} AtMostMaxInAnyWindow(win: int, max: nat, run: seq<Call>, i: nat)
    requires win > 0 && Clocked(run) && i + max < |Counted(win, max, run)|
    ensures Counted(win, max, run)[i + max] - Counted(win, max, run)[i] >= win
  {
    var h, c := run[..|run| - 1], run[|run| - 1];
    assert run == h + [c];
    OneMore(win, max, h, c);
    var was := Counted(win, max, h);
    if i + max < |was| {
      AtMostMaxInAnyWindow(win, max, h, i);
    } else {
      PassesIff(win, max, h, c);
      CountedInOrder(win, max, h, c.now);
      var k := KeptIsSuffix(was, c.now - win);
      assert i < k || max == 0;
    }
  }

  /** Drops the expired times in place: the kept ones move to the front, in order. */
  method Compact(a: array<int>, n: nat, cut: int) returns (k: nat)
    requires n <= a.Length
    modifies a
    ensures k <= n && a[..k] == Kept(old(a[..n]), cut)
    ensures forall j :: n <= j < a.Length ==> a[j] == old(a[j])
  {
    k := 0;
    ghost var was := a[..n];
    for i := 0 to n
      invariant k <= i && a[..k] == Kept(was[..i], cut)
      invariant forall j :: i <= j < a.Length ==> a[j] == old(a[j])
    {
      assert was[..i + 1][..i] == was[..i];
      assert a[i] == was[i];
      if a[i] > cut {
        ghost var front := a[..k];
        a[k] := a[i];
        k := k + 1;
        assert a[..k] == front + [was[i]];
      }
    }
    assert was[..n] == was;
  }

  datatype Refusal = NotRefused | Locked | WrongPassword

  function Answer(times: seq<int>, now: int, right: bool): Refusal {
    if !Passes(times, GUESS_WINDOW, GUESS_MAX, Call(now, now, !right)) then Locked
    else if right then NotRefused else WrongPassword
  }

  /** The times are those of the wrong guesses compared of late. */
  ghost predicate Guessed(times: seq<int>, run: seq<Call>) {
    times == After(GUESS_WINDOW, GUESS_MAX, run) && Clocked(run)
  }

  lemma OneMoreGuess(times: seq<int>, run: seq<Call>, now: int, wrong: bool)
    requires Guessed(times, run) && Before(run, now)
    ensures Guessed(Noted(times, GUESS_WINDOW, GUESS_MAX, Call(now, now, wrong)), run + [Call(now, now, wrong)])
  {
    OneMore(GUESS_WINDOW, GUESS_MAX, run, Call(now, now, wrong));
  }

  /** The break-glass door: wrong passwords are counted, and too many recent ones lock it, even for the right one. */
  class Door {
    const password: string
    const fails: array<int>
    var failed: nat
    ghost var run: seq<Call>

    ghost predicate Valid() reads this, fails {
      fails.Length == GUESS_MAX && failed <= GUESS_MAX && Guessed(fails[..failed], run)
    }

    constructor (password: string)
      ensures Valid() && this.password == password && run == [] && fresh(fails)
    {
      this.password := password;
      fails := new int[GUESS_MAX];
      failed, run := 0, [];
    }

    method NoteFailure(now: int)
      requires failed < GUESS_MAX == fails.Length
      modifies this`failed, fails
      ensures failed == old(failed) + 1 && fails[..failed] == old(fails[..failed]) + [now]
    {
      fails[failed] := now;
      failed := failed + 1;
    }

    /** Opens for the right password unless locked; a wrong one is counted only when it was compared. */
    method Check(guess: string, now: int) returns (ok: bool, why: Refusal)
      requires Valid() && Before(run, now)
      modifies this, fails
      ensures Valid() && run == old(run) + [Call(now, now, guess != password)]
      ensures why == Answer(old(fails[..failed]), now, guess == password)
      ensures ok <==> guess == password && |Kept(old(fails[..failed]), now - 600_000_000_000)| < 5
      ensures why == Locked <==> |Kept(old(fails[..failed]), now - 600_000_000_000)| >= 5
    {
      OneMoreGuess(fails[..failed], run, now, guess != password);
      run := run + [Call(now, now, guess != password)];
      failed := Compact(fails, failed, now - GUESS_WINDOW);
      if failed >= GUESS_MAX {
        return false, Locked;
      }
      if guess != password {
        NoteFailure(now);
        return false, WrongPassword;
      }
      return true, NotRefused;
    }
  }

  // ---- one window per app ----

  type Rates = map<string, seq<int>>

  datatype Request = Request(app: string, now: int, later: int)

  function Times(rates: Rates, app: string): seq<int> {
    if app in rates then rates[app] else []
  }

  function Of(run: seq<Request>, app: string): seq<Call> {
    if run == [] then []
    else
      var n := |run| - 1;
      if run[n].app == app then Of(run[..n], app) + [Call(run[n].now, run[n].later, true)] else Of(run[..n], app)
  }

  /** What an app's own requests leave in its window. */
  function Window(run: seq<Request>, app: string): seq<int> {
    After(HOUR, RATE_PER_HOUR, Of(run, app))
  }

  /** Each app's window is the one its own requests alone would have left. */
  ghost predicate Separate(rates: Rates, run: seq<Request>) {
    forall app: string :: Times(rates, app) == Window(run, app)
  }

  lemma SeparateStays(rates: Rates, run: seq<Request>, r: Request, times: seq<int>)
    requires Separate(rates, run)
    requires times == Noted(Window(run, r.app), HOUR, RATE_PER_HOUR, Call(r.now, r.later, true))
    ensures Separate(rates[r.app := times], run + [r])
  {
    NoteRequest(run, r);
    forall app: string ensures Times(rates[r.app := times], app) == Window(run + [r], app) {
      if app != r.app {
        assert Times(rates[r.app := times], app) == Times(rates, app);
      }
    }
  }

  class Intake {
    var rate: Rates
    ghost var run: seq<Request>

    ghost predicate Valid() reads this {
      Separate(rate, run)
    }

    constructor ()
      ensures Valid() && run == []
    {
      rate, run := map[], [];
    }

    method Allow(app: string, now: int, later: int) returns (ok: bool)
      requires Valid()
      modifies this
      ensures Valid() && run == old(run) + [Request(app, now, later)]
      ensures ok <==> Passes(Window(old(run), app), HOUR, RATE_PER_HOUR, Call(now, later, true))
    {
      var was := Times(rate, app);
      assert was == Window(run, app);
      var ts := Unexpired(was, now - HOUR);
      ok := |ts| < RATE_PER_HOUR;
      if ok {
        ts := ts + [later];
      }
      SeparateStays(rate, run, Request(app, now, later), ts);
      rate := rate[app := ts];
      run := run + [Request(app, now, later)];
    }
  }

  method Unexpired(was: seq<int>, cut: int) returns (ts: seq<int>)
    ensures ts == Kept(was, cut)
  {
    ts := [];
    for i := 0 to |was|
      invariant ts == Kept(was[..i], cut)
    {
      assert was[..i + 1][..i] == was[..i];
      if was[i] > cut {
        ts := ts + [was[i]];
      }
    }
    assert was[..|was|] == was;
  }

  lemma NoteRequest(run: seq<Request>, r: Request)
    ensures forall app: string | app != r.app :: Window(run + [r], app) == Window(run, app)
    ensures Window(run + [r], r.app) == Noted(Window(run, r.app), HOUR, RATE_PER_HOUR, Call(r.now, r.later, true))
  {}

  /** The server's clock does not go back, whichever app asks. */
  predicate ServerClocked(run: seq<Request>) {
    run != [] ==>
      var n := |run| - 1;
      && run[n].now <= run[n].later && ServerClocked(run[..n])
      && (n > 0 ==> run[n - 1].later <= run[n].now)
  }

  lemma {:induction false} AppClocked(run: seq<Request>, app: string, now: int)
    requires ServerClocked(run) && (run != [] ==> run[|run| - 1].later <= now)
    ensures Clocked(Of(run, app)) && Before(Of(run, app), now)
  {
    if run != [] {
      var n := |run| - 1;
      AppClocked(run[..n], app, run[n].now);
      OneMore(HOUR, RATE_PER_HOUR, Of(run[..n], app), Call(run[n].now, run[n].later, true));
    }
  }

  /** Accepted requests of one app, the 31st from any is at least an hour later. */
  lemma ThirtyAnHour(run: seq<Request>, app: string, i: nat)
    requires ServerClocked(run) && i + 30 < |Counted(HOUR, RATE_PER_HOUR, Of(run, app))|
    ensures var accepted := Counted(HOUR, RATE_PER_HOUR, Of(run, app));
      accepted[i + 30] - accepted[i] >= 60 * 60 * 1_000_000_000
  {
    AppClocked(run, app, if run == [] then 0 else run[|run| - 1].later);
    AtMostMaxInAnyWindow(HOUR, RATE_PER_HOUR, Of(run, app), i);
  }

  /** And a request is turned away only when thirty were accepted in the hour before. */
  lemma TurnedAwayAtThirty(run: seq<Call>, c: Call)
    requires Clocked(run) && Before(run, c.now)
    ensures Passes(After(HOUR, RATE_PER_HOUR, run), HOUR, RATE_PER_HOUR, c)
      <==> |Kept(Counted(HOUR, RATE_PER_HOUR, run), c.now - 3_600_000_000_000)| < 30
  {
    PassesIff(HOUR, RATE_PER_HOUR, run, c);
  }

  /** Of wrong guesses that were compared, the sixth from any is at least ten minutes later; and the door is locked
      exactly when five were in the ten minutes before. */
  lemma FiveInTenMinutes(run: seq<Call>, i: nat, c: Call)
    requires Clocked(run) && Before(run, c.now) && i + 5 < |Counted(GUESS_WINDOW, GUESS_MAX, run)|
    ensures var wrong := Counted(GUESS_WINDOW, GUESS_MAX, run); wrong[i + 5] - wrong[i] >= 10 * 60 * 1_000_000_000
    ensures Passes(After(GUESS_WINDOW, GUESS_MAX, run), GUESS_WINDOW, GUESS_MAX, c)
      <==> |Kept(Counted(GUESS_WINDOW, GUESS_MAX, run), c.now - 600_000_000_000)| < 5
  {
    AtMostMaxInAnyWindow(GUESS_WINDOW, GUESS_MAX, run, i);
    PassesIff(GUESS_WINDOW, GUESS_MAX, run, c);
  }

  /** What compaction keeps: each time after the cut, as often as it was there. */
  lemma {:induction false} KeptAre(ts: seq<int>, cut: int, t: int)
    ensures multiset(Kept(ts, cut))[t] == if t > cut then multiset(ts)[t] else 0
  {
    if ts != [] {
      var n := |ts| - 1;
      KeptAre(ts[..n], cut, t);
      assert ts == ts[..n] + [ts[n]];
    }
  }
}
