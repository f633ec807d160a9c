/** The token bucket in front of the hook handlers, over real time and real tokens.
    Times are first measured in tokens: what the refill would have added by then. */
module Bucket {
  datatype Level = Level(tokens: real, last: real)

  /** Tokens at a call: what time has added, up to the capacity. */
  function Refilled(cap: real, l: Level, now: real): real {
    var t := l.tokens + (now - l.last);
    if t > cap then cap else t
  }

  function Taken(cap: real, l: Level, now: real, granted: bool): Level {
    Level(Refilled(cap, l, now) - (if granted then 1.0 else 0.0), now)
  }

  ghost predicate NonDecreasing(ts: seq<real>) {
    forall i, j :: 0 <= i <= j < |ts| ==> ts[i] <= ts[j]
  }

  /** The level after calls at the given times of which the selected ones took a token, from a full bucket
      made no later than the first call. */
  function LevelAfter(cap: real, born: real, ts: seq<real>, sel: seq<bool>): Level
    requires |ts| == |sel|
  {
    if ts == [] then Level(cap, born)
    else
      var n := |ts| - 1;
      Taken(cap, LevelAfter(cap, born, ts[..n], sel[..n]), ts[n], sel[n])
  }

  /** What the bucket grants: each call that finds a whole token. */
  function Grants(cap: real, born: real, ts: seq<real>): (g: seq<bool>)
    ensures |g| == |ts|
  {
    if ts == [] then []
    else
      var n := |ts| - 1;
      var g := Grants(cap, born, ts[..n]);
      g + [Refilled(cap, LevelAfter(cap, born, ts[..n], g), ts[n]) >= 1.0]
  }

  function Count(sel: seq<bool>): (n: nat)
    ensures n <= |sel|
  {
    if sel == [] then 0 else Count(sel[..|sel| - 1]) + if sel[|sel| - 1] then 1 else 0
  }

  /** In the window from call i to call j - 1, both included. */
  predicate WindowOk(cap: real, ts: seq<real>, sel: seq<bool>, i: nat, j: nat)
    requires i < j <= |ts| == |sel|
  {
    Count(sel[i..j]) as real <= cap + (ts[j - 1] - ts[i])
  }

  ghost predicate WithinBound(cap: real, ts: seq<real>, sel: seq<bool>)
    requires |ts| == |sel|
  {
    forall i, j :: 0 <= i < j <= |ts| ==> WindowOk(cap, ts, sel, i, j)
  }

  ghost predicate Setting(cap: real, born: real, ts: seq<real>) {
    cap >= 0.0 && NonDecreasing(ts) && (ts != [] ==> born <= ts[0])
  }

  lemma SettingBefore(cap: real, born: real, ts: seq<real>)
    requires Setting(cap, born, ts) && ts != []
    ensures Setting(cap, born, ts[..|ts| - 1])
    ensures forall sel: seq<bool> :: |sel| == |ts| - 1 ==>
      LevelAfter(cap, born, ts[..|ts| - 1], sel).last <= ts[|ts| - 1]
  {}

  /** Tokens stay between nothing and the capacity. */
  lemma {:induction false} TokensBounded(cap: real, born: real, ts: seq<real>)
    requires Setting(cap, born, ts)
    ensures 0.0 <= LevelAfter(cap, born, ts, Grants(cap, born, ts)).tokens <= cap
  {
    if ts != [] {
      var n := |ts| - 1;
      SettingBefore(cap, born, ts);
      TokensBounded(cap, born, ts[..n]);
      var g := Grants(cap, born, ts[..n]);
      assert Grants(cap, born, ts)[..n] == g;
    }
  }

  /** A window's tokens can only come from a full bucket and from the time that passed in it. */
  lemma {:induction false} LevelFalls(cap: real, born: real, ts: seq<real>, sel: seq<bool>, i: nat)
    requires Setting(cap, born, ts) && i < |ts| == |sel|
    ensures LevelAfter(cap, born, ts, sel).tokens <=
      cap + (ts[|ts| - 1] - ts[i]) - Count(sel[i..]) as real
  {
    var n := |ts| - 1;
    SettingBefore(cap, born, ts);
    assert sel[i..][..n - i] == sel[..n][i..];
    if i < n {
      LevelFalls(cap, born, ts[..n], sel[..n], i);
    } else {
      assert sel[i..] == [sel[n]];
    }
  }

  /** In any window at most the burst and what the rate allows is granted. */
  lemma {:induction false} GrantsWithinBound(cap: real, born: real, ts: seq<real>)
    requires Setting(cap, born, ts)
    ensures WithinBound(cap, ts, Grants(cap, born, ts))
  {
    var g := Grants(cap, born, ts);
    forall i, j | 0 <= i < j <= |ts| ensures WindowOk(cap, ts, g, i, j) {
      GrantsPrefix(cap, born, ts, j);
      TokensBounded(cap, born, ts[..j]);
      LevelFalls(cap, born, ts[..j], g[..j], i);
      assert g[..j][i..] == g[i..j];
    }
  }

  lemma {:induction false} GrantsPrefix(cap: real, born: real, ts: seq<real>, k: nat)
    requires k <= |ts|
    ensures Grants(cap, born, ts[..k]) == Grants(cap, born, ts)[..k]
  {
    if k < |ts| {
      var n := |ts| - 1;
      GrantsPrefix(cap, born, ts[..n], k);
      assert ts[..n][..k] == ts[..k];
      assert Grants(cap, born, ts)[..n] == Grants(cap, born, ts[..n]);
    } else {
      assert ts[..k] == ts;
    }
  }

  // ---- no other rule within the bound grants more ----

  /** The level any selection would leave is exactly what some window leaves of the bound. */
  lemma {:induction false} LevelIsAWindow(cap: real, born: real, ts: seq<real>, sel: seq<bool>) returns (i: nat)
    requires Setting(cap, born, ts) && 0 < |ts| == |sel|
    ensures i < |ts|
    ensures LevelAfter(cap, born, ts, sel).tokens ==
      cap + (ts[|ts| - 1] - ts[i]) - Count(sel[i..]) as real
  {
    var n := |ts| - 1;
    SettingBefore(cap, born, ts);
    var l := LevelAfter(cap, born, ts[..n], sel[..n]);
    if n == 0 || l.tokens + (ts[n] - l.last) > cap {
      i := n;
      assert sel[i..] == [sel[n]];
    } else {
      i := LevelIsAWindow(cap, born, ts[..n], sel[..n]);
      assert sel[i..][..n - i] == sel[..n][i..];
    }
  }

  lemma WithinPrefix(cap: real, ts: seq<real>, sel: seq<bool>, k: nat)
    requires |ts| == |sel| && k <= |ts| && WithinBound(cap, ts, sel)
    ensures WithinBound(cap, ts[..k], sel[..k])
  {
    forall i, j | 0 <= i < j <= k ensures WindowOk(cap, ts[..k], sel[..k], i, j) {
      assert sel[..k][i..j] == sel[i..j];
      assert WindowOk(cap, ts, sel, i, j);
    }
  }

  lemma LevelStaysUp(cap: real, born: real, ts: seq<real>, sel: seq<bool>)
    requires Setting(cap, born, ts) && |ts| == |sel| && WithinBound(cap, ts, sel)
    ensures LevelAfter(cap, born, ts, sel).tokens >= 0.0
  {
    if ts != [] {
      var i := LevelIsAWindow(cap, born, ts, sel);
      assert sel[i..] == sel[i..|ts|];
      assert WindowOk(cap, ts, sel, i, |ts|);
    }
  }

  /** The bucket is never behind: what it has granted more makes up for the tokens it has less. */
  lemma {:induction false} GreedyAhead(cap: real, born: real, ts: seq<real>, sel: seq<bool>)
    requires Setting(cap, born, ts) && |ts| == |sel| && WithinBound(cap, ts, sel)
    ensures var g := Grants(cap, born, ts);
      && Count(sel) <= Count(g)
      && LevelAfter(cap, born, ts, g).tokens + (Count(g) - Count(sel)) as real
           >= LevelAfter(cap, born, ts, sel).tokens
  {
    if ts != [] {
      var n := |ts| - 1;
      SettingBefore(cap, born, ts);
      WithinPrefix(cap, ts, sel, n);
      GreedyAhead(cap, born, ts[..n], sel[..n]);
      LevelStaysUp(cap, born, ts, sel);
      var g := Grants(cap, born, ts);
      assert g[..n] == Grants(cap, born, ts[..n]);
      LastOf(cap, born, ts, g[..n]);
      LastOf(cap, born, ts, sel[..n]);
    }
  }

  lemma LastOf(cap: real, born: real, ts: seq<real>, sel: seq<bool>)
    requires ts != [] && |sel| == |ts| - 1
    ensures LevelAfter(cap, born, ts[..|ts| - 1], sel).last == if |ts| == 1 then born else ts[|ts| - 2]
  {}

  /** No other choice among the same calls that meets the bound has granted more at any point. */
  lemma {:induction false} NoneGrantsMore(cap: real, born: real, ts: seq<real>, sel: seq<bool>, k: nat)
    requires Setting(cap, born, ts) && |ts| == |sel| && WithinBound(cap, ts, sel) && k <= |ts|
    ensures Count(sel[..k]) <= Count(Grants(cap, born, ts)[..k])
  {
    WithinPrefix(cap, ts, sel, k);
    GreedyAhead(cap, born, ts[..k], sel[..k]);
    GrantsPrefix(cap, born, ts, k);
  }

  // ---- in seconds ----

  /** The times in tokens. */
  function Earned(refill: real, ts: seq<real>): (e: seq<real>)
    ensures |e| == |ts| && forall i :: 0 <= i < |ts| ==> e[i] == refill * ts[i]
  {
    seq(|ts|, i requires 0 <= i < |ts| => refill * ts[i])
  }

  lemma Scale(refill: real, a: real, b: real)
    requires refill >= 0.0
    ensures refill * a - refill * b == refill * (a - b)
    ensures a <= b ==> refill * a <= refill * b
  {}

  lemma EarnedSetting(cap: real, refill: real, born: real, ts: seq<real>)
    requires Setting(cap, born, ts) && refill >= 0.0
    ensures Setting(cap, refill * born, Earned(refill, ts))
  {}

  /** What a bucket of this capacity and refill grants of calls at these times. */
  function Allowed(cap: real, refill: real, born: real, ts: seq<real>): seq<bool> {
    Grants(cap, refill * born, Earned(refill, ts))
  }

  predicate RateOk(cap: real, refill: real, ts: seq<real>, sel: seq<bool>, i: nat, j: nat)
    requires i < j <= |ts| == |sel|
  {
    Count(sel[i..j]) as real <= cap + refill * (ts[j - 1] - ts[i])
  }

  /** In every window at most the capacity and the refill's share of its length. */
  ghost predicate MeetsRate(cap: real, refill: real, ts: seq<real>, sel: seq<bool>) {
    |sel| == |ts| && forall i, j :: 0 <= i < j <= |ts| ==> RateOk(cap, refill, ts, sel, i, j)
  }

  lemma MeetsIsWithin(cap: real, refill: real, ts: seq<real>, sel: seq<bool>)
    requires |sel| == |ts| && refill >= 0.0
    ensures MeetsRate(cap, refill, ts, sel) <==> WithinBound(cap, Earned(refill, ts), sel)
  {
    var e := Earned(refill, ts);
    forall i, j | 0 <= i < j <= |ts| ensures RateOk(cap, refill, ts, sel, i, j) <==> WindowOk(cap, e, sel, i, j) {
      Scale(refill, ts[j - 1], ts[i]);
    }
  }

  /** The bucket keeps to its rate, and of all choices that do none is ever ahead of it. */
  lemma AllowedIsBest(cap: real, refill: real, born: real, ts: seq<real>, sel: seq<bool>, k: nat)
    requires Setting(cap, born, ts) && refill >= 0.0 && k <= |ts|
    ensures |Allowed(cap, refill, born, ts)| == |ts| && MeetsRate(cap, refill, ts, Allowed(cap, refill, born, ts))
    ensures MeetsRate(cap, refill, ts, sel) ==> Count(sel[..k]) <= Count(Allowed(cap, refill, born, ts)[..k])
  {
    var e := Earned(refill, ts);
    EarnedSetting(cap, refill, born, ts);
    GrantsWithinBound(cap, refill * born, e);
    MeetsIsWithin(cap, refill, ts, Allowed(cap, refill, born, ts));
    if MeetsRate(cap, refill, ts, sel) {
      MeetsIsWithin(cap, refill, ts, sel);
      NoneGrantsMore(cap, refill * born, e, sel, k);
    }
  }

  /** The tokens after the calls so far. */
  function TokensAfter(cap: real, refill: real, born: real, ts: seq<real>): real {
    LevelAfter(cap, refill * born, Earned(refill, ts), Allowed(cap, refill, born, ts)).tokens
  }

  function LastTime(born: real, ts: seq<real>): real {
    if ts == [] then born else ts[|ts| - 1]
  }

  function Credited(cap: real, refill: real, tokens: real, elapsed: real): real {
    var t := tokens + elapsed * refill;
    if t > cap then cap else t
  }

  lemma EarnedMore(refill: real, born: real, ts: seq<real>, now: real)
    ensures Earned(refill, ts + [now]) == Earned(refill, ts) + [refill * now]
    ensures LastTime(refill * born, Earned(refill, ts)) == refill * LastTime(born, ts)
  {
    var e, e1 := Earned(refill, ts), Earned(refill, ts + [now]);
    forall i | 0 <= i < |ts| ensures e1[i] == e[i] {
      assert (ts + [now])[i] == ts[i];
    }
    assert (ts + [now])[|ts|] == now;
    assert e1[|ts|] == refill * now;
    assert e1 == e + [refill * now];
  }

  lemma CreditedIsRefilled(cap: real, refill: real, tokens: real, last: real, now: real)
    requires refill >= 0.0
    ensures Refilled(cap, Level(tokens, refill * last), refill * now) == Credited(cap, refill, tokens, now - last)
  {}

  lemma GrantsOneMore(cap: real, born: real, e: seq<real>, t: real)
    ensures var g := Grants(cap, born, e);
      var l := LevelAfter(cap, born, e, g);
      var full := Refilled(cap, l, t);
      && l.last == LastTime(born, e)
      && Grants(cap, born, e + [t]) == g + [full >= 1.0]
      && LevelAfter(cap, born, e + [t], Grants(cap, born, e + [t])) == Taken(cap, l, t, full >= 1.0)
  {}

  lemma SettingMore(cap: real, born: real, ts: seq<real>, now: real)
    requires Setting(cap, born, ts) && LastTime(born, ts) <= now
    ensures Setting(cap, born, ts + [now])
  {}

  /** One more call, in seconds. */
  lemma OneMore(cap: real, refill: real, born: real, ts: seq<real>, now: real)
    requires Setting(cap, born, ts) && refill >= 0.0 && LastTime(born, ts) <= now
    ensures Setting(cap, born, ts + [now])
    ensures var full := Credited(cap, refill, TokensAfter(cap, refill, born, ts), now - LastTime(born, ts));
      && Allowed(cap, refill, born, ts + [now]) == Allowed(cap, refill, born, ts) + [full >= 1.0]
      && TokensAfter(cap, refill, born, ts + [now]) == full - (if full >= 1.0 then 1.0 else 0.0)
  {
    var e := Earned(refill, ts);
    EarnedMore(refill, born, ts, now);
    SettingMore(cap, born, ts, now);
    GrantsOneMore(cap, refill * born, e, refill * now);
    CreditedIsRefilled(cap, refill, TokensAfter(cap, refill, born, ts), LastTime(born, ts), now);
  }

  lemma TokensInRange(cap: real, refill: real, born: real, ts: seq<real>)
    requires Setting(cap, born, ts) && refill >= 0.0
    ensures 0.0 <= TokensAfter(cap, refill, born, ts) <= cap
  {
    EarnedSetting(cap, refill, born, ts);
    TokensBounded(cap, refill * born, Earned(refill, ts));
  }

  class TokenBucket {
    var tokens: real
    const capacity: real
    const refill: real
    var last: real
    ghost const born: real
    ghost var calls: seq<real>

    /** The bucket holds what the calls so far leave of it. */
    ghost predicate Valid() reads this {
      && Setting(capacity, born, calls) && refill >= 0.0
      && tokens == TokensAfter(capacity, refill, born, calls) && last == LastTime(born, calls)
    }

    constructor (qps: nat, burst: nat, now: real)
      ensures Valid() && calls == [] && last == now
      ensures capacity == burst as real && refill == qps as real && born == now
    {
      tokens, capacity := burst as real, burst as real;
      refill, last := qps as real, now;
      born, calls := now, [];
    }

    method Allow(now: real) returns (ok: bool)
      requires Valid() && now >= last
      modifies this
      ensures Valid() && calls == old(calls) + [now]
      ensures Allowed(capacity, refill, born, calls) == Allowed(capacity, refill, born, old(calls)) + [ok]
      ensures 0.0 <= tokens <= capacity
    {
      OneMore(capacity, refill, born, calls, now);
      Refill(now);
      ok := tokens >= 1.0;
      if ok {
        tokens := tokens - 1.0;
      }
      calls := calls + [now];
      TokensInRange(capacity, refill, born, calls);
    }

    method Refill(now: real)
      modifies this`tokens, this`last
      ensures tokens == Credited(capacity, refill, old(tokens), now - old(last)) && last == now
    {
      var elapsed := now - last;
      last := now;
      tokens := tokens + elapsed * refill;
      if tokens > capacity {
        tokens := capacity;
      }
    }
  }
}
