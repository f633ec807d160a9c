/** One replica and one device whose token is rotated, here or elsewhere: which token the device's tunnel can be left
    with.  The cached document can step back, agents are let in by it, and after a refresh that changed it the
    tunnels are tested against what it says by then. */
module Tokens {
  import opened Options

  /** `log` is the device's token in every version of the document, "" where there is no such device; `cache` is the
      version cached here.  `slipped` is history: the tunnel held was registered with a token that was not the cached
      one, or one of this replica's own writes has put another token into the cache. */
  datatype State = State(
    log: seq<string>,
    cache: nat,
    gets: multiset<nat>,        // documents read and not installed yet
    owed: nat,                  // refreshes that changed the cache and have not listed the devices yet
    listed: multiset<nat>,      // listings not held against the tunnel yet
    joining: multiset<string>,  // agents let in with this token, not registered yet
    held: Option<string>,       // the token of the registered tunnel
    doomed: nat,                // drops decided on, not done yet
    slipped: bool)

  datatype Step =
    | Commit(token: string)     // any replica stores the next version
    | OwnWrite(v: nat)          // a write of this replica caches its version, without a callback
    | OwnRotation(v: nat)       // so does a rotation, which then drops the tunnel
    | Read
    | Install(v: nat)
    | ListDevices
    | Test(v: nat)
    | Drop
    | Cut                       // the tunnel ends, or another replica has it dropped
    | Join
    | Register(token: string)

  predicate Enabled(s: State, st: Step) {
    match st
    case Commit(_) => true
    case OwnWrite(v) => v < |s.log|
    case OwnRotation(v) => v < |s.log|
    case Read => true
    case Install(v) => v in s.gets
    case ListDevices => s.owed > 0
    case Test(v) => v in s.listed && v < |s.log|
    case Drop => s.doomed > 0
    case Cut => true
    case Join => s.cache < |s.log| && s.log[s.cache] != ""
    case Register(token) => token in s.joining
  }

  /** The document of that version does not have this token. */
  predicate Differs(log: seq<string>, v: nat, token: string) {
    v < |log| && log[v] != token
  }

  predicate Stale(s: State, v: nat) {
    s.held.Some? && Differs(s.log, v, s.held.value)
  }

  function Next(s: State, st: Step): State
    requires Enabled(s, st)
  {
    match st
    case Commit(token) => s.(log := s.log + [token])
    case OwnWrite(v) => s.(cache := v, slipped := s.slipped || Stale(s, v))
    case OwnRotation(v) => s.(cache := v, doomed := s.doomed + 1)
    case Read => s.(gets := if s.log == [] then s.gets else s.gets + multiset{|s.log| - 1})
    case Install(v) =>
      if v == s.cache then s.(gets := s.gets - multiset{v}) else s.(gets := s.gets - multiset{v}, cache := v, owed := s.owed + 1)
    case ListDevices => s.(owed := s.owed - 1, listed := s.listed + multiset{s.cache})
    case Test(v) => s.(listed := s.listed - multiset{v}, doomed := if Stale(s, v) then s.doomed + 1 else s.doomed)
    case Drop => s.(held := None, doomed := s.doomed - 1)
    case Cut => s.(held := None)
    case Join => s.(joining := s.joining + multiset{s.log[s.cache]})
    case Register(token) =>
      s.(joining := s.joining - multiset{token}, held := Some(token), slipped := Differs(s.log, s.cache, token))
  }

  function Init(token: string): State {
    State([token], 0, multiset{}, 0, multiset{}, multiset{}, None, 0, false)
  }

  predicate ValidRun(s: State, run: seq<Step>)
    decreases run
  {
    run == [] || (Enabled(s, run[0]) && ValidRun(Next(s, run[0]), run[1..]))
  }

  function Final(s: State, run: seq<Step>): State
    requires ValidRun(s, run)
    decreases run
  {
    if run == [] then s else Final(Next(s, run[0]), run[1..])
  }

  // ---- an old token does not go unnoticed ----

  /** A tunnel whose token is not the cached one has slipped, or will be looked at. */
  ghost predicate Noticed(s: State) {
    Stale(s, s.cache) ==> s.slipped || s.owed > 0 || s.doomed > 0 || exists v :: v in s.listed && Stale(s, v)
  }

  ghost predicate Inv(s: State) {
    && s.cache < |s.log| && (forall v :: v in s.gets || v in s.listed ==> v < |s.log|)
    && Noticed(s)
  }

  lemma StepKeeps(s: State, st: Step)
    requires Inv(s) && Enabled(s, st)
    ensures Inv(Next(s, st))
  {
    var t := Next(s, st);
    if st.ListDevices? && Stale(s, s.cache) {
      assert s.cache in t.listed && Stale(t, s.cache);
    } else if Stale(s, s.cache) && !s.slipped && s.owed == 0 && s.doomed == 0 {
      var v :| v in s.listed && Stale(s, v);
      assert t.held == s.held && st != Test(v) ==> v in t.listed && Stale(t, v);
    }
  }

  lemma {:induction false} RunKeeps(s: State, run: seq<Step>)
    requires Inv(s) && ValidRun(s, run)
    ensures Inv(Final(s, run))
    decreases run
  {
    if run == [] {
    } else {
      StepKeeps(s, run[0]);
      RunKeeps(Next(s, run[0]), run[1..]);
    }
  }

  /** The cache is current, and nothing that a refresh or a rotation set off is still to be done. */
  predicate AtRest(s: State) {
    s.cache + 1 == |s.log| && s.owed == 0 && s.listed == multiset{} && s.doomed == 0
  }

  /** Whatever is rotated, and however the cache has moved back and forth: at rest the tunnel has the current token,
      unless it has slipped. */
  lemma OldTokenOnlySlips(token: string, run: seq<Step>)
    requires ValidRun(Init(token), run) && AtRest(Final(Init(token), run))
    ensures var s := Final(Init(token), run);
      s.held.Some? && s.held.value != s.log[|s.log| - 1] ==> s.slipped
  {
    RunKeeps(Init(token), run);
  }

  /** What a replica could see under its locks: it registers only tunnels with the token cached by then, and none of
      its own writes caches a token that its tunnel does not have, but for rotations. */
  predicate Careful(s: State, run: seq<Step>)
    requires ValidRun(s, run)
    decreases run
  {
    run == [] ||
    ((run[0].Register? ==> !Differs(s.log, s.cache, run[0].token)) && (run[0].OwnWrite? ==> !Stale(s, run[0].v))
     && Careful(Next(s, run[0]), run[1..]))
  }

  lemma {:induction false} CarefulNeverSlips(s: State, run: seq<Step>)
    requires ValidRun(s, run) && Careful(s, run) && !s.slipped
    ensures !Final(s, run).slipped
    decreases run
  {
    if run == [] {
    } else {
      CarefulNeverSlips(Next(s, run[0]), run[1..]);
    }
  }

  lemma CarefulEndsCurrent(token: string, run: seq<Step>)
    requires ValidRun(Init(token), run) && Careful(Init(token), run) && AtRest(Final(Init(token), run))
    ensures var s := Final(Init(token), run); s.held.Some? ==> s.held.value == s.log[|s.log| - 1]
  {
    CarefulNeverSlips(Init(token), run);
    OldTokenOnlySlips(token, run);
  }

  // ---- two ways to slip ----

  lemma Prepend(s: State, st: Step, rest: seq<Step>) returns (run: seq<Step>)
    requires Enabled(s, st) && ValidRun(Next(s, st), rest)
    ensures ValidRun(s, run) && Final(s, run) == Final(Next(s, st), rest)
  {
    run := [st] + rest;
    assert run[1..] == rest;
  }

  ghost predicate LeftWithOld(s: State) {
    AtRest(s) && s.gets == multiset{} && s.joining == multiset{} && s.held == Some("old") && s.log[|s.log| - 1] == "new"
  }

  /** With no tunnel held, a refresh that changes the cache comes and goes with its test. */
  lemma RefreshPasses(s: State, v: nat) returns (run: seq<Step>)
    requires v in s.gets && v != s.cache && v < |s.log| && s.owed == 0 && s.listed == multiset{} && s.held.None?
    ensures ValidRun(s, run) && Final(s, run) == s.(gets := s.gets - multiset{v}, cache := v)
  {
    var s1 := Next(s, Install(v));
    var s2 := Next(s1, ListDevices);
    var s3 := Next(s2, Test(v));
    assert s2.listed == multiset{v} && s3.listed == multiset{};
    run := Prepend(s2, Test(v), []);
    run := Prepend(s1, ListDevices, run);
    run := Prepend(s, Install(v), run);
  }

  lemma {:induction false} Concat(s: State, a: seq<Step>, b: seq<Step>)
    requires ValidRun(s, a) && ValidRun(Final(s, a), b)
    ensures ValidRun(s, a + b) && Final(s, a + b) == Final(Final(s, a), b)
    decreases a
  {
    if a == [] {
      assert a + b == b;
    } else {
      assert (a + b)[0] == a[0] && (a + b)[1..] == a[1..] + b;
      Concat(Next(s, a[0]), a[1..], b);
    }
  }

  /** An agent is let in with the old token, which is then rotated elsewhere; the refresh and its test come and go
      before the tunnel is registered. */
  lemma LateRegistrationSlips() returns (run: seq<Step>)
    ensures ValidRun(Init("old"), run) && LeftWithOld(Final(Init("old"), run))
  {
    var s0 := Init("old");
    var s1 := Next(s0, Join);
    var s2 := Next(s1, Commit("new"));
    assert s2.log == ["old", "new"] && s2.joining == multiset{"old"};
    var s3 := Next(s2, Read);
    assert s3.gets == multiset{1};
    var refresh := RefreshPasses(s3, 1);
    var s4 := Final(s3, refresh);
    assert s4 == s2.(cache := 1);
    run := Prepend(s4, Register("old"), []);
    Concat(s3, refresh, run);
    run := Prepend(s2, Read, refresh + run);
    run := Prepend(s1, Commit("new"), run);
    run := Prepend(s0, Join, run);
  }

  /** With the old document cached once more, its test passed. */
  lemma OldLetIn(s: State) returns (run: seq<Step>)
    requires s == State(["old", "new"], 0, multiset{}, 0, multiset{}, multiset{}, None, 0, false)
    ensures ValidRun(s, run) && LeftWithOld(Final(s, run))
  {
    var s1 := Next(s, Join);
    assert s1.joining == multiset{"old"};
    var s2 := Next(s1, Register("old"));
    assert s2 == s.(held := Some("old"));
    var s3 := Next(s2, Commit("new"));
    assert s3.log == ["old", "new", "new"];
    var s4 := Next(s3, OwnWrite(2));
    assert s4 == State(["old", "new", "new"], 2, multiset{}, 0, multiset{}, multiset{}, Some("old"), 0, true);
    run := Prepend(s3, OwnWrite(2), []);
    run := Prepend(s2, Commit("new"), run);
    run := Prepend(s1, Register("old"), run);
    run := Prepend(s, Join, run);
  }

  /** The new token is cached, and a write begun on that document; a late refresh puts the old document back, its test
      passes, and the old token is let in.  Then the write succeeds and caches the new token again, and nobody looks. */
  lemma OwnWriteSlips() returns (run: seq<Step>)
    ensures ValidRun(Init("old"), run) && LeftWithOld(Final(Init("old"), run))
  {
    var s0 := Init("old");
    var s1 := Next(s0, Read);
    var s2 := Next(s1, Commit("new"));
    var s3 := Next(s2, Read);
    assert s3 == State(["old", "new"], 0, multiset{0, 1}, 0, multiset{}, multiset{}, None, 0, false);
    run := StepsBack(s3);
    run := Prepend(s2, Read, run);
    run := Prepend(s1, Commit("new"), run);
    run := Prepend(s0, Read, run);
  }

  lemma StepsBack(s: State) returns (run: seq<Step>)
    requires s == State(["old", "new"], 0, multiset{0, 1}, 0, multiset{}, multiset{}, None, 0, false)
    ensures ValidRun(s, run) && LeftWithOld(Final(s, run))
  {
    var forth := RefreshPasses(s, 1);
    var s1 := Final(s, forth);
    var back := RefreshPasses(s1, 0);
    var s2 := Final(s1, back);
    assert s2 == s.(gets := multiset{});
    run := OldLetIn(s2);
    Concat(s1, back, run);
    Concat(s, forth, back + run);
    run := forth + (back + run);
  }

  // ---- what the steps look at ----

  /** Agents are let in with the cached token; a test dooms the tunnel exactly when the listing has another token, or no
      such device; and only a refresh that changes the cache leads to a test. */
  lemma StepsLookAt(s: State, v: nat, token: string)
    requires Inv(s)
    ensures Enabled(s, Join) ==> s.log[s.cache] != "" && Next(s, Join).joining == s.joining + multiset{s.log[s.cache]}
    ensures Enabled(s, Test(v)) ==>
      (Next(s, Test(v)).doomed == s.doomed + 1 <==> s.held.Some? && s.log[v] != s.held.value)
      && Next(s, Test(v)).held == s.held
    ensures Enabled(s, Install(v)) ==>
      Next(s, Install(v)).cache == v && (Next(s, Install(v)).owed == s.owed + 1 <==> v != s.cache)
    ensures Enabled(s, Register(token)) ==> Next(s, Register(token)).held == Some(token)
    ensures Enabled(s, Drop) ==> Next(s, Drop).held.None?
  {}
}
