/** Optimistic writes to one shared, versioned document by many replicas.

    A replica keeps a cached copy of the document and the version it was read at.
    A write clones the cache, runs a callback on the clone and asks the API server to
    store the result, provided the document still has that version; on a conflict it
    reads again and retries, nine times at most.  Every replica can have any number of
    such calls and background reads at work; a PUT can be stored although its reply is
    lost, even long after its call has given up.

    The module is generic: documents, callbacks and the random or clock input of one
    callback run are type parameters, and `ap` says what a callback does. */
module Optimistic {
  import opened Options

  /** What a callback makes of a document. */
  datatype Outcome<+D> =
    | NoChange(ret: string)       // nothing to write
    | Refuse(err: string)         // an error of the callback's own
    | Write(doc: D, ret: string)  // the edited clone

  type Callback<-O, !D, -R> = (O, D, R) -> Outcome<D>

  /** A document with the version it was read at; version 0 stands for "the Secret does not exist". */
  datatype Snap<+D> = Snap(doc: D, rv: nat)

  /** How a call ended.  `at` and `rnd` are history: the version the answer rests on,
      and the input of the callback run that gave it. */
  datatype Reply<+R> =
    | Wrote(ret: string, at: nat)
    | Kept(ret: string, at: nat, rnd: R)
    | Refused(err: string, at: nat, rnd: R)
    | Conflict   // nine attempts lost
    | Broken     // some request failed, or its reply was lost

  /** A PUT the API server has not decided yet. */
  datatype Put<+D, +R> = Put(doc: D, rv: nat, rnd: R, ret: string)

  datatype Phase<+D, +R> =
    | Ready                                // about to clone the cache
    | Waiting                              // for the reply to its PUT
    | Accepted(snap: Snap<D>, ret: string) // reply received, cache not yet updated
    | Refetch                              // PUT refused, about to read again
    | Fetched(snap: Snap<D>)               // read answered, cache not yet updated
    | Done(reply: Reply<R>)

  /** `began` and `fetched` are history: how many commits there were when the call began,
      and when its last read was answered. */
  datatype Call<+O, +D, +R> =
    Call(rep: nat, op: O, attempt: nat, phase: Phase<D, R>, put: Option<Put<D, R>>, began: nat, fetched: nat)

  datatype Commit<+O, +R> = Commit(call: nat, op: O, rnd: R, ret: string)
  datatype Read<+D> = Read(rep: nat, snap: Snap<D>)

  /** `log` holds every document ever stored, oldest first; its length is the current version.
      `hist` is history: which call stored each, with which input. */
  datatype State<O, D, R> = State(
    empty: D,
    log: seq<D>,
    hist: seq<Commit<O, R>>,
    cache: map<nat, Snap<D>>,
    calls: map<nat, Call<O, D, R>>,
    gets: map<nat, Read<D>>)

  /** One atomic step of the system; c names a call, x a background read. */
  datatype Step<+O, +R> =
    | Begin(c: nat, rep: nat, op: O)
    | Compute(c: nat, rnd: R)     // clone the cache, run the callback
    | Accept(c: nat)              // the API server stores the PUT
    | Reject(c: nat)              // the API server answers "conflict"
    | Lose(c: nat)                // the request or its reply is lost; the PUT may still be decided
    | Install(c: nat)             // the accepted document goes into the cache
    | Fetch(c: nat)
    | FetchFail(c: nat)
    | InstallFetch(c: nat)
    | ReadGet(x: nat, rep: nat)
    | ReadInstall(x: nat)

  const LAST_ATTEMPT := 8

  function Init<O, D, R>(empty: D): State<O, D, R> {
    State(empty, [], [], map[], map[], map[])
  }

  /** The document at a version. */
  function At<D>(empty: D, log: seq<D>, rv: nat): D
    requires rv <= |log|
  {
    if rv == 0 then empty else log[rv - 1]
  }

  function Current<O, D, R>(s: State<O, D, R>): Snap<D> {
    Snap(At(s.empty, s.log, |s.log|), |s.log|)
  }

  function CacheOf<O, D, R>(s: State<O, D, R>, rep: nat): Snap<D> {
    if rep in s.cache then s.cache[rep] else Snap(s.empty, 0)
  }

  /** A refresh replaces the cache when the version differs, whichever is the newer. */
  function Refreshed<D>(cached: Snap<D>, got: Snap<D>): Snap<D> {
    if got.rv != cached.rv then got else cached
  }

  predicate Enabled<O, D, R>(s: State<O, D, R>, st: Step<O, R>) {
    match st
    case Begin(c, _, _) => c !in s.calls
    case Compute(c, _) => c in s.calls && s.calls[c].phase.Ready?
    case Accept(c) => c in s.calls && s.calls[c].put.Some? && s.calls[c].put.value.rv == |s.log|
    case Reject(c) => c in s.calls && s.calls[c].put.Some? && s.calls[c].put.value.rv != |s.log|
    case Lose(c) => c in s.calls && (s.calls[c].phase.Waiting? || s.calls[c].phase.Accepted?)
    case Install(c) => c in s.calls && s.calls[c].phase.Accepted?
    case Fetch(c) => c in s.calls && s.calls[c].phase.Refetch?
    case FetchFail(c) => c in s.calls && s.calls[c].phase.Refetch?
    case InstallFetch(c) => c in s.calls && s.calls[c].phase.Fetched?
    case ReadGet(x, _) => x !in s.gets
    case ReadInstall(x) => x in s.gets
  }

  /** The call after its callback ran on the cached snapshot. */
  function Computed<O, D, R>(ap: Callback<O, D, R>, k: Call<O, D, R>, snap: Snap<D>, rnd: R): Call<O, D, R> {
    match ap(k.op, snap.doc, rnd)
    case NoChange(ret) => k.(phase := Done(Kept(ret, snap.rv, rnd)))
    case Refuse(err) => k.(phase := Done(Refused(err, snap.rv, rnd)))
    case Write(doc, ret) => k.(phase := Waiting, put := Some(Put(doc, snap.rv, rnd, ret)))
  }

  function Next<O, D, R>(ap: Callback<O, D, R>, s: State<O, D, R>, st: Step<O, R>): State<O, D, R>
    requires Enabled(s, st)
  {
    match st
    case Begin(c, rep, op) =>
      s.(calls := s.calls[c := Call(rep, op, 0, Ready, None, |s.log|, 0)])
    case Compute(c, rnd) =>
      s.(calls := s.calls[c := Computed(ap, s.calls[c], CacheOf(s, s.calls[c].rep), rnd)])
    case Accept(c) =>
      var k := s.calls[c];
      var p := k.put.value;
      var phase := if k.phase.Waiting? then Accepted(Snap(p.doc, |s.log| + 1), p.ret) else k.phase;
      s.(log := s.log + [p.doc], hist := s.hist + [Commit(c, k.op, p.rnd, p.ret)],
         calls := s.calls[c := k.(put := None, phase := phase)])
    case Reject(c) =>
      var k := s.calls[c];
      var phase := if !k.phase.Waiting? then k.phase
                   else if k.attempt >= LAST_ATTEMPT then Done(Conflict) else Refetch;
      s.(calls := s.calls[c := k.(put := None, phase := phase)])
    case Lose(c) => s.(calls := s.calls[c := s.calls[c].(phase := Done(Broken))])
    case Install(c) =>
      var k := s.calls[c];
      s.(cache := s.cache[k.rep := k.phase.snap],
         calls := s.calls[c := k.(phase := Done(Wrote(k.phase.ret, k.phase.snap.rv)))])
    case Fetch(c) =>
      s.(calls := s.calls[c := s.calls[c].(phase := Fetched(Current(s)), fetched := |s.log|)])
    case FetchFail(c) => s.(calls := s.calls[c := s.calls[c].(phase := Done(Broken))])
    case InstallFetch(c) =>
      var k := s.calls[c];
      s.(cache := s.cache[k.rep := Refreshed(CacheOf(s, k.rep), k.phase.snap)],
         calls := s.calls[c := k.(phase := Ready, attempt := k.attempt + 1)])
    case ReadGet(x, rep) => s.(gets := s.gets[x := Read(rep, Current(s))])
    case ReadInstall(x) =>
      var r := s.gets[x];
      s.(cache := s.cache[r.rep := Refreshed(CacheOf(s, r.rep), r.snap)], gets := s.gets - {x})
  }

  predicate ValidRun<O, D, R>(ap: Callback<O, D, R>, s: State<O, D, R>, run: seq<Step<O, R>>)
    decreases run
  {
    run == [] || (Enabled(s, run[0]) && ValidRun(ap, Next(ap, s, run[0]), run[1..]))
  }

  function Final<O, D, R>(ap: Callback<O, D, R>, s: State<O, D, R>, run: seq<Step<O, R>>): State<O, D, R>
    requires ValidRun(ap, s, run)
    decreases run
  {
    if run == [] then s else Final(ap, Next(ap, s, run[0]), run[1..])
  }

  lemma {:induction false} Concat<O, D, R>(ap: Callback<O, D, R>, s: State<O, D, R>, a: seq<Step<O, R>>, b: seq<Step<O, R>>)
    requires ValidRun(ap, s, a) && ValidRun(ap, Final(ap, s, a), b)
    ensures ValidRun(ap, s, a + b) && Final(ap, s, a + b) == Final(ap, Final(ap, s, a), b)
    decreases a
  {
    if a == [] {
      assert a + b == b;
    } else {
      Concat(ap, Next(ap, s, a[0]), a[1..], b);
      assert (a + b)[0] == a[0] && (a + b)[1..] == a[1..] + b;
    }
  }

  // ---- what every step keeps ----

  /** Each stored document is the callback that stored it, run on the document before. */
  ghost predicate Serial<O, D, R>(ap: Callback<O, D, R>, empty: D, log: seq<D>, hist: seq<Commit<O, R>>) {
    && |hist| == |log|
    && forall i :: 0 <= i < |hist| ==> ap(hist[i].op, At(empty, log, i), hist[i].rnd) == Write(log[i], hist[i].ret)
  }

  lemma SerialAt<O, D, R>(ap: Callback<O, D, R>, empty: D, log: seq<D>, hist: seq<Commit<O, R>>, rv: nat)
    requires Serial(ap, empty, log, hist) && 0 < rv <= |log|
    ensures ap(hist[rv - 1].op, At(empty, log, rv - 1), hist[rv - 1].rnd) == Write(At(empty, log, rv), hist[rv - 1].ret)
  {}

  /** What every commit keeps, and one version has, all later versions have. */
  lemma {:induction false} Persists<D>(p: D -> bool, empty: D, log: seq<D>, i: nat, j: nat)
    requires i <= j <= |log| && p(At(empty, log, i))
    requires forall n: nat :: n < |log| && p(At(empty, log, n)) ==> p(At(empty, log, n + 1))
    ensures p(At(empty, log, j))
  {
    if i < j {
      Persists(p, empty, log, i, j - 1);
      assert p(At(empty, log, j - 1 + 1));
    }
  }

  ghost predicate OncePerCall<O, R>(hist: seq<Commit<O, R>>) {
    forall i, j :: 0 <= i < j < |hist| ==> hist[i].call != hist[j].call
  }

  ghost predicate Committed<O, R>(hist: seq<Commit<O, R>>, c: nat) {
    exists i :: 0 <= i < |hist| && hist[i].call == c
  }

  ghost predicate SnapOk<D>(empty: D, log: seq<D>, snap: Snap<D>) {
    snap.rv <= |log| && snap.doc == At(empty, log, snap.rv)
  }

  /** Entry i - 1 of the history is call c's, with this answer. */
  ghost predicate StoredBy<O, R>(hist: seq<Commit<O, R>>, c: nat, op: O, ret: string, at: nat) {
    1 <= at <= |hist| && hist[at - 1].call == c && hist[at - 1].op == op && hist[at - 1].ret == ret
  }

  ghost predicate ReplyOk<O, D, R>(ap: Callback<O, D, R>, empty: D, log: seq<D>, hist: seq<Commit<O, R>>,
                                   c: nat, op: O, reply: Reply<R>) {
    match reply
    case Wrote(ret, at) => StoredBy(hist, c, op, ret, at)
    case Kept(ret, at, rnd) =>
      !Committed(hist, c) && at <= |log| && ap(op, At(empty, log, at), rnd) == NoChange(ret)
    case Refused(err, at, rnd) =>
      !Committed(hist, c) && at <= |log| && ap(op, At(empty, log, at), rnd) == Refuse(err)
    case Conflict => !Committed(hist, c)
    case Broken => true
  }

  ghost predicate CallOk<O, D, R>(ap: Callback<O, D, R>, empty: D, log: seq<D>, hist: seq<Commit<O, R>>,
                                  c: nat, k: Call<O, D, R>) {
    && k.attempt <= LAST_ATTEMPT
    && (k.put.Some? ==>
          var p := k.put.value;
          && !Committed(hist, c)
          && (k.phase.Waiting? || k.phase == Done(Broken))
          && p.rv <= |log| && ap(k.op, At(empty, log, p.rv), p.rnd) == Write(p.doc, p.ret))
    && match k.phase
       case Ready => !Committed(hist, c)
       case Waiting => k.put.Some?
       case Accepted(snap, ret) => SnapOk(empty, log, snap) && StoredBy(hist, c, k.op, ret, snap.rv)
       case Refetch => !Committed(hist, c) && k.attempt < LAST_ATTEMPT
       case Fetched(snap) => !Committed(hist, c) && k.attempt < LAST_ATTEMPT && SnapOk(empty, log, snap)
       case Done(reply) => ReplyOk(ap, empty, log, hist, c, k.op, reply)
  }

  ghost predicate CallsOk<O, D, R>(ap: Callback<O, D, R>, empty: D, log: seq<D>, hist: seq<Commit<O, R>>,
                                   calls: map<nat, Call<O, D, R>>) {
    && (forall i :: 0 <= i < |hist| ==> hist[i].call in calls && hist[i].op == calls[hist[i].call].op)
    && (forall c :: c in calls ==> CallOk(ap, empty, log, hist, c, calls[c]))
  }

  ghost predicate SnapsOk<D>(empty: D, log: seq<D>, cache: map<nat, Snap<D>>, gets: map<nat, Read<D>>) {
    && (forall r :: r in cache ==> SnapOk(empty, log, cache[r]))
    && (forall x :: x in gets ==> SnapOk(empty, log, gets[x].snap))
  }

  ghost predicate Inv<O, D, R>(ap: Callback<O, D, R>, s: State<O, D, R>) {
    && Serial(ap, s.empty, s.log, s.hist)
    && OncePerCall(s.hist)
    && CallsOk(ap, s.empty, s.log, s.hist, s.calls)
    && SnapsOk(s.empty, s.log, s.cache, s.gets)
  }

  /** Another call's commit takes nothing from what is known of call c. */
  lemma CommitFrames<O, D, R>(ap: Callback<O, D, R>, empty: D, log: seq<D>, hist: seq<Commit<O, R>>,
                              d: D, e: Commit<O, R>, c: nat, k: Call<O, D, R>)
    requires |hist| == |log| && c != e.call
    requires CallOk(ap, empty, log, hist, c, k)
    ensures CallOk(ap, empty, log + [d], hist + [e], c, k)
  {}

  /** A step that stores nothing and replaces one call keeps the invariant if the new call fits. */
  lemma LocalKeeps<O, D, R>(ap: Callback<O, D, R>, s: State<O, D, R>, c: nat, k: Call<O, D, R>,
                            cache: map<nat, Snap<D>>)
    requires Inv(ap, s) && CallOk(ap, s.empty, s.log, s.hist, c, k)
    requires c in s.calls ==> k.op == s.calls[c].op
    requires SnapsOk(s.empty, s.log, cache, s.gets)
    ensures Inv(ap, s.(calls := s.calls[c := k], cache := cache))
  {}

  lemma AppendKeepsHistory<O, D, R>(ap: Callback<O, D, R>, empty: D, log: seq<D>, hist: seq<Commit<O, R>>,
                                    d: D, e: Commit<O, R>)
    requires Serial(ap, empty, log, hist) && OncePerCall(hist) && !Committed(hist, e.call)
    requires ap(e.op, At(empty, log, |log|), e.rnd) == Write(d, e.ret)
    ensures Serial(ap, empty, log + [d], hist + [e]) && OncePerCall(hist + [e])
  {
    var log', hist' := log + [d], hist + [e];
    forall i | 0 <= i < |hist'|
      ensures ap(hist'[i].op, At(empty, log', i), hist'[i].rnd) == Write(log'[i], hist'[i].ret)
    {
      assert At(empty, log', i) == At(empty, log, i);
    }
  }

  lemma SnapsSurviveAppend<D>(empty: D, log: seq<D>, d: D)
    ensures forall snap :: SnapOk(empty, log, snap) ==> SnapOk(empty, log + [d], snap)
  {}

  /** The call whose PUT is stored: its reply, if it still waits for one, is right. */
  lemma AcceptedOk<O, D, R>(ap: Callback<O, D, R>, empty: D, log: seq<D>, hist: seq<Commit<O, R>>,
                            c: nat, k: Call<O, D, R>, k': Call<O, D, R>)
    requires |hist| == |log| && CallOk(ap, empty, log, hist, c, k) && k.put.Some? && k.put.value.rv == |log|
    requires k' == k.(put := None,
                      phase := if k.phase.Waiting? then Accepted(Snap(k.put.value.doc, |log| + 1), k.put.value.ret)
                               else k.phase)
    ensures CallOk(ap, empty, log + [k.put.value.doc],
                   hist + [Commit(c, k.op, k.put.value.rnd, k.put.value.ret)], c, k')
  {}

  lemma AcceptKeepsCalls<O, D, R>(ap: Callback<O, D, R>, empty: D, log: seq<D>, hist: seq<Commit<O, R>>,
                                  calls: map<nat, Call<O, D, R>>, d: D, e: Commit<O, R>, k: Call<O, D, R>)
    requires |hist| == |log| && CallsOk(ap, empty, log, hist, calls)
    requires CallOk(ap, empty, log + [d], hist + [e], e.call, k)
    requires e.call in calls && e.op == k.op == calls[e.call].op
    ensures CallsOk(ap, empty, log + [d], hist + [e], calls[e.call := k])
  {
    var calls' := calls[e.call := k];
    forall c | c in calls' ensures CallOk(ap, empty, log + [d], hist + [e], c, calls'[c]) {
      if c != e.call {
        CommitFrames(ap, empty, log, hist, d, e, c, calls[c]);
      }
    }
  }

  /** Storing a PUT keeps the invariant. */
  lemma AcceptKeeps<O, D, R>(ap: Callback<O, D, R>, s: State<O, D, R>, c: nat)
    requires Inv(ap, s) && Enabled(s, Accept(c))
    ensures Inv(ap, Next(ap, s, Accept(c)))
  {
    var k := s.calls[c];
    var p := k.put.value;
    var e := Commit(c, k.op, p.rnd, p.ret);
    var k' := Next(ap, s, Accept(c)).calls[c];
    assert CallOk(ap, s.empty, s.log, s.hist, c, k);
    AppendKeepsHistory(ap, s.empty, s.log, s.hist, p.doc, e);
    SnapsSurviveAppend(s.empty, s.log, p.doc);
    AcceptedOk(ap, s.empty, s.log, s.hist, c, k, k');
    AcceptKeepsCalls(ap, s.empty, s.log, s.hist, s.calls, p.doc, e, k');
  }

  lemma ComputeKeeps<O, D, R>(ap: Callback<O, D, R>, s: State<O, D, R>, c: nat, rnd: R)
    requires Inv(ap, s) && Enabled(s, Compute(c, rnd))
    ensures Inv(ap, Next(ap, s, Compute(c, rnd)))
  {
    var k, snap := s.calls[c], CacheOf(s, s.calls[c].rep);
    assert CallOk(ap, s.empty, s.log, s.hist, c, k);
    assert SnapOk(s.empty, s.log, snap);
    LocalKeeps(ap, s, c, Computed(ap, k, snap, rnd), s.cache);
  }

  lemma BeginKeeps<O, D, R>(ap: Callback<O, D, R>, s: State<O, D, R>, c: nat, rep: nat, op: O)
    requires Inv(ap, s) && c !in s.calls
    ensures Inv(ap, Next(ap, s, Begin(c, rep, op)))
  {}

  lemma ReadKeeps<O, D, R>(ap: Callback<O, D, R>, s: State<O, D, R>, st: Step<O, R>)
    requires Inv(ap, s) && Enabled(s, st) && (st.ReadGet? || st.ReadInstall?)
    ensures Inv(ap, Next(ap, s, st))
  {}

  /** Every step keeps the invariant. */
  lemma StepKeeps<O, D, R>(ap: Callback<O, D, R>, s: State<O, D, R>, st: Step<O, R>)
    requires Inv(ap, s) && Enabled(s, st)
    ensures Inv(ap, Next(ap, s, st))
  {
    match st
    case Begin(c, rep, op) => BeginKeeps(ap, s, c, rep, op);
    case Compute(c, rnd) => ComputeKeeps(ap, s, c, rnd);
    case Accept(c) => AcceptKeeps(ap, s, c);
    case ReadGet(_, _) => ReadKeeps(ap, s, st);
    case ReadInstall(_) => ReadKeeps(ap, s, st);
    case _ =>
      var s' := Next(ap, s, st);
      LocalKeeps(ap, s, st.c, s'.calls[st.c], s'.cache);
  }

  lemma {:induction false} RunKeeps<O, D, R>(ap: Callback<O, D, R>, s: State<O, D, R>, run: seq<Step<O, R>>)
    requires Inv(ap, s) && ValidRun(ap, s, run)
    ensures Inv(ap, Final(ap, s, run))
    decreases run
  {
    if run == [] {
    } else {
      StepKeeps(ap, s, run[0]);
      RunKeeps(ap, Next(ap, s, run[0]), run[1..]);
    }
  }

  // ---- serializability ----

  /** The reference: the callbacks of a history run one after another on the empty document.
      None when one of them would not have written, or would have answered otherwise. */
  function Replay<O, D, R>(ap: Callback<O, D, R>, empty: D, hist: seq<Commit<O, R>>): Option<D> {
    if hist == [] then Some(empty)
    else
      var e := hist[|hist| - 1];
      match Replay(ap, empty, hist[..|hist| - 1])
      case None => None
      case Some(d) =>
        match ap(e.op, d, e.rnd)
        case Write(d', ret) => if ret == e.ret then Some(d') else None
        case _ => None
  }

  lemma {:induction false} SerialIsReplay<O, D, R>(ap: Callback<O, D, R>, empty: D, log: seq<D>,
                                                   hist: seq<Commit<O, R>>, rv: nat)
    requires Serial(ap, empty, log, hist) && rv <= |log|
    ensures Replay(ap, empty, hist[..rv]) == Some(At(empty, log, rv))
  {
    if rv == 0 {
    } else {
      SerialIsReplay(ap, empty, log, hist, rv - 1);
      assert hist[..rv][..rv - 1] == hist[..rv - 1];
    }
  }

  /** Over every interleaving, every version of the document is the stored callbacks replayed in
      order, each call stored at most once, and every cache and every read in flight is some version. */
  lemma Serializable<O, D, R>(ap: Callback<O, D, R>, empty: D, run: seq<Step<O, R>>)
    requires ValidRun(ap, Init(empty), run)
    ensures var s := Final(ap, Init(empty), run);
      && |s.hist| == |s.log|
      && (forall rv: nat :: rv <= |s.log| ==> Replay(ap, empty, s.hist[..rv]) == Some(At(empty, s.log, rv)))
      && OncePerCall(s.hist)
      && (forall r :: r in s.cache ==> SnapOk(empty, s.log, s.cache[r]))
      && (forall x :: x in s.gets ==> SnapOk(empty, s.log, s.gets[x].snap))
  {
    var s := Final(ap, Init(empty), run);
    EmptyKept(ap, Init(empty), run);
    RunKeeps(ap, Init(empty), run);
    forall rv: nat | rv <= |s.log| ensures Replay(ap, empty, s.hist[..rv]) == Some(At(empty, s.log, rv)) {
      SerialIsReplay(ap, empty, s.log, s.hist, rv);
    }
  }

  lemma {:induction false} EmptyKept<O, D, R>(ap: Callback<O, D, R>, s: State<O, D, R>, run: seq<Step<O, R>>)
    requires ValidRun(ap, s, run)
    ensures Final(ap, s, run).empty == s.empty
    decreases run
  {
    if run == [] {
    } else {
      EmptyKept(ap, Next(ap, s, run[0]), run[1..]);
    }
  }

  /** No update is lost: commits are only ever appended, a finished call keeps its answer,
      and an acknowledged write is in the history of every later state. */
  lemma {:induction false} NothingLost<O, D, R>(ap: Callback<O, D, R>, s: State<O, D, R>, run: seq<Step<O, R>>)
    requires ValidRun(ap, s, run)
    ensures var t := Final(ap, s, run);
      && s.log <= t.log && s.hist <= t.hist
      && forall c :: c in s.calls && s.calls[c].phase.Done? ==>
           c in t.calls && t.calls[c].phase == s.calls[c].phase && t.calls[c].op == s.calls[c].op
    decreases run
  {
    if run == [] {
    } else {
      NothingLost(ap, Next(ap, s, run[0]), run[1..]);
    }
  }

  /** What a caller may conclude from the reply.  A write that was acknowledged is in the history
      exactly once, with the answer given; no other definite reply leaves a commit behind; and an
      answer without a write is the callback's own answer on some version of the document. */
  lemma RepliesTell<O, D, R>(ap: Callback<O, D, R>, empty: D, run: seq<Step<O, R>>, c: nat)
    requires ValidRun(ap, Init(empty), run)
    requires c in Final(ap, Init(empty), run).calls && Final(ap, Init(empty), run).calls[c].phase.Done?
    ensures var s := Final(ap, Init(empty), run);
      var k := s.calls[c];
      match k.phase.reply
      case Wrote(ret, at) =>
        && StoredBy(s.hist, c, k.op, ret, at) && |s.hist| == |s.log|
        && ap(k.op, At(empty, s.log, at - 1), s.hist[at - 1].rnd) == Write(s.log[at - 1], ret)
        && forall i :: 0 <= i < |s.hist| && s.hist[i].call == c ==> i == at - 1
      case Kept(ret, at, rnd) =>
        at <= |s.log| && ap(k.op, At(empty, s.log, at), rnd) == NoChange(ret) && !Committed(s.hist, c)
      case Refused(err, at, rnd) =>
        at <= |s.log| && ap(k.op, At(empty, s.log, at), rnd) == Refuse(err) && !Committed(s.hist, c)
      case Conflict => !Committed(s.hist, c)
      case Broken => true
  {
    EmptyKept(ap, Init(empty), run);
    RunKeeps(ap, Init(empty), run);
    var s := Final(ap, Init(empty), run);
    DoneIsOk(ap, s, c);
    var reply := s.calls[c].phase.reply;
    if reply.Wrote? {
      WroteTells(ap, empty, s.log, s.hist, c, s.calls[c].op, reply.ret, reply.at);
    }
  }

  lemma DoneIsOk<O, D, R>(ap: Callback<O, D, R>, s: State<O, D, R>, c: nat)
    requires Inv(ap, s) && c in s.calls && s.calls[c].phase.Done?
    ensures ReplyOk(ap, s.empty, s.log, s.hist, c, s.calls[c].op, s.calls[c].phase.reply)
    ensures Serial(ap, s.empty, s.log, s.hist) && OncePerCall(s.hist)
  {
    assert CallOk(ap, s.empty, s.log, s.hist, c, s.calls[c]);
  }

  lemma WroteTells<O, D, R>(ap: Callback<O, D, R>, empty: D, log: seq<D>, hist: seq<Commit<O, R>>,
                            c: nat, op: O, ret: string, at: nat)
    requires Serial(ap, empty, log, hist) && OncePerCall(hist) && StoredBy(hist, c, op, ret, at)
    ensures |hist| == |log| && ap(op, At(empty, log, at - 1), hist[at - 1].rnd) == Write(log[at - 1], ret)
    ensures forall i :: 0 <= i < |hist| && hist[i].call == c ==> i == at - 1
  {
    var e := hist[at - 1];
    assert ap(e.op, At(empty, log, at - 1), e.rnd) == Write(log[at - 1], e.ret);
  }

  /** The case of a write. */
  lemma AcknowledgedWrite<O, D, R>(ap: Callback<O, D, R>, empty: D, run: seq<Step<O, R>>, c: nat, ret: string, at: nat)
    returns (rnd: R)
    requires ValidRun(ap, Init(empty), run)
    requires var s := Final(ap, Init(empty), run); c in s.calls && s.calls[c].phase == Done(Wrote(ret, at))
    ensures var s := Final(ap, Init(empty), run);
      1 <= at <= |s.log| && ap(s.calls[c].op, At(empty, s.log, at - 1), rnd) == Write(At(empty, s.log, at), ret)
  {
    RepliesTell(ap, empty, run, c);
    rnd := Final(ap, Init(empty), run).hist[at - 1].rnd;
  }

  // ---- progress ----

  /** When call c clones the cache for another attempt, the cache is no older than what the call last read. */
  predicate Fresh<O, D, R>(s: State<O, D, R>, st: Step<O, R>, c: nat)
    requires Enabled(s, st)
  {
    st.Compute? && st.c == c && s.calls[c].attempt >= 1 ==> CacheOf(s, s.calls[c].rep).rv >= s.calls[c].fetched
  }

  predicate FreshRun<O, D, R>(ap: Callback<O, D, R>, s: State<O, D, R>, run: seq<Step<O, R>>, c: nat)
    requires ValidRun(ap, s, run)
    decreases run
  {
    run == [] || (Fresh(s, run[0], c) && FreshRun(ap, Next(ap, s, run[0]), run[1..], c))
  }

  /** How many commits a call has seen pass, phase by phase. */
  ghost predicate Overtaken<D, O, R>(commits: nat, k: Call<O, D, R>) {
    && k.began <= commits
    && match k.phase
       case Ready => k.attempt >= 1 ==> k.fetched >= k.began + k.attempt - 1
       case Waiting => k.put.Some? && (k.attempt >= 1 ==> k.put.value.rv >= k.began + k.attempt - 1)
       case Refetch => commits >= k.began + k.attempt
       case Fetched(_) => commits >= k.fetched >= k.began + k.attempt
       case Done(Conflict) => commits >= k.began + LAST_ATTEMPT
       case _ => true
  }

  ghost predicate CallOvertaken<O, D, R>(s: State<O, D, R>, c: nat) {
    c in s.calls ==> Overtaken(|s.log|, s.calls[c])
  }

  lemma FreshStepKeeps<O, D, R>(ap: Callback<O, D, R>, s: State<O, D, R>, st: Step<O, R>, c: nat)
    requires Enabled(s, st) && Fresh(s, st, c) && CallOvertaken(s, c)
    requires c in s.calls ==> CallOk(ap, s.empty, s.log, s.hist, c, s.calls[c])
    ensures CallOvertaken(Next(ap, s, st), c)
  {}

  lemma {:induction false} FreshRunKeeps<O, D, R>(ap: Callback<O, D, R>, s: State<O, D, R>, run: seq<Step<O, R>>, c: nat)
    requires Inv(ap, s) && CallOvertaken(s, c) && ValidRun(ap, s, run) && FreshRun(ap, s, run, c)
    ensures CallOvertaken(Final(ap, s, run), c)
    decreases run
  {
    if run == [] {
    } else {
      StepKeeps(ap, s, run[0]);
      FreshStepKeeps(ap, s, run[0], c);
      FreshRunKeeps(ap, Next(ap, s, run[0]), run[1..], c);
    }
  }

  /** A call that gives up after nine conflicts, and never retried on a cache older than its last read, was
      overtaken by at least eight commits since it began, none of them its own. */
  lemma SomeoneProgresses<O, D, R>(ap: Callback<O, D, R>, empty: D, run: seq<Step<O, R>>, c: nat)
    requires ValidRun(ap, Init(empty), run) && FreshRun(ap, Init(empty), run, c)
    requires c in Final(ap, Init(empty), run).calls
    requires Final(ap, Init(empty), run).calls[c].phase == Done(Conflict)
    ensures var s := Final(ap, Init(empty), run);
      && |s.hist| >= s.calls[c].began + 8
      && forall i :: 0 <= i < |s.hist| ==> s.hist[i].call != c
  {
    RunKeeps(ap, Init(empty), run);
    FreshRunKeeps(ap, Init(empty), run, c);
    var s := Final(ap, Init(empty), run);
    assert CallOk(ap, s.empty, s.log, s.hist, c, s.calls[c]);
  }

  /** How often the callback of call c was run for another attempt. */
  function Attempts<O, R>(run: seq<Step<O, R>>, c: nat): nat {
    if run == [] then 0 else Attempts(run[1..], c) + if run[0].Compute? && run[0].c == c then 1 else 0
  }

  /** The attempt a call is at, counted from 1; a call about to compute has not made it yet. */
  function Made<D, O, R>(calls: map<nat, Call<O, D, R>>, c: nat): nat {
    if c !in calls then 0 else if calls[c].phase.Ready? then calls[c].attempt else calls[c].attempt + 1
  }

  lemma {:induction false} AttemptsCounted<O, D, R>(ap: Callback<O, D, R>, s: State<O, D, R>, run: seq<Step<O, R>>, c: nat)
    requires ValidRun(ap, s, run)
    ensures Made(Final(ap, s, run).calls, c) == Made(s.calls, c) + Attempts(run, c)
    decreases run
  {
    if run == [] {
    } else {
      AttemptsCounted(ap, Next(ap, s, run[0]), run[1..], c);
    }
  }

  /** A call gives up on conflicts after exactly nine attempts, and never makes more than nine. */
  lemma NineAttempts<O, D, R>(ap: Callback<O, D, R>, empty: D, run: seq<Step<O, R>>, c: nat)
    requires ValidRun(ap, Init(empty), run)
    ensures Attempts(run, c) <= 9
    ensures var s := Final(ap, Init(empty), run);
      c in s.calls && s.calls[c].phase == Done(Conflict) ==> Attempts(run, c) == 9
  {
    AttemptsCounted(ap, Init(empty), run, c);
    RunKeeps(ap, Init(empty), run);
    ConflictIsLast(ap, Init(empty), run, c);
    var s := Final(ap, Init(empty), run);
    if c in s.calls { assert CallOk(ap, s.empty, s.log, s.hist, c, s.calls[c]); }
  }

  lemma {:induction false} ConflictIsLast<O, D, R>(ap: Callback<O, D, R>, s: State<O, D, R>, run: seq<Step<O, R>>, c: nat)
    requires ValidRun(ap, s, run) && (c in s.calls && s.calls[c].phase == Done(Conflict) ==> s.calls[c].attempt >= LAST_ATTEMPT)
    ensures var t := Final(ap, s, run);
      c in t.calls && t.calls[c].phase == Done(Conflict) ==> t.calls[c].attempt >= LAST_ATTEMPT
    decreases run
  {
    if run == [] {
    } else {
      ConflictIsLast(ap, Next(ap, s, run[0]), run[1..], c);
    }
  }

  /** Which installs leave the cache no older than it was. */
  predicate Forward<O, D, R>(s: State<O, D, R>, st: Step<O, R>, rep: nat)
    requires Enabled(s, st)
  {
    match st
    case Install(c) => s.calls[c].rep == rep ==> s.calls[c].phase.snap.rv >= CacheOf(s, rep).rv
    case InstallFetch(c) => s.calls[c].rep == rep ==> s.calls[c].phase.snap.rv >= CacheOf(s, rep).rv
    case ReadInstall(x) => s.gets[x].rep == rep ==> s.gets[x].snap.rv >= CacheOf(s, rep).rv
    case _ => true
  }

  predicate ForwardRun<O, D, R>(ap: Callback<O, D, R>, s: State<O, D, R>, run: seq<Step<O, R>>, rep: nat)
    requires ValidRun(ap, s, run)
    decreases run
  {
    run == [] || (Forward(s, run[0], rep) && ForwardRun(ap, Next(ap, s, run[0]), run[1..], rep))
  }

  ghost predicate CaughtUp<O, D, R>(s: State<O, D, R>, c: nat, rep: nat) {
    c in s.calls ==>
      var k := s.calls[c];
      && (k.rep == rep && k.phase.Ready? && k.attempt >= 1 ==> CacheOf(s, rep).rv >= k.fetched)
      && (k.phase.Fetched? ==> k.phase.snap.rv == k.fetched)
  }

  lemma ForwardStepCatchesUp<O, D, R>(ap: Callback<O, D, R>, s: State<O, D, R>, st: Step<O, R>, c: nat, rep: nat)
    requires Enabled(s, st) && Forward(s, st, rep) && CaughtUp(s, c, rep)
    ensures CaughtUp(Next(ap, s, st), c, rep)
  {}

  /** In particular this holds of all calls of a replica whose cache never steps backwards, as when a refresh
      installs its document together with reading it. */
  lemma {:induction false} ForwardIsFresh<O, D, R>(ap: Callback<O, D, R>, s: State<O, D, R>, run: seq<Step<O, R>>, c: nat, rep: nat)
    requires ValidRun(ap, s, run) && ForwardRun(ap, s, run, rep) && CaughtUp(s, c, rep)
    requires c in Final(ap, s, run).calls ==> Final(ap, s, run).calls[c].rep == rep
    ensures FreshRun(ap, s, run, c)
    decreases run
  {
    if run == [] {
    } else {
      ForwardStepCatchesUp(ap, s, run[0], c, rep);
      ForwardIsFresh(ap, Next(ap, s, run[0]), run[1..], c, rep);
      if c in s.calls { CallsKeepRep(ap, s, run, c); }
    }
  }

  lemma {:induction false} CallsKeepRep<O, D, R>(ap: Callback<O, D, R>, s: State<O, D, R>, run: seq<Step<O, R>>, c: nat)
    requires ValidRun(ap, s, run) && c in s.calls
    ensures var t := Final(ap, s, run); c in t.calls && t.calls[c].rep == s.calls[c].rep
    decreases run
  {
    if run == [] {
    } else {
      CallsKeepRep(ap, Next(ap, s, run[0]), run[1..], c);
    }
  }

  lemma ForwardCacheProgresses<O, D, R>(ap: Callback<O, D, R>, empty: D, run: seq<Step<O, R>>, c: nat)
    requires ValidRun(ap, Init(empty), run)
    requires var s := Final(ap, Init(empty), run);
      c in s.calls && s.calls[c].phase == Done(Conflict) && ForwardRun(ap, Init(empty), run, s.calls[c].rep)
    ensures var s := Final(ap, Init(empty), run); |s.hist| >= s.calls[c].began + 8
  {
    ForwardIsFresh(ap, Init(empty), run, c, Final(ap, Init(empty), run).calls[c].rep);
    SomeoneProgresses(ap, empty, run, c);
  }

  // ---- without that condition ----

  function Overwrite(op: int, doc: int, rnd: ()): Outcome<int> {
    Write(op, "")
  }

  lemma Prepend<O, D, R>(ap: Callback<O, D, R>, s: State<O, D, R>, st: Step<O, R>, rest: seq<Step<O, R>>)
    returns (run: seq<Step<O, R>>)
    requires Enabled(s, st) && ValidRun(ap, Next(ap, s, st), rest)
    ensures ValidRun(ap, s, run) && Final(ap, s, run) == Final(ap, Next(ap, s, st), rest)
  {
    run := [st] + rest;
    assert run[1..] == rest;
  }

  /** Call 0 is at attempt a with an outdated cache, and more outdated reads are on their way. */
  ghost predicate Starving(s: State<int, int, ()>, a: nat) {
    && s.log == [7] && a <= LAST_ATTEMPT
    && CacheOf(s, 0).rv == 0
    && 0 in s.calls && s.calls[0].rep == 0 && s.calls[0].attempt == a && s.calls[0].began == 1
    && s.calls[0].phase.Ready? && s.calls[0].put.None?
    && forall x :: a <= x < LAST_ATTEMPT ==> x in s.gets && s.gets[x].rep == 0 && s.gets[x].snap.rv == 0
  }

  ghost predicate Starved(s: State<int, int, ()>) {
    s.log == [7] && 0 in s.calls && s.calls[0].phase == Done(Conflict) && s.calls[0].began == 1
  }

  /** One more lost attempt, on the next outdated read. */
  lemma LoseOnce(s: State<int, int, ()>, a: nat) returns (t: State<int, int, ()>, run: seq<Step<int, ()>>)
    requires Starving(s, a) && a < LAST_ATTEMPT
    ensures ValidRun(Overwrite, s, run) && Final(Overwrite, s, run) == t && Starving(t, a + 1)
  {
    var s1 := Next(Overwrite, s, Compute(0, ()));
    var s2 := Next(Overwrite, s1, Reject(0));
    var s3 := Next(Overwrite, s2, Fetch(0));
    var s4 := Next(Overwrite, s3, InstallFetch(0));
    t := Next(Overwrite, s4, ReadInstall(a));
    run := Prepend(Overwrite, s4, ReadInstall(a), []);
    run := Prepend(Overwrite, s3, InstallFetch(0), run);
    run := Prepend(Overwrite, s2, Fetch(0), run);
    run := Prepend(Overwrite, s1, Reject(0), run);
    run := Prepend(Overwrite, s, Compute(0, ()), run);
  }

  lemma LoseLast(s: State<int, int, ()>) returns (run: seq<Step<int, ()>>)
    requires Starving(s, LAST_ATTEMPT)
    ensures ValidRun(Overwrite, s, run) && Starved(Final(Overwrite, s, run))
  {
    var s1 := Next(Overwrite, s, Compute(0, ()));
    run := Prepend(Overwrite, s1, Reject(0), []);
    run := Prepend(Overwrite, s, Compute(0, ()), run);
  }

  lemma {:induction false} StaleReadsStarve(s: State<int, int, ()>, a: nat) returns (run: seq<Step<int, ()>>)
    requires Starving(s, a)
    ensures ValidRun(Overwrite, s, run) && Starved(Final(Overwrite, s, run))
    decreases LAST_ATTEMPT - a
  {
    if a == LAST_ATTEMPT {
      run := LoseLast(s);
    } else {
      var t, lost := LoseOnce(s, a);
      run := StaleReadsStarve(t, a + 1);
      Concat(Overwrite, s, lost, run);
      run := lost + run;
    }
  }

  lemma {:induction false} StarveFrom(s: State<int, int, ()>, x: nat) returns (run: seq<Step<int, ()>>)
    requires x <= LAST_ATTEMPT && s.empty == 0 && s.log == [] && s.hist == [] && s.cache == map[] && s.calls == map[]
    requires forall y :: 0 <= y < x ==> y in s.gets && s.gets[y] == Read(0, Snap(0, 0))
    requires forall y: nat :: y >= x ==> y !in s.gets
    ensures ValidRun(Overwrite, s, run) && Starved(Final(Overwrite, s, run))
    decreases LAST_ATTEMPT - x
  {
    if x < LAST_ATTEMPT {
      run := StarveFrom(Next(Overwrite, s, ReadGet(x, 0)), x + 1);
      run := Prepend(Overwrite, s, ReadGet(x, 0), run);
    } else {
      var s1 := Next(Overwrite, s, Begin(1, 1, 7));
      var s2 := Next(Overwrite, s1, Compute(1, ()));
      var s3 := Next(Overwrite, s2, Accept(1));
      var s4 := Next(Overwrite, s3, Begin(0, 0, 5));
      run := StaleReadsStarve(s4, 0);
      run := Prepend(Overwrite, s3, Begin(0, 0, 5), run);
      run := Prepend(Overwrite, s2, Accept(1), run);
      run := Prepend(Overwrite, s1, Compute(1, ()), run);
      run := Prepend(Overwrite, s, Begin(1, 1, 7), run);
    }
  }

  /** A refresh that reads outside the lock can put an older document back into the cache.  Then a
      call can lose nine times although not a single commit was made since it began. */
  lemma StaleCacheStarves() returns (run: seq<Step<int, ()>>)
    ensures ValidRun(Overwrite, Init(0), run)
    ensures var s := Final(Overwrite, Init(0), run);
      0 in s.calls && s.calls[0].phase == Done(Conflict) && |s.hist| == |s.log| == s.calls[0].began
  {
    run := StarveFrom(Init(0), 0);
    RunKeeps(Overwrite, Init(0), run);
  }
}
