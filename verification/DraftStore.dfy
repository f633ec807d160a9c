/** Additions to an owner's drafts over the replicated store: the list is read from the cache, through a secret call,
    and written back as a whole, without looking at what is there by then. */
module DraftStore {
  import opened Optimistic
  import opened HubDoc
  import opened HubStore
  import Drafts

  /** How lists of drafts are written down. */
  datatype Codec = Codec(enc: seq<Drafts.Draft> -> string, dec: string -> seq<Drafts.Draft>)

  ghost predicate Faithful(c: Codec) {
    forall ds: seq<Drafts.Draft> :: c.dec(c.enc(ds)) == ds
  }

  predicate Writes(op: Op, k: string) {
    op.PutKV? && op.k == k
  }

  predicate Holds(d: Doc, k: string, v: string) {
    k in d.kv && d.kv[k] == v
  }

  // ---- what one addition stores ----

  /** What an acknowledged write of the key has stored, and what it has stored it over. */
  lemma WriteStores(run: seq<Step<Op, Rnd>>, c: nat, k: string, w: string, ret: string, at: nat)
    requires ValidRun(Apply, Init(EMPTY), run)
    requires var s := Final(Apply, Init(EMPTY), run);
      c in s.calls && s.calls[c].op == PutKV(k, w) && s.calls[c].phase == Done(Wrote(ret, at))
    ensures var s := Final(Apply, Init(EMPTY), run); 1 <= at <= |s.log| && Holds(At(EMPTY, s.log, at), k, w)
  {
    RepliesTell(Apply, EMPTY, run, c);
  }

  /** An acknowledged addition leaves what adding to the list it overwrote would have left exactly when the list it
      had read, although perhaps another one, has the same drafts beside the new one. */
  lemma AdditionKeepsIff(run: seq<Step<Op, Rnd>>, c: nat, k: string, codec: Codec, read: string, d: Drafts.Draft,
                         ret: string, at: nat)
    requires Faithful(codec) && ValidRun(Apply, Init(EMPTY), run)
    requires var s := Final(Apply, Init(EMPTY), run);
      && c in s.calls && s.calls[c].op == PutKV(k, codec.enc(Drafts.Add(codec.dec(read), d)))
      && s.calls[c].phase == Done(Wrote(ret, at)) && 1 <= at <= |s.log| && k in At(EMPTY, s.log, at - 1).kv
      && Drafts.Kept(codec.dec(read)) && d !in codec.dec(read)
      && Drafts.Kept(codec.dec(At(EMPTY, s.log, at - 1).kv[k])) && d !in codec.dec(At(EMPTY, s.log, at - 1).kv[k])
    ensures var s := Final(Apply, Init(EMPTY), run); var before := codec.dec(At(EMPTY, s.log, at - 1).kv[k]);
      && k in At(EMPTY, s.log, at).kv
      && (codec.dec(At(EMPTY, s.log, at).kv[k]) == Drafts.Add(before, d)
          <==> Drafts.Beside(codec.dec(read), d) == Drafts.Beside(before, d))
  {
    var s := Final(Apply, Init(EMPTY), run);
    WriteStores(run, c, k, s.calls[c].op.v, ret, at);
    Drafts.AddSameIff(codec.dec(read), codec.dec(At(EMPTY, s.log, at - 1).kv[k]), d);
  }

  // ---- additions one at a time ----

  /** What matters of the callbacks. */
  ghost predicate KeyOps(ap: Callback<Op, Doc, Rnd>, k: string) {
    && KeepsKey(ap, k)
    && (forall d: Doc, rnd: Rnd :: k in d.kv ==> ap(Secret(k), d, rnd) == NoChange(d.kv[k]))
    && (forall w: string, d: Doc, rnd: Rnd :: !ap(PutKV(k, w), d, rnd).Refuse?)
    && (forall w: string, d: Doc, rnd: Rnd :: ap(PutKV(k, w), d, rnd).Write? ==> Holds(ap(PutKV(k, w), d, rnd).doc, k, w))
    && (forall w: string, d: Doc, rnd: Rnd :: ap(PutKV(k, w), d, rnd).NoChange? ==> Holds(d, k, w))
  }

  lemma ApplyKeyOps(k: string)
    ensures KeyOps(Apply, k)
  {
    ApplyKeepsEveryKey(k);
  }

  ghost predicate ValueSince(log: seq<Doc>, k: string, since: nat, v: string) {
    since <= |log| && forall n: nat :: since <= n <= |log| ==> Holds(At(EMPTY, log, n), k, v)
  }

  /** No write of the key is at work, save perhaps by call c. */
  ghost predicate OthersRest(calls: map<nat, Call<Op, Doc, Rnd>>, k: string, c: nat) {
    forall e :: e in calls && e != c && Writes(calls[e].op, k) ==> calls[e].phase.Done? && calls[e].put.None?
  }

  /** Nobody is writing the key; its value is as old as this replica's cache, or older. */
  ghost predicate Settled(s: Hub, k: string, rep: nat, since: nat, v: string) {
    && ValueSince(s.log, k, since, v) && CacheOf(s, rep).rv >= since
    && forall e :: e in s.calls && Writes(s.calls[e].op, k) ==> s.calls[e].phase.Done? && s.calls[e].put.None?
  }

  /** Call c reads the key. */
  ghost predicate Reading(calls: map<nat, Call<Op, Doc, Rnd>>, c: nat, k: string, rep: nat, v: string) {
    c in calls ==>
      && calls[c].op == Secret(k) && calls[c].rep == rep && calls[c].put.None?
      && match calls[c].phase
         case Ready => true
         case Done(Kept(ret, _, _)) => ret == v
         case _ => false
  }

  /** Call c has not written the key yet, and will not if it has found the value there. */
  ghost predicate Writing(s: Hub, k: string, rep: nat, c: nat, w: string, since: nat, v: string) {
    && ValueSince(s.log, k, since, v) && CacheOf(s, rep).rv >= since && OthersRest(s.calls, k, c)
    && c in s.calls && s.calls[c].op == PutKV(k, w) && s.calls[c].rep == rep
    && match s.calls[c].phase
       case Accepted(_, _) => false
       case Done(Wrote(_, _)) => false
       case Done(Refused(_, _, _)) => false
       case Done(Kept(_, _, _)) => v == w && s.calls[c].put.None?
       case _ => true
  }

  /** Call c has written it, at version a. */
  ghost predicate Written(s: Hub, k: string, rep: nat, c: nat, w: string, a: nat) {
    && ValueSince(s.log, k, a, w) && OthersRest(s.calls, k, c)
    && c in s.calls && s.calls[c].op == PutKV(k, w) && s.calls[c].rep == rep && s.calls[c].put.None?
    && match s.calls[c].phase
       case Accepted(snap, _) => snap.rv == a
       case Done(Wrote(_, at)) => at == a && CacheOf(s, rep).rv >= a
       case Done(Broken) => true
       case _ => false
  }

  lemma AppendKeepsValue(log: seq<Doc>, k: string, since: nat, v: string, d: Doc)
    requires ValueSince(log, k, since, v) && Holds(d, k, v)
    ensures ValueSince(log + [d], k, since, v)
  {
    forall n: nat | since <= n <= |log| + 1 ensures Holds(At(EMPTY, log + [d], n), k, v) {
      assert n <= |log| ==> At(EMPTY, log + [d], n) == At(EMPTY, log, n);
    }
  }

  /** A commit that is not a write of the key keeps its value. */
  lemma CommitKeepsValue(ap: Callback<Op, Doc, Rnd>, s: Hub, c: nat, k: string, since: nat, v: string)
    requires KeyOps(ap, k) && Inv(ap, s) && s.empty == EMPTY && Enabled(s, Accept(c)) && !Writes(s.calls[c].op, k)
    requires ValueSince(s.log, k, since, v)
    ensures ValueSince(Next(ap, s, Accept(c)).log, k, since, v)
  {
    var call := s.calls[c];
    assert CallOk(ap, s.empty, s.log, s.hist, c, call);
    assert Holds(At(EMPTY, s.log, |s.log|), k, v);
    AppendKeepsValue(s.log, k, since, v, call.put.value.doc);
  }

  lemma RestStays(ap: Callback<Op, Doc, Rnd>, s: Hub, st: Step<Op, Rnd>, k: string, rep: nat)
    requires Enabled(s, st) && Forward(s, st, rep) && !(st.Begin? && Writes(st.op, k))
    requires forall e :: e in s.calls && Writes(s.calls[e].op, k) ==> s.calls[e].phase.Done? && s.calls[e].put.None?
    ensures var t := Next(ap, s, st);
      && (forall e :: e in t.calls && Writes(t.calls[e].op, k) ==> t.calls[e].phase.Done? && t.calls[e].put.None?)
      && CacheOf(t, rep).rv >= CacheOf(s, rep).rv && (!st.Accept? ==> t.log == s.log)
  {}

  lemma SettledStep(ap: Callback<Op, Doc, Rnd>, s: Hub, st: Step<Op, Rnd>, k: string, rep: nat, since: nat, v: string)
    requires KeyOps(ap, k) && Inv(ap, s) && s.empty == EMPTY && Settled(s, k, rep, since, v)
    requires Enabled(s, st) && Forward(s, st, rep) && !(st.Begin? && Writes(st.op, k))
    ensures Settled(Next(ap, s, st), k, rep, since, v)
  {
    RestStays(ap, s, st, k, rep);
    if st.Accept? { CommitKeepsValue(ap, s, st.c, k, since, v); }
  }

  /** What is cached of a settled key. */
  lemma CachedValue(ap: Callback<Op, Doc, Rnd>, s: Hub, k: string, rep: nat, since: nat, v: string)
    requires Inv(ap, s) && s.empty == EMPTY && ValueSince(s.log, k, since, v) && CacheOf(s, rep).rv >= since
    ensures Holds(CacheOf(s, rep).doc, k, v)
  {
    var snap := CacheOf(s, rep);
    assert SnapOk(s.empty, s.log, snap);
    assert Holds(At(EMPTY, s.log, snap.rv), k, v);
  }

  lemma ReadingStep(ap: Callback<Op, Doc, Rnd>, s: Hub, st: Step<Op, Rnd>, k: string, rep: nat, since: nat, v: string, c: nat)
    requires KeyOps(ap, k) && Inv(ap, s) && s.empty == EMPTY && Settled(s, k, rep, since, v) && Reading(s.calls, c, k, rep, v)
    requires Enabled(s, st) && (st.Begin? && st.c == c ==> st.op == Secret(k) && st.rep == rep)
    ensures Reading(Next(ap, s, st).calls, c, k, rep, v)
  {
    CachedValue(ap, s, k, rep, since, v);
  }

  /** The call's own step. */
  lemma WriterSteps(ap: Callback<Op, Doc, Rnd>, s: Hub, st: Step<Op, Rnd>, k: string, rep: nat, since: nat, v: string,
                    c: nat, w: string)
    requires KeyOps(ap, k) && Writing(s, k, rep, c, w, since, v) && CallOk(ap, s.empty, s.log, s.hist, c, s.calls[c])
    requires Holds(CacheOf(s, rep).doc, k, v)
    requires Enabled(s, st) && Forward(s, st, rep) && !st.ReadGet? && !st.ReadInstall? && st.c == c && !st.Accept?
    ensures Writing(Next(ap, s, st), k, rep, c, w, since, v)
  {}

  /** Anybody else's. */
  lemma OthersStep(ap: Callback<Op, Doc, Rnd>, s: Hub, st: Step<Op, Rnd>, k: string, rep: nat, c: nat)
    requires Enabled(s, st) && Forward(s, st, rep) && !(st.Begin? && Writes(st.op, k)) && OthersRest(s.calls, k, c)
    requires c in s.calls && (st.ReadGet? || st.ReadInstall? || st.c != c)
    ensures var t := Next(ap, s, st);
      && c in t.calls && t.calls[c] == s.calls[c] && OthersRest(t.calls, k, c)
      && CacheOf(t, rep).rv >= CacheOf(s, rep).rv && (!st.Accept? ==> t.log == s.log)
  {}

  lemma WritingStep(ap: Callback<Op, Doc, Rnd>, s: Hub, st: Step<Op, Rnd>, k: string, rep: nat, since: nat, v: string,
                    c: nat, w: string)
    requires KeyOps(ap, k) && Inv(ap, s) && s.empty == EMPTY && Writing(s, k, rep, c, w, since, v)
    requires Enabled(s, st) && Forward(s, st, rep) && !(st.Begin? && Writes(st.op, k)) && st != Accept(c)
    ensures Writing(Next(ap, s, st), k, rep, c, w, since, v)
  {
    if !st.ReadGet? && !st.ReadInstall? && st.c == c {
      CachedValue(ap, s, k, rep, since, v);
      WriterSteps(ap, s, st, k, rep, since, v, c, w);
    } else {
      OthersStep(ap, s, st, k, rep, c);
      if st.Accept? { CommitKeepsValue(ap, s, st.c, k, since, v); }
    }
  }

  lemma WriteCommits(ap: Callback<Op, Doc, Rnd>, s: Hub, k: string, rep: nat, since: nat, v: string, c: nat, w: string)
    requires KeyOps(ap, k) && Inv(ap, s) && s.empty == EMPTY && Writing(s, k, rep, c, w, since, v) && Enabled(s, Accept(c))
    ensures Written(Next(ap, s, Accept(c)), k, rep, c, w, |s.log| + 1)
  {
    assert CallOk(ap, s.empty, s.log, s.hist, c, s.calls[c]);
  }

  lemma WriterDone(ap: Callback<Op, Doc, Rnd>, s: Hub, st: Step<Op, Rnd>, k: string, rep: nat, c: nat, w: string, a: nat)
    requires Written(s, k, rep, c, w, a)
    requires Enabled(s, st) && Forward(s, st, rep) && !st.ReadGet? && !st.ReadInstall? && st.c == c
    ensures Written(Next(ap, s, st), k, rep, c, w, a)
  {}

  lemma WrittenStep(ap: Callback<Op, Doc, Rnd>, s: Hub, st: Step<Op, Rnd>, k: string, rep: nat, c: nat, w: string, a: nat)
    requires KeyOps(ap, k) && Inv(ap, s) && s.empty == EMPTY && Written(s, k, rep, c, w, a)
    requires Enabled(s, st) && Forward(s, st, rep) && !(st.Begin? && Writes(st.op, k))
    ensures Written(Next(ap, s, st), k, rep, c, w, a)
  {
    if !st.ReadGet? && !st.ReadInstall? && st.c == c {
      WriterDone(ap, s, st, k, rep, c, w, a);
    } else {
      OthersStep(ap, s, st, k, rep, c);
      if st.Accept? { CommitKeepsValue(ap, s, st.c, k, a, w); }
    }
  }

  // ---- over runs ----

  /** Nothing begins a write of the key, and the replica's cache does not step backwards. */
  predicate Undisturbed(ap: Callback<Op, Doc, Rnd>, s: Hub, run: seq<Step<Op, Rnd>>, k: string, rep: nat)
    requires ValidRun(ap, s, run)
    decreases run
  {
    run == [] ||
    (!(run[0].Begin? && Writes(run[0].op, k)) && Forward(s, run[0], rep) && Undisturbed(ap, Next(ap, s, run[0]), run[1..], k, rep))
  }

  lemma {:induction false} ReadingRun(ap: Callback<Op, Doc, Rnd>, s: Hub, run: seq<Step<Op, Rnd>>, k: string, rep: nat,
                                      since: nat, v: string, c: nat)
    requires KeyOps(ap, k) && Inv(ap, s) && s.empty == EMPTY && Settled(s, k, rep, since, v) && Reading(s.calls, c, k, rep, v)
    requires ValidRun(ap, s, run) && Undisturbed(ap, s, run, k, rep)
    requires forall i :: 0 <= i < |run| && run[i].Begin? && run[i].c == c ==> run[i].op == Secret(k) && run[i].rep == rep
    ensures var t := Final(ap, s, run);
      Inv(ap, t) && t.empty == EMPTY && Settled(t, k, rep, since, v) && Reading(t.calls, c, k, rep, v)
    decreases run
  {
    if run == [] {
    } else {
      StepKeeps(ap, s, run[0]);
      SettledStep(ap, s, run[0], k, rep, since, v);
      ReadingStep(ap, s, run[0], k, rep, since, v, c);
      ReadingRun(ap, Next(ap, s, run[0]), run[1..], k, rep, since, v, c);
    }
  }

  lemma {:induction false} WrittenRun(ap: Callback<Op, Doc, Rnd>, s: Hub, run: seq<Step<Op, Rnd>>, k: string, rep: nat,
                                      c: nat, w: string, a: nat)
    requires KeyOps(ap, k) && Inv(ap, s) && s.empty == EMPTY && Written(s, k, rep, c, w, a)
    requires ValidRun(ap, s, run) && Undisturbed(ap, s, run, k, rep)
    ensures var t := Final(ap, s, run); Inv(ap, t) && t.empty == EMPTY && Written(t, k, rep, c, w, a)
    decreases run
  {
    if run == [] {
    } else {
      StepKeeps(ap, s, run[0]);
      WrittenStep(ap, s, run[0], k, rep, c, w, a);
      WrittenRun(ap, Next(ap, s, run[0]), run[1..], k, rep, c, w, a);
    }
  }

  /** A write that is acknowledged leaves the key settled with its value. */
  lemma {:induction false} WritingRun(ap: Callback<Op, Doc, Rnd>, s: Hub, run: seq<Step<Op, Rnd>>, k: string, rep: nat,
                                      since: nat, v: string, c: nat, w: string) returns (since': nat)
    requires KeyOps(ap, k) && Inv(ap, s) && s.empty == EMPTY && Writing(s, k, rep, c, w, since, v)
    requires ValidRun(ap, s, run) && Undisturbed(ap, s, run, k, rep)
    requires var t := Final(ap, s, run); c in t.calls ==> ErrorFree(t.calls[c])
    ensures var t := Final(ap, s, run); Inv(ap, t) && t.empty == EMPTY && Settled(t, k, rep, since', w)
    decreases run
  {
    if run == [] {
      since' := since;
    } else {
      var next := Next(ap, s, run[0]);
      StepKeeps(ap, s, run[0]);
      if run[0] == Accept(c) {
        WriteCommits(ap, s, k, rep, since, v, c, w);
        since' := |s.log| + 1;
        WrittenRun(ap, next, run[1..], k, rep, c, w, since');
      } else {
        WritingStep(ap, s, run[0], k, rep, since, v, c, w);
        since' := WritingRun(ap, next, run[1..], k, rep, since, v, c, w);
      }
    }
  }

  /** One addition: what happens until its secret call has come back, and from then until its write has. */
  datatype Addition = Addition(reader: nat, writer: nat, draft: Drafts.Draft, read: seq<Step<Op, Rnd>>, write: seq<Step<Op, Rnd>>)

  /** It takes place on this replica, both calls succeed, and nobody else writes the key meanwhile. */
  ghost predicate TakesPlace(s: Hub, x: Addition, k: string, rep: nat, codec: Codec) {
    && x.reader !in s.calls
    && ValidRun(Apply, s, x.read) && Undisturbed(Apply, s, x.read, k, rep)
    && (forall i :: 0 <= i < |x.read| && x.read[i].Begin? && x.read[i].c == x.reader ==>
          x.read[i].op == Secret(k) && x.read[i].rep == rep)
    && var t := Final(Apply, s, x.read);
    && x.reader in t.calls && t.calls[x.reader].phase.Done? && t.calls[x.reader].phase.reply.Kept?
    && WriteFollows(t, x, k, rep, codec.enc(Drafts.Add(codec.dec(t.calls[x.reader].phase.reply.ret), x.draft)))
  }

  ghost predicate WriteFollows(t: Hub, x: Addition, k: string, rep: nat, w: string) {
    && x.writer !in t.calls && x.write != [] && x.write[0] == Begin(x.writer, rep, PutKV(k, w))
    && ValidRun(Apply, t, x.write)
    && var u := Next(Apply, t, x.write[0]);
    && Undisturbed(Apply, u, x.write[1..], k, rep)
    && x.writer in Final(Apply, u, x.write[1..]).calls && ErrorFree(Final(Apply, u, x.write[1..]).calls[x.writer])
  }

  ghost function After(s: Hub, x: Addition): Hub
    requires ValidRun(Apply, s, x.read) && ValidRun(Apply, Final(Apply, s, x.read), x.write)
  {
    Final(Apply, Final(Apply, s, x.read), x.write)
  }

  lemma OneAddition(s: Hub, x: Addition, k: string, rep: nat, codec: Codec, since: nat, v: string) returns (since': nat)
    requires Inv(Apply, s) && s.empty == EMPTY && Settled(s, k, rep, since, v) && TakesPlace(s, x, k, rep, codec)
    ensures var t := After(s, x);
      Inv(Apply, t) && t.empty == EMPTY && Settled(t, k, rep, since', codec.enc(Drafts.Add(codec.dec(v), x.draft)))
  {
    ApplyKeyOps(k);
    ReadingRun(Apply, s, x.read, k, rep, since, v, x.reader);
    var t := Final(Apply, s, x.read);
    StepKeeps(Apply, t, x.write[0]);
    var u := Next(Apply, t, x.write[0]);
    since' := WritingRun(Apply, u, x.write[1..], k, rep, since, v, x.writer, codec.enc(Drafts.Add(codec.dec(v), x.draft)));
  }

  /** From one state to the next by an addition. */
  ghost predicate Adds(s: Hub, x: Addition, t: Hub, k: string, rep: nat, codec: Codec) {
    TakesPlace(s, x, k, rep, codec) && t == After(s, x)
  }

  /** The states before, between and after the additions. */
  ghost predicate OneByOne(states: seq<Hub>, xs: seq<Addition>, k: string, rep: nat, codec: Codec) {
    |states| == |xs| + 1 && forall i :: 0 <= i < |xs| ==> Adds(states[i], xs[i], states[i + 1], k, rep, codec)
  }

  function DraftsOf(xs: seq<Addition>): (ds: seq<Drafts.Draft>)
    ensures |ds| == |xs| && forall i :: 0 <= i < |xs| ==> ds[i] == xs[i].draft
  {
    seq(|xs|, i requires 0 <= i < |xs| => xs[i].draft)
  }

  /** The replica's additions so far are in the key's value, and nobody is adding. */
  ghost predicate AddedUp(s: Hub, k: string, rep: nat, codec: Codec, since: nat, v: string, done: seq<Drafts.Draft>) {
    && Inv(Apply, s) && s.empty == EMPTY && Settled(s, k, rep, since, v)
    && codec.dec(v) == Drafts.AddAll(done)
  }

  lemma AddsUp(s: Hub, x: Addition, t: Hub, k: string, rep: nat, codec: Codec, since: nat, v: string, done: seq<Drafts.Draft>)
    returns (since': nat, v': string)
    requires Faithful(codec) && AddedUp(s, k, rep, codec, since, v, done) && Adds(s, x, t, k, rep, codec)
    ensures AddedUp(t, k, rep, codec, since', v', done + [x.draft])
  {
    since' := OneAddition(s, x, k, rep, codec, since, v);
    v' := codec.enc(Drafts.Add(codec.dec(v), x.draft));
    Drafts.AddAllMore(done, x.draft);
  }

  lemma AddsNext(states: seq<Hub>, xs: seq<Addition>, k: string, rep: nat, codec: Codec, since: nat, v: string, n: nat)
    returns (since': nat, v': string)
    requires Faithful(codec) && n < |xs| && OneByOne(states, xs, k, rep, codec)
    requires AddedUp(states[n], k, rep, codec, since, v, DraftsOf(xs)[..n])
    ensures AddedUp(states[n + 1], k, rep, codec, since', v', DraftsOf(xs)[..n + 1])
  {
    since', v' := AddsUp(states[n], xs[n], states[n + 1], k, rep, codec, since, v, DraftsOf(xs)[..n]);
    assert DraftsOf(xs)[..n] + [xs[n].draft] == DraftsOf(xs)[..n + 1];
  }

  lemma {:induction false} AdditionsAddUp(states: seq<Hub>, xs: seq<Addition>, k: string, rep: nat, codec: Codec,
                                          since: nat, v: string, n: nat) returns (since': nat, v': string)
    requires Faithful(codec) && n <= |xs| && OneByOne(states, xs, k, rep, codec)
    requires AddedUp(states[0], k, rep, codec, since, v, [])
    ensures AddedUp(states[n], k, rep, codec, since', v', DraftsOf(xs)[..n])
  {
    if n == 0 {
      since', v' := since, v;
    } else {
      since', v' := AdditionsAddUp(states, xs, k, rep, codec, since, v, n - 1);
      since', v' := AddsNext(states, xs, k, rep, codec, since', v', n - 1);
    }
  }

  lemma ValueNow(s: Hub, k: string, rep: nat, codec: Codec, since: nat, v: string, done: seq<Drafts.Draft>)
    requires AddedUp(s, k, rep, codec, since, v, done)
    ensures Holds(At(EMPTY, s.log, |s.log|), k, v)
  {}

  /** Made one at a time, by the only replica that writes them and whose cache never steps backwards, any number of
      acknowledged additions to an empty list leave the newest drafts of all, newest first; whatever everybody does
      to the rest of the document. */
  lemma StoreKeepsNewest(states: seq<Hub>, xs: seq<Addition>, k: string, rep: nat, codec: Codec, since: nat, v: string)
    requires Faithful(codec) && OneByOne(states, xs, k, rep, codec)
    requires AddedUp(states[0], k, rep, codec, since, v, [])
    ensures var d := At(EMPTY, states[|xs|].log, |states[|xs|].log|);
      k in d.kv && codec.dec(d.kv[k]) == Drafts.Cut(Drafts.StableSort(DraftsOf(xs)))
  {
    var since', v' := AdditionsAddUp(states, xs, k, rep, codec, since, v, |xs|);
    assert DraftsOf(xs)[..|xs|] == DraftsOf(xs);
    Drafts.KeepsNewest(DraftsOf(xs));
    ValueNow(states[|xs|], k, rep, codec, since', v', DraftsOf(xs));
  }

  // ---- a draft lost on one replica ----

  const K := "intakedrafts:owner"
  const RND := Rnd("[]", 0)

  function With(v: string): Doc {
    EMPTY.(kv := map[K := v])
  }

  /** The list with x is stored and acknowledged; a refresh that read the empty list before has not installed it yet. */
  ghost predicate StaleReadWaits(s: Hub) {
    && s.empty == EMPTY && s.log == [With("[]"), With("[x]")] && s.cache == map[0 := Snap(With("[x]"), 2)]
    && s.gets == map[0 := Read(0, Snap(With("[]"), 1))] && s.calls.Keys == {0, 1}
    && s.calls[1].op == PutKV(K, "[x]") && s.calls[1].phase == Done(Wrote("", 2))
  }

  /** The next addition reads the empty list, and its own list with y alone is stored and acknowledged. */
  ghost predicate DraftLost(s: Hub) {
    && s.log == [With("[]"), With("[x]"), With("[y]")]
    && 1 in s.calls && s.calls[1].op == PutKV(K, "[x]") && s.calls[1].phase == Done(Wrote("", 2))
    && 2 in s.calls && s.calls[2].op == Secret(K) && s.calls[2].phase == Done(Kept("[]", 1, RND))
    && 3 in s.calls && s.calls[3].op == PutKV(K, "[y]") && s.calls[3].phase == Done(Wrote("", 3))
  }

  /** From the stale read on, up to the conflict. */
  ghost predicate Conflicted(s: Hub) {
    && s.empty == EMPTY && s.log == [With("[]"), With("[x]")] && s.cache == map[0 := Snap(With("[]"), 1)]
    && s.calls.Keys == {0, 1, 2, 3}
    && s.calls[1].op == PutKV(K, "[x]") && s.calls[1].phase == Done(Wrote("", 2))
    && s.calls[2].op == Secret(K) && s.calls[2].phase == Done(Kept("[]", 1, RND))
    && s.calls[3].op == PutKV(K, "[y]") && s.calls[3].phase == Refetch && s.calls[3].rep == 0 && s.calls[3].put.None?
  }

  lemma PutOver(v: string, w: string)
    requires v != w
    ensures Apply(PutKV(K, w), With(v), RND) == Write(With(w), "")
  {
    assert With(v).kv[K := w] == With(w).kv;
  }

  /** About to write the key again, on the document of version rv. */
  ghost predicate Retries(s: Hub, c: nat, v: string, rv: nat, w: string) {
    && s.empty == EMPTY && CacheOf(s, 0) == Snap(With(v), rv) && rv == |s.log|
    && c in s.calls && s.calls[c].op == PutKV(K, w) && s.calls[c].phase == Ready && s.calls[c].rep == 0 && s.calls[c].put.None?
  }

  lemma Puts(s: Hub, c: nat, v: string, rv: nat, w: string) returns (t: Hub, run: seq<Step<Op, Rnd>>)
    requires Retries(s, c, v, rv, w) && v != w
    ensures ValidRun(Apply, s, run) && Final(Apply, s, run) == t
    ensures t.empty == EMPTY && t.log == s.log + [With(w)] && t.cache == s.cache[0 := Snap(With(w), rv + 1)] && t.gets == s.gets
    ensures t.calls.Keys == s.calls.Keys && t.calls[c].op == s.calls[c].op && t.calls[c].phase == Done(Wrote("", rv + 1))
    ensures forall e :: e in s.calls && e != c ==> t.calls[e] == s.calls[e]
  {
    PutOver(v, w);
    var s1 := Next(Apply, s, Compute(c, RND));
    var s2 := Next(Apply, s1, Accept(c));
    t := Next(Apply, s2, Install(c));
    run := Prepend(Apply, s2, Install(c), []);
    run := Prepend(Apply, s1, Accept(c), run);
    run := Prepend(Apply, s, Compute(c, RND), run);
  }

  lemma Refetches(s: Hub) returns (t: Hub, run: seq<Step<Op, Rnd>>)
    requires Conflicted(s)
    ensures ValidRun(Apply, s, run) && Final(Apply, s, run) == t && Retries(t, 3, "[x]", 2, "[y]") && t.log == s.log
    ensures t.calls.Keys == s.calls.Keys && t.calls[1] == s.calls[1] && t.calls[2] == s.calls[2]
  {
    var s1 := Next(Apply, s, Fetch(3));
    t := Next(Apply, s1, InstallFetch(3));
    run := Prepend(Apply, s1, InstallFetch(3), []);
    run := Prepend(Apply, s, Fetch(3), run);
  }

  lemma OverwritesAnyway(s: Hub) returns (run: seq<Step<Op, Rnd>>)
    requires Conflicted(s)
    ensures ValidRun(Apply, s, run) && DraftLost(Final(Apply, s, run))
  {
    var t, fetch := Refetches(s);
    var u, put := Puts(t, 3, "[x]", 2, "[y]");
    Concat(Apply, s, fetch, put);
    run := fetch + put;
  }

  /** The stale list has been read. */
  ghost predicate StaleListRead(s: Hub) {
    && s.empty == EMPTY && s.log == [With("[]"), With("[x]")] && s.cache == map[0 := Snap(With("[]"), 1)]
    && s.calls.Keys == {0, 1, 2}
    && s.calls[1].op == PutKV(K, "[x]") && s.calls[1].phase == Done(Wrote("", 2))
    && s.calls[2].op == Secret(K) && s.calls[2].phase == Done(Kept("[]", 1, RND))
  }

  lemma WritesOverStale(s: Hub) returns (run: seq<Step<Op, Rnd>>)
    requires StaleListRead(s)
    ensures ValidRun(Apply, s, run) && DraftLost(Final(Apply, s, run))
  {
    var s1 := Next(Apply, s, Begin(3, 0, PutKV(K, "[y]")));
    PutOver("[]", "[y]");
    var s2 := Next(Apply, s1, Compute(3, RND));
    var s3 := Next(Apply, s2, Reject(3));
    run := OverwritesAnyway(s3);
    run := Prepend(Apply, s2, Reject(3), run);
    run := Prepend(Apply, s1, Compute(3, RND), run);
    run := Prepend(Apply, s, Begin(3, 0, PutKV(K, "[y]")), run);
  }

  lemma ReadsStale(s: Hub) returns (run: seq<Step<Op, Rnd>>)
    requires StaleReadWaits(s)
    ensures ValidRun(Apply, s, run) && DraftLost(Final(Apply, s, run))
  {
    var s1 := Next(Apply, s, ReadInstall(0));
    assert CacheOf(s1, 0) == Snap(With("[]"), 1);
    var s2 := Next(Apply, s1, Begin(2, 0, Secret(K)));
    var s3 := Next(Apply, s2, Compute(2, RND));
    run := WritesOverStale(s3);
    run := Prepend(Apply, s2, Compute(2, RND), run);
    run := Prepend(Apply, s1, Begin(2, 0, Secret(K)), run);
    run := Prepend(Apply, s, ReadInstall(0), run);
  }

  /** The empty list is stored, and a refresh has just read it. */
  ghost predicate EmptyListRead(s: Hub) {
    && s.empty == EMPTY && s.log == [With("[]")] && s.cache == map[0 := Snap(With("[]"), 1)]
    && s.gets == map[0 := Read(0, Snap(With("[]"), 1))] && s.calls.Keys == {0}
  }

  lemma FirstDraft(s: Hub) returns (run: seq<Step<Op, Rnd>>)
    requires EmptyListRead(s)
    ensures ValidRun(Apply, s, run) && DraftLost(Final(Apply, s, run))
  {
    var s1 := Next(Apply, s, Begin(1, 0, PutKV(K, "[x]")));
    assert Retries(s1, 1, "[]", 1, "[x]");
    var t, put := Puts(s1, 1, "[]", 1, "[x]");
    run := ReadsStale(t);
    Concat(Apply, s1, put, run);
    run := Prepend(Apply, s, Begin(1, 0, PutKV(K, "[x]")), put + run);
  }

  /** On a single replica, with every call acknowledged: an addition made after another one reads the list without
      it, because a late refresh has put an older document back into the cache, and overwrites it. */
  lemma AcknowledgedDraftLost() returns (run: seq<Step<Op, Rnd>>)
    ensures ValidRun(Apply, Init(EMPTY), run) && DraftLost(Final(Apply, Init(EMPTY), run))
  {
    var s0 := Init(EMPTY);
    var s1 := Next(Apply, s0, Begin(0, 0, Secret(K)));
    assert EMPTY.kv[K := "[]"] == With("[]").kv;
    var s2 := Next(Apply, s1, Compute(0, RND));
    var s3 := Next(Apply, s2, Accept(0));
    var s4 := Next(Apply, s3, Install(0));
    var s5 := Next(Apply, s4, ReadGet(0, 0));
    assert EmptyListRead(s5);
    run := FirstDraft(s5);
    run := Prepend(Apply, s4, ReadGet(0, 0), run);
    run := Prepend(Apply, s3, Install(0), run);
    run := Prepend(Apply, s2, Accept(0), run);
    run := Prepend(Apply, s1, Compute(0, RND), run);
    run := Prepend(Apply, s0, Begin(0, 0, Secret(K)), run);
  }
}
