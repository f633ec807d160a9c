/** What the replicated store promises about the hub's documents, over every interleaving. */
module HubStore {
  import opened Optimistic
  import opened HubDoc
  import opened Letters

  type Hub = State<Op, Doc, Rnd>
  type History = seq<Commit<Op, Rnd>>

  ghost predicate ImportedId(doc: Doc, id: string) {
    exists i :: 0 <= i < |doc.devices| && doc.devices[i].id == id
  }

  /** Calls draw fresh device ids, and are otherwise what the source lets callers ask for. */
  ghost predicate GoodCalls(calls: map<nat, Call<Op, Doc, Rnd>>) {
    && (forall c :: c in calls ==> GoodOp(calls[c].op))
    && (forall c, e :: c in calls && e in calls && c != e && calls[c].op.Create? ==>
          && (calls[e].op.Create? ==> calls[c].op.nd.id != calls[e].op.nd.id)
          && (calls[e].op.Import? ==> !ImportedId(calls[e].op.doc, calls[c].op.nd.id)))
  }

  /** The same, seen from the history: no two commits bring the same id in. */
  ghost predicate GoodHistory(hist: History) {
    && (forall i :: 0 <= i < |hist| ==> GoodOp(hist[i].op))
    && (forall i, j :: 0 <= i < |hist| && 0 <= j < |hist| && i != j && hist[i].op.Create? ==>
          && (hist[j].op.Create? ==> hist[i].op.nd.id != hist[j].op.nd.id)
          && (hist[j].op.Import? ==> !ImportedId(hist[j].op.doc, hist[i].op.nd.id)))
  }

  lemma GoodCallsGoodHistory(s: Hub)
    requires Inv(Apply, s) && GoodCalls(s.calls)
    ensures GoodHistory(s.hist)
  {}

  ghost predicate BroughtIn(op: Op, id: string) {
    (op.Create? && op.nd.id == id) || (op.Import? && ImportedId(op.doc, id))
  }

  /** Callbacks that keep every device's place and id. */
  predicate KeepsPlaces(op: Op) {
    !op.Create? && !op.Import? && !op.Delete? && !op.Backfill?
  }

  lemma PlacesKept(op: Op, d: Doc, rnd: Rnd)
    requires KeepsPlaces(op) && Apply(op, d, rnd).Write?
    ensures var ds := Apply(op, d, rnd).doc.devices;
      |ds| == |d.devices| && forall i :: 0 <= i < |ds| ==> ds[i].id == d.devices[i].id
  {}

  lemma DeleteBringsIn(d: Doc, gone: string, id: string)
    requires ApplyDelete(d, gone).Write? && ImportedId(ApplyDelete(d, gone).doc, id)
    ensures ImportedId(d, id)
  {}

  lemma CreateBringsIn(d: Doc, nd: Device, id: string)
    requires ApplyCreate(d, nd).Write? && ImportedId(ApplyCreate(d, nd).doc, id)
    ensures ImportedId(d, id) || nd.id == id
  {}

  lemma BackfillBringsIn(d: Doc, id: string)
    requires ValidDoc(d) && ImportedId(d.(devices := Lettered(d.devices)), id)
    ensures ImportedId(d, id)
  {
    LetteredChangesLetters(d.devices);
  }

  /** A callback brings in no ids but its own. */
  lemma ApplyIds(op: Op, d: Doc, rnd: Rnd, id: string)
    requires ValidDoc(d) && Apply(op, d, rnd).Write? && ImportedId(Apply(op, d, rnd).doc, id)
    ensures ImportedId(d, id) || BroughtIn(op, id)
  {
    match op
    case Create(nd) => CreateBringsIn(d, nd, id);
    case Delete(gone) => DeleteBringsIn(d, gone, id);
    case Backfill => BackfillBringsIn(d, id);
    case Import(doc) =>
    case _ => PlacesKept(op, d, rnd);
  }

  ghost predicate Source(hist: History, rv: nat, id: string)
    requires rv <= |hist|
  {
    exists i :: 0 <= i < rv && BroughtIn(hist[i].op, id)
  }

  /** What the callbacks keep, apart from what they do. */
  ghost predicate KeepsDocs(ap: Callback<Op, Doc, Rnd>) {
    forall op, d, rnd :: ValidDoc(d) && GoodOp(op) && FreshFor(op, d) && ap(op, d, rnd).Write? ==>
      && ValidDoc(ap(op, d, rnd).doc)
      && forall id :: ImportedId(ap(op, d, rnd).doc, id) ==> ImportedId(d, id) || BroughtIn(op, id)
  }

  lemma ApplyKeepsDocs()
    ensures KeepsDocs(Apply)
  {
    forall op, d, rnd | ValidDoc(d) && GoodOp(op) && FreshFor(op, d) && Apply(op, d, rnd).Write?
      ensures ValidDoc(Apply(op, d, rnd).doc)
      ensures forall id :: ImportedId(Apply(op, d, rnd).doc, id) ==> ImportedId(d, id) || BroughtIn(op, id)
    {
      ApplyValid(op, d, rnd);
      forall id | ImportedId(Apply(op, d, rnd).doc, id) ensures ImportedId(d, id) || BroughtIn(op, id) {
        ApplyIds(op, d, rnd, id);
      }
    }
  }

  lemma FreshAtCommit(hist: History, rv: nat, d: Doc)
    requires GoodHistory(hist) && rv < |hist|
    requires forall id :: ImportedId(d, id) ==> Source(hist, rv, id)
    ensures FreshFor(hist[rv].op, d)
  {
    var op := hist[rv].op;
    if op.Create? {
      forall i | 0 <= i < |d.devices| ensures d.devices[i].id != op.nd.id {
        assert ImportedId(d, d.devices[i].id);
        var j :| 0 <= j < rv && BroughtIn(hist[j].op, d.devices[i].id);
      }
    }
  }

  /** Every stored document is valid, and its device ids were brought in by the commits before it. */
  lemma {:induction false} HistoryValid(ap: Callback<Op, Doc, Rnd>, log: seq<Doc>, hist: History, rv: nat)
    requires KeepsDocs(ap) && Serial(ap, EMPTY, log, hist) && GoodHistory(hist) && rv <= |log|
    ensures ValidDoc(At(EMPTY, log, rv))
    ensures forall id :: ImportedId(At(EMPTY, log, rv), id) ==> Source(hist, rv, id)
  {
    if rv > 0 {
      HistoryValid(ap, log, hist, rv - 1);
      var d, e := At(EMPTY, log, rv - 1), hist[rv - 1];
      FreshAtCommit(hist, rv - 1, d);
      assert ap(e.op, d, e.rnd) == Write(log[rv - 1], e.ret);
      forall id | ImportedId(log[rv - 1], id) ensures Source(hist, rv, id) {
        if ImportedId(d, id) {
          var i :| 0 <= i < rv - 1 && BroughtIn(hist[i].op, id);
          assert BroughtIn(hist[i].op, id);
        } else {
          assert BroughtIn(hist[rv - 1].op, id);
        }
      }
    }
  }

  /** Over every interleaving of replicas, every document ever stored keeps names, non-empty letters,
      endpoints and ids unique, with subscription ids at most NextSubID. */
  lemma StoredDocsValid(run: seq<Step<Op, Rnd>>)
    requires ValidRun(Apply, Init(EMPTY), run)
    requires GoodCalls(Final(Apply, Init(EMPTY), run).calls)
    ensures var s := Final(Apply, Init(EMPTY), run);
      && (forall rv: nat :: rv <= |s.log| ==> ValidDoc(At(EMPTY, s.log, rv)))
      && (forall r :: r in s.cache ==> ValidDoc(s.cache[r].doc))
  {
    var s := Final(Apply, Init(EMPTY), run);
    EmptyKept(Apply, Init(EMPTY), run);
    RunKeeps(Apply, Init(EMPTY), run);
    GoodCallsGoodHistory(s);
    ApplyKeepsDocs();
    forall rv: nat | rv <= |s.log| ensures ValidDoc(At(EMPTY, s.log, rv)) {
      HistoryValid(Apply, s.log, s.hist, rv);
    }
  }

  // ---- secrets ----

  /** Nobody but a PutKV of that key changes a key once it is there. */
  lemma ApplyKeepsKey(op: Op, d: Doc, rnd: Rnd, k: string)
    requires k in d.kv && !(op.PutKV? && op.k == k) && Apply(op, d, rnd).Write?
    ensures var d' := Apply(op, d, rnd).doc; k in d'.kv && d'.kv[k] == d.kv[k]
  {}

  ghost predicate NeverPut(hist: History, k: string) {
    forall i :: 0 <= i < |hist| ==> !(hist[i].op.PutKV? && hist[i].op.k == k)
  }

  ghost predicate KeepsKey(ap: Callback<Op, Doc, Rnd>, k: string) {
    forall op: Op, d: Doc, rnd: Rnd :: k in d.kv && !(op.PutKV? && op.k == k) && ap(op, d, rnd).Write? ==>
      k in ap(op, d, rnd).doc.kv && ap(op, d, rnd).doc.kv[k] == d.kv[k]
  }

  lemma ApplyKeepsEveryKey(k: string)
    ensures KeepsKey(Apply, k)
  {
    forall op: Op, d: Doc, rnd: Rnd | k in d.kv && !(op.PutKV? && op.k == k) && Apply(op, d, rnd).Write?
      ensures k in Apply(op, d, rnd).doc.kv && Apply(op, d, rnd).doc.kv[k] == d.kv[k]
    {
      ApplyKeepsKey(op, d, rnd, k);
    }
  }

  lemma KeyStep(ap: Callback<Op, Doc, Rnd>, log: seq<Doc>, hist: History, k: string, n: nat)
    requires KeepsKey(ap, k) && Serial(ap, EMPTY, log, hist) && NeverPut(hist, k) && n < |log|
    requires k in At(EMPTY, log, n).kv
    ensures k in At(EMPTY, log, n + 1).kv && At(EMPTY, log, n + 1).kv[k] == At(EMPTY, log, n).kv[k]
  {
    SerialAt(ap, EMPTY, log, hist, n + 1);
  }

  lemma KeyStays(log: seq<Doc>, hist: History, k: string, i: nat, j: nat)
    requires Serial(Apply, EMPTY, log, hist) && NeverPut(hist, k) && i <= j <= |log|
    requires k in At(EMPTY, log, i).kv
    ensures k in At(EMPTY, log, j).kv && At(EMPTY, log, j).kv[k] == At(EMPTY, log, i).kv[k]
  {
    var v := At(EMPTY, log, i).kv[k];
    var p := (d: Doc) => k in d.kv && d.kv[k] == v;
    ApplyKeepsEveryKey(k);
    forall n: nat | n < |log| && p(At(EMPTY, log, n)) ensures p(At(EMPTY, log, n + 1)) {
      KeyStep(Apply, log, hist, k, n);
    }
    Persists(p, EMPTY, log, i, j);
  }

  predicate ErrorFree(k: Call<Op, Doc, Rnd>) {
    k.phase.Done? && (k.phase.reply.Wrote? || k.phase.reply.Kept?)
  }

  /** What an error-free secret call returned is stored at the version its reply rests on. */
  lemma SecretIsStored(s: Hub, c: nat)
    requires Inv(Apply, s) && s.empty == EMPTY && c in s.calls && s.calls[c].op.Secret? && ErrorFree(s.calls[c])
    ensures var r := s.calls[c].phase.reply;
      var k := s.calls[c].op.k;
      r.at <= |s.log| && k in At(EMPTY, s.log, r.at).kv && At(EMPTY, s.log, r.at).kv[k] == r.ret
  {
    var r := s.calls[c].phase.reply;
    assert CallOk(Apply, EMPTY, s.log, s.hist, c, s.calls[c]);
    if r.Wrote? {
      var e := s.hist[r.at - 1];
      assert Apply(e.op, At(EMPTY, s.log, r.at - 1), e.rnd) == Write(s.log[r.at - 1], e.ret);
    }
  }

  /** All error-free secret calls for a key that nobody overwrites return one value: on all replicas,
      at all times, however they race on an empty store, and also when a replica imports. */
  lemma SecretsAgree(run: seq<Step<Op, Rnd>>, k: string, c: nat, e: nat)
    requires ValidRun(Apply, Init(EMPTY), run)
    requires var s := Final(Apply, Init(EMPTY), run);
      && NeverPut(s.hist, k)
      && c in s.calls && s.calls[c].op == Secret(k) && ErrorFree(s.calls[c])
      && e in s.calls && s.calls[e].op == Secret(k) && ErrorFree(s.calls[e])
    ensures var s := Final(Apply, Init(EMPTY), run);
      s.calls[c].phase.reply.ret == s.calls[e].phase.reply.ret
  {
    var s := Final(Apply, Init(EMPTY), run);
    EmptyKept(Apply, Init(EMPTY), run);
    RunKeeps(Apply, Init(EMPTY), run);
    SecretIsStored(s, c);
    SecretIsStored(s, e);
    var i, j := s.calls[c].phase.reply.at, s.calls[e].phase.reply.at;
    if i <= j {
      KeyStays(s.log, s.hist, k, i, j);
    } else {
      KeyStays(s.log, s.hist, k, j, i);
    }
  }

  // ---- devices ----

  ghost predicate StoredWithLetter(before: Doc, after: Doc, nd: Device, letter: string) {
    && after.devices == before.devices + [nd.(letter := letter)]
    && !NameTaken(before.devices, nd.name, "")
    && letter !in UsedLetters(before.devices)
    && (letter == "" <==> forall l :: ValidLetter(l) ==> l in UsedLetters(before.devices))
  }

  lemma CreateStores(nd: Device, d: Doc, d': Doc, ret: string)
    requires ApplyCreate(d, nd) == Write(d', ret)
    ensures StoredWithLetter(d, d', nd, ret)
  {
    NextFreeIsFirst(UsedLetters(d.devices));
  }

  /** The device handed to the caller is the one that was stored: under its own id, with the letter
      returned, which is empty only if all 702 letters were taken in the document it was added to. */
  lemma CreatedDeviceIsStored(run: seq<Step<Op, Rnd>>, c: nat, nd: Device, ret: string, at: nat)
    requires ValidRun(Apply, Init(EMPTY), run)
    requires var s := Final(Apply, Init(EMPTY), run);
      c in s.calls && s.calls[c].op == Create(nd) && s.calls[c].phase == Done(Wrote(ret, at))
    ensures var s := Final(Apply, Init(EMPTY), run);
      1 <= at <= |s.log| && StoredWithLetter(At(EMPTY, s.log, at - 1), At(EMPTY, s.log, at), nd, ret)
  {
    var s := Final(Apply, Init(EMPTY), run);
    RepliesTell(Apply, EMPTY, run, c);
    CreateStores(nd, At(EMPTY, s.log, at - 1), s.log[at - 1], ret);
  }

  // ---- subscription ids ----

  lemma IdsNotReusedTransitive(a: Doc, b: Doc, c: Doc)
    requires IdsNotReused(a, b) && IdsNotReused(b, c)
    ensures IdsNotReused(a, c)
  {}

  /** What the callbacks do to keys: none takes one away, and an import is written only where there is none. */
  ghost predicate KeepsKeys(ap: Callback<Op, Doc, Rnd>) {
    forall op: Op, d: Doc, rnd: Rnd :: HasKeys(d) && ap(op, d, rnd).Write? ==> HasKeys(ap(op, d, rnd).doc) && !op.Import?
  }

  lemma ApplyKeepsKeys()
    ensures KeepsKeys(Apply)
  {
    forall op: Op, d: Doc, rnd: Rnd | HasKeys(d) && Apply(op, d, rnd).Write?
      ensures HasKeys(Apply(op, d, rnd).doc) && !op.Import?
    {
      var k :| k in d.kv;
      assert op.PutKV? ==> op.k in Apply(op, d, rnd).doc.kv;
      assert !op.PutKV? ==> k in Apply(op, d, rnd).doc.kv;
    }
  }

  lemma KeysStep(ap: Callback<Op, Doc, Rnd>, log: seq<Doc>, hist: History, n: nat)
    requires KeepsKeys(ap) && Serial(ap, EMPTY, log, hist) && n < |log| && HasKeys(At(EMPTY, log, n))
    ensures HasKeys(At(EMPTY, log, n + 1))
  {
    SerialAt(ap, EMPTY, log, hist, n + 1);
  }

  lemma KeysStay(log: seq<Doc>, hist: History, i: nat, j: nat)
    requires Serial(Apply, EMPTY, log, hist) && i <= j <= |log| && HasKeys(At(EMPTY, log, i))
    ensures HasKeys(At(EMPTY, log, j))
  {
    ApplyKeepsKeys();
    forall n: nat | n < |log| && HasKeys(At(EMPTY, log, n)) ensures HasKeys(At(EMPTY, log, n + 1)) {
      KeysStep(Apply, log, hist, n);
    }
    Persists(HasKeys, EMPTY, log, i, j);
  }

  /** A hub serves subscriptions only once it has its cookie key: some secret call has come back. */
  ghost predicate Started(s: Hub, st: Step<Op, Rnd>) {
    st.Begin? && st.op.AddSub? ==> exists c :: c in s.calls && s.calls[c].op.Secret? && ErrorFree(s.calls[c])
  }

  ghost predicate StartedRun(s: Hub, run: seq<Step<Op, Rnd>>)
    requires ValidRun(Apply, s, run)
    decreases run
  {
    run == [] || (Started(s, run[0]) && StartedRun(Next(Apply, s, run[0]), run[1..]))
  }

  ghost predicate SubsAddedToKeys(log: seq<Doc>, hist: History)
    requires |hist| == |log|
  {
    forall i :: 0 <= i < |hist| && hist[i].op.AddSub? ==> HasKeys(At(EMPTY, log, i))
  }

  /** Wherever a subscription is, or is about to be added, there are keys. */
  ghost predicate SubsHaveKeys(s: Hub) {
    && s.empty == EMPTY && |s.hist| == |s.log|
    && (forall c :: c in s.calls && s.calls[c].op.AddSub? ==> HasKeys(At(EMPTY, s.log, |s.log|)))
    && SubsAddedToKeys(s.log, s.hist)
  }

  /** Once a secret call has come back, there are keys. */
  lemma SecretsLeaveKeys(s: Hub, c: nat)
    requires Inv(Apply, s) && s.empty == EMPTY && c in s.calls && s.calls[c].op.Secret? && ErrorFree(s.calls[c])
    ensures HasKeys(At(EMPTY, s.log, |s.log|))
  {
    SecretIsStored(s, c);
    KeysStay(s.log, s.hist, s.calls[c].phase.reply.at, |s.log|);
  }

  lemma AppendKeepsSubKeys(log: seq<Doc>, hist: History, d: Doc, e: Commit<Op, Rnd>)
    requires |hist| == |log| && SubsAddedToKeys(log, hist)
    requires e.op.AddSub? ==> HasKeys(At(EMPTY, log, |log|))
    ensures SubsAddedToKeys(log + [d], hist + [e])
  {
    forall i | 0 <= i < |hist| + 1 && (hist + [e])[i].op.AddSub? ensures HasKeys(At(EMPTY, log + [d], i)) {
      assert At(EMPTY, log + [d], i) == At(EMPTY, log, i);
    }
  }

  /** A PUT that can be stored was computed on the current document. */
  lemma PutKeepsKeys(ap: Callback<Op, Doc, Rnd>, s: Hub, c: nat)
    requires KeepsKeys(ap) && CallsOk(ap, s.empty, s.log, s.hist, s.calls) && Enabled(s, Accept(c))
    requires HasKeys(At(s.empty, s.log, |s.log|))
    ensures HasKeys(s.calls[c].put.value.doc)
  {
    var k := s.calls[c];
    assert CallOk(ap, s.empty, s.log, s.hist, c, k);
  }

  lemma AcceptKeepsSubKeys(ap: Callback<Op, Doc, Rnd>, s: Hub, c: nat)
    requires KeepsKeys(ap) && CallsOk(ap, s.empty, s.log, s.hist, s.calls)
    requires SubsHaveKeys(s) && Enabled(s, Accept(c))
    ensures SubsHaveKeys(Next(ap, s, Accept(c)))
  {
    var k := s.calls[c];
    var p := k.put.value;
    AppendKeepsSubKeys(s.log, s.hist, p.doc, Commit(c, k.op, p.rnd, p.ret));
    if HasKeys(At(EMPTY, s.log, |s.log|)) {
      PutKeepsKeys(ap, s, c);
    }
  }

  lemma SubKeysKept(s: Hub, st: Step<Op, Rnd>)
    requires Inv(Apply, s) && SubsHaveKeys(s) && Enabled(s, st) && Started(s, st)
    ensures SubsHaveKeys(Next(Apply, s, st))
  {
    if st.Accept? {
      ApplyKeepsKeys();
      AcceptKeepsSubKeys(Apply, s, st.c);
    } else if st.Begin? && st.op.AddSub? {
      var c :| c in s.calls && s.calls[c].op.Secret? && ErrorFree(s.calls[c]);
      SecretsLeaveKeys(s, c);
    }
  }

  lemma {:induction false} StartedRunKeeps(s: Hub, run: seq<Step<Op, Rnd>>)
    requires Inv(Apply, s) && SubsHaveKeys(s) && ValidRun(Apply, s, run) && StartedRun(s, run)
    ensures Inv(Apply, Final(Apply, s, run)) && SubsHaveKeys(Final(Apply, s, run))
    decreases run
  {
    if run == [] {
    } else {
      StepKeeps(Apply, s, run[0]);
      SubKeysKept(s, run[0]);
      StartedRunKeeps(Next(Apply, s, run[0]), run[1..]);
    }
  }

  lemma ApplyKeepsIdKeys(op: Op, d: Doc, rnd: Rnd)
    requires GoodOp(op) && IdsHaveKeys(d) && (op.AddSub? ==> HasKeys(d)) && Apply(op, d, rnd).Write?
    ensures IdsHaveKeys(Apply(op, d, rnd).doc)
    ensures op.Import? ==> d.nextSubId == 0
  {
    ApplyKeepsKeys();
    if !HasKeys(d) && !op.Import? {
      FewerSubs(op, d, rnd);
    }
  }

  ghost predicate KeepsIdKeys(ap: Callback<Op, Doc, Rnd>) {
    forall op: Op, d: Doc, rnd: Rnd ::
      GoodOp(op) && IdsHaveKeys(d) && (op.AddSub? ==> HasKeys(d)) && ap(op, d, rnd).Write? ==> IdsHaveKeys(ap(op, d, rnd).doc)
  }

  lemma ApplyKeepsAllIdKeys()
    ensures KeepsIdKeys(Apply)
  {
    forall op: Op, d: Doc, rnd: Rnd | GoodOp(op) && IdsHaveKeys(d) && (op.AddSub? ==> HasKeys(d)) && Apply(op, d, rnd).Write?
      ensures IdsHaveKeys(Apply(op, d, rnd).doc)
    {
      ApplyKeepsIdKeys(op, d, rnd);
    }
  }

  lemma IdKeysStep(ap: Callback<Op, Doc, Rnd>, s: Hub, n: nat)
    requires KeepsIdKeys(ap) && Serial(ap, EMPTY, s.log, s.hist)
    requires SubsHaveKeys(s) && GoodHistory(s.hist) && n < |s.log| && IdsHaveKeys(At(EMPTY, s.log, n))
    ensures IdsHaveKeys(At(EMPTY, s.log, n + 1))
  {
    SerialAt(ap, EMPTY, s.log, s.hist, n + 1);
  }

  lemma IdsAlwaysHaveKeys(s: Hub, rv: nat)
    requires Serial(Apply, EMPTY, s.log, s.hist) && SubsHaveKeys(s) && GoodHistory(s.hist) && rv <= |s.log|
    ensures IdsHaveKeys(At(EMPTY, s.log, rv))
  {
    ApplyKeepsAllIdKeys();
    forall n: nat | n < |s.log| && IdsHaveKeys(At(EMPTY, s.log, n)) ensures IdsHaveKeys(At(EMPTY, s.log, n + 1)) {
      IdKeysStep(Apply, s, n);
    }
    Persists(IdsHaveKeys, EMPTY, s.log, 0, rv);
  }

  lemma {:induction false} IdsNeverReused(log: seq<Doc>, i: nat, j: nat)
    requires forall n :: 0 <= n < |log| ==> IdsNotReused(At(EMPTY, log, n), At(EMPTY, log, n + 1))
    requires i <= j <= |log|
    ensures IdsNotReused(At(EMPTY, log, i), At(EMPTY, log, j))
  {
    if i < j {
      IdsNeverReused(log, i, j - 1);
      assert IdsNotReused(At(EMPTY, log, j - 1), At(EMPTY, log, j - 1 + 1));
      IdsNotReusedTransitive(At(EMPTY, log, i), At(EMPTY, log, j - 1), At(EMPTY, log, j));
    } else {
      assert forall s :: s in At(EMPTY, log, i).subs ==> s.id == s.id && s.endpoint == s.endpoint;
    }
  }

  /** Over every interleaving of hubs that have started, imports included, an id once given to a push endpoint
      never names another one. */
  lemma SubIdsNeverReused(run: seq<Step<Op, Rnd>>, i: nat, j: nat)
    requires ValidRun(Apply, Init(EMPTY), run) && StartedRun(Init(EMPTY), run)
    requires var s := Final(Apply, Init(EMPTY), run); GoodCalls(s.calls) && i <= j <= |s.log|
    ensures var s := Final(Apply, Init(EMPTY), run);
      IdsNotReused(At(EMPTY, s.log, i), At(EMPTY, s.log, j))
  {
    var s := Final(Apply, Init(EMPTY), run);
    StartedRunKeeps(Init(EMPTY), run);
    GoodCallsGoodHistory(s);
    ApplyKeepsDocs();
    forall n | 0 <= n < |s.log| ensures IdsNotReused(At(EMPTY, s.log, n), At(EMPTY, s.log, n + 1)) {
      NextKeepsIds(s, n);
    }
    IdsNeverReused(s.log, i, j);
  }

  lemma NextKeepsIds(s: Hub, n: nat)
    requires Inv(Apply, s) && SubsHaveKeys(s) && GoodHistory(s.hist) && KeepsDocs(Apply) && n < |s.log|
    ensures IdsNotReused(At(EMPTY, s.log, n), At(EMPTY, s.log, n + 1))
  {
    var d, e := At(EMPTY, s.log, n), s.hist[n];
    HistoryValid(Apply, s.log, s.hist, n);
    IdsAlwaysHaveKeys(s, n);
    assert Apply(e.op, d, e.rnd) == Write(s.log[n], e.ret);
    ApplyKeepsIdKeys(e.op, d, e.rnd);
    ApplyKeepsIds(e.op, d, e.rnd);
  }
}
