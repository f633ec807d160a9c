/** What each callback of the state document does, said from the outside: which entries change and how, when it
    refuses, and when there is nothing to do; and what an answer therefore tells its caller. */
module HubEffects {
  import opened Optimistic
  import opened HubDoc
  import opened HubStore
  import opened Letters

  ghost predicate Has(d: Doc, id: string) {
    exists i :: 0 <= i < |d.devices| && d.devices[i].id == id
  }

  ghost predicate NamedByOther(d: Doc, name: string, id: string) {
    exists i :: 0 <= i < |d.devices| && d.devices[i].name == name && d.devices[i].id != id
  }

  ghost predicate LetteredByOther(d: Doc, letter: string, id: string) {
    exists i :: 0 <= i < |d.devices| && d.devices[i].letter == letter && d.devices[i].id != id
  }

  predicate SameButDevices(d: Doc, d': Doc) {
    d'.kv == d.kv && d'.subs == d.subs && d'.nextSubId == d.nextSubId
  }

  predicate SameButSubs(d: Doc, d': Doc) {
    d'.kv == d.kv && d'.devices == d.devices
  }

  /** The device with this id becomes `edit` of itself, every other one stays. */
  ghost predicate OnlyThis(d: Doc, d': Doc, id: string, edit: Device -> Device) {
    && SameButDevices(d, d') && Has(d, id) && |d'.devices| == |d.devices|
    && forall i :: 0 <= i < |d.devices| ==>
         d'.devices[i] == if d.devices[i].id == id then edit(d.devices[i]) else d.devices[i]
  }

  /** One entry is taken out, the others close up. */
  ghost predicate TakenOut<T(!new)>(s: seq<T>, s': seq<T>, x: nat) {
    && x < |s| && |s'| == |s| - 1
    && (forall i :: 0 <= i < x ==> s'[i] == s[i]) && forall i :: x <= i < |s'| ==> s'[i] == s[i + 1]
  }

  /** What a write has changed. */
  ghost predicate Effect(op: Op, d: Doc, d': Doc, ret: string) {
    match op
    case Secret(k) => k !in d.kv && SameButKeys(d, d', k) && d'.kv[k] == ret
    case PutKV(k, v) => SameButKeys(d, d', k) && d'.kv[k] == v
    case Create(nd) =>
      && SameButDevices(d, d') && d'.devices == d.devices + [nd.(letter := ret)]
      && (forall i :: 0 <= i < |d.devices| ==> d.devices[i].name != nd.name && (ret != "" ==> d.devices[i].letter != ret))
      && (ret == "" || ValidLetter(ret))
    case Rotate(id, hash) => OnlyThis(d, d', id, (x: Device) => x.(tokenHash := hash))
    case PeerAccess(id, access) => OnlyThis(d, d', id, (x: Device) => x.(peerAccess := access))
    case Rename(id, name) => OnlyThis(d, d', id, (x: Device) => x.(name := name)) && !NamedByOther(d, name, id)
    case SetLetter(id, letter) =>
      OnlyThis(d, d', id, (x: Device) => x.(letter := letter)) && !LetteredByOther(d, letter, id)
    case Touch(id, hostname, version, now) =>
      OnlyThis(d, d', id, (x: Device) => x.(lastSeen := now, hostname := hostname, version := version))
    case Delete(id) =>
      SameButDevices(d, d') && exists x: nat :: TakenOut(d.devices, d'.devices, x) && d.devices[x].id == id
    case AddSub(email, endpoint, p256dh, auth) =>
      SameButSubs(d, d') && if Subscribed(d, endpoint)
        then Resubscribed(d, d', email, endpoint, p256dh, auth) else NewlySubscribed(d, d', email, endpoint, p256dh, auth)
    case RemoveSub(endpoint) =>
      && SameButSubs(d, d') && d'.nextSubId == d.nextSubId
      && exists x: nat :: TakenOut(d.subs, d'.subs, x) && d.subs[x].endpoint == endpoint
    case Import(doc) => d' == doc && d.devices == [] && d.kv == map[]
    case Backfill =>
      && SameButDevices(d, d') && |d'.devices| == |d.devices| && (exists i :: 0 <= i < |d.devices| && Unlettered(d.devices[i]))
      && forall i :: 0 <= i < |d.devices| ==>
           && d'.devices[i] == d.devices[i].(letter := d'.devices[i].letter)
           && (!Unlettered(d.devices[i]) ==> d'.devices[i] == d.devices[i])
  }

  predicate SameButKeys(d: Doc, d': Doc, k: string) {
    && d'.devices == d.devices && d'.subs == d.subs && d'.nextSubId == d.nextSubId
    && d'.kv.Keys == d.kv.Keys + {k} && d'.kv - {k} == d.kv - {k}
  }

  ghost predicate Subscribed(d: Doc, endpoint: string) {
    exists i :: 0 <= i < |d.subs| && d.subs[i].endpoint == endpoint
  }

  /** The endpoint's subscription gets a new owner and new keys, under its old id. */
  ghost predicate Resubscribed(d: Doc, d': Doc, email: string, endpoint: string, p256dh: string, auth: string) {
    && d'.nextSubId == d.nextSubId && |d'.subs| == |d.subs|
    && forall i :: 0 <= i < |d.subs| ==>
         var o := d.subs[i];
         d'.subs[i] == if o.endpoint == endpoint then Sub(o.id, email, endpoint, p256dh, auth, o.created) else o
  }

  /** A new subscription comes last, under the next id. */
  ghost predicate NewlySubscribed(d: Doc, d': Doc, email: string, endpoint: string, p256dh: string, auth: string) {
    && d'.nextSubId == d.nextSubId + 1 && |d'.subs| == |d.subs| + 1 && d'.subs[..|d.subs|] == d.subs
    && var n := d'.subs[|d.subs|];
    && n.id == d'.nextSubId && n.email == email && n.endpoint == endpoint && n.p256dh == p256dh && n.auth == auth
  }

  /** Why a callback refuses. */
  ghost predicate Refusal(op: Op, d: Doc, err: string) {
    match op
    case Create(nd) => err == ERR_DUPLICATE_NAME && exists i :: 0 <= i < |d.devices| && d.devices[i].name == nd.name
    case Rotate(id, _) => err == ERR_NO_ROWS && !Has(d, id)
    case PeerAccess(id, _) => err == ERR_NO_ROWS && !Has(d, id)
    case Delete(id) => err == ERR_NO_ROWS && !Has(d, id)
    case Rename(id, name) => if Has(d, id) then err == ERR_DUPLICATE_NAME && NamedByOther(d, name, id) else err == ERR_NO_ROWS
    case SetLetter(id, letter) =>
      if Has(d, id) then err == ERR_DUPLICATE_LETTER && LetteredByOther(d, letter, id) else err == ERR_NO_ROWS
    case _ => false
  }

  /** When there is nothing to write. */
  ghost predicate Unneeded(op: Op, d: Doc, ret: string) {
    match op
    case Secret(k) => k in d.kv && ret == d.kv[k]
    case PutKV(k, v) => k in d.kv && d.kv[k] == v
    case Touch(id, hostname, version, now) =>
      forall i :: 0 <= i < |d.devices| && d.devices[i].id == id ==>
        d.devices[i].hostname == hostname && d.devices[i].version == version && now - d.devices[i].lastSeen < 300
    case RemoveSub(endpoint) => !Subscribed(d, endpoint)
    case Import(_) => d.devices != [] || d.kv != map[]
    case Backfill => forall i :: 0 <= i < |d.devices| ==> !Unlettered(d.devices[i])
    case _ => false
  }

  ghost predicate Tells(op: Op, d: Doc, o: Outcome<Doc>) {
    match o
    case Write(d', ret) => Effect(op, d, d', ret)
    case Refuse(err) => Refusal(op, d, err)
    case NoChange(ret) => Unneeded(op, d, ret)
  }

  lemma IndexIs(d: Doc, id: string)
    requires ValidDoc(d)
    ensures DeviceIndex(d.devices, id) < |d.devices| <==> Has(d, id)
    ensures forall i :: 0 <= i < |d.devices| ==> (d.devices[i].id == id <==> i == DeviceIndex(d.devices, id))
  {}

  lemma EditTells(d: Doc, id: string, edit: Device -> Device)
    requires ValidDoc(d)
    ensures var o := ApplyField(d, id, edit);
      if Has(d, id) then o.Write? && OnlyThis(d, o.doc, id, edit) else o == Refuse(ERR_NO_ROWS)
  {
    IndexIs(d, id);
  }

  lemma RenameTells(d: Doc, id: string, name: string)
    requires ValidDoc(d)
    ensures Tells(Rename(id, name), d, ApplyRename(d, id, name))
  {
    IndexIs(d, id);
  }

  lemma SetLetterTells(d: Doc, id: string, letter: string)
    requires ValidDoc(d)
    ensures Tells(SetLetter(id, letter), d, ApplySetLetter(d, id, letter))
  {
    IndexIs(d, id);
  }

  lemma TouchTells(d: Doc, id: string, hostname: string, version: string, now: int)
    requires ValidDoc(d)
    ensures Tells(Touch(id, hostname, version, now), d, ApplyTouch(d, id, hostname, version, now))
  {
    IndexIs(d, id);
  }

  lemma DeleteTells(d: Doc, id: string)
    requires ValidDoc(d)
    ensures Tells(Delete(id), d, ApplyDelete(d, id))
  {
    IndexIs(d, id);
    if Has(d, id) {
      assert TakenOut(d.devices, ApplyDelete(d, id).doc.devices, DeviceIndex(d.devices, id));
    }
  }

  lemma CreateTells(d: Doc, nd: Device)
    requires ValidDoc(d)
    ensures Tells(Create(nd), d, ApplyCreate(d, nd))
  {
    var used := UsedLetters(d.devices);
    NextFreeIsFirst(used);
    assert forall i :: 0 <= i < |d.devices| && d.devices[i].letter != "" ==> d.devices[i].letter in used;
  }

  lemma AddSubTells(d: Doc, email: string, endpoint: string, p256dh: string, auth: string, now: int)
    requires ValidDoc(d)
    ensures Tells(AddSub(email, endpoint, p256dh, auth), d, ApplyAddSub(d, email, endpoint, p256dh, auth, now))
  {}

  lemma RemoveSubTells(d: Doc, endpoint: string)
    ensures Tells(RemoveSub(endpoint), d, ApplyRemoveSub(d, endpoint))
  {
    var x := SubIndex(d.subs, endpoint);
    if x < |d.subs| {
      assert TakenOut(d.subs, ApplyRemoveSub(d, endpoint).doc.subs, x);
    }
  }

  lemma BackfillTells(d: Doc, rnd: Rnd)
    requires ValidDoc(d)
    ensures Tells(Backfill, d, Apply(Backfill, d, rnd))
  {
    LetteredChangesLetters(d.devices);
    EarliestIsEarliest(d.devices, |d.devices|);
  }

  lemma KeyTells(op: Op, d: Doc, rnd: Rnd)
    requires op.Secret? || op.PutKV? || op.Import?
    ensures Tells(op, d, Apply(op, d, rnd))
  {}

  /** Every callback's outcome: a write has exactly the effect described, and a refusal or an answer without a write
      its reason. */
  lemma ApplyTells(op: Op, d: Doc, rnd: Rnd)
    requires ValidDoc(d)
    ensures Tells(op, d, Apply(op, d, rnd))
  {
    match op
    case Create(nd) => CreateTells(d, nd);
    case Rotate(id, hash) => EditTells(d, id, (x: Device) => x.(tokenHash := hash));
    case PeerAccess(id, access) => EditTells(d, id, (x: Device) => x.(peerAccess := access));
    case Delete(id) => DeleteTells(d, id);
    case Rename(id, name) => RenameTells(d, id, name);
    case SetLetter(id, letter) => SetLetterTells(d, id, letter);
    case Touch(id, hostname, version, now) => TouchTells(d, id, hostname, version, now);
    case AddSub(email, endpoint, p256dh, auth) => AddSubTells(d, email, endpoint, p256dh, auth, rnd.now);
    case RemoveSub(endpoint) => RemoveSubTells(d, endpoint);
    case Backfill => BackfillTells(d, rnd);
    case _ => KeyTells(op, d, rnd);
  }

  /** No two reasons hold at once, so the outcome's kind is settled by them too. */
  lemma OneReason(op: Op, d: Doc, d': Doc, ret: string, err: string, kept: string)
    requires ValidDoc(d)
    ensures !(Refusal(op, d, err) && Unneeded(op, d, kept))
    ensures !(Effect(op, d, d', ret) && Refusal(op, d, err))
  {}

  // ---- over runs ----

  /** What a reply tells of the versions of a log. */
  ghost predicate ReplyTells(op: Op, log: seq<Doc>, reply: Reply<Rnd>) {
    match reply
    case Wrote(ret, at) => 1 <= at <= |log| && Effect(op, At(EMPTY, log, at - 1), At(EMPTY, log, at), ret)
    case Kept(ret, at, _) => at <= |log| && Unneeded(op, At(EMPTY, log, at), ret)
    case Refused(err, at, _) => at <= |log| && Refusal(op, At(EMPTY, log, at), err)
    case _ => true
  }

  lemma ValidTells(op: Op, d: Doc, rnd: Rnd, o: Outcome<Doc>)
    requires ValidDoc(d) && Apply(op, d, rnd) == o
    ensures Tells(op, d, o)
  {
    ApplyTells(op, d, rnd);
  }

  lemma WriteTells(run: seq<Step<Op, Rnd>>, c: nat, ret: string, at: nat)
    requires ValidRun(Apply, Init(EMPTY), run)
    requires var s := Final(Apply, Init(EMPTY), run);
      GoodCalls(s.calls) && c in s.calls && s.calls[c].phase == Done(Wrote(ret, at))
    ensures var s := Final(Apply, Init(EMPTY), run);
      1 <= at <= |s.log| && Effect(s.calls[c].op, At(EMPTY, s.log, at - 1), At(EMPTY, s.log, at), ret)
  {
    var rnd := AcknowledgedWrite(Apply, EMPTY, run, c, ret, at);
    StoredDocsValid(run);
    var s := Final(Apply, Init(EMPTY), run);
    ValidTells(s.calls[c].op, At(EMPTY, s.log, at - 1), rnd, Write(At(EMPTY, s.log, at), ret));
  }

  lemma OtherTells(run: seq<Step<Op, Rnd>>, c: nat)
    requires ValidRun(Apply, Init(EMPTY), run)
    requires var s := Final(Apply, Init(EMPTY), run);
      GoodCalls(s.calls) && c in s.calls && s.calls[c].phase.Done? && !s.calls[c].phase.reply.Wrote?
    ensures var s := Final(Apply, Init(EMPTY), run); ReplyTells(s.calls[c].op, s.log, s.calls[c].phase.reply)
  {
    var s := Final(Apply, Init(EMPTY), run);
    RepliesTell(Apply, EMPTY, run, c);
    StoredDocsValid(run);
    match s.calls[c].phase.reply
    case Kept(ret, at, rnd) => ValidTells(s.calls[c].op, At(EMPTY, s.log, at), rnd, NoChange(ret));
    case Refused(err, at, rnd) => ValidTells(s.calls[c].op, At(EMPTY, s.log, at), rnd, Refuse(err));
    case _ =>
  }

  /** Over every interleaving: an acknowledged write had its effect from one stored version to the next; any other
      definite answer had its reason at a stored version. */
  lemma AnswersTell(run: seq<Step<Op, Rnd>>, c: nat)
    requires ValidRun(Apply, Init(EMPTY), run)
    requires var s := Final(Apply, Init(EMPTY), run); GoodCalls(s.calls) && c in s.calls && s.calls[c].phase.Done?
    ensures var s := Final(Apply, Init(EMPTY), run); ReplyTells(s.calls[c].op, s.log, s.calls[c].phase.reply)
  {
    var s := Final(Apply, Init(EMPTY), run);
    match s.calls[c].phase.reply
    case Wrote(ret, at) => WriteTells(run, c, ret, at);
    case _ => OtherTells(run, c);
  }

  /** In particular a deleted device is gone from the version of the reply, with everybody else still there. */
  lemma DeletedIsGone(run: seq<Step<Op, Rnd>>, c: nat, id: string, ret: string, at: nat)
    requires ValidRun(Apply, Init(EMPTY), run)
    requires var s := Final(Apply, Init(EMPTY), run);
      GoodCalls(s.calls) && c in s.calls && s.calls[c].op == Delete(id) && s.calls[c].phase == Done(Wrote(ret, at))
    ensures var s := Final(Apply, Init(EMPTY), run);
      && 1 <= at <= |s.log|
      && forall x :: x in At(EMPTY, s.log, at).devices <==> x in At(EMPTY, s.log, at - 1).devices && x.id != id
  {
    var s := Final(Apply, Init(EMPTY), run);
    AnswersTell(run, c);
    StoredDocsValid(run);
    TakenOutById(At(EMPTY, s.log, at - 1), At(EMPTY, s.log, at), id);
  }

  lemma TakenOutById(d: Doc, d': Doc, id: string)
    requires ValidDoc(d) && exists x: nat :: TakenOut(d.devices, d'.devices, x) && d.devices[x].id == id
    ensures forall y :: y in d'.devices <==> y in d.devices && y.id != id
  {
    var x: nat :| TakenOut(d.devices, d'.devices, x) && d.devices[x].id == id;
    forall y ensures y in d'.devices <==> y in d.devices && y.id != id {
      if y in d'.devices {
        var i :| 0 <= i < |d'.devices| && d'.devices[i] == y;
        assert d.devices[if i < x then i else i + 1] == y;
      }
      if y in d.devices && y.id != id {
        var i :| 0 <= i < |d.devices| && d.devices[i] == y;
        assert d'.devices[if i < x then i else i - 1] == y;
      }
    }
  }

  /** And a rotated token is the only one that lets the device in from then on. */
  lemma RotatedIsStored(run: seq<Step<Op, Rnd>>, c: nat, id: string, hash: string, ret: string, at: nat)
    requires ValidRun(Apply, Init(EMPTY), run)
    requires var s := Final(Apply, Init(EMPTY), run);
      GoodCalls(s.calls) && c in s.calls && s.calls[c].op == Rotate(id, hash) && s.calls[c].phase == Done(Wrote(ret, at))
    ensures var s := Final(Apply, Init(EMPTY), run);
      && 1 <= at <= |s.log| && Has(At(EMPTY, s.log, at), id)
      && forall x :: x in At(EMPTY, s.log, at).devices && x.id == id ==> x.tokenHash == hash
  {
    var s := Final(Apply, Init(EMPTY), run);
    AnswersTell(run, c);
    var d := At(EMPTY, s.log, at - 1);
    var i :| 0 <= i < |d.devices| && d.devices[i].id == id;
    assert At(EMPTY, s.log, at).devices[i].id == id;
  }
}
