/** The hub's state document and the callbacks that edit it. */
module HubDoc {
  import opened Optimistic
  import opened Letters
  import Order

  datatype Device = Device(
    id: string,
    name: string,
    tokenHash: string,
    created: int,
    lastSeen: int,
    hostname: string,
    version: string,
    peerAccess: string,
    letter: string)

  datatype Sub = Sub(id: int, email: string, endpoint: string, p256dh: string, auth: string, created: int)

  datatype Doc = Doc(devices: seq<Device>, kv: map<string, string>, subs: seq<Sub>, nextSubId: int)

  /** The callbacks.  What a caller draws before it starts (ids, token hashes, creation times)
      is part of the callback. */
  datatype Op =
    | Secret(k: string)
    | PutKV(k: string, v: string)
    | Create(nd: Device)
    | Rotate(id: string, hash: string)
    | Delete(id: string)
    | Rename(id: string, name: string)
    | Touch(id: string, hostname: string, version: string, now: int)
    | PeerAccess(id: string, access: string)
    | SetLetter(id: string, letter: string)
    | AddSub(email: string, endpoint: string, p256dh: string, auth: string)
    | RemoveSub(endpoint: string)
    | Import(doc: Doc)
    | Backfill

  /** What is drawn afresh in every run of a callback. */
  datatype Rnd = Rnd(gen: string, now: int)

  const EMPTY := Doc([], map[], [], 0)
  const LOCAL_DEVICE := "local"
  const TOUCH_EVERY := 300
  const ERR_NO_ROWS := "no rows"
  const ERR_DUPLICATE_NAME := "duplicate name"
  const ERR_DUPLICATE_LETTER := "duplicate letter"

  // ---- searches ----

  /** The first device with this id, or the number of devices. */
  function DeviceIndex(ds: seq<Device>, id: string): (i: nat)
    ensures i <= |ds| && (i < |ds| ==> ds[i].id == id)
    ensures forall j :: 0 <= j < i ==> ds[j].id != id
  {
    if ds == [] then 0 else if ds[0].id == id then 0 else 1 + DeviceIndex(ds[1..], id)
  }

  /** The first subscription with this endpoint, or the number of subscriptions. */
  function SubIndex(subs: seq<Sub>, endpoint: string): (i: nat)
    ensures i <= |subs| && (i < |subs| ==> subs[i].endpoint == endpoint)
    ensures forall j :: 0 <= j < i ==> subs[j].endpoint != endpoint
  {
    if subs == [] then 0 else if subs[0].endpoint == endpoint then 0 else 1 + SubIndex(subs[1..], endpoint)
  }

  predicate NameTaken(ds: seq<Device>, name: string, except: string) {
    exists i :: 0 <= i < |ds| && ds[i].name == name && ds[i].id != except
  }

  predicate LetterTaken(ds: seq<Device>, letter: string, except: string) {
    exists i :: 0 <= i < |ds| && ds[i].letter == letter && ds[i].id != except
  }

  function UsedLetters(ds: seq<Device>): (used: set<string>)
    ensures forall i :: 0 <= i < |ds| && ds[i].letter != "" ==> ds[i].letter in used
  {
    set i | 0 <= i < |ds| && ds[i].letter != "" :: ds[i].letter
  }

  // ---- letters for devices that have none ----

  predicate Unlettered(x: Device) {
    x.letter == "" && x.id != LOCAL_DEVICE
  }

  /** Registration order; a stable sort leaves equal devices as they stand. */
  predicate Before(ds: seq<Device>, i: nat, j: nat)
    requires i < |ds| && j < |ds|
  {
    if ds[i].created != ds[j].created then ds[i].created < ds[j].created
    else if ds[i].id != ds[j].id then Order.Less(ds[i].id, ds[j].id)
    else i < j
  }

  /** The earliest registered device without a letter among the first n, or n when there is none. */
  function Earliest(ds: seq<Device>, n: nat): (i: nat)
    requires n <= |ds|
    ensures i <= n
    ensures i < n ==> Unlettered(ds[i])
  {
    if n == 0 then 0
    else
      var i := Earliest(ds, n - 1);
      if !Unlettered(ds[n - 1]) then (if i == n - 1 then n else i)
      else if i < n - 1 && Before(ds, i, n - 1) then i
      else n - 1
  }

  function Missing(ds: seq<Device>): nat {
    if ds == [] then 0 else (if Unlettered(ds[0]) then 1 else 0) + Missing(ds[1..])
  }

  lemma {:induction false} MissingDrops(ds: seq<Device>, i: nat, x: Device)
    requires i < |ds| && Unlettered(ds[i]) && !Unlettered(x)
    ensures Missing(ds[i := x]) < Missing(ds)
  {
    if i == 0 {
      assert ds[i := x][1..] == ds[1..];
    } else {
      assert ds[i := x][1..] == ds[1..][i - 1 := x];
      MissingDrops(ds[1..], i - 1, x);
    }
  }

  /** The earliest device without a letter takes the next free one, until devices or letters run out. */
  function Lettered(ds: seq<Device>): (r: seq<Device>)
    ensures |r| == |ds|
    decreases Missing(ds)
  {
    var i := Earliest(ds, |ds|);
    var l := NextFree(UsedLetters(ds));
    if i == |ds| || l == "" then ds
    else
      MissingDrops(ds, i, ds[i].(letter := l));
      Lettered(ds[i := ds[i].(letter := l)])
  }

  // ---- the callbacks ----

  function ApplyCreate(d: Doc, nd: Device): Outcome<Doc> {
    if NameTaken(d.devices, nd.name, "") then Refuse(ERR_DUPLICATE_NAME)
    else
      var l := NextFree(UsedLetters(d.devices));
      Write(d.(devices := d.devices + [nd.(letter := l)]), l)
  }

  /** Edits one device in place. */
  function Edit(d: Doc, i: nat, x: Device): Outcome<Doc>
    requires i < |d.devices|
  {
    Write(d.(devices := d.devices[i := x]), "")
  }

  function ApplyRename(d: Doc, id: string, name: string): Outcome<Doc> {
    var i := DeviceIndex(d.devices, id);
    if i == |d.devices| then Refuse(ERR_NO_ROWS)
    else if NameTaken(d.devices, name, id) then Refuse(ERR_DUPLICATE_NAME)
    else Edit(d, i, d.devices[i].(name := name))
  }

  function ApplySetLetter(d: Doc, id: string, letter: string): Outcome<Doc> {
    var i := DeviceIndex(d.devices, id);
    if i == |d.devices| then Refuse(ERR_NO_ROWS)
    else if LetterTaken(d.devices, letter, id) then Refuse(ERR_DUPLICATE_LETTER)
    else Edit(d, i, d.devices[i].(letter := letter))
  }

  function ApplyTouch(d: Doc, id: string, hostname: string, version: string, now: int): Outcome<Doc> {
    var i := DeviceIndex(d.devices, id);
    if i == |d.devices| then NoChange("")
    else
      var x := d.devices[i];
      if x.hostname == hostname && x.version == version && now - x.lastSeen < TOUCH_EVERY then NoChange("")
      else Edit(d, i, x.(lastSeen := now, hostname := hostname, version := version))
  }

  function ApplyAddSub(d: Doc, email: string, endpoint: string, p256dh: string, auth: string, now: int): Outcome<Doc> {
    var i := SubIndex(d.subs, endpoint);
    if i < |d.subs| then
      Write(d.(subs := d.subs[i := d.subs[i].(email := email, p256dh := p256dh, auth := auth)]), "")
    else
      Write(d.(subs := d.subs + [Sub(d.nextSubId + 1, email, endpoint, p256dh, auth, now)], nextSubId := d.nextSubId + 1), "")
  }

  function ApplyRemoveSub(d: Doc, endpoint: string): Outcome<Doc> {
    var i := SubIndex(d.subs, endpoint);
    if i == |d.subs| then NoChange("")
    else Write(d.(subs := d.subs[..i] + d.subs[i + 1..]), "")
  }

  function ApplyDelete(d: Doc, id: string): Outcome<Doc> {
    var i := DeviceIndex(d.devices, id);
    if i == |d.devices| then Refuse(ERR_NO_ROWS)
    else Write(d.(devices := d.devices[..i] + d.devices[i + 1..]), "")
  }

  /** Rotating the token and setting the peer access differ in one field. */
  function ApplyField(d: Doc, id: string, edit: Device -> Device): Outcome<Doc> {
    var i := DeviceIndex(d.devices, id);
    if i == |d.devices| then Refuse(ERR_NO_ROWS) else Edit(d, i, edit(d.devices[i]))
  }

  function Apply(op: Op, d: Doc, rnd: Rnd): Outcome<Doc> {
    match op
    case Secret(k) =>
      if k in d.kv then NoChange(d.kv[k]) else Write(d.(kv := d.kv[k := rnd.gen]), rnd.gen)
    case PutKV(k, v) =>
      if k in d.kv && d.kv[k] == v then NoChange("") else Write(d.(kv := d.kv[k := v]), "")
    case Create(nd) => ApplyCreate(d, nd)
    case Rotate(id, hash) => ApplyField(d, id, (x: Device) => x.(tokenHash := hash))
    case Delete(id) => ApplyDelete(d, id)
    case Rename(id, name) => ApplyRename(d, id, name)
    case Touch(id, hostname, version, now) => ApplyTouch(d, id, hostname, version, now)
    case PeerAccess(id, access) => ApplyField(d, id, (x: Device) => x.(peerAccess := access))
    case SetLetter(id, letter) => ApplySetLetter(d, id, letter)
    case AddSub(email, endpoint, p256dh, auth) => ApplyAddSub(d, email, endpoint, p256dh, auth, rnd.now)
    case RemoveSub(endpoint) => ApplyRemoveSub(d, endpoint)
    case Import(doc) =>
      if |d.devices| > 0 || |d.kv| > 0 then NoChange("") else Write(doc, "")
    case Backfill =>
      if Earliest(d.devices, |d.devices|) == |d.devices| then NoChange("")
      else Write(d.(devices := Lettered(d.devices)), "")
  }

  // ---- what every stored document has ----

  ghost predicate UniqueIds(ds: seq<Device>) {
    forall i, j :: 0 <= i < j < |ds| ==> ds[i].id != ds[j].id
  }

  ghost predicate UniqueNames(ds: seq<Device>) {
    forall i, j :: 0 <= i < j < |ds| ==> ds[i].name != ds[j].name
  }

  ghost predicate UniqueLetters(ds: seq<Device>) {
    forall i, j :: 0 <= i < j < |ds| && ds[i].letter != "" ==> ds[i].letter != ds[j].letter
  }

  ghost predicate ValidDevices(ds: seq<Device>) {
    && UniqueIds(ds) && UniqueNames(ds) && UniqueLetters(ds)
    && forall i :: 0 <= i < |ds| ==> ds[i].id != ""
  }

  ghost predicate ValidSubs(subs: seq<Sub>, nextSubId: int) {
    && (forall i, j :: 0 <= i < j < |subs| ==> subs[i].id != subs[j].id && subs[i].endpoint != subs[j].endpoint)
    && (forall i :: 0 <= i < |subs| ==> 1 <= subs[i].id <= nextSubId)
  }

  ghost predicate ValidDoc(d: Doc) {
    ValidDevices(d.devices) && ValidSubs(d.subs, d.nextSubId) && d.nextSubId >= 0
  }

  predicate HasKeys(d: Doc) {
    |d.kv| > 0
  }

  /** Subscription ids are handed out only where there are keys: a hub makes its cookie key before it serves. */
  predicate IdsHaveKeys(d: Doc) {
    HasKeys(d) || d.nextSubId == 0
  }

  /** What the source demands of a callback's arguments: a new device has a fresh id and no letter yet,
      and an imported document comes from the valid database of a hub. */
  ghost predicate GoodOp(op: Op) {
    && (op.Create? ==> op.nd.id != "" && op.nd.letter == "")
    && (op.Import? ==> ValidDoc(op.doc) && IdsHaveKeys(op.doc))
  }

  lemma CreateValid(d: Doc, nd: Device)
    requires ValidDevices(d.devices) && nd.id != ""
    requires forall i :: 0 <= i < |d.devices| ==> d.devices[i].id != nd.id
    requires !NameTaken(d.devices, nd.name, "")
    ensures ValidDevices(d.devices + [nd.(letter := NextFree(UsedLetters(d.devices)))])
  {}

  /** The earliest is earliest: no device without a letter among the first n comes before it. */
  lemma {:induction false} EarliestIsEarliest(ds: seq<Device>, n: nat)
    requires n <= |ds|
    ensures var i := Earliest(ds, n);
      && (i == n ==> forall j :: 0 <= j < n ==> !Unlettered(ds[j]))
      && (i < n ==> forall j :: 0 <= j < n && j != i && Unlettered(ds[j]) ==> Before(ds, i, j) && !Before(ds, j, i))
  {
    if n > 0 {
      EarliestIsEarliest(ds, n - 1);
      var i := Earliest(ds, n - 1);
      if i < n - 1 && Unlettered(ds[n - 1]) {
        BeforeTotal(ds, i, n - 1);
        forall j | 0 <= j < n - 1 && j != i && Unlettered(ds[j]) && Before(ds, n - 1, i)
          ensures Before(ds, n - 1, j) && !Before(ds, j, n - 1)
        {
          BeforeTransitive(ds, n - 1, i, j);
          BeforeTotal(ds, n - 1, j);
        }
      }
    }
  }

  lemma BeforeTotal(ds: seq<Device>, i: nat, j: nat)
    requires i < |ds| && j < |ds| && i != j
    ensures Before(ds, i, j) <==> !Before(ds, j, i)
  {
    Order.LessTotal(ds[i].id, ds[j].id);
  }

  lemma BeforeTransitive(ds: seq<Device>, i: nat, j: nat, k: nat)
    requires i < |ds| && j < |ds| && k < |ds| && Before(ds, i, j) && Before(ds, j, k)
    ensures Before(ds, i, k)
  {
    if Order.Less(ds[i].id, ds[j].id) && Order.Less(ds[j].id, ds[k].id) {
      Order.LessTransitive(ds[i].id, ds[j].id, ds[k].id);
      Order.LessTotal(ds[i].id, ds[k].id);
    }
  }

  lemma TakeLetterValid(ds: seq<Device>, i: nat)
    requires ValidDevices(ds) && i < |ds|
    ensures ValidDevices(ds[i := ds[i].(letter := NextFree(UsedLetters(ds)))])
  {}

  lemma UsedAfterTaking(ds: seq<Device>, i: nat, l: string)
    requires i < |ds| && ds[i].letter == "" && l != ""
    ensures UsedLetters(ds[i := ds[i].(letter := l)]) == UsedLetters(ds) + {l}
  {
    var ds' := ds[i := ds[i].(letter := l)];
    forall w | w in UsedLetters(ds) ensures w in UsedLetters(ds') {
      var j :| 0 <= j < |ds| && ds[j].letter == w && w != "";
      assert ds'[j].letter == w;
    }
    assert ds'[i].letter == l;
    forall w | w in UsedLetters(ds') ensures w in UsedLetters(ds) + {l} {
      var j :| 0 <= j < |ds'| && ds'[j].letter == w && w != "";
      assert j == i || ds[j].letter == w;
    }
  }

  /** Backfilling touches nothing but missing letters, and no letter handed out comes before the next free one. */
  lemma {:induction false} LetteredChangesLetters(ds: seq<Device>)
    requires ValidDevices(ds)
    ensures ValidDevices(Lettered(ds))
    ensures forall i :: 0 <= i < |ds| ==>
      if Unlettered(ds[i]) then Lettered(ds)[i] == ds[i].(letter := Lettered(ds)[i].letter)
                                && Rank(Lettered(ds)[i].letter) >= Rank(NextFree(UsedLetters(ds)))
      else Lettered(ds)[i] == ds[i]
    decreases Missing(ds)
  {
    var i := Earliest(ds, |ds|);
    var l := NextFree(UsedLetters(ds));
    if i < |ds| && l != "" {
      var ds' := ds[i := ds[i].(letter := l)];
      NextFreeIsFirst(UsedLetters(ds));
      TakeLetterValid(ds, i);
      UsedAfterTaking(ds, i, l);
      MissingDrops(ds, i, ds[i].(letter := l));
      LetteredChangesLetters(ds');
      NextFreeMonotone(UsedLetters(ds), UsedLetters(ds'));
    }
  }

  lemma LaterThanTaken(used: set<string>, l: string)
    requires l == NextFree(used) && l != ""
    ensures Rank(NextFree(used + {l})) > Rank(l)
  {}

  /** Letters go out in registration order: of two devices without one, the earlier registered gets
      the earlier letter, and the later one none unless the earlier got one. */
  lemma {:induction false} LetteredInOrder(ds: seq<Device>, i: nat, j: nat)
    requires ValidDevices(ds) && i < |ds| && j < |ds| && i != j
    requires Unlettered(ds[i]) && Unlettered(ds[j]) && Before(ds, i, j)
    ensures Lettered(ds)[j].letter != "" ==>
      Lettered(ds)[i].letter != "" && Rank(Lettered(ds)[i].letter) < Rank(Lettered(ds)[j].letter)
    decreases Missing(ds)
  {
    var e := Earliest(ds, |ds|);
    var l := NextFree(UsedLetters(ds));
    EarliestIsEarliest(ds, |ds|);
    if e < |ds| && l != "" {
      var ds' := ds[e := ds[e].(letter := l)];
      TakeLetterValid(ds, e);
      UsedAfterTaking(ds, e, l);
      MissingDrops(ds, e, ds[e].(letter := l));
      LetteredChangesLetters(ds');
      if i == e {
        LaterThanTaken(UsedLetters(ds), l);
      } else {
        LetteredInOrder(ds', i, j);
      }
    }
  }

  /** A device stays without a letter only when all 702 are taken. */
  lemma {:induction false} LetteredComplete(ds: seq<Device>)
    requires exists i :: 0 <= i < |ds| && Unlettered(Lettered(ds)[i])
    ensures forall l :: ValidLetter(l) ==> l in UsedLetters(Lettered(ds))
    decreases Missing(ds)
  {
    var e := Earliest(ds, |ds|);
    var l := NextFree(UsedLetters(ds));
    EarliestIsEarliest(ds, |ds|);
    NextFreeIsFirst(UsedLetters(ds));
    if e < |ds| && l != "" {
      MissingDrops(ds, e, ds[e].(letter := l));
      LetteredComplete(ds[e := ds[e].(letter := l)]);
    }
  }

  ghost predicate FreshFor(op: Op, d: Doc) {
    op.Create? ==> forall i :: 0 <= i < |d.devices| ==> d.devices[i].id != op.nd.id
  }

  lemma RemoveValid(ds: seq<Device>, i: nat)
    requires ValidDevices(ds) && i < |ds|
    ensures ValidDevices(ds[..i] + ds[i + 1..])
  {}

  lemma RemoveSubValid(subs: seq<Sub>, n: int, i: nat)
    requires ValidSubs(subs, n) && i < |subs|
    ensures ValidSubs(subs[..i] + subs[i + 1..], n)
  {}

  lemma EditFieldValid(ds: seq<Device>, i: nat, x: Device)
    requires ValidDevices(ds) && i < |ds|
    requires x.id == ds[i].id && x.name == ds[i].name && x.letter == ds[i].letter
    ensures ValidDevices(ds[i := x])
  {}

  lemma RenameValid(d: Doc, i: nat, name: string)
    requires ValidDevices(d.devices) && i < |d.devices| && !NameTaken(d.devices, name, d.devices[i].id)
    ensures ValidDevices(d.devices[i := d.devices[i].(name := name)])
  {}

  lemma SetLetterValid(d: Doc, i: nat, letter: string)
    requires ValidDevices(d.devices) && i < |d.devices| && !LetterTaken(d.devices, letter, d.devices[i].id)
    ensures ValidDevices(d.devices[i := d.devices[i].(letter := letter)])
  {}

  lemma AddSubValid(d: Doc, email: string, endpoint: string, p256dh: string, auth: string, now: int)
    requires ValidDoc(d)
    ensures ValidDoc(ApplyAddSub(d, email, endpoint, p256dh, auth, now).doc)
  {}

  predicate EditsDevice(op: Op) {
    op.Rotate? || op.Delete? || op.Rename? || op.Touch? || op.PeerAccess? || op.SetLetter?
  }

  lemma DeviceEditValid(op: Op, d: Doc, rnd: Rnd)
    requires ValidDoc(d) && EditsDevice(op)
    ensures Apply(op, d, rnd).Write? ==> ValidDoc(Apply(op, d, rnd).doc)
  {
    var i := DeviceIndex(d.devices, op.id);
    if i < |d.devices| {
      var x := d.devices[i];
      match op
      case Rotate(_, hash) => EditFieldValid(d.devices, i, x.(tokenHash := hash));
      case Delete(_) => RemoveValid(d.devices, i);
      case Rename(id, name) => if !NameTaken(d.devices, name, id) { RenameValid(d, i, name); }
      case Touch(_, hostname, version, now) =>
        EditFieldValid(d.devices, i, x.(lastSeen := now, hostname := hostname, version := version));
      case PeerAccess(_, access) => EditFieldValid(d.devices, i, x.(peerAccess := access));
      case SetLetter(id, letter) => if !LetterTaken(d.devices, letter, id) { SetLetterValid(d, i, letter); }
    }
  }

  /** Every callback turns a valid document into a valid document. */
  lemma ApplyValid(op: Op, d: Doc, rnd: Rnd)
    requires ValidDoc(d) && GoodOp(op) && FreshFor(op, d)
    ensures Apply(op, d, rnd).Write? ==> ValidDoc(Apply(op, d, rnd).doc)
  {
    if EditsDevice(op) {
      DeviceEditValid(op, d, rnd);
    } else if op.Create? {
      if !NameTaken(d.devices, op.nd.name, "") { CreateValid(d, op.nd); }
    } else if op.AddSub? {
      AddSubValid(d, op.email, op.endpoint, op.p256dh, op.auth, rnd.now);
    } else if op.RemoveSub? {
      if SubIndex(d.subs, op.endpoint) < |d.subs| { RemoveSubValid(d.subs, d.nextSubId, SubIndex(d.subs, op.endpoint)); }
    } else if op.Backfill? {
      LetteredChangesLetters(d.devices);
    }
  }

  // ---- subscription ids are never given to another endpoint ----

  /** Every subscription of d' is one of d's (by id and endpoint), or its id is new. */
  ghost predicate IdsNotReused(d: Doc, d': Doc) {
    && d'.nextSubId >= d.nextSubId
    && forall s :: s in d'.subs ==>
         s.id > d.nextSubId || exists o :: o in d.subs && o.id == s.id && o.endpoint == s.endpoint
  }

  lemma AddSubKeepsIds(d: Doc, email: string, endpoint: string, p256dh: string, auth: string, now: int)
    ensures IdsNotReused(d, ApplyAddSub(d, email, endpoint, p256dh, auth, now).doc)
  {}

  lemma ImportKeepsIds(d: Doc, d': Doc)
    requires ValidDoc(d') && d.nextSubId == 0
    ensures IdsNotReused(d, d')
  {}

  /** The other callbacks add no subscription. */
  lemma FewerSubs(op: Op, d: Doc, rnd: Rnd)
    requires Apply(op, d, rnd).Write? && !op.AddSub? && !op.Import?
    ensures var d' := Apply(op, d, rnd).doc; d'.nextSubId == d.nextSubId && forall s :: s in d'.subs ==> s in d.subs
  {}

  lemma ApplyKeepsIds(op: Op, d: Doc, rnd: Rnd)
    requires Apply(op, d, rnd).Write?
    requires op.Import? ==> ValidDoc(d) && ValidDoc(op.doc) && d.nextSubId == 0
    ensures IdsNotReused(d, Apply(op, d, rnd).doc)
  {
    if op.Import? {
      ImportKeepsIds(d, op.doc);
    } else if op.AddSub? {
      AddSubKeepsIds(d, op.email, op.endpoint, op.p256dh, op.auth, rnd.now);
    } else {
      FewerSubs(op, d, rnd);
    }
  }

  /** The import callback alone only looks at devices and keys.  It respects the ids handed out so far, whatever
      it imports, exactly when it refuses to write or no subscription was ever made. */
  lemma ImportKeepsIdsIff(d: Doc, rnd: Rnd)
    requires ValidDoc(d)
    ensures (forall doc :: ValidDoc(doc) && Apply(Import(doc), d, rnd).Write? ==> IdsNotReused(d, doc))
       <==> |d.devices| > 0 || |d.kv| > 0 || d.nextSubId == 0
  {
    if |d.devices| == 0 && |d.kv| == 0 && d.nextSubId != 0 {
      assert ValidDoc(EMPTY) && !IdsNotReused(d, EMPTY);
    }
    forall doc | d.nextSubId == 0 && ValidDoc(doc) && Apply(Import(doc), d, rnd).Write? ensures IdsNotReused(d, doc) {
      ApplyKeepsIds(Import(doc), d, rnd);
    }
  }

  /** Which devices want a letter, and who comes first: the one registered earlier, of two at the same time the one
      with the smaller id. */
  lemma RegistrationOrder(ds: seq<Device>, i: nat, j: nat)
    requires i < |ds| && j < |ds|
    ensures Unlettered(ds[i]) <==> ds[i].letter == "" && ds[i].id != "local"
    ensures ds[i].created < ds[j].created ==> Before(ds, i, j)
    ensures ds[i].created == ds[j].created && ds[i].id != ds[j].id ==> (Before(ds, i, j) <==> Order.Less(ds[i].id, ds[j].id))
  {}
}
