/** The state document as an object: the callbacks of the store edit a clone of it in place. */
module StateDocObject {
  import opened Optimistic
  import opened HubDoc
  import opened Letters
  import Order

  /** How an in-place callback ended. */
  datatype Ran = Edited(ret: string) | Unchanged(ret: string) | Failed(err: string)

  /** An in-place run does what a callback on values says: same ending, same document. */
  ghost predicate Did(out: Outcome<Doc>, before: Doc, ran: Ran, after: Doc) {
    match out
    case Write(d, ret) => ran == Edited(ret) && after == d
    case NoChange(ret) => ran == Unchanged(ret) && after == before
    case Refuse(err) => ran == Failed(err) && after == before
  }

  // ---- the stable sort of the devices that miss a letter ----

  ghost predicate Sorted(ds: seq<Device>, idx: seq<nat>) {
    && (forall a :: 0 <= a < |idx| ==> idx[a] < |ds|)
    && (forall a, b :: 0 <= a < b < |idx| ==> Before(ds, idx[a], idx[b]))
  }

  function Insert(ds: seq<Device>, idx: seq<nat>, i: nat): (r: seq<nat>)
    requires i < |ds| && forall a :: 0 <= a < |idx| ==> idx[a] < |ds|
    ensures forall x :: x in r <==> x == i || x in idx
    ensures forall a :: 0 <= a < |r| ==> r[a] < |ds|
  {
    if idx == [] then [i]
    else if Before(ds, i, idx[0]) then [i] + idx
    else [idx[0]] + Insert(ds, idx[1..], i)
  }

  lemma {:induction false} InsertSorted(ds: seq<Device>, idx: seq<nat>, i: nat)
    requires Sorted(ds, idx) && i < |ds| && i !in idx
    ensures Sorted(ds, Insert(ds, idx, i))
  {
    if idx == [] {
    } else if Before(ds, i, idx[0]) {
      forall b | 0 < b < |idx| ensures Before(ds, i, idx[b]) {
        BeforeTransitive(ds, i, idx[0], idx[b]);
      }
    } else {
      BeforeTotal(ds, i, idx[0]);
      InsertSorted(ds, idx[1..], i);
      var rest := Insert(ds, idx[1..], i);
      forall b | 0 <= b < |rest| ensures Before(ds, idx[0], rest[b]) {
        assert rest[b] in rest;
        if rest[b] != i {
          var a :| 0 <= a < |idx[1..]| && idx[1..][a] == rest[b];
          assert idx[a + 1] == rest[b];
        }
      }
    }
  }

  lemma SortedHeadIsEarliest(ds: seq<Device>, idx: seq<nat>)
    requires Sorted(ds, idx) && idx != []
    requires forall j: nat :: j < |ds| ==> (Unlettered(ds[j]) <==> j in idx)
    ensures Earliest(ds, |ds|) == idx[0] && idx[0] !in idx[1..]
  {
    EarliestIsEarliest(ds, |ds|);
    var e := Earliest(ds, |ds|);
    assert idx[0] in idx;
    assert e in idx;
    var a :| 0 <= a < |idx| && idx[a] == e;
    forall b | 0 < b < |idx| ensures idx[b] != idx[0] {
      BeforeIrreflexive(ds, idx[0], idx[b]);
    }
  }

  lemma BeforeIrreflexive(ds: seq<Device>, i: nat, j: nat)
    requires i < |ds| && j < |ds| && Before(ds, i, j)
    ensures i != j
  {}

  class StateDoc {
    var devices: seq<Device>
    var kv: map<string, string>
    var subs: seq<Sub>
    var nextSubId: int

    function View(): Doc
      reads this
    {
      Doc(devices, kv, subs, nextSubId)
    }

    constructor (d: Doc)
      ensures View() == d
    {
      devices, kv, subs, nextSubId := d.devices, d.kv, d.subs, d.nextSubId;
    }

    method Clone() returns (c: StateDoc)
      ensures fresh(c) && c.View() == View()
    {
      c := new StateDoc(View());
    }

    method Find(id: string) returns (i: nat)
      ensures i == DeviceIndex(devices, id)
    {
      i := 0;
      while i < |devices|
        invariant i <= |devices|
        invariant forall j :: 0 <= j < i ==> devices[j].id != id
      {
        if devices[i].id == id {
          return;
        }
        i := i + 1;
      }
    }

    method FindSub(endpoint: string) returns (i: nat)
      ensures i == SubIndex(subs, endpoint)
    {
      i := 0;
      while i < |subs|
        invariant i <= |subs|
        invariant forall j :: 0 <= j < i ==> subs[j].endpoint != endpoint
      {
        if subs[i].endpoint == endpoint {
          return;
        }
        i := i + 1;
      }
    }

    method IsNameTaken(name: string, except: string) returns (taken: bool)
      ensures taken == NameTaken(devices, name, except)
    {
      for i := 0 to |devices|
        invariant forall j :: 0 <= j < i ==> devices[j].name != name || devices[j].id == except
      {
        if devices[i].name == name && devices[i].id != except {
          return true;
        }
      }
      return false;
    }

    method IsLetterTaken(letter: string, except: string) returns (taken: bool)
      ensures taken == LetterTaken(devices, letter, except)
    {
      for i := 0 to |devices|
        invariant forall j :: 0 <= j < i ==> devices[j].letter != letter || devices[j].id == except
      {
        if devices[i].id != except && devices[i].letter == letter {
          return true;
        }
      }
      return false;
    }

    method CollectLetters() returns (used: set<string>)
      ensures used == UsedLetters(devices)
    {
      used := {};
      for i := 0 to |devices|
        invariant used == UsedLetters(devices[..i])
      {
        assert devices[..i + 1] == devices[..i] + [devices[i]];
        UsedLettersAppend(devices[..i], devices[i]);
        if devices[i].letter != "" {
          used := used + {devices[i].letter};
        }
      }
      assert devices[..|devices|] == devices;
    }

    method GetSecret(k: string, rnd: Rnd) returns (r: Ran)
      modifies this
      ensures Did(Apply(Secret(k), old(View()), rnd), old(View()), r, View())
    {
      if k in kv {
        return Unchanged(kv[k]);
      }
      kv := kv[k := rnd.gen];
      return Edited(rnd.gen);
    }

    method PutKey(k: string, v: string) returns (r: Ran)
      modifies this
      ensures forall rnd :: Did(Apply(PutKV(k, v), old(View()), rnd), old(View()), r, View())
    {
      if k in kv && kv[k] == v {
        return Unchanged("");
      }
      kv := kv[k := v];
      return Edited("");
    }

    method CreateDevice(nd: Device) returns (r: Ran)
      modifies this
      ensures Did(ApplyCreate(old(View()), nd), old(View()), r, View())
    {
      var taken := IsNameTaken(nd.name, "");
      if taken {
        return Failed(ERR_DUPLICATE_NAME);
      }
      var used := CollectLetters();
      var l := NextLetter(used);
      devices := devices + [nd.(letter := l)];
      return Edited(l);
    }

    method RenameDevice(id: string, name: string) returns (r: Ran)
      modifies this
      ensures Did(ApplyRename(old(View()), id, name), old(View()), r, View())
    {
      var i := Find(id);
      if i == |devices| {
        return Failed(ERR_NO_ROWS);
      }
      var taken := IsNameTaken(name, id);
      if taken {
        return Failed(ERR_DUPLICATE_NAME);
      }
      devices := devices[i := devices[i].(name := name)];
      return Edited("");
    }

    method ChangeLetter(id: string, letter: string) returns (r: Ran)
      modifies this
      ensures Did(ApplySetLetter(old(View()), id, letter), old(View()), r, View())
    {
      var i := Find(id);
      if i == |devices| {
        return Failed(ERR_NO_ROWS);
      }
      var taken := IsLetterTaken(letter, id);
      if taken {
        return Failed(ERR_DUPLICATE_LETTER);
      }
      devices := devices[i := devices[i].(letter := letter)];
      return Edited("");
    }

    method RotateToken(id: string, hash: string) returns (r: Ran)
      modifies this
      ensures forall rnd :: Did(Apply(Rotate(id, hash), old(View()), rnd), old(View()), r, View())
    {
      var i := Find(id);
      if i == |devices| {
        return Failed(ERR_NO_ROWS);
      }
      devices := devices[i := devices[i].(tokenHash := hash)];
      return Edited("");
    }

    method SetPeerAccess(id: string, access: string) returns (r: Ran)
      modifies this
      ensures forall rnd :: Did(Apply(PeerAccess(id, access), old(View()), rnd), old(View()), r, View())
    {
      var i := Find(id);
      if i == |devices| {
        return Failed(ERR_NO_ROWS);
      }
      devices := devices[i := devices[i].(peerAccess := access)];
      return Edited("");
    }

    method TouchDevice(id: string, hostname: string, version: string, now: int) returns (r: Ran)
      modifies this
      ensures Did(ApplyTouch(old(View()), id, hostname, version, now), old(View()), r, View())
    {
      var i := Find(id);
      if i == |devices| {
        return Unchanged("");
      }
      var x := devices[i];
      if x.hostname == hostname && x.version == version && now - x.lastSeen < TOUCH_EVERY {
        return Unchanged("");
      }
      devices := devices[i := x.(lastSeen := now, hostname := hostname, version := version)];
      return Edited("");
    }

    method DeleteDevice(id: string) returns (r: Ran)
      modifies this
      ensures Did(ApplyDelete(old(View()), id), old(View()), r, View())
    {
      var i := Find(id);
      if i == |devices| {
        return Failed(ERR_NO_ROWS);
      }
      devices := devices[..i] + devices[i + 1..];
      return Edited("");
    }

    method AddSubscription(email: string, endpoint: string, p256dh: string, auth: string, now: int) returns (r: Ran)
      modifies this
      ensures Did(ApplyAddSub(old(View()), email, endpoint, p256dh, auth, now), old(View()), r, View())
    {
      var i := FindSub(endpoint);
      if i < |subs| {
        subs := subs[i := subs[i].(email := email, p256dh := p256dh, auth := auth)];
        return Edited("");
      }
      nextSubId := nextSubId + 1;
      subs := subs + [Sub(nextSubId, email, endpoint, p256dh, auth, now)];
      return Edited("");
    }

    method RemoveSubscription(endpoint: string) returns (r: Ran)
      modifies this
      ensures Did(ApplyRemoveSub(old(View()), endpoint), old(View()), r, View())
    {
      var i := FindSub(endpoint);
      if i == |subs| {
        return Unchanged("");
      }
      subs := subs[..i] + subs[i + 1..];
      return Edited("");
    }

    /** Collects the devices without a letter, in registration order. */
    method Unnamed() returns (idx: seq<nat>)
      ensures Sorted(devices, idx)
      ensures forall j: nat :: j < |devices| ==> (Unlettered(devices[j]) <==> j in idx)
    {
      idx := [];
      for i := 0 to |devices|
        invariant Sorted(devices, idx)
        invariant forall j: nat :: j in idx <==> j < i && Unlettered(devices[j])
      {
        if Unlettered(devices[i]) {
          InsertSorted(devices, idx, i);
          idx := Insert(devices, idx, i);
        }
      }
    }

    /** Hands out free letters to the devices that lack one, as far as they go. */
    method BackfillLetters() returns (r: Ran)
      modifies this
      ensures Did(Apply(Backfill, old(View()), Rnd("", 0)), old(View()), r, View())
    {
      EarliestIsEarliest(devices, |devices|);
      var idx := Unnamed();
      if idx == [] {
        return Unchanged("");
      }
      assert idx[0] in idx;
      AssignLetters(idx);
      return Edited("");
    }

    method AssignLetters(idx: seq<nat>)
      requires Sorted(devices, idx)
      requires forall j: nat :: j < |devices| ==> (Unlettered(devices[j]) <==> j in idx)
      modifies this`devices
      ensures devices == Lettered(old(devices))
    {
      ghost var want := Lettered(devices);
      StartAssigning(devices, idx);
      var used := CollectLetters();
      for k := 0 to |idx|
        invariant Assigning(devices, idx[k..], used, want)
      {
        var l := NextLetter(used);
        AssignOne(devices, idx[k..], used, want);
        assert idx[k..][1..] == idx[k + 1..];
        devices := devices[idx[k] := devices[idx[k]].(letter := l)];
        used := used + {l};
      }
      EarliestIsEarliest(devices, |devices|);
    }
  }

  lemma UsedLettersAppend(ds: seq<Device>, x: Device)
    ensures UsedLetters(ds + [x]) == UsedLetters(ds) + (if x.letter == "" then {} else {x.letter})
  {
    var all := ds + [x];
    forall l | l in UsedLetters(ds) ensures l in UsedLetters(all) {
      var i :| 0 <= i < |ds| && ds[i].letter == l && l != "";
      assert all[i].letter == l;
    }
    assert all[|ds|] == x;
    forall l | l in UsedLetters(all) ensures l in UsedLetters(ds) || l == x.letter {
      var i :| 0 <= i < |all| && all[i].letter == l && l != "";
      assert i == |ds| || ds[i].letter == l;
    }
  }

  /** The backfill loop: rest are the devices still to do.  While letters last, they are exactly
      those without one. */
  ghost predicate Assigning(ds: seq<Device>, rest: seq<nat>, used: set<string>, want: seq<Device>) {
    && Lettered(ds) == want
    && used - {""} == UsedLetters(ds)
    && (forall a :: 0 <= a < |rest| ==> rest[a] < |ds| && ds[rest[a]].letter == "")
    && (forall a, b :: 0 <= a < b < |rest| ==> rest[a] != rest[b])
    && (NextFree(used) == "" ||
        (Sorted(ds, rest) && forall j: nat :: j < |ds| ==> (Unlettered(ds[j]) <==> j in rest)))
  }

  lemma StartAssigning(ds: seq<Device>, idx: seq<nat>)
    requires Sorted(ds, idx)
    requires forall j: nat :: j < |ds| ==> (Unlettered(ds[j]) <==> j in idx)
    ensures Assigning(ds, idx, UsedLetters(ds), Lettered(ds))
  {
    forall a | 0 <= a < |idx| ensures ds[idx[a]].letter == "" {
      assert idx[a] in idx;
    }
    forall a, b | 0 <= a < b < |idx| ensures idx[a] != idx[b] {
      BeforeIrreflexive(ds, idx[a], idx[b]);
    }
  }

  lemma AssignOne(ds: seq<Device>, rest: seq<nat>, used: set<string>, want: seq<Device>)
    requires Assigning(ds, rest, used, want) && rest != []
    ensures var l := NextFree(used);
      Assigning(ds[rest[0] := ds[rest[0]].(letter := l)], rest[1..], used + {l}, want)
  {
    if NextFree(used) == "" {
      AssignNone(ds, rest, used, want);
    } else {
      AssignSome(ds, rest, used, want);
    }
  }

  lemma AssignNone(ds: seq<Device>, rest: seq<nat>, used: set<string>, want: seq<Device>)
    requires Assigning(ds, rest, used, want) && rest != [] && NextFree(used) == ""
    ensures Assigning(ds[rest[0] := ds[rest[0]].(letter := "")], rest[1..], used + {""}, want)
  {
    assert ds[rest[0] := ds[rest[0]].(letter := "")] == ds;
    NextFreeSame(used, used + {""});
  }

  lemma AssignSome(ds: seq<Device>, rest: seq<nat>, used: set<string>, want: seq<Device>)
    requires Assigning(ds, rest, used, want) && rest != [] && NextFree(used) != ""
    ensures var l := NextFree(used);
      Assigning(ds[rest[0] := ds[rest[0]].(letter := l)], rest[1..], used + {l}, want)
  {
    var i, l := rest[0], NextFree(used);
    NextFreeSame(used, UsedLetters(ds));
    GiveLetter(ds, rest, i, l);
    TailStillUnlettered(ds, rest, l);
    assert used + {l} - {""} == used - {""} + {l};
  }

  lemma TailStillUnlettered(ds: seq<Device>, rest: seq<nat>, l: string)
    requires rest != [] && forall a :: 0 <= a < |rest| ==> rest[a] < |ds| && ds[rest[a]].letter == ""
    requires forall a, b :: 0 <= a < b < |rest| ==> rest[a] != rest[b]
    ensures var ds', rest' := ds[rest[0] := ds[rest[0]].(letter := l)], rest[1..];
      && (forall a :: 0 <= a < |rest'| ==> rest'[a] < |ds'| && ds'[rest'[a]].letter == "")
      && forall a, b :: 0 <= a < b < |rest'| ==> rest'[a] != rest'[b]
  {}

  lemma GiveLetter(ds: seq<Device>, rest: seq<nat>, i: nat, l: string)
    requires rest != [] && rest[0] == i && i < |ds| && ds[i].letter == ""
    requires l == NextFree(UsedLetters(ds)) && l != ""
    requires Sorted(ds, rest) && forall j: nat :: j < |ds| ==> (Unlettered(ds[j]) <==> j in rest)
    ensures var ds' := ds[i := ds[i].(letter := l)];
      && Lettered(ds') == Lettered(ds)
      && UsedLetters(ds') == UsedLetters(ds) + {l}
      && i !in rest[1..] && Sorted(ds', rest[1..])
      && forall j: nat :: j < |ds'| ==> (Unlettered(ds'[j]) <==> j in rest[1..])
  {
    var ds' := ds[i := ds[i].(letter := l)];
    SortedHeadIsEarliest(ds, rest);
    UsedAfterTaking(ds, i, l);
    assert forall a :: 0 <= a < |rest[1..]| ==> rest[1..][a] == rest[a + 1];
    assert forall j: nat :: j in rest <==> j == i || j in rest[1..];
    assert i in rest;
    forall a, b | 0 <= a < b < |rest[1..]| ensures Before(ds', rest[1..][a], rest[1..][b]) {
      assert Before(ds, rest[a + 1], rest[b + 1]);
    }
  }
}
