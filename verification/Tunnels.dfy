/** One tunnel per device across hub replicas.

    A replica that gets a device's new tunnel registers it, closes the one it had and tells the
    other replicas to drop theirs if it is older.  Replicas act concurrently and drop messages
    travel for any length of time. */
module Tunnels {
  import opened Options

  /** A device tunnel; `since` is drawn from one clock, so no two tunnels share it. */
  datatype Tunnel = Tunnel(rep: nat, dev: string, since: nat)

  /** A request to replica `to`; since 0 means "whatever tunnel you hold". */
  datatype Drop = Drop(to: nat, dev: string, since: nat)

  /** The tunnels one replica has registered, by device. */
  type Conns = map<string, Tunnel>

  function Held(c: Conns, dev: string): Option<Tunnel> {
    if dev in c then Some(c[dev]) else None
  }

  /** handleDrop's test: an older tunnel, or any at all. */
  predicate Hits(c: Conns, m: Drop) {
    m.dev in c && (m.since == 0 || c[m.dev].since < m.since)
  }

  /** What a finished tunnel's cleanup leaves: it removes itself and nothing else. */
  function Cleaned(c: Conns, t: Tunnel): Conns {
    if Held(c, t.dev) == Some(t) then c - {t.dev} else c
  }

  /** `conns` has one entry per replica.  A tunnel is `accepted` until it is registered; `closing`
      holds unregistered tunnels whose session is about to be closed; `doomed` holds the devices a
      replica decided to drop but has not dropped yet, once for each such decision.  The last seven fields
      are history: tunnels ever registered, the newest drop each replica has looked at, tunnels registered
      after such a newer drop, tunnels registered between such a decision and the drop, tunnels whose place an
      older one has taken, and tunnels that ended by themselves or were revoked. */
  datatype State = State(
    clock: nat,
    conns: seq<Conns>,
    accepted: set<Tunnel>,
    open: set<Tunnel>,
    closing: set<Tunnel>,
    drops: set<Drop>,
    doomed: multiset<(nat, string)>,
    installed: set<Tunnel>,
    handled: map<(nat, string), nat>,
    late: set<Tunnel>,
    gap: set<Tunnel>,
    over: set<Tunnel>,
    ended: set<Tunnel>,
    revoked: set<Tunnel>)

  datatype Step =
    | Accept(rep: nat, dev: string)
    | Install(t: Tunnel)
    | Close(t: Tunnel)
    | End(t: Tunnel)                    // the session breaks, or the device leaves
    | Cleanup(t: Tunnel)
    | Handle(m: Drop)                   // test and drop at once
    | Check(m: Drop)                    // the test alone
    | Condemn(rep: nat, dev: string)    // the test of a device whose token is no longer valid
    | Unregister(rep: nat, dev: string) // the drop that follows either test
    | Revoke(rep: nat, dev: string)     // token rotated, device deleted, letter changed
    | RevokeElsewhere(rep: nat, dev: string)

  function Init(n: nat): State {
    State(0, seq(n, _ => map[]), {}, {}, {}, {}, multiset{}, {}, map[], {}, {}, {}, {}, {})
  }

  function Looked(s: State, rep: nat, dev: string): nat {
    if (rep, dev) in s.handled then s.handled[(rep, dev)] else 0
  }

  function Broadcast(n: nat, from: nat, dev: string, since: nat): (ms: set<Drop>)
    ensures forall m :: m in ms <==> m.to < n && m.to != from && m.dev == dev && m.since == since
  {
    set r | 0 <= r < n && r != from :: Drop(r, dev, since)
  }

  predicate Enabled(s: State, st: Step) {
    match st
    case Accept(rep, _) => rep < |s.conns|
    case Install(t) => t in s.accepted && t.rep < |s.conns|
    case Close(t) => t in s.closing
    case End(t) => t in s.open
    case Cleanup(t) => t in s.installed && t !in s.open && t.rep < |s.conns|
    case Handle(m) => m in s.drops && m.to < |s.conns|
    case Check(m) => m in s.drops && m.to < |s.conns|
    case Condemn(rep, dev) => rep < |s.conns| && dev in s.conns[rep]
    case Unregister(rep, dev) => (rep, dev) in s.doomed && rep < |s.conns|
    case Revoke(rep, _) => rep < |s.conns|
    case RevokeElsewhere(rep, _) => rep < |s.conns|
  }

  /** dropConn: unregister whatever is there, then close it. */
  function Dropped(s: State, rep: nat, dev: string): State
    requires rep < |s.conns|
  {
    var c := s.conns[rep];
    if dev in c then s.(conns := s.conns[rep := c - {dev}], closing := s.closing + {c[dev]}) else s
  }

  function Seen(s: State, m: Drop): State {
    s.(drops := s.drops - {m},
       handled := if m.since > Looked(s, m.to, m.dev) then s.handled[(m.to, m.dev) := m.since] else s.handled)
  }

  /** Registering t now: after its replica has looked at a newer tunnel's drop. */
  predicate TooLate(s: State, t: Tunnel) {
    Looked(s, t.rep, t.dev) > t.since
  }

  /** Between its replica's test of the device and the drop. */
  predicate InGap(s: State, t: Tunnel) {
    (t.rep, t.dev) in s.doomed
  }

  /** Over a newer tunnel that its replica holds. */
  predicate OverNewer(s: State, t: Tunnel) {
    t.rep < |s.conns| && t.dev in s.conns[t.rep] && s.conns[t.rep][t.dev].since > t.since
  }

  function Installed(s: State, t: Tunnel): State
    requires t.rep < |s.conns|
  {
    var c := s.conns[t.rep];
    s.(accepted := s.accepted - {t},
       installed := s.installed + {t},
       conns := s.conns[t.rep := c[t.dev := t]],
       closing := s.closing + (if t.dev in c then {c[t.dev]} else {}),
       drops := s.drops + Broadcast(|s.conns|, t.rep, t.dev, t.since),
       late := s.late + (if TooLate(s, t) then {t} else {}),
       gap := s.gap + (if InGap(s, t) then {t} else {}),
       over := s.over + (if OverNewer(s, t) then {c[t.dev]} else {}))
  }

  function Revoked(s: State, rep: nat, dev: string): State
    requires rep < |s.conns|
  {
    var c := s.conns[rep];
    Dropped(s, rep, dev).(revoked := s.revoked + (if dev in c then {c[dev]} else {}))
  }

  /** A decision to drop whatever tunnel is held. */
  function Condemned(s: State, rep: nat, dev: string): State
    requires rep < |s.conns| && dev in s.conns[rep]
  {
    s.(doomed := s.doomed + multiset{(rep, dev)}, revoked := s.revoked + {s.conns[rep][dev]})
  }

  function Next(s: State, st: Step): State
    requires Enabled(s, st)
  {
    match st
    case Accept(rep, dev) =>
      var t := Tunnel(rep, dev, s.clock + 1);
      s.(clock := s.clock + 1, accepted := s.accepted + {t}, open := s.open + {t})
    case Install(t) => Installed(s, t)
    case Close(t) => s.(closing := s.closing - {t}, open := s.open - {t})
    case End(t) => s.(open := s.open - {t}, ended := s.ended + {t})
    case Cleanup(t) => s.(conns := s.conns[t.rep := Cleaned(s.conns[t.rep], t)])
    case Handle(m) =>
      var s1 := Seen(s, m);
      if !Hits(s.conns[m.to], m) then s1
      else if m.since == 0 then Revoked(s1, m.to, m.dev)
      else Dropped(s1, m.to, m.dev)
    case Check(m) =>
      var s1 := Seen(s, m);
      if !Hits(s.conns[m.to], m) then s1
      else if m.since == 0 then Condemned(s1, m.to, m.dev)
      else s1.(doomed := s1.doomed + multiset{(m.to, m.dev)})
    case Condemn(rep, dev) => Condemned(s, rep, dev)
    case Unregister(rep, dev) => Dropped(s, rep, dev).(doomed := s.doomed - multiset{(rep, dev)})
    case Revoke(rep, dev) => Revoked(s, rep, dev)
    case RevokeElsewhere(rep, dev) => s.(drops := s.drops + Broadcast(|s.conns|, rep, dev, 0))
  }

  predicate ValidRun(s: State, run: seq<Step>)
    decreases run
  {
    run == [] || (Enabled(s, run[0]) && ValidRun(Next(s, run[0]), run[1..]))
  }

  function Final(s: State, run: seq<Step>): State
    requires ValidRun(s, run)
    decreases run
  {
    if run == [] then s else Final(Next(s, run[0]), run[1..])
  }

  // ---- what every step keeps ----

  ghost predicate Known(n: nat, clock: nat, accepted: set<Tunnel>, installed: set<Tunnel>) {
    && (forall t :: t in accepted + installed ==> t.rep < n && 0 < t.since <= clock)
    && (forall t, u :: t in accepted + installed && u in accepted + installed && t.since == u.since ==> t == u)
    && accepted !! installed
  }

  ghost predicate Registered(conns: seq<Conns>, t: Tunnel) {
    t.rep < |conns| && Held(conns[t.rep], t.dev) == Some(t)
  }

  ghost predicate ConnsOk(conns: seq<Conns>, installed: set<Tunnel>) {
    forall r, d :: 0 <= r < |conns| && d in conns[r] ==>
      conns[r][d] in installed && conns[r][d].rep == r && conns[r][d].dev == d
  }

  /** No open tunnel is forgotten. */
  ghost predicate OpenOk(conns: seq<Conns>, accepted: set<Tunnel>, open: set<Tunnel>, closing: set<Tunnel>) {
    forall t :: t in open ==> t in accepted || Registered(conns, t) || t in closing
  }

  ghost predicate Told(r: nat, t: Tunnel, drops: set<Drop>, handled: map<(nat, string), nat>) {
    Drop(r, t.dev, t.since) in drops || ((r, t.dev) in handled && handled[(r, t.dev)] >= t.since)
  }

  /** Every other replica has looked at the drop of a registered tunnel, or still will. */
  ghost predicate ToldOk(n: nat, installed: set<Tunnel>, drops: set<Drop>, handled: map<(nat, string), nat>) {
    forall t, r :: t in installed && 0 <= r < n && r != t.rep ==> Told(r, t, drops, handled)
  }

  predicate Newer(t: Tunnel, u: Tunnel) {
    t.dev == u.dev && t.rep != u.rep && t.since > u.since
  }

  /** A registered tunnel that is not the newest is about to go, or came late. */
  ghost predicate OlderGoes(conns: seq<Conns>, installed: set<Tunnel>, drops: set<Drop>,
                            doomed: multiset<(nat, string)>, late: set<Tunnel>) {
    forall u, t :: Registered(conns, u) && t in installed && Newer(t, u) ==>
      Drop(u.rep, u.dev, t.since) in drops || (u.rep, u.dev) in doomed || u in late
  }

  ghost predicate Inv(s: State) {
    && Known(|s.conns|, s.clock, s.accepted, s.installed)
    && ConnsOk(s.conns, s.installed)
    && OpenOk(s.conns, s.accepted, s.open, s.closing)
    && ToldOk(|s.conns|, s.installed, s.drops, s.handled)
    && OlderGoes(s.conns, s.installed, s.drops, s.doomed, s.late)
  }

  // ---- registering ----

  lemma InstallKeepsOlder(s: State, t: Tunnel)
    requires Inv(s) && Enabled(s, Install(t))
    ensures var s' := Installed(s, t); OlderGoes(s'.conns, s'.installed, s'.drops, s'.doomed, s'.late)
  {
    var s' := Installed(s, t);
    forall u, v | Registered(s'.conns, u) && v in s'.installed && Newer(v, u)
      ensures Drop(u.rep, u.dev, v.since) in s'.drops || (u.rep, u.dev) in s'.doomed || u in s'.late
    {
      if u == t {
        assert Told(u.rep, v, s.drops, s.handled);
      } else {
        assert Registered(s.conns, u);
      }
    }
  }

  lemma InstallKeeps(s: State, t: Tunnel)
    requires Inv(s) && Enabled(s, Install(t))
    ensures Inv(Installed(s, t))
  {
    var s' := Installed(s, t);
    InstallKeepsOlder(s, t);
    forall v, r | v in s'.installed && 0 <= r < |s'.conns| && r != v.rep ensures Told(r, v, s'.drops, s'.handled) {
      assert v != t ==> Told(r, v, s.drops, s.handled);
    }
    forall u | u in s'.open ensures u in s'.accepted || Registered(s'.conns, u) || u in s'.closing {
      assert u in s.accepted || Registered(s.conns, u) || u in s.closing;
    }
  }

  // ---- unregistering ----

  /** dropConn, with or without a doom to lift. */
  lemma DroppedKeeps(s: State, rep: nat, dev: string, doomed': multiset<(nat, string)>)
    requires Inv(s) && rep < |s.conns|
    requires forall k :: k in s.doomed && k != (rep, dev) ==> k in doomed'
    ensures Inv(Dropped(s, rep, dev).(doomed := doomed'))
  {}

  // ---- looking at a drop ----

  /** Either the drop spares what the replica holds, or the tunnel there is doomed. */
  lemma SeenKeeps(s: State, m: Drop)
    requires Inv(s) && m in s.drops && m.to < |s.conns|
    ensures Inv(Seen(s, m).(doomed := if Hits(s.conns[m.to], m) then s.doomed + multiset{(m.to, m.dev)} else s.doomed))
  {
    var s' := Seen(s, m);
    forall t, r | t in s'.installed && 0 <= r < |s'.conns| && r != t.rep ensures Told(r, t, s'.drops, s'.handled) {
      assert Told(r, t, s.drops, s.handled);
    }
  }

  lemma HandleKeeps(s: State, m: Drop)
    requires Inv(s) && Enabled(s, Handle(m))
    ensures Inv(Next(s, Handle(m)))
  {
    SeenKeeps(s, m);
    if Hits(s.conns[m.to], m) {
      var s1 := Seen(s, m).(doomed := s.doomed + multiset{(m.to, m.dev)});
      DroppedKeeps(s1, m.to, m.dev, s.doomed);
      assert Dropped(s1, m.to, m.dev).(doomed := s.doomed) == Dropped(Seen(s, m), m.to, m.dev);
    } else {
      assert Seen(s, m).(doomed := s.doomed) == Seen(s, m);
    }
  }

  lemma CheckKeeps(s: State, m: Drop)
    requires Inv(s) && Enabled(s, Check(m))
    ensures Inv(Next(s, Check(m)))
  {
    SeenKeeps(s, m);
    assert Seen(s, m).(doomed := s.doomed) == Seen(s, m);
  }

  lemma AcceptKeeps(s: State, rep: nat, dev: string)
    requires Inv(s) && rep < |s.conns|
    ensures Inv(Next(s, Accept(rep, dev)))
  {}

  lemma CleanupKeeps(s: State, t: Tunnel)
    requires Inv(s) && Enabled(s, Cleanup(t))
    ensures Inv(Next(s, Cleanup(t)))
  {}

  lemma StepKeeps(s: State, st: Step)
    requires Inv(s) && Enabled(s, st)
    ensures Inv(Next(s, st))
  {
    match st
    case Accept(rep, dev) => AcceptKeeps(s, rep, dev);
    case Install(t) => InstallKeeps(s, t);
    case Cleanup(t) => CleanupKeeps(s, t);
    case Handle(m) => HandleKeeps(s, m);
    case Check(m) => CheckKeeps(s, m);
    case Condemn(_, _) =>
    case Unregister(rep, dev) => DroppedKeeps(s, rep, dev, s.doomed - multiset{(rep, dev)});
    case Revoke(rep, dev) =>
      DroppedKeeps(s, rep, dev, s.doomed);
      assert Dropped(s, rep, dev).(doomed := s.doomed) == Dropped(s, rep, dev);
    case RevokeElsewhere(_, _) =>
      var s' := Next(s, st);
      assert forall t, r :: Told(r, t, s.drops, s.handled) ==> Told(r, t, s'.drops, s'.handled);
    case _ =>
  }

  lemma {:induction false} RunKeeps(s: State, run: seq<Step>)
    requires Inv(s) && ValidRun(s, run)
    ensures Inv(Final(s, run))
    decreases run
  {
    if run == [] {
    } else {
      StepKeeps(s, run[0]);
      RunKeeps(Next(s, run[0]), run[1..]);
    }
  }

  lemma InitInv(n: nat)
    ensures Inv(Init(n))
  {}

  // ---- at most one tunnel per device ----

  /** Nothing is on its way for this device: no drop in flight or half done, no session about to be closed. */
  ghost predicate Quiet(s: State, dev: string) {
    && (forall m :: m in s.drops ==> m.dev != dev)
    && (forall k :: k in s.doomed ==> k.1 != dev)
    && (forall t :: t in s.closing ==> t.dev != dev)
  }

  /** An open tunnel whose replica serves the device. */
  ghost predicate Serving(s: State, t: Tunnel, dev: string) {
    t in s.open && t !in s.accepted && t.dev == dev
  }

  /** Once nothing is on its way, a second open tunnel can only be one that its replica registered after
      it had already looked at a newer tunnel's drop. */
  lemma SecondTunnelCameLate(n: nat, run: seq<Step>, dev: string, t: Tunnel, u: Tunnel)
    requires ValidRun(Init(n), run)
    requires Quiet(Final(Init(n), run), dev)
    requires Serving(Final(Init(n), run), t, dev) && Serving(Final(Init(n), run), u, dev)
    requires t.since >= u.since
    ensures t == u || (t.rep != u.rep && u in Final(Init(n), run).late)
  {
    InitInv(n);
    RunKeeps(Init(n), run);
    SecondIsLate(Final(Init(n), run), dev, t, u);
  }

  lemma SecondIsLate(s: State, dev: string, t: Tunnel, u: Tunnel)
    requires Inv(s) && Quiet(s, dev) && Serving(s, t, dev) && Serving(s, u, dev) && t.since >= u.since
    ensures t == u || (t.rep != u.rep && u in s.late)
  {
    assert Registered(s.conns, t) && Registered(s.conns, u);
  }

  /** The device's tunnels are registered before their replica has looked at a newer one's drop. */
  predicate InTime(s: State, run: seq<Step>, dev: string)
    requires ValidRun(s, run)
    decreases run
  {
    run == [] ||
    ((run[0].Install? && run[0].t.dev == dev ==> !TooLate(s, run[0].t)) && InTime(Next(s, run[0]), run[1..], dev))
  }

  ghost predicate NoneOf(ts: set<Tunnel>, dev: string) {
    forall t :: t in ts ==> t.dev != dev
  }

  lemma {:induction false} HistoryGrows(s: State, run: seq<Step>)
    requires ValidRun(s, run)
    ensures var t := Final(s, run); s.late <= t.late && s.gap <= t.gap && s.over <= t.over
    decreases run
  {
    if run == [] {
    } else {
      HistoryGrows(Next(s, run[0]), run[1..]);
    }
  }

  lemma {:induction false} InTimeIff(s: State, run: seq<Step>, dev: string)
    requires ValidRun(s, run) && NoneOf(s.late, dev)
    ensures InTime(s, run, dev) <==> NoneOf(Final(s, run).late, dev)
    decreases run
  {
    if run == [] {
    } else if NoneOf(Next(s, run[0]).late, dev) {
      InTimeIff(Next(s, run[0]), run[1..], dev);
    } else {
      HistoryGrows(Next(s, run[0]), run[1..]);
    }
  }

  /** If this device's tunnels are registered in time, at most one replica holds an open tunnel for it once
      nothing is on its way, whatever the interleaving and however drops are split. */
  lemma AtMostOneTunnel(n: nat, run: seq<Step>, dev: string, t: Tunnel, u: Tunnel)
    requires ValidRun(Init(n), run) && InTime(Init(n), run, dev)
    requires Quiet(Final(Init(n), run), dev)
    requires Serving(Final(Init(n), run), t, dev) && Serving(Final(Init(n), run), u, dev)
    ensures t == u
  {
    InTimeIff(Init(n), run, dev);
    if t.since >= u.since {
      SecondTunnelCameLate(n, run, dev, t, u);
    } else {
      SecondTunnelCameLate(n, run, dev, u, t);
    }
  }

  // ---- it is the newest ----

  ghost predicate StartOf(installed: set<Tunnel>, dev: string, since: nat) {
    exists t :: t in installed && t.dev == dev && t.since == since
  }

  /** Drops carry start times of registered tunnels. */
  ghost predicate StartsOk(s: State) {
    && (forall m :: m in s.drops && m.since > 0 ==> StartOf(s.installed, m.dev, m.since))
    && (forall k :: k in s.handled ==> StartOf(s.installed, k.1, s.handled[k]))
  }

  lemma StartsKept(s: State, st: Step)
    requires StartsOk(s) && Enabled(s, st)
    ensures StartsOk(Next(s, st))
  {
    if st.Install? {
      assert StartOf(Installed(s, st.t).installed, st.t.dev, st.t.since);
    }
  }

  ghost predicate Newest(installed: set<Tunnel>, t: Tunnel) {
    t in installed && forall u :: u in installed && u.dev == t.dev ==> u.since <= t.since
  }

  /** Why a tunnel may be unregistered although it has not ended. */
  predicate Spoilt(s: State, t: Tunnel) {
    t in s.revoked || t in s.gap || t in s.over
  }

  /** A tunnel that a replica may drop. */
  ghost predicate MayGo(s: State, t: Tunnel) {
    Spoilt(s, t) || !Newest(s.installed, t)
  }

  /** What is being closed, or is about to be dropped, may go. */
  ghost predicate GoingMayGo(s: State, dev: string) {
    && (forall t :: t in s.closing ==> t in s.installed && (t.dev == dev ==> MayGo(s, t)))
    && (forall k :: k in s.doomed && k.0 < |s.conns| && k.1 == dev && dev in s.conns[k.0] ==> MayGo(s, s.conns[k.0][dev]))
  }

  ghost predicate Stays(s: State, t: Tunnel) {
    (Registered(s.conns, t) && t in s.open) || t in s.ended || Spoilt(s, t)
  }

  ghost predicate NewestHeld(s: State, dev: string) {
    && (forall t :: t in s.accepted ==> t in s.open || t in s.ended)
    && (forall t: Tunnel :: t.dev == dev && Newest(s.installed, t) ==> Stays(s, t))
  }

  ghost predicate NewestStays(s: State, dev: string) {
    GoingMayGo(s, dev) && NewestHeld(s, dev)
  }

  /** A drop in flight never meets its device's newest tunnel. */
  lemma DropsSpareNewest(s: State, m: Drop)
    requires StartsOk(s) && ConnsOk(s.conns, s.installed) && m in s.drops && m.to < |s.conns| && m.since > 0
    requires Hits(s.conns[m.to], m)
    ensures !Newest(s.installed, s.conns[m.to][m.dev])
  {}

  /** What a registration replaces was older, and is no longer the newest; or it was newer, and is recorded. */
  lemma ReplacedMayGo(s: State, t: Tunnel)
    requires Inv(s) && Enabled(s, Install(t)) && t.dev in s.conns[t.rep]
    ensures MayGo(Installed(s, t), s.conns[t.rep][t.dev])
  {
    var u := s.conns[t.rep][t.dev];
    assert t in Installed(s, t).installed && u in s.installed && u.dev == t.dev;
  }

  lemma MayStillGo(s: State, t: Tunnel, u: Tunnel)
    requires Enabled(s, Install(t)) && MayGo(s, u) && u in s.installed
    ensures MayGo(Installed(s, t), u)
  {}

  lemma InstallGoing(s: State, t: Tunnel, dev: string)
    requires Inv(s) && GoingMayGo(s, dev) && Enabled(s, Install(t))
    ensures GoingMayGo(Installed(s, t), dev)
  {
    var s' := Installed(s, t);
    forall u | u in s'.closing ensures u in s'.installed && (u.dev == dev ==> MayGo(s', u)) {
      if u in s.closing {
        if u.dev == dev { MayStillGo(s, t, u); }
      } else {
        ReplacedMayGo(s, t);
      }
    }
    forall k | k in s'.doomed && k.0 < |s'.conns| && k.1 == dev && dev in s'.conns[k.0] ensures MayGo(s', s'.conns[k.0][dev]) {
      if s'.conns[k.0][dev] != t { MayStillGo(s, t, s.conns[k.0][dev]); }
    }
  }

  lemma InstallHeld(s: State, t: Tunnel, dev: string)
    requires Inv(s) && NewestHeld(s, dev) && Enabled(s, Install(t))
    ensures NewestHeld(Installed(s, t), dev)
  {
    var s' := Installed(s, t);
    forall u: Tunnel | u.dev == dev && Newest(s'.installed, u) ensures Stays(s', u) {
      if u != t {
        assert Newest(s.installed, u) && Stays(s, u);
        if t.dev in s.conns[t.rep] && s.conns[t.rep][t.dev] == u { ReplacedMayGo(s, t); }
      }
    }
  }

  lemma InstallNewest(s: State, t: Tunnel, dev: string)
    requires Inv(s) && NewestStays(s, dev) && Enabled(s, Install(t))
    ensures NewestStays(Installed(s, t), dev)
  {
    InstallGoing(s, t, dev);
    InstallHeld(s, t, dev);
  }

  /** Dropping a tunnel that may go. */
  lemma DroppedNewest(s: State, rep: nat, dev: string, of: string, revoked': set<Tunnel>, doomed': multiset<(nat, string)>)
    requires Inv(s) && NewestStays(s, of) && rep < |s.conns| && s.revoked <= revoked'
    requires dev == of && dev in s.conns[rep] ==> s.conns[rep][dev] in revoked' || MayGo(s, s.conns[rep][dev])
    requires forall k :: k in doomed' ==> k in s.doomed || k == (rep, dev)
    ensures NewestStays(Dropped(s, rep, dev).(revoked := revoked', doomed := doomed'), of)
  {
    var s' := Dropped(s, rep, dev).(revoked := revoked', doomed := doomed');
    assert forall t :: MayGo(s, t) ==> MayGo(s', t);
    assert GoingMayGo(s', of);
    forall t: Tunnel | t.dev == of && Newest(s'.installed, t) ensures Stays(s', t) {
      assert Stays(s, t);
    }
  }

  lemma HandleNewest(s: State, m: Drop, dev: string)
    requires Inv(s) && StartsOk(s) && NewestStays(s, dev) && Enabled(s, Handle(m))
    ensures NewestStays(Next(s, Handle(m)), dev)
  {
    if Hits(s.conns[m.to], m) {
      var more := if m.since == 0 then {s.conns[m.to][m.dev]} else {};
      if m.since > 0 { DropsSpareNewest(s, m); }
      DroppedNewest(s, m.to, m.dev, dev, s.revoked + more, s.doomed);
    }
  }

  lemma CheckNewest(s: State, m: Drop, dev: string)
    requires Inv(s) && StartsOk(s) && NewestStays(s, dev) && Enabled(s, Check(m))
    ensures NewestStays(Next(s, Check(m)), dev)
  {
    if Hits(s.conns[m.to], m) && m.since > 0 { DropsSpareNewest(s, m); }
  }

  lemma CondemnNewest(s: State, rep: nat, d: string, dev: string)
    requires Inv(s) && NewestStays(s, dev) && Enabled(s, Condemn(rep, d))
    ensures NewestStays(Condemned(s, rep, d), dev)
  {}

  lemma CleanupNewest(s: State, t: Tunnel, dev: string)
    requires Inv(s) && NewestStays(s, dev) && Enabled(s, Cleanup(t))
    ensures NewestStays(Next(s, Cleanup(t)), dev)
  {}

  lemma NewestKept(s: State, st: Step, dev: string)
    requires Inv(s) && StartsOk(s) && NewestStays(s, dev) && Enabled(s, st)
    ensures NewestStays(Next(s, st), dev)
  {
    match st
    case Install(t) => InstallNewest(s, t, dev);
    case Handle(m) => HandleNewest(s, m, dev);
    case Check(m) => CheckNewest(s, m, dev);
    case Condemn(rep, d) => CondemnNewest(s, rep, d, dev);
    case Unregister(rep, d) => DroppedNewest(s, rep, d, dev, s.revoked, s.doomed - multiset{(rep, d)});
    case Revoke(rep, d) =>
      var c := s.conns[rep];
      DroppedNewest(s, rep, d, dev, s.revoked + (if d in c then {c[d]} else {}), s.doomed);
    case Cleanup(t) => CleanupNewest(s, t, dev);
    case _ =>
  }

  lemma {:induction false} NewestRunKeeps(s: State, run: seq<Step>, dev: string)
    requires Inv(s) && StartsOk(s) && NewestStays(s, dev) && ValidRun(s, run)
    ensures NewestStays(Final(s, run), dev)
    decreases run
  {
    if run == [] {
    } else {
      StepKeeps(s, run[0]);
      StartsKept(s, run[0]);
      NewestKept(s, run[0], dev);
      NewestRunKeeps(Next(s, run[0]), run[1..], dev);
    }
  }

  /** Over every run, with drops split in two, the newest tunnel of a device stays registered and open until it
      ends by itself or is revoked; unless its replica registered it between testing the device for a drop and
      dropping it, or registered an older tunnel over it. */
  lemma NewestTunnelStays(n: nat, run: seq<Step>, t: Tunnel)
    requires ValidRun(Init(n), run) && Newest(Final(Init(n), run).installed, t)
    ensures var s := Final(Init(n), run);
      (Registered(s.conns, t) && t in s.open) || t in s.ended || t in s.revoked || t in s.gap || t in s.over
  {
    InitInv(n);
    NewestRunKeeps(Init(n), run, t.dev);
  }

  /** What a replica could see under its lock: no tunnel of the device is registered between a test and the drop
      that follows, nor over a newer one. */
  predicate Tidy(s: State, run: seq<Step>, dev: string)
    requires ValidRun(s, run)
    decreases run
  {
    run == [] ||
    ((run[0].Install? && run[0].t.dev == dev ==> !InGap(s, run[0].t) && !OverNewer(s, run[0].t))
     && Tidy(Next(s, run[0]), run[1..], dev))
  }

  lemma {:induction false} TidyIff(s: State, run: seq<Step>, dev: string)
    requires Inv(s) && ValidRun(s, run) && NoneOf(s.gap, dev) && NoneOf(s.over, dev)
    ensures Tidy(s, run, dev) <==> NoneOf(Final(s, run).gap, dev) && NoneOf(Final(s, run).over, dev)
    decreases run
  {
    if run == [] {
    } else {
      StepKeeps(s, run[0]);
      if NoneOf(Next(s, run[0]).gap, dev) && NoneOf(Next(s, run[0]).over, dev) {
        TidyIff(Next(s, run[0]), run[1..], dev);
      } else {
        HistoryGrows(Next(s, run[0]), run[1..]);
      }
    }
  }

  /** In such runs the newest tunnel goes only by its own end or by a revocation. */
  lemma TidyNewestStays(n: nat, run: seq<Step>, t: Tunnel)
    requires ValidRun(Init(n), run) && Tidy(Init(n), run, t.dev) && Newest(Final(Init(n), run).installed, t)
    ensures var s := Final(Init(n), run);
      (Registered(s.conns, t) && t in s.open) || t in s.ended || t in s.revoked
  {
    InitInv(n);
    TidyIff(Init(n), run, t.dev);
    NewestTunnelStays(n, run, t);
  }

  /** The device's tunnels are registered in the order of their start times. */
  ghost predicate Ordered(s: State, run: seq<Step>, dev: string)
    requires ValidRun(s, run)
    decreases run
  {
    run == [] ||
    ((run[0].Install? && run[0].t.dev == dev ==> forall u :: u in s.installed && u.dev == dev ==> u.since < run[0].t.since)
     && Ordered(Next(s, run[0]), run[1..], dev))
  }

  /** Then they are registered in time, and never over a newer one. */
  lemma {:induction false} OrderedIsInTime(s: State, run: seq<Step>, dev: string)
    requires Inv(s) && StartsOk(s) && ValidRun(s, run) && Ordered(s, run, dev) && NoneOf(s.over, dev)
    ensures InTime(s, run, dev) && NoneOf(Final(s, run).over, dev)
    decreases run
  {
    if run == [] {
    } else {
      StepKeeps(s, run[0]);
      StartsKept(s, run[0]);
      OrderedIsInTime(Next(s, run[0]), run[1..], dev);
    }
  }

  /** A tunnel stops being registered only because a newer registration, a drop or a revocation hit its
      replica, or by its own cleanup after its session ended: an old tunnel's cleanup never removes a newer one. */
  lemma UnregisteredOnlyBy(s: State, st: Step, t: Tunnel)
    requires Enabled(s, st) && Registered(s.conns, t) && !Registered(Next(s, st).conns, t)
    ensures match st
      case Install(v) => v != t && v.rep == t.rep && v.dev == t.dev
      case Cleanup(v) => v == t && t !in s.open
      case Handle(m) => m.to == t.rep && m.dev == t.dev && (m.since == 0 || t.since < m.since)
      case Unregister(rep, dev) => rep == t.rep && dev == t.dev
      case Revoke(rep, dev) => rep == t.rep && dev == t.dev
      case _ => false
  {}

  // ---- revocations ----

  /** A registration takes the device's place, sets the tunnel it replaces aside for closing, and tells every other
      replica its start time. */
  lemma InstallDoes(s: State, t: Tunnel)
    requires Inv(s) && Enabled(s, Install(t))
    ensures var n := Next(s, Install(t));
      && Registered(n.conns, t) && t !in n.accepted
      && (forall u :: Registered(s.conns, u) && u.rep == t.rep && u.dev == t.dev ==> !Registered(n.conns, u) && u in n.closing)
      && (forall u :: Registered(s.conns, u) && (u.rep != t.rep || u.dev != t.dev) ==> Registered(n.conns, u))
      && (forall r: nat :: r < |s.conns| && r != t.rep ==> Drop(r, t.dev, t.since) in n.drops)
  {}

  /** A tunnel that a revocation is after: its drop is on its way, or decided, or done. */
  ghost predicate Hunted(s: State, t: Tunnel) {
    && t in s.installed && t.rep < |s.conns|
    && (Registered(s.conns, t) ==> Drop(t.rep, t.dev, 0) in s.drops || (t.rep, t.dev) in s.doomed)
  }

  /** A drop without a start time is done, or decided, when its replica looks at it. */
  lemma HuntedByDrop(s: State, m: Drop, t: Tunnel)
    requires Inv(s) && m in s.drops && m.to < |s.conns| && Hunted(s, t)
    ensures Hunted(Next(s, Handle(m)), t) && Hunted(Next(s, Check(m)), t)
  {}

  lemma HuntedOnInstall(s: State, u: Tunnel, t: Tunnel)
    requires Inv(s) && Enabled(s, Install(u)) && Hunted(s, t)
    ensures Hunted(Next(s, Install(u)), t)
  {}

  lemma HuntedKept(s: State, st: Step, t: Tunnel)
    requires Inv(s) && Enabled(s, st) && Hunted(s, t)
    ensures Hunted(Next(s, st), t)
  {
    match st
    case Handle(m) => HuntedByDrop(s, m, t);
    case Check(m) => HuntedByDrop(s, m, t);
    case Install(u) => HuntedOnInstall(s, u, t);
    case _ =>
  }

  lemma {:induction false} HuntedRun(s: State, run: seq<Step>, t: Tunnel)
    requires Inv(s) && ValidRun(s, run) && Hunted(s, t)
    ensures Inv(Final(s, run)) && Hunted(Final(s, run), t)
    decreases run
  {
    if run == [] {
    } else {
      StepKeeps(s, run[0]);
      HuntedKept(s, run[0], t);
      HuntedRun(Next(s, run[0]), run[1..], t);
    }
  }

  /** Once nothing is on its way, a hunted tunnel is neither registered nor open. */
  lemma HuntedGone(s: State, t: Tunnel)
    requires Inv(s) && Hunted(s, t) && Quiet(s, t.dev)
    ensures !Registered(s.conns, t) && t !in s.open
  {}

  /** A rotation or deletion on replica rep tells the others.  Whatever happens then, once nothing is on its way, no
      tunnel of the device that another replica held at that time is still registered or open. */
  lemma RevocationReachesOthers(s: State, rep: nat, dev: string, run: seq<Step>, t: Tunnel)
    requires Inv(s) && Enabled(s, RevokeElsewhere(rep, dev)) && ValidRun(Next(s, RevokeElsewhere(rep, dev)), run)
    requires Quiet(Final(Next(s, RevokeElsewhere(rep, dev)), run), dev)
    requires Registered(s.conns, t) && t.dev == dev && t.rep != rep
    ensures var n := Final(Next(s, RevokeElsewhere(rep, dev)), run); !Registered(n.conns, t) && t !in n.open
  {
    var after := Next(s, RevokeElsewhere(rep, dev));
    StepKeeps(s, RevokeElsewhere(rep, dev));
    HuntedRun(after, run, t);
    HuntedGone(Final(after, run), t);
  }

  /** Nor is the one that replica itself held when it dropped it. */
  lemma RevocationHere(s: State, rep: nat, dev: string, run: seq<Step>, t: Tunnel)
    requires Inv(s) && Enabled(s, Revoke(rep, dev)) && ValidRun(Next(s, Revoke(rep, dev)), run)
    requires Quiet(Final(Next(s, Revoke(rep, dev)), run), dev)
    requires Registered(s.conns, t) && t.dev == dev && t.rep == rep
    ensures !Registered(Next(s, Revoke(rep, dev)).conns, t)
    ensures var n := Final(Next(s, Revoke(rep, dev)), run); !Registered(n.conns, t) && t !in n.open
  {
    var after := Next(s, Revoke(rep, dev));
    StepKeeps(s, Revoke(rep, dev));
    HuntedRun(after, run, t);
    HuntedGone(Final(after, run), t);
  }

  // ---- without these conditions ----

  lemma Prepend(s: State, st: Step, rest: seq<Step>) returns (run: seq<Step>)
    requires Enabled(s, st) && ValidRun(Next(s, st), rest)
    ensures ValidRun(s, run) && Final(s, run) == Final(Next(s, st), rest)
  {
    run := [st] + rest;
    assert run[1..] == rest;
  }

  lemma BroadcastOfTwo(from: nat, dev: string, since: nat)
    requires from < 2
    ensures Broadcast(2, from, dev, since) == {Drop(1 - from, dev, since)}
  {}

  ghost predicate BothStay(s: State) {
    Quiet(s, "d") && Serving(s, Tunnel(0, "d", 1), "d") && Serving(s, Tunnel(1, "d", 2), "d")
  }

  /** From a state whose replica 0 has looked at the newer tunnel's drop, but not registered its own tunnel yet. */
  lemma RegistersLate(s: State) returns (run: seq<Step>)
    requires s.conns == [map[], map["d" := Tunnel(1, "d", 2)]] && s.accepted == {Tunnel(0, "d", 1)}
    requires s.open == {Tunnel(0, "d", 1), Tunnel(1, "d", 2)} && s.closing == {} && s.drops == {} && s.doomed == multiset{}
    ensures ValidRun(s, run) && BothStay(Final(s, run))
  {
    var t := Tunnel(0, "d", 1);
    BroadcastOfTwo(0, "d", 1);
    var s1 := Next(s, Install(t));
    assert s1.drops == {Drop(1, "d", 1)};
    var s2 := Next(s1, Handle(Drop(1, "d", 1)));
    assert s2.drops == {} && s2.accepted == {};
    run := Prepend(s1, Handle(Drop(1, "d", 1)), []);
    run := Prepend(s, Install(t), run);
  }

  /** The start time is drawn before the tunnel is registered.  If a newer tunnel is registered elsewhere
      in between and its drop is looked at first, both tunnels stay, with nothing left on its way. */
  lemma LateTunnelStays() returns (run: seq<Step>)
    ensures ValidRun(Init(2), run) && BothStay(Final(Init(2), run))
  {
    var s0 := Init(2);
    var s1 := Next(s0, Accept(0, "d"));
    var s2 := Next(s1, Accept(1, "d"));
    BroadcastOfTwo(1, "d", 2);
    var s3 := Next(s2, Install(Tunnel(1, "d", 2)));
    assert s3.drops == {Drop(0, "d", 2)};
    var s4 := Next(s3, Handle(Drop(0, "d", 2)));
    assert s4.drops == {} && s4.conns == [map[], map["d" := Tunnel(1, "d", 2)]];
    assert s4.accepted == {Tunnel(0, "d", 1)} && s4.open == {Tunnel(0, "d", 1), Tunnel(1, "d", 2)};
    run := RegistersLate(s4);
    run := Prepend(s3, Handle(Drop(0, "d", 2)), run);
    run := Prepend(s2, Install(Tunnel(1, "d", 2)), run);
    run := Prepend(s1, Accept(1, "d"), run);
    run := Prepend(s0, Accept(0, "d"), run);
  }

  ghost predicate NewestGone(s: State, t: Tunnel) {
    Newest(s.installed, t) && !Registered(s.conns, t) && t !in s.ended && t !in s.revoked
  }

  /** From a state whose replica 0 has decided to drop device "d" but not done it yet. */
  lemma DoomedHitsNext(s: State) returns (run: seq<Step>)
    requires |s.conns| == 2 && s.clock == 2 && (0, "d") in s.doomed
    requires s.installed == {Tunnel(0, "d", 1), Tunnel(1, "d", 2)} && s.ended == {} && s.revoked == {} && s.over == {}
    requires "d" in s.conns[0] ==> s.conns[0]["d"].since < 3
    ensures ValidRun(s, run) && NewestGone(Final(s, run), Tunnel(0, "d", 3)) && Final(s, run).over == {}
  {
    var t := Tunnel(0, "d", 3);
    var s1 := Next(s, Accept(0, "d"));
    var s2 := Next(s1, Install(t));
    assert s2.conns[0]["d"] == t && s2.installed == s.installed + {t};
    var s3 := Next(s2, Unregister(0, "d"));
    assert "d" !in s3.conns[0];
    run := Prepend(s2, Unregister(0, "d"), []);
    run := Prepend(s1, Install(t), run);
    run := Prepend(s, Accept(0, "d"), run);
  }

  /** A drop tested in one locked section and done in the next can hit a tunnel registered in between:
      the newest tunnel, neither ended nor revoked, is unregistered. */
  lemma SplitDropHitsNewest() returns (run: seq<Step>)
    ensures ValidRun(Init(2), run)
    ensures NewestGone(Final(Init(2), run), Tunnel(0, "d", 3)) && Final(Init(2), run).over == {}
  {
    var t, u := Tunnel(0, "d", 1), Tunnel(1, "d", 2);
    var s0 := Init(2);
    var s1 := Next(s0, Accept(0, "d"));
    var s2 := Next(s1, Install(t));
    var s3 := Next(s2, Accept(1, "d"));
    var s4 := Next(s3, Install(u));
    assert s4.installed == {t, u} && Drop(0, "d", 2) in s4.drops && s4.conns[0]["d"] == t;
    var s5 := Next(s4, Check(Drop(0, "d", 2)));
    run := DoomedHitsNext(s5);
    run := Prepend(s4, Check(Drop(0, "d", 2)), run);
    run := Prepend(s3, Install(u), run);
    run := Prepend(s2, Accept(1, "d"), run);
    run := Prepend(s1, Install(t), run);
    run := Prepend(s0, Accept(0, "d"), run);
  }

  /** The start time is drawn before the lock is taken.  On one replica the older of two tunnels can be registered
      last: it closes the newest one, which has neither ended nor been revoked, outside any gap. */
  lemma OlderTakesPlace() returns (run: seq<Step>)
    ensures ValidRun(Init(1), run)
    ensures var s := Final(Init(1), run);
      NewestGone(s, Tunnel(0, "d", 2)) && Tunnel(0, "d", 2) !in s.open && s.gap == {}
  {
    var t, u := Tunnel(0, "d", 1), Tunnel(0, "d", 2);
    var s0 := Init(1);
    var s1 := Next(s0, Accept(0, "d"));
    var s2 := Next(s1, Accept(0, "d"));
    var s3 := Next(s2, Install(u));
    var s4 := Next(s3, Install(t));
    assert s4.installed == {t, u} && s4.conns[0]["d"] == t && u in s4.closing;
    run := Prepend(s4, Close(u), []);
    run := Prepend(s3, Install(t), run);
    run := Prepend(s2, Install(u), run);
    run := Prepend(s1, Accept(0, "d"), run);
    run := Prepend(s0, Accept(0, "d"), run);
  }
}
