/** One hub replica's table of tunnels, edited under its lock, among the other replicas; and its view
    of which peer holds a device. */
module TunnelHub {
  import opened Options
  import opened Tunnels

  /** A goroutine's own steps: those on the tunnel it serves, and the drops it decided on. */
  datatype Task = Serve(t: Tunnel) | Dropping(rep: nat, devs: set<string>) | Nothing

  /** Another goroutine may have decided on the same drop; then that one is not this goroutine's. */
  predicate Mine(s: State, st: Step, me: Task) {
    match st
    case Install(t) => me == Serve(t)
    case End(t) => me == Serve(t)
    case Cleanup(t) => me == Serve(t)
    case Unregister(rep, dev) => me.Dropping? && me.rep == rep && dev in me.devs && s.doomed[(rep, dev)] == 1
    case _ => false
  }

  function Possible(s: State, me: Task, steps: seq<Step>): (run: seq<Step>)
    ensures ValidRun(s, run)
    decreases steps
  {
    if steps == [] then []
    else if Enabled(s, steps[0]) && !Mine(s, steps[0], me) then
      var rest := Possible(Next(s, steps[0]), me, steps[1..]);
      assert ([steps[0]] + rest)[1..] == rest;
      [steps[0]] + rest
    else Possible(s, me, steps[1..])
  }

  /** What no step of anybody undoes: a tunnel once registered does not come back, is not opened again, and is
      closed when it is no longer waiting for that. */
  ghost predicate GoesOn(s: State, s': State, t: Tunnel) {
    && t in s'.installed
    && (!Registered(s.conns, t) ==> !Registered(s'.conns, t))
    && (t !in s.open ==> t !in s'.open)
    && (t in s.closing ==> t in s'.closing || t !in s'.open)
  }

  /** A doomed device stays so, and what it holds then was there before or came in the gap. */
  ghost predicate StaysDoomed(s: State, s': State, rep: nat, dev: string) {
    && (rep, dev) in s'.doomed && rep < |s.conns| == |s'.conns|
    && (dev in s'.conns[rep] ==> s'.conns[rep][dev] in s'.gap || Held(s'.conns[rep], dev) == Held(s.conns[rep], dev))
  }

  ghost predicate Untouched(s: State, s': State, me: Task) {
    && |s'.conns| == |s.conns| && s'.clock >= s.clock && s.gap <= s'.gap
    && (forall t :: t in s.installed ==> GoesOn(s, s', t))
    && match me
       case Serve(t) => (t in s.accepted ==> t in s'.accepted) && (t.since <= s.clock && t !in s.open ==> t !in s'.open)
       case Dropping(rep, devs) => forall dev :: dev in devs && rep < |s.conns| && (rep, dev) in s.doomed ==> StaysDoomed(s, s', rep, dev)
       case Nothing => true
  }

  lemma StepGoesOn(s: State, st: Step, t: Tunnel)
    requires Inv(s) && Enabled(s, st) && t in s.installed
    ensures GoesOn(s, Next(s, st), t)
  {}

  lemma StepDooms(s: State, st: Step, rep: nat, dev: string)
    requires Enabled(s, st) && rep < |s.conns| && (rep, dev) in s.doomed
    requires st == Unregister(rep, dev) ==> s.doomed[(rep, dev)] > 1
    ensures StaysDoomed(s, Next(s, st), rep, dev)
  {}

  lemma StepLeaves(s: State, st: Step, me: Task)
    requires Inv(s) && Enabled(s, st) && !Mine(s, st, me)
    ensures Untouched(s, Next(s, st), me)
  {
    var s' := Next(s, st);
    forall t | t in s.installed ensures GoesOn(s, s', t) {
      StepGoesOn(s, st, t);
    }
    if me.Dropping? {
      forall dev | dev in me.devs && me.rep < |s.conns| && (me.rep, dev) in s.doomed
        ensures StaysDoomed(s, s', me.rep, dev)
      {
        StepDooms(s, st, me.rep, dev);
      }
    }
  }

  lemma UntouchedTwice(a: State, b: State, c: State, me: Task)
    requires Untouched(a, b, me) && Untouched(b, c, me)
    ensures Untouched(a, c, me)
  {}

  lemma {:induction false} OthersLeaveTask(s: State, me: Task, steps: seq<Step>)
    requires Inv(s)
    ensures Untouched(s, Final(s, Possible(s, me, steps)), me)
    decreases steps
  {
    if steps == [] {
    } else if Enabled(s, steps[0]) && !Mine(s, steps[0], me) {
      var next := Next(s, steps[0]);
      var rest := Possible(next, me, steps[1..]);
      StepKeeps(s, steps[0]);
      StepLeaves(s, steps[0], me);
      OthersLeaveTask(next, me, steps[1..]);
      assert ([steps[0]] + rest)[1..] == rest;
      UntouchedTwice(s, next, Final(next, rest), me);
    } else {
      OthersLeaveTask(s, me, steps[1..]);
    }
  }

  lemma {:induction false} Concat(s: State, a: seq<Step>, b: seq<Step>)
    requires ValidRun(s, a) && ValidRun(Final(s, a), b)
    ensures ValidRun(s, a + b) && Final(s, a + b) == Final(Final(s, a), b)
    decreases a
  {
    if a == [] {
      assert a + b == b;
    } else {
      Concat(Next(s, a[0]), a[1..], b);
      assert (a + b)[0] == a[0] && (a + b)[1..] == a[1..] + b;
    }
  }

  /** The whole deployment; `run` records the steps taken so far. */
  class Net {
    const start: State
    var s: State
    ghost var run: seq<Step>

    ghost predicate Valid()
      reads this
    {
      Inv(start) && ValidRun(start, run) && Final(start, run) == s
    }

    constructor (n: nat)
      ensures Valid() && s == start == Init(n) && run == []
    {
      start, s, run := Init(n), Init(n), [];
      InitInv(n);
    }

    method Take(st: Step)
      requires Valid() && Enabled(s, st)
      modifies this
      ensures Valid() && s == Next(old(s), st) && run == old(run) + [st]
    {
      assert [st][1..] == [];
      assert ValidRun(Next(s, st), []) && Final(Next(s, st), []) == Next(s, st);
      Concat(start, run, [st]);
      s := Next(s, st);
      run := run + [st];
    }

    method Meanwhile(me: Task, steps: seq<Step>)
      requires Valid()
      modifies this
      ensures Valid() && old(run) <= run && Untouched(old(s), s, me)
    {
      ghost var more := Possible(s, me, steps);
      RunKeeps(start, run);
      OthersLeaveTask(s, me, steps);
      Concat(start, run, more);
      s := Final(s, Possible(s, me, steps));
      run := run + more;
    }
  }

  class Hub {
    const rep: nat
    var conns: Conns

    constructor (rep: nat)
      ensures this.rep == rep && conns == map[]
    {
      this.rep, conns := rep, map[];
    }

    /** The table is what the deployment takes for this replica's. */
    ghost predicate Holds(net: Net)
      reads this, net
    {
      net.Valid() && rep < |net.s.conns| && net.s.conns[rep] == conns
    }

    method Meanwhile(net: Net, me: Task, steps: seq<Step>)
      requires Holds(net)
      modifies this, net
      ensures Holds(net) && old(net.run) <= net.run && Untouched(old(net.s), net.s, me)
    {
      net.Meanwhile(me, steps);
      conns := net.s.conns[rep];
    }

    /** Registers an accepted tunnel and closes the one it replaces. */
    method Register(net: Net, t: Tunnel, between: seq<Step>)
      requires Holds(net) && t in net.s.accepted && t.rep == rep
      modifies this, net
      ensures Holds(net) && old(net.run) <= net.run && net.s.clock >= old(net.s).clock && t in net.s.installed
      ensures var prev := Held(old(conns), t.dev); prev.Some? ==> prev.value !in net.s.closing
    {
      var prev := Held(conns, t.dev);
      net.Take(Install(t));
      conns := conns[t.dev := t];
      Meanwhile(net, Serve(t), between);
      if prev.Some? && prev.value in net.s.closing {
        net.Take(Close(prev.value));
      }
    }

    /** After the session ended the tunnel removes itself, if it is still the one registered. */
    method Finish(net: Net, t: Tunnel, between: seq<Step>)
      requires Holds(net) && t in net.s.installed && t.rep == rep && t.since <= net.s.clock
      modifies this, net
      ensures Holds(net) && old(net.run) <= net.run
      ensures t !in net.s.open && Held(conns, t.dev) != Some(t)
    {
      if t in net.s.open {
        net.Take(End(t));
      }
      Meanwhile(net, Serve(t), between);
      net.Take(Cleanup(t));
      if Held(conns, t.dev) == Some(t) {
        conns := conns - {t.dev};
      }
    }

    /** serveDevice: everything it does is a step of the deployment, and when it returns its tunnel is
        neither open nor registered. */
    method ServeDevice(net: Net, dev: string, beforeLock: seq<Step>, afterLock: seq<Step>, during: seq<Step>, after: seq<Step>)
      returns (t: Tunnel)
      requires Holds(net)
      modifies this, net
      ensures Holds(net) && old(net.run) <= net.run
      ensures t == Tunnel(rep, dev, old(net.s).clock + 1) && t !in net.s.open && Held(conns, dev) != Some(t)
    {
      t := Tunnel(rep, dev, net.s.clock + 1);
      net.Take(Accept(rep, dev));
      Meanwhile(net, Serve(t), beforeLock);
      Register(net, t, afterLock);
      Meanwhile(net, Serve(t), during);
      Finish(net, t, after);
    }

    /** The second half of dropConn: after the lock is released, the session of what was held is closed. */
    method CloseDropped(net: Net, dc: Option<Tunnel>, me: Task, between: seq<Step>)
      requires Holds(net)
      requires dc.Some? ==> dc.value in net.s.installed && dc.value in net.s.closing
      modifies this, net
      ensures Holds(net) && old(net.run) <= net.run && Untouched(old(net.s), net.s, me)
      ensures dc.Some? ==> dc.value !in net.s.open
    {
      Meanwhile(net, me, between);
      if dc.Some? && dc.value in net.s.closing {
        ghost var before := net.s;
        RunKeeps(net.start, net.run);
        net.Take(Close(dc.value));
        StepLeaves(before, Close(dc.value), me);
        UntouchedTwice(old(net.s), before, net.s, me);
      }
    }

    /** dropConn of one of the devices this goroutine has decided to drop, some time after the test. */
    method DropOne(net: Net, dev: string, devs: set<string>, between: seq<Step>, beforeClose: seq<Step>)
      returns (dc: Option<Tunnel>)
      requires Holds(net) && dev in devs && forall d :: d in devs ==> (rep, d) in net.s.doomed
      modifies this, net
      ensures Holds(net) && old(net.run) <= net.run && Untouched(old(net.s), net.s, Dropping(rep, devs - {dev}))
      ensures dev in old(conns) ==> !Registered(net.s.conns, old(conns)[dev])
      ensures dc.Some? ==> dc.value in net.s.installed && dc.value.dev == dev
      ensures dc.Some? ==> !Registered(net.s.conns, dc.value) && dc.value !in net.s.open
      ensures dc.Some? ==> dc == Held(old(conns), dev) || dc.value in net.s.gap
    {
      ghost var rest := Dropping(rep, devs - {dev});
      RunKeeps(net.start, net.run);
      Meanwhile(net, Dropping(rep, devs), between);
      ghost var before := net.s;
      RunKeeps(net.start, net.run);
      dc := Held(conns, dev);
      net.Take(Unregister(rep, dev));
      conns := conns - {dev};
      ghost var after := net.s;
      StepLeaves(before, Unregister(rep, dev), rest);
      UntouchedTwice(old(net.s), before, after, rest);
      CloseDropped(net, dc, Dropping(rep, devs - {dev}), beforeClose);
      UntouchedTwice(old(net.s), after, net.s, rest);
    }

    /** handleDrop: the test under the lock, the drop in a second locked section, the close after it.  A tunnel older
        than the drop's start time, or any when it has none, ends up unregistered; otherwise nothing happens.  What
        is dropped is what was tested, or was registered in between. */
    method HandleDrop(net: Net, m: Drop, between: seq<Step>, beforeClose: seq<Step>) returns (dc: Option<Tunnel>)
      requires Holds(net) && m in net.s.drops && m.to == rep
      modifies this, net
      ensures Holds(net) && old(net.run) <= net.run
      ensures m.dev in old(conns) && (m.since == 0 || old(conns)[m.dev].since < m.since) ==>
        !Registered(net.s.conns, old(conns)[m.dev])
      ensures m.dev !in old(conns) || (m.since != 0 && old(conns)[m.dev].since >= m.since) ==>
        conns == old(conns) && dc.None?
      ensures dc.Some? ==> !Registered(net.s.conns, dc.value) && dc.value !in net.s.open
      ensures dc.Some? ==> dc == Held(old(conns), m.dev) || dc.value in net.s.gap
    {
      dc := None;
      var drop := Hits(conns, m);
      RunKeeps(net.start, net.run);
      net.Take(Check(m));
      if drop {
        dc := DropOne(net, m.dev, {m.dev}, between, beforeClose);
      }
    }

    /** dropConn after a local revocation. */
    method RevokeHere(net: Net, dev: string, beforeClose: seq<Step>) returns (dc: Option<Tunnel>)
      requires Holds(net)
      modifies this, net
      ensures Holds(net) && old(net.run) <= net.run && dc == Held(old(conns), dev)
      ensures dc.Some? ==> !Registered(net.s.conns, dc.value) && dc.value !in net.s.open
    {
      dc := Held(conns, dev);
      RunKeeps(net.start, net.run);
      net.Take(Revoke(rep, dev));
      conns := conns - {dev};
      CloseDropped(net, dc, Nothing, beforeClose);
    }

    /** The first locked section of revalidateConns: which devices are gone or have another token. */
    method Condemned(net: Net, valid: map<string, string>, tokens: map<Tunnel, string>) returns (stale: set<string>)
      requires Holds(net)
      modifies net
      ensures Holds(net) && old(net.run) <= net.run && net.s.conns == old(net.s.conns)
      ensures stale == set d | d in conns && StaleConn(conns, d, valid, tokens)
      ensures forall d :: d in stale ==> (rep, d) in net.s.doomed
    {
      stale := set d | d in conns && StaleConn(conns, d, valid, tokens);
      var left := stale;
      while left != {}
        invariant Holds(net) && old(net.run) <= net.run && net.s.conns == old(net.s.conns) && left <= stale
        invariant forall d :: d in stale - left ==> (rep, d) in net.s.doomed
        decreases left
      {
        var d :| d in left;
        net.Take(Condemn(rep, d));
        left := left - {d};
      }
    }

    /** revalidateConns: the test in one locked section, then one device after the other in its own.  Every tunnel
        found stale is unregistered; what is dropped is stale, or was registered after the test; and all that is
        dropped is closed. */
    method Revalidate(net: Net, valid: map<string, string>, tokens: map<Tunnel, string>,
                      between: string -> seq<Step>, beforeClose: string -> seq<Step>)
      returns (dropped: set<Tunnel>)
      requires Holds(net)
      modifies this, net
      ensures Holds(net) && old(net.run) <= net.run
      ensures forall d :: d in old(conns) && StaleConn(old(conns), d, valid, tokens) ==>
        !Registered(net.s.conns, old(conns)[d])
      ensures forall d :: d in old(conns) && d !in valid ==> !Registered(net.s.conns, old(conns)[d])
      ensures forall d | d in old(conns) && d in valid && old(conns)[d] in tokens ::
        tokens[old(conns)[d]] == "" || tokens[old(conns)[d]] == valid[d] || !Registered(net.s.conns, old(conns)[d])
      ensures forall t :: t in dropped ==> !Registered(net.s.conns, t) && t !in net.s.open
      ensures forall t :: t in dropped ==>
        t in net.s.gap || (t.dev in old(conns) && t == old(conns)[t.dev] && StaleConn(old(conns), t.dev, valid, tokens))
    {
      ghost var was := conns;
      var stale := Condemned(net, valid, tokens);
      dropped := {};
      RunKeeps(net.start, net.run);
      var left := stale;
      while left != {}
        invariant Holds(net) && old(net.run) <= net.run && left <= stale
        invariant ToDo(net.s, rep, was, left) && DoneWith(net.s, was, stale, left, dropped)
        decreases left
      {
        var d :| d in left;
        ghost var before, dropped0 := net.s, dropped;
        var dc := DropOne(net, d, left, between(d), beforeClose(d));
        if dc.Some? {
          dropped := dropped + {dc.value};
        }
        OneDone(before, net.s, rep, was, stale, left, d, dropped0, dc);
        left := left - {d};
      }
    }
  }

  /** The devices still to drop hold what was found stale, or what came in the gap. */
  ghost predicate ToDo(s: State, rep: nat, was: Conns, left: set<string>) {
    && rep < |s.conns|
    && (forall d :: d in left ==> (rep, d) in s.doomed)
    && (forall d :: d in left && d in s.conns[rep] ==> s.conns[rep][d] in s.gap || Held(was, d) == Some(s.conns[rep][d]))
  }

  ghost predicate Gone(s: State, t: Tunnel) {
    t in s.installed && !Registered(s.conns, t) && t !in s.open
  }

  ghost predicate DoneWith(s: State, was: Conns, stale: set<string>, left: set<string>, dropped: set<Tunnel>) {
    && stale <= was.Keys
    && (forall d :: d in stale ==> was[d] in s.installed)
    && (forall d :: d in stale - left ==> !Registered(s.conns, was[d]))
    && (forall t :: t in dropped ==> Gone(s, t))
    && (forall t :: t in dropped ==> t in s.gap || (t.dev in stale && t == was[t.dev]))
  }

  lemma OneDone(s: State, s': State, rep: nat, was: Conns, stale: set<string>, left: set<string>, d: string,
                dropped: set<Tunnel>, dc: Option<Tunnel>)
    requires ToDo(s, rep, was, left) && DoneWith(s, was, stale, left, dropped) && d in left && left <= stale
    requires Untouched(s, s', Dropping(rep, left - {d}))
    requires d in s.conns[rep] ==> !Registered(s'.conns, s.conns[rep][d])
    requires !Registered(s.conns, was[d]) || Held(s.conns[rep], d) == Some(was[d])
    requires dc.Some? ==> Gone(s', dc.value) && dc.value.dev == d
    requires dc.Some? ==> dc == Held(s.conns[rep], d) || dc.value in s'.gap
    ensures ToDo(s', rep, was, left - {d})
    ensures DoneWith(s', was, stale, left - {d}, if dc.Some? then dropped + {dc.value} else dropped)
  {
    var dropped' := if dc.Some? then dropped + {dc.value} else dropped;
    forall e | e in stale - (left - {d}) ensures !Registered(s'.conns, was[e]) {
      assert GoesOn(s, s', was[e]);
    }
    forall t | t in dropped' ensures Gone(s', t) && (t in s'.gap || (t.dev in stale && t == was[t.dev])) {
      assert t in dropped ==> GoesOn(s, s', t);
    }
  }

  predicate StaleConn(conns: Conns, d: string, valid: map<string, string>, tokens: map<Tunnel, string>)
    requires d in conns
  {
    d !in valid || (conns[d] in tokens && tokens[conns[d]] != "" && valid[d] != tokens[conns[d]])
  }

  // ---- finding the replica that holds a device ----

  /** What the peers last answered: by address, the start time of each device's tunnel. */
  type Views = map<string, map<string, nat>>

  /** Peer a claims the device, and none of these peers claims it with a newer tunnel. */
  ghost predicate IsOwner(peers: Views, among: set<string>, id: string, a: string) {
    && a in peers && id in peers[a]
    && forall b :: b in among && b in peers && id in peers[b] ==> peers[b][id] <= peers[a][id]
  }

  class Cluster {
    var peers: Views
    var at: map<string, int> // when each peer answered

    ghost predicate Valid()
      reads this
    {
      peers.Keys == at.Keys
    }

    constructor ()
      ensures Valid() && peers == map[]
    {
      peers, at := map[], map[];
    }

    /** refresh: answers replace what was known; peers that left, or have been silent for too long, go. */
    method Refresh(got: Views, addrs: set<string>, now: int, stale: int)
      requires Valid() && stale >= 0
      modifies this
      ensures Valid()
      ensures forall a :: a in peers <==>
        a in addrs && (a in got || (a in old(peers) && now - old(at)[a] <= stale))
      ensures forall a :: a in peers ==> peers[a] == if a in got then got[a] else old(peers)[a]
    {
      Install(got, now);
      Prune(addrs, now, stale);
    }

    method Install(got: Views, now: int)
      requires Valid()
      modifies this
      ensures Valid() && peers == old(peers) + got
      ensures forall a :: a in peers ==> at[a] == if a in got then now else old(at)[a]
    {
      var todo := got.Keys;
      while todo != {}
        invariant Valid() && todo <= got.Keys
        invariant peers.Keys == old(peers).Keys + (got.Keys - todo)
        invariant forall a :: a in peers ==> peers[a] == if a in got && a !in todo then got[a] else old(peers)[a]
        invariant forall a :: a in peers ==> at[a] == if a in got && a !in todo then now else old(at)[a]
        decreases todo
      {
        var a :| a in todo;
        peers, at := peers[a := got[a]], at[a := now];
        todo := todo - {a};
      }
    }

    method Prune(addrs: set<string>, now: int, stale: int)
      requires Valid()
      modifies this
      ensures Valid()
      ensures forall a :: a in peers <==> a in old(peers) && a in addrs && now - old(at)[a] <= stale
      ensures forall a :: a in peers ==> peers[a] == old(peers)[a] && at[a] == old(at)[a]
    {
      var rest := peers.Keys;
      while rest != {}
        invariant Valid() && rest <= peers.Keys <= old(peers).Keys
        invariant forall a :: a in peers ==> peers[a] == old(peers)[a] && at[a] == old(at)[a]
        invariant forall a :: a in old(peers) && a !in rest ==> (a in peers <==> a in addrs && now - old(at)[a] <= stale)
        decreases rest
      {
        var a :| a in rest;
        rest := rest - {a};
        if a !in addrs || now - at[a] > stale {
          peers, at := peers - {a}, at - {a};
        }
      }
    }

    /** ownerLocked: the peer with the newest tunnel of the device, in whatever order peers are visited. */
    method Owner(id: string) returns (addr: Option<string>)
      ensures addr.None? <==> forall a :: a in peers ==> id !in peers[a]
      ensures addr.Some? ==> IsOwner(peers, peers.Keys, id, addr.value)
    {
      addr := None;
      var rest := peers.Keys;
      while rest != {}
        invariant rest <= peers.Keys
        invariant addr.None? ==> forall a :: a in peers && a !in rest ==> id !in peers[a]
        invariant addr.Some? ==> IsOwner(peers, peers.Keys - rest, id, addr.value)
        decreases rest
      {
        var a :| a in rest;
        rest := rest - {a};
        if id in peers[a] && (addr.None? || peers[a][id] > peers[addr.value][id]) {
          addr := Some(a);
        }
      }
    }
  }
}
