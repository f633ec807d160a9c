/** One replica's store object: the cached document, `refresh` and the retry loop of `mutate`,
    running among everything else that may happen meanwhile. */
module ReplicaStore {
  import opened Options
  import opened Optimistic

  /** What a goroutine is busy with. */
  datatype Task = CallOf(c: nat) | ReadOf(x: nat)

  predicate Of<O, R>(st: Step<O, R>, me: Task) {
    if st.ReadGet? || st.ReadInstall? then me == ReadOf(st.x) else me == CallOf(st.c)
  }

  ghost predicate Untouched<O, D, R>(s: State<O, D, R>, t: State<O, D, R>, me: Task) {
    match me
    case CallOf(c) => (c in t.calls <==> c in s.calls) && (c in s.calls ==> t.calls[c] == s.calls[c])
    case ReadOf(x) => (x in t.gets <==> x in s.gets) && (x in s.gets ==> t.gets[x] == s.gets[x])
  }

  /** The steps of a schedule that can be taken in turn and are not this goroutine's. */
  function Possible<O, D, R>(ap: Callback<O, D, R>, s: State<O, D, R>, me: Task, steps: seq<Step<O, R>>)
    : (run: seq<Step<O, R>>)
    ensures ValidRun(ap, s, run)
    decreases steps
  {
    if steps == [] then []
    else if Enabled(s, steps[0]) && !Of(steps[0], me) then
      var rest := Possible(ap, Next(ap, s, steps[0]), me, steps[1..]);
      assert ([steps[0]] + rest)[1..] == rest;
      [steps[0]] + rest
    else Possible(ap, s, me, steps[1..])
  }

  lemma {:induction false} OthersLeaveTask<O, D, R>(ap: Callback<O, D, R>, s: State<O, D, R>, me: Task,
                                                    steps: seq<Step<O, R>>)
    ensures Untouched(s, Final(ap, s, Possible(ap, s, me, steps)), me)
    decreases steps
  {
    if steps == [] {
    } else if Enabled(s, steps[0]) && !Of(steps[0], me) {
      var rest := Possible(ap, Next(ap, s, steps[0]), me, steps[1..]);
      OthersLeaveTask(ap, Next(ap, s, steps[0]), me, steps[1..]);
      assert ([steps[0]] + rest)[1..] == rest;
    } else {
      OthersLeaveTask(ap, s, me, steps[1..]);
    }
  }

  /** Everything outside the running call: the API server, the other replicas and the other
      goroutines of this one.  `run` records the steps taken so far. */
  class World<O, D, R> {
    const ap: Callback<O, D, R>
    const start: State<O, D, R>
    var s: State<O, D, R>
    ghost var run: seq<Step<O, R>>

    ghost predicate Valid()
      reads this
    {
      ValidRun(ap, start, run) && Final(ap, start, run) == s
    }

    constructor (ap: Callback<O, D, R>, start: State<O, D, R>)
      ensures Valid() && this.ap == ap && this.start == start && s == start && run == []
    {
      this.ap, this.start, s, run := ap, start, start, [];
    }

    method Take(st: Step<O, R>)
      requires Valid() && Enabled(s, st)
      modifies this
      ensures Valid() && s == Next(ap, old(s), st) && run == old(run) + [st]
    {
      assert [st][1..] == [];
      assert ValidRun(ap, Next(ap, s, st), []) && Final(ap, Next(ap, s, st), []) == Next(ap, s, st);
      Concat(ap, start, run, [st]);
      s := Next(ap, s, st);
      run := run + [st];
    }

    method Meanwhile(me: Task, steps: seq<Step<O, R>>)
      requires Valid()
      modifies this
      ensures Valid() && old(run) <= run && Untouched(old(s), s, me)
    {
      ghost var more := Possible(ap, s, me, steps);
      OthersLeaveTask(ap, s, me, steps);
      Concat(ap, start, run, more);
      s := Final(ap, s, Possible(ap, s, me, steps));
      run := run + more;
    }
  }

  /** What befalls one request: a reply, none although it was decided, or none while the server may still
      decide it after the caller has given up. */
  datatype Fate = Answered | Unanswered | Late

  /** One turn of the retry loop: what the callback draws, what happens before each request and
      before each update of the cache, and whether the replies arrive. */
  datatype Turn<+O, +R> = Turn(
    rnd: R,
    beforeClone: seq<Step<O, R>>,
    beforePut: seq<Step<O, R>>,
    put: Fate,
    beforeInstall: seq<Step<O, R>>,
    beforeGet: seq<Step<O, R>>,
    get: Fate)

  class Replica<O, D, R> {
    const id: nat
    var doc: D
    var rv: nat

    constructor (id: nat, empty: D)
      ensures this.id == id && doc == empty && rv == 0
    {
      this.id, doc, rv := id, empty, 0;
    }

    /** The fields are what the system takes for this replica's cache. */
    ghost predicate Caches(w: World<O, D, R>)
      reads this, w
    {
      w.Valid() && CacheOf(w.s, id) == Snap(doc, rv)
    }

    /** Other goroutines of this replica share the cache. */
    method Meanwhile(w: World<O, D, R>, me: Task, steps: seq<Step<O, R>>)
      requires Caches(w)
      modifies this, w
      ensures Caches(w) && old(w.run) <= w.run && Untouched(old(w.s), w.s, me)
    {
      w.Meanwhile(me, steps);
      doc, rv := CacheOf(w.s, id).doc, CacheOf(w.s, id).rv;
    }

    /** The background refresh: the read is answered outside the lock and installed later, over
        whatever the cache holds by then. */
    method Refresh(w: World<O, D, R>, x: nat, between: seq<Step<O, R>>) returns (changed: bool)
      requires Caches(w) && x !in w.s.gets
      modifies this, w
      ensures Caches(w) && old(w.run) <= w.run && x !in w.s.gets
      ensures rv == |old(w.s).log|
      ensures changed ==> Snap(doc, rv) == Current(old(w.s))
    {
      var got := Current(w.s);
      w.Take(ReadGet(x, id));
      Meanwhile(w, ReadOf(x), between);
      changed := got.rv != rv;
      if changed {
        doc, rv := got.doc, got.rv;
      }
      w.Take(ReadInstall(x));
    }

    /** Call c is at this attempt, in this phase, for this callback. */
    ghost predicate Calling(w: World<O, D, R>, c: nat, op: O, attempt: nat)
      reads this, w
    {
      && Caches(w)
      && c in w.s.calls && w.s.calls[c].rep == id && w.s.calls[c].op == op && w.s.calls[c].attempt == attempt
    }

    /** Runs the callback on a clone of the cached document; None means there is something to write. */
    method EditClone(w: World<O, D, R>, c: nat, op: O, attempt: nat, turn: Turn<O, R>) returns (reply: Option<Reply<R>>)
      requires Calling(w, c, op, attempt) && w.s.calls[c].phase.Ready? && w.s.calls[c].put.None?
      modifies this, w
      ensures old(w.run) <= w.run && Calling(w, c, op, attempt)
      ensures reply.Some? ==> w.s.calls[c].phase == Done(reply.value)
      ensures reply.None? ==> w.s.calls[c].phase.Waiting? && w.s.calls[c].put.Some?
    {
      Meanwhile(w, CallOf(c), turn.beforeClone);
      var clone, base := doc, rv;
      w.Take(Compute(c, turn.rnd));
      match w.ap(op, clone, turn.rnd) {
        case NoChange(ret) => return Some(Kept(ret, base, turn.rnd));
        case Refuse(err) => return Some(Refused(err, base, turn.rnd));
        case Write(_, _) => return None;
      }
    }

    /** Sends the edited document; None means the loop goes on after a conflict.  A request given up on before it
        was decided stays with the server. */
    method PutState(w: World<O, D, R>, c: nat, op: O, attempt: nat, turn: Turn<O, R>) returns (reply: Option<Reply<R>>)
      requires Calling(w, c, op, attempt) && w.s.calls[c].phase.Waiting? && w.s.calls[c].put.Some?
      modifies this, w
      ensures old(w.run) <= w.run && Calling(w, c, op, attempt)
      ensures reply.Some? ==> w.s.calls[c].phase == Done(reply.value)
      ensures turn.put.Late? ==> reply == Some(Broken) && w.s.calls[c].put == old(w.s.calls[c].put)
      ensures reply.None? ==> attempt < LAST_ATTEMPT && w.s.calls[c].phase.Refetch? && w.s.calls[c].put.None?
    {
      var put := w.s.calls[c].put.value;
      Meanwhile(w, CallOf(c), turn.beforePut);
      if turn.put.Late? {
        w.Take(Lose(c));
        return Some(Broken);
      }
      if put.rv != |w.s.log| {
        if turn.put.Unanswered? {
          w.Take(Lose(c));
          return Some(Broken);
        }
        w.Take(Reject(c));
        return if attempt >= LAST_ATTEMPT then Some(Conflict) else None;
      }
      w.Take(Accept(c));
      var newRV := |w.s.log|;
      Meanwhile(w, CallOf(c), turn.beforeInstall);
      if turn.put.Unanswered? {
        w.Take(Lose(c));
        return Some(Broken);
      }
      w.Take(Install(c));
      doc, rv := put.doc, newRV;
      return Some(Wrote(put.ret, newRV));
    }

    /** Reads the document again after a conflict; false when the read failed. */
    method Reread(w: World<O, D, R>, c: nat, op: O, attempt: nat, turn: Turn<O, R>) returns (ok: bool)
      requires Calling(w, c, op, attempt) && w.s.calls[c].phase.Refetch? && w.s.calls[c].put.None?
      modifies this, w
      ensures old(w.run) <= w.run && Calling(w, c, op, if ok then attempt + 1 else attempt)
      ensures !ok ==> w.s.calls[c].phase == Done(Broken)
      ensures ok ==> w.s.calls[c].phase.Ready? && w.s.calls[c].put.None?
    {
      Meanwhile(w, CallOf(c), turn.beforeGet);
      if !turn.get.Answered? {
        w.Take(FetchFail(c));
        return false;
      }
      var got := Current(w.s);
      w.Take(Fetch(c));
      Meanwhile(w, CallOf(c), turn.beforeInstall);
      w.Take(InstallFetch(c));
      if got.rv != rv {
        doc, rv := got.doc, got.rv;
      }
      return true;
    }

    /** The retry loop.  It takes steps of the system and nothing else, and returns only when its
        call is done there, with the reply it returns. */
    method Mutate(w: World<O, D, R>, c: nat, op: O, turns: seq<Turn<O, R>>) returns (reply: Reply<R>)
      requires Caches(w) && c !in w.s.calls && |turns| == LAST_ATTEMPT + 1
      modifies this, w
      ensures Caches(w) && old(w.run) <= w.run
      ensures c in w.s.calls && w.s.calls[c].op == op && w.s.calls[c].phase == Done(reply)
    {
      w.Take(Begin(c, id, op));
      var attempt := 0;
      while true
        invariant attempt <= LAST_ATTEMPT && old(w.run) <= w.run
        invariant Calling(w, c, op, attempt) && w.s.calls[c].phase.Ready? && w.s.calls[c].put.None?
        decreases LAST_ATTEMPT - attempt
      {
        var turn := turns[attempt];
        var done := EditClone(w, c, op, attempt, turn);
        if done.None? {
          done := PutState(w, c, op, attempt, turn);
        }
        if done.Some? {
          return done.value;
        }
        var ok := Reread(w, c, op, attempt, turn);
        if !ok {
          return Broken;
        }
        attempt := attempt + 1;
      }
    }
  }
}
