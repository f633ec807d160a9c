/** The stream as a whole: any number of writers and viewers, interleaved step by step. */
module ScreenStream {
  import opened Screen

  /** Where a viewer's goroutine stands. */
  datatype Phase =
    | Starting
    | Asleep                                                         // waiting for a kick
    | Awake                                                          // took a kick, pacing frames
    | Drained                                                        // dropped the kick that came meanwhile
    | Snapped(rows: seq<string>, w: nat, h: nat, first: bool)        // has the rows, frame not yet sent
    | Closed

  /** `typed` is history: input has snapped a scrolled view back to the live screen since the last snapshot. */
  datatype Viewer = Viewer(
    view: View,
    last: seq<string>,
    lastW: nat,
    lastH: nat,
    needFull: bool,
    kick: bool,
    phase: Phase,
    client: Client,
    typed: bool)

  /** `dueFull` counts resizes that have not marked the viewers yet, `dueKick` writers that have not kicked yet. */
  datatype State = State(emu: Emu, exited: bool, dueFull: nat, dueKick: nat, viewers: map<nat, Viewer>)

  datatype Step =
    | Output(emu: Emu)
    | Resize(emu: Emu)
    | MarkFull
    | Kick
    | Exit
    | Wheel(id: nat, up: bool)
    | Type(id: nat)
    | Join(id: nat)
    | Leave(id: nat)
    | Wake(id: nat)
    | Drain(id: nat)
    | Snap(id: nat)
    | Send(id: nat)

  const WHEEL_STEP := 3
  const NEW_VIEWER := Viewer(View(0, 0), [], 0, 0, false, false, Starting, Client([], 0, 0), false)

  predicate Enabled(s: State, st: Step) {
    match st
    case Output(emu) => ValidEmu(emu)
    case Resize(emu) => ValidEmu(emu)
    case MarkFull => s.dueFull > 0
    case Kick => s.dueKick > 0
    case Exit => !s.exited
    case Join(id) => id !in s.viewers
    case Wake(id) => id in s.viewers && s.viewers[id].phase.Asleep? && s.viewers[id].kick
    case Drain(id) => id in s.viewers && s.viewers[id].phase.Awake?
    case Snap(id) => id in s.viewers && (s.viewers[id].phase.Starting? || s.viewers[id].phase.Drained?)
    case Send(id) => id in s.viewers && s.viewers[id].phase.Snapped?
    case _ => st.id in s.viewers
  }

  /** A notch of the wheel: it scrolls unless the child wants the mouse or is on the alternate screen. */
  function Wheeled(e: Emu, v: Viewer, up: bool): Viewer {
    if e.mouse || e.alt then v
    else
      var scroll := if up then Min(v.view.scroll + WHEEL_STEP, |e.back|) else Max(v.view.scroll - WHEEL_STEP, 0);
      v.(view := View(scroll, |e.back|), kick := true)
  }

  /** Keyboard and paste input ends scrolling back, without a kick. */
  function Typed(v: Viewer): Viewer {
    v.(view := v.view.(scroll := 0), typed := v.typed || v.view.scroll > 0)
  }

  function FrameFor(v: Viewer): Frame
    requires v.phase.Snapped?
  {
    var p := v.phase;
    var full := v.needFull || v.lastW != p.w || v.lastH != p.h;
    Frame(p.w, p.h, full, Diff(v.last, p.rows, full))
  }

  /** The frame goes out; after the exit frame the viewer is done, except that the first frame is not looked at. */
  function Sent(v: Viewer, exited: bool): Viewer
    requires v.phase.Snapped?
  {
    var p := v.phase;
    v.(last := p.rows, lastW := p.w, lastH := p.h, needFull := false,
       client := Received(v.client, FrameFor(v)),
       phase := if exited && !p.first then Closed else Asleep)
  }

  function Taken(fit: Fit, e: Emu, v: Viewer): Viewer {
    v.(view := Followed(e, v.view),
       needFull := v.needFull || v.phase.Starting?,
       phase := Snapped(Snapshot(fit, e, v.view), e.w, e.h, v.phase.Starting?),
       typed := false)
  }

  function Next(fit: Fit, s: State, st: Step): State
    requires Enabled(s, st)
  {
    match st
    case Output(emu) => s.(emu := emu, dueKick := s.dueKick + 1)
    case Resize(emu) => s.(emu := if s.exited then s.emu else emu, dueFull := s.dueFull + 1)
    case MarkFull =>
      s.(dueFull := s.dueFull - 1, dueKick := s.dueKick + 1,
         viewers := map i | i in s.viewers :: s.viewers[i].(needFull := true))
    case Kick =>
      s.(dueKick := s.dueKick - 1, viewers := map i | i in s.viewers :: s.viewers[i].(kick := true))
    case Exit => s.(exited := true, dueKick := s.dueKick + 1)
    case Wheel(id, up) =>
      if s.exited then s else s.(viewers := s.viewers[id := Wheeled(s.emu, s.viewers[id], up)])
    case Type(id) => s.(viewers := s.viewers[id := Typed(s.viewers[id])])
    case Join(id) => s.(viewers := s.viewers[id := NEW_VIEWER])
    case Leave(id) => s.(viewers := s.viewers - {id})
    case Wake(id) => s.(viewers := s.viewers[id := s.viewers[id].(phase := Awake, kick := false)])
    case Drain(id) => s.(viewers := s.viewers[id := s.viewers[id].(phase := Drained, kick := false)])
    case Snap(id) => s.(viewers := s.viewers[id := Taken(fit, s.emu, s.viewers[id])])
    case Send(id) => s.(viewers := s.viewers[id := Sent(s.viewers[id], s.exited)])
  }

  function Init(emu: Emu): State {
    State(emu, false, 0, 0, map[])
  }

  predicate ValidRun(fit: Fit, s: State, run: seq<Step>)
    decreases run
  {
    run == [] || (Enabled(s, run[0]) && ValidRun(fit, Next(fit, s, run[0]), run[1..]))
  }

  function Final(fit: Fit, s: State, run: seq<Step>): State
    requires ValidRun(fit, s, run)
    decreases run
  {
    if run == [] then s else Final(fit, Next(fit, s, run[0]), run[1..])
  }

  /** A notch of the wheel moves the view by three lines, up to the top of the scrollback and down to the live screen,
      and wakes the viewer; unless the child wants the mouse or is on the alternate screen. */
  lemma WheelMoves(e: Emu, v: Viewer, up: bool)
    ensures e.mouse || e.alt ==> Wheeled(e, v, up) == v
    ensures !e.mouse && !e.alt ==>
      Wheeled(e, v, up).kick && Wheeled(e, v, up) == v.(view := Wheeled(e, v, up).view, kick := true)
    ensures !e.mouse && !e.alt && up ==> Wheeled(e, v, up).view.scroll == Min(v.view.scroll + 3, |e.back|)
    ensures !e.mouse && !e.alt && !up ==> Wheeled(e, v, up).view.scroll == if v.view.scroll <= 3 then 0 else v.view.scroll - 3
    ensures !e.mouse && !e.alt ==> Wheeled(e, v, up).view.lastSB == |e.back|
  {}

  // ---- what every step keeps ----

  /** The viewer's last frame is the screen as it is now. */
  ghost predicate UpToDate(fit: Fit, e: Emu, v: Viewer) {
    Snapshot(fit, e, v.view) == v.last && e.w == v.lastW && e.h == v.lastH
  }

  /** Somebody has kicked, or will. */
  ghost predicate Pending(s: State, v: Viewer) {
    v.kick || s.dueKick > 0 || s.dueFull > 0
  }

  ghost predicate ClientOk(v: Viewer) {
    v.client == Client(v.last, v.lastW, v.lastH) && |v.last| == v.lastH
  }

  /** No wakeup is lost: a viewer that sleeps, or is about to send, is up to date or will be woken. */
  ghost predicate ViewerOk(fit: Fit, s: State, v: Viewer) {
    && ClientOk(v)
    && match v.phase
       case Asleep => UpToDate(fit, s.emu, v) || Pending(s, v) || v.typed
       case Snapped(rows, w, h, _) =>
         && w > 0 && h > 0 && |rows| == h
         && ((rows == Snapshot(fit, s.emu, v.view) && w == s.emu.w && h == s.emu.h) || Pending(s, v) || v.typed)
       case _ => true
  }

  ghost predicate Inv(fit: Fit, s: State) {
    ValidEmu(s.emu) && forall i :: i in s.viewers ==> ViewerOk(fit, s, s.viewers[i])
  }

  lemma SendKeeps(fit: Fit, s: State, v: Viewer)
    requires ViewerOk(fit, s, v) && v.phase.Snapped?
    ensures ViewerOk(fit, s, Sent(v, s.exited))
  {
    var p := v.phase;
    DiffThenPatch(v.client, v.last, p.rows, p.w, v.needFull);
  }

  lemma SnapKeeps(fit: Fit, s: State, v: Viewer)
    requires ValidEmu(s.emu) && ViewerOk(fit, s, v)
    ensures ViewerOk(fit, s, Taken(fit, s.emu, v))
  {}

  /** A viewer that the step does not take a frame further. */
  lemma OtherKeeps(fit: Fit, s: State, st: Step, i: nat)
    requires ValidEmu(s.emu) && Enabled(s, st) && i in s.viewers && ViewerOk(fit, s, s.viewers[i])
    requires (st.Send? || st.Snap?) ==> st.id != i
    ensures var s' := Next(fit, s, st); i in s'.viewers ==> ViewerOk(fit, s', s'.viewers[i])
  {}

  lemma StepKeeps(fit: Fit, s: State, st: Step)
    requires Inv(fit, s) && Enabled(s, st)
    ensures Inv(fit, Next(fit, s, st))
  {
    var s' := Next(fit, s, st);
    forall i | i in s'.viewers ensures ViewerOk(fit, s', s'.viewers[i]) {
      if st.Send? && i == st.id {
        SendKeeps(fit, s, s.viewers[i]);
      } else if st.Snap? && i == st.id {
        SnapKeeps(fit, s, s.viewers[i]);
      } else if i in s.viewers {
        OtherKeeps(fit, s, st, i);
      }
    }
  }

  lemma {:induction false} RunKeeps(fit: Fit, s: State, run: seq<Step>)
    requires Inv(fit, s) && ValidRun(fit, s, run)
    ensures Inv(fit, Final(fit, s, run))
    decreases run
  {
    if run == [] {
    } else {
      StepKeeps(fit, s, run[0]);
      RunKeeps(fit, Next(fit, s, run[0]), run[1..]);
    }
  }

  ghost predicate Resting(s: State, id: nat) {
    id in s.viewers && s.viewers[id].phase.Asleep? && !Pending(s, s.viewers[id])
  }

  /** Whenever no writer is mid-step, the kick slot is empty and the viewer waits, the rows its client has
      put together from the frames are the current snapshot: for every run of output, resizes, wheel
      notches, keys, exits, viewers coming and going, and frames; unless a key has snapped this viewer's view
      back since its last snapshot. */
  lemma ClientShowsScreen(fit: Fit, emu: Emu, run: seq<Step>, id: nat)
    requires ValidEmu(emu) && ValidRun(fit, Init(emu), run)
    requires Resting(Final(fit, Init(emu), run), id) && !Final(fit, Init(emu), run).viewers[id].typed
    ensures var s := Final(fit, Init(emu), run);
      s.viewers[id].client == Client(Snapshot(fit, s.emu, s.viewers[id].view), s.emu.w, s.emu.h)
  {
    RunKeeps(fit, Init(emu), run);
  }

  /** A viewer that never types while scrolled back always has its bit clear, whatever the others do. */
  lemma {:induction false} BitStaysClear(fit: Fit, s: State, run: seq<Step>, id: nat)
    requires ValidRun(fit, s, run) && NeverTypesScrolled(fit, s, run, id) && (id in s.viewers ==> !s.viewers[id].typed)
    ensures var t := Final(fit, s, run); id in t.viewers ==> !t.viewers[id].typed
    decreases run
  {
    if run == [] {
    } else {
      BitStaysClear(fit, Next(fit, s, run[0]), run[1..], id);
    }
  }

  predicate NeverTypesScrolled(fit: Fit, s: State, run: seq<Step>, id: nat)
    requires ValidRun(fit, s, run)
    decreases run
  {
    run == [] ||
    ((run[0] == Type(id) ==> s.viewers[id].view.scroll == 0) && NeverTypesScrolled(fit, Next(fit, s, run[0]), run[1..], id))
  }

  /** Typing into a scrolled view wakes nobody: at rest the client then shows the live screen exactly when
      the scrolled rows happened to be the live ones. */
  lemma TypingWhileScrolled(fit: Fit, s: State, id: nat)
    requires Inv(fit, s) && Resting(s, id) && !s.viewers[id].typed && s.viewers[id].view.scroll > 0
    ensures var s' := Next(fit, s, Type(id));
      && Resting(s', id)
      && (s'.viewers[id].client.rows == Snapshot(fit, s'.emu, s'.viewers[id].view)
          <==> Snapshot(fit, s.emu, s.viewers[id].view) == Padded(fit, s.emu.grid, s.emu.w, s.emu.h))
  {}

  // ---- a client left stale ----

  lemma Prepend(fit: Fit, s: State, st: Step, rest: seq<Step>) returns (run: seq<Step>)
    requires Enabled(s, st) && ValidRun(fit, Next(fit, s, st), rest)
    ensures ValidRun(fit, s, run) && Final(fit, s, run) == Final(fit, Next(fit, s, st), rest)
  {
    run := [st] + rest;
    assert run[1..] == rest;
  }

  ghost predicate Stale(fit: Fit, s: State, id: nat) {
    Resting(s, id) && s.viewers[id].client.rows != Snapshot(fit, s.emu, s.viewers[id].view)
  }

  function SameRow(row: string, w: nat): string {
    row
  }

  const TINY := Emu(["a"], 1, 1, ["b"], false, false)

  /** Viewer 0's client shows `rows`, and nobody else is about. */
  ghost predicate Showing(s: State, rows: seq<string>, view: View, kick: bool) {
    && s == State(TINY, false, 0, 0, s.viewers) && 0 in s.viewers
    && s.viewers[0] == Viewer(view, rows, 1, 1, false, kick, Asleep, Client(rows, 1, 1), false)
  }

  lemma TinyRows()
    ensures Snapshot(SameRow, TINY, View(0, 0)) == ["a"] && Snapshot(SameRow, TINY, View(0, 1)) == ["a"]
    ensures Snapshot(SameRow, TINY, View(1, 1)) == ["b"]
  {
    var live := Padded(SameRow, ["a"], 1, 1);
    assert live[0] == "a" && live == ["a"];
    assert (["b"] + live)[..1] == ["b"];
    var back := Padded(SameRow, ["b"], 1, 1);
    assert back[0] == "b" && back == ["b"];
  }

  lemma ScrolledThenTyped(s: State) returns (run: seq<Step>)
    requires Inv(SameRow, s) && Showing(s, ["a"], View(1, 1), true)
    ensures ValidRun(SameRow, s, run) && Stale(SameRow, Final(SameRow, s, run), 0)
  {
    TinyRows();
    var s1 := Next(SameRow, s, Wake(0));
    var s2 := Next(SameRow, s1, Drain(0));
    var s3 := Next(SameRow, s2, Snap(0));
    var s4 := Next(SameRow, s3, Send(0));
    var s5 := Next(SameRow, s4, Type(0));
    DiffThenPatch(s3.viewers[0].client, ["a"], ["b"], 1, false);
    assert s4.viewers[0].client == Client(["b"], 1, 1);
    assert s5.viewers[0].view == View(0, 1) && Stale(SameRow, s5, 0);
    run := Prepend(SameRow, s4, Type(0), []);
    run := Prepend(SameRow, s3, Send(0), run);
    run := Prepend(SameRow, s2, Snap(0), run);
    run := Prepend(SameRow, s1, Drain(0), run);
    run := Prepend(SameRow, s, Wake(0), run);
  }

  /** A viewer scrolls back one notch, gets its frame and types: at rest, its client still shows the line from
      the scrollback. */
  lemma StaleAfterTyping() returns (run: seq<Step>)
    ensures ValidRun(SameRow, Init(TINY), run) && Stale(SameRow, Final(SameRow, Init(TINY), run), 0)
  {
    TinyRows();
    var s0 := Init(TINY);
    var s1 := Next(SameRow, s0, Join(0));
    var s2 := Next(SameRow, s1, Snap(0));
    var s3 := Next(SameRow, s2, Send(0));
    var s4 := Next(SameRow, s3, Wheel(0, true));
    StepKeeps(SameRow, s0, Join(0));
    StepKeeps(SameRow, s1, Snap(0));
    StepKeeps(SameRow, s2, Send(0));
    StepKeeps(SameRow, s3, Wheel(0, true));
    DiffThenPatch(s2.viewers[0].client, [], ["a"], 1, true);
    assert Showing(s3, ["a"], View(0, 0), false);
    run := ScrolledThenTyped(s4);
    run := Prepend(SameRow, s3, Wheel(0, true), run);
    run := Prepend(SameRow, s2, Send(0), run);
    run := Prepend(SameRow, s1, Snap(0), run);
    run := Prepend(SameRow, s0, Join(0), run);
  }

  // ---- what writers do to viewers ----

  /** A resize asks every viewer for a full frame before it kicks; a kick fills every viewer's slot; and neither
      touches what a client shows. */
  lemma WritersReachAll(fit: Fit, s: State, id: nat)
    requires id in s.viewers
    ensures s.dueFull > 0 ==> var t := Next(fit, s, MarkFull);
      id in t.viewers && t.viewers[id] == s.viewers[id].(needFull := true) && t.dueKick == s.dueKick + 1
    ensures s.dueKick > 0 ==> var t := Next(fit, s, Kick);
      id in t.viewers && t.viewers[id] == s.viewers[id].(kick := true)
    ensures forall emu: Emu :: ValidEmu(emu) ==> Next(fit, s, Output(emu)).emu == emu
    ensures forall emu: Emu :: ValidEmu(emu) ==> Next(fit, s, Resize(emu)).emu == if s.exited then s.emu else emu
  {}
}
