/** One connected viewer as an object, and the row loops of the server. */
module ScreenViewer {
  import opened Screen
  import opened ScreenStream

  /** Cuts or fills up to h rows, then fits them one by one where they stand. */
  method PadRows(fit: Fit, raw: seq<string>, w: nat, h: nat) returns (rows: array<string>)
    ensures fresh(rows) && rows[..] == Padded(fit, raw, w, h)
  {
    var all := raw;
    while |all| < h
      invariant |raw| <= |all| && (|all| <= h || all == raw)
      invariant all == raw + seq(|all| - |raw|, _ => "")
    {
      all := all + [""];
    }
    all := all[..h];
    rows := new string[h](i requires 0 <= i < h => all[i]);
    for i := 0 to h
      invariant forall j :: 0 <= j < i ==> rows[j] == fit(all[j], w)
      invariant forall j :: i <= j < h ==> rows[j] == all[j]
    {
      rows[i] := fit(rows[i], w);
    }
  }

  method DiffRows(prev: seq<string>, cur: seq<string>, full: bool) returns (lines: seq<Line>)
    ensures lines == Diff(prev, cur, full)
  {
    lines := [];
    if full || |prev| != |cur| {
      for i := 0 to |cur|
        invariant |lines| == i && forall j :: 0 <= j < i ==> lines[j] == Line(j, cur[j])
      {
        lines := lines + [Line(i, cur[i])];
      }
      return;
    }
    for i := 0 to |cur|
      invariant lines + Changed(prev, cur, i) == Changed(prev, cur, 0)
    {
      if cur[i] != prev[i] {
        lines := lines + [Line(i, cur[i])];
      }
    }
  }

  /** The scrollback lines in view, at most h of them. */
  method LinesInView(back: seq<string>, scroll: nat, h: nat) returns (lines: seq<string>)
    requires scroll <= |back|
    ensures lines == back[|back| - scroll..][..Min(scroll, h)]
  {
    lines := [];
    var n := |back|;
    var i := n - scroll;
    while i < n && |lines| < h
      invariant n - scroll <= i <= n && |lines| == i - (n - scroll) <= h
      invariant lines == back[n - scroll..i]
    {
      lines := lines + [back[i]];
      i := i + 1;
    }
    assert back[n - scroll..][..i - (n - scroll)] == back[n - scroll..i];
  }

  class ViewerObject {
    var last: seq<string>
    var lastW: nat
    var lastH: nat
    var needFull: bool
    var kick: bool // the channel of capacity one
    var scroll: nat
    var lastSB: nat

    constructor ()
      ensures Matches(NEW_VIEWER)
    {
      last, lastW, lastH, needFull, kick, scroll, lastSB := [], 0, 0, false, false, 0, 0;
    }

    /** The fields are those of a viewer of the stream. */
    ghost predicate Matches(v: Viewer)
      reads this
    {
      && last == v.last && lastW == v.lastW && lastH == v.lastH
      && needFull == v.needFull && kick == v.kick && View(scroll, lastSB) == v.view
    }

    /** A kick that finds the slot taken is dropped. */
    method KickOnce()
      modifies this`kick
      ensures kick
    {
      if !kick {
        kick := true;
      }
    }

    method TurnWheel(e: Emu, up: bool, ghost v: Viewer)
      requires Matches(v)
      modifies this`kick, this`scroll, this`lastSB
      ensures Matches(Wheeled(e, v, up))
    {
      if e.mouse || e.alt {
        return;
      }
      scroll := if up then Min(scroll + WHEEL_STEP, |e.back|) else Max(scroll - WHEEL_STEP, 0);
      lastSB := |e.back|;
      KickOnce();
    }

    /** The screen as this viewer sees it, scrolled back or live. */
    method SnapshotFor(fit: Fit, e: Emu) returns (rows: seq<string>)
      modifies this`scroll, this`lastSB
      ensures rows == Snapshot(fit, e, View(old(scroll), old(lastSB)))
      ensures View(scroll, lastSB) == Followed(e, View(old(scroll), old(lastSB)))
    {
      var back: seq<string> := [];
      if scroll > 0 {
        if e.alt {
          scroll := 0;
        } else {
          var n := |e.back|;
          scroll := Min(scroll + Max(n - lastSB, 0), n);
          lastSB := n;
          back := LinesInView(e.back, scroll, e.h);
        }
      }
      var live := PadRows(fit, e.grid, e.w, e.h);
      rows := live[..];
      if scroll > 0 {
        var shifted := PadRows(fit, (back + rows)[..e.h], e.w, e.h);
        rows := shifted[..];
      }
    }

    /** Snapshot, decide whether the frame is a full one, diff, remember the rows. */
    method BuildFrame(fit: Fit, e: Emu, exited: bool, ghost v: Viewer) returns (f: Frame)
      requires Matches(v) && (v.phase.Drained? || v.phase.Starting?)
      requires v.phase.Starting? ==> needFull
      modifies this
      ensures f == FrameFor(Taken(fit, e, v)) && Matches(Sent(Taken(fit, e, v), exited))
      ensures f.w == e.w && f.h == e.h && (f.full <==> old(needFull) || old(lastW) != e.w || old(lastH) != e.h)
      ensures f.full ==> |f.lines| == |last| == e.h && forall i :: 0 <= i < e.h ==> f.lines[i] == Line(i, last[i])
    {
      var rows := SnapshotFor(fit, e);
      var full := needFull || lastW != e.w || lastH != e.h;
      needFull := false;
      var lines := DiffRows(last, rows, full);
      last, lastW, lastH := rows, e.w, e.h;
      f := Frame(e.w, e.h, full, lines);
    }
  }
}
