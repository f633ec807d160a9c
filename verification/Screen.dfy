/** The screen stream: writers change the emulator and then kick the viewers; a viewer's goroutine
    coalesces kicks, takes a snapshot and sends the rows that differ from its last frame; the client
    patches its rows.  The emulator itself is an abstract grid. */
module Screen {
  /** What the emulator shows: rendered rows, geometry, scrollback, and whether the child is on the
      alternate screen or tracks the mouse. */
  datatype Emu = Emu(grid: seq<string>, w: nat, h: nat, back: seq<string>, alt: bool, mouse: bool)

  predicate ValidEmu(e: Emu) {
    e.w > 0 && e.h > 0
  }

  /** Pads or cuts a row to a width and resets its style; how wide a row displays does not matter here. */
  type Fit = (string, nat) -> string

  function FitAll(fit: Fit, rows: seq<string>, w: nat): (r: seq<string>)
    ensures |r| == |rows| && forall i :: 0 <= i < |r| ==> r[i] == fit(rows[i], w)
  {
    seq(|rows|, i requires 0 <= i < |rows| => fit(rows[i], w))
  }

  /** Exactly h rows, each fitted to width w. */
  function Padded(fit: Fit, raw: seq<string>, w: nat, h: nat): (r: seq<string>)
    ensures |r| == h
  {
    FitAll(fit, if |raw| < h then raw + seq(h - |raw|, _ => "") else raw[..h], w)
  }

  function Min(a: int, b: int): int { if a < b then a else b }
  function Max(a: int, b: int): int { if a > b then a else b }

  /** A viewer's place in the scrollback. */
  datatype View = View(scroll: nat, lastSB: nat)

  /** What a snapshot does to it: scrolled back, the view stays on the same lines while output arrives. */
  function Followed(e: Emu, v: View): View {
    if v.scroll == 0 then v
    else if e.alt then v.(scroll := 0)
    else View(Min(v.scroll + Max(|e.back| - v.lastSB, 0), |e.back|), |e.back|)
  }

  /** The rows shown for a view that has already followed. */
  function Shown(fit: Fit, e: Emu, scroll: nat): (rows: seq<string>)
    requires scroll > 0 ==> scroll <= |e.back|
    ensures |rows| == e.h
  {
    var live := Padded(fit, e.grid, e.w, e.h);
    if scroll == 0 then live
    else
      var back := e.back[|e.back| - scroll..][..Min(scroll, e.h)];
      Padded(fit, (back + live)[..e.h], e.w, e.h)
  }

  function Snapshot(fit: Fit, e: Emu, v: View): (rows: seq<string>)
    ensures |rows| == e.h
  {
    Shown(fit, e, Followed(e, v).scroll)
  }

  /** A second snapshot of the same screen shows the same. */
  lemma SnapshotTwice(fit: Fit, e: Emu, v: View)
    ensures Followed(e, Followed(e, v)) == Followed(e, v)
    ensures Snapshot(fit, e, Followed(e, v)) == Snapshot(fit, e, v)
  {}

  // ---- what a snapshot shows ----

  /** Row i of a list of rows, or an empty one past its end. */
  function RowOr(rows: seq<string>, i: nat): string {
    if i < |rows| then rows[i] else ""
  }

  lemma PaddedRow(fit: Fit, rows: seq<string>, w: nat, h: nat, i: nat)
    requires i < h
    ensures Padded(fit, rows, w, h)[i] == fit(RowOr(rows, i), w)
  {}

  /** The scrollback lines in view, then the live rows from the top, as far as there is room. */
  lemma ScrolledRow(back: seq<string>, live: seq<string>, scroll: nat, h: nat, i: nat)
    requires scroll <= |back| && |live| == h && i < h
    ensures var rows := (back[|back| - scroll..][..Min(scroll, h)] + live)[..h];
      |rows| == h && rows[i] == if i < scroll then back[|back| - scroll + i] else live[i - scroll]
  {}

  lemma LiveRow(fit: Fit, e: Emu, i: nat)
    requires i < e.h
    ensures Shown(fit, e, 0)[i] == fit(RowOr(e.grid, i), e.w)
  {
    PaddedRow(fit, e.grid, e.w, e.h, i);
  }

  /** The rows put together for a view scrolled back, before they are fitted. */
  function Together(fit: Fit, e: Emu, scroll: nat): seq<string>
    requires 0 < scroll <= |e.back|
  {
    (e.back[|e.back| - scroll..][..Min(scroll, e.h)] + Padded(fit, e.grid, e.w, e.h))[..e.h]
  }

  lemma TogetherRow(fit: Fit, e: Emu, scroll: nat, i: nat)
    requires 0 < scroll <= |e.back| && i < e.h
    ensures |Together(fit, e, scroll)| == e.h && Together(fit, e, scroll)[i] ==
      if i < scroll then e.back[|e.back| - scroll + i] else fit(RowOr(e.grid, i - scroll), e.w)
  {
    ScrolledRow(e.back, Padded(fit, e.grid, e.w, e.h), scroll, e.h, i);
    if i >= scroll { PaddedRow(fit, e.grid, e.w, e.h, i - scroll); }
  }

  lemma BackRow(fit: Fit, e: Emu, scroll: nat, i: nat)
    requires 0 < scroll <= |e.back| && i < e.h
    ensures i < |Together(fit, e, scroll)| && Shown(fit, e, scroll)[i] == fit(Together(fit, e, scroll)[i], e.w)
  {
    TogetherRow(fit, e, scroll, i);
    PaddedRow(fit, Together(fit, e, scroll), e.w, e.h, i);
  }

  /** A live view shows the grid row by row; a view scrolled back by n shows the last n lines of the scrollback, oldest
      first, and then the grid from its top, as far as there is room. */
  lemma ShownRow(fit: Fit, e: Emu, scroll: nat, i: nat)
    requires scroll <= |e.back| && i < e.h
    ensures Shown(fit, e, scroll)[i] ==
      if scroll == 0 then fit(RowOr(e.grid, i), e.w)
      else if i < scroll then fit(e.back[|e.back| - scroll + i], e.w)
      else fit(fit(RowOr(e.grid, i - scroll), e.w), e.w)
  {
    if scroll == 0 {
      LiveRow(fit, e, i);
    } else {
      TogetherRow(fit, e, scroll, i);
      BackRow(fit, e, scroll, i);
    }
  }

  /** Output that arrives while a view is scrolled back leaves what it shows of the scrollback where it is. */
  lemma ViewStays(fit: Fit, e: Emu, e': Emu, u: View, v: View, more: seq<string>, i: nat)
    requires v == Followed(e, u) && v.scroll > 0 && !e.alt && !e'.alt
    requires e'.back == e.back + more && e'.w == e.w && e'.h == e.h && i < Min(v.scroll, e.h)
    ensures Followed(e', v) == View(v.scroll + |more|, |e'.back|)
    ensures Snapshot(fit, e', v)[i] == Snapshot(fit, e, v)[i]
  {
    FollowedOn(e, e', u, v, more);
    BackLine(fit, e, v, v.scroll, i);
    BackLine(fit, e', v, v.scroll + |more|, i);
    SameLine(e.back, more, v.scroll, i);
  }

  /** A scrollback line in view. */
  lemma BackLine(fit: Fit, e: Emu, v: View, scroll: nat, i: nat)
    requires Followed(e, v).scroll == scroll <= |e.back| && i < scroll && i < e.h
    ensures Snapshot(fit, e, v)[i] == fit(e.back[|e.back| - scroll + i], e.w)
  {
    ShownRow(fit, e, scroll, i);
  }

  lemma FollowedOn(e: Emu, e': Emu, u: View, v: View, more: seq<string>)
    requires v == Followed(e, u) && v.scroll > 0 && !e.alt && !e'.alt && e'.back == e.back + more
    ensures Followed(e', v) == View(v.scroll + |more|, |e'.back|) && Followed(e, v) == v && v.scroll <= |e.back|
  {}

  lemma SameLine(back: seq<string>, more: seq<string>, scroll: nat, i: nat)
    requires i < scroll <= |back|
    ensures (back + more)[|back + more| - (scroll + |more|) + i] == back[|back| - scroll + i]
  {}

  /** The alternate screen has no scrollback, a shrunken one no more than its lines; and a live view stays live. */
  lemma ViewWithin(e: Emu, v: View)
    ensures e.alt || v.scroll == 0 ==> Followed(e, v).scroll == 0
    ensures v.scroll > 0 ==> Followed(e, v).scroll <= |e.back|
    ensures v.scroll > 0 && !e.alt && |e.back| <= v.lastSB && v.scroll <= |e.back| ==> Followed(e, v).scroll == v.scroll
  {}

  // ---- frames ----

  datatype Line = Line(y: nat, s: string)
  datatype Frame = Frame(w: nat, h: nat, full: bool, lines: seq<Line>)

  /** The rows of cur that differ from prev, or all of them. */
  function Diff(prev: seq<string>, cur: seq<string>, full: bool): seq<Line> {
    if full || |prev| != |cur| then seq(|cur|, i requires 0 <= i < |cur| => Line(i, cur[i]))
    else Changed(prev, cur, 0)
  }

  function Changed(prev: seq<string>, cur: seq<string>, i: nat): seq<Line>
    requires |prev| == |cur| && i <= |cur|
    decreases |cur| - i
  {
    if i == |cur| then []
    else (if cur[i] != prev[i] then [Line(i, cur[i])] else []) + Changed(prev, cur, i + 1)
  }

  /** A frame that is not a full one carries exactly the rows that differ, each as it is now. */
  lemma {:induction false} ChangedAreTheDifferent(prev: seq<string>, cur: seq<string>, i: nat, l: Line)
    requires |prev| == |cur| && i <= |cur|
    ensures l in Changed(prev, cur, i) <==> i <= l.y < |cur| && l.s == cur[l.y] != prev[l.y]
    decreases |cur| - i
  {
    if i < |cur| {
      ChangedAreTheDifferent(prev, cur, i + 1, l);
      FirstOrRest(prev, cur, i, l);
    }
  }

  lemma FirstOrRest(prev: seq<string>, cur: seq<string>, i: nat, l: Line)
    requires |prev| == |cur| && i < |cur|
    ensures l in Changed(prev, cur, i) <==> (cur[i] != prev[i] && l == Line(i, cur[i])) || l in Changed(prev, cur, i + 1)
  {}

  /** From top to bottom. */
  lemma {:induction false} ChangedFallInOrder(prev: seq<string>, cur: seq<string>, i: nat)
    requires |prev| == |cur| && i <= |cur|
    ensures forall a :: 0 <= a < |Changed(prev, cur, i)| ==> Changed(prev, cur, i)[a].y >= i
    ensures forall a, b :: 0 <= a < b < |Changed(prev, cur, i)| ==> Changed(prev, cur, i)[a].y < Changed(prev, cur, i)[b].y
    decreases |cur| - i
  {
    if i < |cur| {
      ChangedFallInOrder(prev, cur, i + 1);
    }
  }

  /** The client's screen. */
  datatype Client = Client(rows: seq<string>, w: nat, h: nat)

  function Blank(w: nat): string {
    seq(w, _ => ' ')
  }

  function Patched(rows: seq<string>, lines: seq<Line>): (r: seq<string>)
    ensures |r| == |rows|
    decreases lines
  {
    if lines == [] then rows
    else
      var l := lines[0];
      Patched(if l.y < |rows| then rows[l.y := l.s] else rows, lines[1..])
  }

  function Received(c: Client, f: Frame): Client {
    if f.w == 0 || f.h == 0 then c
    else if f.full || f.w != c.w || f.h != c.h || |c.rows| != f.h then
      Client(Patched(seq(f.h, _ => Blank(f.w)), f.lines), f.w, f.h)
    else c.(rows := Patched(c.rows, f.lines))
  }

  lemma {:induction false} PatchedConcat(rows: seq<string>, a: seq<Line>, b: seq<Line>)
    ensures Patched(rows, a + b) == Patched(Patched(rows, a), b)
    decreases a
  {
    if a == [] {
      assert a + b == b;
    } else {
      var rows' := if a[0].y < |rows| then rows[a[0].y := a[0].s] else rows;
      PatchedConcat(rows', a[1..], b);
      assert (a + b)[0] == a[0] && (a + b)[1..] == a[1..] + b;
    }
  }

  lemma {:induction false} PatchingAllRows(rows: seq<string>, cur: seq<string>, n: nat)
    requires |rows| == |cur| && n <= |cur|
    ensures Patched(rows, Diff([], cur, true)[..n]) == cur[..n] + rows[n..]
  {
    var lines := Diff([], cur, true);
    if n == 0 {
    } else {
      PatchingAllRows(rows, cur, n - 1);
      assert lines[..n] == lines[..n - 1] + [lines[n - 1]];
      PatchedConcat(rows, lines[..n - 1], [lines[n - 1]]);
      assert [lines[n - 1]][1..] == [];
    }
  }

  lemma {:induction false} PatchingChangedRows(prev: seq<string>, cur: seq<string>, i: nat)
    requires |prev| == |cur| && i <= |cur|
    ensures Patched(cur[..i] + prev[i..], Changed(prev, cur, i)) == cur
    decreases |cur| - i
  {
    var rows := cur[..i] + prev[i..];
    if i < |cur| {
      PatchingChangedRows(prev, cur, i + 1);
      var rest := Changed(prev, cur, i + 1);
      if cur[i] != prev[i] {
        assert rows[i := cur[i]] == cur[..i + 1] + prev[i + 1..];
        assert ([Line(i, cur[i])] + rest)[1..] == rest;
      } else {
        assert [] + rest == rest;
        assert rows == cur[..i + 1] + prev[i + 1..];
      }
    }
  }

  /** Diff and patch are inverse: a client showing the rows of the last frame shows exactly the new rows
      after the next one, full or not, resized or not. */
  lemma DiffThenPatch(c: Client, prev: seq<string>, cur: seq<string>, w: nat, full: bool)
    requires w > 0 && |cur| > 0
    requires full || w != c.w || (c.rows == prev && c.h == |prev|)
    ensures Received(c, Frame(w, |cur|, full || w != c.w || |cur| != c.h,
                              Diff(prev, cur, full || w != c.w || |cur| != c.h))) == Client(cur, w, |cur|)
  {
    var f := full || w != c.w || |cur| != c.h;
    if f {
      var blank := seq(|cur|, _ => Blank(w));
      PatchingAllRows(blank, cur, |cur|);
      var lines := Diff(prev, cur, true);
      assert lines == Diff([], cur, true) == lines[..|cur|];
    } else {
      PatchingChangedRows(prev, cur, 0);
      assert cur[..0] + prev[0..] == prev;
    }
  }
}
