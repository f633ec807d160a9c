/** Reading a transcript backwards, in windows that grow from the end of the file. */
module TailScan {
  import opened Options

  /** What one line says: its timestamp, if it has one, and whether it is a typed prompt; and its entrypoint. */
  datatype Times = Times(ts: Option<int>, prompt: bool)
  type LineTimes = string -> Times
  type EntrypointOf = string -> string

  datatype Tail = Tail(lastEntry: Option<int>, lastPrompt: Option<int>, entrypoint: string)

  const NOTHING := Tail(None, None, "")
  const FIRST_WINDOW := 0x1_0000
  const LAST_WINDOW := 0x100_0000

  // ---- lines ----

  /** The pieces between newlines; there is always at least one. */
  function Split(s: string): (r: seq<string>)
    ensures |r| > 0
  {
    if s == "" then [""]
    else
      var rest := Split(s[1..]);
      if s[0] == '\n' then [""] + rest else [[s[0]] + rest[0]] + rest[1..]
  }

  ghost predicate Suffix(a: seq<string>, b: seq<string>) {
    |a| <= |b| && b[|b| - |a|..] == a
  }

  lemma SuffixTransitive(a: seq<string>, b: seq<string>, c: seq<string>)
    requires Suffix(a, b) && Suffix(b, c)
    ensures Suffix(a, c)
  {}

  /** Reading from earlier on keeps all pieces but the first. */
  lemma {:induction false} SplitSuffix(a: string, b: string)
    ensures Suffix(Split(b)[1..], Split(a + b)[1..])
    decreases a
  {
    if a == "" {
      assert a + b == b;
    } else {
      assert (a + b)[0] == a[0] && (a + b)[1..] == a[1..] + b;
      var rest := Split(a[1..] + b);
      SplitSuffix(a[1..], b);
      assert Suffix(rest[1..], Split(a + b)[1..]);
      SuffixTransitive(Split(b)[1..], rest[1..], Split(a + b)[1..]);
    }
  }

  /** The lines from an offset on that are whole for sure: a cut first piece is left out. */
  function LinesFrom(s: string, off: nat): seq<string>
    requires off <= |s|
  {
    if off == 0 then Split(s) else Split(s[off..])[1..]
  }

  lemma EarlierOffsetMoreLines(s: string, off: nat, before: nat)
    requires before <= off <= |s|
    ensures Suffix(LinesFrom(s, off), LinesFrom(s, before))
  {
    if before < off {
      SplitSuffix(s[before..off], s[off..]);
      assert s[before..off] + s[off..] == s[before..];
      assert s[0..] == s;
      if before == 0 {
        SuffixTransitive(LinesFrom(s, off), Split(s)[1..], Split(s));
      }
    }
  }

  /** The lines a scan from that offset has not seen. */
  function Older(s: string, off: nat): (older: seq<string>)
    requires off <= |s|
    ensures older + LinesFrom(s, off) == Split(s)
  {
    EarlierOffsetMoreLines(s, off, 0);
    Split(s)[..|Split(s)| - |LinesFrom(s, off)|]
  }

  // ---- the backward pass ----

  /** Looking at one line, given what the lines after it gave. */
  function Look(times: LineTimes, ep: EntrypointOf, acc: Tail, line: string): Tail {
    var acc1 := if acc.entrypoint == "" then acc.(entrypoint := ep(line)) else acc;
    var t := times(line);
    if t.ts.None? then acc1
    else
      acc1.(lastEntry := if acc1.lastEntry.None? then t.ts else acc1.lastEntry,
            lastPrompt := if t.prompt then t.ts else acc1.lastPrompt)
  }

  /** The pass over lines from the last one back, until a prompt is found. */
  function Back(times: LineTimes, ep: EntrypointOf, acc: Tail, lines: seq<string>): Tail
    decreases lines
  {
    if lines == [] || acc.lastPrompt.Some? then acc
    else Back(times, ep, Look(times, ep, acc, lines[|lines| - 1]), lines[..|lines| - 1])
  }

  lemma {:induction false} BackConcat(times: LineTimes, ep: EntrypointOf, acc: Tail, a: seq<string>, b: seq<string>)
    ensures Back(times, ep, acc, a + b) == Back(times, ep, Back(times, ep, acc, b), a)
    decreases b
  {
    if b == [] {
      assert a + b == a;
    } else if acc.lastPrompt.None? {
      assert (a + b)[|a + b| - 1] == b[|b| - 1] && (a + b)[..|a + b| - 1] == a + b[..|b| - 1];
      BackConcat(times, ep, Look(times, ep, acc, b[|b| - 1]), a, b[..|b| - 1]);
    }
  }

  // ---- what the pass finds ----

  predicate IsPrompt(times: LineTimes, line: string) {
    times(line).ts.Some? && times(line).prompt
  }

  /** Line `from` is the last prompt, or there is none and it is the first line. */
  ghost predicate EndsAt(times: LineTimes, lines: seq<string>, from: nat) {
    && (forall i :: from < i < |lines| ==> !IsPrompt(times, lines[i]))
    && (if from < |lines| then from == 0 || IsPrompt(times, lines[from]) else lines == [] && from == 0)
  }

  /** The last of the lines from there on that has a timestamp. */
  ghost predicate LastTimed(times: LineTimes, lines: seq<string>, from: nat, e: nat) {
    from <= e < |lines| && times(lines[e]).ts.Some? && forall i :: e < i < |lines| ==> times(lines[i]).ts.None?
  }

  ghost predicate LastNamed(ep: EntrypointOf, lines: seq<string>, from: nat, e: nat) {
    from <= e < |lines| && ep(lines[e]) != "" && forall i :: e < i < |lines| ==> ep(lines[i]) == ""
  }

  ghost predicate FoundEntry(times: LineTimes, acc: Tail, lines: seq<string>, from: nat, r: Tail) {
    if acc.lastEntry.Some? then r.lastEntry == acc.lastEntry
    else
      && (forall e: nat :: LastTimed(times, lines, from, e) ==> r.lastEntry == times(lines[e]).ts)
      && (r.lastEntry.Some? ==> exists e: nat :: LastTimed(times, lines, from, e))
  }

  ghost predicate FoundName(ep: EntrypointOf, acc: Tail, lines: seq<string>, from: nat, r: Tail) {
    if acc.entrypoint != "" then r.entrypoint == acc.entrypoint
    else
      && (forall e: nat :: LastNamed(ep, lines, from, e) ==> r.entrypoint == ep(lines[e]))
      && (r.entrypoint != "" ==> exists e: nat :: LastNamed(ep, lines, from, e))
  }

  lemma FoundEntryStep(times: LineTimes, ep: EntrypointOf, acc: Tail, lines: seq<string>, from: nat, r: Tail)
    requires lines != [] && from <= |lines| - 1
    requires FoundEntry(times, Look(times, ep, acc, lines[|lines| - 1]), lines[..|lines| - 1], from, r)
    ensures FoundEntry(times, acc, lines, from, r)
  {
    var n := |lines| - 1;
    if acc.lastEntry.None? {
      if times(lines[n]).ts.Some? {
        assert LastTimed(times, lines, from, n);
      } else {
        assert forall e: nat :: LastTimed(times, lines, from, e) <==> LastTimed(times, lines[..n], from, e);
      }
    }
  }

  lemma FoundNameStep(times: LineTimes, ep: EntrypointOf, acc: Tail, lines: seq<string>, from: nat, r: Tail)
    requires lines != [] && from <= |lines| - 1
    requires FoundName(ep, Look(times, ep, acc, lines[|lines| - 1]), lines[..|lines| - 1], from, r)
    ensures FoundName(ep, acc, lines, from, r)
  {
    var n := |lines| - 1;
    if acc.entrypoint == "" {
      if ep(lines[n]) != "" {
        assert LastNamed(ep, lines, from, n);
      } else {
        assert forall e: nat :: LastNamed(ep, lines, from, e) <==> LastNamed(ep, lines[..n], from, e);
      }
    }
  }

  /** The pass returns the time of the last prompt, if there is one; the time of the last line that has any; and
      the last entrypoint named from that prompt on. */
  lemma {:induction false} BackFinds(times: LineTimes, ep: EntrypointOf, acc: Tail, lines: seq<string>, from: nat)
    requires acc.lastPrompt.None? && EndsAt(times, lines, from)
    ensures var r := Back(times, ep, acc, lines);
      && r.lastPrompt == (if from < |lines| && IsPrompt(times, lines[from]) then times(lines[from]).ts else None)
      && FoundEntry(times, acc, lines, from, r) && FoundName(ep, acc, lines, from, r)
    decreases lines
  {
    if lines != [] {
      var n := |lines| - 1;
      var acc1, r := Look(times, ep, acc, lines[n]), Back(times, ep, acc, lines);
      if !IsPrompt(times, lines[n]) && n > 0 {
        BackFinds(times, ep, acc1, lines[..n], from);
      } else {
        assert n == 0 ==> lines[..n] == [];
        assert r == Back(times, ep, acc1, lines[..n]) == acc1;
      }
      FoundEntryStep(times, ep, acc, lines, from, r);
      FoundNameStep(times, ep, acc, lines, from, r);
    }
  }

  /** What the pass has found it keeps. */
  ghost predicate Grown(a: Tail, b: Tail) {
    && (a.lastEntry.Some? ==> b.lastEntry == a.lastEntry)
    && (a.lastPrompt.Some? ==> b.lastPrompt == a.lastPrompt)
    && (a.entrypoint != "" ==> b.entrypoint == a.entrypoint)
  }

  /** A pass that found no prompt has seen every line, and looking at any of them again changes nothing. */
  lemma {:induction false} NothingLeftToSee(times: LineTimes, ep: EntrypointOf, acc: Tail, lines: seq<string>)
    requires Back(times, ep, acc, lines).lastPrompt.None?
    ensures Grown(acc, Back(times, ep, acc, lines))
    ensures forall l :: l in lines ==> Look(times, ep, Back(times, ep, acc, lines), l) == Back(times, ep, acc, lines)
    decreases lines
  {
    if lines != [] {
      var last, rest := lines[|lines| - 1], lines[..|lines| - 1];
      NothingLeftToSee(times, ep, Look(times, ep, acc, last), rest);
      assert lines == rest + [last];
    }
  }

  /** An unfinished pass stays as it is exactly when none of the further lines has anything for it. */
  lemma {:induction false} UnchangedIff(times: LineTimes, ep: EntrypointOf, acc: Tail, lines: seq<string>)
    requires acc.lastPrompt.None?
    ensures Back(times, ep, acc, lines) == acc <==> forall l :: l in lines ==> Look(times, ep, acc, l) == acc
    decreases lines
  {
    if lines != [] {
      var last, rest := lines[|lines| - 1], lines[..|lines| - 1];
      assert lines == rest + [last];
      if Look(times, ep, acc, last) == acc {
        UnchangedIff(times, ep, acc, rest);
      } else if Back(times, ep, acc, lines) == acc {
        NothingLeftToSee(times, ep, acc, lines);
      }
    }
  }

  /** Starting over on more lines, with what the fewer lines gave, is one pass over all of them. */
  lemma Rescan(times: LineTimes, ep: EntrypointOf, fewer: seq<string>, more: seq<string>)
    requires Suffix(fewer, more) && Back(times, ep, NOTHING, fewer).lastPrompt.None?
    ensures Back(times, ep, Back(times, ep, NOTHING, fewer), more) == Back(times, ep, NOTHING, more)
  {
    var acc := Back(times, ep, NOTHING, fewer);
    var older := more[..|more| - |fewer|];
    assert older + fewer == more;
    BackConcat(times, ep, NOTHING, older, fewer);
    BackConcat(times, ep, acc, older, fewer);
    NothingLeftToSee(times, ep, NOTHING, fewer);
    UnchangedIff(times, ep, acc, fewer);
  }

  /** Once a prompt is found, older lines do not matter. */
  lemma FoundIsFound(times: LineTimes, ep: EntrypointOf, fewer: seq<string>, more: seq<string>)
    requires Suffix(fewer, more) && Back(times, ep, NOTHING, fewer).lastPrompt.Some?
    ensures Back(times, ep, NOTHING, more) == Back(times, ep, NOTHING, fewer)
  {
    var older := more[..|more| - |fewer|];
    assert older + fewer == more;
    BackConcat(times, ep, NOTHING, older, fewer);
  }

  /** The result of the scan, and where its last window began. */
  ghost predicate ScanOk(times: LineTimes, ep: EntrypointOf, s: string, r: Tail, off: nat) {
    off <= |s| && r == Back(times, ep, NOTHING, LinesFrom(s, off))
  }

  /** The scan that stopped at `off` gives what one pass over the whole file gives exactly when it found a
      prompt, reached the start, or no older line has a prompt, a first timestamp or a first entrypoint. */
  lemma ScanIsWholePassIff(times: LineTimes, ep: EntrypointOf, s: string, r: Tail, off: nat)
    requires ScanOk(times, ep, s, r, off)
    ensures r == Back(times, ep, NOTHING, Split(s)) <==>
      r.lastPrompt.Some? || off == 0 || forall l :: l in Older(s, off) ==> Look(times, ep, r, l) == r
  {
    var older := Older(s, off);
    BackConcat(times, ep, NOTHING, older, LinesFrom(s, off));
    if r.lastPrompt.None? {
      UnchangedIff(times, ep, r, older);
    }
  }

  /** scanTail: each window four times the last, its lines looked at from the end, until a prompt is found,
      the window reaches the start of the file, or it is 16 MiB. */
  method ScanTail(times: LineTimes, ep: EntrypointOf, s: string) returns (r: Tail, ghost off: nat)
    ensures ScanOk(times, ep, s, r, off)
    ensures r.lastPrompt.Some? || off == 0 || off == |s| - 16 * 1024 * 1024
    ensures off == 0 || off == |s| - 64 * 1024 || off == |s| - 256 * 1024 || off == |s| - 1024 * 1024
      || off == |s| - 4 * 1024 * 1024 || off == |s| - 16 * 1024 * 1024
    ensures |s| <= 16 * 1024 * 1024 ==> r == Back(times, ep, NOTHING, Split(s))
  {
    r, off := NOTHING, |s|;
    var win := FIRST_WINDOW;
    ghost var fewer: seq<string> := [];
    while true
      invariant IsWindow(win)
      invariant r == Back(times, ep, NOTHING, fewer) && r.lastPrompt.None?
      invariant off <= |s| && |s| - off < win && (fewer == [] || fewer == LinesFrom(s, off))
      decreases LAST_WINDOW - win
    {
      var o := if |s| < win then 0 else |s| - win;
      var lines := ReadWindow(s, o);
      if fewer == [] {
        assert lines[|lines|..] == [];
      } else {
        EarlierOffsetMoreLines(s, off, o);
      }
      Rescan(times, ep, fewer, lines);
      off := o;
      r := LookBack(times, ep, r, lines);
      if r.lastPrompt.Some? || o == 0 || win >= LAST_WINDOW {
        ScanIsWholePassIff(times, ep, s, r, off);
        return;
      }
      fewer := lines;
      win := win * 4;
    }
  }

  /** The sizes a window can have. */
  predicate IsWindow(win: nat) {
    win == 0x1_0000 || win == 0x4_0000 || win == 0x10_0000 || win == 0x40_0000 || win == 0x100_0000
  }

  method ReadWindow(s: string, off: nat) returns (lines: seq<string>)
    requires off <= |s|
    ensures lines == LinesFrom(s, off)
  {
    lines := Split(s[off..]);
    if off > 0 {
      lines := lines[1..]; // the first piece is likely cut
    } else {
      assert s[0..] == s;
    }
  }

  /** The inner loop over one window's lines. */
  method LookBack(times: LineTimes, ep: EntrypointOf, acc: Tail, lines: seq<string>) returns (r: Tail)
    ensures r == Back(times, ep, acc, lines)
  {
    r := acc;
    var i := |lines|;
    assert lines[..i] == lines;
    while i > 0 && r.lastPrompt.None?
      invariant 0 <= i <= |lines|
      invariant Back(times, ep, r, lines[..i]) == Back(times, ep, acc, lines)
    {
      i := i - 1;
      assert lines[..i + 1][..i] == lines[..i];
      if r.entrypoint == "" {
        r := r.(entrypoint := ep(lines[i]));
      }
      var t := times(lines[i]);
      if t.ts.Some? {
        if r.lastEntry.None? {
          r := r.(lastEntry := t.ts);
        }
        if t.prompt {
          r := r.(lastPrompt := t.ts);
        }
      }
    }
  }

  function Joined(lines: seq<string>): string
    requires lines != []
  {
    if |lines| == 1 then lines[0] else lines[0] + "\n" + Joined(lines[1..])
  }

  /** The pieces have no newline in them, and put together with newlines they are the text. */
  lemma {:induction false} SplitJoins(s: string)
    ensures Joined(Split(s)) == s && forall l <- Split(s) :: '\n' !in l
    decreases s
  {
    if s != "" {
      SplitJoins(s[1..]);
      var rest := Split(s[1..]);
      if s[0] == '\n' {
        assert Split(s)[1..] == rest;
        assert Joined(Split(s)) == "" + "\n" + s[1..] == s;
      } else {
        assert Split(s)[1..] == rest[1..];
        assert Joined(Split(s)) == [s[0]] + Joined(rest) == s;
      }
    }
  }
}
