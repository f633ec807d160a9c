/** The byte filter in front of the emulator: inside control strings (section 5.6 of ECMA-48) bytes
    from 0x80 on are dropped, so that a parser which takes 0x9C for the end of a string stays in step. */
module StrFilter {
  type Byte = bv8

  datatype Mode = Ground | Esc | Str | StrEsc

  const ESC: Byte := 0x1b
  const BEL: Byte := 0x07
  const CAN: Byte := 0x18
  const SUB: Byte := 0x1a
  const ST: Byte := 0x9c
  const BACKSLASH: Byte := 0x5c

  /** The mode after ESC followed by b: ] P _ ^ X open a string. */
  function EscNext(b: Byte): Mode {
    if b == 0x5d || b == 0x50 || b == 0x5f || b == 0x5e || b == 0x58 then Str
    else if b == ESC then Esc
    else Ground
  }

  function ModeAfter(m: Mode, b: Byte): Mode {
    match m
    case Ground => if b == ESC then Esc else Ground
    case Esc => EscNext(b)
    case Str => if b == ESC then StrEsc else if b == BEL || b == CAN || b == SUB then Ground else Str
    case StrEsc => if b == BACKSLASH then Ground else EscNext(b)
  }

  predicate Dropped(m: Mode, b: Byte) {
    m.Str? && b >= 0x80
  }

  function FinalMode(m: Mode, p: seq<Byte>): Mode
    decreases p
  {
    if p == [] then m else FinalMode(ModeAfter(m, p[0]), p[1..])
  }

  function Filtered(m: Mode, p: seq<Byte>): seq<Byte>
    decreases p
  {
    if p == [] then []
    else (if Dropped(m, p[0]) then [] else [p[0]]) + Filtered(ModeAfter(m, p[0]), p[1..])
  }

  /** The mode each byte of p is read in. */
  function ModeAt(m: Mode, p: seq<Byte>, i: nat): Mode
    requires i <= |p|
  {
    FinalMode(m, p[..i])
  }

  // ---- chunks ----

  lemma {:induction false} Split(m: Mode, p: seq<Byte>, q: seq<Byte>)
    ensures Filtered(m, p + q) == Filtered(m, p) + Filtered(FinalMode(m, p), q)
    ensures FinalMode(m, p + q) == FinalMode(FinalMode(m, p), q)
    decreases p
  {
    if p == [] {
      assert p + q == q;
    } else {
      assert (p + q)[0] == p[0] && (p + q)[1..] == p[1..] + q;
      Split(ModeAfter(m, p[0]), p[1..], q);
    }
  }

  function Joined(chunks: seq<seq<Byte>>): seq<Byte> {
    if chunks == [] then [] else chunks[0] + Joined(chunks[1..])
  }

  /** What the emulator gets from one write after another. */
  function FilteredChunks(m: Mode, chunks: seq<seq<Byte>>): seq<Byte>
    decreases chunks
  {
    if chunks == [] then [] else Filtered(m, chunks[0]) + FilteredChunks(FinalMode(m, chunks[0]), chunks[1..])
  }

  /** However the child's output is cut into reads, the emulator gets the same bytes. */
  lemma {:induction false} ChunksDoNotMatter(m: Mode, chunks: seq<seq<Byte>>)
    ensures FilteredChunks(m, chunks) == Filtered(m, Joined(chunks))
    decreases chunks
  {
    if chunks == [] {
    } else {
      ChunksDoNotMatter(FinalMode(m, chunks[0]), chunks[1..]);
      Split(m, chunks[0], Joined(chunks[1..]));
    }
  }

  // ---- what is dropped ----

  lemma DroppingKeepsMode(m: Mode, b: Byte)
    ensures Dropped(m, b) ==> ModeAfter(m, b) == m
  {}

  /** The filter reads its own output as it read the input, and drops nothing more from it. */
  lemma {:induction false} Idempotent(m: Mode, p: seq<Byte>)
    ensures FinalMode(m, Filtered(m, p)) == FinalMode(m, p)
    ensures Filtered(m, Filtered(m, p)) == Filtered(m, p)
    decreases p
  {
    if p == [] {
    } else {
      var rest := Filtered(ModeAfter(m, p[0]), p[1..]);
      Idempotent(ModeAfter(m, p[0]), p[1..]);
      DroppingKeepsMode(m, p[0]);
      if Dropped(m, p[0]) {
        assert [] + rest == rest;
      } else {
        assert ([p[0]] + rest)[1..] == rest;
      }
    }
  }

  /** The positions kept, in order. */
  function KeptAt(m: Mode, p: seq<Byte>): (ks: seq<nat>)
    ensures forall j :: 0 <= j < |ks| ==> ks[j] < |p|
  {
    if p == [] then []
    else
      var q := p[..|p| - 1];
      KeptAt(m, q) + (if Dropped(FinalMode(m, q), p[|p| - 1]) then [] else [|p| - 1])
  }

  predicate Kept(m: Mode, p: seq<Byte>, i: nat)
    requires i < |p|
  {
    !(ModeAt(m, p, i) == Str && p[i] >= 0x80)
  }

  lemma {:induction false} KeptAtAreTheKept(m: Mode, p: seq<Byte>)
    ensures forall j, k :: 0 <= j < k < |KeptAt(m, p)| ==> KeptAt(m, p)[j] < KeptAt(m, p)[k]
    ensures forall i: nat :: i < |p| ==> (i in KeptAt(m, p) <==> Kept(m, p, i))
    decreases p
  {
    if p == [] {
    } else {
      var n := |p| - 1;
      KeptAtAreTheKept(m, p[..n]);
      forall i: nat | i < n ensures Kept(m, p, i) <==> Kept(m, p[..n], i) {
        assert p[..n][..i] == p[..i];
      }
    }
  }

  /** The output is the input at the kept positions, in order, and a byte is kept unless it is a non-ASCII
      byte inside a string: everything outside control strings passes untouched. */
  lemma {:induction false} OnlyStringBytesDropped(m: Mode, p: seq<Byte>)
    ensures |Filtered(m, p)| == |KeptAt(m, p)|
    ensures forall j :: 0 <= j < |KeptAt(m, p)| ==> Filtered(m, p)[j] == p[KeptAt(m, p)[j]]
    ensures forall j, k :: 0 <= j < k < |KeptAt(m, p)| ==> KeptAt(m, p)[j] < KeptAt(m, p)[k]
    ensures forall i: nat :: i < |p| ==> (i in KeptAt(m, p) <==> Kept(m, p, i))
    decreases p
  {
    KeptAtAreTheKept(m, p);
    if p == [] {
    } else {
      var n := |p| - 1;
      OnlyStringBytesDropped(m, p[..n]);
      FilteredSnoc(m, p[..n], p[n]);
      assert p[..n] + [p[n]] == p;
    }
  }

  lemma FilteredSnoc(m: Mode, p: seq<Byte>, b: Byte)
    ensures Filtered(m, p + [b]) == Filtered(m, p) + (if Dropped(FinalMode(m, p), b) then [] else [b])
  {
    Split(m, p, [b]);
    assert [b][1..] == [];
  }

  // ---- control strings by position ----

  /** ESC followed by one of ] P _ ^ X begins a control string. */
  predicate Begins(p: seq<Byte>, j: nat) {
    1 <= j < |p| && p[j - 1] == 0x1b && p[j] in [0x5d, 0x50, 0x5f, 0x5e, 0x58]
  }

  /** ESC, BEL, CAN and SUB end it. */
  predicate Ends(b: Byte) {
    b == 0x1b || b == 0x07 || b == 0x18 || b == 0x1a
  }

  /** Byte i comes after the beginning of a string that has not ended before it. */
  ghost predicate Inside(p: seq<Byte>, i: nat) {
    i <= |p| && exists j: nat :: InsideSince(p, i, j)
  }

  ghost predicate InsideSince(p: seq<Byte>, i: nat, j: nat) {
    Begins(p, j) && j < i <= |p| && forall k :: j < k < i ==> !Ends(p[k])
  }

  /** The byte before is an ESC. */
  predicate AfterEsc(p: seq<Byte>, i: nat) {
    1 <= i <= |p| && p[i - 1] == 0x1b
  }

  lemma ModeNext(p: seq<Byte>, i: nat)
    requires i < |p|
    ensures ModeAt(Ground, p, i + 1) == ModeAfter(ModeAt(Ground, p, i), p[i])
  {
    assert p[..i + 1] == p[..i] + [p[i]];
    Split(Ground, p[..i], [p[i]]);
    assert [p[i]][1..] == [];
  }

  lemma InsideNext(p: seq<Byte>, i: nat)
    requires i < |p|
    ensures Inside(p, i + 1) <==> Begins(p, i) || (Inside(p, i) && !Ends(p[i]))
  {
    if Begins(p, i) {
      assert InsideSince(p, i + 1, i);
    }
    if Inside(p, i) && !Ends(p[i]) {
      var j: nat :| InsideSince(p, i, j);
      assert InsideSince(p, i + 1, j);
    }
    if Inside(p, i + 1) {
      var j: nat :| InsideSince(p, i + 1, j);
      assert j < i ==> InsideSince(p, i, j) && !Ends(p[i]);
    }
  }

  /** The filter takes a byte for part of a string exactly when it is inside one by position; ESC is never. */
  lemma {:induction false} ModeIsInside(p: seq<Byte>, i: nat)
    requires i <= |p|
    ensures ModeAt(Ground, p, i) == Str <==> Inside(p, i)
    ensures ModeAt(Ground, p, i) in [Esc, StrEsc] <==> AfterEsc(p, i)
  {
    if i == 0 {
      assert p[..0] == [];
      assert forall j: nat :: !InsideSince(p, 0, j);
    } else {
      ModeIsInside(p, i - 1);
      ModeNext(p, i - 1);
      InsideNext(p, i - 1);
      EscOrString(p, i - 1);
    }
  }

  lemma EscOrString(p: seq<Byte>, i: nat)
    requires i < |p|
    ensures Begins(p, i) ==> AfterEsc(p, i) && !Ends(p[i])
    ensures AfterEsc(p, i) ==> !Inside(p, i)
  {
    if AfterEsc(p, i) {
      forall j: nat ensures !InsideSince(p, i, j) {
        assert j < i - 1 && Begins(p, j) ==> Ends(p[i - 1]);
      }
    }
  }

  /** What a stream is filtered to: of its bytes, in order, all but the non-ASCII ones inside control strings. */
  lemma FilteredByPosition(p: seq<Byte>)
    ensures |Filtered(Ground, p)| == |KeptAt(Ground, p)|
    ensures forall n :: 0 <= n < |KeptAt(Ground, p)| ==> Filtered(Ground, p)[n] == p[KeptAt(Ground, p)[n]]
    ensures forall a, b :: 0 <= a < b < |KeptAt(Ground, p)| ==> KeptAt(Ground, p)[a] < KeptAt(Ground, p)[b]
    ensures forall i: nat :: i < |p| ==> (i in KeptAt(Ground, p) <==> !(Inside(p, i) && p[i] >= 0x80))
  {
    OnlyStringBytesDropped(Ground, p);
    forall i: nat | i < |p| ensures i in KeptAt(Ground, p) <==> !(Inside(p, i) && p[i] >= 0x80) {
      ModeIsInside(p, i);
      assert i in KeptAt(Ground, p) <==> Kept(Ground, p, i);
    }
  }

  // ---- a parser that ends strings at 0x9C ----

  /** Such a parser: the C1 string terminator ends a string, and an escape sequence, like the other ends. */
  function ParserAfter(m: Mode, b: Byte): Mode {
    if b == ST && m != Ground then Ground else ModeAfter(m, b)
  }

  function ParserFinal(m: Mode, p: seq<Byte>): Mode
    decreases p
  {
    if p == [] then m else ParserFinal(ParserAfter(m, p[0]), p[1..])
  }

  /** On the filter's output the parser is always where the filter is: no string ends early. */
  lemma {:induction false} ParserInStep(m: Mode, p: seq<Byte>)
    ensures ParserFinal(m, Filtered(m, p)) == FinalMode(m, p)
    decreases p
  {
    if p == [] {
    } else {
      var rest := Filtered(ModeAfter(m, p[0]), p[1..]);
      ParserInStep(ModeAfter(m, p[0]), p[1..]);
      DroppingKeepsMode(m, p[0]);
      if Dropped(m, p[0]) {
        assert [] + rest == rest;
      } else {
        assert ([p[0]] + rest)[1..] == rest;
      }
    }
  }

  /** At every byte, not only at the end: the parser enters and leaves strings where the filter does. */
  lemma ParserInStepThroughout(m: Mode, p: seq<Byte>, i: nat)
    requires i <= |p|
    ensures Filtered(m, p[..i]) <= Filtered(m, p)
    ensures ParserFinal(m, Filtered(m, p[..i])) == ModeAt(m, p, i)
  {
    Split(m, p[..i], p[i..]);
    assert p[..i] + p[i..] == p;
    ParserInStep(m, p[..i]);
  }

  lemma {:induction false} ParserNeedsFilter(m: Mode, p: seq<Byte>)
    requires forall i: nat :: i < |p| ==> !(ModeAt(m, p, i) == Str && p[i] == ST)
    ensures ParserFinal(m, p) == FinalMode(m, p)
    decreases p
  {
    if p == [] {
    } else {
      assert p[..0] == [];
      var m' := ModeAfter(m, p[0]);
      forall i: nat | i < |p[1..]| ensures !(ModeAt(m', p[1..], i) == Str && p[1..][i] == ST) {
        assert p[..i + 1][1..] == p[1..][..i];
        assert ModeAt(m, p, i + 1) == ModeAt(m', p[1..], i);
      }
      ParserNeedsFilter(m', p[1..]);
    }
  }

  lemma {:induction false} ParserSplit(m: Mode, p: seq<Byte>, b: Byte)
    ensures ParserFinal(m, p + [b]) == ParserAfter(ParserFinal(m, p), b)
    decreases p
  {
    if p == [] {
      assert ([] + [b])[1..] == [];
    } else {
      assert (p + [b])[0] == p[0] && (p + [b])[1..] == p[1..] + [b];
      ParserSplit(ParserAfter(m, p[0]), p[1..], b);
    }
  }

  ghost predicate InStep(m: Mode, p: seq<Byte>) {
    forall i: nat :: i <= |p| ==> ParserFinal(m, p[..i]) == ModeAt(m, p, i)
  }

  /** Unfiltered, the parser stays in step all along exactly when no byte inside a string is 0x9C. */
  lemma UnfilteredInStepIff(m: Mode, p: seq<Byte>)
    ensures InStep(m, p) <==> forall i: nat :: i < |p| ==> !(ModeAt(m, p, i) == Str && p[i] == ST)
  {
    forall i: nat | i < |p| && InStep(m, p) ensures !(ModeAt(m, p, i) == Str && p[i] == ST) {
      ParserSplit(m, p[..i], p[i]);
      Split(m, p[..i], [p[i]]);
      assert p[..i + 1] == p[..i] + [p[i]] && [p[i]][1..] == [];
      assert ParserFinal(m, p[..i]) == ModeAt(m, p, i) && ParserFinal(m, p[..i + 1]) == ModeAt(m, p, i + 1);
    }
    if forall i: nat :: i < |p| ==> !(ModeAt(m, p, i) == Str && p[i] == ST) {
      forall i: nat | i <= |p| ensures ParserFinal(m, p[..i]) == ModeAt(m, p, i) {
        assert forall j: nat :: j < i ==> p[..i][..j] == p[..j];
        ParserNeedsFilter(m, p[..i]);
      }
    }
  }

  class Filter {
    var mode: Mode
    var buf: seq<Byte>

    constructor ()
      ensures mode == Ground && buf == []
    {
      mode, buf := Ground, [];
    }

    /** Filters one write; the buffer is reused by the next. */
    method Write(p: seq<Byte>) returns (out: seq<Byte>)
      modifies this
      ensures out == Filtered(old(mode), p) && mode == FinalMode(old(mode), p) && buf == out
    {
      buf := [];
      for i := 0 to |p|
        invariant mode == FinalMode(old(mode), p[..i]) && buf == Filtered(old(mode), p[..i])
      {
        var b := p[i];
        Split(old(mode), p[..i], [b]);
        assert p[..i + 1] == p[..i] + [b] && [b][1..] == [];
        var keep := true;
        match mode {
          case Ground => if b == ESC { mode := Esc; }
          case Esc => mode := EscNext(b);
          case Str =>
            if b == ESC {
              mode := StrEsc;
            } else if b == BEL || b == CAN || b == SUB {
              mode := Ground;
            } else if b >= 0x80 {
              keep := false;
            }
          case StrEsc =>
            if b == BACKSLASH {
              mode := Ground;
            } else {
              mode := EscNext(b);
            }
        }
        if keep {
          buf := buf + [b];
        }
      }
      assert p[..|p|] == p;
      return buf;
    }
  }
}
