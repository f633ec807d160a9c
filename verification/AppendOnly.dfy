/** Readers of append-only transcripts: each remembers how far it has read whole lines, and what it made
    of them, so that the next read starts there.  Any schedule of appends and reads gives what one fold
    over all complete lines of the file gives. */
module AppendOnly {
  import opened Options

  // ---- complete lines ----

  /** The first line break at or after i, or the length. */
  function BreakAt(s: string, i: nat): (k: nat)
    requires i <= |s|
    ensures i <= k <= |s| && (k < |s| ==> s[k] == '\n')
    ensures forall j :: i <= j < k ==> s[j] != '\n'
    decreases |s| - i
  {
    if i == |s| || s[i] == '\n' then i else BreakAt(s, i + 1)
  }

  /** The complete lines from offset i on, each with its line break. */
  function LinesOf(s: string, i: nat): seq<string>
    requires i <= |s|
    decreases |s| - i
  {
    var k := BreakAt(s, i);
    if k == |s| then [] else [s[i..k + 1]] + LinesOf(s, k + 1)
  }

  /** Where a line can begin. */
  predicate Boundary(s: string, i: nat) {
    i <= |s| && (i == 0 || s[i - 1] == '\n')
  }

  lemma {:induction false} BreakAtAppended(s: string, more: string, i: nat)
    requires i <= |s|
    ensures BreakAt(s, i) < |s| ==> BreakAt(s + more, i) == BreakAt(s, i)
    decreases |s| - i
  {
    if i < |s| && s[i] != '\n' {
      BreakAtAppended(s, more, i + 1);
    }
  }

  /** The line from i ends before a later boundary, wherever the file ends. */
  lemma BreakBefore(s: string, i: nat, b: nat)
    requires i < b && Boundary(s, b)
    ensures var k := BreakAt(s, i); k < b && BreakAt(s[..b], i) == k && s[..b][i..k + 1] == s[i..k + 1]
  {
    var k := BreakAt(s, i);
    assert k < b by {
      assert s[b - 1] == '\n';
    }
    BreakUnique(s[..b], i, k);
  }

  /** Both readings begin with the same line. */
  lemma FirstLine(s: string, i: nat, b: nat)
    requires i < b && Boundary(s, b)
    ensures var k := BreakAt(s, i);
      k < b && LinesOf(s, i) == [s[i..k + 1]] + LinesOf(s, k + 1) && LinesOf(s[..b], i) == [s[i..k + 1]] + LinesOf(s[..b], k + 1)
  {
    BreakBefore(s, i, b);
  }

  lemma NoLine(s: string, b: nat)
    requires b <= |s|
    ensures LinesOf(s[..b], b) == []
  {}

  /** Lines up to a boundary, then lines from there, are all lines. */
  lemma {:induction false} LinesSplit(s: string, i: nat, b: nat)
    requires i <= b && Boundary(s, b)
    ensures LinesOf(s, i) == LinesOf(s[..b], i) + LinesOf(s, b)
    decreases b - i
  {
    if i < b {
      FirstLine(s, i, b);
      LinesSplit(s, BreakAt(s, i) + 1, b);
    } else {
      NoLine(s, b);
    }
  }

  lemma {:induction false} BreakUnique(s: string, i: nat, k: nat)
    requires i <= k < |s| && s[k] == '\n' && forall j :: i <= j < k ==> s[j] != '\n'
    ensures BreakAt(s, i) == k
    decreases k - i
  {}

  function Fold<S>(step: (S, string) -> S, init: S, lines: seq<string>): S
    decreases lines
  {
    if lines == [] then init else Fold(step, step(init, lines[0]), lines[1..])
  }

  lemma {:induction false} FoldConcat<S>(step: (S, string) -> S, init: S, a: seq<string>, b: seq<string>)
    ensures Fold(step, init, a + b) == Fold(step, Fold(step, init, a), b)
    decreases a
  {
    if a == [] {
      assert a + b == b;
    } else {
      assert (a + b)[0] == a[0] && (a + b)[1..] == a[1..] + b;
      FoldConcat(step, step(init, a[0]), a[1..], b);
    }
  }

  /** The fold over the complete lines of a file. */
  function FoldFile<S>(step: (S, string) -> S, init: S, s: string): S {
    Fold(step, init, LinesOf(s, 0))
  }

  /** A cache entry (offset, value) is right for a file: the offset is where a line begins, the value is the
      fold of what comes before. */
  ghost predicate EntryOk<S>(step: (S, string) -> S, init: S, s: string, off: nat, value: S) {
    Boundary(s, off) && value == FoldFile(step, init, s[..off])
  }

  /** An entry stays right while the file grows. */
  lemma AppendKeepsEntry<S>(step: (S, string) -> S, init: S, s: string, more: string, off: nat, value: S)
    requires EntryOk(step, init, s, off, value)
    ensures EntryOk(step, init, s + more, off, value)
  {
    assert (s + more)[..off] == s[..off];
  }

  lemma OneMoreLine(s: string, off: nat)
    requires Boundary(s, off) && BreakAt(s, off) < |s|
    ensures var k := BreakAt(s, off);
      LinesOf(s[..k + 1], 0) == LinesOf(s[..off], 0) + [s[off..k + 1]]
  {
    var k := BreakAt(s, off);
    var t := s[..k + 1];
    assert t[..off] == s[..off] && t[off..k + 1] == s[off..k + 1];
    LinesSplit(t, 0, off);
    BreakUnique(t, off, k);
    assert LinesOf(t, k + 1) == [];
  }

  /** Reading the next line from an entry gives an entry. */
  lemma LineKeepsEntry<S>(step: (S, string) -> S, init: S, s: string, off: nat, value: S)
    requires EntryOk(step, init, s, off, value) && BreakAt(s, off) < |s|
    ensures var k := BreakAt(s, off); EntryOk(step, init, s, k + 1, step(value, s[off..k + 1]))
  {
    var line := s[off..BreakAt(s, off) + 1];
    OneMoreLine(s, off);
    FoldConcat(step, init, LinesOf(s[..off], 0), [line]);
    FoldOne(step, value, line);
  }

  lemma FoldOne<S>(step: (S, string) -> S, init: S, line: string)
    ensures Fold(step, init, [line]) == step(init, line)
  {}

  /** With no complete line left, the entry is the fold over the whole file. */
  lemma EntryAtEnd<S>(step: (S, string) -> S, init: S, s: string, off: nat, value: S)
    requires EntryOk(step, init, s, off, value) && BreakAt(s, off) == |s|
    ensures value == FoldFile(step, init, s)
  {
    LinesSplit(s, 0, off);
    assert LinesOf(s[..off], 0) + [] == LinesOf(s[..off], 0);
  }

  // ---- counting prompts ----

  const PROMPT_CAP := 2

  function CountStep(isPrompt: string -> bool): (int, string) -> int {
    (n: int, line: string) => if isPrompt(line) then n + 1 else n
  }

  function Prompts(isPrompt: string -> bool, s: string): int {
    FoldFile(CountStep(isPrompt), 0, s)
  }

  function Capped(n: int): int {
    if n < PROMPT_CAP then n else PROMPT_CAP
  }

  lemma {:induction false} CountGrows(isPrompt: string -> bool, n: int, lines: seq<string>)
    ensures Fold(CountStep(isPrompt), n, lines) >= n
    decreases lines
  {
    if lines != [] {
      CountGrows(isPrompt, CountStep(isPrompt)(n, lines[0]), lines[1..]);
    }
  }

  /** More of the file, no fewer prompts. */
  lemma PromptsGrow(isPrompt: string -> bool, s: string, b: nat)
    requires Boundary(s, b)
    ensures Prompts(isPrompt, s[..b]) <= Prompts(isPrompt, s)
  {
    LinesSplit(s, 0, b);
    FoldConcat(CountStep(isPrompt), 0, LinesOf(s[..b], 0), LinesOf(s, b));
    CountGrows(isPrompt, Prompts(isPrompt, s[..b]), LinesOf(s, b));
  }

  datatype PromptEntry = PromptEntry(offset: nat, prompts: int)

  class PromptCounter {
    const isPrompt: string -> bool
    var files: map<string, string>
    var cache: map<string, PromptEntry>

    function Entry(path: string): PromptEntry
      reads this
    {
      if path in cache then cache[path] else PromptEntry(0, 0)
    }

    ghost predicate Valid()
      reads this
    {
      forall p :: p in files ==>
        EntryOk(CountStep(isPrompt), 0, files[p], Entry(p).offset, Entry(p).prompts) && Entry(p).prompts <= PROMPT_CAP
    }

    constructor (isPrompt: string -> bool, files: map<string, string>)
      ensures Valid() && this.isPrompt == isPrompt && this.files == files && cache == map[]
    {
      this.isPrompt, this.files, cache := isPrompt, files, map[];
      new;
      forall p | p in files ensures EntryOk(CountStep(isPrompt), 0, files[p], 0, 0) {
        assert files[p][..0] == "";
      }
    }

    /** The session writes on, perhaps leaving a line unfinished. */
    method Append(path: string, more: string)
      requires Valid() && path in files
      modifies this`files
      ensures Valid() && files == old(files)[path := old(files)[path] + more]
    {
      AppendKeepsEntry(CountStep(isPrompt), 0, files[path], more, Entry(path).offset, Entry(path).prompts);
      files := files[path := files[path] + more];
    }

    /** Reads on from an entry until the cap or the last complete line. */
    method ReadOn(s: string, from: PromptEntry) returns (c: PromptEntry)
      requires EntryOk(CountStep(isPrompt), 0, s, from.offset, from.prompts) && from.prompts <= PROMPT_CAP
      ensures EntryOk(CountStep(isPrompt), 0, s, c.offset, c.prompts) && c.prompts <= PROMPT_CAP
      ensures c.prompts == Capped(Prompts(isPrompt, s))
    {
      c := from;
      while c.prompts < PROMPT_CAP
        invariant EntryOk(CountStep(isPrompt), 0, s, c.offset, c.prompts) && c.prompts <= PROMPT_CAP
        decreases |s| - c.offset
      {
        var k := BreakAt(s, c.offset);
        if k == |s| {
          EntryAtEnd(CountStep(isPrompt), 0, s, c.offset, c.prompts);
          return; // what follows is not a line yet
        }
        LineKeepsEntry(CountStep(isPrompt), 0, s, c.offset, c.prompts);
        var line := s[c.offset..k + 1];
        c := PromptEntry(k + 1, if isPrompt(line) then c.prompts + 1 else c.prompts);
      }
      PromptsGrow(isPrompt, s, c.offset);
    }

    /** countPrompts, with a size taken when the file was as long as now or shorter. */
    method CountPrompts(path: string, size: nat) returns (n: int)
      requires Valid() && path in files && size <= |files[path]|
      modifies this`cache
      ensures Valid()
      ensures size == |files[path]| ==> n == Capped(Prompts(isPrompt, files[path]))
      ensures n == Capped(Prompts(isPrompt, files[path])) || n == Capped(Prompts(isPrompt, files[path][..size]))
    {
      var c := Entry(path);
      var s := files[path];
      if c.prompts >= PROMPT_CAP {
        PromptsGrow(isPrompt, s, c.offset);
        return c.prompts;
      }
      if size == c.offset {
        assert s[..|s|] == s;
        return c.prompts;
      }
      if size < c.offset { // rewritten
        c := PromptEntry(0, 0);
        assert s[..0] == "";
      }
      c := ReadOn(s, c);
      cache := cache[path := c];
      return c.prompts;
    }
  }

  // ---- the skills a session lists ----

  datatype Listing = Listing(names: seq<string>, content: seq<string>)
  datatype Skills = Skills(names: seq<string>, desc: map<string, string>)

  /** What is foreign to the reader: decoding a line, which names are valid, how a description is trimmed. */
  datatype Rules = Rules(decode: string -> Option<Listing>, valid: string -> bool, clip: string -> string)

  function AddNames(rules: Rules, known: seq<string>, names: seq<string>): seq<string>
    decreases names
  {
    if names == [] then known
    else if rules.valid(names[0]) && names[0] !in known then AddNames(rules, known + [names[0]], names[1..])
    else AddNames(rules, known, names[1..])
  }

  /** The first ": " from i on, or None. */
  function Colon(s: string, i: nat): (r: Option<nat>)
    requires i <= |s|
    ensures r.Some? ==> i <= r.value && r.value + 2 <= |s| && s[r.value..r.value + 2] == ": "
    decreases |s| - i
  {
    if i + 2 > |s| then None else if s[i..i + 2] == ": " then Some(i) else Colon(s, i + 1)
  }

  /** "- <name>: <description>". */
  function Describes(line: string): Option<(string, string)> {
    if |line| < 2 || line[..2] != "- " then None
    else
      match Colon(line, 2)
      case None => None
      case Some(i) => Some((line[2..i], line[i + 2..]))
  }

  function AddDescs(rules: Rules, desc: map<string, string>, known: seq<string>, content: seq<string>): map<string, string>
    decreases content
  {
    if content == [] then desc
    else
      match Describes(content[0])
      case Some((name, text)) =>
        AddDescs(rules, if name in known then desc[name := rules.clip(text)] else desc, known, content[1..])
      case None => AddDescs(rules, desc, known, content[1..])
  }

  /** What the lines last say about a name. */
  function LastText(content: seq<string>, n: string): Option<string>
    decreases content
  {
    if content == [] then None
    else
      var later := LastText(content[1..], n);
      if later.Some? then later
      else match Describes(content[0])
        case Some((name, text)) => if name == n then Some(text) else None
        case None => None
  }

  /** Of each known name the last description counts; unknown names get none. */
  lemma {:induction false} AddDescsLast(rules: Rules, desc: map<string, string>, known: seq<string>, content: seq<string>, n: string)
    ensures var d, text := AddDescs(rules, desc, known, content), LastText(content, n);
      if n in known && text.Some? then n in d && d[n] == rules.clip(text.value)
      else (n in d <==> n in desc) && (n in desc ==> d[n] == desc[n])
    decreases content
  {
    if content != [] {
      var here := Describes(content[0]);
      AddDescsLast(rules,
        if here.Some? && here.value.0 in known then desc[here.value.0 := rules.clip(here.value.1)] else desc,
        known, content[1..], n);
    }
  }

  function Added(rules: Rules, k: Skills, l: Listing): Skills {
    var names := AddNames(rules, k.names, l.names);
    Skills(names, AddDescs(rules, k.desc, names, l.content))
  }

  function SkillStep(rules: Rules): (Skills, string) -> Skills {
    (k: Skills, line: string) =>
      match rules.decode(line)
      case Some(l) => Added(rules, k, l)
      case None => k
  }

  const NO_SKILLS := Skills([], map[])

  /** The listing as one fold over the whole file. */
  function Listed(rules: Rules, s: string): Skills {
    FoldFile(SkillStep(rules), NO_SKILLS, s)
  }

  /** All names the lines list, in order and with repetitions. */
  function AllNames(rules: Rules, lines: seq<string>): seq<string>
    decreases lines
  {
    if lines == [] then []
    else
      (match rules.decode(lines[0])
       case Some(l) => l.names
       case None => []) + AllNames(rules, lines[1..])
  }

  lemma {:induction false} AddNamesConcat(rules: Rules, known: seq<string>, a: seq<string>, b: seq<string>)
    ensures AddNames(rules, known, a + b) == AddNames(rules, AddNames(rules, known, a), b)
    decreases a
  {
    if a == [] {
      assert a + b == b;
    } else {
      assert (a + b)[0] == a[0] && (a + b)[1..] == a[1..] + b;
      AddNamesConcat(rules, if rules.valid(a[0]) && a[0] !in known then known + [a[0]] else known, a[1..], b);
    }
  }

  lemma {:induction false} FoldNames(rules: Rules, k: Skills, lines: seq<string>)
    ensures Fold(SkillStep(rules), k, lines).names == AddNames(rules, k.names, AllNames(rules, lines))
    decreases lines
  {
    if lines != [] {
      var here := match rules.decode(lines[0]) case Some(l) => l.names case None => [];
      FoldNames(rules, SkillStep(rules)(k, lines[0]), lines[1..]);
      AddNamesConcat(rules, k.names, here, AllNames(rules, lines[1..]));
    }
  }

  ghost predicate Distinct(s: seq<string>) {
    forall i, j :: 0 <= i < j < |s| ==> s[i] != s[j]
  }

  /** Adding keeps what was there in front, adds each valid name once, and adds it after every name that
      is listed before it. */
  lemma {:induction false} AddNamesFirstOrder(rules: Rules, known: seq<string>, names: seq<string>)
    requires Distinct(known)
    ensures known <= AddNames(rules, known, names) && Distinct(AddNames(rules, known, names))
    ensures forall n :: n in AddNames(rules, known, names) <==> n in known || (n in names && rules.valid(n))
    decreases names
  {
    if names != [] {
      var n := names[0];
      assert names == [n] + names[1..];
      AddNamesFirstOrder(rules, if rules.valid(n) && n !in known then known + [n] else known, names[1..]);
    }
  }

  /** The names of a file: every valid name once, in the order of first listing.  Those among the first i
      names listed come before all others, for every i. */
  lemma NamesInFirstListingOrder(rules: Rules, s: string, i: nat)
    requires i <= |AllNames(rules, LinesOf(s, 0))|
    ensures var all, names := AllNames(rules, LinesOf(s, 0)), Listed(rules, s).names;
      && Distinct(names)
      && (forall n :: n in names <==> n in all && rules.valid(n))
      && exists k :: 0 <= k <= |names| && forall n :: n in names[..k] <==> n in all[..i] && rules.valid(n)
  {
    var all := AllNames(rules, LinesOf(s, 0));
    FoldNames(rules, NO_SKILLS, LinesOf(s, 0));
    AddNamesFirstOrder(rules, [], all);
    assert all[..i] + all[i..] == all;
    AddNamesConcat(rules, [], all[..i], all[i..]);
    var first := AddNames(rules, [], all[..i]);
    AddNamesFirstOrder(rules, [], all[..i]);
    AddNamesFirstOrder(rules, first, all[i..]);
    assert Listed(rules, s).names[..|first|] == first;
  }

  /** One file's cache. */
  class SkillCache {
    const rules: Rules
    var file: string
    var off: nat
    var names: seq<string>
    var desc: map<string, string>

    ghost predicate Valid()
      reads this
    {
      EntryOk(SkillStep(rules), NO_SKILLS, file, off, Skills(names, desc))
    }

    constructor (rules: Rules, file: string)
      ensures Valid() && this.rules == rules && this.file == file && off == 0
    {
      this.rules, this.file, off, names, desc := rules, file, 0, [], map[];
      new;
      assert file[..0] == "";
    }

    method Append(more: string)
      requires Valid()
      modifies this`file
      ensures Valid() && file == old(file) + more
    {
      AppendKeepsEntry(SkillStep(rules), NO_SKILLS, file, more, off, Skills(names, desc));
      file := file + more;
    }

    /** The names first, then the descriptions of the names known by now. */
    method Add(l: Listing)
      modifies this`names, this`desc
      ensures Skills(names, desc) == Added(rules, Skills(old(names), old(desc)), l)
    {
      assert l.names[0..] == l.names;
      for i := 0 to |l.names|
        invariant desc == old(desc)
        invariant AddNames(rules, names, l.names[i..]) == AddNames(rules, old(names), l.names)
      {
        var n := l.names[i];
        assert l.names[i..][0] == n && l.names[i..][1..] == l.names[i + 1..];
        if rules.valid(n) && n !in names {
          names := names + [n];
        }
      }
      assert l.names[|l.names|..] == [];
      ghost var known := names;
      assert l.content[0..] == l.content;
      for i := 0 to |l.content|
        invariant names == known
        invariant AddDescs(rules, desc, names, l.content[i..]) == AddDescs(rules, old(desc), names, l.content)
      {
        assert l.content[i..][0] == l.content[i] && l.content[i..][1..] == l.content[i + 1..];
        match Describes(l.content[i]) {
          case Some((name, text)) =>
            if name in names {
              desc := desc[name := rules.clip(text)];
            }
          case None =>
        }
      }
      assert l.content[|l.content|..] == [];
    }

    /** FromTranscript: after any appends and reads, the answer is that of one fold over the whole file. */
    method FromTranscript() returns (k: Skills)
      requires Valid()
      modifies this`off, this`names, this`desc
      ensures Valid() && k == Listed(rules, file) && k == Skills(names, desc)
    {
      while true
        invariant Valid()
        decreases |file| - off
      {
        var b := BreakAt(file, off);
        if b == |file| {
          break; // what follows is not a line yet
        }
        LineKeepsEntry(SkillStep(rules), NO_SKILLS, file, off, Skills(names, desc));
        var line := file[off..b + 1];
        off := b + 1;
        match rules.decode(line) {
          case Some(l) => Add(l);
          case None =>
        }
      }
      EntryAtEnd(SkillStep(rules), NO_SKILLS, file, off, Skills(names, desc));
      return Skills(names, desc);
    }
  }

  // ---- complete lines and descriptions, from the outside ----

  function Together(lines: seq<string>): string {
    if lines == [] then "" else lines[0] + Together(lines[1..])
  }

  predicate CompleteLine(l: string) {
    l != "" && l[|l| - 1] == '\n' && '\n' !in l[..|l| - 1]
  }

  /** The complete lines, each ending in its only newline, are the text up to its last newline. */
  lemma {:induction false} LinesAreComplete(s: string, i: nat) returns (rest: string)
    requires i <= |s|
    ensures s[i..] == Together(LinesOf(s, i)) + rest && '\n' !in rest
    ensures forall l <- LinesOf(s, i) :: CompleteLine(l)
    decreases |s| - i
  {
    var k := BreakAt(s, i);
    if k == |s| {
      rest := s[i..];
      assert Together([]) + rest == rest;
    } else {
      rest := LinesAreComplete(s, k + 1);
      LineIsComplete(s, i);
      OneMoreTogether(s[i..k + 1], LinesOf(s, k + 1), rest);
      assert s[i..] == s[i..k + 1] + s[k + 1..];
    }
  }

  lemma LineIsComplete(s: string, i: nat)
    requires i <= |s| && BreakAt(s, i) < |s|
    ensures CompleteLine(s[i..BreakAt(s, i) + 1])
  {
    var l := s[i..BreakAt(s, i) + 1];
    assert l[..|l| - 1] == s[i..BreakAt(s, i)];
  }

  lemma OneMoreTogether(line: string, lines: seq<string>, rest: string)
    ensures line + (Together(lines) + rest) == Together([line] + lines) + rest
  {
    assert ([line] + lines)[1..] == lines;
  }

  /** How many of the lines are prompts, at most two counted. */
  function HowMany(isPrompt: string -> bool, lines: seq<string>): nat {
    if lines == [] then 0 else HowMany(isPrompt, lines[1..]) + if isPrompt(lines[0]) then 1 else 0
  }

  lemma {:induction false} FoldCounts(isPrompt: string -> bool, n: int, lines: seq<string>)
    ensures Fold(CountStep(isPrompt), n, lines) == n + HowMany(isPrompt, lines)
    decreases lines
  {
    if lines != [] {
      FoldCounts(isPrompt, CountStep(isPrompt)(n, lines[0]), lines[1..]);
    }
  }

  lemma CountIs(isPrompt: string -> bool, s: string)
    ensures var n := HowMany(isPrompt, LinesOf(s, 0)); Capped(Prompts(isPrompt, s)) == if n < 2 then n else 2
  {
    FoldCounts(isPrompt, 0, LinesOf(s, 0));
  }

  predicate ColonAt(s: string, j: nat) {
    j + 2 <= |s| && s[j..j + 2] == ": "
  }

  lemma {:induction false} ColonFirst(s: string, i: nat)
    requires i <= |s|
    ensures Colon(s, i).None? ==> forall j: nat :: i <= j ==> !ColonAt(s, j)
    ensures Colon(s, i).Some? ==> ColonAt(s, Colon(s, i).value) && forall j: nat :: i <= j < Colon(s, i).value ==> !ColonAt(s, j)
    decreases |s| - i
  {
    if i + 2 <= |s| && s[i..i + 2] != ": " {
      ColonFirst(s, i + 1);
    }
  }

  /** A line describes a name by a text exactly when it is "- name: text", split at the first colon and blank. */
  lemma DescribesIff(line: string, name: string, text: string)
    ensures Describes(line) == Some((name, text)) <==>
      line == "- " + name + ": " + text && forall j: nat :: 2 <= j < 2 + |name| ==> !ColonAt(line, j)
  {
    if Describes(line) == Some((name, text)) {
      Described(line, name, text);
    }
    if line == "- " + name + ": " + text && forall j: nat :: 2 <= j < 2 + |name| ==> !ColonAt(line, j) {
      Describing(line, name, text);
    }
  }

  lemma Described(line: string, name: string, text: string)
    requires Describes(line) == Some((name, text))
    ensures line == "- " + name + ": " + text && forall j: nat :: 2 <= j < 2 + |name| ==> !ColonAt(line, j)
  {
    ColonFirst(line, 2);
    var at := Colon(line, 2).value;
    assert line == line[..2] + line[2..at] + line[at..at + 2] + line[at + 2..];
  }

  lemma Describing(line: string, name: string, text: string)
    requires line == "- " + name + ": " + text && forall j: nat :: 2 <= j < 2 + |name| ==> !ColonAt(line, j)
    ensures Describes(line) == Some((name, text))
  {
    var at := 2 + |name|;
    assert line[..2] == "- " && line[2..at] == name && line[at..at + 2] == ": " && line[at + 2..] == text;
    ColonFirst(line, 2);
    assert ColonAt(line, at);
  }
}
