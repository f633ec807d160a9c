/** What a session declares it waits for: the two-field row (wait, stopped) against the whole history of hooks. */
module Waits {
  import opened Options
  import opened Sessions

  datatype Event =
    | Declare(id: string, kind: string, note: string)
    | Prompt(s: Incoming, now: int)
    | Stop(s: Incoming, now: int)
    | Plain(st: Step)

  predicate Ok(e: Event) {
    e.Plain? ==> !e.st.SetWait? && !e.st.TurnWait?
  }

  // ---- the handlers ----

  function WaitLabel(kind: string): string {
    if kind == WAIT_ANSWER then "回答待ち"
    else if kind == WAIT_ACTION then "作業待ち"
    else if kind == "report" then "報告"
    else if kind == "background" then "自動で続行"
    else ""
  }

  predicate WaitNeedsYou(kind: string) {
    kind == WAIT_ANSWER || kind == WAIT_ACTION
  }

  function CharSize(c: char): (n: nat) {
    if c < '\U{80}' then 1 else if c < '\U{800}' then 2 else if c < '\U{10000}' then 3 else 4
  }

  function Utf8Size(s: string): nat {
    if s == "" then 0 else CharSize(s[0]) + Utf8Size(s[1..])
  }

  /** The longest run of whole characters that fits in n bytes. */
  function Fitting(s: string, n: nat): (r: string)
    ensures r <= s && Utf8Size(r) <= n
    ensures r < s ==> Utf8Size(r) + CharSize(s[|r|]) > n
  {
    if s == "" || CharSize(s[0]) > n then "" else [s[0]] + Fitting(s[1..], n - CharSize(s[0]))
  }

  function Truncate(s: string, n: nat): string {
    if Utf8Size(s) <= n then s else Fitting(s, n) + "..."
  }

  /** The attention a finished turn leaves. */
  function StopAttention(kind: string, note: string): (string, string) {
    if !WaitNeedsYou(kind) then (DONE, "")
    else (NEEDS_YOU, WaitLabel(kind) + if note != "" then ": " + Truncate(note, 120) else "")
  }

  /** Every hook first sees to it that its session has a row. */
  function Ensured(rows: Table, s: Incoming, mode: LastSeenMode, now: int): Table {
    if s.id == "" then rows else Next(rows, Upsert(s, mode, now))
  }

  function TurnReport(rows: Table, id: string): (string, string) {
    var r := Lookup(rows, id);
    if r.Some? then Reported(r.value) else ("", "")
  }

  function PromptTaken(rows: Table, s: Incoming, now: int): Table {
    var t := Ensured(rows, s.(status := Active), Later, now);
    Next(Next(t, ClearAttention(s.id, "")), SetWait(s.id, "", ""))
  }

  function StopTaken(rows: Table, s: Incoming, now: int): Table {
    var t := Ensured(rows, s.(status := Idle), Keep, now);
    var report := TurnReport(t, s.id);
    var ended := Next(t, TurnWait(s.id));
    if Headless(s.entrypoint) then ended
    else
      var mark := StopAttention(report.0, report.1);
      Next(ended, SetAttention(s.id, mark.0, mark.1))
  }

  function Happens(rows: Table, e: Event): Table {
    match e
    case Declare(id, kind, note) => Next(rows, SetWait(id, kind, note))
    case Prompt(s, now) => PromptTaken(rows, s, now)
    case Stop(s, now) => StopTaken(rows, s, now)
    case Plain(st) => Next(rows, st)
  }

  /** The table after a history of events, from an empty one. */
  function After(h: seq<Event>): Table {
    if h == [] then [] else Happens(After(h[..|h| - 1]), h[|h| - 1])
  }

  ghost predicate AllOk(h: seq<Event>) {
    forall i :: 0 <= i < |h| ==> Ok(h[i])
  }

  // ---- the definition over the whole history ----

  predicate Settles(e: Event, id: string) {
    match e
    case Declare(i, _, _) => i == id
    case Prompt(s, _) => s.id == id
    case Stop(s, _) => s.id == id
    case Plain(st) => Deletes(st, id)
  }

  predicate Declares(h: seq<Event>, i: nat, id: string)
    requires i < |h|
  {
    h[i].Declare? && h[i].id == id && h[i].kind != "" && Lookup(After(h[..i]), id).Some?
  }

  ghost predicate Unsettled(h: seq<Event>, id: string, i: nat) {
    forall j :: i < j < |h| ==> !Settles(h[j], id)
  }

  /** The declaration at i is the latest, and was made since the last prompt and the last Stop. */
  ghost predicate Standing(h: seq<Event>, id: string, i: nat) {
    i < |h| && Declares(h, i, id) && Unsettled(h, id, i)
  }

  lemma UnsettledInPrefix(h: seq<Event>, id: string, i: nat)
    requires i + 1 < |h| && !Settles(h[|h| - 1], id)
    ensures Unsettled(h, id, i) <==> Unsettled(h[..|h| - 1], id, i)
  {
    var g := h[..|h| - 1];
    if Unsettled(g, id, i) {
      forall j | i < j < |h| ensures !Settles(h[j], id) {
        assert j < |g| ==> h[j] == g[j];
      }
    }
  }

  lemma DeclaresInPrefix(h: seq<Event>, id: string, i: nat)
    requires i + 1 < |h|
    ensures Declares(h, i, id) <==> Declares(h[..|h| - 1], i, id)
  {
    assert h[..|h| - 1][..i] == h[..i];
  }

  function LatestDeclaration(h: seq<Event>, id: string): (r: Option<nat>)
    ensures r.Some? ==> r.value < |h| && h[r.value].Declare?
  {
    if h == [] then None
    else
      var n := |h| - 1;
      if Settles(h[n], id) then (if Declares(h, n, id) then Some(n) else None)
      else LatestDeclaration(h[..n], id)
  }

  lemma {:induction false} LatestIsStanding(h: seq<Event>, id: string, i: nat)
    ensures LatestDeclaration(h, id) == Some(i) <==> Standing(h, id, i)
  {
    if h != [] {
      var n := |h| - 1;
      if Settles(h[n], id) {
      } else if i < n {
        UnsettledInPrefix(h, id, i);
        DeclaresInPrefix(h, id, i);
        LatestIsStanding(h[..n], id, i);
      }
    }
  }

  // ---- the row refines it ----

  lemma EnsuredReport(rows: Table, s: Incoming, mode: LastSeenMode, now: int, id: string)
    requires Valid(rows)
    ensures Valid(Ensured(rows, s, mode, now))
    ensures TurnReport(Ensured(rows, s, mode, now), id) == TurnReport(rows, id)
    ensures Lookup(rows, id).Some? ==> Lookup(Ensured(rows, s, mode, now), id).Some?
  {
    if s.id != "" {
      LookupNext(rows, Upsert(s, mode, now), id);
    }
  }

  lemma RowKeepsReport(rows: Table, st: Step, r: Row)
    requires !st.SetWait? && !st.TurnWait? && !Deletes(st, r.id)
    ensures var n := RowAfter(rows, st, r); n.Some? && Reported(n.value) == Reported(r)
  {}

  lemma OtherReport(rows: Table, st: Step, id: string)
    requires Valid(rows) && !st.SetWait? && !st.TurnWait? && !Deletes(st, id)
    ensures Valid(Next(rows, st)) && TurnReport(Next(rows, st), id) == TurnReport(rows, id)
  {
    LookupNext(rows, st, id);
    if Lookup(rows, id).Some? { RowKeepsReport(rows, st, Lookup(rows, id).value); }
  }

  lemma WaitReport(rows: Table, of: string, kind: string, note: string, id: string)
    requires Valid(rows)
    ensures Valid(Next(rows, SetWait(of, kind, note)))
    ensures TurnReport(Next(rows, SetWait(of, kind, note)), id) ==
      if of != id then TurnReport(rows, id)
      else if kind != "" && Lookup(rows, id).Some? then (kind, note) else ("", "")
  {
    LookupNext(rows, SetWait(of, kind, note), id);
  }

  lemma TurnWaitReport(rows: Table, of: string, id: string)
    requires Valid(rows)
    ensures Valid(Next(rows, TurnWait(of)))
    ensures TurnReport(Next(rows, TurnWait(of)), id) == if of == id then ("", "") else TurnReport(rows, id)
  {
    LookupNext(rows, TurnWait(of), id);
  }

  lemma PromptReport(rows: Table, s: Incoming, now: int, id: string)
    requires Valid(rows)
    ensures Valid(PromptTaken(rows, s, now))
    ensures TurnReport(PromptTaken(rows, s, now), id) == if s.id == id then ("", "") else TurnReport(rows, id)
  {
    var t := Ensured(rows, s.(status := Active), Later, now);
    EnsuredReport(rows, s.(status := Active), Later, now, id);
    OtherReport(t, ClearAttention(s.id, ""), id);
    WaitReport(Next(t, ClearAttention(s.id, "")), s.id, "", "", id);
  }

  lemma StopReport(rows: Table, s: Incoming, now: int, id: string)
    requires Valid(rows)
    ensures Valid(StopTaken(rows, s, now))
    ensures TurnReport(StopTaken(rows, s, now), id) == if s.id == id then ("", "") else TurnReport(rows, id)
  {
    var t := Ensured(rows, s.(status := Idle), Keep, now);
    EnsuredReport(rows, s.(status := Idle), Keep, now, id);
    TurnWaitReport(t, s.id, id);
    var report := TurnReport(t, s.id);
    var mark := StopAttention(report.0, report.1);
    OtherReport(Next(t, TurnWait(s.id)), SetAttention(s.id, mark.0, mark.1), id);
  }

  /** What one event does to the report a Stop would make. */
  lemma EventReport(rows: Table, e: Event, id: string)
    requires Valid(rows) && Ok(e)
    ensures Valid(Happens(rows, e))
    ensures TurnReport(Happens(rows, e), id) ==
      if !Settles(e, id) then TurnReport(rows, id)
      else if e.Declare? && e.kind != "" && Lookup(rows, id).Some? then (e.kind, e.note) else ("", "")
  {
    match e
    case Declare(of, kind, note) => WaitReport(rows, of, kind, note, id);
    case Prompt(s, now) => PromptReport(rows, s, now, id);
    case Stop(s, now) => StopReport(rows, s, now, id);
    case Plain(st) =>
      LookupNext(rows, st, id);
      if !Deletes(st, id) { OtherReport(rows, st, id); }
  }

  /** Two fields per row are enough: at any point of any history they tell exactly the latest declaration made
      since the later of the last prompt and the last Stop, or that there is none. */
  lemma {:induction false} RowTellsHistory(h: seq<Event>, id: string)
    requires AllOk(h)
    ensures Valid(After(h))
    ensures var at := LatestDeclaration(h, id);
      TurnReport(After(h), id) == if at.Some? then (h[at.value].kind, h[at.value].note) else ("", "")
  {
    if h != [] {
      var n := |h| - 1;
      RowTellsHistory(h[..n], id);
      EventReport(After(h[..n]), h[n], id);
    }
  }

  lemma StopMarks(rows: Table, s: Incoming, now: int)
    requires Valid(rows) && s.id != "" && !Headless(s.entrypoint)
    ensures var r, report := Lookup(StopTaken(rows, s, now), s.id), TurnReport(rows, s.id);
      r.Some? && (r.value.attention, r.value.reason) == StopAttention(report.0, report.1)
  {
    var idle := s.(status := Idle);
    LookupNext(rows, Upsert(idle, Keep, now), s.id);
    EnsuredReport(rows, idle, Keep, now, s.id);
    var t := Ensured(rows, idle, Keep, now);
    LookupNext(t, TurnWait(s.id), s.id);
    var report := TurnReport(t, s.id);
    var mark := StopAttention(report.0, report.1);
    LookupNext(Next(t, TurnWait(s.id)), SetAttention(s.id, mark.0, mark.1), s.id);
  }

  /** What the operator sees after a Stop of a session that is not headless: the attention its standing
      declaration calls for. */
  lemma {:induction false} StopShowsDeclaration(h: seq<Event>, s: Incoming, now: int)
    requires AllOk(h) && s.id != "" && !Headless(s.entrypoint)
    ensures var r, at := Lookup(After(h + [Stop(s, now)]), s.id), LatestDeclaration(h, s.id);
      r.Some? && (r.value.attention, r.value.reason) ==
        (if at.Some? then StopAttention(h[at.value].kind, h[at.value].note) else (DONE, ""))
  {
    assert (h + [Stop(s, now)])[..|h|] == h;
    RowTellsHistory(h, s.id);
    StopMarks(After(h), s, now);
  }

  // ---- a declaration between the two statements that end a turn ----

  /** The second statement, by what the first has read. */
  function SecondHalf(rows: Table, id: string, read: Option<Row>): Table {
    var i := Index(rows, id);
    if read.None? || read.value.wait == "" || i == |rows| then rows
    else if read.value.waitStopped then Next(rows, SetWait(id, "", ""))
    else rows[i := rows[i].(waitStopped := true)]
  }

  /** With nothing in between they are one step. */
  lemma HalvesAreOne(rows: Table, id: string)
    requires Valid(rows)
    ensures SecondHalf(rows, id, Lookup(rows, id)) == Next(rows, TurnWait(id))
  {
    var i := Index(rows, id);
    var t := UpdateAll(rows, TurnWait(id));
    forall k | 0 <= k < |rows| && k != i ensures t[k] == rows[k] {
      if i < |rows| { LookupAt(rows, k); LookupAt(rows, i); }
    }
    if i < |rows| && rows[i].wait != "" && rows[i].waitStopped {
      forall k | 0 <= k < |rows| ensures t[k] == UpdateAll(rows, SetWait(id, "", ""))[k] {
        if k != i { LookupAt(rows, k); LookupAt(rows, i); }
      }
    }
  }

  /** A declaration made in between is still reported at the next Stop exactly when there was none before. */
  lemma LateDeclarationKeptIff(rows: Table, id: string, kind: string, note: string)
    requires Valid(rows) && Lookup(rows, id).Some? && kind != ""
    ensures TurnReport(SecondHalf(Next(rows, SetWait(id, kind, note)), id, Lookup(rows, id)), id) == (kind, note)
      <==> Lookup(rows, id).value.wait == ""
  {
    var t := Next(rows, SetWait(id, kind, note));
    LookupNext(rows, SetWait(id, kind, note), id);
    var i := Index(t, id);
    if Lookup(rows, id).value.wait != "" {
      if Lookup(rows, id).value.waitStopped {
        LookupNext(t, SetWait(id, "", ""), id);
      } else {
        var after := t[i := t[i].(waitStopped := true)];
        assert forall k :: 0 <= k < |t| ==> after[k].id == t[k].id;
        assert Index(after, id) == i;
      }
    }
  }

  // ---- the handlers statement by statement ----

  /** A prompt's three statements, with anything in between. */
  function PromptSplit(rows: Table, s: Incoming, now: int, b1: seq<Step>, b2: seq<Step>): Table {
    var t := Final(Ensured(rows, s.(status := Active), Later, now), b1);
    Next(Final(Next(t, ClearAttention(s.id, "")), b2), SetWait(s.id, "", ""))
  }

  /** A Stop's four statements, with anything in between. */
  function StopSplit(rows: Table, s: Incoming, now: int, b1: seq<Step>, b2: seq<Step>, b3: seq<Step>): Table {
    var t := Final(Ensured(rows, s.(status := Idle), Keep, now), b1);
    var u := Final(SecondHalf(Final(t, b2), s.id, Lookup(t, s.id)), b3);
    if Headless(s.entrypoint) then u
    else
      var mark := StopAttention(TurnReport(t, s.id).0, TurnReport(t, s.id).1);
      Next(u, SetAttention(s.id, mark.0, mark.1))
  }

  /** With nothing in between they are the steps of the histories above. */
  lemma UnsplitHandlers(rows: Table, s: Incoming, now: int)
    requires Valid(rows)
    ensures PromptSplit(rows, s, now, [], []) == Happens(rows, Prompt(s, now))
    ensures StopSplit(rows, s, now, [], [], []) == Happens(rows, Stop(s, now))
  {
    EnsuredReport(rows, s.(status := Idle), Keep, now, s.id);
    HalvesAreOne(Ensured(rows, s.(status := Idle), Keep, now), s.id);
  }

  /** A prompt that comes between the two statements in which a Stop ends the turn and marks the session: the mark
      outlives the prompt. */
  lemma StopCrossedByPrompt(rows: Table, ended: Table, s: Incoming, stopped: int, prompted: int, kind: string, reason: string)
    requires Valid(rows) && s.id != ""
    requires ended == Next(Ensured(rows, s.(status := Idle), Keep, stopped), TurnWait(s.id))
    ensures var r := Lookup(Next(PromptTaken(ended, s, prompted), SetAttention(s.id, kind, reason)), s.id);
      r.Some? && r.value.attention == kind && r.value.status == Active
  {
    var idle := Ensured(rows, s.(status := Idle), Keep, stopped);
    EnsuredReport(rows, s.(status := Idle), Keep, stopped, s.id);
    TurnWaitReport(idle, s.id, s.id);
    PromptActivates(ended, s, prompted);
    MarkKeepsStatus(PromptTaken(ended, s, prompted), s.id, kind, reason);
  }

  lemma MarkKeepsStatus(rows: Table, id: string, kind: string, reason: string)
    requires Valid(rows) && Lookup(rows, id).Some?
    ensures var r := Lookup(Next(rows, SetAttention(id, kind, reason)), id);
      r.Some? && r.value.attention == kind && r.value.reason == reason && r.value.status == Lookup(rows, id).value.status
  {
    LookupNext(rows, SetAttention(id, kind, reason), id);
  }

  lemma PromptActivates(rows: Table, s: Incoming, now: int)
    requires Valid(rows) && s.id != ""
    ensures Valid(PromptTaken(rows, s, now))
    ensures var r := Lookup(PromptTaken(rows, s, now), s.id); r.Some? && r.value.status == Active && r.value.attention == ""
  {
    var t := Ensured(rows, s.(status := Active), Later, now);
    LookupNext(rows, Upsert(s.(status := Active), Later, now), s.id);
    LookupNext(t, ClearAttention(s.id, ""), s.id);
    LookupNext(Next(t, ClearAttention(s.id, "")), SetWait(s.id, "", ""), s.id);
  }

  // ---- needs_you stays until it is answered or cleared ----

  /** What can change the attention of a session that needs the operator. */
  predicate Answers(e: Event, id: string) {
    match e
    case Declare(_, _, _) => false
    case Prompt(s, _) => s.id == id
    case Stop(s, _) => s.id == id && !Headless(s.entrypoint)
    case Plain(st) =>
      || Deletes(st, id)
      || (st.SetAttention? && st.id == id)
      || (st.ClearAttention? && st.id == id && st.only != DONE)
  }

  ghost predicate Needs(rows: Table, id: string, reason: string) {
    var r := Lookup(rows, id);
    r.Some? && r.value.attention == NEEDS_YOU && r.value.reason == reason
  }

  lemma RowKeepsNeed(rows: Table, st: Step, r: Row)
    requires r.attention == NEEDS_YOU && !Answers(Plain(st), r.id)
    ensures var n := RowAfter(rows, st, r); n.Some? && n.value.attention == NEEDS_YOU && n.value.reason == r.reason
  {}

  lemma NeedsKept(rows: Table, st: Step, id: string, reason: string)
    requires Valid(rows) && Needs(rows, id, reason) && !Answers(Plain(st), id)
    ensures Valid(Next(rows, st)) && Needs(Next(rows, st), id, reason)
  {
    LookupNext(rows, st, id);
    RowKeepsNeed(rows, st, Lookup(rows, id).value);
  }

  lemma EventKeepsNeed(rows: Table, e: Event, id: string, reason: string)
    requires Valid(rows) && Needs(rows, id, reason) && !Answers(e, id)
    ensures Valid(Happens(rows, e)) && Needs(Happens(rows, e), id, reason)
  {
    match e {
      case Declare(of, kind, note) => NeedsKept(rows, SetWait(of, kind, note), id, reason);
      case Plain(st) => NeedsKept(rows, st, id, reason);
      case Prompt(s, now) =>
        var up := Upsert(s.(status := Active), Later, now);
        if s.id != "" { NeedsKept(rows, up, id, reason); }
        var t := Ensured(rows, s.(status := Active), Later, now);
        NeedsKept(t, ClearAttention(s.id, ""), id, reason);
        NeedsKept(Next(t, ClearAttention(s.id, "")), SetWait(s.id, "", ""), id, reason);
      case Stop(s, now) =>
        var up := Upsert(s.(status := Idle), Keep, now);
        if s.id != "" { NeedsKept(rows, up, id, reason); }
        var t := Ensured(rows, s.(status := Idle), Keep, now);
        NeedsKept(t, TurnWait(s.id), id, reason);
        if !Headless(s.entrypoint) {
          var report := TurnReport(t, s.id);
          var mark := StopAttention(report.0, report.1);
          NeedsKept(Next(t, TurnWait(s.id)), SetAttention(s.id, mark.0, mark.1), id, reason);
        }
    }
  }

  /** A tool hook or the watcher of the screen that finds nothing to wait for clears "needs_you", whoever set it:
      also what a declaration called for, before any prompt. */
  lemma DeclaredNeedCleared(h: seq<Event>, s: Incoming, now: int)
    requires AllOk(h) && s.id != "" && !Headless(s.entrypoint) && LatestDeclaration(h, s.id).Some?
    requires WaitNeedsYou(h[LatestDeclaration(h, s.id).value].kind)
    ensures var rows := After(h + [Stop(s, now)]); var cleared := Lookup(Next(rows, ClearAttention(s.id, NEEDS_YOU)), s.id);
      && Lookup(rows, s.id).Some? && Lookup(rows, s.id).value.attention == NEEDS_YOU
      && cleared.Some? && cleared.value.attention == ""
  {
    StopShowsDeclaration(h, s, now);
    RowTellsHistory(h + [Stop(s, now)], s.id);
    NeedCleared(After(h + [Stop(s, now)]), s.id);
  }

  lemma NeedCleared(rows: Table, id: string)
    requires Valid(rows) && Lookup(rows, id).Some? && Lookup(rows, id).value.attention == NEEDS_YOU
    ensures var r := Lookup(Next(rows, ClearAttention(id, NEEDS_YOU)), id); r.Some? && r.value.attention == ""
  {
    LookupNext(rows, ClearAttention(id, NEEDS_YOU), id);
  }

  function Onwards(rows: Table, h: seq<Event>): Table
    decreases h
  {
    if h == [] then rows else Onwards(Happens(rows, h[0]), h[1..])
  }

  /** A session that needs the operator keeps saying so, with the same reason, through any number of other
      events, looks at it (MarkSeen) included, until a prompt or a Stop of its own, or until another hook or the
      watcher of the screen marks or clears it. */
  lemma {:induction false} NeedsYouStays(rows: Table, h: seq<Event>, id: string, reason: string)
    requires Valid(rows) && Needs(rows, id, reason)
    requires forall i :: 0 <= i < |h| ==> !Answers(h[i], id)
    ensures Needs(Onwards(rows, h), id, reason)
    decreases h
  {
    if h != [] {
      EventKeepsNeed(rows, h[0], id, reason);
      NeedsYouStays(Happens(rows, h[0]), h[1..], id, reason);
    }
  }

  /** The mark a Stop leaves, kind by kind. */
  lemma StopMarkIs(kind: string, note: string)
    ensures kind == "answer" ==> StopAttention(kind, note) == ("needs_you", Reason("回答待ち", note))
    ensures kind == "action" ==> StopAttention(kind, note) == ("needs_you", Reason("作業待ち", note))
    ensures kind != "answer" && kind != "action" ==> StopAttention(kind, note) == ("done", "")
  {}

  /** A label, followed by the note if there is one; of a note of more than 120 bytes, the whole characters that fit. */
  function Reason(word: string, note: string): (r: string)
    ensures note == "" ==> r == word
    ensures note != "" && Utf8Size(note) <= 120 ==> r == word + ": " + note
    ensures Utf8Size(note) > 120 ==> r == word + ": " + Fitting(note, 120) + "..."
  {
    if note == "" then word + "" else word + (": " + Truncate(note, 120))
  }

  /** Declared kinds, and what the operator reads for them. */
  lemma LabelsAre()
    ensures WaitLabel("answer") == "回答待ち" && WaitLabel("action") == "作業待ち"
    ensures WaitLabel("report") == "報告" && WaitLabel("background") == "自動で続行"
    ensures forall kind :: kind !in ["answer", "action", "report", "background"] ==> WaitLabel(kind) == ""
  {}

  /** A declaration is stored as it is, afresh; an empty one clears. */
  lemma DeclarationIsStored(rows: Table, id: string, kind: string, note: string)
    requires Valid(rows) && Lookup(rows, id).Some?
    ensures var r := Lookup(Next(rows, SetWait(id, kind, note)), id);
      && r.Some? && r.value.wait == kind && !r.value.waitStopped
      && r.value.waitNote == (if kind == "" then "" else note)
  {
    LookupNext(rows, SetWait(id, kind, note), id);
  }

  /** The end of a turn marks a fresh declaration and keeps it; it clears one that an earlier turn's end has marked. */
  lemma TurnEndMarksOrClears(rows: Table, id: string)
    requires Valid(rows) && Lookup(rows, id).Some? && Lookup(rows, id).value.wait != ""
    ensures var r, n := Lookup(rows, id).value, Lookup(Next(rows, TurnWait(id)), id);
      && n.Some?
      && (r.waitStopped ==> n.value.wait == "" && n.value.waitNote == "")
      && (!r.waitStopped ==> n.value.wait == r.wait && n.value.waitNote == r.waitNote && n.value.waitStopped)
  {
    LookupNext(rows, TurnWait(id), id);
  }
}
