/** The session table: archive flags, last-seen times, session numbers, the declared wait, attention.
    SQL evaluates the right-hand sides of an UPDATE on the old row. */
module Sessions {
  import opened Options

  datatype Status = Active | Idle | Recent | Stopped

  predicate Running(st: Status) {
    st.Active? || st.Idle?
  }

  const NEEDS_YOU := "needs_you"
  const DONE := "done"
  const WAIT_ANSWER := "answer"
  const WAIT_ACTION := "action"
  const CLASSIFY_WINDOW := 3600

  /** A row; "" stands for NULL in the text columns. */
  datatype Row = Row(
    id: string,
    num: Option<nat>,
    status: Status,
    archived: bool,
    autoArchived: bool,
    firstSeen: int,
    lastSeen: int,
    lastActivity: int,
    seenAt: int,
    entrypoint: string,
    favorite: bool,
    project: string,
    wait: string,
    waitNote: string,
    waitStopped: bool,
    attention: string,
    reason: string)

  /** What an upsert brings; a missing time means now. */
  datatype Incoming = Incoming(
    id: string,
    status: Status,
    firstSeen: Option<int>,
    lastSeen: Option<int>,
    lastActivity: int,
    entrypoint: string,
    hideHeadless: bool)

  datatype LastSeenMode = Later | Overwrite | Keep

  type Table = seq<Row>

  /** LIKE 'sdk-%' ignores case, the entrypoint test in the program does not. */
  predicate LikeSdk(e: string) {
    && |e| >= 4
    && (e[0] == 's' || e[0] == 'S') && (e[1] == 'd' || e[1] == 'D') && (e[2] == 'k' || e[2] == 'K') && e[3] == '-'
  }

  predicate Headless(e: string) {
    |e| >= 4 && e[..4] == "sdk-"
  }

  function Index(rows: Table, id: string): (i: nat)
    ensures i <= |rows| && (i < |rows| ==> rows[i].id == id)
    ensures forall j :: 0 <= j < i ==> rows[j].id != id
  {
    if rows == [] then 0 else if rows[0].id == id then 0 else 1 + Index(rows[1..], id)
  }

  function MaxNum(rows: Table): (m: nat)
    ensures forall i :: 0 <= i < |rows| && rows[i].num.Some? ==> rows[i].num.value <= m
  {
    if rows == [] then 0
    else
      var m := MaxNum(rows[1..]);
      if rows[0].num.Some? && rows[0].num.value > m then rows[0].num.value else m
  }

  // ---- the statements ----

  function Or(a: string, b: string): string {
    if a != "" then a else b
  }

  function MaxOf(a: int, b: int): int {
    if a > b then a else b
  }

  function OrNow(t: Option<int>, now: int): int {
    if t.Some? then t.value else now
  }

  /** A row without an entrypoint, in view and not older than the window, of which the upsert says it is headless. */
  predicate FiledNow(r: Row, s: Incoming, now: int) {
    s.hideHeadless && Headless(s.entrypoint) && r.entrypoint == "" && !r.archived && r.firstSeen >= now - CLASSIFY_WINDOW
  }

  /** An auto-archived session that is resumed interactively. */
  predicate Resumed(r: Row, s: Incoming, lastSeen: int) {
    r.autoArchived && !LikeSdk(Or(s.entrypoint, r.entrypoint)) && (Running(s.status) || lastSeen > r.lastSeen)
  }

  function Advanced(mode: LastSeenMode, had: int, given: int): int {
    match mode
    case Overwrite => given
    case Keep => had
    case Later => MaxOf(given, had)
  }

  function Merged(r: Row, s: Incoming, mode: LastSeenMode, now: int): Row {
    var lastSeen := OrNow(s.lastSeen, now);
    var filed, resumed := FiledNow(r, s, now), Resumed(r, s, lastSeen);
    r.(status := s.status,
       lastSeen := Advanced(mode, r.lastSeen, lastSeen),
       lastActivity := MaxOf(s.lastActivity, r.lastActivity),
       entrypoint := Or(s.entrypoint, r.entrypoint),
       archived := filed || (r.archived && !resumed),
       autoArchived := filed || (r.autoArchived && !resumed))
  }

  function Inserted(rows: Table, s: Incoming, now: int): Row {
    var filed := s.hideHeadless && Headless(s.entrypoint);
    Row(s.id, Some(MaxNum(rows) + 1), s.status, filed, filed,
        OrNow(s.firstSeen, now), OrNow(s.lastSeen, now),
        s.lastActivity, now, s.entrypoint, false, "", "", "", false, "", "")
  }

  datatype Step =
    | Upsert(s: Incoming, mode: LastSeenMode, now: int)
    | Touch(id: string, status: Status, now: int)
    | SetArchived(id: string, v: bool)
    | AutoArchive(before: int)
    | SetWait(id: string, kind: string, note: string)
    | TurnWait(id: string)
    | SetAttention(id: string, kind: string, reason: string)
    | ClearAttention(id: string, only: string)
    | MarkSeen(id: string, now: int)
    | SetProject(id: string, project: string)
    | SetFavorite(id: string, v: bool)
    | BackfillNums
    | Delete(id: string)

  function Touched(r: Row, status: Status, now: int): Row {
    r.(lastSeen := now, status := status, archived := if r.autoArchived then false else r.archived, autoArchived := false)
  }

  function Swept(r: Row, before: int): Row {
    if !r.archived && !r.favorite && r.project == "" && !Running(r.status) && r.lastSeen < before then
      r.(archived := true, autoArchived := true)
    else r
  }

  function Waiting(r: Row, kind: string, note: string): Row {
    r.(wait := kind, waitNote := if kind == "" then "" else note, waitStopped := false)
  }

  /** A Stop: a declaration that already went through one is cleared, a fresh one is marked. */
  function TurnEnded(r: Row): Row {
    if r.wait == "" then r else if r.waitStopped then Waiting(r, "", "") else r.(waitStopped := true)
  }

  /** The declaration a Stop reports. */
  function Reported(r: Row): (string, string) {
    if r.wait == "" || r.waitStopped then ("", "") else (r.wait, r.waitNote)
  }

  function Cleared(r: Row, only: string): Row {
    if only == "" || r.attention == only then r.(attention := "", reason := "") else r
  }

  function Seen(r: Row, now: int): Row {
    Cleared(r.(seenAt := MaxOf(now, r.lastActivity)), DONE)
  }

  /** What one row becomes under an UPDATE; the other statements are dealt with in Next. */
  function Updated(r: Row, st: Step): Row {
    match st
    case Touch(id, status, now) => if r.id == id then Touched(r, status, now) else r
    case SetArchived(id, v) => if r.id == id then r.(archived := v, autoArchived := false) else r
    case AutoArchive(before) => Swept(r, before)
    case SetWait(id, kind, note) => if r.id == id then Waiting(r, kind, note) else r
    case TurnWait(id) => if r.id == id then TurnEnded(r) else r
    case SetAttention(id, kind, reason) => if r.id == id then r.(attention := kind, reason := reason) else r
    case ClearAttention(id, only) => if r.id == id then Cleared(r, only) else r
    case MarkSeen(id, now) => if r.id == id then Seen(r, now) else r
    case SetProject(id, project) => if r.id == id then r.(project := project) else r
    case SetFavorite(id, v) => if r.id == id then r.(favorite := v) else r
    case _ => r
  }

  function UpdateAll(rows: Table, st: Step): (t: Table)
    ensures |t| == |rows| && forall i :: 0 <= i < |rows| ==> t[i] == Updated(rows[i], st)
  {
    seq(|rows|, i requires 0 <= i < |rows| => Updated(rows[i], st))
  }

  /** The first row without a number in first-seen order among the first n, or n. */
  function FirstUnnumbered(rows: Table, n: nat): (i: nat)
    requires n <= |rows|
    ensures i <= n && (i < n ==> rows[i].num.None?)
  {
    if n == 0 then 0
    else
      var i := FirstUnnumbered(rows, n - 1);
      if rows[n - 1].num.Some? then (if i == n - 1 then n else i)
      else if i < n - 1 && rows[i].firstSeen <= rows[n - 1].firstSeen then i
      else n - 1
  }

  lemma {:induction false} FirstIsEarliest(rows: Table, n: nat, j: nat)
    requires j < n <= |rows| && rows[j].num.None?
    ensures var i := FirstUnnumbered(rows, n);
      i < n && (rows[i].firstSeen < rows[j].firstSeen || (rows[i].firstSeen == rows[j].firstSeen && i <= j))
  {
    if j < n - 1 {
      FirstIsEarliest(rows, n - 1, j);
    } else if FirstUnnumbered(rows, n - 1) < n - 1 {
    }
  }

  function Unnumbered(rows: Table): nat {
    if rows == [] then 0 else (if rows[0].num.None? then 1 else 0) + Unnumbered(rows[1..])
  }

  lemma {:induction false} UnnumberedDrops(rows: Table, i: nat, n: nat)
    requires i < |rows| && rows[i].num.None?
    ensures Unnumbered(rows[i := rows[i].(num := Some(n))]) < Unnumbered(rows)
  {
    var x := rows[i].(num := Some(n));
    if i == 0 {
      assert rows[i := x][1..] == rows[1..];
    } else {
      assert rows[i := x][1..] == rows[1..][i - 1 := x];
      UnnumberedDrops(rows[1..], i - 1, n);
    }
  }

  /** Numbers n + 1, n + 2, … go to the rows without one, in first-seen order. */
  function Numbered(rows: Table, n: nat): (t: Table)
    ensures |t| == |rows|
    decreases Unnumbered(rows)
  {
    var i := FirstUnnumbered(rows, |rows|);
    if i == |rows| then rows
    else
      UnnumberedDrops(rows, i, n + 1);
      Numbered(rows[i := rows[i].(num := Some(n + 1))], n + 1)
  }

  function Next(rows: Table, st: Step): Table {
    match st
    case Upsert(s, mode, now) =>
      var i := Index(rows, s.id);
      if i < |rows| then rows[i := Merged(rows[i], s, mode, now)] else rows + [Inserted(rows, s, now)]
    case BackfillNums => Numbered(rows, MaxNum(rows))
    case Delete(id) =>
      var i := Index(rows, id);
      if i < |rows| then rows[..i] + rows[i + 1..] else rows
    case _ => UpdateAll(rows, st)
  }

  function Final(rows: Table, run: seq<Step>): Table
    decreases run
  {
    if run == [] then rows else Final(Next(rows, run[0]), run[1..])
  }

  // ---- what every step keeps ----

  ghost predicate UniqueIds(rows: Table) {
    forall i, j :: 0 <= i < j < |rows| ==> rows[i].id != rows[j].id
  }

  ghost predicate UniqueNums(rows: Table) {
    forall i, j :: 0 <= i < j < |rows| && rows[i].num.Some? ==> rows[i].num != rows[j].num
  }

  ghost predicate AutoIsArchived(rows: Table) {
    forall i :: 0 <= i < |rows| && rows[i].autoArchived ==> rows[i].archived
  }

  ghost predicate Valid(rows: Table) {
    UniqueIds(rows) && UniqueNums(rows) && AutoIsArchived(rows)
  }

  /** What numbering leaves alone, and what it gives. */
  lemma {:induction false} NumberedGives(rows: Table, n: nat)
    requires UniqueNums(rows) && forall i :: 0 <= i < |rows| && rows[i].num.Some? ==> rows[i].num.value <= n
    ensures UniqueNums(Numbered(rows, n))
    ensures forall i :: 0 <= i < |rows| ==>
      && Numbered(rows, n)[i].num.Some?
      && (if rows[i].num.Some? then Numbered(rows, n)[i] == rows[i]
          else Numbered(rows, n)[i] == rows[i].(num := Numbered(rows, n)[i].num) && Numbered(rows, n)[i].num.value > n)
    decreases Unnumbered(rows)
  {
    var i := FirstUnnumbered(rows, |rows|);
    forall j | 0 <= j < |rows| && rows[j].num.None? ensures i < |rows| {
      FirstIsEarliest(rows, |rows|, j);
    }
    if i < |rows| {
      UnnumberedDrops(rows, i, n + 1);
      NumberedGives(rows[i := rows[i].(num := Some(n + 1))], n + 1);
    }
  }

  /** Sessions from before numbers get them in the order they were first seen. */
  lemma {:induction false} NumberedInOrder(rows: Table, n: nat, i: nat, j: nat)
    requires UniqueNums(rows) && forall k :: 0 <= k < |rows| && rows[k].num.Some? ==> rows[k].num.value <= n
    requires i < |rows| && j < |rows| && i != j && rows[i].num.None? && rows[j].num.None?
    requires rows[i].firstSeen < rows[j].firstSeen || (rows[i].firstSeen == rows[j].firstSeen && i < j)
    ensures Numbered(rows, n)[i].num.Some? && Numbered(rows, n)[j].num.Some?
    ensures Numbered(rows, n)[i].num.value < Numbered(rows, n)[j].num.value
    decreases Unnumbered(rows)
  {
    FirstIsEarliest(rows, |rows|, i);
    FirstIsEarliest(rows, |rows|, j);
    var f := FirstUnnumbered(rows, |rows|);
    var next := rows[f := rows[f].(num := Some(n + 1))];
    UnnumberedDrops(rows, f, n + 1);
    if f == i {
      NumberedGives(next, n + 1);
    } else {
      NumberedInOrder(next, n + 1, i, j);
    }
  }

  lemma UpdateKeeps(rows: Table, st: Step)
    requires Valid(rows)
    ensures Valid(UpdateAll(rows, st))
  {
    var t := UpdateAll(rows, st);
    assert forall i :: 0 <= i < |rows| ==> t[i].id == rows[i].id && t[i].num == rows[i].num;
    assert forall i :: 0 <= i < |rows| ==> (t[i].autoArchived ==> t[i].archived);
  }

  lemma UpsertKeeps(rows: Table, s: Incoming, mode: LastSeenMode, now: int)
    requires Valid(rows)
    ensures Valid(Next(rows, Upsert(s, mode, now)))
  {
    var i, t := Index(rows, s.id), Next(rows, Upsert(s, mode, now));
    assert forall j :: 0 <= j < |rows| ==> t[j].id == rows[j].id && t[j].num == rows[j].num;
    assert forall j :: 0 <= j < |rows| && j != i ==> t[j] == rows[j];
  }

  lemma DeleteKeeps(rows: Table, id: string)
    requires Valid(rows)
    ensures Valid(Next(rows, Delete(id)))
  {
    var i, t := Index(rows, id), Next(rows, Delete(id));
    assert i < |rows| ==> forall j :: 0 <= j < |t| ==> t[j] == rows[if j < i then j else j + 1];
  }

  lemma StepKeeps(rows: Table, st: Step)
    requires Valid(rows)
    ensures Valid(Next(rows, st))
  {
    match st
    case BackfillNums => NumberedGives(rows, MaxNum(rows));
    case Delete(id) => DeleteKeeps(rows, id);
    case Upsert(s, mode, now) => UpsertKeeps(rows, s, mode, now);
    case _ => UpdateKeeps(rows, st);
  }

  /** In every reachable table auto-archived rows are archived, and ids and numbers are unique. */
  lemma {:induction false} RunKeeps(rows: Table, run: seq<Step>)
    requires Valid(rows)
    ensures Valid(Final(rows, run))
    decreases run
  {
    if run != [] {
      StepKeeps(rows, run[0]);
      RunKeeps(Next(rows, run[0]), run[1..]);
    }
  }

  // ---- one session's row ----

  function Lookup(rows: Table, id: string): (r: Option<Row>)
    ensures r.Some? ==> r.value in rows && r.value.id == id
    ensures r.None? ==> forall i :: 0 <= i < |rows| ==> rows[i].id != id
  {
    var i := Index(rows, id);
    if i < |rows| then Some(rows[i]) else None
  }

  lemma LookupAt(rows: Table, i: nat)
    requires UniqueIds(rows) && i < |rows|
    ensures Lookup(rows, rows[i].id) == Some(rows[i])
  {}

  /** What becomes of one session's row in a step of the whole table. */
  function RowAfter(rows: Table, st: Step, r: Row): Option<Row> {
    match st
    case Upsert(s, mode, now) => Some(if s.id == r.id then Merged(r, s, mode, now) else r)
    case Delete(id) => if id == r.id then None else Some(r)
    case BackfillNums => if r.num.Some? then Some(r) else
      var n := Lookup(Next(rows, st), r.id);
      Some(r.(num := if n.Some? then n.value.num else None))
    case _ => Some(Updated(r, st))
  }

  lemma LookupUpsert(rows: Table, s: Incoming, mode: LastSeenMode, now: int, id: string)
    requires Valid(rows)
    ensures LookupFollows(rows, Upsert(s, mode, now), id)
  {
    var t, i := Next(rows, Upsert(s, mode, now)), Index(rows, id);
    UpsertKeeps(rows, s, mode, now);
    assert forall j :: 0 <= j < |rows| && j != Index(rows, s.id) ==> t[j] == rows[j];
    if i < |rows| {
      LookupAt(t, i);
    } else if s.id == id {
      LookupAt(t, |rows|);
    }
  }

  lemma LookupDelete(rows: Table, gone: string, id: string)
    requires Valid(rows)
    ensures LookupFollows(rows, Delete(gone), id)
  {
    var t, i, d := Next(rows, Delete(gone)), Index(rows, id), Index(rows, gone);
    StepKeeps(rows, Delete(gone));
    assert d < |rows| ==> forall j :: 0 <= j < |t| ==> t[j] == rows[if j < d then j else j + 1];
    if i < |rows| && gone != id {
      var k := if d < i then i - 1 else i;
      assert t[k] == rows[i];
      LookupAt(t, k);
    }
  }

  lemma LookupBackfill(rows: Table, id: string)
    requires Valid(rows)
    ensures LookupFollows(rows, BackfillNums, id)
  {
    var t, i := Next(rows, BackfillNums), Index(rows, id);
    NumberedGives(rows, MaxNum(rows));
    assert forall j :: 0 <= j < |rows| ==> t[j].id == rows[j].id;
    if i < |rows| {
      LookupAt(t, i);
    }
  }

  lemma LookupUpdate(rows: Table, st: Step, id: string)
    requires Valid(rows) && !st.Upsert? && !st.BackfillNums? && !st.Delete?
    ensures LookupFollows(rows, st, id)
  {
    var t, i := UpdateAll(rows, st), Index(rows, id);
    UpdateKeeps(rows, st);
    assert forall j :: 0 <= j < |rows| ==> t[j].id == rows[j].id;
    if i < |rows| {
      LookupAt(t, i);
    }
  }

  ghost predicate LookupFollows(rows: Table, st: Step, id: string) {
    Lookup(Next(rows, st), id) ==
    match Lookup(rows, id)
    case Some(r) => RowAfter(rows, st, r)
    case None => if st.Upsert? && st.s.id == id then Some(Inserted(rows, st.s, st.now)) else None
  }

  lemma LookupNext(rows: Table, st: Step, id: string)
    requires Valid(rows)
    ensures Valid(Next(rows, st)) && LookupFollows(rows, st, id)
  {
    StepKeeps(rows, st);
    match st
    case Upsert(s, mode, now) => LookupUpsert(rows, s, mode, now, id);
    case Delete(gone) => LookupDelete(rows, gone, id);
    case BackfillNums => LookupBackfill(rows, id);
    case _ => LookupUpdate(rows, st, id);
  }

  predicate OwnArchive(r: Row) {
    r.archived && !r.autoArchived
  }

  predicate Deletes(st: Step, id: string) {
    st.Delete? && st.id == id
  }

  predicate Unarchives(st: Step, id: string) {
    st.SetArchived? && st.id == id && !st.v
  }

  /** The number of a session, if it has one, and whether the operator archived it. */
  predicate Holds(rows: Table, id: string, num: Option<nat>, own: bool) {
    var r := Lookup(rows, id);
    r.Some? && (num.Some? ==> r.value.num == num) && (own ==> OwnArchive(r.value))
  }

  lemma RowHolds(rows: Table, st: Step, r: Row)
    requires !Deletes(st, r.id)
    ensures var n := RowAfter(rows, st, r); n.Some? && (r.num.Some? ==> n.value.num == r.num) && (OwnArchive(r) && !Unarchives(st, r.id) ==> OwnArchive(n.value))
  {}

  /** Over any run, a session that is not deleted keeps the number it was given, and the operator's own archive is
      undone by nothing but SetArchived(false). */
  lemma {:induction false} NumberAndArchiveStay(rows: Table, run: seq<Step>, id: string, num: Option<nat>, own: bool)
    requires Valid(rows) && Holds(rows, id, num, own)
    requires forall i :: 0 <= i < |run| ==> !Deletes(run[i], id) && (own ==> !Unarchives(run[i], id))
    ensures Holds(Final(rows, run), id, num, own)
    decreases run
  {
    if run != [] {
      LookupNext(rows, run[0], id);
      RowHolds(rows, run[0], Lookup(rows, id).value);
      NumberAndArchiveStay(Next(rows, run[0]), run[1..], id, num, own);
    }
  }

  /** The steps that may move a session's last-seen time back: an overwriting upsert, and a Touch whose clock
      is behind. */
  predicate MayRewind(st: Step, id: string, since: int) {
    (st.Upsert? && st.s.id == id && st.mode.Overwrite?) || (st.Touch? && st.id == id && st.now < since)
  }

  lemma RowNotBack(rows: Table, st: Step, r: Row, since: int)
    requires !Deletes(st, r.id) && !MayRewind(st, r.id, since) && r.lastSeen >= since
    ensures var n := RowAfter(rows, st, r); n.Some? && n.value.lastSeen >= since
  {}

  lemma {:induction false} LastSeenNeverBack(rows: Table, run: seq<Step>, id: string, since: int)
    requires Valid(rows) && Lookup(rows, id).Some? && Lookup(rows, id).value.lastSeen >= since
    requires forall i :: 0 <= i < |run| ==> !Deletes(run[i], id) && !MayRewind(run[i], id, since)
    ensures var r := Lookup(Final(rows, run), id); r.Some? && r.value.lastSeen >= since
    decreases run
  {
    if run != [] {
      LookupNext(rows, run[0], id);
      RowNotBack(rows, run[0], Lookup(rows, id).value, since);
      LastSeenNeverBack(Next(rows, run[0]), run[1..], id, since);
    }
  }

  /** The steps that may bring back a session filed as headless: the operator's, a Touch, and an upsert that
      says it is no longer headless. */
  predicate MayUnfile(st: Step, id: string) {
    || (st.SetArchived? && st.id == id)
    || (st.Touch? && st.id == id)
    || (st.Upsert? && st.s.id == id && st.s.entrypoint != "" && !LikeSdk(st.s.entrypoint))
  }

  predicate FiledHeadless(r: Row) {
    r.archived && r.autoArchived && LikeSdk(r.entrypoint)
  }

  lemma RowStaysFiled(rows: Table, st: Step, r: Row)
    requires !Deletes(st, r.id) && !MayUnfile(st, r.id) && FiledHeadless(r)
    ensures var n := RowAfter(rows, st, r); n.Some? && FiledHeadless(n.value)
  {}

  /** While a session stays headless, running does not unarchive it. */
  lemma {:induction false} HeadlessStaysFiled(rows: Table, run: seq<Step>, id: string)
    requires Valid(rows) && Lookup(rows, id).Some? && FiledHeadless(Lookup(rows, id).value)
    requires forall i :: 0 <= i < |run| ==> !Deletes(run[i], id) && !MayUnfile(run[i], id)
    ensures var r := Lookup(Final(rows, run), id); r.Some? && FiledHeadless(r.value)
    decreases run
  {
    if run != [] {
      LookupNext(rows, run[0], id);
      RowStaysFiled(rows, run[0], Lookup(rows, id).value);
      HeadlessStaysFiled(Next(rows, run[0]), run[1..], id);
    }
  }

  lemma InsertedFiled(rows: Table, s: Incoming, now: int)
    requires s.hideHeadless && Headless(s.entrypoint)
    ensures FiledHeadless(Inserted(rows, s, now))
  {}

  /** A headless session known as such at its first hook never shows up in the working set. */
  lemma HeadlessNeverShows(rows: Table, s: Incoming, mode: LastSeenMode, now: int, run: seq<Step>)
    requires Valid(rows) && Lookup(rows, s.id).None? && s.hideHeadless && Headless(s.entrypoint)
    requires forall i :: 0 <= i < |run| ==> !Deletes(run[i], s.id) && !MayUnfile(run[i], s.id)
    ensures var r := Lookup(Final(Next(rows, Upsert(s, mode, now)), run), s.id); r.Some? && FiledHeadless(r.value)
  {
    LookupNext(rows, Upsert(s, mode, now), s.id);
    InsertedFiled(rows, s, now);
    HeadlessStaysFiled(Next(rows, Upsert(s, mode, now)), run, s.id);
  }

  // ---- auto-archived sessions come back ----

  predicate Archives(st: Step, id: string) {
    st.SetArchived? && st.id == id && st.v
  }

  lemma RowNotOwn(rows: Table, st: Step, r: Row)
    requires !OwnArchive(r) && !Deletes(st, r.id) && !Archives(st, r.id)
    ensures var n := RowAfter(rows, st, r); n.Some? && !OwnArchive(n.value)
  {}

  lemma {:induction false} NeverOwnUnasked(rows: Table, run: seq<Step>, id: string)
    requires Valid(rows) && Lookup(rows, id).Some? && !OwnArchive(Lookup(rows, id).value)
    requires forall i :: 0 <= i < |run| ==> !Deletes(run[i], id) && !Archives(run[i], id)
    ensures Valid(Final(rows, run))
    ensures var r := Lookup(Final(rows, run), id); r.Some? && !OwnArchive(r.value)
    decreases run
  {
    if run != [] {
      LookupNext(rows, run[0], id);
      RowNotOwn(rows, run[0], Lookup(rows, id).value);
      NeverOwnUnasked(Next(rows, run[0]), run[1..], id);
    }
  }

  lemma MergedComesBack(r: Row, s: Incoming, mode: LastSeenMode, now: int)
    requires !OwnArchive(r) && Running(s.status) && s.entrypoint != "" && !LikeSdk(s.entrypoint)
    ensures var m := Merged(r, s, mode, now); !m.archived && !m.autoArchived
  {}

  /** Whatever was swept away in the meantime: a session the operator has not archived is back in the working
      set as soon as it runs interactively. */
  lemma ResumeBringsBack(rows: Table, run: seq<Step>, s: Incoming, mode: LastSeenMode, now: int)
    requires Valid(rows) && Lookup(rows, s.id).Some? && !OwnArchive(Lookup(rows, s.id).value)
    requires forall i :: 0 <= i < |run| ==> !Deletes(run[i], s.id) && !Archives(run[i], s.id)
    requires Running(s.status) && s.entrypoint != "" && !LikeSdk(s.entrypoint)
    ensures var r := Lookup(Next(Final(rows, run), Upsert(s, mode, now)), s.id);
      r.Some? && !r.value.archived && !r.value.autoArchived
  {
    NeverOwnUnasked(rows, run, s.id);
    LookupUpsert(Final(rows, run), s, mode, now, s.id);
    MergedComesBack(Lookup(Final(rows, run), s.id).value, s, mode, now);
  }

  /** Steps by which a session in view may leave it although it is pinned or in a project: the operator's own,
      and its being found headless. */
  predicate MayHide(st: Step, id: string) {
    Archives(st, id) || (st.Upsert? && st.s.id == id && st.s.hideHeadless && Headless(st.s.entrypoint))
  }

  predicate TakesMark(st: Step, id: string) {
    (st.SetFavorite? && st.id == id && !st.v) || (st.SetProject? && st.id == id && st.project == "")
  }

  predicate Marked(r: Row) {
    r.favorite || r.project != ""
  }

  lemma RowStaysInView(rows: Table, st: Step, r: Row)
    requires !r.archived && !r.autoArchived && Marked(r)
    requires !Deletes(st, r.id) && !MayHide(st, r.id) && !TakesMark(st, r.id)
    ensures var n := RowAfter(rows, st, r); n.Some? && !n.value.archived && !n.value.autoArchived && Marked(n.value)
  {}

  /** The sweep never takes a session that carries one of the operator's marks. */
  lemma {:induction false} MarksProtect(rows: Table, run: seq<Step>, id: string)
    requires Valid(rows) && Lookup(rows, id).Some?
    requires var r := Lookup(rows, id).value; !r.archived && !r.autoArchived && Marked(r)
    requires forall i :: 0 <= i < |run| ==> !Deletes(run[i], id) && !MayHide(run[i], id) && !TakesMark(run[i], id)
    ensures var r := Lookup(Final(rows, run), id); r.Some? && !r.value.archived && Marked(r.value)
    decreases run
  {
    if run != [] {
      LookupNext(rows, run[0], id);
      RowStaysInView(rows, run[0], Lookup(rows, id).value);
      MarksProtect(Next(rows, run[0]), run[1..], id);
    }
  }

  // ---- NEW ----

  /** Something has happened that the operator has not looked at. */
  predicate New(r: Row) {
    r.lastActivity > r.seenAt
  }

  predicate ActiveSince(st: Step, id: string, since: int) {
    (st.Upsert? && st.s.id == id && st.s.lastActivity > since) || (st.MarkSeen? && st.id == id && st.now < since)
  }

  lemma RowStaysSeen(rows: Table, st: Step, r: Row, since: int)
    requires !New(r) && r.seenAt >= since && !Deletes(st, r.id) && !ActiveSince(st, r.id, since)
    ensures var n := RowAfter(rows, st, r); n.Some? && !New(n.value) && n.value.seenAt >= since
  {}

  /** A session looked at stays seen through any run, until it is active later than the look. */
  lemma {:induction false} SeenStaysSeen(rows: Table, run: seq<Step>, id: string, since: int)
    requires Valid(rows) && Lookup(rows, id).Some?
    requires !New(Lookup(rows, id).value) && Lookup(rows, id).value.seenAt >= since
    requires forall i :: 0 <= i < |run| ==> !Deletes(run[i], id) && !ActiveSince(run[i], id, since)
    ensures var r := Lookup(Final(rows, run), id); r.Some? && !New(r.value)
    decreases run
  {
    if run != [] {
      LookupNext(rows, run[0], id);
      RowStaysSeen(rows, run[0], Lookup(rows, id).value, since);
      SeenStaysSeen(Next(rows, run[0]), run[1..], id, since);
    }
  }

  /** And a look does make it seen, and reads an unread "done" and nothing else. */
  lemma LookMakesSeen(rows: Table, id: string, now: int)
    requires Valid(rows) && Lookup(rows, id).Some?
    ensures var r, n := Lookup(rows, id).value, Lookup(Next(rows, MarkSeen(id, now)), id);
      && n.Some? && !New(n.value) && n.value.seenAt == (if now >= r.lastActivity then now else r.lastActivity)
      && n.value.attention == (if r.attention == DONE then "" else r.attention)
  {
    LookupNext(rows, MarkSeen(id, now), id);
  }

  // ---- what an upsert and its like leave ----

  /** A known session takes the status given, the entrypoint if one is given, the later of the two activities, and a
      last-seen time by the mode; a missing time is now. */
  lemma UpsertGives(rows: Table, s: Incoming, mode: LastSeenMode, now: int)
    requires Valid(rows) && Lookup(rows, s.id).Some?
    ensures var r := Lookup(rows, s.id).value; var n := Lookup(Next(rows, Upsert(s, mode, now)), s.id);
      && n.Some? && n.value.status == s.status
      && n.value.entrypoint == (if s.entrypoint == "" then r.entrypoint else s.entrypoint)
      && n.value.lastActivity == (if s.lastActivity >= r.lastActivity then s.lastActivity else r.lastActivity)
      && var given := if s.lastSeen.Some? then s.lastSeen.value else now;
      && (mode.Keep? ==> n.value.lastSeen == r.lastSeen)
      && (mode.Overwrite? ==> n.value.lastSeen == given)
      && (mode.Later? ==> n.value.lastSeen == if given >= r.lastSeen then given else r.lastSeen)
  {
    LookupUpsert(rows, s, mode, now, s.id);
  }

  /** A new one takes the times given or now, counts as seen now, and is in view unless it is to be filed. */
  lemma InsertGives(rows: Table, s: Incoming, mode: LastSeenMode, now: int)
    requires Valid(rows) && Lookup(rows, s.id).None?
    ensures var n := Lookup(Next(rows, Upsert(s, mode, now)), s.id);
      && n.Some? && n.value.status == s.status && n.value.entrypoint == s.entrypoint
      && n.value.firstSeen == (if s.firstSeen.Some? then s.firstSeen.value else now)
      && n.value.lastSeen == (if s.lastSeen.Some? then s.lastSeen.value else now)
      && n.value.lastActivity == s.lastActivity && n.value.seenAt == now
      && !n.value.favorite && n.value.project == "" && n.value.wait == "" && n.value.attention == ""
      && (n.value.archived <==> s.hideHeadless && Headless(s.entrypoint)) && n.value.autoArchived == n.value.archived
  {
    LookupUpsert(rows, s, mode, now, s.id);
  }

  /** A session that is active after it was looked at is new again, also when it was filed or archived. */
  lemma ActivityMakesNew(rows: Table, s: Incoming, mode: LastSeenMode, now: int)
    requires Valid(rows) && Lookup(rows, s.id).Some? && s.lastActivity > Lookup(rows, s.id).value.seenAt
    ensures var n := Lookup(Next(rows, Upsert(s, mode, now)), s.id); n.Some? && New(n.value)
  {
    LookupUpsert(rows, s, mode, now, s.id);
  }

  /** From a look on, through any run without another look or activity after it, it is new by an upsert exactly when
      that brings activity after the look. */
  lemma NewIffActive(rows: Table, run: seq<Step>, s: Incoming, mode: LastSeenMode, now: int, looked: int)
    requires Valid(rows) && Lookup(rows, s.id).Some?
    requires Lookup(rows, s.id).value.seenAt == looked >= Lookup(rows, s.id).value.lastActivity
    requires forall i :: 0 <= i < |run| ==>
      !Deletes(run[i], s.id) && !ActiveSince(run[i], s.id, looked) && !Looks(run[i], s.id)
    ensures var n := Lookup(Next(Final(rows, run), Upsert(s, mode, now)), s.id);
      n.Some? && (New(n.value) <==> s.lastActivity > looked)
  {
    SeenExactly(rows, run, s.id, looked);
    NewIffLater(Final(rows, run), s, mode, now, looked);
  }

  lemma NewIffLater(rows: Table, s: Incoming, mode: LastSeenMode, now: int, looked: int)
    requires Valid(rows) && Lookup(rows, s.id).Some?
    requires Lookup(rows, s.id).value.seenAt == looked >= Lookup(rows, s.id).value.lastActivity
    ensures var n := Lookup(Next(rows, Upsert(s, mode, now)), s.id); n.Some? && (New(n.value) <==> s.lastActivity > looked)
  {
    LookupUpsert(rows, s, mode, now, s.id);
  }

  predicate Looks(st: Step, id: string) {
    st.MarkSeen? && st.id == id
  }

  lemma RowSeenExactly(rows: Table, st: Step, r: Row, looked: int)
    requires r.seenAt == looked >= r.lastActivity && !Deletes(st, r.id) && !ActiveSince(st, r.id, looked) && !Looks(st, r.id)
    ensures var n := RowAfter(rows, st, r); n.Some? && n.value.seenAt == looked >= n.value.lastActivity
  {}

  lemma {:induction false} SeenExactly(rows: Table, run: seq<Step>, id: string, looked: int)
    requires Valid(rows) && Lookup(rows, id).Some?
    requires Lookup(rows, id).value.seenAt == looked >= Lookup(rows, id).value.lastActivity
    requires forall i :: 0 <= i < |run| ==> !Deletes(run[i], id) && !ActiveSince(run[i], id, looked) && !Looks(run[i], id)
    ensures Valid(Final(rows, run))
    ensures var r := Lookup(Final(rows, run), id); r.Some? && r.value.seenAt == looked >= r.value.lastActivity
    decreases run
  {
    if run != [] {
      LookupNext(rows, run[0], id);
      RowSeenExactly(rows, run[0], Lookup(rows, id).value, looked);
      SeenExactly(Next(rows, run[0]), run[1..], id, looked);
    }
  }

  /** In or out of view after an upsert.  A session in view leaves it exactly when it turns out headless within an hour
      of its first hook, by an upsert that is to hide such; an auto-archived one comes back exactly when it is not
      headless, and runs or was seen later; the operator's own archive stays. */
  lemma UpsertFlags(r: Row, s: Incoming, mode: LastSeenMode, now: int)
    ensures var n := Merged(r, s, mode, now);
      var entry := if s.entrypoint == "" then r.entrypoint else s.entrypoint;
      var given := if s.lastSeen.Some? then s.lastSeen.value else now;
      && (!r.archived && !r.autoArchived ==>
            (n.archived <==> s.hideHeadless && Headless(s.entrypoint) && r.entrypoint == "" && r.firstSeen >= now - 3600)
            && n.autoArchived == n.archived)
      && (r.archived && r.autoArchived ==>
            (!n.archived <==> !LikeSdk(entry) && (s.status == Active || s.status == Idle || given > r.lastSeen))
            && n.autoArchived == n.archived)
      && (r.archived && !r.autoArchived ==> n.archived && !n.autoArchived)
  {}

  /** Headless to the program is headless to the statement, which also takes other spellings for it. */
  lemma HeadlessIsLike(e: string)
    ensures Headless(e) <==> |e| >= 4 && e[0] == 's' && e[1] == 'd' && e[2] == 'k' && e[3] == '-'
    ensures Headless(e) ==> LikeSdk(e)
    ensures LikeSdk("SDK-ts") && LikeSdk("Sdk-") && !Headless("SDK-ts") && !LikeSdk("cli") && !LikeSdk("sdk")
  {
    if |e| >= 4 {
      assert e[..4] == [e[0], e[1], e[2], e[3]];
    }
  }

  /** A Touch sets both, and brings back what was auto-archived, and only that. */
  lemma TouchGives(rows: Table, id: string, status: Status, now: int)
    requires Valid(rows) && Lookup(rows, id).Some?
    ensures var r := Lookup(rows, id).value; var n := Lookup(Next(rows, Touch(id, status, now)), id);
      && n.Some? && n.value.status == status && n.value.lastSeen == now
      && (n.value.archived <==> OwnArchive(r)) && !n.value.autoArchived
  {
    LookupNext(rows, Touch(id, status, now), id);
  }

  /** The operator's archive is what the operator says. */
  lemma OperatorArchives(rows: Table, id: string, v: bool)
    requires Valid(rows) && Lookup(rows, id).Some?
    ensures var n := Lookup(Next(rows, SetArchived(id, v)), id);
      n.Some? && n.value.archived == v && (v ==> OwnArchive(n.value)) && !n.value.autoArchived
  {
    LookupNext(rows, SetArchived(id, v), id);
  }
}
