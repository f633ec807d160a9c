/** The database object: one table of session rows that the statements and the hook handlers update in place. */
module SessionDatabase {
  import opened Options
  import opened Sessions
  import opened Waits

  /** An UPDATE … WHERE session_id = id touches one row at most. */
  lemma UpdateOne(rows: Table, st: Step, id: string)
    requires UniqueIds(rows) && forall r: Row :: r.id != id ==> Updated(r, st) == r
    ensures var i := Index(rows, id);
      UpdateAll(rows, st) == if i < |rows| then rows[i := Updated(rows[i], st)] else rows
  {}

  lemma NumberNext(rows: Table, n: nat)
    ensures var i := FirstUnnumbered(rows, |rows|);
      i < |rows| ==>
        var next := rows[i := rows[i].(num := Some(n + 1))];
        Unnumbered(next) < Unnumbered(rows) && Numbered(rows, n) == Numbered(next, n + 1)
  {
    var i := FirstUnnumbered(rows, |rows|);
    if i < |rows| { UnnumberedDrops(rows, i, n + 1); }
  }

  function Stamp(r: Row, now: int): Row {
    r.(seenAt := MaxOf(now, r.lastActivity))
  }

  function Stamped(rows: Table, i: nat, now: int): Table {
    if i < |rows| then rows[i := Stamp(rows[i], now)] else rows
  }

  lemma SeenRow(r: Row, id: string, now: int)
    ensures Updated(if r.id == id then Stamp(r, now) else r, ClearAttention(id, DONE)) == Updated(r, MarkSeen(id, now))
  {}

  lemma StampedValid(rows: Table, i: nat, now: int)
    requires Valid(rows)
    ensures Valid(Stamped(rows, i, now)) && i < |rows| ==> Index(Stamped(rows, i, now), rows[i].id) == i
  {
    var t := Stamped(rows, i, now);
    assert forall j :: 0 <= j < |rows| ==> t[j].id == rows[j].id && t[j].num == rows[j].num;
    if i < |rows| {
      LookupAt(t, i);
    }
  }

  lemma SeenInTwo(rows: Table, id: string, now: int)
    requires Valid(rows)
    ensures var t := Stamped(rows, Index(rows, id), now);
      Valid(t) && Next(t, ClearAttention(id, DONE)) == Next(rows, MarkSeen(id, now))
  {
    var i := Index(rows, id);
    var t := Stamped(rows, i, now);
    StampedValid(rows, i, now);
    var a, b := UpdateAll(t, ClearAttention(id, DONE)), UpdateAll(rows, MarkSeen(id, now));
    forall k | 0 <= k < |rows| ensures a[k] == b[k] {
      assert rows[k].id == id <==> k == i;
      SeenRow(rows[k], id, now);
    }
    assert a == b;
  }

  ghost predicate NewLast(rows: Table, after: Table, id: string) {
    && |after| == |rows| + 1 && after[|rows|].id == id && after[|rows|].num.Some?
    && forall i :: 0 <= i < |rows| && rows[i].num.Some? ==> rows[i].num.value < after[|rows|].num.value
  }

  /** The same session before and after an upsert. */
  predicate Kin(was: Option<Row>, after: Option<Row>, mode: LastSeenMode) {
    was.Some? ==>
      var r, n := was.value, if after.Some? then after.value else was.value;
      && after.Some?
      && n.id == r.id && n.num == r.num && n.firstSeen == r.firstSeen
      && n.favorite == r.favorite && n.project == r.project && n.seenAt == r.seenAt
      && n.wait == r.wait && n.waitNote == r.waitNote && n.waitStopped == r.waitStopped
      && n.attention == r.attention && n.reason == r.reason
      && (mode.Keep? ==> n.lastSeen == r.lastSeen) && (mode.Later? ==> n.lastSeen >= r.lastSeen)
  }

  predicate Idling(r: Row, before: int) {
    !r.archived && !r.favorite && r.project == "" && !Running(r.status) && r.lastSeen < before
  }

  /** What the sweep makes of a row. */
  predicate SweptTo(r: Row, n: Row, before: int) {
    n == if Idling(r, before) then r.(archived := true, autoArchived := true) else r
  }

  function CountIdling(rows: Table, before: int): nat {
    if rows == [] then 0
    else CountIdling(rows[..|rows| - 1], before) + if Idling(rows[|rows| - 1], before) then 1 else 0
  }

  lemma SweptAll(rows: Table, after: Table, before: int)
    requires Valid(rows) && |after| == |rows| && forall j :: 0 <= j < |rows| ==> after[j] == Swept(rows[j], before)
    ensures Valid(after) && after == Next(rows, AutoArchive(before))
    ensures forall j :: 0 <= j < |rows| ==> SweptTo(rows[j], after[j], before)
  {
    UpdateKeeps(rows, AutoArchive(before));
    assert after == UpdateAll(rows, AutoArchive(before));
  }

  function Started(s: Incoming, resume: bool, now: int): Incoming {
    s.(status := Active, lastActivity := if resume then 0 else now)
  }

  function Closed(s: Incoming): Incoming {
    s.(status := Stopped, lastActivity := 0)
  }

  /** Neither the place in the list nor what is new has changed. */
  predicate SameTimes(was: Option<Row>, after: Option<Row>) {
    was.Some? && after.Some? && was.value.lastActivity >= 0 ==>
      after.value.lastSeen == was.value.lastSeen && after.value.lastActivity == was.value.lastActivity
  }

  class Database {
    var rows: Table

    constructor ()
      ensures rows == After([])
    {
      rows := [];
    }

    /** No other session changes; a new one comes last, numbered above all others; a known one keeps its number,
        the operator's marks and what it declared, takes the status, the activity and the entrypoint given, and its
        last-seen time moves as the mode says. */
    method UpsertSession(s: Incoming, mode: LastSeenMode, now: int)
      requires Valid(rows)
      modifies this
      ensures Valid(rows) && rows == Next(old(rows), Upsert(s, mode, now))
      ensures forall i :: 0 <= i < |old(rows)| && old(rows)[i].id != s.id ==> i < |rows| && rows[i] == old(rows)[i]
      ensures Lookup(old(rows), s.id).None? ==> NewLast(old(rows), rows, s.id)
      ensures Lookup(old(rows), s.id).Some? ==> |rows| == |old(rows)|
      ensures Kin(Lookup(old(rows), s.id), Lookup(rows, s.id), mode)
      ensures Lookup(old(rows), s.id).Some? ==>
        var r, n := Lookup(old(rows), s.id).value, Lookup(rows, s.id).value;
        && n.status == s.status && n.lastActivity == MaxOf(r.lastActivity, s.lastActivity)
        && n.entrypoint == if s.entrypoint == "" then r.entrypoint else s.entrypoint
    {
      UpsertKeeps(rows, s, mode, now);
      LookupUpsert(rows, s, mode, now, s.id);
      var i := Index(rows, s.id);
      if i == |rows| {
        rows := rows + [Inserted(rows, s, now)];
      } else {
        rows := rows[i := Merged(rows[i], s, mode, now)];
      }
    }

    method TouchSession(id: string, status: Status, now: int)
      requires Valid(rows)
      modifies this
      ensures Valid(rows) && rows == Next(old(rows), Touch(id, status, now))
    {
      StepKeeps(rows, Touch(id, status, now));
      UpdateOne(rows, Touch(id, status, now), id);
      var i := Index(rows, id);
      if i < |rows| {
        var archived := if rows[i].autoArchived then false else rows[i].archived;
        rows := rows[i := rows[i].(lastSeen := now, status := status, archived := archived, autoArchived := false)];
      }
    }

    method ArchiveSession(id: string, v: bool)
      requires Valid(rows)
      modifies this
      ensures Valid(rows) && rows == Next(old(rows), SetArchived(id, v))
    {
      StepKeeps(rows, SetArchived(id, v));
      UpdateOne(rows, SetArchived(id, v), id);
      var i := Index(rows, id);
      if i < |rows| {
        rows := rows[i := rows[i].(archived := v, autoArchived := false)];
      }
    }

    method DeclareWait(id: string, kind: string, note: string) returns (found: bool)
      requires Valid(rows)
      modifies this
      ensures Valid(rows) && rows == Next(old(rows), SetWait(id, kind, note))
      ensures found == Lookup(old(rows), id).Some? && (!found ==> rows == old(rows))
    {
      StepKeeps(rows, SetWait(id, kind, note));
      UpdateOne(rows, SetWait(id, kind, note), id);
      var i := Index(rows, id);
      found := i < |rows|;
      if found {
        var kept := if kind == "" then "" else note;
        rows := rows[i := rows[i].(wait := kind, waitNote := kept, waitStopped := false)];
      }
    }

    /** Whatever other statements change the table meanwhile. */
    method Others(between: seq<Step>)
      requires Valid(rows)
      modifies this
      ensures Valid(rows) && rows == Final(old(rows), between)
    {
      RunKeeps(rows, between);
      rows := Final(rows, between);
    }

    /** Reads the declaration, then marks it as having gone through a Stop or clears it. */
    method EndTurn(id: string, between: seq<Step>) returns (kind: string, note: string)
      requires Valid(rows)
      modifies this
      ensures Valid(rows) && rows == SecondHalf(Final(old(rows), between), id, Lookup(old(rows), id))
      ensures (kind, note) == TurnReport(old(rows), id)
    {
      var read := Lookup(rows, id);
      Others(between);
      if read.None? || read.value.wait == "" {
        return "", "";
      }
      if read.value.waitStopped {
        ghost var was := rows;
        var found := DeclareWait(id, "", "");
        assert !found ==> rows == was;
        return "", "";
      }
      StopMark(id);
      return read.value.wait, read.value.waitNote;
    }

    method StopMark(id: string)
      requires Valid(rows)
      modifies this
      ensures Valid(rows)
      ensures var i := Index(old(rows), id);
        rows == if i < |old(rows)| then old(rows)[i := old(rows)[i].(waitStopped := true)] else old(rows)
    {
      var i := Index(rows, id);
      if i < |rows| {
        ghost var was := rows;
        rows := rows[i := rows[i].(waitStopped := true)];
        assert forall j :: 0 <= j < |rows| ==> rows[j].id == was[j].id && rows[j].num == was[j].num;
      }
    }

    method MarkAttention(id: string, kind: string, reason: string)
      requires Valid(rows)
      modifies this
      ensures Valid(rows) && rows == Next(old(rows), SetAttention(id, kind, reason))
    {
      StepKeeps(rows, SetAttention(id, kind, reason));
      UpdateOne(rows, SetAttention(id, kind, reason), id);
      var i := Index(rows, id);
      if i < |rows| {
        rows := rows[i := rows[i].(attention := kind, reason := reason)];
      }
    }

    method DropAttention(id: string, only: string)
      requires Valid(rows)
      modifies this
      ensures Valid(rows) && rows == Next(old(rows), ClearAttention(id, only))
    {
      StepKeeps(rows, ClearAttention(id, only));
      UpdateOne(rows, ClearAttention(id, only), id);
      var i := Index(rows, id);
      if i < |rows| && (only == "" || rows[i].attention == only) {
        rows := rows[i := rows[i].(attention := "", reason := "")];
      }
    }

    /** Two statements: the time of the look, then the unread "done". */
    method Look(id: string, now: int)
      requires Valid(rows)
      modifies this
      ensures Valid(rows) && rows == Next(old(rows), MarkSeen(id, now))
    {
      StepKeeps(rows, MarkSeen(id, now));
      SeenInTwo(rows, id, now);
      var i := Index(rows, id);
      if i < |rows| {
        rows := rows[i := Stamp(rows[i], now)];
      }
      DropAttention(id, DONE);
    }

    /** Archives the sessions that nobody has pinned, put in a project, or touched since before, and that are not
        running; all others stay as they are.  Returns how many it archived. */
    method SweepArchive(before: int) returns (n: nat)
      requires Valid(rows)
      modifies this
      ensures Valid(rows) && rows == Next(old(rows), AutoArchive(before))
      ensures |rows| == |old(rows)| && forall i :: 0 <= i < |rows| ==> SweptTo(old(rows)[i], rows[i], before)
      ensures n == CountIdling(old(rows), before)
    {
      ghost var was := rows;
      n := 0;
      for i := 0 to |rows|
        invariant |rows| == |was| && n == CountIdling(was[..i], before)
        invariant forall j :: 0 <= j < |rows| ==> rows[j] == if j < i then Swept(was[j], before) else was[j]
      {
        assert was[..i + 1][..i] == was[..i];
        var hit := SweepRow(i, before);
        if hit {
          n := n + 1;
        }
      }
      assert was[..|was|] == was;
      SweptAll(was, rows, before);
    }

    method SweepRow(i: nat, before: int) returns (hit: bool)
      requires i < |rows|
      modifies this
      ensures rows == old(rows)[i := Swept(old(rows)[i], before)] && SweptTo(old(rows)[i], rows[i], before)
      ensures hit == Idling(old(rows)[i], before)
    {
      var r := rows[i];
      hit := !r.archived && !r.favorite && r.project == "" && !Running(r.status) && r.lastSeen < before;
      if hit {
        rows := rows[i := r.(archived := true, autoArchived := true)];
      } else {
        assert rows[i := r] == rows;
      }
    }

    method NumberOldSessions()
      requires Valid(rows)
      modifies this
      ensures Valid(rows) && rows == Next(old(rows), BackfillNums)
    {
      StepKeeps(rows, BackfillNums);
      ghost var goal := Next(rows, BackfillNums);
      var next, more := MaxNum(rows), true;
      while more
        invariant if more then Numbered(rows, next) == goal else rows == goal
        decreases more, Unnumbered(rows)
      {
        more := NumberFirst(next);
        next := next + 1;
      }
    }

    /** The oldest session without a number takes the next one. */
    method NumberFirst(last: nat) returns (more: bool)
      modifies this
      ensures !more ==> rows == old(rows) == Numbered(old(rows), last)
      ensures more ==> Unnumbered(rows) < Unnumbered(old(rows)) && Numbered(rows, last + 1) == Numbered(old(rows), last)
    {
      NumberNext(rows, last);
      var i := FirstUnnumbered(rows, |rows|);
      more := i < |rows|;
      if more {
        rows := rows[i := rows[i].(num := Some(last + 1))];
      }
    }

    method EnsureSession(s: Incoming, mode: LastSeenMode, now: int)
      requires Valid(rows)
      modifies this
      ensures Valid(rows) && rows == Ensured(old(rows), s, mode, now)
    {
      if s.id == "" {
        return;
      }
      UpsertSession(s, mode, now);
    }

    /** Opening a session again neither moves it in the list nor marks it as new; without an id nothing happens. */
    method HandleSessionStart(s: Incoming, resume: bool, now: int)
      requires Valid(rows)
      modifies this
      ensures Valid(rows) && rows == Ensured(old(rows), Started(s, resume, now), if resume then Keep else Later, now)
      ensures s.id == "" ==> rows == old(rows)
      ensures s.id != "" ==> Lookup(rows, s.id).Some?
      ensures s.id != "" && resume ==> SameTimes(Lookup(old(rows), s.id), Lookup(rows, s.id))
    {
      LookupNext(rows, Upsert(Started(s, resume, now), if resume then Keep else Later, now), s.id);
      EnsureSession(Started(s, resume, now), if resume then Keep else Later, now);
    }

    /** Nor does closing it. */
    method HandleSessionEnd(s: Incoming, now: int)
      requires Valid(rows)
      modifies this
      ensures Valid(rows) && rows == Ensured(old(rows), Closed(s), Keep, now)
      ensures s.id == "" ==> rows == old(rows)
      ensures s.id != "" ==> Lookup(rows, s.id).Some? && Lookup(rows, s.id).value.status.Stopped?
      ensures s.id != "" ==> SameTimes(Lookup(old(rows), s.id), Lookup(rows, s.id))
    {
      LookupNext(rows, Upsert(Closed(s), Keep, now), s.id);
      EnsureSession(Closed(s), Keep, now);
    }

    method HandleUserPrompt(s: Incoming, now: int, b1: seq<Step>, b2: seq<Step>)
      requires Valid(rows)
      modifies this
      ensures Valid(rows) && rows == PromptSplit(old(rows), s, now, b1, b2)
    {
      EnsureSession(s.(status := Active), Later, now);
      Others(b1);
      DropAttention(s.id, "");
      Others(b2);
      var _ := DeclareWait(s.id, "", "");
    }

    method HandleStop(s: Incoming, now: int, b1: seq<Step>, b2: seq<Step>, b3: seq<Step>)
      requires Valid(rows)
      modifies this
      ensures Valid(rows) && rows == StopSplit(old(rows), s, now, b1, b2, b3)
    {
      EnsureSession(s.(status := Idle), Keep, now);
      Others(b1);
      var kind, note := EndTurn(s.id, b2);
      Others(b3);
      if !Headless(s.entrypoint) {
        var mark := StopAttention(kind, note);
        MarkAttention(s.id, mark.0, mark.1);
      }
    }
  }
}
