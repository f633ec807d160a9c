/** The operator's projects: their display order, and what renaming and merging does to sessions and tasks. */
module Projects {
  import opened Order

  datatype Project = Project(name: string, ord: int, color: string)

  predicate Before(a: Project, b: Project) {
    a.ord < b.ord || (a.ord == b.ord && Less(a.name, b.name))
  }

  function Insert(p: Project, s: seq<Project>): seq<Project> {
    if s == [] || Before(p, s[0]) then [p] + s else [s[0]] + Insert(p, s[1..])
  }

  /** The rows in display order: by ord, then by name. */
  function Sorted(rows: seq<Project>): seq<Project> {
    if rows == [] then [] else Insert(rows[0], Sorted(rows[1..]))
  }

  function Names(rows: seq<Project>): (n: seq<string>)
    ensures |n| == |rows| && forall i :: 0 <= i < |rows| ==> n[i] == rows[i].name
  {
    seq(|rows|, i requires 0 <= i < |rows| => rows[i].name)
  }

  function ListNames(rows: seq<Project>): seq<string> {
    Names(Sorted(rows))
  }

  ghost predicate Distinct<T>(s: seq<T>) {
    forall i, j :: 0 <= i < j < |s| ==> s[i] != s[j]
  }

  ghost predicate Unique(rows: seq<Project>) {
    forall i, j :: 0 <= i < j < |rows| ==> rows[i].name != rows[j].name
  }

  ghost predicate Rising(s: seq<Project>) {
    forall i, j :: 0 <= i < j < |s| ==> Before(s[i], s[j])
  }

  // ---- the list is the only rising arrangement of the rows ----

  lemma BeforeOrder(a: Project, b: Project, c: Project)
    ensures !Before(a, a) && !(Before(a, b) && Before(b, a))
    ensures Before(a, b) && Before(b, c) ==> Before(a, c)
    ensures a.name != b.name ==> Before(a, b) || Before(b, a)
  {
    LessTotal(a.name, b.name);
    if Less(a.name, b.name) && Less(b.name, c.name) {
      LessTransitive(a.name, b.name, c.name);
    }
  }

  lemma {:induction false} InsertRises(p: Project, s: seq<Project>)
    requires Rising(s) && forall x <- s :: x.name != p.name
    ensures Rising(Insert(p, s)) && forall x :: x in Insert(p, s) <==> x == p || x in s
    ensures |Insert(p, s)| == |s| + 1
  {
    if s == [] {
    } else if Before(p, s[0]) {
      forall j | 0 <= j < |s| ensures Before(p, s[j]) {
        BeforeOrder(p, s[0], s[j]);
      }
    } else {
      InsertRises(p, s[1..]);
      BeforeOrder(s[0], p, p);
      var t := Insert(p, s[1..]);
      forall x | x in t ensures Before(s[0], x) {
        assert x == p || x in s[1..];
      }
      assert s == [s[0]] + s[1..];
    }
  }

  lemma {:induction false} SortedRises(rows: seq<Project>)
    requires Unique(rows)
    ensures Rising(Sorted(rows)) && |Sorted(rows)| == |rows| && forall x :: x in Sorted(rows) <==> x in rows
  {
    if rows != [] {
      SortedRises(rows[1..]);
      InsertRises(rows[0], Sorted(rows[1..]));
      assert rows == [rows[0]] + rows[1..];
    }
  }

  lemma {:induction false} RisingIsUnique(a: seq<Project>, b: seq<Project>)
    requires Rising(a) && Rising(b) && forall x :: x in a <==> x in b
    ensures a == b
  {
    if a != [] || b != [] {
      var y := (a + b)[0];
      assert y in a && y in b && a[0] in b && b[0] in a;
      var i :| 0 <= i < |b| && b[i] == a[0];
      var j :| 0 <= j < |a| && a[j] == b[0];
      if i > 0 && j > 0 {
        BeforeOrder(a[0], b[0], a[0]);
      }
      BeforeOrder(a[0], a[0], a[0]);
      forall x ensures x in a[1..] <==> x in b[1..] {
        assert x in a <==> x == a[0] || x in a[1..];
        assert x in b <==> x == b[0] || x in b[1..];
      }
      RisingIsUnique(a[1..], b[1..]);
    }
  }

  lemma ListIs(rows: seq<Project>, s: seq<Project>)
    requires Unique(rows) && Rising(s) && forall x :: x in s <==> x in rows
    ensures Sorted(rows) == s
  {
    SortedRises(rows);
    RisingIsUnique(Sorted(rows), s);
  }

  lemma ListHasNames(rows: seq<Project>)
    requires Unique(rows)
    ensures Distinct(ListNames(rows)) && |ListNames(rows)| == |rows|
    ensures forall n :: n in ListNames(rows) <==> n in Names(rows)
  {
    SortedRises(rows);
    var s := Sorted(rows);
    forall n ensures n in Names(s) <==> n in Names(rows) {
      if n in Names(s) { var i :| 0 <= i < |s| && s[i].name == n; assert s[i] in rows; }
      if n in Names(rows) { var i :| 0 <= i < |rows| && rows[i].name == n; assert rows[i] in s; }
    }
    forall i, j | 0 <= i < j < |s| ensures s[i].name != s[j].name {
      BeforeOrder(s[i], s[j], s[i]);
      assert s[i] in rows && s[j] in rows;
    }
  }

  // ---- a new order ----

  /** Without repetitions, each at its first place. */
  function Firsts(names: seq<string>): seq<string> {
    if names == [] then []
    else
      var n := |names| - 1;
      Firsts(names[..n]) + if names[n] in names[..n] then [] else [names[n]]
  }

  function Others(list: seq<string>, names: seq<string>): seq<string> {
    if list == [] then []
    else
      var n := |list| - 1;
      Others(list[..n], names) + if list[n] in names then [] else [list[n]]
  }

  /** The named projects first, then every other one as before. */
  function Arranged(names: seq<string>, list: seq<string>): seq<string> {
    Firsts(names) + Others(list, names)
  }

  function Place(s: seq<string>, n: string): (i: nat)
    ensures i <= |s| && (i < |s| ==> s[i] == n) && (i == |s| ==> n !in s)
    ensures forall j :: 0 <= j < i ==> s[j] != n
  {
    if s == [] then 0 else if s[0] == n then 0 else 1 + Place(s[1..], n)
  }

  lemma PlaceAppended(h: seq<string>, z: string, x: string)
    ensures Place(h + [z], x) == if x in h then Place(h, x) else if x == z then |h| else |h| + 1
  {
    var s := h + [z];
    assert forall j :: 0 <= j < |h| ==> s[j] == h[j];
    if x in h {
      assert s[Place(h, x)] == x;
    } else if x == z {
      assert s[|h|] == x;
    }
  }

  lemma PlaceIs(s: seq<string>, i: nat)
    requires Distinct(s) && i < |s|
    ensures Place(s, s[i]) == i
  {}

  ghost predicate InOrderOf(r: seq<string>, s: seq<string>) {
    forall i, j :: 0 <= i < j < |r| ==> Place(s, r[i]) < Place(s, r[j])
  }

  lemma InOrderAppended(r: seq<string>, h: seq<string>, z: string)
    requires InOrderOf(r, h) && forall x <- r :: x in h
    ensures InOrderOf(r, h + [z])
    ensures z !in h ==> InOrderOf(r + [z], h + [z])
  {
    forall i | 0 <= i < |r| ensures Place(h + [z], r[i]) == Place(h, r[i]) {
      assert r[i] in r;
      PlaceAppended(h, z, r[i]);
    }
    PlaceAppended(h, z, z);
  }

  lemma {:induction false} FirstsOrder(names: seq<string>)
    ensures Distinct(Firsts(names)) && InOrderOf(Firsts(names), names)
    ensures forall x :: x in Firsts(names) <==> x in names
  {
    if names != [] {
      var n := |names| - 1;
      FirstsOrder(names[..n]);
      assert names == names[..n] + [names[n]];
      InOrderAppended(Firsts(names[..n]), names[..n], names[n]);
    }
  }

  lemma {:induction false} OthersOrder(list: seq<string>, names: seq<string>)
    requires Distinct(list)
    ensures Distinct(Others(list, names)) && InOrderOf(Others(list, names), list)
    ensures forall x :: x in Others(list, names) <==> x in list && x !in names
  {
    if list != [] {
      var n := |list| - 1;
      OthersOrder(list[..n], names);
      assert list == list[..n] + [list[n]] && list[n] !in list[..n];
      InOrderAppended(Others(list[..n], names), list[..n], list[n]);
    }
  }

  /** In the new order: named before not named, the named by where they are first named, the rest as before. */
  ghost predicate Ahead(a: string, b: string, names: seq<string>, list: seq<string>) {
    if a in names then b in names ==> Place(names, a) < Place(names, b)
    else b !in names && Place(list, a) < Place(list, b)
  }

  lemma ArrangedOrder(names: seq<string>, list: seq<string>, i: nat, j: nat)
    requires Distinct(list) && i < j < |Arranged(names, list)|
    ensures Ahead(Arranged(names, list)[i], Arranged(names, list)[j], names, list)
  {
    FirstsOrder(names);
    OthersOrder(list, names);
    var f, o := Firsts(names), Others(list, names);
    if i < |f| {
      assert f[i] in names;
      assert j >= |f| ==> o[j - |f|] in o;
    } else {
      assert o[i - |f|] in o && o[j - |f|] in o;
    }
  }

  /** The new order is a permutation of all projects, and the only one that Ahead allows. */
  lemma ArrangedIsPermutation(names: seq<string>, list: seq<string>)
    requires Distinct(list) && forall n <- names :: n in list
    ensures var a := Arranged(names, list);
      && Distinct(a) && |a| == |list| && (forall x :: x in a <==> x in list)
      && forall i, j :: 0 <= i < j < |a| ==> Ahead(a[i], a[j], names, list)
  {
    FirstsOrder(names);
    OthersOrder(list, names);
    var a := Arranged(names, list);
    var f, o := Firsts(names), Others(list, names);
    assert forall i :: 0 <= i < |f| ==> f[i] in names;
    assert forall i :: 0 <= i < |o| ==> o[i] in o;
    SameLength(a, list);
    forall i, j | 0 <= i < j < |a| ensures Ahead(a[i], a[j], names, list) {
      ArrangedOrder(names, list, i, j);
    }
  }

  lemma {:induction false} SameLength(a: seq<string>, b: seq<string>)
    requires Distinct(a) && Distinct(b) && forall x :: x in a <==> x in b
    ensures |a| == |b|
  {
    if a != [] || b != [] {
      var y := (a + b)[0];
      assert y in a && y in b && a[0] in b;
      var k := Place(b, a[0]);
      var c := b[..k] + b[k + 1..];
      forall x ensures x in a[1..] <==> x in c {
        assert x in b <==> x == b[k] || x in c;
        assert x in a <==> x == a[0] || x in a[1..];
      }
      SameLength(a[1..], c);
    }
  }

  /** A full list of the projects, each once, is taken as it is. */
  lemma ArrangedFull(names: seq<string>, list: seq<string>)
    requires Distinct(names) && forall x :: x in names <==> x in list
    ensures Arranged(names, list) == names
  {
    FirstsSame(names);
    OthersNone(list, names);
  }

  lemma {:induction false} FirstsSame(names: seq<string>)
    requires Distinct(names)
    ensures Firsts(names) == names
  {
    if names != [] {
      var n := |names| - 1;
      FirstsSame(names[..n]);
      assert names[n] !in names[..n];
      assert names == names[..n] + [names[n]];
    }
  }

  lemma {:induction false} OthersNone(list: seq<string>, names: seq<string>)
    requires forall x :: x in list ==> x in names
    ensures Others(list, names) == []
  {
    if list != [] {
      OthersNone(list[..|list| - 1], names);
    }
  }

  /** Every row's ord becomes its place in the order. */
  function Renumbered(rows: seq<Project>, order: seq<string>): (t: seq<Project>)
    ensures |t| == |rows|
  {
    seq(|rows|, i requires 0 <= i < |rows| =>
      if rows[i].name in order then rows[i].(ord := Place(order, rows[i].name)) else rows[i])
  }

  lemma RenumberedLists(rows: seq<Project>, order: seq<string>)
    requires Unique(rows) && Distinct(order) && forall n :: n in order <==> n in Names(rows)
    ensures Unique(Renumbered(rows, order)) && ListNames(Renumbered(rows, order)) == order
  {
    var t, names := Renumbered(rows, order), Names(rows);
    assert forall n :: n in order ==> Place(names, n) < |rows|;
    var s := seq(|order|, i requires 0 <= i < |order| =>
      if Place(names, order[i]) < |rows| then t[Place(names, order[i])] else Project("", 0, ""));
    forall i | 0 <= i < |order| ensures s[i] in t && s[i].name == order[i] && s[i].ord == i {
      assert order[i] in order;
      assert s[i] == t[Place(names, order[i])];
      assert Place(order, order[i]) == i;
    }
    forall x | x in t ensures x in s {
      var k :| 0 <= k < |t| && t[k] == x;
      assert names[k] in order;
      var i := Place(order, names[k]);
      assert s[i].name == names[k];
      assert Place(names, order[i]) == k;
      assert s[i] == x;
    }
    assert Names(s) == order;
    ListIs(t, s);
  }

  // ---- moving one project ----

  function Clamp(i: int, n: nat): int
    requires n > 0
  {
    var lo := if i > 0 then i else 0;
    if lo < n - 1 then lo else n - 1
  }

  /** Taken out at one place and put back in at another. */
  function Moved<T>(s: seq<T>, at: nat, to: nat): (r: seq<T>)
    requires at < |s| && to < |s|
    ensures |r| == |s| && r[to] == s[at]
  {
    var rest := s[..at] + s[at + 1..];
    rest[..to] + [s[at]] + rest[to..]
  }

  lemma MovedBack<T>(s: seq<T>, at: nat, to: nat)
    requires at < |s| && to < |s|
    ensures Moved(Moved(s, at, to), to, at) == s
  {
    var rest := s[..at] + s[at + 1..];
    var m := Moved(s, at, to);
    assert m[..to] == rest[..to] && m[to + 1..] == rest[to..];
    assert m[..to] + m[to + 1..] == rest;
    assert rest[..at] == s[..at] && rest[at..] == s[at + 1..];
  }

  lemma MovedPermutes<T>(s: seq<T>, at: nat, to: nat)
    requires at < |s| && to < |s| && Distinct(s)
    ensures Distinct(Moved(s, at, to)) && forall x :: x in Moved(s, at, to) <==> x in s
  {
    var m := Moved(s, at, to);
    assert forall k :: 0 <= k < |s| ==> m[k] == s[if k == to then at else if at <= k < to then k + 1 else if to < k <= at then k - 1 else k];
    forall x ensures x in m <==> x in s {
      if x in s {
        var i :| 0 <= i < |s| && s[i] == x;
        var k := if i == at then to else if at < i <= to then i - 1 else if to <= i < at then i + 1 else i;
        assert m[k] == x;
      }
    }
  }

  function MovedBy(list: seq<string>, name: string, delta: int): seq<string> {
    var at := Place(list, name);
    if at == |list| then list else Moved(list, at, Clamp(at + delta, |list|))
  }

  lemma MovedPlace(list: seq<string>, name: string, to: nat)
    requires Distinct(list) && name in list && to < |list|
    ensures Place(list, name) < |list| && Place(Moved(list, Place(list, name), to), name) == to
  {}

  lemma MovedNowhere<T>(s: seq<T>, at: nat)
    requires at < |s|
    ensures Moved(s, at, at) == s
  {}

  lemma MoveIsFullOrder(list: seq<string>, name: string, delta: int)
    requires Distinct(list) && name in list
    ensures var m := MovedBy(list, name, delta);
      (forall x :: x in m <==> x in list) && Arranged(m, list) == m
  {
    var at := Place(list, name);
    MovedPermutes(list, at, Clamp(at + delta, |list|));
    ArrangedFull(MovedBy(list, name, delta), list);
  }

  /** The ends do not cut the move short, or it starts at the end it leads away from. */
  predicate ComesBack(at: nat, delta: int, n: nat) {
    0 <= at + delta < n || (at == 0 && delta > 0) || (at == n - 1 && delta < 0)
  }

  lemma ClampComesBack(at: nat, delta: int, n: nat)
    requires at < n
    ensures Clamp(Clamp(at + delta, n) - delta, n) == at <==> ComesBack(at, delta, n)
  {}

  lemma {:induction false} MoveTwice(list: seq<string>, name: string, to: nat, end: nat)
    requires Distinct(list) && name in list && to < |list| && end < |list|
    ensures Place(list, name) < |list| && (Moved(Moved(list, Place(list, name), to), to, end) == list <==> end == Place(list, name))
  {
    var at := Place(list, name);
    MovedBack(list, at, to);
    var back := Moved(Moved(list, at, to), to, end);
    assert back[end] == name;
    if back == list {
      PlaceIs(list, end);
    }
  }

  /** The project ends up as many places further as the list allows, and the others keep their order. */
  lemma MoveIs(list: seq<string>, name: string, delta: int)
    requires Distinct(list) && name in list
    ensures var at, m := Place(list, name), MovedBy(list, name, delta);
      && |m| == |list|
      && Place(m, name) == (if at + delta < 0 then 0 else if at + delta >= |list| then |list| - 1 else at + delta)
      && m[..Place(m, name)] + m[Place(m, name) + 1..] == list[..at] + list[at + 1..]
  {
    var at := Place(list, name);
    var to := Clamp(at + delta, |list|);
    MovedPlace(list, name, to);
    MovedRest(list, at, to);
  }

  lemma MovedRest<T>(s: seq<T>, at: nat, to: nat)
    requires at < |s| && to < |s|
    ensures Moved(s, at, to)[..to] + Moved(s, at, to)[to + 1..] == s[..at] + s[at + 1..]
  {
    var rest := s[..at] + s[at + 1..];
    assert Moved(s, at, to)[..to] == rest[..to] && Moved(s, at, to)[to + 1..] == rest[to..];
  }

  lemma SecondMove(m: seq<string>, name: string, delta: int, to: nat)
    requires Place(m, name) == to < |m|
    ensures MovedBy(m, name, -delta) == Moved(m, to, Clamp(to - delta, |m|))
  {}

  lemma FirstMove(list: seq<string>, name: string, delta: int, to: nat)
    requires Distinct(list) && name in list && to == Clamp(Place(list, name) + delta, |list|)
    ensures var m := MovedBy(list, name, delta);
      && Place(list, name) < |list| == |m| && Place(m, name) == to
      && forall end: nat :: end < |m| ==> (Moved(m, to, end) == list <==> end == Place(list, name))
  {
    MovedPlace(list, name, to);
    forall end: nat | end < |list| ensures Moved(Moved(list, Place(list, name), to), to, end) == list <==> end == Place(list, name) {
      MoveTwice(list, name, to, end);
    }
  }

  /** A move is undone by the opposite move, always when the ends do not cut it short; and exactly then or when
      it starts at the end it leads away from. */
  lemma {:induction false} MoveAndBackIff(list: seq<string>, name: string, delta: int)
    requires Distinct(list) && name in list
    ensures MovedBy(MovedBy(list, name, delta), name, -delta) == list
      <==> ComesBack(Place(list, name), delta, |list|)
  {
    var at := Place(list, name);
    var to := Clamp(at + delta, |list|);
    FirstMove(list, name, delta, to);
    SecondMove(MovedBy(list, name, delta), name, delta, to);
    ClampComesBack(at, delta, |list|);
  }

  // ---- the tables ----

  /** A session or task table: which project each row is in ("" is none). */
  type Members = map<string, string>

  function Reassigned(m: Members, before: string, after: string): Members {
    map k | k in m :: if m[k] == before then after else m[k]
  }

  ghost function In(m: Members, project: string): set<string> {
    set k | k in m && m[k] == project
  }

  function WithOrd(rows: seq<Project>, name: string, ord: int): (t: seq<Project>)
    ensures |t| == |rows|
  {
    seq(|rows|, i requires 0 <= i < |rows| => if rows[i].name == name then rows[i].(ord := ord) else rows[i])
  }

  function MinOrd(rows: seq<Project>): (m: int)
    requires rows != []
    ensures forall p <- rows :: m <= p.ord
    ensures exists p <- rows :: m == p.ord
  {
    if |rows| == 1 then rows[0].ord
    else
      var m := MinOrd(rows[1..]);
      if rows[0].ord < m then rows[0].ord else m
  }

  lemma RisingFrom(p: Project, s: seq<Project>)
    requires Rising(s) && forall q <- s :: p.ord < q.ord
    ensures Rising([p] + s)
  {}

  lemma UniqueWith(rows: seq<Project>, p: Project)
    requires Unique(rows) && p.name !in Names(rows)
    ensures Unique(rows + [p]) && forall x :: x in [p] + Sorted(rows) <==> x in rows + [p]
  {
    SortedRises(rows);
    assert forall i :: 0 <= i < |rows| ==> Names(rows)[i] == rows[i].name;
  }

  lemma NewestFirst(rows: seq<Project>, p: Project)
    requires Unique(rows) && p.name !in Names(rows) && forall q <- rows :: p.ord < q.ord
    ensures Unique(rows + [p]) && ListNames(rows + [p]) == [p.name] + ListNames(rows)
  {
    SortedRises(rows);
    UniqueWith(rows, p);
    RisingFrom(p, Sorted(rows));
    ListIs(rows + [p], [p] + Sorted(rows));
    assert Names([p] + Sorted(rows)) == [p.name] + Names(Sorted(rows));
  }

  /** The rows but for one, listed as before. */
  function Without(rows: seq<Project>, name: string): seq<Project> {
    if rows == [] then []
    else (if rows[0].name == name then [] else [rows[0]]) + Without(rows[1..], name)
  }

  lemma {:induction false} WithoutHas(rows: seq<Project>, name: string)
    ensures forall x :: x in Without(rows, name) <==> x in rows && x.name != name
  {
    if rows != [] {
      WithoutHas(rows[1..], name);
      assert rows == [rows[0]] + rows[1..];
    }
  }

  lemma {:induction false} WithoutUnique(rows: seq<Project>, name: string)
    requires Unique(rows)
    ensures Unique(Without(rows, name))
  {
    if rows != [] {
      WithoutUnique(rows[1..], name);
      WithoutHas(rows[1..], name);
      assert forall x <- Without(rows[1..], name) :: x in rows[1..];
    }
  }

  lemma {:induction false} WithoutRising(rows: seq<Project>, name: string)
    requires Rising(rows)
    ensures Rising(Without(rows, name))
  {
    if rows != [] {
      WithoutRising(rows[1..], name);
      WithoutHas(rows[1..], name);
      assert forall x <- Without(rows[1..], name) :: x in rows[1..];
    }
  }

  lemma WithoutLists(rows: seq<Project>, name: string)
    requires Unique(rows)
    ensures Unique(Without(rows, name)) && Sorted(Without(rows, name)) == Without(Sorted(rows), name)
  {
    SortedRises(rows);
    WithoutHas(rows, name);
    WithoutHas(Sorted(rows), name);
    WithoutUnique(rows, name);
    WithoutRising(Sorted(rows), name);
    ListIs(Without(rows, name), Without(Sorted(rows), name));
  }

  function PlacedBelow(p: Project, order: seq<string>, i: nat): Project {
    if Place(order, p.name) < i then p.(ord := Place(order, p.name)) else p
  }

  class ProjectTables {
    var projects: seq<Project>
    var sessions: Members
    var tasks: Members

    /** Names are the key, and a session is only ever in a project that has a row. */
    ghost predicate Valid() reads this {
      Unique(projects) && forall k <- sessions :: sessions[k] == "" || sessions[k] in Names(projects)
    }

    constructor ()
      ensures Valid() && projects == [] && sessions == map[] && tasks == map[]
    {
      projects, sessions, tasks := [], map[], map[];
    }

    /** A new project goes to the front of the list; one that exists stays as it is. */
    method EnsureProject(name: string, color: string)
      requires Valid()
      modifies this`projects
      ensures Valid()
      ensures ListNames(projects) ==
        if name in Names(old(projects)) then ListNames(old(projects)) else [name] + ListNames(old(projects))
      ensures old(projects) <= projects && (name in Names(old(projects)) ==> projects == old(projects))
    {
      if name in Names(projects) {
        return;
      }
      var ord := (if projects == [] then 0 else MinOrd(projects)) - 1;
      NewestFirst(projects, Project(name, ord, color));
      ghost var was := projects;
      projects := projects + [Project(name, ord, color)];
      assert forall i :: 0 <= i < |was| ==> Names(projects)[i] == Names(was)[i];
    }

    /** Puts a session into a project, or with "" takes it out. */
    method SetProject(session: string, project: string, color: string)
      requires Valid()
      modifies this`projects, this`sessions
      ensures Valid()
      ensures sessions == if session in old(sessions) then old(sessions)[session := project] else old(sessions)
      ensures project == "" ==> projects == old(projects)
      ensures project != "" ==> project in Names(projects) && old(projects) <= projects
    {
      if project != "" {
        EnsureProject(project, color);
        ListHasNames(old(projects));
        ListHasNames(projects);
      }
      if session in sessions {
        sessions := sessions[session := project];
      }
    }

    /** Puts the named projects first, then the others, and renumbers them all; an unknown name is an error. */
    method SetProjectOrder(names: seq<string>) returns (ok: bool)
      requires Valid()
      modifies this`projects
      ensures Valid()
      ensures ok <==> forall n <- names :: n in Names(old(projects))
      ensures !ok ==> projects == old(projects)
      ensures ok ==> ListNames(projects) == Arranged(names, ListNames(old(projects)))
      ensures Names(projects) == Names(old(projects))
    {
      var list := ListNames(projects);
      ListHasNames(projects);
      var order: seq<string> := [];
      var seen: set<string> := {};
      for i := 0 to |names|
        invariant forall n <- names[..i] :: n in list
        invariant order == Firsts(names[..i]) && forall n :: n in seen <==> n in names[..i]
      {
        assert names[..i + 1][..i] == names[..i];
        if names[i] !in list {
          return false;
        }
        if names[i] !in seen {
          seen := seen + {names[i]};
          order := order + [names[i]];
        }
      }
      assert names[..|names|] == names;
      for i := 0 to |list|
        invariant order == Firsts(names) + Others(list[..i], names)
      {
        assert list[..i + 1][..i] == list[..i];
        if list[i] !in seen {
          order := order + [list[i]];
        }
      }
      assert list[..|list|] == list;
      ArrangedIsPermutation(names, list);
      Renumber(order);
      ok := true;
    }

    method Renumber(order: seq<string>)
      requires Valid() && Distinct(order) && forall n :: n in order <==> n in Names(projects)
      modifies this`projects
      ensures Valid() && Names(projects) == Names(old(projects))
      ensures projects == Renumbered(old(projects), order) && ListNames(projects) == order
    {
      for i := 0 to |order|
        invariant |projects| == |old(projects)|
        invariant forall k :: 0 <= k < |projects| ==> projects[k] == PlacedBelow(old(projects)[k], order, i)
      {
        assert Place(order, order[i]) == i;
        projects := WithOrd(projects, order[i], i);
      }
      RenumberedLists(old(projects), order);
      assert projects == Renumbered(old(projects), order);
      assert Names(projects) == Names(old(projects));
    }

    /** Moves a project some places along the list, at most to its end. */
    method MoveProject(name: string, delta: int) returns (ok: bool)
      requires Valid()
      modifies this`projects
      ensures Valid()
      ensures ok <==> name in Names(old(projects))
      ensures ListNames(projects) == MovedBy(ListNames(old(projects)), name, delta)
    {
      var names := ListNames(projects);
      ListHasNames(projects);
      var at := Place(names, name);
      if at == |names| {
        return false;
      }
      var to := Clamp(at + delta, |names|);
      if to == at {
        MovedNowhere(names, at);
        return true;
      }
      MoveIsFullOrder(names, name, delta);
      ok := SetProjectOrder(Moved(names, at, to));
    }

    /** An unused new name renames the row; a used one swallows it. Either way the members of the old name become
        members of the new one, and nobody else moves. */
    method RenameProject(before: string, after: string) returns (ok: bool)
      requires Valid()
      modifies this
      ensures Valid()
      ensures ok <==> before != "" && after != ""
      ensures !ok || before == after ==> projects == old(projects) && sessions == old(sessions) && tasks == old(tasks)
      ensures ok && before != after ==>
        sessions == Reassigned(old(sessions), before, after) && tasks == Reassigned(old(tasks), before, after)
      ensures ok && before != after && after in Names(old(projects)) ==>
        Sorted(projects) == Without(Sorted(old(projects)), before)
      ensures ok && before != after && after !in Names(old(projects)) ==>
        |projects| == |old(projects)| && forall i :: 0 <= i < |projects| ==>
          projects[i] == (var p := old(projects)[i]; if p.name == before then p.(name := after) else p)
    {
      if before == "" || after == "" {
        return false;
      }
      if before == after {
        return true;
      }
      if after in Names(projects) {
        WithoutLists(projects, before);
        WithoutNames(projects, before);
        projects := Without(projects, before);
      } else {
        RenamedNames(projects, before, after);
        projects := Renamed(projects, before, after);
      }
      sessions := Reassigned(sessions, before, after);
      tasks := Reassigned(tasks, before, after);
      ok := true;
    }
  }

  function Renamed(rows: seq<Project>, before: string, after: string): (t: seq<Project>)
    ensures |t| == |rows|
  {
    seq(|rows|, i requires 0 <= i < |rows| => if rows[i].name == before then rows[i].(name := after) else rows[i])
  }

  lemma RenamedNames(rows: seq<Project>, before: string, after: string)
    requires Unique(rows) && after !in Names(rows)
    ensures Unique(Renamed(rows, before, after))
    ensures forall n :: n in Names(rows) ==> (if n == before then after else n) in Names(Renamed(rows, before, after))
  {
    var t := Renamed(rows, before, after);
    assert forall i :: 0 <= i < |rows| ==> Names(rows)[i] == rows[i].name != after;
    forall n | n in Names(rows) ensures (if n == before then after else n) in Names(t) {
      var i :| 0 <= i < |rows| && Names(rows)[i] == n;
      assert Names(t)[i] == t[i].name;
    }
  }

  lemma WithoutNames(rows: seq<Project>, name: string)
    ensures forall n :: n in Names(Without(rows, name)) <==> n in Names(rows) && n != name
  {
    WithoutHas(rows, name);
    var t := Without(rows, name);
    forall n ensures n in Names(t) <==> n in Names(rows) && n != name {
      if n in Names(t) { var i :| 0 <= i < |t| && t[i].name == n; assert t[i] in rows; }
      if n in Names(rows) && n != name { var i :| 0 <= i < |rows| && rows[i].name == n; assert rows[i] in t; }
    }
  }

  /** What reassigning does to who is where: nobody is lost, nobody else moves. */
  lemma MergeLosesNobody(m: Members, before: string, after: string)
    requires before != after
    ensures var r := Reassigned(m, before, after);
      && r.Keys == m.Keys
      && In(r, after) == In(m, before) + In(m, after)
      && In(r, before) == {}
      && forall p :: p != before && p != after ==> In(r, p) == In(m, p)
  {}
}
