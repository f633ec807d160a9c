/** The drafts kept for an owner: the newest ones, newest first. */
module Drafts {
  const MAX_DRAFTS := 20

  datatype Draft = Draft(id: string, created: int)

  function Cut(ds: seq<Draft>): seq<Draft> {
    if |ds| > MAX_DRAFTS then ds[..MAX_DRAFTS] else ds
  }

  /** Behind all that are at least as new. */
  function Place(ds: seq<Draft>, d: Draft): seq<Draft> {
    if ds == [] || ds[0].created < d.created then [d] + ds else [ds[0]] + Place(ds[1..], d)
  }

  /** Newest first; of the same age the one that came earlier first. */
  function StableSort(ds: seq<Draft>): seq<Draft> {
    if ds == [] then [] else Place(StableSort(ds[..|ds| - 1]), ds[|ds| - 1])
  }

  function Add(ds: seq<Draft>, d: Draft): seq<Draft> {
    Cut(StableSort(ds + [d]))
  }

  function AddAll(all: seq<Draft>): seq<Draft> {
    if all == [] then [] else Add(AddAll(all[..|all| - 1]), all[|all| - 1])
  }

  lemma AddAllMore(all: seq<Draft>, d: Draft)
    ensures AddAll(all + [d]) == Add(AddAll(all), d)
  {
    assert (all + [d])[..|all|] == all;
  }

  ghost predicate NewestFirst(ds: seq<Draft>) {
    forall i, j :: 0 <= i < j < |ds| ==> ds[i].created >= ds[j].created
  }

  lemma {:induction false} PlaceKeepsAll(ds: seq<Draft>, d: Draft)
    ensures multiset(Place(ds, d)) == multiset(ds) + multiset{d}
  {
    if ds != [] && ds[0].created >= d.created {
      PlaceKeepsAll(ds[1..], d);
      assert ds == [ds[0]] + ds[1..];
    }
  }

  lemma {:induction false} PlaceKeepsOrder(ds: seq<Draft>, d: Draft)
    requires NewestFirst(ds)
    ensures NewestFirst(Place(ds, d))
  {
    if ds != [] && ds[0].created >= d.created {
      PlaceKeepsOrder(ds[1..], d);
      PlaceKeepsAll(ds[1..], d);
      forall x | x in Place(ds[1..], d) ensures ds[0].created >= x.created {
        assert x in multiset(Place(ds[1..], d));
      }
    }
  }

  /** The sort is one: newest first, and nothing lost. */
  lemma {:induction false} StableSortSorts(ds: seq<Draft>)
    ensures NewestFirst(StableSort(ds)) && multiset(StableSort(ds)) == multiset(ds)
  {
    if ds != [] {
      StableSortSorts(ds[..|ds| - 1]);
      PlaceKeepsOrder(StableSort(ds[..|ds| - 1]), ds[|ds| - 1]);
      PlaceKeepsAll(StableSort(ds[..|ds| - 1]), ds[|ds| - 1]);
      assert ds == ds[..|ds| - 1] + [ds[|ds| - 1]];
    }
  }

  lemma {:induction false} PlaceLast(ds: seq<Draft>, d: Draft)
    requires forall x <- ds :: x.created >= d.created
    ensures Place(ds, d) == ds + [d]
  {
    if ds != [] {
      PlaceLast(ds[1..], d);
      assert ds == [ds[0]] + ds[1..];
    }
  }

  lemma {:induction false} SortedStays(ds: seq<Draft>)
    requires NewestFirst(ds)
    ensures StableSort(ds) == ds
  {
    if ds != [] {
      SortedStays(ds[..|ds| - 1]);
      PlaceLast(ds[..|ds| - 1], ds[|ds| - 1]);
    }
  }

  /** What falls off the end would have fallen off anyway. */
  lemma {:induction false} CutFirst(ds: seq<Draft>, d: Draft, n: nat)
    requires n <= |ds|
    ensures |Place(ds[..n], d)| == n + 1 && |Place(ds, d)| == |ds| + 1
    ensures Place(ds[..n], d)[..n] == Place(ds, d)[..n]
    decreases |ds|
  {
    if ds == [] || ds[0].created < d.created {
    } else if n == 0 {
      CutFirst(ds[1..], d, 0);
    } else {
      CutFirst(ds[1..], d, n - 1);
      assert ds[..n][1..] == ds[1..][..n - 1];
    }
  }

  /** Kept after any number of additions: the newest ones of all that were ever added, newest first, although
      each addition only sees what the one before left. */
  lemma {:induction false} KeepsNewest(all: seq<Draft>)
    ensures AddAll(all) == Cut(StableSort(all))
    ensures |StableSort(all)| == |all|
    ensures AddAll(all) == if |all| <= 20 then StableSort(all) else StableSort(all)[..20]
  {
    if all != [] {
      var h, d := all[..|all| - 1], all[|all| - 1];
      KeepsNewest(h);
      StableSortSorts(h);
      var s, kept := StableSort(h), AddAll(h);
      assert (kept + [d])[..|kept|] == kept;
      SortedStays(kept);
      if |s| > MAX_DRAFTS {
        CutFirst(s, d, MAX_DRAFTS);
      }
    }
    SortLength(all);
  }

  lemma SortLength(all: seq<Draft>)
    ensures |StableSort(all)| == |all|
  {
    StableSortSorts(all);
    assert |multiset(StableSort(all))| == |multiset(all)|;
  }

  // ---- adding to one list what was worked out from another ----

  /** A list as it is stored. */
  ghost predicate Kept(ds: seq<Draft>) {
    NewestFirst(ds) && |ds| <= MAX_DRAFTS
  }

  /** How many of an ordered list are at least as new. */
  function Ahead(ds: seq<Draft>, d: Draft): (n: nat)
    ensures n <= |ds|
  {
    if ds == [] || ds[0].created < d.created then 0 else 1 + Ahead(ds[1..], d)
  }

  /** The drafts that an addition of d leaves beside it. */
  function Beside(ds: seq<Draft>, d: Draft): seq<Draft> {
    if |ds| == MAX_DRAFTS && Ahead(ds, d) < MAX_DRAFTS then ds[..MAX_DRAFTS - 1] else ds
  }

  lemma {:induction false} PlaceIs(ds: seq<Draft>, d: Draft)
    ensures Place(ds, d) == ds[..Ahead(ds, d)] + [d] + ds[Ahead(ds, d)..]
  {
    if ds != [] && ds[0].created >= d.created {
      PlaceIs(ds[1..], d);
      var n := Ahead(ds[1..], d);
      assert ds[..n + 1] == [ds[0]] + ds[1..][..n] && ds[n + 1..] == ds[1..][n..];
    }
  }

  lemma AddIsPlaced(ds: seq<Draft>, d: Draft)
    requires Kept(ds)
    ensures Add(ds, d) == Cut(ds[..Ahead(ds, d)] + [d] + ds[Ahead(ds, d)..])
  {
    assert (ds + [d])[..|ds|] == ds;
    SortedStays(ds);
    PlaceIs(ds, d);
  }

  lemma CutPlaced(ds: seq<Draft>, d: Draft, i: nat)
    requires i <= |ds| <= MAX_DRAFTS
    ensures var b := if |ds| == MAX_DRAFTS && i < MAX_DRAFTS then ds[..MAX_DRAFTS - 1] else ds;
      Cut(ds[..i] + [d] + ds[i..]) == if i == MAX_DRAFTS then ds else b[..i] + [d] + b[i..]
  {}

  lemma AddIs(ds: seq<Draft>, d: Draft)
    requires Kept(ds)
    ensures Ahead(ds, d) < MAX_DRAFTS ==> Ahead(ds, d) <= |Beside(ds, d)| < MAX_DRAFTS
    ensures Add(ds, d) == if Ahead(ds, d) == MAX_DRAFTS then ds
                          else Beside(ds, d)[..Ahead(ds, d)] + [d] + Beside(ds, d)[Ahead(ds, d)..]
  {
    AddIsPlaced(ds, d);
    CutPlaced(ds, d, Ahead(ds, d));
  }

  lemma {:induction false} PlaceOf(s: seq<Draft>, t: seq<Draft>, i: nat, j: nat, d: Draft)
    requires i <= |s| && j <= |t| && s[..i] + [d] + s[i..] == t[..j] + [d] + t[j..] && d !in s && d !in t
    ensures s == t && i == j
  {
    var r := s[..i] + [d] + s[i..];
    assert r[i] == d && r[j] == d;
    assert forall n :: 0 <= n < j ==> r[n] == t[n];
    assert forall n :: 0 <= n < i ==> r[n] == s[n];
    assert s == r[..i] + r[i + 1..] && t == r[..j] + r[j + 1..];
  }

  /** Adding d gives the same to both lists exactly when the same drafts stay beside it. */
  lemma AddSameIff(a: seq<Draft>, b: seq<Draft>, d: Draft)
    requires Kept(a) && Kept(b) && d !in a && d !in b
    ensures Add(a, d) == Add(b, d) <==> Beside(a, d) == Beside(b, d)
  {
    AddIs(a, d);
    AddIs(b, d);
    var i, j := Ahead(a, d), Ahead(b, d);
    if i < MAX_DRAFTS && j < MAX_DRAFTS {
      if Add(a, d) == Add(b, d) {
        PlaceOf(Beside(a, d), Beside(b, d), i, j, d);
      } else if Beside(a, d) == Beside(b, d) {
        AheadBeside(a, d);
        AheadBeside(b, d);
      }
    } else if i < MAX_DRAFTS {
      assert Add(a, d)[i] == d;
    } else if j < MAX_DRAFTS {
      assert Add(b, d)[j] == d;
    }
  }

  lemma {:induction false} AheadOfPrefix(ds: seq<Draft>, d: Draft, n: nat)
    requires Ahead(ds, d) <= n <= |ds|
    ensures Ahead(ds[..n], d) == Ahead(ds, d)
  {
    if ds != [] && ds[0].created >= d.created {
      AheadOfPrefix(ds[1..], d, n - 1);
      assert ds[..n][1..] == ds[1..][..n - 1];
    }
  }

  lemma AheadBeside(ds: seq<Draft>, d: Draft)
    requires Kept(ds)
    ensures Ahead(Beside(ds, d), d) == Ahead(ds, d)
  {
    if |ds| == MAX_DRAFTS && Ahead(ds, d) < MAX_DRAFTS {
      AheadOfPrefix(ds, d, MAX_DRAFTS - 1);
    }
  }
}
