/** Device letters: A…Z, then AA…ZZ, 702 in all. */
module Letters {
  const LETTERS := 702

  function Capital(i: nat): char
    requires i < 26
  {
    ('A' as int + i) as char
  }

  /** The i-th letter in the order in which they are handed out. */
  function LetterAt(i: nat): string
    requires i < LETTERS
  {
    if i < 26 then [Capital(i)] else [Capital((i - 26) / 26), Capital((i - 26) % 26)]
  }

  predicate ValidLetter(l: string) {
    1 <= |l| <= 2 && forall k :: 0 <= k < |l| ==> 'A' <= l[k] <= 'Z'
  }

  /** Where a letter stands in that order; 702 for "no letter". */
  function Rank(l: string): (i: nat)
    ensures i <= LETTERS
    ensures ValidLetter(l) ==> i < LETTERS && LetterAt(i) == l
  {
    if !ValidLetter(l) then LETTERS
    else if |l| == 1 then l[0] as int - 'A' as int
    else
      var a, b := l[0] as int - 'A' as int, l[1] as int - 'A' as int;
      assert (26 * a + b) / 26 == a && (26 * a + b) % 26 == b;
      26 + 26 * a + b
  }

  lemma LetterAtRank(i: nat)
    requires i < LETTERS
    ensures ValidLetter(LetterAt(i)) && Rank(LetterAt(i)) == i
  {}

  /** The first unused letter from place i on, or "" when there is none. */
  function FirstFree(used: set<string>, i: nat): (l: string)
    requires i <= LETTERS
    ensures l != "" ==> ValidLetter(l) && l !in used && i <= Rank(l)
    ensures forall j :: i <= j < LETTERS && j < Rank(l) ==> LetterAt(j) in used
    decreases LETTERS - i, used
  {
    if i == LETTERS then ""
    else
      LetterAtRank(i);
      if LetterAt(i) !in used then LetterAt(i) else FirstFree(used, i + 1)
  }

  function NextFree(used: set<string>): string {
    FirstFree(used, 0)
  }

  /** A letter is found exactly when one is left, and it is the first one left. */
  lemma NextFreeIsFirst(used: set<string>)
    ensures NextFree(used) == "" <==> forall l :: ValidLetter(l) ==> l in used
    ensures NextFree(used) != "" ==> ValidLetter(NextFree(used)) && NextFree(used) !in used
    ensures forall l :: ValidLetter(l) && Rank(l) < Rank(NextFree(used)) ==> l in used
  {
    forall l | ValidLetter(l) && Rank(l) < Rank(NextFree(used)) ensures l in used {
      assert LetterAt(Rank(l)) == l;
    }
  }

  /** The more letters are used, the later the next one. */
  lemma NextFreeMonotone(used: set<string>, more: set<string>)
    requires used <= more
    ensures Rank(NextFree(used)) <= Rank(NextFree(more))
  {}

  /** Only the valid letters in use matter. */
  lemma NextFreeSame(used: set<string>, same: set<string>)
    requires forall l :: ValidLetter(l) ==> (l in used <==> l in same)
    ensures NextFree(used) == NextFree(same)
  {}

  lemma PairAt(a: nat, b: nat)
    requires a < 26 && b < 26
    ensures LetterAt(26 + 26 * a + b) == [Capital(a), Capital(b)]
  {}

  method ValidateLetter(l: string) returns (ok: bool)
    ensures ok <==> ValidLetter(l)
  {
    if |l| < 1 || |l| > 2 {
      return false;
    }
    for k := 0 to |l|
      invariant forall j :: 0 <= j < k ==> 'A' <= l[j] <= 'Z'
    {
      if l[k] < 'A' || l[k] > 'Z' {
        return false;
      }
    }
    return true;
  }

  lemma FoundFirst(used: set<string>, i: nat)
    requires i < LETTERS && LetterAt(i) !in used
    requires forall j: nat :: j < i ==> LetterAt(j) in used
    ensures NextFree(used) == LetterAt(i)
  {}

  /** The search as two nested passes: one letter, then two. */
  method NextLetter(used: set<string>) returns (l: string)
    ensures l == NextFree(used)
  {
    for a := 0 to 26
      invariant forall j: nat :: j < a ==> LetterAt(j) in used
    {
      l := [Capital(a)];
      if l !in used {
        FoundFirst(used, a);
        return;
      }
    }
    for a := 0 to 26
      invariant forall j: nat :: j < 26 + 26 * a ==> LetterAt(j) in used
    {
      for b := 0 to 26
        invariant forall j: nat :: j < 26 + 26 * a + b ==> LetterAt(j) in used
      {
        PairAt(a, b);
        l := [Capital(a), Capital(b)];
        if l !in used {
          FoundFirst(used, 26 + 26 * a + b);
          return;
        }
      }
    }
    forall w | ValidLetter(w) ensures w in used {
      assert w == LetterAt(Rank(w));
    }
    NextFreeIsFirst(used);
    l := "";
  }

  /** The order: A to Z, then AA to ZZ, alphabetically. */
  lemma LettersInOrder(l: string, m: string)
    requires ValidLetter(l) && ValidLetter(m)
    ensures Rank(l) < Rank(m) <==>
      |l| < |m| || (|l| == |m| && (l[0] < m[0] || (l[0] == m[0] && |l| == 2 && l[1] < m[1])))
    ensures Rank("A") == 0 && Rank("Z") == 25 && Rank("AA") == 26 && Rank("ZZ") == 701
  {}
}
