/** Lists of commitment hashes: lexicographic sorting, the seeded shuffle, and counting without repetition. */
module Buckets {

  predicate LexLe(a: string, b: string) {
    a == "" || (b != "" && (a[0] < b[0] || (a[0] == b[0] && LexLe(a[1..], b[1..]))))
  }

  lemma {:induction false} LexTotal(a: string, b: string)
    ensures LexLe(a, b) || LexLe(b, a)
  {
    if a != "" && b != "" && a[0] == b[0] {
      LexTotal(a[1..], b[1..]);
    }
  }

  lemma {:induction false} LexAntisymmetric(a: string, b: string)
    requires LexLe(a, b) && LexLe(b, a)
    ensures a == b
  {
    if a != "" && b != "" {
      LexAntisymmetric(a[1..], b[1..]);
      assert a == [a[0]] + a[1..] && b == [b[0]] + b[1..];
    }
  }

  lemma {:induction false} LexTransitive(a: string, b: string, c: string)
    requires LexLe(a, b) && LexLe(b, c)
    ensures LexLe(a, c)
  {
    if a != "" && b != "" && a[0] == b[0] == c[0] {
      LexTransitive(a[1..], b[1..], c[1..]);
    }
  }

  /** Lexicographic order: a prefix comes first, and otherwise the first difference decides. */
  lemma {:induction false} LexLeIff(a: string, b: string)
    ensures LexLe(a, b) <==> a <= b || exists k :: 0 <= k < |a| && k < |b| && a[..k] == b[..k] && a[k] < b[k]
  {
    if a != "" && b != "" && a[0] == b[0] {
      LexLeIff(a[1..], b[1..]);
      if k :| 0 <= k < |a| - 1 && k < |b| - 1 && a[1..][..k] == b[1..][..k] && a[1..][k] < b[1..][k] {
        assert a[..k + 1] == [a[0]] + a[1..][..k] && b[..k + 1] == [b[0]] + b[1..][..k];
        assert a[k + 1] < b[k + 1];
      }
      if k :| 0 <= k < |a| && k < |b| && a[..k] == b[..k] && a[k] < b[k] {
        assert a[1..][..k - 1] == a[..k][1..] && b[1..][..k - 1] == b[..k][1..];
        assert a[1..][k - 1] < b[1..][k - 1];
      }
      if a[1..] <= b[1..] {
        assert b == [b[0]] + b[1..] && a == [a[0]] + a[1..];
      }
    } else if a != "" && b != "" {
      assert a[..0] == b[..0];
      assert a[0] < b[0] ==> a[..0] == b[..0] && a[0] < b[0];
    }
  }

  predicate Sorted(s: seq<string>) {
    forall i, j :: 0 <= i < j < |s| ==> LexLe(s[i], s[j])
  }

  function Insert(x: string, s: seq<string>): seq<string> {
    if s == [] then [x]
    else if LexLe(x, s[0]) then [x] + s
    else [s[0]] + Insert(x, s[1..])
  }

  lemma {:induction false} InsertKeepsSorted(x: string, s: seq<string>)
    requires Sorted(s)
    ensures Sorted(Insert(x, s)) && multiset(Insert(x, s)) == multiset(s) + multiset{x}
  {
    if s == [] {
    } else if LexLe(x, s[0]) {
      forall j | 0 <= j < |s| ensures LexLe(x, s[j]) {
        if j > 0 {
          LexTransitive(x, s[0], s[j]);
        }
      }
      SmallestInFront(x, s);
    } else {
      hide LexLe;
      InsertKeepsSorted(x, s[1..]);
      LexTotal(x, s[0]);
      assert s == [s[0]] + s[1..];
      var rest := Insert(x, s[1..]);
      forall k | 0 <= k < |rest| ensures LexLe(s[0], rest[k]) {
        InsertedOrOld(x, s[1..], rest, k);
      }
      hide Sorted;
      SmallestInFront(s[0], rest);
    }
  }

  lemma InsertedOrOld(x: string, s: seq<string>, rest: seq<string>, k: nat)
    requires k < |rest| && multiset(rest) == multiset(s) + multiset{x}
    ensures rest[k] == x || exists j :: 0 <= j < |s| && s[j] == rest[k]
  {
    assert rest[k] in multiset(rest);
    assert rest[k] == x || rest[k] in multiset(s);
  }

  lemma SmallestInFront(x: string, s: seq<string>)
    requires Sorted(s) && forall j :: 0 <= j < |s| ==> LexLe(x, s[j])
    ensures Sorted([x] + s)
  {
    hide LexLe;
  }

  /** sort.Strings: the sorted rearrangement. */
  function SortStrings(s: seq<string>): (r: seq<string>)
    ensures Sorted(r) && multiset(r) == multiset(s)
  {
    if s == [] then []
    else
      assert s == s[..|s| - 1] + [s[|s| - 1]];
      InsertKeepsSorted(s[|s| - 1], SortStrings(s[..|s| - 1]));
      Insert(s[|s| - 1], SortStrings(s[..|s| - 1]))
  }

  lemma HeadIsSmallest(s: seq<string>, x: string)
    requires Sorted(s) && x in multiset(s)
    ensures s != [] && LexLe(s[0], x)
  {
    var i :| 0 <= i < |s| && s[i] == x;
    LexTotal(x, x);
  }

  lemma WithoutHead(s: seq<string>)
    requires Sorted(s) && s != []
    ensures s == [s[0]] + s[1..] && Sorted(s[1..]) && multiset(s[1..]) == multiset(s) - multiset{s[0]}
  {
    hide LexLe;
    assert s == [s[0]] + s[1..];
  }

  /** Sorting erases the order of arrival. */
  lemma {:induction false} SortedIsUnique(a: seq<string>, b: seq<string>)
    requires Sorted(a) && Sorted(b) && multiset(a) == multiset(b)
    ensures a == b
  {
    if a == [] {
      assert |multiset(b)| == 0;
    } else {
      assert a[0] in multiset(b) && b != [];
      assert b[0] in multiset(a);
      HeadIsSmallest(a, b[0]);
      HeadIsSmallest(b, a[0]);
      LexAntisymmetric(a[0], b[0]);
      hide LexLe;
      WithoutHead(a);
      WithoutHead(b);
      hide Sorted;
      SortedIsUnique(a[1..], b[1..]);
    }
  }

  lemma SortedLength(s: seq<string>)
    ensures |SortStrings(s)| == |s|
  {
    assert |multiset(SortStrings(s))| == |multiset(s)|;
  }

  // ---------------------------------------------------------------- shuffle

  /** The choices of a seeded generator: for a list of length n, index i is swapped with pick(n, i) <= i. */
  type Picks = (nat, nat) -> nat

  ghost predicate ValidPicks(pick: Picks) {
    forall n: nat, i: nat :: pick(n, i) <= i
  }

  function Swap(s: seq<string>, i: nat, j: nat): (r: seq<string>)
    requires i < |s| && j < |s|
    ensures |r| == |s| && multiset(r) == multiset(s)
  {
    s[i := s[j]][j := s[i]]
  }

  /** Fisher-Yates from the top: the swaps at the indices from |s| - 1 down to i. */
  function ShuffleDown(s: seq<string>, pick: Picks, i: nat): (r: seq<string>)
    requires ValidPicks(pick)
    ensures |r| == |s| && multiset(r) == multiset(s)
    decreases |s| - i
  {
    if i >= |s| then s
    else Swap(ShuffleDown(s, pick, i + 1), i, pick(|s|, i))
  }

  /** The generator's shuffle: swaps from the top index down. */
  method RngShuffle(list: seq<string>, pick: Picks) returns (r: seq<string>)
    requires ValidPicks(pick)
    ensures r == ShuffleDown(list, pick, 1)
  {
    r := list;
    if |list| == 0 {
      return;
    }
    hide ValidPicks;
    for i := |list| downto 1
      invariant |r| == |list| && r == ShuffleDown(list, pick, i)
    {
      var j := pick(|list|, i);
      ShuffleStep(list, pick, i);
      hide ShuffleDown;
      r := r[i := r[j]][j := r[i]];
    }
  }

  function SortAndShuffle(s: seq<string>, pick: Picks): (r: seq<string>)
    requires ValidPicks(pick)
    ensures |r| == |s| && multiset(r) == multiset(s)
  {
    SortedLength(s);
    ShuffleDown(SortStrings(s), pick, 1)
  }

  /** Same contents, same choices: same bucket, in whatever order the commitments arrived; in particular a
      second shuffle changes nothing. */
  lemma ShuffleForgetsOrder(a: seq<string>, b: seq<string>, pick: Picks)
    requires ValidPicks(pick) && multiset(a) == multiset(b)
    ensures SortAndShuffle(a, pick) == SortAndShuffle(b, pick)
    ensures SortAndShuffle(SortAndShuffle(a, pick), pick) == SortAndShuffle(a, pick)
  {
    SortedIsUnique(SortStrings(a), SortStrings(b));
    SortedIsUnique(SortStrings(a), SortStrings(SortAndShuffle(a, pick)));
  }

  /** The choices that matter for a list of length n. */
  ghost predicate SamePicks(a: Picks, b: Picks, n: nat) {
    forall i: nat :: 0 < i < n ==> a(n, i) == b(n, i)
  }

  /** Once the loop has passed an index, its element stays. */
  lemma {:induction false} PassedStays(s: seq<string>, pick: Picks, i: nat, k: nat)
    requires ValidPicks(pick) && i <= k < |s|
    ensures ShuffleDown(s, pick, i)[k] == ShuffleDown(s, pick, k)[k]
    decreases k - i
  {
    hide ShuffleDown, ValidPicks;
    if i < k {
      PassedStays(s, pick, i + 1, k);
      StepKeepsAbove(s, pick, i, k);
    }
  }

  lemma {:induction false} SameChoicesSameShuffle(s: seq<string>, a: Picks, b: Picks, i: nat)
    requires ValidPicks(a) && ValidPicks(b) && SamePicks(a, b, |s|) && 0 < i <= |s|
    ensures ShuffleDown(s, a, i) == ShuffleDown(s, b, i)
    decreases |s| - i
  {
    hide ValidPicks;
    if i < |s| {
      SameChoicesSameShuffle(s, a, b, i + 1);
    }
  }

  ghost predicate SamePicksFrom(a: Picks, b: Picks, n: nat, i: nat) {
    forall k: nat :: i <= k < n ==> a(n, k) == b(n, k)
  }

  lemma {:induction false} SameShuffleSameChoices(s: seq<string>, a: Picks, b: Picks, i: nat)
    requires ValidPicks(a) && ValidPicks(b) && NoDuplicates(s) && 0 < i <= |s|
    requires ShuffleDown(s, a, 1) == ShuffleDown(s, b, 1)
    ensures ShuffleDown(s, a, i) == ShuffleDown(s, b, i) && SamePicksFrom(a, b, |s|, i)
    decreases |s| - i
  {
    hide ValidPicks, NoDuplicates;
    if i < |s| {
      SameShuffleSameChoices(s, a, b, i + 1);
      PassedStays(s, a, 1, i);
      PassedStays(s, b, 1, i);
      SameStep(s, a, b, i);
    }
  }

  lemma SameStep(s: seq<string>, a: Picks, b: Picks, i: nat)
    requires ValidPicks(a) && ValidPicks(b) && NoDuplicates(s) && i < |s|
    requires ShuffleDown(s, a, i + 1) == ShuffleDown(s, b, i + 1)
    requires ShuffleDown(s, a, i)[i] == ShuffleDown(s, b, i)[i]
    ensures a(|s|, i) == b(|s|, i) && ShuffleDown(s, a, i) == ShuffleDown(s, b, i)
  {
    ShuffleStep(s, a, i);
    ShuffleStep(s, b, i);
    hide ShuffleDown, Swap, ValidPicks, NoDuplicates;
    var x := ShuffleDown(s, a, i + 1);
    RearrangedKeepsElements(x, s);
    SameSwap(x, i, a(|s|, i), b(|s|, i));
  }

  lemma StepKeepsAbove(s: seq<string>, pick: Picks, i: nat, k: nat)
    requires ValidPicks(pick) && i < k < |s|
    ensures ShuffleDown(s, pick, i)[k] == ShuffleDown(s, pick, i + 1)[k]
  {
    ShuffleStep(s, pick, i);
    hide ShuffleDown, ValidPicks;
  }

  lemma ShuffleStep(s: seq<string>, pick: Picks, i: nat)
    requires ValidPicks(pick) && i < |s|
    ensures pick(|s|, i) <= i
    ensures ShuffleDown(s, pick, i) == Swap(ShuffleDown(s, pick, i + 1), i, pick(|s|, i))
  {
  }

  lemma SameSwap(s: seq<string>, i: nat, j: nat, k: nat)
    requires NoDuplicates(s) && i < |s| && j <= i && k <= i && Swap(s, i, j)[i] == Swap(s, i, k)[i]
    ensures j == k
  {
    assert s[j] == s[k];
  }

  /** Two generators shuffle a list of distinct hashes alike exactly when all of their choices are the same. */
  lemma SameShuffleIff(s: seq<string>, a: Picks, b: Picks)
    requires ValidPicks(a) && ValidPicks(b) && NoDuplicates(s)
    ensures ShuffleDown(s, a, 1) == ShuffleDown(s, b, 1) <==> SamePicks(a, b, |s|)
  {
    if |s| > 0 {
      if SamePicks(a, b, |s|) {
        SameChoicesSameShuffle(s, a, b, 1);
      }
      if ShuffleDown(s, a, 1) == ShuffleDown(s, b, 1) {
        SameShuffleSameChoices(s, a, b, 1);
      }
    }
  }

  // ---------------------------------------------------------------- lists without repetition

  function Elements(s: seq<string>): set<string> {
    set x | x in s
  }

  ghost predicate NoDuplicates(s: seq<string>) {
    forall i, j :: 0 <= i < j < |s| ==> s[i] != s[j]
  }

  lemma {:induction false} NoDuplicatesLength(s: seq<string>)
    requires NoDuplicates(s)
    ensures |Elements(s)| == |s|
  {
    if s != [] {
      var init, last := s[..|s| - 1], s[|s| - 1];
      assert s == init + [last];
      NoDuplicatesLength(init);
      assert Elements(s) == Elements(init) + {last};
      assert last !in init;
    }
  }

  /** Repetition-freedom is a property of the multiset. */
  lemma {:induction false} NoDuplicatesMultiset(s: seq<string>)
    ensures NoDuplicates(s) <==> forall x :: multiset(s)[x] <= 1
  {
    if NoDuplicates(s) {
      forall x ensures multiset(s)[x] <= 1 {
        CountAtMostOne(s, x);
      }
    } else {
      var i, j :| 0 <= i < j < |s| && s[i] == s[j];
      assert s == s[..j] + [s[j]] + s[j + 1..];
      assert multiset(s) == multiset(s[..j]) + multiset{s[j]} + multiset(s[j + 1..]);
      assert s[..j][i] == s[j] && s[j] in multiset(s[..j]);
      assert multiset(s)[s[j]] >= 2;
    }
  }

  lemma {:induction false} CountAtMostOne(s: seq<string>, x: string)
    requires NoDuplicates(s)
    ensures multiset(s)[x] <= 1
  {
    if s != [] {
      var init, last := s[..|s| - 1], s[|s| - 1];
      assert s == init + [last];
      CountAtMostOne(init, x);
      assert last !in init;
      assert last !in multiset(init);
    }
  }

  lemma SameMultiset(a: seq<string>, b: seq<string>)
    requires NoDuplicates(a) && NoDuplicates(b) && Elements(a) == Elements(b)
    ensures multiset(a) == multiset(b)
  {
    forall x ensures multiset(a)[x] == multiset(b)[x] {
      CountAtMostOne(a, x);
      CountAtMostOne(b, x);
      assert x in multiset(a) <==> x in Elements(a);
      assert x in multiset(b) <==> x in Elements(b);
    }
  }

  lemma RearrangedKeepsElements(a: seq<string>, b: seq<string>)
    requires multiset(a) == multiset(b)
    ensures Elements(a) == Elements(b)
    ensures NoDuplicates(a) <==> NoDuplicates(b)
  {
    NoDuplicatesMultiset(a);
    NoDuplicatesMultiset(b);
    forall x ensures x in a <==> x in b {
      assert x in a <==> x in multiset(a);
      assert x in b <==> x in multiset(b);
    }
  }

  lemma SortingKeepsElements(s: seq<string>)
    ensures Elements(SortStrings(s)) == Elements(s)
    ensures NoDuplicates(SortStrings(s)) <==> NoDuplicates(s)
  {
    RearrangedKeepsElements(SortStrings(s), s);
  }
}
