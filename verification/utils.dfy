/** node-implementation/utils.go and the validation in node-implementation/config.go. */
module Utils {
  import opened Types
  import opened Powers

  // ---------------------------------------------------------------- majority

  function Count<T(==)>(list: seq<T>, x: T): nat {
    if list == [] then 0 else Count(list[..|list| - 1], x) + (if list[|list| - 1] == x then 1 else 0)
  }

  lemma {:induction false} CountIsMultiplicity<T>(list: seq<T>, x: T)
    ensures Count(list, x) == multiset(list)[x]
  {
    if list != [] {
      CountIsMultiplicity(list[..|list| - 1], x);
      assert list == list[..|list| - 1] + [list[|list| - 1]];
    }
  }

  predicate IsMajority(list: seq<int>, x: int) {
    Count(list, x) > |list| / 2
  }

  lemma {:induction false} CountBounds(list: seq<int>, x: int, y: int)
    requires x != y
    ensures Count(list, x) + Count(list, y) <= |list|
  {
    if list != [] {
      CountBounds(list[..|list| - 1], x, y);
    }
  }

  lemma MajorityIsUnique(list: seq<int>, x: int, y: int)
    requires IsMajority(list, x) && IsMajority(list, y)
    ensures x == y
  {
    if x != y {
      CountBounds(list, x, y);
    }
  }

  lemma {:induction false} CountedIsMember(list: seq<int>, x: int)
    requires Count(list, x) > 0
    ensures x in list
  {
    if list[|list| - 1] != x {
      CountedIsMember(list[..|list| - 1], x);
    }
  }

  /** Succeeds exactly when some value fills more than half of the list, and returns that value. */
  method FindMajorElementInt64(list: seq<int>) returns (element: int, found: bool)
    ensures found <==> exists x :: IsMajority(list, x)
    ensures found ==> forall x :: IsMajority(list, x) <==> x == element
    ensures !found ==> element == 0
  {
    for i := 0 to |list|
      invariant forall k :: 0 <= k < i ==> !IsMajority(list, list[k])
    {
      var count := 0;
      for j := 0 to |list|
        invariant count == Count(list[..j], list[i])
      {
        assert list[..j + 1][..j] == list[..j];
        if list[i] == list[j] {
          count := count + 1;
        }
      }
      assert list[..|list|] == list;
      if count > |list| / 2 {
        forall x | IsMajority(list, x) ensures x == list[i] {
          MajorityIsUnique(list, x, list[i]);
        }
        assert IsMajority(list, list[i]);
        return list[i], true;
      }
    }
    forall x ensures !IsMajority(list, x) {
      if IsMajority(list, x) {
        CountedIsMember(list, x);
        assert false;
      }
    }
    return 0, false;
  }

  method SliceContainsInt(slice: seq<nat>, element: nat) returns (found: bool)
    ensures found <==> element in slice
  {
    for i := 0 to |slice|
      invariant element !in slice[..i]
    {
      if slice[i] == element {
        return true;
      }
    }
    return false;
  }

  // ---------------------------------------------------------------- logarithm and the power-of-two check

  method LogBase2(x: nat) returns (result: nat)
    requires x > 0
    ensures Pow2(result) <= x < Pow2(result + 1)
  {
    var rest := x;
    result := 0;
    while rest > 1
      invariant rest >= 1
      invariant rest * Pow2(result) <= x < (rest + 1) * Pow2(result)
    {
      HalveStep(x, rest, Pow2(result));
      rest := rest / 2;
      result := result + 1;
    }
  }

  lemma HalveStep(x: nat, rest: nat, p: nat)
    requires rest >= 1 && rest * p <= x < (rest + 1) * p
    ensures (rest / 2) * (2 * p) <= x < (rest / 2 + 1) * (2 * p)
  {
    var h := rest / 2;
    assert h * (2 * p) == (2 * h) * p && (h + 1) * (2 * p) == (2 * h + 2) * p;
    ProductMonotone(2 * h, rest, p);
    ProductMonotone(rest + 1, 2 * h + 2, p);
  }

  /** Bitwise and of two non-negative integers, bit by bit from the lowest. */
  function BitAnd(a: nat, b: nat): nat {
    if a == 0 || b == 0 then 0
    else 2 * BitAnd(a / 2, b / 2) + (if a % 2 == 1 && b % 2 == 1 then 1 else 0)
  }

  lemma {:induction false} BitAndSelf(a: nat)
    ensures BitAnd(a, a) == a
  {
    if a > 0 {
      BitAndSelf(a / 2);
    }
  }

  ghost predicate IsPowerOfTwo(x: nat) {
    exists n: nat :: Pow2(n) == x
  }

  lemma PowerOfTwoHalves(x: nat)
    requires x > 0
    ensures IsPowerOfTwo(2 * x) <==> IsPowerOfTwo(x)
  {
    if n: nat :| Pow2(n) == x {
      assert Pow2(n + 1) == 2 * x;
    }
    if n: nat :| Pow2(n) == 2 * x {
      assert n > 0 && Pow2(n - 1) == x;
    }
  }

  lemma OddIsNoPowerOfTwo(x: nat)
    requires x > 1 && x % 2 == 1
    ensures !IsPowerOfTwo(x)
  {
    forall n: nat ensures Pow2(n) != x {
      if n > 0 {
        assert Pow2(n) == 2 * Pow2(n - 1);
      }
    }
  }

  /** x & (x - 1) == 0 recognises the powers of two among the positive integers. */
  lemma {:induction false} PowerOfTwoCheck(x: nat)
    requires x > 0
    ensures BitAnd(x, x - 1) == 0 <==> IsPowerOfTwo(x)
  {
    if x == 1 {
      assert Pow2(0) == 1;
    } else if x % 2 == 0 {
      hide IsPowerOfTwo;
      PowerOfTwoCheck(x / 2);
      assert (x - 1) / 2 == x / 2 - 1;
      PowerOfTwoHalves(x / 2);
    } else {
      hide IsPowerOfTwo;
      assert (x - 1) / 2 == x / 2;
      BitAndSelf(x / 2);
      OddIsNoPowerOfTwo(x);
    }
  }

  /** The node aborts, by exit or by the panic of logBase2, unless DAG_PARALLEL_LEN is a power of two; otherwise
      dagMaxDepth is its exponent. */
  method InitDagMaxDepth(parallelLen: int) returns (maxDepth: Option<nat>)
    ensures maxDepth.Some? <==> parallelLen > 0 && IsPowerOfTwo(parallelLen)
    ensures maxDepth.Some? ==> Pow2(maxDepth.value) == parallelLen
  {
    if parallelLen <= 0 {
      return None;
    }
    PowerOfTwoCheck(parallelLen);
    if BitAnd(parallelLen, parallelLen - 1) != 0 {
      return None;
    }
    var d := LogBase2(parallelLen);
    ghost var n: nat :| Pow2(n) == parallelLen;
    if n < d {
      Pow2Grows(n, d);
    } else if d < n {
      if d + 1 < n {
        Pow2Grows(d + 1, n);
      }
    }
    maxDepth := Some(d);
  }

  // ---------------------------------------------------------------- splitIntoPowersOfTwo

  function Sum(list: seq<nat>): nat {
    if list == [] then 0 else Sum(list[..|list| - 1]) + list[|list| - 1]
  }

  ghost predicate PowersAbove(list: seq<nat>, bound: int) {
    && (forall i :: 0 <= i < |list| ==> IsPowerOfTwo(list[i]) && list[i] > bound)
    && (forall i, j :: 0 <= i < j < |list| ==> list[i] > list[j])
  }

  ghost predicate PowersUpTo(list: seq<nat>, max: int) {
    forall i :: 0 <= i < |list| ==> list[i] == Pow2(i) && list[i] <= max
  }

  lemma UpToNone(max: int)
    ensures PowersUpTo([], max)
  {
  }

  lemma UpToAppend(list: seq<nat>, max: int)
    requires PowersUpTo(list, max) && Pow2(|list|) <= max
    ensures PowersUpTo(list + [Pow2(|list|)], max) && Pow2(|list| + 1) == 2 * Pow2(|list|)
  {
  }

  lemma PowersAppend(list: seq<nat>, x: nat, bound: nat)
    requires PowersAbove(list, bound) && IsPowerOfTwo(x) && x <= bound < 2 * x
    ensures PowersAbove(list + [x], bound - x)
  {
    hide IsPowerOfTwo;
  }

  lemma SumOfNone()
    ensures Sum([]) == 0
  {
  }

  lemma OneIsPowerOfTwo()
    ensures IsPowerOfTwo(1)
  {
    assert Pow2(0) == 1;
  }

  lemma SumAppend(list: seq<nat>, x: nat)
    ensures Sum(list + [x]) == Sum(list) + x
  {
    assert (list + [x])[..|list|] == list;
  }

  // ---- 64-bit integers

  const INT64: int := 0x8000_0000_0000_0000

  const HALF: int := 0x4000_0000_0000_0000

  predicate IsInt64(x: int) {
    -INT64 <= x < INT64
  }

  function Wrap64(x: int): (r: int)
    ensures IsInt64(r) && (IsInt64(x) ==> r == x)
  {
    (x + INT64) % (2 * INT64) - INT64
  }

  /** 1, doubled k times in 64 bits: the powers of two up to 2^62, then the least integer, then 0 for ever. */
  function Doubled(k: nat): int {
    if k == 0 then 1 else Wrap64(2 * Doubled(k - 1))
  }

  /** The call never returns: no doubling of 1 ever exceeds the bound that ends its loop. */
  ghost predicate Hangs(x: int, maxPower: int) {
    if x == 0 then forall k: nat :: Doubled(k) <= maxPower
    else x > 0 && forall k: nat :: Doubled(k) <= x
  }

  lemma {:induction false} DoubledIsPower(k: nat)
    ensures k <= 62 ==> Doubled(k) == Pow2(k) && Pow2(k) <= HALF
    ensures k == 62 ==> Doubled(k) == HALF
    ensures k == 63 ==> Doubled(k) == -INT64
    ensures k >= 64 ==> Doubled(k) == 0
  {
    if k > 0 {
      DoubledIsPower(k - 1);
      Wraps();
      if k <= 62 {
        Pow2OfHalf(k - 1);
        Pow2OfHalf(k);
        assert Pow2(k) == 2 * Pow2(k - 1);
      }
      hide Wrap64, Pow2;
    }
  }

  lemma Wraps()
    ensures Wrap64(2 * HALF) == -INT64 && Wrap64(2 * -INT64) == 0 && Wrap64(0) == 0
  {
  }

  lemma Pow2OfHalf(k: nat)
    requires k <= 62
    ensures Pow2(k) <= HALF && (k == 62 ==> Pow2(k) == HALF)
  {
    Pow2Of31();
    Pow2Sum(31, 31);
    hide Pow2;
    if k < 62 {
      Pow2Grows(k, 62);
    }
  }

  lemma Pow2Of31()
    ensures Pow2(31) == 0x8000_0000
  {
    assert Pow2(8) == 256 && Pow2(7) == 128;
    Pow2Sum(8, 8);
    Pow2Sum(8, 7);
    hide Pow2;
    Pow2Sum(16, 15);
  }

  /** The loops end exactly for bounds below 2^62. */
  lemma HangsIff(x: int, maxPower: int)
    requires IsInt64(x) && IsInt64(maxPower)
    ensures Hangs(x, maxPower) <==> (if x == 0 then maxPower else x) >= HALF
  {
    DoubledIsPower(62);
    forall k: nat ensures Doubled(k) <= HALF {
      DoubledIsPower(k);
    }
    if x < 0 {
      assert !Hangs(x, maxPower);
    }
  }

  lemma NoWrap(x: int)
    requires 0 <= x < HALF
    ensures Wrap64(2 * x) == 2 * x
  {
  }

  /** For positive x the binary expansion of x, highest power first; for zero every power up to maxPower, lowest
      first; for negative x nothing. None stands for a call that never returns. */
  method SplitIntoPowersOfTwo(x: int, maxPower: int) returns (split: Option<seq<nat>>)
    requires IsInt64(x) && IsInt64(maxPower)
    ensures split.None? <==> Hangs(x, maxPower)
    ensures split.Some? && x > 0 ==> Sum(split.value) == x && PowersAbove(split.value, 0)
    ensures split.Some? && x == 0 ==> PowersUpTo(split.value, maxPower) && Pow2(|split.value|) > maxPower
    ensures split.Some? && x < 0 ==> split.value == []
  {
    HangsIff(x, maxPower);
    hide Hangs, PowersUpTo, Wrap64;
    var result: seq<nat> := [];
    assert PowersUpTo([], maxPower) by {
      UpToNone(maxPower);
    }
    if x == 0 {
      if maxPower >= HALF {
        return None;
      }
      var i := 1;
      while i <= maxPower
        invariant i == Pow2(|result|)
        invariant PowersUpTo(result, maxPower)
        decreases maxPower - i
      {
        UpToAppend(result, maxPower);
        NoWrap(i);
        result := result + [i];
        i := Wrap64(2 * i);
      }
      return Some(result);
    }
    if x >= HALF {
      return None;
    }
    var rest := x;
    SumOfNone();
    assert PowersAbove(result, rest);
    hide Sum, IsPowerOfTwo, PowersAbove;
    while rest > 0
      invariant x > 0 ==> 0 <= rest <= x && Sum(result) + rest == x && PowersAbove(result, rest)
      invariant x < 0 ==> result == [] && rest < 0
    {
      var highestPower := HighestPower(rest);
      SumAppend(result, highestPower);
      PowersAppend(result, highestPower, rest);
      result := result + [highestPower];
      rest := rest - highestPower;
    }
    return Some(result);
  }

  /** The inner loop. */
  method HighestPower(x: int) returns (highestPower: nat)
    requires 0 < x < HALF
    ensures IsPowerOfTwo(highestPower) && highestPower <= x < 2 * highestPower
  {
    highestPower := 1;
    OneIsPowerOfTwo();
    NoWrap(1);
    hide IsPowerOfTwo, Wrap64;
    while Wrap64(2 * highestPower) <= x
      invariant 1 <= highestPower <= x && IsPowerOfTwo(highestPower)
      invariant Wrap64(2 * highestPower) == 2 * highestPower
    {
      PowerOfTwoHalves(highestPower);
      highestPower := Wrap64(2 * highestPower);
      NoWrap(highestPower);
    }
  }
}
