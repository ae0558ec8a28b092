/** Transaction routing (doesTxBelongToIndex in node-implementation/dag.go) against the branch structure. */
module Routing {
  import opened Types
  import opened Powers
  import opened Dag
  import opened Columns

  const MASK_LIMIT: nat := 65536

  /** The row of the finest partition that a routing key falls on. */
  function Slot(D: nat, mask: nat): int
    requires D <= HASH_HEX_LEN
  {
    mask / Pow2(HASH_HEX_LEN - D)
  }

  lemma MaskLimit()
    ensures Pow2(HASH_HEX_LEN) == MASK_LIMIT
  {
    Pow2Sum(8, 8);
    assert Pow2(8) == 256;
  }

  lemma SlotInColumn(D: nat, mask: nat)
    requires D <= HASH_HEX_LEN && mask < MASK_LIMIT
    ensures 0 <= Slot(D, mask) < Pow2(D)
  {
    MaskLimit();
    Pow2Sum(D, HASH_HEX_LEN - D);
    DivBound(mask, Pow2(D), Pow2(HASH_HEX_LEN - D));
  }

  /** For any D: with the index shifted by 16 - D, equality of the leading d bits is membership in the
      interval of the branch. */
  lemma ShiftedRoutingIsMembership(D: nat, mask: nat, depth: nat, row: nat)
    requires D <= HASH_HEX_LEN && depth <= D && row % Pow2(D - depth) == 0
    ensures row * Pow2(HASH_HEX_LEN - D) / Pow2(HASH_HEX_LEN - depth) == mask / Pow2(HASH_HEX_LEN - depth)
       <==> row <= Slot(D, mask) < row + Pow2(D - depth)
  {
    var s, h := HASH_HEX_LEN - D, D - depth;
    assert HASH_HEX_LEN - depth == s + h;
    ShiftBackAndForth(row, s, h);
    DivDiv(mask, s, h);
    DivNonNegative(mask, Pow2(s));
    AlignedInterval(Slot(D, mask), row, h);
  }

  lemma ShiftBackAndForth(row: nat, s: nat, h: nat)
    ensures row * Pow2(s) / Pow2(s + h) == row / Pow2(h)
  {
    DivDiv(row * Pow2(s), s, h);
    DivModUnique(row * Pow2(s), Pow2(s), row, 0);
  }

  lemma DivNonNegative(x: nat, m: nat)
    requires m > 0
    ensures x / m >= 0
  {
  }

  /** The code shifts by the constant 13, which is 16 - D only for D = 3; for D = 0 there is one branch. */
  predicate RoutesExactly(D: nat) {
    D == 0 || D == 3
  }

  lemma BelongsIsOwnership(D: nat, col: Column, i: nat, mask: nat)
    requires RoutesExactly(D) && WellFormed(D, col) && i < |col| && col[i].Some? && mask < MASK_LIMIT
    ensures BelongsToIndex(mask, col[i].value.depth, i) <==> Owns(D, col, i, Slot(D, mask))
  {
    SlotInColumn(D, mask);
    var depth := col[i].value.depth;
    if depth == 0 {
      assert i == 0 by {
        InsideColumn(D, col, i);
      }
    } else {
      ShiftedRoutingIsMembership(D, mask, depth, i);
    }
  }

  ghost predicate RoutedTo(col: Column, i: nat, mask: nat) {
    i < |col| && col[i].Some? && col[i].value.depth <= HASH_HEX_LEN && BelongsToIndex(mask, col[i].value.depth, i)
  }

  ghost predicate RoutedToOne(col: Column, mask: nat) {
    exists i: nat :: RoutedTo(col, i, mask) && forall j: nat :: RoutedTo(col, j, mask) ==> j == i
  }

  /** A routed key lies in the row interval of the branch, scaled by 2^13, whenever 13 is at least 16 - D. */
  lemma RoutedKeyRange(D: nat, col: Column, i: nat, mask: nat)
    requires D >= 3 && WellFormed(D, col) && RoutedTo(col, i, mask) && col[i].value.depth > 0
    ensures i * Pow2(13) <= mask < (i + Span(D, col[i].value)) * Pow2(13)
  {
    var d := col[i].value.depth;
    KeyRange(i, D - d, HASH_HEX_LEN - d, mask);
  }

  lemma KeyRange(i: nat, k: nat, h: nat, mask: nat)
    requires i % Pow2(k) == 0 && h <= k + 13
    requires i * Pow2(13) / Pow2(h) == mask / Pow2(h)
    ensures i * Pow2(13) <= mask < (i + Pow2(k)) * Pow2(13)
  {
    hide Pow2;
    ScaledAlignment(i, k, 13);
    var x := i * Pow2(13);
    AlignedDown(x, h, k + 13);
    AlignedInterval(mask, x, h);
    if h < k + 13 {
      Pow2Grows(h, k + 13);
    }
  }

  lemma ScaledAlignment(i: nat, k: nat, s: nat)
    requires i % Pow2(k) == 0
    ensures (i * Pow2(s)) % Pow2(k + s) == 0
    ensures (i + Pow2(k)) * Pow2(s) == i * Pow2(s) + Pow2(k + s)
  {
    Pow2Sum(k, s);
    ScaledMultiple(i, Pow2(k), Pow2(s));
  }

  lemma ScaledMultiple(i: nat, a: nat, b: nat)
    requires a > 0 && b > 0 && i % a == 0 && a * b > 0
    ensures (i * b) % (a * b) == 0
    ensures (i + a) * b == i * b + a * b
  {
    var q := i / a;
    assert i == q * a;
    assert (q * a) * b == q * (a * b);
    DivModUnique(i * b, a * b, q, 0);
  }

  /** The lengths for which two branches of one column never compete for a transaction. */
  predicate NeverRoutesTwice(D: nat) {
    D == 0 || D >= 3
  }

  lemma RoutedAtMostOnce(D: nat, col: Column, i: nat, j: nat, mask: nat)
    requires NeverRoutesTwice(D) && WellFormed(D, col)
    requires RoutedTo(col, i, mask) && RoutedTo(col, j, mask)
    ensures i == j
  {
    if i < j {
      RoutedApart(D, col, i, j, mask);
    } else if j < i {
      RoutedApart(D, col, j, i, mask);
    }
  }

  lemma RoutedApart(D: nat, col: Column, i: nat, j: nat, mask: nat)
    requires NeverRoutesTwice(D) && WellFormed(D, col) && i < j < |col|
    ensures !(RoutedTo(col, i, mask) && RoutedTo(col, j, mask))
  {
    hide Pow2;
    if RoutedTo(col, i, mask) && RoutedTo(col, j, mask) {
      InsideColumn(D, col, i);
      InsideColumn(D, col, j);
      hide RoutedTo, BelongsToIndex;
      if col[i].value.depth > 0 && col[j].value.depth > 0 {
        RoutedKeyRange(D, col, i, mask);
        RoutedKeyRange(D, col, j, mask);
        ProductMonotone(i + Span(D, col[i].value), j, Pow2(13));
      }
      assert false;
    }
  }

  lemma TilingRoutesToOne(D: nat, col: Column, mask: nat)
    requires RoutesExactly(D) && WellFormed(D, col) && Tiles(D, col) && mask < MASK_LIMIT
    ensures RoutedToOne(col, mask)
  {
    SlotInColumn(D, mask);
    assert Covered(D, col, Slot(D, mask));
    var i: nat :| Owns(D, col, i, Slot(D, mask));
    BelongsIsOwnership(D, col, i, mask);
    assert RoutedTo(col, i, mask);
    forall j: nat | RoutedTo(col, j, mask) ensures j == i {
      assert NeverRoutesTwice(D);
      RoutedAtMostOnce(D, col, i, j, mask);
    }
  }

  function TestBlock(row: nat, depth: nat): Block {
    Block("", [], "", "", depth, row, 0, "", Stamp(0, 0, "", ""))
  }

  /** A column split once, into a lower and an upper half. */
  function HalvedColumn(D: nat): Column
    requires D >= 1
  {
    seq(Pow2(D), i => if i == 0 then Some(TestBlock(0, 1))
                      else if i == Pow2(D - 1) then Some(TestBlock(Pow2(D - 1), 1)) else None)
  }

  lemma HalvedColumnTiles(D: nat)
    requires D >= 1
    ensures WellFormed(D, HalvedColumn(D)) && Tiles(D, HalvedColumn(D))
  {
    var col, half := HalvedColumn(D), Pow2(D - 1);
    DivModUnique(0, half, 0, 0);
    DivModUnique(half, half, 1, 0);
    assert Pow2(D) == 2 * half;
    assert col[0] == Some(TestBlock(0, 1)) && col[half] == Some(TestBlock(half, 1));
    assert Span(D, TestBlock(0, 1)) == half && Span(D, TestBlock(half, 1)) == half;
    assert forall i :: 0 < i < |col| && i != half ==> col[i].None?;
    forall v | 0 <= v < Pow2(D) ensures Covered(D, col, v) {
      assert if v < half then Owns(D, col, 0, v) else Owns(D, col, half, v);
    }
  }

  /** For every other length the key 1000 0000 0000 0000 falls on neither half. */
  lemma HalvedColumnLosesAKey(D: nat)
    requires 1 <= D <= HASH_HEX_LEN && D != 3
    ensures !RoutedToOne(HalvedColumn(D), MASK_LIMIT / 2)
  {
    var col, half, mask := HalvedColumn(D), Pow2(D - 1), MASK_LIMIT / 2;
    MaskLimit();
    assert mask == Pow2(15) && Pow2(15) / Pow2(15) == 1;
    assert Pow2(D) == 2 * half && col[0] == Some(TestBlock(0, 1)) && col[half] == Some(TestBlock(half, 1));
    assert !RoutedTo(col, 0, mask) by {
      DivModUnique(0 * Pow2(13), Pow2(15), 0, 0);
    }
    assert !RoutedTo(col, half, mask) by {
      Pow2Sum(D - 1, 13);
      if D >= 3 {
        Pow2Sum(D - 3, 15);
        DivModUnique(half * Pow2(13), Pow2(15), Pow2(D - 3), 0);
        assert Pow2(D - 3) != 1;
      } else {
        Pow2Grows(D - 1 + 13, 15);
        DivModUnique(half * Pow2(13), Pow2(15), 0, half * Pow2(13));
      }
    }
  }

  /** Every key belongs to exactly one active branch of every tiling column exactly when L is 8 (or 1). */
  lemma RoutingIsExactIff(D: nat)
    requires D <= HASH_HEX_LEN
    ensures (forall col: Column, mask: nat ::
               WellFormed(D, col) && Tiles(D, col) && mask < MASK_LIMIT ==> RoutedToOne(col, mask))
       <==> RoutesExactly(D)
  {
    if RoutesExactly(D) {
      forall col: Column, mask: nat | WellFormed(D, col) && Tiles(D, col) && mask < MASK_LIMIT
        ensures RoutedToOne(col, mask)
      {
        TilingRoutesToOne(D, col, mask);
      }
    } else {
      HalvedColumnTiles(D);
      HalvedColumnLosesAKey(D);
    }
  }

  ghost predicate RoutedToTwo(col: Column, mask: nat) {
    exists i: nat, j: nat :: i != j && RoutedTo(col, i, mask) && RoutedTo(col, j, mask)
  }

  /** No key is ever routed to two branches of a column, exactly when L is not 2 or 4. */
  lemma RoutedTwiceNeverIff(D: nat)
    ensures (forall col: Column, mask: nat :: WellFormed(D, col) ==> !RoutedToTwo(col, mask)) <==> NeverRoutesTwice(D)
  {
    if NeverRoutesTwice(D) {
      forall col: Column, mask: nat | WellFormed(D, col) ensures !RoutedToTwo(col, mask) {
        if i: nat, j: nat :| i != j && RoutedTo(col, i, mask) && RoutedTo(col, j, mask) {
          RoutedAtMostOnce(D, col, i, j, mask);
          assert false;
        }
      }
    } else {
      var col, half := HalvedColumn(D), Pow2(D - 1);
      HalvedColumnTiles(D);
      assert Pow2(D) == 2 * half && col[0] == Some(TestBlock(0, 1)) && col[half] == Some(TestBlock(half, 1));
      Pow2Sum(D - 1, 13);
      Pow2Grows(D - 1 + 13, 15);
      DivModUnique(half * Pow2(13), Pow2(15), 0, half * Pow2(13));
      DivModUnique(0 * Pow2(13), Pow2(15), 0, 0);
      DivModUnique(0, Pow2(15), 0, 0);
      assert RoutedTo(col, 0, 0) && RoutedTo(col, half, 0);
      assert RoutedToTwo(col, 0);
    }
  }
}
