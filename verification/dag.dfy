/** node-implementation/dag.go: buddy rows, the backward block scan, the decision for one row and the
    transaction routing test. */
module Dag {
  import opened Types
  import opened Powers

  // ---------------------------------------------------------------- buddy rows

  function GetSplitSecondIndex(maxDepth: nat, index: nat, depth: nat): int {
    var level := if depth == 0 then maxDepth else depth - 1;
    index + Pow2(maxDepth) / Pow2(level + 1)
  }

  /** The modulus ladder, rung by rung. */
  function GetMergeSecondIndex(maxDepth: nat, index: nat, depth: nat): int {
    if depth == 0 || index % 2 != 0 then -1
    else if index == 0 then GetSplitSecondIndex(maxDepth, index, depth)
    else if index % 32 == 0 then
      if depth < maxDepth - 4 then -1 else GetSplitSecondIndex(maxDepth, index, depth)
    else if index % 16 == 0 then
      if depth < maxDepth - 3 then -1 else GetSplitSecondIndex(maxDepth, index, depth)
    else if index % 8 == 0 then
      if depth < maxDepth - 2 then -1 else GetSplitSecondIndex(maxDepth, index, depth)
    else if index % 4 == 0 then
      if depth < maxDepth - 1 then -1 else GetSplitSecondIndex(maxDepth, index, depth)
    else
      if depth < maxDepth then -1 else GetSplitSecondIndex(maxDepth, index, depth)
  }

  /** The row that a buddy allocator would merge with: the upper half of the enclosing interval. */
  function RightBuddy(maxDepth: nat, row: nat, depth: nat): int
    requires depth <= maxDepth
  {
    if depth > 0 && row % Pow2(maxDepth - depth + 1) == 0 then row + Pow2(maxDepth - depth) else -1
  }

  lemma SplitSecondIndexIsUpperHalf(maxDepth: nat, index: nat, depth: nat)
    requires depth <= maxDepth
    ensures GetSplitSecondIndex(maxDepth, index, depth)
         == if depth == 0 then index else index + Pow2(maxDepth - depth)
  {
    if depth == 0 {
      DivModUnique(Pow2(maxDepth), Pow2(maxDepth + 1), 0, Pow2(maxDepth));
    } else {
      Pow2Sum(maxDepth - depth, depth);
      DivModUnique(Pow2(maxDepth), Pow2(depth), Pow2(maxDepth - depth), 0);
    }
  }

  /** The rungs of the ladder test divisibility by 2^(h+1), where 2^h is the length of the interval. */
  lemma LadderTestsDivisibility(row: nat, h: nat)
    requires h <= 4
    ensures row % Pow2(h + 1) == 0 <==>
              row % 2 == 0 && (row == 0 || row % 32 == 0 || (row % 16 == 0 && h <= 3) || (row % 8 == 0 && h <= 2)
                               || (row % 4 == 0 && h <= 1) || h == 0)
  {
    assert Pow2(1) == 2 && Pow2(2) == 4 && Pow2(3) == 8 && Pow2(4) == 16 && Pow2(5) == 32;
    hide Pow2;
    RungsNest(row);
  }

  /** Exactly what the ladder computes, for every power of two: the right buddy, except that above row 0 it
      recognises no interval longer than 16 rows. */
  lemma MergeSecondIndexExact(maxDepth: nat, row: nat, depth: nat)
    requires depth <= maxDepth
    ensures GetMergeSecondIndex(maxDepth, row, depth)
         == if row == 0 || maxDepth - depth <= 4 then RightBuddy(maxDepth, row, depth) else -1
  {
    if depth > 0 {
      var h := maxDepth - depth;
      SplitSecondIndexIsUpperHalf(maxDepth, row, depth);
      if row == 0 {
        DivModUnique(0, Pow2(h + 1), 0, 0);
      } else if h <= 4 {
        LadderTestsDivisibility(row, h);
        LadderOnShortIntervals(maxDepth, row, depth);
      }
    }
  }

  lemma LadderOnShortIntervals(maxDepth: nat, row: nat, depth: nat)
    requires 0 < depth <= maxDepth <= depth + 4 && row > 0
    ensures GetMergeSecondIndex(maxDepth, row, depth)
         == if row % Pow2(maxDepth - depth + 1) == 0 then GetSplitSecondIndex(maxDepth, row, depth) else -1
  {
    LadderTestsDivisibility(row, maxDepth - depth);
    RungsNest(row);
    var upper := GetSplitSecondIndex(maxDepth, row, depth);
    if row % 2 != 0 {
      assert GetMergeSecondIndex(maxDepth, row, depth) == -1;
    } else if row % 32 == 0 {
      assert GetMergeSecondIndex(maxDepth, row, depth) == upper;
    } else if row % 16 == 0 {
      assert GetMergeSecondIndex(maxDepth, row, depth) == if depth < maxDepth - 3 then -1 else upper;
    } else if row % 8 == 0 {
      assert GetMergeSecondIndex(maxDepth, row, depth) == if depth < maxDepth - 2 then -1 else upper;
    } else if row % 4 == 0 {
      assert GetMergeSecondIndex(maxDepth, row, depth) == if depth < maxDepth - 1 then -1 else upper;
    } else {
      assert GetMergeSecondIndex(maxDepth, row, depth) == if depth < maxDepth then -1 else upper;
    }
  }

  lemma RungsNest(row: nat)
    ensures row % 32 == 0 ==> row % 16 == 0
    ensures row % 16 == 0 ==> row % 8 == 0
    ensures row % 8 == 0 ==> row % 4 == 0
    ensures row % 4 == 0 ==> row % 2 == 0
  {
    assert Pow2(1) == 2 && Pow2(2) == 4 && Pow2(3) == 8 && Pow2(4) == 16 && Pow2(5) == 32;
    if row % 32 == 0 { HalvesAligned(row, 5); }
    if row % 16 == 0 { HalvesAligned(row, 4); }
    if row % 8 == 0 { HalvesAligned(row, 3); }
    if row % 4 == 0 { HalvesAligned(row, 2); }
  }

  lemma {:induction false} AlignedDown(row: nat, low: nat, high: nat)
    requires low <= high && row % Pow2(high) == 0
    ensures row % Pow2(low) == 0
    decreases high
  {
    if low < high {
      HalvesAligned(row, high);
      AlignedDown(row, low, high - 1);
    }
  }

  /** The ladder is the buddy specification on every row and depth exactly when L is at most 64, the largest
      length the setup dialogue offers. */
  lemma MergeSecondIndexRefinesBuddy(maxDepth: nat)
    ensures (forall row: nat, depth: nat {:trigger RightBuddy(maxDepth, row, depth)} ::
              row < Pow2(maxDepth) && depth <= maxDepth ==>
                GetMergeSecondIndex(maxDepth, row, depth) == RightBuddy(maxDepth, row, depth))
       <==> maxDepth <= 6
  {
    assert Pow2(6) == 64 by {
      assert Pow2(3) == 8;
    }
    if maxDepth <= 6 {
      forall row: nat, depth: nat | row < Pow2(maxDepth) && depth <= maxDepth
        ensures GetMergeSecondIndex(maxDepth, row, depth) == RightBuddy(maxDepth, row, depth)
      {
        MergeSecondIndexExact(maxDepth, row, depth);
        if row > 0 && maxDepth - depth > 4 && depth > 0 {
          assert maxDepth == 6 && depth == 1;
          DivModUnique(row, 64, 0, row);
        }
      }
    } else {
      Pow2Grows(6, maxDepth);
      MergeSecondIndexExact(maxDepth, 64, maxDepth - 5);
      assert RightBuddy(maxDepth, 64, maxDepth - 5) == 64 + Pow2(5);
    }
  }

  // ---------------------------------------------------------------- the backward scan

  predicate NonDecreasingCol(chain: seq<Block>) {
    forall i, j :: 0 <= i < j < |chain| ==> chain[i].col <= chain[j].col
  }

  /** The loop of decideAction: newest block first, giving up at the first older column. */
  function ScanBack(chain: seq<Block>, col: int, row: int): Option<Block> {
    if chain == [] then None
    else
      var b := chain[|chain| - 1];
      if b.col == col && b.row == row then Some(b)
      else if b.col < col then None
      else ScanBack(chain[..|chain| - 1], col, row)
  }

  /** A match that no later block of an older column hides from the scan. */
  ghost predicate Visible(chain: seq<Block>, col: int, row: int, i: nat) {
    i < |chain| && chain[i].col == col && chain[i].row == row && forall j :: i < j < |chain| ==> chain[j].col >= col
  }

  lemma VisibleBelow(chain: seq<Block>, col: int, row: int, i: nat)
    requires chain != [] && i < |chain| - 1
    ensures Visible(chain, col, row, i) <==>
              Visible(chain[..|chain| - 1], col, row, i) && chain[|chain| - 1].col >= col
  {
    var last := |chain| - 1;
    assert forall j :: 0 <= j < last ==> chain[..last][j] == chain[j];
  }

  /** Exactly when the scan finds a block, whatever the order of the chain: some match must be visible. */
  lemma {:induction false} ScanBackExact(chain: seq<Block>, col: int, row: int)
    ensures ScanBack(chain, col, row).Some? <==> exists i: nat :: Visible(chain, col, row, i)
    ensures ScanBack(chain, col, row).Some? ==>
              var b := ScanBack(chain, col, row).value;
              b in chain && b.col == col && b.row == row
    ensures forall i: nat :: Visible(chain, col, row, i)
                             && (forall j :: i < j < |chain| ==> !(chain[j].col == col && chain[j].row == row))
              ==> ScanBack(chain, col, row) == Some(chain[i])
  {
    if chain != [] {
      var last := |chain| - 1;
      var b := chain[last];
      if b.col == col && b.row == row {
        assert Visible(chain, col, row, last);
      } else {
        var below := ScanBack(chain[..last], col, row);
        ScanBackExact(chain[..last], col, row);
        if i: nat :| Visible(chain, col, row, i) {
          assert i < last;
          VisibleBelow(chain, col, row, i);
        }
        if b.col >= col && below.Some? {
          var i: nat :| Visible(chain[..last], col, row, i);
          VisibleBelow(chain, col, row, i);
        }
      }
    }
  }

  /** On a chain whose columns never decrease, giving up early loses nothing. */
  lemma {:induction false} ScanBackSearchesWholeChain(chain: seq<Block>, col: int, row: int)
    requires NonDecreasingCol(chain)
    ensures ScanBack(chain, col, row).Some? <==> exists b :: b in chain && b.col == col && b.row == row
  {
    ScanBackExact(chain, col, row);
    if b :| b in chain && b.col == col && b.row == row {
      var i :| 0 <= i < |chain| && chain[i] == b;
      assert Visible(chain, col, row, i);
    }
  }

  // ---------------------------------------------------------------- the decision

  /** The three tests of decideAction on the parent found for a row and the block found for its buddy. */
  function DecideFrom(p: Params, parent: Option<Block>, second: Option<Block>): DagAction {
    if parent.None? then DagAction(Skip, None, None)
    else
      var b := parent.value;
      if |b.transactions| >= p.minTxToSplit && b.depth < p.maxDepth then
        DagAction(Split, parent, None)
      else if b.depth > 0 && second.Some? && b.depth == second.value.depth
              && |b.transactions| + |second.value.transactions| <= p.minTxToMerge then
        DagAction(Merge, parent, second)
      else
        DagAction(Continue, parent, None)
  }

  function Decide(p: Params, chain: seq<Block>, index: nat, column: int): DagAction {
    var parent := ScanBack(chain, column - 1, index);
    if parent.None? then DecideFrom(p, None, None)
    else
      var secondIndex := GetMergeSecondIndex(p.maxDepth, parent.value.row, parent.value.depth);
      DecideFrom(p, parent, if secondIndex >= 0 then ScanBack(chain, column - 1, secondIndex) else None)
  }

  lemma {:induction false} ScanIgnoresNewer(chain: seq<Block>, newer: seq<Block>, col: int, row: int)
    requires forall b :: b in newer ==> b.col > col
    ensures ScanBack(chain + newer, col, row) == ScanBack(chain, col, row)
  {
    if newer == [] {
      assert chain + newer == chain;
    } else {
      var init, last := newer[..|newer| - 1], newer[|newer| - 1];
      assert last in newer;
      assert (chain + newer)[..|chain + newer| - 1] == chain + init;
      ScanIgnoresNewer(chain, init, col, row);
    }
  }

  /** A decision does not depend on the blocks of the column under construction that have already arrived. */
  lemma DecideIgnoresNewer(p: Params, chain: seq<Block>, newer: seq<Block>, index: nat, column: int)
    requires forall b :: b in newer ==> b.col >= column
    ensures Decide(p, chain + newer, index, column) == Decide(p, chain, index, column)
  {
    ScanIgnoresNewer(chain, newer, column - 1, index);
    var parent := ScanBack(chain, column - 1, index);
    if parent.Some? {
      var second := GetMergeSecondIndex(p.maxDepth, parent.value.row, parent.value.depth);
      ScanIgnoresNewer(chain, newer, column - 1, second);
    }
  }

  // ---------------------------------------------------------------- transaction routing

  const HASH_HEX_LEN: nat := 16

  /** The first k hash characters read as bits: below '8' is 0, anything else is 1. */
  function Bits(hash: string, k: nat): (v: nat)
    requires k <= |hash|
    ensures v < Pow2(k)
  {
    if k == 0 then 0
    else 2 * Bits(hash, k - 1) + (if hash[k - 1] < '8' then 0 else 1)
  }

  method CalculateTxHashMasks(txs: array<Tx>)
    requires forall i :: 0 <= i < txs.Length ==> |txs[i].hash| >= HASH_HEX_LEN
    modifies txs
    ensures forall i :: 0 <= i < txs.Length ==>
              txs[i].hash == old(txs[i].hash) && |txs[i].hash| >= HASH_HEX_LEN
              && txs[i].mask == Bits(txs[i].hash, HASH_HEX_LEN)
  {
    for t := 0 to txs.Length
      invariant forall i :: t <= i < txs.Length ==> txs[i] == old(txs[i])
      invariant forall i :: 0 <= i < txs.Length ==> txs[i].hash == old(txs[i].hash) && |txs[i].hash| >= HASH_HEX_LEN
      invariant forall i :: 0 <= i < t ==> txs[i].mask == Bits(txs[i].hash, HASH_HEX_LEN)
    {
      var tx := txs[t];
      var txInput := 0;
      hide Pow2;
      for i := 0 to HASH_HEX_LEN
        invariant txInput == Bits(tx.hash, i)
      {
        if tx.hash[i] < '8' {
          txInput := txInput * 2;
        } else {
          txInput := txInput * 2 + 1;
        }
      }
      txs[t] := tx.(mask := txInput);
    }
  }

  /** The routing key shifted right is the key of a shorter prefix: the branch of a transaction is decided by
      its leading hash characters alone. */
  lemma {:induction false} BitsPrefix(hash: string, k: nat, n: nat)
    requires k <= n <= |hash|
    ensures Bits(hash, n) / Pow2(n - k) == Bits(hash, k)
  {
    if k == n {
    } else {
      BitsPrefix(hash, k, n - 1);
      var bit := if hash[n - 1] < '8' then 0 else 1;
      DivModUnique(Bits(hash, n), 2, Bits(hash, n - 1), bit);
      SplitQuotient(Bits(hash, n), 2, Pow2(n - 1 - k));
    }
  }

  /** Bit i of the key, counted from the top, says whether hash character i is '8' or above. */
  lemma BitAt(hash: string, i: nat, n: nat)
    requires i < n <= |hash|
    ensures Bits(hash, n) / Pow2(n - 1 - i) % 2 == if hash[i] < '8' then 0 else 1
  {
    BitsPrefix(hash, i + 1, n);
  }

  /** What the comparison loop decides; shifts are written as multiplication and division. */
  predicate BelongsToIndex(mask: nat, depth: nat, index: nat)
    requires depth <= HASH_HEX_LEN
  {
    if depth == 0 then index == 0
    else index * Pow2(HASH_HEX_LEN - 3) / Pow2(HASH_HEX_LEN - depth) == mask / Pow2(HASH_HEX_LEN - depth)
  }

  lemma PrefixDiffers(a: nat, b: nat, depth: nat, i: nat)
    requires i < depth <= HASH_HEX_LEN && a / Pow2(HASH_HEX_LEN - i - 1) != b / Pow2(HASH_HEX_LEN - i - 1)
    ensures a / Pow2(HASH_HEX_LEN - depth) != b / Pow2(HASH_HEX_LEN - depth)
  {
    hide Pow2;
    DivDiv(a, HASH_HEX_LEN - depth, depth - i - 1);
    DivDiv(b, HASH_HEX_LEN - depth, depth - i - 1);
  }

  method DoesTxBelongToIndex(tx: Tx, depth: nat, index: nat) returns (belongs: bool)
    requires depth <= HASH_HEX_LEN
    ensures belongs <==> BelongsToIndex(tx.mask, depth, index)
  {
    if depth == 0 {
      return index == 0;
    }
    hide Pow2;
    var mask := index * Pow2(HASH_HEX_LEN - 2 - 1);
    for i := 0 to depth
      invariant i > 0 ==> mask / Pow2(HASH_HEX_LEN - i) == tx.mask / Pow2(HASH_HEX_LEN - i)
    {
      if mask / Pow2(HASH_HEX_LEN - i - 1) != tx.mask / Pow2(HASH_HEX_LEN - i - 1) {
        PrefixDiffers(mask, tx.mask, depth, i);
        return false;
      }
    }
    return true;
  }
}
