/** The specification layer of the DAG: a column as a family of disjoint dyadic row intervals. */
module Columns {
  import opened Types
  import opened Powers

  /** Entry i is the block of the column whose Row is i, if there is one. */
  type Column = seq<Option<Block>>

  function At(col: Column, i: int): Option<Block> {
    if 0 <= i < |col| then col[i] else None
  }

  function Span(D: nat, b: Block): nat
    requires b.depth <= D
  {
    Pow2(D - b.depth)
  }

  predicate Placed(D: nat, b: Block, i: nat) {
    b.row == i && b.depth <= D && i % Pow2(D - b.depth) == 0
  }

  /** Depths in range, rows aligned to the length of their interval, intervals pairwise disjoint. */
  ghost predicate WellFormed(D: nat, col: Column) {
    && |col| == Pow2(D)
    && (forall i :: 0 <= i < |col| && col[i].Some? ==> Placed(D, col[i].value, i))
    && (forall i, j :: 0 <= i < j < |col| && col[i].Some? && col[j].Some? ==> i + Span(D, col[i].value) <= j)
  }

  predicate Owns(D: nat, col: Column, i: nat, v: int) {
    i < |col| && col[i].Some? && col[i].value.depth <= D && i <= v < i + Span(D, col[i].value)
  }

  /** Row v lies in the interval of some block of the column. */
  ghost predicate Covered(D: nat, col: Column, v: int) {
    exists i: nat :: Owns(D, col, i, v)
  }

  ghost predicate Tiles(D: nat, col: Column) {
    forall v :: 0 <= v < Pow2(D) ==> Covered(D, col, v)
  }

  lemma InsideColumn(D: nat, col: Column, i: nat)
    requires WellFormed(D, col) && i < |col| && col[i].Some?
    ensures i + Span(D, col[i].value) <= |col|
  {
    AlignedFits(i, D - col[i].value.depth, D);
  }

  // ---------------------------------------------------------------- Kraft sum

  /** Sum of 2^(D - Depth) over the blocks at rows n and above. */
  function KraftFrom(D: nat, col: Column, n: nat): nat
    requires n <= |col| && forall i :: 0 <= i < |col| && col[i].Some? ==> col[i].value.depth <= D
    decreases |col| - n
  {
    if n == |col| then 0
    else (if col[n].Some? then Span(D, col[n].value) else 0) + KraftFrom(D, col, n + 1)
  }

  function Rows(lo: int, hi: int): (s: set<int>)
    ensures forall v :: v in s <==> lo <= v < hi
    ensures |s| == if lo <= hi then hi - lo else 0
    decreases hi - lo
  {
    if lo >= hi then {} else Rows(lo, hi - 1) + {hi - 1}
  }

  ghost predicate CoveredFrom(D: nat, col: Column, n: nat, v: int) {
    exists i: nat :: n <= i && Owns(D, col, i, v)
  }

  ghost function CoveredRows(D: nat, col: Column, n: nat): set<int> {
    set v | 0 <= v < Pow2(D) && CoveredFrom(D, col, n, v)
  }

  /** The Kraft sum of a well-formed column counts the rows it covers. */
  lemma {:induction false} KraftCountsCoveredRows(D: nat, col: Column, n: nat)
    requires WellFormed(D, col) && n <= |col|
    ensures KraftFrom(D, col, n) == |CoveredRows(D, col, n)|
    decreases |col| - n
  {
    if n == |col| {
      assert CoveredRows(D, col, n) == {};
    } else {
      KraftCountsCoveredRows(D, col, n + 1);
      CoveredRowsStep(D, col, n);
    }
  }

  lemma CoveredRowsStep(D: nat, col: Column, n: nat)
    requires WellFormed(D, col) && n < |col|
    ensures |CoveredRows(D, col, n)|
         == (if col[n].Some? then Span(D, col[n].value) else 0) + |CoveredRows(D, col, n + 1)|
  {
    var above := CoveredRows(D, col, n + 1);
    if col[n].None? {
      assert CoveredRows(D, col, n) == above;
    } else {
      var own := Rows(n, n + Span(D, col[n].value));
      forall v ensures v in CoveredRows(D, col, n) <==> v in own || v in above {
        CoveredOnce(D, col, n, v);
      }
      hide CoveredRows;
      forall v | v in above ensures v !in own {
        CoveredOnce(D, col, n, v);
      }
      assert CoveredRows(D, col, n) == own + above;
    }
  }

  /** The block at row n covers its own interval, and nothing that the blocks above it cover. */
  lemma CoveredOnce(D: nat, col: Column, n: nat, v: int)
    requires WellFormed(D, col) && n < |col| && col[n].Some?
    ensures var own := n <= v < n + Span(D, col[n].value);
      && (v in CoveredRows(D, col, n) <==> own || v in CoveredRows(D, col, n + 1))
      && (own ==> v !in CoveredRows(D, col, n + 1))
  {
    InsideColumn(D, col, n);
    if n <= v < n + Span(D, col[n].value) {
      assert Owns(D, col, n, v);
    }
  }

  lemma TilingKraft(D: nat, col: Column)
    requires WellFormed(D, col) && Tiles(D, col)
    ensures KraftFrom(D, col, 0) == Pow2(D)
  {
    KraftCountsCoveredRows(D, col, 0);
    assert CoveredRows(D, col, 0) == Rows(0, Pow2(D)) by {
      forall v | 0 <= v < Pow2(D) ensures CoveredFrom(D, col, 0, v) {
        assert Covered(D, col, v);
      }
    }
  }
}
