/** One round of blockGenerationSchedule seen on a column: the final actions, the blocks they may create,
    and what every round keeps of the branch structure. */
module Schedule {
  import opened Types
  import opened Sets
  import opened Powers
  import opened Dag
  import opened Columns
  import opened FixUp

  function FinalActions(p: Params, col: Column): (fin: seq<DagAction>)
    ensures |fin| == |col|
  {
    MergesThenSplits(p.maxDepth, DecideAll(p, col))
  }

  /** What the final action of a row says about the column it was decided on. */
  ghost predicate RowFacts(D: nat, col: Column, fin: seq<DagAction>, i: nat)
    requires i < |col| == |fin|
    requires forall k :: 0 <= k < |col| && col[k].Some? ==> col[k].value.depth <= D
  {
    var a := fin[i];
    match a.action
    case Continue => a.parent.Some? && a.parent == col[i] && a.second.None?
    case Split =>
      && a.parent.Some? && a.parent == col[i] && a.second.None? && a.parent.value.depth < D
      && (var u := i + Pow2(D - a.parent.value.depth - 1);
          u < |col| && fin[u].action == SplitSnd && fin[u].parent == a.parent)
    case SplitSnd =>
      && a.parent.Some? && a.second.None? && col[i].None?
      && (var b := a.parent.value;
          b.row < i && col[b.row] == a.parent && b.depth < D && i == b.row + Pow2(D - b.depth - 1)
          && fin[b.row].action == Split)
    case Merge =>
      && a.parent.Some? && a.parent == col[i] && a.second.Some? && a.parent.value.depth > 0
      && i % Pow2(D - a.parent.value.depth + 1) == 0
      && (var s := i + Pow2(D - a.parent.value.depth);
          s < |col| && a.second == col[s] && a.second.value.depth == a.parent.value.depth && fin[s].action == Skip)
    case Skip =>
      col[i].Some? ==>
        var m := i - Pow2(D - col[i].value.depth);
        m >= 0 && fin[m].action == Merge && col[m].Some? && col[m].value.depth == col[i].value.depth
  }

  lemma FinalActionFacts(p: Params, col: Column)
    requires WellFormed(p.maxDepth, col)
    ensures forall i: nat :: i < |col| ==> RowFacts(p.maxDepth, col, FinalActions(p, col), i)
  {
    hide GetSplitSecondIndex, DecideOn;
    var D, acts, fin := p.maxDepth, DecideAll(p, col), FinalActions(p, col);
    DecisionsAreConflictFree(p, col);
    ApplySplitsResolves(D, acts, |acts|);
    forall i: nat | i < |col| ensures RowFacts(D, col, fin, i) {
      assert Resolved(D, acts, |acts|, i, fin[i]);
      DecideOnFacts(p, col, i);
      if Closed(acts, |acts|, i) {
        ClosedRowFacts(p, col, i);
      } else if m: nat :| m < |acts| && SplitsInto(D, acts, m, i) && !Closed(acts, |acts|, m) {
        OpenedRowFacts(p, col, m, i);
      } else {
        assert fin[i] == acts[i];
        KeptRowFacts(p, col, i);
      }
    }
  }

  lemma ClosedRowFacts(p: Params, col: Column, i: nat)
    requires WellFormed(p.maxDepth, col) && i < |col| && Closed(DecideAll(p, col), |col|, i)
    ensures col[i].Some? && FinalActions(p, col)[i].action == Skip
    ensures RowFacts(p.maxDepth, col, FinalActions(p, col), i)
  {
    hide GetSplitSecondIndex, DecideOn;
    var D, acts, fin := p.maxDepth, DecideAll(p, col), FinalActions(p, col);
    DecisionsAreConflictFree(p, col);
    ApplySplitsResolves(D, acts, |acts|);
    assert Resolved(D, acts, |acts|, i, fin[i]);
    var m: nat :| m < |acts| && MergesInto(acts, m, i);
    DecideOnFacts(p, col, m);
    MergeTarget(p, col, m, i);
    MergeStays(p, col, m);
  }

  lemma MergeStays(p: Params, col: Column, m: nat)
    requires WellFormed(p.maxDepth, col) && m < |col| && DecideAll(p, col)[m].action == Merge
    ensures FinalActions(p, col)[m] == DecideAll(p, col)[m]
  {
    hide GetSplitSecondIndex, DecideOn;
    var D, acts, fin := p.maxDepth, DecideAll(p, col), FinalActions(p, col);
    DecisionsAreConflictFree(p, col);
    ApplySplitsResolves(D, acts, |acts|);
    assert Resolved(D, acts, |acts|, m, fin[m]);
    assert !Closed(acts, |acts|, m);
  }

  lemma OpenedRowFacts(p: Params, col: Column, m: nat, i: nat)
    requires WellFormed(p.maxDepth, col) && m < |col| && i < |col|
    requires SplitsInto(p.maxDepth, DecideAll(p, col), m, i) && !Closed(DecideAll(p, col), |col|, m)
    ensures FinalActions(p, col)[i].action == SplitSnd && FinalActions(p, col)[i].parent == col[m]
    ensures RowFacts(p.maxDepth, col, FinalActions(p, col), i)
  {
    hide GetSplitSecondIndex, DecideOn;
    var D, acts, fin := p.maxDepth, DecideAll(p, col), FinalActions(p, col);
    DecisionsAreConflictFree(p, col);
    ApplySplitsResolves(D, acts, |acts|);
    assert Resolved(D, acts, |acts|, i, fin[i]);
    assert Resolved(D, acts, |acts|, m, fin[m]);
    DecideOnFacts(p, col, m);
    DecideOnFacts(p, col, i);
    SplitTarget(p, col, m);
    assert fin[i] == acts[i].(action := SplitSnd, parent := acts[m].parent);
    assert fin[m] == acts[m];
  }

  lemma KeptRowFacts(p: Params, col: Column, i: nat)
    requires WellFormed(p.maxDepth, col) && i < |col|
    requires FinalActions(p, col)[i] == DecideAll(p, col)[i] && !Closed(DecideAll(p, col), |col|, i)
    ensures RowFacts(p.maxDepth, col, FinalActions(p, col), i)
  {
    hide GetSplitSecondIndex, DecideOn;
    hide FinalActions;
    var D, acts := p.maxDepth, DecideAll(p, col);
    DecideOnFacts(p, col, i);
    if acts[i].action == Split {
      SplitTarget(p, col, i);
      var u := i + Pow2(D - col[i].value.depth - 1);
      assert SplitsInto(D, acts, i, u);
      OpenedRowFacts(p, col, i, u);
    } else if acts[i].action == Merge {
      var s := i + Span(D, col[i].value);
      assert MergesInto(acts, i, s);
      ClosedRowFacts(p, col, s);
    }
  }

  lemma MergePartner(p: Params, col: Column, i: nat)
    requires WellFormed(p.maxDepth, col) && i < |col| && FinalActions(p, col)[i].action == Merge
    ensures var a := FinalActions(p, col)[i];
      && a.second.Some? && col[i].Some?
      && (var s := a.second.value.row;
          && i < s < |col| && col[s] == a.second && FinalActions(p, col)[s].action == Skip
          && a.second.value.depth == col[i].value.depth && s == i + Span(p.maxDepth, col[i].value))
  {
    hide FinalActions;
    FinalActionFacts(p, col);
    assert RowFacts(p.maxDepth, col, FinalActions(p, col), i);
  }

  lemma ClosedByMerge(p: Params, col: Column, j: nat) returns (m: nat)
    requires WellFormed(p.maxDepth, col) && j < |col| && col[j].Some? && FinalActions(p, col)[j].action == Skip
    ensures m < |col| && FinalActions(p, col)[m].action == Merge
    ensures FinalActions(p, col)[m].second.Some? && FinalActions(p, col)[m].second.value.row == j
  {
    hide FinalActions;
    FinalActionFacts(p, col);
    assert RowFacts(p.maxDepth, col, FinalActions(p, col), j);
    m := j - Pow2(p.maxDepth - col[j].value.depth);
    MergePartner(p, col, m);
  }

  lemma SplitPartner(p: Params, col: Column, j: nat)
    requires WellFormed(p.maxDepth, col) && j < |col| && FinalActions(p, col)[j].action == SplitSnd
    ensures var a := FinalActions(p, col)[j];
      && a.parent.Some? && col[j].None?
      && (var i := a.parent.value.row;
          && i < j && col[i] == a.parent && FinalActions(p, col)[i].action == Split
          && a.parent.value.depth < p.maxDepth && j == i + Pow2(p.maxDepth - a.parent.value.depth - 1))
  {
    hide FinalActions;
    FinalActionFacts(p, col);
    assert RowFacts(p.maxDepth, col, FinalActions(p, col), j);
  }

  lemma OpenedBySplit(p: Params, col: Column, i: nat) returns (u: nat)
    requires WellFormed(p.maxDepth, col) && i < |col| && FinalActions(p, col)[i].action == Split
    ensures u < |col| && FinalActions(p, col)[u].action == SplitSnd
    ensures FinalActions(p, col)[u].parent.Some? && FinalActions(p, col)[u].parent.value.row == i
  {
    hide FinalActions;
    FinalActionFacts(p, col);
    assert RowFacts(p.maxDepth, col, FinalActions(p, col), i);
    u := i + Pow2(p.maxDepth - col[i].value.depth - 1);
  }

  // ---------------------------------------------------------------- the next column

  /** The depth rule of the creation loop. */
  function NextDepth(a: DagAction): int
    requires a.parent.Some?
  {
    match a.action
    case Continue => a.parent.value.depth
    case Split => a.parent.value.depth + 1
    case SplitSnd => a.parent.value.depth + 1
    case Merge => a.parent.value.depth - 1
    case Skip => 0
  }

  /** Any outcome of a round: each active row yields its block or, if its leader is absent, nothing. */
  ghost predicate NextColumn(fin: seq<DagAction>, next: Column) {
    && |next| == |fin|
    && forall i :: 0 <= i < |next| && next[i].Some? ==>
         fin[i].action != Skip && fin[i].parent.Some?
         && next[i].value.row == i && next[i].value.depth == NextDepth(fin[i])
  }

  ghost predicate NoneMissed(fin: seq<DagAction>, next: Column) {
    |next| == |fin| && forall i :: 0 <= i < |fin| && fin[i].action != Skip ==> next[i].Some?
  }

  /** The interval of the new block at an active row, and where it comes from. */
  lemma NewInterval(p: Params, col: Column, i: nat)
    requires WellFormed(p.maxDepth, col) && i < |col| && FinalActions(p, col)[i].action != Skip
    ensures var D, a := p.maxDepth, FinalActions(p, col)[i];
      && a.parent.Some? && 0 <= NextDepth(a) <= D && i % Pow2(D - NextDepth(a)) == 0
      && i + Pow2(D - NextDepth(a)) <= |col|
      && (var b := a.parent.value;
          && b.row <= i && col[b.row] == a.parent
          && (a.action == Merge ==> b.row == i && Pow2(D - NextDepth(a)) == 2 * Span(D, b))
          && (a.action != Merge ==> i + Pow2(D - NextDepth(a)) <= b.row + Span(D, b))
          && (a.action == Split ==> b.row == i && 2 * Pow2(D - NextDepth(a)) == Span(D, b))
          && (a.action == Continue ==> b.row == i && Pow2(D - NextDepth(a)) == Span(D, b))
          && (a.action == SplitSnd ==> b.row < i && i + Pow2(D - NextDepth(a)) == b.row + Span(D, b)))
  {
    hide FinalActions;
    FinalActionFacts(p, col);
    var D, a := p.maxDepth, FinalActions(p, col)[i];
    assert RowFacts(D, col, FinalActions(p, col), i);
    var b := a.parent.value;
    if a.action == Split || a.action == SplitSnd {
      HalvesAligned(b.row, D - b.depth);
    }
    AlignedFits(i, D - NextDepth(a), D);
  }

  /** Two new blocks never overlap. */
  lemma NewIntervalsDisjoint(p: Params, col: Column, i: nat, j: nat)
    requires WellFormed(p.maxDepth, col) && i < j < |col|
    requires FinalActions(p, col)[i].action != Skip && FinalActions(p, col)[j].action != Skip
    requires FinalActions(p, col)[i].parent.Some?
    requires 0 <= NextDepth(FinalActions(p, col)[i]) <= p.maxDepth
    ensures i + Pow2(p.maxDepth - NextDepth(FinalActions(p, col)[i])) <= j
  {
    hide FinalActions, NextDepth, RowFacts, Pow2;
    NewInterval(p, col, i);
    NewInterval(p, col, j);
    var fin := FinalActions(p, col);
    hide WellFormed;
    if fin[i].action == Merge {
      AfterMerge(p, col, i, j);
    } else {
      var b, c := fin[i].parent.value, fin[j].parent.value;
      assert b.row < |col| && c.row < |col| && col[b.row] == Some(b) && col[c.row] == Some(c);
      ParentsApart(p.maxDepth, col, b, c);
      if b == c {
        SameParent(p, col, i, j);
      }
    }
  }

  lemma ParentsApart(D: nat, col: Column, b: Block, c: Block)
    requires WellFormed(D, col) && b.row < |col| && c.row < |col| && col[b.row] == Some(b) && col[c.row] == Some(c)
    ensures b.depth <= D && c.depth <= D
    ensures b == c || b.row + Span(D, b) <= c.row || c.row + Span(D, c) <= b.row
  {
  }

  /** Two new blocks with one parent are the halves of a split. */
  lemma SameParent(p: Params, col: Column, i: nat, j: nat)
    requires WellFormed(p.maxDepth, col) && i < j < |col| && FinalActions(p, col)[i].parent.Some?
    requires FinalActions(p, col)[i].action != Skip && FinalActions(p, col)[j].action != Skip
    requires FinalActions(p, col)[i].parent == FinalActions(p, col)[j].parent
    ensures 0 <= NextDepth(FinalActions(p, col)[i]) <= p.maxDepth
    ensures j == i + Pow2(p.maxDepth - NextDepth(FinalActions(p, col)[i]))
  {
    hide FinalActions, RowFacts, WellFormed, Pow2;
    NewInterval(p, col, i);
    NewInterval(p, col, j);
    if FinalActions(p, col)[j].action == SplitSnd {
      SplitPartner(p, col, j);
    }
    if FinalActions(p, col)[i].action == SplitSnd {
      SplitPartner(p, col, i);
    }
  }

  /** The branch that follows a merged pair starts after the pair. */
  lemma AfterMerge(p: Params, col: Column, i: nat, j: nat)
    requires WellFormed(p.maxDepth, col) && i < j < |col|
    requires FinalActions(p, col)[i].action == Merge && FinalActions(p, col)[j].action != Skip
    ensures col[i].Some? && i + 2 * Span(p.maxDepth, col[i].value) <= j
  {
    hide FinalActions, NextDepth, RowFacts;
    MergePartner(p, col, i);
    NewInterval(p, col, j);
    var fin := FinalActions(p, col);
    var second, parent := fin[i].second.value, fin[j].parent.value;
    ParentsApart(p.maxDepth, col, col[i].value, parent);
    ParentsApart(p.maxDepth, col, second, parent);
    if fin[j].action == SplitSnd {
      SplitPartner(p, col, j);
    }
  }

  /** Main invariant of the branch machine: whichever leaders miss their block, depths stay in range, rows
      stay aligned and intervals stay disjoint. */
  lemma RoundKeepsWellFormed(p: Params, col: Column, next: Column)
    requires WellFormed(p.maxDepth, col) && NextColumn(FinalActions(p, col), next)
    ensures WellFormed(p.maxDepth, next)
  {
    hide FinalActions;
    forall i | 0 <= i < |next| && next[i].Some? ensures Placed(p.maxDepth, next[i].value, i) {
      NewInterval(p, col, i);
    }
    forall i, j | 0 <= i < j < |next| && next[i].Some? && next[j].Some?
      ensures i + Span(p.maxDepth, next[i].value) <= j
    {
      NewInterval(p, col, i);
      NewIntervalsDisjoint(p, col, i, j);
    }
  }

  /** A new block owns only rows that its parents owned. */
  lemma NewBlockWithinParents(p: Params, col: Column, next: Column, i: nat, v: int)
    requires WellFormed(p.maxDepth, col) && NextColumn(FinalActions(p, col), next) && Owns(p.maxDepth, next, i, v)
    ensures var a := FinalActions(p, col)[i];
      && a.parent.Some?
      && (Owns(p.maxDepth, col, a.parent.value.row, v)
          || (a.second.Some? && Owns(p.maxDepth, col, a.second.value.row, v)))
  {
    hide FinalActions;
    NewInterval(p, col, i);
    FinalActionFacts(p, col);
    assert RowFacts(p.maxDepth, col, FinalActions(p, col), i);
  }

  /** A row that no branch owns is never owned again. */
  lemma RoundCoversNoMore(p: Params, col: Column, next: Column, v: int)
    requires WellFormed(p.maxDepth, col) && NextColumn(FinalActions(p, col), next)
    requires Covered(p.maxDepth, next, v)
    ensures Covered(p.maxDepth, col, v)
  {
    hide FinalActions;
    var i: nat :| Owns(p.maxDepth, next, i, v);
    NewBlockWithinParents(p, col, next, i, v);
  }

  /** When no leader misses, every row that was owned still is. */
  lemma RoundCoversNoLess(p: Params, col: Column, next: Column, v: int)
    requires WellFormed(p.maxDepth, col)
    requires NextColumn(FinalActions(p, col), next) && NoneMissed(FinalActions(p, col), next)
    requires Covered(p.maxDepth, col, v)
    ensures Covered(p.maxDepth, next, v)
  {
    hide FinalActions;
    var D, fin := p.maxDepth, FinalActions(p, col);
    var i: nat :| Owns(D, col, i, v);
    if fin[i].action == Skip {
      var m := ClosedByMerge(p, col, i);
      MergeCoversNoLess(p, col, next, m, v);
    } else if fin[i].action == Split {
      SplitCoversNoLess(p, col, next, i, v);
    } else if fin[i].action == Merge {
      MergePartner(p, col, i);
      MergeCoversNoLess(p, col, next, i, v);
    } else {
      NewInterval(p, col, i);
      if fin[i].action == SplitSnd {
        SplitPartner(p, col, i);
      }
      assert Owns(D, next, i, v);
    }
  }

  lemma MergeCoversNoLess(p: Params, col: Column, next: Column, m: nat, v: int)
    requires WellFormed(p.maxDepth, col)
    requires NextColumn(FinalActions(p, col), next) && NoneMissed(FinalActions(p, col), next)
    requires m < |col| && FinalActions(p, col)[m].action == Merge && FinalActions(p, col)[m].second.Some?
    requires Owns(p.maxDepth, col, m, v) || Owns(p.maxDepth, col, FinalActions(p, col)[m].second.value.row, v)
    ensures Covered(p.maxDepth, next, v)
  {
    hide FinalActions;
    MergePartner(p, col, m);
    NewInterval(p, col, m);
    assert Owns(p.maxDepth, next, m, v);
  }

  lemma SplitCoversNoLess(p: Params, col: Column, next: Column, i: nat, v: int)
    requires WellFormed(p.maxDepth, col)
    requires NextColumn(FinalActions(p, col), next) && NoneMissed(FinalActions(p, col), next)
    requires Owns(p.maxDepth, col, i, v) && FinalActions(p, col)[i].action == Split
    ensures Covered(p.maxDepth, next, v)
  {
    hide FinalActions;
    var D, fin := p.maxDepth, FinalActions(p, col);
    var u := OpenedBySplit(p, col, i);
    SplitPartner(p, col, u);
    NewInterval(p, col, i);
    NewInterval(p, col, u);
    if v < u {
      assert Owns(D, next, i, v);
    } else {
      assert Owns(D, next, u, v);
    }
  }

  /** Kraft conservation: a round without missed blocks keeps the sum of 2^(D - Depth), even when earlier
      rounds lost rows; with missed blocks the sum can only shrink. */
  lemma RoundKeepsKraftSum(p: Params, col: Column, next: Column)
    requires WellFormed(p.maxDepth, col) && WellFormed(p.maxDepth, next) && NextColumn(FinalActions(p, col), next)
    ensures KraftFrom(p.maxDepth, next, 0) <= KraftFrom(p.maxDepth, col, 0)
    ensures NoneMissed(FinalActions(p, col), next) ==>
              KraftFrom(p.maxDepth, next, 0) == KraftFrom(p.maxDepth, col, 0)
  {
    hide FinalActions;
    var D := p.maxDepth;
    KraftCountsCoveredRows(D, col, 0);
    KraftCountsCoveredRows(D, next, 0);
    forall v | v in CoveredRows(D, next, 0) ensures v in CoveredRows(D, col, 0) {
      assert Covered(D, next, v);
      RoundCoversNoMore(p, col, next, v);
    }
    SubsetSize(CoveredRows(D, next, 0), CoveredRows(D, col, 0));
    if NoneMissed(FinalActions(p, col), next) {
      forall v | v in CoveredRows(D, col, 0) ensures v in CoveredRows(D, next, 0) {
        assert Covered(D, col, v);
        RoundCoversNoLess(p, col, next, v);
      }
      assert CoveredRows(D, col, 0) == CoveredRows(D, next, 0);
    }
  }

  // ---------------------------------------------------------------- runs

  predicate IsGenesisColumn(D: nat, col: Column) {
    |col| == Pow2(D) && col[0].Some? && col[0].value.row == 0 && col[0].value.depth == 0
    && forall i :: 0 < i < |col| ==> col[i].None?
  }

  /** The columns of a run: the genesis column, then any outcome of each round. */
  ghost predicate IsRun(p: Params, cols: seq<Column>) {
    && |cols| > 0 && IsGenesisColumn(p.maxDepth, cols[0])
    && forall k :: 0 <= k < |cols| - 1 ==> NextColumn(FinalActions(p, cols[k]), cols[k + 1])
  }

  lemma GenesisColumnTiles(D: nat, col: Column)
    requires IsGenesisColumn(D, col)
    ensures WellFormed(D, col) && Tiles(D, col)
  {
    DivModUnique(0, Pow2(D), 0, 0);
    forall v | 0 <= v < Pow2(D) ensures Covered(D, col, v) {
      assert Owns(D, col, 0, v);
    }
  }

  /** Over every run, each column is a family of disjoint aligned intervals; up to the first round with a
      missed block the family tiles [0, L) and its Kraft sum is L. */
  lemma {:induction false} EveryColumnIsWellFormed(p: Params, cols: seq<Column>, k: nat)
    requires IsRun(p, cols) && k < |cols|
    ensures WellFormed(p.maxDepth, cols[k])
    ensures (forall r :: 0 <= r < k ==> NoneMissed(FinalActions(p, cols[r]), cols[r + 1])) ==>
              Tiles(p.maxDepth, cols[k]) && KraftFrom(p.maxDepth, cols[k], 0) == Pow2(p.maxDepth)
  {
    hide FinalActions;
    if k == 0 {
      GenesisColumnTiles(p.maxDepth, cols[0]);
    } else {
      EveryColumnIsWellFormed(p, cols, k - 1);
      assert NextColumn(FinalActions(p, cols[k - 1]), cols[k - 1 + 1]);
      RoundKeepsWellFormed(p, cols[k - 1], cols[k]);
      if forall r :: 0 <= r < k ==> NoneMissed(FinalActions(p, cols[r]), cols[r + 1]) {
        assert NoneMissed(FinalActions(p, cols[k - 1]), cols[k - 1 + 1]);
        forall v | 0 <= v < Pow2(p.maxDepth) ensures Covered(p.maxDepth, cols[k], v) {
          RoundCoversNoLess(p, cols[k - 1], cols[k], v);
        }
      }
    }
    if Tiles(p.maxDepth, cols[k]) {
      TilingKraft(p.maxDepth, cols[k]);
    }
  }

  // ---------------------------------------------------------------- block count

  ghost function RowsWith(fin: seq<DagAction>, action: Action): set<nat> {
    set i: nat | i < |fin| && fin[i].action == action
  }

  ghost function ActiveRows(fin: seq<DagAction>): set<nat> {
    set i: nat | i < |fin| && fin[i].action != Skip
  }

  ghost function OccupiedRows(col: Column): set<nat> {
    set i: nat | i < |col| && col[i].Some?
  }

  /** A set and its image under an injective table have the same size. */
  lemma {:induction false} ImageCount(a: set<nat>, b: set<nat>, f: map<nat, nat>)
    requires f.Keys == a && f.Values == b
    requires forall x, y :: x in a && y in a && f[x] == f[y] ==> x == y
    ensures |a| == |b|
    decreases a
  {
    if a == {} {
      assert b == {};
    } else {
      var x :| x in a;
      var g := f - {x};
      assert g.Values == b - {f[x]} by {
        forall y | y in b - {f[x]} ensures y in g.Values {
          var z :| z in f && f[z] == y;
          assert z in g && g[z] == y;
        }
      }
      ImageCount(a - {x}, b - {f[x]}, g);
    }
  }

  lemma ClosedRowsCount(p: Params, col: Column)
    requires WellFormed(p.maxDepth, col)
    ensures var fin := FinalActions(p, col);
      |OccupiedRows(col) - ActiveRows(fin)| == |RowsWith(fin, Merge)|
  {
    hide FinalActions;
    var D, fin := p.maxDepth, FinalActions(p, col);
    var merges, closed := RowsWith(fin, Merge), OccupiedRows(col) - ActiveRows(fin);
    forall i | i in merges ensures fin[i].second.Some? && fin[i].second.value.row in closed {
      MergePartner(p, col, i);
    }
    var f := map i | i in merges :: fin[i].second.value.row;
    forall j | j in closed ensures j in f.Values {
      var m := ClosedByMerge(p, col, j);
      assert m in merges && f[m] == j;
    }
    assert f.Values == closed;
    forall x, y | x in merges && y in merges && f[x] == f[y] ensures x == y {
      MergesApart(p, col, x, y);
    }
    ImageCount(merges, closed, f);
  }

  lemma MergesApart(p: Params, col: Column, x: nat, y: nat)
    requires WellFormed(p.maxDepth, col) && x < |col| && y < |col|
    requires FinalActions(p, col)[x].action == Merge && FinalActions(p, col)[y].action == Merge
    requires FinalActions(p, col)[x].second.Some? && FinalActions(p, col)[y].second.Some?
    requires FinalActions(p, col)[x].second.value.row == FinalActions(p, col)[y].second.value.row
    ensures x == y
  {
    hide FinalActions, WellFormed;
    MergePartner(p, col, x);
    MergePartner(p, col, y);
  }

  lemma OpenedRowsCount(p: Params, col: Column)
    requires WellFormed(p.maxDepth, col)
    ensures var fin := FinalActions(p, col); |RowsWith(fin, SplitSnd)| == |RowsWith(fin, Split)|
  {
    hide FinalActions;
    var D, fin := p.maxDepth, FinalActions(p, col);
    var splits, sibs := RowsWith(fin, Split), RowsWith(fin, SplitSnd);
    forall j | j in sibs ensures fin[j].parent.Some? && fin[j].parent.value.row in splits {
      SplitPartner(p, col, j);
    }
    var f := map j | j in sibs :: fin[j].parent.value.row;
    forall i | i in splits ensures i in f.Values {
      var u := OpenedBySplit(p, col, i);
      assert u in sibs && f[u] == i;
    }
    assert f.Values == splits;
    forall x, y | x in sibs && y in sibs && f[x] == f[y] ensures x == y {
      SplitPartner(p, col, x);
      SplitPartner(p, col, y);
    }
    ImageCount(sibs, splits, f);
  }

  lemma ActiveOrOpened(p: Params, col: Column, i: nat)
    requires WellFormed(p.maxDepth, col) && i < |col| && FinalActions(p, col)[i].action != Skip
    ensures FinalActions(p, col)[i].action == SplitSnd <==> col[i].None?
  {
    hide FinalActions;
    FinalActionFacts(p, col);
    assert RowFacts(p.maxDepth, col, FinalActions(p, col), i);
  }

  /** The number of blocks a round expects: those of the previous column, plus one per surviving split, minus
      one per merge. */
  lemma ActiveRowsCount(p: Params, col: Column)
    requires WellFormed(p.maxDepth, col)
    ensures var fin := FinalActions(p, col);
      |ActiveRows(fin)| == |OccupiedRows(col)| + |RowsWith(fin, Split)| - |RowsWith(fin, Merge)|
  {
    hide FinalActions;
    var D, fin := p.maxDepth, FinalActions(p, col);
    var active, occupied, sibs := ActiveRows(fin), OccupiedRows(col), RowsWith(fin, SplitSnd);
    ClosedRowsCount(p, col);
    OpenedRowsCount(p, col);
    forall i | i in active ensures i in sibs <==> i !in occupied {
      ActiveOrOpened(p, col, i);
    }
    hide WellFormed;
    assert occupied == (occupied - active) + (active - sibs);
    assert active == sibs + (active - sibs);
  }
}
