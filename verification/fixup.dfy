/** The fix-up loop of blockGenerationSchedule (node-implementation/p2p_communication.go), which mutates the
    slice of actions it ranges over, against its two-phase specification. */
module FixUp {
  import opened Types
  import opened Powers
  import opened Dag
  import opened Columns

  // ---------------------------------------------------------------- decisions on a column

  function DecideOn(p: Params, col: Column, row: nat): DagAction {
    var parent := At(col, row);
    if parent.None? then DecideFrom(p, None, None)
    else DecideFrom(p, parent, At(col, GetMergeSecondIndex(p.maxDepth, parent.value.row, parent.value.depth)))
  }

  function DecideAll(p: Params, col: Column): seq<DagAction> {
    seq(|col|, i requires 0 <= i < |col| => DecideOn(p, col, i))
  }

  // ---------------------------------------------------------------- the loop and its specification

  predicate MergesInto(acts: seq<DagAction>, i: nat, j: int) {
    i < |acts| && acts[i].action == Merge && acts[i].second.Some? && acts[i].second.value.row == j
  }

  predicate SplitsInto(D: nat, acts: seq<DagAction>, i: nat, j: int) {
    i < |acts| && acts[i].action == Split && acts[i].parent.Some?
    && GetSplitSecondIndex(D, i, acts[i].parent.value.depth + 1) == j
  }

  function CloseRow(acts: seq<DagAction>, j: int): (r: seq<DagAction>)
    ensures |r| == |acts|
  {
    if 0 <= j < |acts| then acts[j := acts[j].(action := Skip)] else acts
  }

  function OpenRow(acts: seq<DagAction>, j: int, parent: Option<Block>): (r: seq<DagAction>)
    ensures |r| == |acts|
  {
    if 0 <= j < |acts| then acts[j := acts[j].(action := SplitSnd, parent := parent)] else acts
  }

  /** One iteration: the element is read when the loop reaches it, so earlier writes are seen. */
  function Visit(D: nat, acts: seq<DagAction>, i: nat): (r: seq<DagAction>)
    requires i < |acts|
    ensures |r| == |acts|
  {
    var a := acts[i];
    if a.action == Merge && a.second.Some? then CloseRow(acts, a.second.value.row)
    else if a.action == Split && a.parent.Some? then
      OpenRow(acts, GetSplitSecondIndex(D, i, a.parent.value.depth + 1), a.parent)
    else acts
  }

  function Loop(D: nat, acts: seq<DagAction>, k: nat): (r: seq<DagAction>)
    requires k <= |acts|
    ensures |r| == |acts|
  {
    if k == 0 then acts else Visit(D, Loop(D, acts, k - 1), k - 1)
  }

  /** First phase of the specification: every merge closes its second row. */
  function ApplyMerges(acts: seq<DagAction>, k: nat): (r: seq<DagAction>)
    requires k <= |acts|
    ensures |r| == |acts|
  {
    if k == 0 then acts
    else
      var r := ApplyMerges(acts, k - 1);
      var a := acts[k - 1];
      if a.action == Merge && a.second.Some? then CloseRow(r, a.second.value.row) else r
  }

  /** Second phase: every split that is left opens its sibling row. */
  function ApplySplits(D: nat, acts: seq<DagAction>, k: nat): (r: seq<DagAction>)
    requires k <= |acts|
    ensures |r| == |acts|
  {
    if k == 0 then acts
    else
      var r := ApplySplits(D, acts, k - 1);
      var a := acts[k - 1];
      if a.action == Split && a.parent.Some? then
        OpenRow(r, GetSplitSecondIndex(D, k - 1, a.parent.value.depth + 1), a.parent)
      else r
  }

  function MergesThenSplits(D: nat, acts: seq<DagAction>): (r: seq<DagAction>)
    ensures |r| == |acts|
  {
    var merged := ApplyMerges(acts, |acts|);
    ApplySplits(D, merged, |merged|)
  }

  // ---------------------------------------------------------------- freedom from conflicts

  ghost predicate Closed(acts: seq<DagAction>, k: nat, j: int) {
    exists i: nat :: i < k && MergesInto(acts, i, j)
  }

  /** What the geometry of a column guarantees about its decisions: merges and splits point to the right and
      inside the column, a merge never closes a row that merges itself, and a split only ever opens a row
      that had nothing to do, which no other split opens. */
  ghost predicate ConflictFree(D: nat, acts: seq<DagAction>) {
    && (forall i: nat :: i < |acts| && acts[i].action == Merge ==> acts[i].second.Some?)
    && (forall i: nat :: i < |acts| && acts[i].action == Split ==> acts[i].parent.Some?)
    && (forall i: nat, j {:trigger MergesInto(acts, i, j)} :: MergesInto(acts, i, j) ==>
          i < j < |acts| && acts[j].action != Merge && acts[j].action != SplitSnd && acts[j].parent.Some?)
    && (forall i: nat, j {:trigger SplitsInto(D, acts, i, j)} :: SplitsInto(D, acts, i, j) ==>
          i < j < |acts| && acts[j].action == Skip && acts[j].parent.None?)
    && (forall i: nat, i': nat, j {:trigger SplitsInto(D, acts, i, j), SplitsInto(D, acts, i', j)} ::
          SplitsInto(D, acts, i, j) && SplitsInto(D, acts, i', j) ==> i == i')
  }

  /** What the first k rows of the decisions do to row j: closing wins, then opening, then nothing. */
  ghost predicate Resolved(D: nat, acts: seq<DagAction>, k: nat, j: nat, r: DagAction)
    requires j < |acts|
  {
    && (Closed(acts, k, j) ==> r == acts[j].(action := Skip))
    && (forall i: nat :: i < k && SplitsInto(D, acts, i, j) && !Closed(acts, |acts|, i) ==>
          r == acts[j].(action := SplitSnd, parent := acts[i].parent))
    && (!Closed(acts, k, j) && (forall i: nat :: i < k && SplitsInto(D, acts, i, j) ==> Closed(acts, |acts|, i)) ==>
          r == acts[j])
  }

  lemma {:induction false} LoopResolves(D: nat, acts: seq<DagAction>, k: nat)
    requires k <= |acts| && ConflictFree(D, acts)
    ensures forall j: nat :: j < |acts| ==> Resolved(D, acts, k, j, Loop(D, acts, k)[j])
  {
    if k > 0 {
      LoopResolves(D, acts, k - 1);
      var before := Loop(D, acts, k - 1);
      assert Resolved(D, acts, k - 1, k - 1, before[k - 1]);
      forall j: nat | j < |acts| ensures Resolved(D, acts, k, j, Loop(D, acts, k)[j]) {
        assert Resolved(D, acts, k - 1, j, before[j]);
        LoopStep(D, acts, k - 1, j, before);
      }
    }
  }

  lemma LoopStep(D: nat, acts: seq<DagAction>, i: nat, j: nat, before: seq<DagAction>)
    requires i < |acts| == |before| && j < |acts| && ConflictFree(D, acts)
    requires Resolved(D, acts, i, i, before[i]) && Resolved(D, acts, i, j, before[j])
    ensures Resolved(D, acts, i + 1, j, Visit(D, before, i)[j])
  {
    hide GetSplitSecondIndex;
    assert Closed(acts, |acts|, i) <==> Closed(acts, i, i);
    assert Closed(acts, i + 1, j) <==> Closed(acts, i, j) || MergesInto(acts, i, j);
    if Closed(acts, i, i) {
      assert before[i].action == Skip;
    } else if s: nat :| s < i && SplitsInto(D, acts, s, i) && !Closed(acts, |acts|, s) {
      assert before[i].action == SplitSnd && acts[i].action == Skip;
    } else {
      assert before[i] == acts[i];
      if acts[i].action == Split {
        OpeningStep(D, acts, i, j, before);
      } else if acts[i].action == Merge {
        assert MergesInto(acts, i, acts[i].second.value.row);
        assert forall s: nat :: !SplitsInto(D, acts, s, acts[i].second.value.row);
      }
    }
  }

  lemma OpeningStep(D: nat, acts: seq<DagAction>, i: nat, j: nat, before: seq<DagAction>)
    requires i < |acts| == |before| && j < |acts| && ConflictFree(D, acts)
    requires acts[i].action == Split && before[i] == acts[i] && !Closed(acts, |acts|, i)
    requires Resolved(D, acts, i, j, before[j])
    ensures Resolved(D, acts, i + 1, j, Visit(D, before, i)[j])
  {
    hide GetSplitSecondIndex;
    var t := GetSplitSecondIndex(D, i, acts[i].parent.value.depth + 1);
    assert SplitsInto(D, acts, i, t);
    assert Closed(acts, i + 1, j) <==> Closed(acts, i, j);
    if j == t {
      assert forall s: nat :: s < i ==> !SplitsInto(D, acts, s, j);
      assert !Closed(acts, i + 1, j);
      assert before[j] == acts[j];
      forall s: nat | s < i + 1 && SplitsInto(D, acts, s, j) ensures s == i {
      }
    } else {
      assert !SplitsInto(D, acts, i, j);
    }
  }

  lemma {:induction false} ApplyMergesResolves(acts: seq<DagAction>, k: nat)
    requires k <= |acts|
    ensures forall j: nat :: j < |acts| ==>
              ApplyMerges(acts, k)[j] == if Closed(acts, k, j) then acts[j].(action := Skip) else acts[j]
  {
    if k > 0 {
      ApplyMergesResolves(acts, k - 1);
      forall j: nat | j < |acts|
        ensures ApplyMerges(acts, k)[j] == if Closed(acts, k, j) then acts[j].(action := Skip) else acts[j]
      {
        assert Closed(acts, k, j) <==> Closed(acts, k - 1, j) || MergesInto(acts, k - 1, j);
      }
    }
  }

  lemma {:induction false} ApplySplitsResolves(D: nat, acts: seq<DagAction>, k: nat)
    requires ConflictFree(D, acts)
    requires k <= |acts|
    ensures forall j: nat :: j < |acts| ==>
              Resolved(D, acts, |acts|, j, ApplySplits(D, ApplyMerges(acts, |acts|), |acts|)[j])
  {
    var merged := ApplyMerges(acts, |acts|);
    ApplyMergesResolves(acts, |acts|);
    forall i: nat, j | i < |acts|
      ensures SplitsInto(D, merged, i, j) <==> SplitsInto(D, acts, i, j) && !Closed(acts, |acts|, i)
    {
      assert merged[i] == if Closed(acts, |acts|, i) then acts[i].(action := Skip) else acts[i];
    }
    ApplySplitsPointwise(D, merged, |acts|);
    forall j: nat | j < |acts|
      ensures Resolved(D, acts, |acts|, j, ApplySplits(D, merged, |acts|)[j])
    {
      assert merged[j] == if Closed(acts, |acts|, j) then acts[j].(action := Skip) else acts[j];
    }
  }

  lemma {:induction false} ApplySplitsPointwise(D: nat, acts: seq<DagAction>, k: nat)
    requires k <= |acts|
    requires forall i: nat, i': nat, j {:trigger SplitsInto(D, acts, i, j), SplitsInto(D, acts, i', j)} ::
               SplitsInto(D, acts, i, j) && SplitsInto(D, acts, i', j) ==> i == i'
    ensures forall i: nat, j: nat :: i < k && j < |acts| && SplitsInto(D, acts, i, j) ==>
              ApplySplits(D, acts, k)[j] == acts[j].(action := SplitSnd, parent := acts[i].parent)
    ensures forall j: nat :: j < |acts| && (forall i: nat :: i < k ==> !SplitsInto(D, acts, i, j)) ==>
              ApplySplits(D, acts, k)[j] == acts[j]
  {
    hide GetSplitSecondIndex;
    if k > 0 {
      ApplySplitsPointwise(D, acts, k - 1);
      var a := acts[k - 1];
      if a.action == Split && a.parent.Some? {
        assert SplitsInto(D, acts, k - 1, GetSplitSecondIndex(D, k - 1, a.parent.value.depth + 1));
      }
    }
  }

  lemma ResolvedIsUnique(D: nat, acts: seq<DagAction>, j: nat, r: DagAction, r': DagAction)
    requires ConflictFree(D, acts) && j < |acts|
    requires Resolved(D, acts, |acts|, j, r) && Resolved(D, acts, |acts|, j, r')
    ensures r == r'
  {
    if i: nat :| i < |acts| && SplitsInto(D, acts, i, j) && !Closed(acts, |acts|, i) {
    }
  }

  /** The mutating loop computes "apply all merges, then the remaining splits". */
  lemma LoopIsMergesThenSplits(D: nat, acts: seq<DagAction>)
    requires ConflictFree(D, acts)
    ensures Loop(D, acts, |acts|) == MergesThenSplits(D, acts)
  {
    LoopResolves(D, acts, |acts|);
    ApplySplitsResolves(D, acts, |acts|);
    forall j: nat | j < |acts| ensures Loop(D, acts, |acts|)[j] == MergesThenSplits(D, acts)[j] {
      ResolvedIsUnique(D, acts, j, Loop(D, acts, |acts|)[j], MergesThenSplits(D, acts)[j]);
    }
  }

  /** The loop stays in bounds: an action that it reaches names an existing row to close or to open. */
  lemma VisitInBounds(D: nat, acts: seq<DagAction>, i: nat, a: DagAction)
    requires i < |acts| && ConflictFree(D, acts) && a == Loop(D, acts, i)[i]
    ensures a.action == Merge ==> a.second.Some? && i < a.second.value.row < |acts|
    ensures a.action == Split ==>
              a.parent.Some? && i < GetSplitSecondIndex(D, i, a.parent.value.depth + 1) < |acts|
  {
    hide GetSplitSecondIndex;
    LoopResolves(D, acts, i);
    assert Resolved(D, acts, i, i, a);
    assert a.action == Merge ==> MergesInto(acts, i, a.second.value.row);
    assert a.action == Split ==> SplitsInto(D, acts, i, GetSplitSecondIndex(D, i, a.parent.value.depth + 1));
  }

  /** The loop as written: it ranges over the slice that it overwrites. */
  method FixUpActions(D: nat, acts: array<DagAction>)
    requires ConflictFree(D, acts[..])
    modifies acts
    ensures acts[..] == MergesThenSplits(D, old(acts[..]))
  {
    hide GetSplitSecondIndex, ConflictFree;
    ghost var decided := acts[..];
    for idx := 0 to acts.Length
      invariant acts[..] == Loop(D, decided, idx)
    {
      var action := acts[idx];
      assert action == acts[..][idx];
      VisitInBounds(D, decided, idx, action);
      if action.action == Merge {
        var row := action.second.value.row;
        acts[row] := acts[row].(action := Skip);
      } else if action.action == Split {
        var row := GetSplitSecondIndex(D, idx, action.parent.value.depth + 1);
        acts[row] := acts[row].(action := SplitSnd);
        acts[row] := acts[row].(parent := action.parent);
      }
    }
    LoopIsMergesThenSplits(D, decided);
  }

  // ---------------------------------------------------------------- decisions on a well-formed column

  lemma DecideOnFacts(p: Params, col: Column, i: nat)
    requires WellFormed(p.maxDepth, col) && i < |col|
    ensures var a := DecideOn(p, col, i);
      && (a.action == Skip <==> col[i].None?)
      && (a.action != SplitSnd)
      && a.parent == col[i]
      && (a.second.Some? <==> a.action == Merge)
      && (a.action == Split ==> col[i].value.depth < p.maxDepth)
      && (a.action == Merge ==>
            var b := col[i].value; var s := Span(p.maxDepth, b);
            && b.depth > 0 && i % Pow2(p.maxDepth - b.depth + 1) == 0
            && i + s < |col| && a.second == col[i + s] && col[i + s].Some? && col[i + s].value.depth == b.depth)
  {
    if col[i].Some? {
      var b := col[i].value;
      MergeSecondIndexExact(p.maxDepth, b.row, b.depth);
    }
  }

  predicate Splits(p: Params, b: Block) {
    |b.transactions| >= p.minTxToSplit && b.depth < p.maxDepth
  }

  /** Block b has a right buddy of its own depth within reach of the ladder, and the two are small enough. */
  predicate Merges(p: Params, col: Column, b: Block)
    requires b.depth <= p.maxDepth
  {
    var r := RightBuddy(p.maxDepth, b.row, b.depth);
    && r >= 0 && (b.row == 0 || p.maxDepth - b.depth <= 4)
    && At(col, r).Some? && At(col, r).value.depth == b.depth
    && |b.transactions| + |At(col, r).value.transactions| <= p.minTxToMerge
  }

  /** When each action is decided: splitting has precedence, and merging takes the buddy-allocator partner. */
  lemma DecisionExact(p: Params, col: Column, i: nat)
    requires WellFormed(p.maxDepth, col) && i < |col|
    ensures var a := DecideOn(p, col, i).action;
      && (a == Skip <==> col[i].None?)
      && (a == Split <==> col[i].Some? && Splits(p, col[i].value))
      && (a == Merge <==> col[i].Some? && !Splits(p, col[i].value) && Merges(p, col, col[i].value))
      && (a == Continue <==> col[i].Some? && !Splits(p, col[i].value) && !Merges(p, col, col[i].value))
  {
    if col[i].Some? {
      var b := col[i].value;
      MergeSecondIndexExact(p.maxDepth, b.row, b.depth);
    }
  }

  /** The fix-up loop never meets a conflict, whatever the two thresholds are. */
  lemma DecisionsAreConflictFree(p: Params, col: Column)
    requires WellFormed(p.maxDepth, col)
    ensures ConflictFree(p.maxDepth, DecideAll(p, col))
  {
    hide GetSplitSecondIndex, DecideOn;
    var D, acts := p.maxDepth, DecideAll(p, col);
    forall i: nat | i < |acts|
      ensures acts[i].action == Merge ==> acts[i].second.Some?
      ensures acts[i].action == Split ==> acts[i].parent.Some?
    {
      DecideOnFacts(p, col, i);
    }
    forall i: nat, j | MergesInto(acts, i, j)
      ensures i < j < |acts| && acts[j].action != Merge && acts[j].action != SplitSnd && acts[j].parent.Some?
    {
      MergeTarget(p, col, i, j);
    }
    forall i: nat, j | SplitsInto(D, acts, i, j)
      ensures i < j < |acts| && acts[j].action == Skip && acts[j].parent.None?
    {
      DecideOnFacts(p, col, i);
      SplitTarget(p, col, i);
      DecideOnFacts(p, col, j);
    }
    forall i: nat, i': nat, j | SplitsInto(D, acts, i, j) && SplitsInto(D, acts, i', j) ensures i == i' {
      DecideOnFacts(p, col, i);
      DecideOnFacts(p, col, i');
      SplitTarget(p, col, i);
      SplitTarget(p, col, i');
    }
  }

  lemma UpperHalfIsOdd(i: nat, h: nat)
    requires h >= 1 && i % Pow2(h) == 0
    ensures (i + Pow2(h - 1)) % Pow2(h) != 0
  {
    HalvesAligned(i, h);
  }

  /** A merge closes its right buddy, which by its alignment can only be the upper half of a pair. */
  lemma MergeTarget(p: Params, col: Column, i: nat, j: int)
    requires WellFormed(p.maxDepth, col) && MergesInto(DecideAll(p, col), i, j)
    ensures col[i].Some? && col[i].value.depth > 0 && j == i + Span(p.maxDepth, col[i].value) < |col|
    ensures DecideOn(p, col, j).action != Merge && DecideOn(p, col, j).action != SplitSnd
    ensures DecideOn(p, col, j).parent == col[j] && col[j].Some? && col[j].value.depth == col[i].value.depth
  {
    hide DecideOn, Pow2;
    DecideOnFacts(p, col, i);
    assert j == i + Span(p.maxDepth, col[i].value);
    hide WellFormed;
    UpperHalfIsOdd(i, p.maxDepth - col[i].value.depth + 1);
    DecideOnFacts(p, col, j);
  }

  /** A split opens the upper half of its own interval, where no block sits. */
  lemma SplitTarget(p: Params, col: Column, i: nat)
    requires WellFormed(p.maxDepth, col) && i < |col| && DecideOn(p, col, i).action == Split
    ensures col[i].Some? && col[i].value.depth < p.maxDepth
    ensures var s := Span(p.maxDepth, col[i].value); var h := Pow2(p.maxDepth - col[i].value.depth - 1);
      && s == 2 * h && i + s <= |col| && col[i + h].None?
      && GetSplitSecondIndex(p.maxDepth, i, col[i].value.depth + 1) == i + h
  {
    DecideOnFacts(p, col, i);
    InsideColumn(p.maxDepth, col, i);
    SplitSecondIndexIsUpperHalf(p.maxDepth, i, col[i].value.depth + 1);
  }
}
