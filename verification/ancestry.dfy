/** Parent links of the DAG: resolved by hash, one column back, down to genesis. */
module Ancestry {
  import opened Types
  import opened Columns
  import opened Schedule
  import opened Ledger

  /** The lookup of processBlock runs over the whole chain without stopping, so the oldest match wins. */
  function FirstWithHash(chain: seq<Block>, hash: string): Option<Block> {
    if chain == [] then None
    else if chain[0].hash == hash then Some(chain[0])
    else FirstWithHash(chain[1..], hash)
  }

  /** Following first parents k times. */
  function Follow(chain: seq<Block>, b: Block, k: nat): Option<Block>
    decreases k
  {
    if k == 0 then Some(b)
    else
      var parent := FirstWithHash(chain, b.previousHash);
      if parent.None? then None else Follow(chain, parent.value, k - 1)
  }

  lemma {:induction false} FirstWithHashFinds(chain: seq<Block>, b: Block)
    requires b in chain && HashesDistinct(chain)
    ensures FirstWithHash(chain, b.hash) == Some(b)
  {
    assert chain[0] in chain;
    if chain[0].hash != b.hash {
      assert forall c :: c in chain[1..] ==> c in chain;
      FirstWithHashFinds(chain[1..], b);
    }
  }

  lemma {:induction false} FirstWithHashMissing(chain: seq<Block>, hash: string)
    requires forall b :: b in chain ==> b.hash != hash
    ensures FirstWithHash(chain, hash) == None
  {
    if chain != [] {
      assert chain[0] in chain;
      FirstWithHashMissing(chain[1..], hash);
    }
  }

  /** The parents of a block, as a node resolves them, and as the column before it holds them. */
  lemma ParentsAreOneColumnBack(p: Params, s: System, n: nat, b: Block)
    requires Structure(p, s) && n < |s.nodes| && b in s.nodes[n].chain && b.col > 0
    ensures InColumns(s.cols, b)
    ensures var first := FirstWithHash(s.nodes[n].chain, b.previousHash);
      first.Some? && first.value in s.nodes[n].chain && InColumns(s.cols, first.value) && first.value.col == b.col - 1
    ensures var second := FirstWithHash(s.nodes[n].chain, b.secondHash);
      if b.secondHash == "" then second.None?
      else second.Some? && second.value in s.nodes[n].chain && InColumns(s.cols, second.value)
           && second.value.col == b.col - 1
    ensures var a := FinalActions(p, s.cols[b.col - 1]);
      b.row < |a| && a[b.row].parent == FirstWithHash(s.nodes[n].chain, b.previousHash)
      && a[b.row].second == FirstWithHash(s.nodes[n].chain, b.secondHash)
  {
    hide FinalActions;
    var chain, prev := s.nodes[n].chain, s.cols[b.col - 1];
    EveryColumnIsWellFormed(p, s.cols, b.col - 1);
    assert ColumnShaped(p, s.cols[b.col - 1], s.cols[b.col], b.col);
    var a := FinalActions(p, prev)[b.row];
    NewInterval(p, prev, b.row);
    FinalActionFacts(p, prev);
    assert RowFacts(p.maxDepth, prev, FinalActions(p, prev), b.row);
    assert prev[a.parent.value.row] == a.parent;
    FirstWithHashFinds(chain, a.parent.value);
    if a.second.Some? {
      assert a.action == Merge;
      MergePartner(p, prev, b.row);
      assert prev[a.second.value.row] == a.second;
      FirstWithHashFinds(chain, a.second.value);
    } else {
      FirstWithHashMissing(chain, "");
    }
  }

  /** A block owns no row that its parents did not own. */
  lemma BlockWithinParents(p: Params, s: System, n: nat, b: Block, v: nat)
    requires Structure(p, s) && n < |s.nodes| && b in s.nodes[n].chain && b.col > 0
    requires b.depth <= p.maxDepth && b.row <= v < b.row + Span(p.maxDepth, b)
    ensures var first := FirstWithHash(s.nodes[n].chain, b.previousHash);
      var second := FirstWithHash(s.nodes[n].chain, b.secondHash);
      || (first.Some? && first.value.depth <= p.maxDepth
          && first.value.row <= v < first.value.row + Span(p.maxDepth, first.value))
      || (second.Some? && second.value.depth <= p.maxDepth
          && second.value.row <= v < second.value.row + Span(p.maxDepth, second.value))
  {
    hide FinalActions;
    ParentsAreOneColumnBack(p, s, n, b);
    EveryColumnIsWellFormed(p, s.cols, b.col - 1);
    assert NextColumn(FinalActions(p, s.cols[b.col - 1]), s.cols[b.col - 1 + 1]);
    NewBlockWithinParents(p, s.cols[b.col - 1], s.cols[b.col], b.row, v);
  }

  /** First parents lead from column c to genesis in exactly c steps, at every node. */
  lemma {:induction false} FirstParentsReachGenesis(p: Params, s: System, n: nat, b: Block)
    requires Structure(p, s) && n < |s.nodes| && b in s.nodes[n].chain
    ensures s.cols[0] != [] && s.cols[0][0].Some?
    ensures Follow(s.nodes[n].chain, b, b.col) == s.cols[0][0]
    ensures forall k :: 0 <= k < b.col ==> Follow(s.nodes[n].chain, b, k) != s.cols[0][0]
    decreases b.col
  {
    hide FinalActions;
    if b.col > 0 {
      ParentsAreOneColumnBack(p, s, n, b);
      var parent := FirstWithHash(s.nodes[n].chain, b.previousHash).value;
      FirstParentsReachGenesis(p, s, n, parent);
      forall k | 0 <= k < b.col ensures Follow(s.nodes[n].chain, b, k) != s.cols[0][0] {
        if k > 0 {
          assert Follow(s.nodes[n].chain, b, k) == Follow(s.nodes[n].chain, parent, k - 1);
        } else {
          assert s.cols[0][0].value.col == 0;
        }
      }
    }
  }
}
