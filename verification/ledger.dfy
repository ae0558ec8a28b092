/** N nodes that build the DAG in synchronous rounds (node-implementation/blockchain.go and the creation loop
    of node-implementation/p2p_communication.go): what a round may do, and what every run keeps. */
module Ledger {
  import opened Types
  import opened Hex
  import opened Powers
  import opened Dag
  import opened Columns
  import opened FixUp
  import opened Schedule

  // ---------------------------------------------------------------- one node

  datatype NodeState = NodeState(chain: seq<Block>, pool: map<string, Tx>)

  function TxHashes(txs: seq<Tx>): set<string> {
    set t | t in txs :: t.hash
  }

  /** The pool keys that a list of transactions deletes: the hashes, decoded and encoded again. */
  function Removed(txs: seq<Tx>): set<string> {
    set t | t in txs :: Reencoded(t.hash)
  }

  /** The common tail of createBlock and processBlock: append, then drop the block's transactions. */
  function Append(ns: NodeState, b: Block): NodeState {
    NodeState(ns.chain + [b], ns.pool - Removed(b.transactions))
  }

  function AppendAll(ns: NodeState, bs: seq<Block>): NodeState {
    if bs == [] then ns else Append(AppendAll(ns, bs[..|bs| - 1]), bs[|bs| - 1])
  }

  lemma AppendAllStep(ns: NodeState, bs: seq<Block>, b: Block)
    ensures AppendAll(ns, []) == ns
    ensures AppendAll(ns, bs + [b]) == Append(AppendAll(ns, bs), b)
  {
    assert (bs + [b])[..|bs|] == bs;
  }

  lemma {:induction false} AppendAllAppended(ns: NodeState, a: seq<Block>, b: seq<Block>)
    ensures AppendAll(AppendAll(ns, a), b) == AppendAll(ns, a + b)
  {
    if b == [] {
      assert a + b == a;
    } else {
      AppendAllAppended(ns, a, b[..|b| - 1]);
      assert (a + b)[..|a + b| - 1] == a + b[..|b| - 1];
    }
  }

  function HashesOf(bs: seq<Block>): set<string> {
    set b, t | b in bs && t in b.transactions :: t.hash
  }

  function RemovedBy(bs: seq<Block>): set<string> {
    set b, t | b in bs && t in b.transactions :: Reencoded(t.hash)
  }

  /** A pooled transaction leaves the pool with its block exactly when its hash is in lower case. */
  lemma LeavesPoolIff(ns: NodeState, b: Block, tx: Tx)
    requires tx in b.transactions && tx.hash in ns.pool && Decodes(tx.hash)
    requires forall t :: t in b.transactions && t != tx ==> Reencoded(t.hash) != tx.hash
    ensures tx.hash !in Append(ns, b).pool <==> forall i :: 0 <= i < |tx.hash| ==> !IsUpper(tx.hash[i])
  {
    CanonicalIff(tx.hash);
    hide Reencoded, Decodes;
  }

  ghost predicate AllCanonical(bs: seq<Block>) {
    forall b, t :: b in bs && t in b.transactions ==> Canonical(t.hash)
  }

  lemma CanonicalRemoved(bs: seq<Block>)
    requires AllCanonical(bs)
    ensures RemovedBy(bs) == HashesOf(bs)
  {
    hide Reencoded, Decodes;
    forall b, t | b in bs && t in b.transactions ensures Reencoded(t.hash) == t.hash {
      assert Canonical(t.hash);
    }
  }

  lemma {:induction false} AppendAllState(ns: NodeState, bs: seq<Block>)
    ensures AppendAll(ns, bs) == NodeState(ns.chain + bs, ns.pool - RemovedBy(bs))
  {
    if bs == [] {
      assert ns.chain + [] == ns.chain;
    } else {
      var init, b := bs[..|bs| - 1], bs[|bs| - 1];
      AppendAllState(ns, init);
      assert bs == init + [b];
      assert ns.chain + bs == ns.chain + init + [b];
      assert RemovedBy(bs) == RemovedBy(init) + Removed(b.transactions);
      assert ns.pool - RemovedBy(bs) == ns.pool - RemovedBy(init) - Removed(b.transactions);
    }
  }

  function Candidates(pool: map<string, Tx>, depth: nat, row: nat): set<string>
    requires depth <= HASH_HEX_LEN
  {
    set h | h in pool && BelongsToIndex(pool[h].mask, depth, row)
  }

  function Body(b: Block): seq<Tx> {
    if b.transactions == [] then [] else b.transactions[..|b.transactions| - 1]
  }

  lemma LastIsNew(txs: seq<Tx>)
    requires txs != [] && forall i, j :: 0 <= i < j < |txs| ==> txs[i].hash != txs[j].hash
    ensures txs[|txs| - 1].hash !in TxHashes(txs[..|txs| - 1])
  {
    forall t | t in txs[..|txs| - 1] ensures t.hash != txs[|txs| - 1].hash {
      var i :| 0 <= i < |txs| - 1 && txs[i] == t;
    }
  }

  lemma {:induction false} DistinctCount(txs: seq<Tx>)
    requires forall i, j :: 0 <= i < j < |txs| ==> txs[i].hash != txs[j].hash
    ensures |TxHashes(txs)| == |txs|
  {
    if txs != [] {
      var init, last := txs[..|txs| - 1], txs[|txs| - 1];
      DistinctCount(init);
      assert txs == init + [last];
      assert TxHashes(txs) == TxHashes(init) + {last.hash};
      LastIsNew(txs);
    }
  }

  function Min(a: nat, b: nat): nat {
    if a <= b then a else b
  }

  /** The contents that createBlock gives a block: the first `cap` pooled transactions of its branch in some
      order of enumeration, then one reward transaction; hashes that do not decode would have ended the process. */
  ghost predicate Packs(cap: nat, pool: map<string, Tx>, b: Block) {
    && b.depth <= HASH_HEX_LEN
    && b.transactions != []
    && (forall t :: t in Body(b) ==> t.hash in pool && pool[t.hash] == t && BelongsToIndex(t.mask, b.depth, b.row))
    && (forall i, j :: 0 <= i < j < |Body(b)| ==> Body(b)[i].hash != Body(b)[j].hash)
    && |Body(b)| == Min(cap, |Candidates(pool, b.depth, b.row)|)
    && Canonical(b.transactions[|b.transactions| - 1].hash)
    && (forall t :: t in b.transactions ==> Decodes(t.hash))
  }

  /** The actions a node computes at the start of the round that builds `column`. */
  function NodeActions(p: Params, chain: seq<Block>, column: int): (fin: seq<DagAction>)
    ensures |fin| == Pow2(p.maxDepth)
  {
    MergesThenSplits(p.maxDepth,
                     seq(Pow2(p.maxDepth), i requires 0 <= i < Pow2(p.maxDepth) => Decide(p, chain, i, column)))
  }

  /** Header of the block created for row i. */
  predicate Shaped(a: DagAction, i: nat, column: nat, b: Block) {
    && a.action != Skip && a.parent.Some?
    && b.row == i && b.col == column && b.depth == NextDepth(a)
    && b.previousHash == a.parent.value.hash
    && b.secondHash == (if a.second.Some? then a.second.value.hash else "")
  }

  // ---------------------------------------------------------------- the network

  /** `cols` and `given` are history: the DAG built so far and the hashes handed to the nodes. */
  datatype System = System(nodes: seq<NodeState>, cols: seq<Column>, given: set<string>)

  ghost predicate Init(p: Params, s: System) {
    && |s.nodes| > 0 && |s.cols| == 1 && IsGenesisColumn(p.maxDepth, s.cols[0]) && s.given == {}
    && (var g := s.cols[0][0].value;
        g.hash != "" && g.col == 0 && forall n :: 0 <= n < |s.nodes| ==> s.nodes[n] == NodeState([g], map[]))
  }

  function PutAll(pool: map<string, Tx>, txs: seq<Tx>): map<string, Tx> {
    if txs == [] then pool
    else PutAll(pool, txs[..|txs| - 1])[txs[|txs| - 1].hash := txs[|txs| - 1]]
  }

  lemma PutAllPrefix(pool: map<string, Tx>, txs: seq<Tx>, i: nat)
    requires i <= |txs|
    ensures PutAll(pool, txs[..0]) == pool
    ensures i < |txs| ==> PutAll(pool, txs[..i + 1]) == PutAll(pool, txs[..i])[txs[i].hash := txs[i]]
  {
    if i < |txs| {
      assert txs[..i + 1][..i] == txs[..i];
    }
  }

  /** The last of the added transactions of a hash has index i. */
  ghost predicate LastWith(txs: seq<Tx>, h: string, i: nat) {
    i < |txs| && txs[i].hash == h && forall j :: i < j < |txs| ==> txs[j].hash != h
  }

  /** It is what stays in the pool; hashes that were not added keep what they had. */
  lemma {:induction false} PutAllKeepsLast(pool: map<string, Tx>, txs: seq<Tx>, h: string)
    ensures h !in TxHashes(txs) ==>
              (h in PutAll(pool, txs) <==> h in pool) && (h in pool ==> PutAll(pool, txs)[h] == pool[h])
    ensures forall i: nat :: LastWith(txs, h, i) ==> h in PutAll(pool, txs) && PutAll(pool, txs)[h] == txs[i]
  {
    if txs != [] {
      var init, last := txs[..|txs| - 1], txs[|txs| - 1];
      PutAllKeepsLast(pool, init, h);
      assert TxHashes(txs) == TxHashes(init) + {last.hash} by {
        assert txs == init + [last];
      }
      forall i: nat | LastWith(txs, h, i) ensures h in PutAll(pool, txs) && PutAll(pool, txs)[h] == txs[i] {
        assert last.hash == h ==> i == |init| by {
          assert i < |init| ==> txs[|init|].hash != h;
        }
        if i < |init| {
          assert LastWith(init, h, i) by {
            assert forall j :: i < j < |init| ==> init[j] == txs[j];
          }
        }
      }
    }
  }

  /** GATHER_TRANSACTION_PACK at every node: fresh transactions, masks computed from the hashes. */
  ghost predicate Give(s: System, txs: seq<Tx>, s': System) {
    && (forall t :: t in txs ==> |t.hash| >= HASH_HEX_LEN && t.mask == Bits(t.hash, HASH_HEX_LEN))
    && (forall t :: t in txs ==> t.hash !in s.given)
    && (forall n, b :: 0 <= n < |s.nodes| && b in s.nodes[n].chain ==> TxHashes(txs) !! TxHashes(b.transactions))
    && |s'.nodes| == |s.nodes|
    && (forall n :: 0 <= n < |s.nodes| ==>
          s'.nodes[n] == NodeState(s.nodes[n].chain, PutAll(s.nodes[n].pool, txs)))
    && s'.cols == s.cols && s'.given == s.given + TxHashes(txs)
  }

  /** The blocks of a round: made[n] maps the rows that node n led and did not miss to its blocks, orders[n]
      is the order in which node n appended everybody's blocks, its own included. */
  datatype RoundEvents = RoundEvents(made: seq<map<nat, Block>>, orders: seq<seq<Block>>)

  predicate Disjoint(positions: seq<seq<nat>>) {
    forall n, m, x :: 0 <= n < m < |positions| && x in positions[n] ==> x !in positions[m]
  }

  ghost predicate IsMade(made: seq<map<nat, Block>>, b: Block) {
    exists n, i :: 0 <= n < |made| && i in made[n] && made[n][i] == b
  }

  function BlockAt(made: seq<map<nat, Block>>, i: nat, n: nat): Option<Block>
    requires n <= |made|
  {
    if n == 0 then None
    else if i in made[n - 1] then Some(made[n - 1][i])
    else BlockAt(made, i, n - 1)
  }

  function ColumnMade(D: nat, made: seq<map<nat, Block>>): (r: Column)
    ensures |r| == Pow2(D)
  {
    seq(Pow2(D), i requires 0 <= i < Pow2(D) => BlockAt(made, i, |made|))
  }

  /** Nodes create blocks only for rows they lead, at most one per row, with the header of the final action. */
  ghost predicate Led(p: Params, positions: seq<seq<nat>>, slot: nat, e: RoundEvents, s: System) {
    && |positions| == |e.made| == |s.nodes| && Disjoint(positions)
    && (forall n, i :: 0 <= n < |e.made| && i in e.made[n] ==>
          && i < Pow2(p.maxDepth) && slot + i in positions[n]
          && Shaped(NodeActions(p, s.nodes[n].chain, |s.cols|)[i], i, |s.cols|, e.made[n][i]))
  }

  /** Block hashes do not collide, and a reward transaction is never one of the given transactions. */
  ghost predicate FreshHashes(e: RoundEvents, s: System) {
    && (forall b :: IsMade(e.made, b) ==> b.hash != "")
    && (forall b, b' :: IsMade(e.made, b) && IsMade(e.made, b') && b != b' ==> b.hash != b'.hash)
    && (forall b, n, b' :: IsMade(e.made, b) && 0 <= n < |s.nodes| && b' in s.nodes[n].chain ==> b.hash != b'.hash)
    && (forall b :: IsMade(e.made, b) && b.transactions != [] ==>
          b.transactions[|b.transactions| - 1].hash !in s.given)
  }

  /** By the end of the round every node has appended every block once, in an order of its own. */
  ghost predicate Delivered(e: RoundEvents, s: System, s': System) {
    && |e.orders| == |s'.nodes| == |s.nodes|
    && (forall n, b :: 0 <= n < |e.orders| ==> (b in e.orders[n] <==> IsMade(e.made, b)))
    && (forall n, i, j :: 0 <= n < |e.orders| && 0 <= i < j < |e.orders[n]| ==> e.orders[n][i] != e.orders[n][j])
    && (forall n :: 0 <= n < |e.orders| ==> s'.nodes[n] == AppendAll(s.nodes[n], e.orders[n]))
  }

  /** A leader packs its block from its pool at that moment, after the blocks it has already appended. */
  ghost predicate Packed(p: Params, e: RoundEvents, s: System) {
    && |e.orders| == |e.made| == |s.nodes|
    && forall n, k :: 0 <= n < |s.nodes| && 0 <= k < |e.orders[n]| && e.orders[n][k] in e.made[n].Values ==>
         Packs(p.txPerBlock, AppendAll(s.nodes[n], e.orders[n][..k]).pool, e.orders[n][k])
  }

  ghost predicate Round(p: Params, positions: seq<seq<nat>>, slot: nat, e: RoundEvents, s: System, s': System) {
    && Led(p, positions, slot, e, s)
    && FreshHashes(e, s)
    && Delivered(e, s, s')
    && Packed(p, e, s)
    && s'.cols == s.cols + [ColumnMade(p.maxDepth, e.made)]
    && s'.given == s.given
  }

  ghost predicate Step(p: Params, s: System, s': System) {
    || (exists txs :: Give(s, txs, s'))
    || (exists positions, slot, e :: Round(p, positions, slot, e, s, s'))
  }

  ghost predicate IsExecution(p: Params, states: seq<System>) {
    && |states| > 0 && Init(p, states[0])
    && forall k :: 0 <= k < |states| - 1 ==> Step(p, states[k], states[k + 1])
  }

  // ---------------------------------------------------------------- structural invariant

  predicate InColumns(cols: seq<Column>, b: Block) {
    b.col < |cols| && b.row < |cols[b.col]| && cols[b.col][b.row] == Some(b)
  }

  /** The chain of a node holds exactly the blocks of the DAG, column after column. */
  ghost predicate Linearizes(chain: seq<Block>, cols: seq<Column>) {
    && NonDecreasingCol(chain)
    && (forall b :: b in chain ==> InColumns(cols, b))
    && (forall c, r :: 0 <= c < |cols| && 0 <= r < |cols[c]| && cols[c][r].Some? ==>
          cols[c][r].value in chain && cols[c][r].value.col == c && cols[c][r].value.row == r)
  }

  /** Every block of a column carries the header that the final actions on the previous column prescribe. */
  ghost predicate ColumnShaped(p: Params, prev: Column, next: Column, column: nat) {
    |next| == |prev| && forall i :: 0 <= i < |next| && next[i].Some? ==>
      Shaped(FinalActions(p, prev)[i], i, column, next[i].value)
  }

  ghost predicate HashesDistinct(chain: seq<Block>) {
    && (forall b :: b in chain ==> b.hash != "")
    && (forall b, b' :: b in chain && b' in chain && b.hash == b'.hash ==> b == b')
  }

  ghost predicate Structure(p: Params, s: System) {
    && |s.nodes| > 0 && IsRun(p, s.cols)
    && (forall k :: 0 < k < |s.cols| ==> ColumnShaped(p, s.cols[k - 1], s.cols[k], k))
    && (forall n :: 0 <= n < |s.nodes| ==> Linearizes(s.nodes[n].chain, s.cols) && HashesDistinct(s.nodes[n].chain))
  }

  lemma DecideReadsColumn(p: Params, chain: seq<Block>, cols: seq<Column>)
    requires IsRun(p, cols) && Linearizes(chain, cols)
    ensures forall k :: 0 <= k < |cols[|cols| - 1]| ==> Decide(p, chain, k, |cols|) == DecideOn(p, cols[|cols| - 1], k)
  {
    var col := cols[|cols| - 1];
    EveryColumnIsWellFormed(p, cols, |cols| - 1);
    forall k | 0 <= k < |col| ensures Decide(p, chain, k, |cols|) == DecideOn(p, col, k) {
      ScanReadsColumn(chain, cols, k);
      if col[k].Some? {
        var s := GetMergeSecondIndex(p.maxDepth, k, col[k].value.depth);
        if s >= 0 {
          ScanReadsColumn(chain, cols, s);
        }
      }
    }
  }

  /** Nodes decide alike: whatever the order of their chains, all compute the final actions of the column. */
  lemma NodesDecideAlike(p: Params, chain: seq<Block>, cols: seq<Column>)
    requires IsRun(p, cols) && Linearizes(chain, cols)
    ensures NodeActions(p, chain, |cols|) == FinalActions(p, cols[|cols| - 1])
  {
    EveryColumnIsWellFormed(p, cols, |cols| - 1);
    DecideReadsColumn(p, chain, cols);
    hide Decide, DecideOn, Linearizes, IsRun;
    assert seq(Pow2(p.maxDepth), i requires 0 <= i < Pow2(p.maxDepth) => Decide(p, chain, i, |cols|))
        == DecideAll(p, cols[|cols| - 1]);
  }

  lemma ScanReadsColumn(chain: seq<Block>, cols: seq<Column>, i: nat)
    requires |cols| > 0 && Linearizes(chain, cols)
    ensures ScanBack(chain, |cols| - 1, i) == At(cols[|cols| - 1], i)
  {
    ScanBackExact(chain, |cols| - 1, i);
    ScanBackSearchesWholeChain(chain, |cols| - 1, i);
  }

  lemma {:induction false} BlockAtIsMade(made: seq<map<nat, Block>>, i: nat, n: nat)
    requires n <= |made|
    ensures BlockAt(made, i, n).Some? ==>
              exists m :: 0 <= m < n && i in made[m] && BlockAt(made, i, n) == Some(made[m][i])
    ensures BlockAt(made, i, n).None? ==> forall m :: 0 <= m < n ==> i !in made[m]
  {
    if n > 0 {
      BlockAtIsMade(made, i, n - 1);
    }
  }

  /** One leader per slot means one block per row, so the new column holds every block that was made. */
  lemma OneLeader(p: Params, positions: seq<seq<nat>>, slot: nat, e: RoundEvents, s: System, n: nat, m: nat, i: nat)
    requires Led(p, positions, slot, e, s) && n < |e.made| && m < |e.made| && i in e.made[n] && i in e.made[m]
    ensures n == m
  {
    hide NodeActions;
    assert slot + i in positions[n] && slot + i in positions[m];
  }

  lemma ColumnHoldsAllMade(p: Params, positions: seq<seq<nat>>, slot: nat, e: RoundEvents, s: System)
    requires Led(p, positions, slot, e, s)
    ensures var next := ColumnMade(p.maxDepth, e.made);
      && (forall b :: IsMade(e.made, b) ==> b.row < |next| && next[b.row] == Some(b) && b.col == |s.cols|)
      && (forall i :: 0 <= i < |next| && next[i].Some? ==> IsMade(e.made, next[i].value) && next[i].value.row == i)
  {
    hide NodeActions;
    var next := ColumnMade(p.maxDepth, e.made);
    forall b | IsMade(e.made, b) ensures b.row < |next| && next[b.row] == Some(b) && b.col == |s.cols| {
      var n, i :| 0 <= n < |e.made| && i in e.made[n] && e.made[n][i] == b;
      BlockAtIsMade(e.made, i, |e.made|);
      var m :| 0 <= m < |e.made| && i in e.made[m] && next[i] == Some(e.made[m][i]);
      OneLeader(p, positions, slot, e, s, n, m, i);
    }
    forall i | 0 <= i < |next| && next[i].Some? ensures IsMade(e.made, next[i].value) && next[i].value.row == i {
      BlockAtIsMade(e.made, i, |e.made|);
    }
  }

  lemma LastColumn(p: Params, s: System)
    requires Structure(p, s)
    ensures |s.cols| > 0 && |s.cols[|s.cols| - 1]| == Pow2(p.maxDepth)
  {
    hide FinalActions;
    EveryColumnIsWellFormed(p, s.cols, |s.cols| - 1);
  }

  lemma RoundShapesColumn(p: Params, positions: seq<seq<nat>>, slot: nat, e: RoundEvents, s: System)
    requires Structure(p, s) && Led(p, positions, slot, e, s)
    ensures var next := ColumnMade(p.maxDepth, e.made);
      ColumnShaped(p, s.cols[|s.cols| - 1], next, |s.cols|) && NextColumn(FinalActions(p, s.cols[|s.cols| - 1]), next)
  {
    hide FinalActions, NodeActions, Led, Structure, ColumnMade, IsMade;
    LastColumn(p, s);
    var next, last := ColumnMade(p.maxDepth, e.made), s.cols[|s.cols| - 1];
    ColumnHoldsAllMade(p, positions, slot, e, s);
    forall i | 0 <= i < |next| && next[i].Some?
      ensures Shaped(FinalActions(p, last)[i], i, |s.cols|, next[i].value)
    {
      MadeIsShaped(p, positions, slot, e, s, next[i].value);
    }
  }

  lemma MadeIsShaped(p: Params, positions: seq<seq<nat>>, slot: nat, e: RoundEvents, s: System, b: Block)
    requires Structure(p, s) && Led(p, positions, slot, e, s) && IsMade(e.made, b)
    ensures b.row < |FinalActions(p, s.cols[|s.cols| - 1])|
    ensures Shaped(FinalActions(p, s.cols[|s.cols| - 1])[b.row], b.row, |s.cols|, b)
  {
    hide FinalActions, NodeActions;
    var n, k :| 0 <= n < |e.made| && k in e.made[n] && e.made[n][k] == b;
    assert Shaped(NodeActions(p, s.nodes[n].chain, |s.cols|)[k], k, |s.cols|, b);
    assert IsRun(p, s.cols) && Linearizes(s.nodes[n].chain, s.cols);
    hide Structure, Led, IsRun, Linearizes, IsMade;
    NodesDecideAlike(p, s.nodes[n].chain, s.cols);
  }

  lemma RoundKeepsStructure(p: Params, positions: seq<seq<nat>>, slot: nat, e: RoundEvents, s: System, s': System)
    requires Structure(p, s) && Round(p, positions, slot, e, s, s')
    ensures Structure(p, s')
  {
    hide FinalActions, NodeActions, Packed, ColumnMade, Led;
    var next := ColumnMade(p.maxDepth, e.made);
    RoundShapesColumn(p, positions, slot, e, s);
    ColumnHoldsAllMade(p, positions, slot, e, s);
    RunGrows(p, s.cols, next);
    forall k | 0 < k < |s'.cols| ensures ColumnShaped(p, s'.cols[k - 1], s'.cols[k], k) {
      if k < |s.cols| {
        assert s'.cols[k] == s.cols[k] && s'.cols[k - 1] == s.cols[k - 1];
      }
    }
    forall n | 0 <= n < |s'.nodes|
      ensures Linearizes(s'.nodes[n].chain, s'.cols) && HashesDistinct(s'.nodes[n].chain)
    {
      AppendAllState(s.nodes[n], e.orders[n]);
      LinearizesNext(s.nodes[n].chain, s.cols, e.orders[n], next);
      HashesStayDistinct(s.nodes[n].chain, e.orders[n]);
    }
  }

  lemma RunGrows(p: Params, cols: seq<Column>, next: Column)
    requires IsRun(p, cols) && NextColumn(FinalActions(p, cols[|cols| - 1]), next)
    ensures IsRun(p, cols + [next])
  {
    hide FinalActions;
    var cols' := cols + [next];
    forall k | 0 <= k < |cols'| - 1 ensures NextColumn(FinalActions(p, cols'[k]), cols'[k + 1]) {
      if k < |cols| - 1 {
        assert cols'[k] == cols[k] && cols'[k + 1] == cols[k + 1];
      }
    }
  }

  lemma LinearizesNext(chain: seq<Block>, cols: seq<Column>, bs: seq<Block>, next: Column)
    requires Linearizes(chain, cols)
    requires forall b :: b in bs ==> b.col == |cols| && b.row < |next| && next[b.row] == Some(b)
    requires forall i :: 0 <= i < |next| && next[i].Some? ==> next[i].value in bs && next[i].value.row == i
    ensures Linearizes(chain + bs, cols + [next])
  {
    forall i, j | 0 <= i < j < |chain + bs| ensures (chain + bs)[i].col <= (chain + bs)[j].col {
      if i < |chain| {
        assert chain[i] in chain;
      } else {
        assert bs[i - |chain|] in bs;
      }
      if j >= |chain| {
        assert bs[j - |chain|] in bs;
      }
    }
  }

  lemma HashesStayDistinct(chain: seq<Block>, bs: seq<Block>)
    requires HashesDistinct(chain) && forall b :: b in bs ==> b.hash != ""
    requires forall b, b' :: b in bs && b' in bs && b != b' ==> b.hash != b'.hash
    requires forall b, b' :: b in bs && b' in chain ==> b.hash != b'.hash
    ensures HashesDistinct(chain + bs)
  {
  }

  lemma InitHasStructure(p: Params, s: System)
    requires Init(p, s)
    ensures Structure(p, s)
  {
    var g := s.cols[0][0].value;
    assert s.cols == [s.cols[0]];
    assert [g][0] == g;
  }

  /** Main structural result: in every state of every execution all nodes hold the same well-formed DAG. */
  lemma {:induction false} EveryStateHasStructure(p: Params, states: seq<System>, k: nat)
    requires IsExecution(p, states) && k < |states|
    ensures Structure(p, states[k])
  {
    hide Round, Give, Structure;
    if k == 0 {
      InitHasStructure(p, states[0]);
    } else {
      EveryStateHasStructure(p, states, k - 1);
      assert Step(p, states[k - 1], states[k - 1 + 1]);
      StepKeepsStructure(p, states[k - 1], states[k]);
    }
  }

  lemma StepKeepsStructure(p: Params, s: System, s': System)
    requires Structure(p, s) && Step(p, s, s')
    ensures Structure(p, s')
  {
    if txs :| Give(s, txs, s') {
    } else {
      var positions, slot, e :| Round(p, positions, slot, e, s, s');
      RoundKeepsStructure(p, positions, slot, e, s, s');
    }
  }
}
