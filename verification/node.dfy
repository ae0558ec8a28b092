/** The node's own state and the methods that change it: node-implementation/blockchain.go, decideAction of
    node-implementation/dag.go and one pass of blockGenerationSchedule of
    node-implementation/p2p_communication.go. The clock and the hash functions are inputs. */
module BlockNode {
  import opened Types
  import opened Hex
  import opened Powers
  import opened Dag
  import opened Columns
  import opened FixUp
  import opened Schedule
  import opened Ledger
  import opened Utils
  import opened Ancestry
  import opened Reception

  class Node {
    const params: Params
    const hashing: Hashing
    const publicKey: string
    var blockchain: seq<Block>
    var blockchainLength: nat
    var mempool: map<string, Tx>

    ghost predicate Valid()
      reads this
    {
      && blockchainLength == |blockchain|
      && params.maxDepth <= HASH_HEX_LEN
      && (forall h :: h in mempool ==> mempool[h].hash == h)
    }

    function State(): NodeState
      reads this
    {
      NodeState(blockchain, mempool)
    }

    constructor (params: Params, hashing: Hashing, publicKey: string)
      requires params.maxDepth <= HASH_HEX_LEN
      ensures Valid() && this.params == params && this.hashing == hashing && this.publicKey == publicKey
      ensures State() == NodeState([], map[])
    {
      this.params, this.hashing, this.publicKey := params, hashing, publicKey;
      blockchain, blockchainLength, mempool := [], 0, map[];
    }

    /** Hashes the transactions, then the block. */
    method ProcessGenesisBlock(number: nat, createdAt: int, transactions: array<GenesisTx>, author: string)
      returns (b: Block)
      requires Valid()
      modifies this
      ensures Valid() && mempool == old(mempool) && blockchain == old(blockchain) + [b]
      ensures b.transactions == GenesisTransactions(hashing, transactions[..])
      ensures forall i :: 0 <= i < transactions.Length ==>
                var t := transactions[i];
                IsTxHash(hashing, b.transactions[i].hash, t.sender, t.recipient, t.amount, t.createdAt)
      ensures Authentic(hashing, b) && Commits(hashing, b) && HasRoot(hashing, b)
      ensures (b.depth, b.row, b.col) == (0, 0, 0) && (b.previousHash, b.secondHash, b.commitmentHash) == ("", "", "")
      ensures b.stamp.number == number && b.stamp.createdAt == createdAt && b.stamp.author == author
    {
      var txs: seq<Tx> := [];
      for i := 0 to transactions.Length
        invariant Valid() && State() == old(State())
        invariant txs == GenesisTransactions(hashing, transactions[..i])
      {
        var t := transactions[i];
        assert transactions[..i + 1][..i] == transactions[..i];
        txs := txs + [Tx(Encode(hashing.tx(t.sender, t.recipient, t.amount, t.createdAt)), 0)];
      }
      assert transactions[..transactions.Length] == transactions[..];
      GenesisDecodes(hashing, transactions[..]);
      hide GenesisTransactions, RootOf, HashOf, Commits, HasRoot, IsTxHash, AllDecode;
      var stamp := Stamp(number, createdAt, author, Encode(RootOf(hashing, txs)));
      b := Block(HashOf(hashing, txs, stamp), txs, "", "", 0, 0, 0, "", stamp);
      AuthenticCommits(hashing, b);
      blockchain := blockchain + [b];
      blockchainLength := blockchainLength + 1;
    }

    /** GATHER_TRANSACTION_PACK: the masks are computed before the transactions enter the pool. */
    method GatherTransactionPack(hashes: seq<string>) returns (txs: seq<Tx>)
      requires Valid() && forall h :: h in hashes ==> |h| >= HASH_HEX_LEN
      modifies this
      ensures Valid() && blockchain == old(blockchain)
      ensures |txs| == |hashes|
      ensures forall i :: 0 <= i < |txs| ==> txs[i] == Tx(hashes[i], Bits(hashes[i], HASH_HEX_LEN))
      ensures mempool == PutAll(old(mempool), txs)
    {
      var copies := new Tx[|hashes|](i requires 0 <= i < |hashes| => Tx(hashes[i], 0));
      CalculateTxHashMasks(copies);
      txs := copies[..];
      AddToMempool(txs);
    }

    method AddToMempool(txs: seq<Tx>)
      requires Valid()
      modifies this`mempool
      ensures Valid() && mempool == PutAll(old(mempool), txs)
    {
      hide PutAll;
      PutAllPrefix(mempool, txs, 0);
      for i := 0 to |txs|
        invariant Valid() && mempool == PutAll(old(mempool), txs[..i])
      {
        PutAllPrefix(old(mempool), txs, i);
        mempool := mempool[txs[i].hash := txs[i]];
      }
      assert txs[..|txs|] == txs;
    }

    /** The backward search that decideAction makes for the parent and again for its buddy. */
    method FindBlock(col: int, row: int) returns (found: Option<Block>)
      ensures found == ScanBack(blockchain, col, row)
    {
      var i := |blockchain|;
      assert blockchain[..i] == blockchain;
      while i > 0
        invariant 0 <= i <= |blockchain|
        invariant ScanBack(blockchain, col, row) == ScanBack(blockchain[..i], col, row)
      {
        i := i - 1;
        assert blockchain[..i + 1][..i] == blockchain[..i];
        if blockchain[i].col == col && blockchain[i].row == row {
          return Some(blockchain[i]);
        }
        if blockchain[i].col < col {
          return None;
        }
      }
      return None;
    }

    method DecideAction(index: nat, currentColumn: int) returns (action: DagAction)
      ensures action == Decide(params, blockchain, index, currentColumn)
    {
      var parent := FindBlock(currentColumn - 1, index);
      if parent.None? {
        return DagAction(Skip, None, None);
      }
      var b := parent.value;
      if |b.transactions| >= params.minTxToSplit && b.depth < params.maxDepth {
        return DagAction(Split, parent, None);
      }
      var secondIndex := GetMergeSecondIndex(params.maxDepth, b.row, b.depth);
      if b.depth > 0 && secondIndex >= 0 {
        var second := FindBlock(currentColumn - 1, secondIndex);
        if second.Some? && b.depth == second.value.depth
           && |b.transactions| + |second.value.transactions| <= params.minTxToMerge {
          return DagAction(Merge, parent, second);
        }
      }
      return DagAction(Continue, parent, None);
    }

    /** Decisions for all rows, then the fix-up loop over them. `begun` is the chain at the start of the round; blocks
        of the round that have arrived since then change nothing. */
    method PlanRound(column: nat, ghost cols: seq<Column>, ghost begun: seq<Block>, ghost arrived: seq<Block>)
      returns (epochActions: array<DagAction>)
      requires IsRun(params, cols) && Linearizes(begun, cols) && column == |cols|
      requires blockchain == begun + arrived && forall b :: b in arrived ==> b.col >= column
      ensures fresh(epochActions)
      ensures epochActions[..] == NodeActions(params, begun, column)
      ensures epochActions[..] == FinalActions(params, cols[|cols| - 1])
    {
      ghost var last := cols[|cols| - 1];
      hide Decide, DecideOn, FinalActions, WellFormed, IsRun, Linearizes, ConflictFree, MergesThenSplits;
      var L := Pow2(params.maxDepth);
      epochActions := new DagAction[L](_ => DagAction(Skip, None, None));
      for i := 0 to L
        invariant forall k :: 0 <= k < i ==> epochActions[k] == Decide(params, begun, k, column)
      {
        var action := DecideAction(i, column);
        DecideIgnoresNewer(params, begun, arrived, i, column);
        epochActions[i] := action;
      }
      EveryColumnIsWellFormed(params, cols, |cols| - 1);
      NodesDecide(params, begun, epochActions[..], cols);
      DecisionsAreConflictFree(params, last);
      FixUpActions(params.maxDepth, epochActions);
      NodesDecideAlike(params, begun, cols);
      FinalIsResolved(params, last);
    }

    /** Pooled transactions of a branch, in whatever order the map is enumerated. */
    method IncludedTransactions(depth: nat, row: nat) returns (included: seq<Tx>)
      requires Valid() && depth <= HASH_HEX_LEN
      ensures |included| == |Candidates(mempool, depth, row)|
      ensures forall t :: t in included ==>
                t.hash in mempool && mempool[t.hash] == t && BelongsToIndex(t.mask, depth, row)
      ensures forall i, j :: 0 <= i < j < |included| ==> included[i].hash != included[j].hash
    {
      included := [];
      var rest := mempool.Keys;
      while rest != {}
        invariant rest <= mempool.Keys && Collected(mempool, depth, row, included, rest)
        decreases |rest|
      {
        var h :| h in rest;
        var belongs := DoesTxBelongToIndex(mempool[h], depth, row);
        CollectOne(mempool, depth, row, included, rest, h);
        if belongs {
          included := included + [mempool[h]];
        }
        rest := rest - {h};
      }
      DistinctCount(included);
      assert TxHashes(included) == Candidates(mempool, depth, row);
    }

    /** Cap, reward, parent links, hash, append, pool removal. A transaction hash that does not decode ends the
        process. */
    method CreateBlock(action: DagAction, included: seq<Tx>, depth: nat, row: nat, col: nat,
                       commitmentHash: string, rewardTime: int, now: int) returns (created: Option<Block>)
      requires Valid()
      modifies this
      ensures Valid()
      ensures created.Some? <==> AllDecode(included[..Min(params.txPerBlock, |included|)])
      ensures State() == if created.Some? then Append(old(State()), created.value) else old(State())
      ensures created.Some? ==>
                var b := created.value;
                && b.transactions == included[..Min(params.txPerBlock, |included|)]
                                     + [RewardTx(hashing, publicKey, rewardTime)]
                && Canonical(b.transactions[|b.transactions| - 1].hash) && Authentic(hashing, b)
                && b.commitmentHash == commitmentHash && b.depth == depth && b.row == row && b.col == col
                && b.previousHash == (if action.parent.Some? then action.parent.value.hash else "")
                && b.secondHash == (if action.second.Some? then action.second.value.hash else "")
                && b.stamp.number == (old(blockchainLength) + 1) % 0x1_0000_0000
                && b.stamp.author == publicKey && b.stamp.createdAt == now
                && Commits(hashing, b) && HasRoot(hashing, b)
                && IsTxHash(hashing, b.transactions[|b.transactions| - 1].hash, seq(40, _ => '0'), publicKey, 0,
                            rewardTime)
    {
      hide Append, Removed, AllDecode, RootOf, HashOf, RewardTx, Encode, Commits, HasRoot, IsTxHash;
      var transactions := included;
      if |transactions| > params.txPerBlock {
        transactions := transactions[..params.txPerBlock];
      }
      assert transactions == included[..Min(params.txPerBlock, |included|)];
      RewardIsLast(hashing, publicKey, rewardTime, transactions);
      hide Canonical;
      transactions := transactions + [RewardTx(hashing, publicKey, rewardTime)];
      if !AllDecode(transactions) {
        return None;
      }
      var previousHash := if action.parent.Some? then action.parent.value.hash else "";
      var secondHash := if action.second.Some? then action.second.value.hash else "";
      var stamp := Stamp((blockchainLength + 1) % 0x1_0000_0000, now, publicKey, Encode(RootOf(hashing, transactions)));
      var b := Block(HashOf(hashing, transactions, stamp), transactions, previousHash, secondHash, depth, row, col,
                     commitmentHash, stamp);
      AuthenticCommits(hashing, b);
      AppendToChain(b);
      created := Some(b);
    }

    method AppendToChain(b: Block)
      requires Valid()
      modifies this
      ensures Valid() && State() == Append(old(State()), b)
    {
      blockchain := blockchain + [b];
      blockchainLength := blockchainLength + 1;
      RemoveFromMempool(b.transactions);
    }

    method RemoveFromMempool(txs: seq<Tx>)
      requires Valid()
      modifies this`mempool
      ensures Valid() && mempool == old(mempool) - Removed(txs)
    {
      hide Reencoded;
      for i := 0 to |txs|
        invariant Valid() && mempool == old(mempool) - Removed(txs[..i])
      {
        assert Removed(txs[..i + 1]) == Removed(txs[..i]) + {Reencoded(txs[i].hash)};
        mempool := mempool - {Reencoded(txs[i].hash)};
      }
      assert txs[..|txs|] == txs;
    }

    /** The search of processBlock for a parent: newest to oldest without stopping, so the oldest match stays. */
    method ResolveParent(hash: string) returns (parent: Option<Block>)
      ensures parent == FirstWithHash(blockchain, hash)
    {
      parent := None;
      var i := |blockchain|;
      while i > 0
        invariant 0 <= i <= |blockchain|
        invariant parent == FirstWithHash(blockchain[i..], hash)
      {
        i := i - 1;
        assert blockchain[i..][1..] == blockchain[i + 1..];
        if blockchain[i].hash == hash {
          parent := Some(blockchain[i]);
        }
      }
      assert blockchain[0..] == blockchain;
    }

    /** A received block: decode and hash its transactions, match commitment, fields and block hash, resolve the
        parents, append. The signature is checked and a parent searched for, but a failure only logs. */
    method ProcessBlock(m: Incoming, expectedCommitmentHash: string) returns (verdict: Verdict)
      requires Valid()
      modifies this
      ensures Valid()
      ensures verdict == Judge(hashing, old(blockchain), m, expectedCommitmentHash)
      ensures State() == if verdict.Appended? then Append(old(State()), m.block) else old(State())
      ensures verdict.Appended? ==> (verdict.parent.Some? <==> Present(old(blockchain), m.block.previousHash))
      ensures verdict.Appended? ==> Commits(hashing, m.block)
    {
      var b := m.block;
      FirstWithHashIff(blockchain, b.previousHash);
      hide Decodes, Append, Present, FirstWithHash, RootOf, HashOf, Commits;
      if !AllDecode(b.transactions) {
        return Died;
      }
      if b.commitmentHash != expectedCommitmentHash {
        return Rejected;
      }
      if !m.fieldsDecode {
        return Rejected;
      }
      if b.hash != HashOf(hashing, b.transactions, b.stamp) {
        return Rejected;
      }
      AuthenticCommits(hashing, b);
      var parent := ResolveParent(b.previousHash);
      var second: Option<Block> := None;
      if b.secondHash != "" {
        second := ResolveParent(b.secondHash);
      }
      AppendToChain(b);
      verdict := Appended(parent, second);
    }

    /** The handler of a block message; `shared` maps the commitments of the running generation to their hashes. */
    method ReceiveBlock(m: Incoming, shared: map<string, string>) returns (verdict: Verdict)
      requires Valid()
      modifies this
      ensures Valid()
      ensures verdict == Handle(hashing, old(blockchain), m, Lookup(shared, m))
      ensures verdict.Appended? <==>
                && m.block.commitmentHash in shared && shared[m.block.commitmentHash] == m.block.commitmentHash
                && m.fieldsDecode && Authentic(hashing, m.block)
      ensures State() == if verdict.Appended? then Append(old(State()), m.block) else old(State())
    {
      if m.block.commitmentHash !in shared {
        return Rejected;
      }
      verdict := ProcessBlock(m, shared[m.block.commitmentHash]);
    }

    /** Messages in the order of their arrival, until one of them ends the process. */
    method ReceiveBlocks(inbox: seq<Incoming>, shared: map<string, string>) returns (alive: bool, appended: seq<Block>)
      requires Valid()
      modifies this
      ensures Valid() && State() == AppendAll(old(State()), appended)
      ensures alive <==> Reads(inbox, m => Lookup(shared, m), |inbox|)
      ensures alive ==> blockchain == ChainAfter(hashing, old(blockchain), inbox, m => Lookup(shared, m))
      ensures PoolDecodes(old(mempool)) ==> PoolDecodes(mempool)
    {
      hide Append, AppendAll, Handle, Lookup, AllDecode, Decodes;
      appended := [];
      ghost var start := State();
      ghost var expected := m => Lookup(shared, m);
      AppendNone(start);
      assert inbox[..0] == [];
      for i := 0 to |inbox|
        invariant Valid() && State() == AppendAll(start, appended) && Reads(inbox, expected, i)
        invariant blockchain == ChainAfter(hashing, old(blockchain), inbox[..i], expected)
      {
        assert inbox[..i + 1][..i] == inbox[..i];
        var verdict := ReceiveBlock(inbox[i], shared);
        HandleDies(hashing, ChainAfter(hashing, old(blockchain), inbox[..i], expected), inbox[i], expected(inbox[i]));
        if verdict == Died {
          PoolShrinks(start, appended);
          return false, appended;
        }
        if verdict.Appended? {
          AppendAllStep(start, appended, inbox[i].block);
          AppendExtends(AppendAll(start, appended), inbox[i].block);
          appended := appended + [inbox[i].block];
        }
      }
      assert inbox[..|inbox|] == inbox;
      PoolShrinks(start, appended);
      alive := true;
    }

    /** The filter loop: count the rows that are not skipped and keep those whose slot this node leads. */
    static method FilterRows(fin: seq<DagAction>, slot: nat, positions: seq<nat>)
      returns (rows: seq<nat>, expectedNumOfNewBlocks: nat)
      ensures expectedNumOfNewBlocks == |ActiveRows(fin)|
      ensures forall i: nat :: i in rows <==> i < |fin| && slot + i in positions && fin[i].action != Skip
      ensures forall j, k :: 0 <= j < k < |rows| ==> rows[j] < rows[k]
    {
      rows := [];
      expectedNumOfNewBlocks := 0;
      ghost var active: set<nat> := {};
      for i := 0 to |fin|
        invariant expectedNumOfNewBlocks == |active|
        invariant forall k: nat :: k in active <==> k < i && fin[k].action != Skip
        invariant forall j :: 0 <= j < |rows| ==> rows[j] < i
        invariant forall k: nat :: k in rows <==> k < i && slot + k in positions && fin[k].action != Skip
        invariant forall j, k :: 0 <= j < k < |rows| ==> rows[j] < rows[k]
      {
        if fin[i].action != Skip {
          expectedNumOfNewBlocks := expectedNumOfNewBlocks + 1;
          active := active + {i};
          var mine := SliceContainsInt(positions, slot + i);
          if mine {
            rows := rows + [i];
          }
        }
      }
      assert active == ActiveRows(fin);
    }

    method CreateForRow(row: nat, fin: seq<DagAction>, slot: nat, column: nat, bucket: seq<string>,
                        rewardTime: int, now: int) returns (created: Option<Block>)
      requires Valid() && row < |fin| && slot + row < |bucket|
      requires fin[row].action != Skip && fin[row].parent.Some? && 0 <= NextDepth(fin[row]) <= params.maxDepth
      modifies this
      ensures Valid() && (PoolDecodes(old(mempool)) ==> created.Some? && PoolDecodes(mempool))
      ensures State() == if created.Some? then Append(old(State()), created.value) else old(State())
      ensures created.Some? ==>
                Created(params.txPerBlock, fin, row, slot, column, bucket, hashing, old(mempool), created.value)
    {
      var depth: nat := NextDepth(fin[row]);
      var included := IncludedTransactions(depth, row);
      ghost var pool := mempool;
      hide Candidates, Decodes, Canonical, Authentic;
      created := CreateBlock(fin[row], included, depth, row, column, bucket[slot + row], rewardTime, now);
      if created.Some? {
        PackedAsSpecified(params.txPerBlock, pool, created.value, included, RewardTx(hashing, publicKey, rewardTime));
      }
    }

    /** The creation loop. `rewardTimes` and `times` are what the clock would supply for each row, `arrivals` the
        messages that the node reads before it creates the block of a row; `start` is its state at the start of the
        round and `arrived` what it has appended since. */
    method CreateBlocks(rows: seq<nat>, fin: seq<DagAction>, slot: nat, column: nat, bucket: seq<string>,
                        rewardTimes: seq<int>, times: seq<int>, arrivals: seq<seq<Incoming>>,
                        shared: map<string, string>, ghost start: NodeState, ghost arrived: seq<Block>)
      returns (alive: bool, made: seq<Block>, ghost order: seq<Block>, ghost at: seq<nat>)
      requires Valid() && State() == AppendAll(start, arrived)
      requires |rewardTimes| == |times| == |arrivals| == |fin| && forall i :: i in rows ==> i < |fin|
      requires forall i :: i in rows ==> fin[i].action != Skip && fin[i].parent.Some? && slot + i < |bucket|
                                         && 0 <= NextDepth(fin[i]) <= params.maxDepth
      modifies this
      ensures Valid() && State() == AppendAll(start, order) && arrived <= order
      ensures PoolDecodes(old(mempool)) && ArrivalsDecode(arrivals, shared) ==> alive
      ensures |made| == |at| <= |rows| && (alive ==> |made| == |rows|)
      ensures forall k :: 0 <= k < |made| ==>
                MadeInOrder(params.txPerBlock, fin, slot, column, bucket, hashing, start, order,
                            rows[k], made[k], at[k])
      ensures forall j, k :: 0 <= j < k < |at| ==> at[j] < at[k]
    {
      hide Append, AppendAll, PoolDecodes, Created, MadeInOrder, ArrivalsDecode;
      made, order, at := [], arrived, [];
      for i := 0 to |rows|
        invariant Valid() && |made| == |at| == i && State() == AppendAll(start, order) && arrived <= order
        invariant PoolDecodes(old(mempool)) ==> PoolDecodes(mempool)
        invariant forall k :: 0 <= k < i ==>
          MadeInOrder(params.txPerBlock, fin, slot, column, bucket, hashing, start, order, rows[k], made[k], at[k])
        invariant forall k :: 0 <= k < i ==> at[k] < |order|
        invariant forall j, k :: 0 <= j < k < |at| ==> at[j] < at[k]
      {
        var row := rows[i];
        assert row in rows;
        ghost var before := order;
        var reading, appended := ReceiveBlocks(arrivals[row], shared);
        AppendAllAppended(start, before, appended);
        order := before + appended;
        forall k | 0 <= k < i
          ensures MadeInOrder(params.txPerBlock, fin, slot, column, bucket, hashing, start, order,
                              rows[k], made[k], at[k])
        {
          OrderGrows(params.txPerBlock, fin, slot, column, bucket, hashing, start, before, appended,
                     rows[k], made[k], at[k]);
        }
        if !reading {
          ArrivalsRead(arrivals, shared, row);
          return false, made, order, at;
        }
        var created := CreateForRow(row, fin, slot, column, bucket, rewardTimes[row], times[row]);
        if created.None? {
          return false, made, order, at;
        }
        made := made + [created.value];
        AppendAllStep(start, order, created.value);
        JustMade(params.txPerBlock, fin, slot, column, bucket, hashing, start, order, row, created.value);
        forall k | 0 <= k < i
          ensures MadeInOrder(params.txPerBlock, fin, slot, column, bucket, hashing, start, order + [created.value],
                              rows[k], made[k], at[k])
        {
          OrderGrows(params.txPerBlock, fin, slot, column, bucket, hashing, start, order, [created.value],
                     rows[k], made[k], at[k]);
        }
        at := at + [|order|];
        order := order + [created.value];
      }
      alive := true;
    }

    /** One pass of the schedule: plan, filter, create. It may begin after blocks of the same round have arrived, and
        more may arrive between the blocks that it creates. */
    method GenerationPass(slot: nat, column: nat, positions: seq<nat>, bucket: seq<string>,
                          rewardTimes: seq<int>, times: seq<int>, arrivals: seq<seq<Incoming>>,
                          shared: map<string, string>, ghost cols: seq<Column>, ghost start: NodeState,
                          ghost arrived: seq<Block>)
      returns (alive: bool, ghost pass: Pass, expectedNumOfNewBlocks: nat)
      requires Valid() && IsRun(params, cols) && Linearizes(start.chain, cols) && column == |cols|
      requires State() == AppendAll(start, arrived) && forall b :: b in arrived ==> b.col >= column
      requires |rewardTimes| == |times| == |arrivals| == Pow2(params.maxDepth)
      requires forall x :: x in positions ==> x < |bucket|
      modifies this
      ensures Valid() && State() == AppendAll(start, pass.order) && arrived <= pass.order
      ensures PoolDecodes(old(mempool)) && ArrivalsDecode(arrivals, shared) ==> alive
      ensures alive ==> PassOutcome(params, hashing, start, slot, column, positions, bucket, pass)
      ensures var last := cols[|cols| - 1]; var fin := FinalActions(params, last);
              expectedNumOfNewBlocks == |OccupiedRows(last)| + |RowsWith(fin, Split)| - |RowsWith(fin, Merge)|
    {
      AppendAllState(start, arrived);
      hide FinalActions, Linearizes, NodeActions, MadeInOrder, PoolDecodes, WellFormed, AppendAll, ArrivalsDecode;
      var acts := PlanRound(column, cols, start.chain, arrived);
      var fin := acts[..];
      EveryColumnIsWellFormed(params, cols, |cols| - 1);
      var rows: seq<nat>;
      rows, expectedNumOfNewBlocks := FilterRows(fin, slot, positions);
      ActiveRowsCount(params, cols[|cols| - 1]);
      forall i | i in rows
        ensures slot + i < |bucket| && fin[i].parent.Some? && 0 <= NextDepth(fin[i]) <= params.maxDepth
      {
        assert slot + i in positions;
        NewInterval(params, cols[|cols| - 1], i);
      }
      var made: seq<Block>;
      ghost var order, at;
      alive, made, order, at :=
        CreateBlocks(rows, fin, slot, column, bucket, rewardTimes, times, arrivals, shared, start, arrived);
      pass := Pass(rows, made, order, at);
    }
  }

  lemma FinalIsResolved(p: Params, last: Column)
    ensures FinalActions(p, last) == MergesThenSplits(p.maxDepth, DecideAll(p, last))
  {
  }

  lemma NodesDecide(p: Params, chain: seq<Block>, acts: seq<DagAction>, cols: seq<Column>)
    requires IsRun(p, cols) && Linearizes(chain, cols) && |acts| == Pow2(p.maxDepth)
    requires forall k :: 0 <= k < |acts| ==> acts[k] == Decide(p, chain, k, |cols|)
    ensures acts == DecideAll(p, cols[|cols| - 1])
  {
    hide Decide, DecideOn, Linearizes;
    EveryColumnIsWellFormed(p, cols, |cols| - 1);
    DecideReadsColumn(p, chain, cols);
    hide IsRun;
  }

  // ---------------------------------------------------------------- received blocks

  function Lookup(shared: map<string, string>, m: Incoming): Option<string> {
    if m.block.commitmentHash in shared then Some(shared[m.block.commitmentHash]) else None
  }

  predicate ArrivalsDecode(arrivals: seq<seq<Incoming>>, shared: map<string, string>) {
    forall i :: 0 <= i < |arrivals| ==> Reads(arrivals[i], m => Lookup(shared, m), |arrivals[i]|)
  }

  lemma ArrivalsRead(arrivals: seq<seq<Incoming>>, shared: map<string, string>, i: nat)
    requires i < |arrivals|
    ensures ArrivalsDecode(arrivals, shared) ==> Reads(arrivals[i], m => Lookup(shared, m), |arrivals[i]|)
  {
  }

  lemma HandleDies(h: Hashing, chain: seq<Block>, m: Incoming, expected: Option<string>)
    ensures Handle(h, chain, m, expected) == Died <==> expected.Some? && !AllDecode(m.block.transactions)
  {
  }

  lemma AppendNone(ns: NodeState)
    ensures AppendAll(ns, []) == ns
  {
  }

  lemma AppendExtends(ns: NodeState, b: Block)
    ensures Append(ns, b).chain == ns.chain + [b]
  {
  }

  lemma PoolShrinks(ns: NodeState, bs: seq<Block>)
    ensures PoolDecodes(ns.pool) ==> PoolDecodes(AppendAll(ns, bs).pool)
  {
    AppendAllState(ns, bs);
  }

  /** COINBASE_ADDRESS: forty zeros. */
  function Coinbase(): string {
    seq(40, _ => '0')
  }

  datatype GenesisTx = GenesisTx(sender: string, recipient: string, amount: int, createdAt: int)

  function GenesisTransactions(h: Hashing, txs: seq<GenesisTx>): (r: seq<Tx>)
    ensures |r| == |txs|
  {
    if txs == [] then []
    else
      var t := txs[|txs| - 1];
      GenesisTransactions(h, txs[..|txs| - 1]) + [Tx(Encode(h.tx(t.sender, t.recipient, t.amount, t.createdAt)), 0)]
  }

  lemma {:induction false} GenesisDecodes(h: Hashing, txs: seq<GenesisTx>)
    ensures AllDecode(GenesisTransactions(h, txs))
    ensures forall i :: 0 <= i < |txs| ==>
              var t := txs[i];
              IsTxHash(h, GenesisTransactions(h, txs)[i].hash, t.sender, t.recipient, t.amount, t.createdAt)
  {
    hide Decodes, Decode;
    if txs != [] {
      var t := txs[|txs| - 1];
      GenesisDecodes(h, txs[..|txs| - 1]);
      DecodeEncode(h.tx(t.sender, t.recipient, t.amount, t.createdAt));
    }
  }

  function RewardTx(h: Hashing, publicKey: string, time: int): Tx {
    Tx(Encode(h.tx(Coinbase(), publicKey, 0, time)), 0)
  }

  predicate PoolDecodes(pool: map<string, Tx>) {
    forall h :: h in pool ==> Decodes(h)
  }

  lemma RewardIsLast(h: Hashing, publicKey: string, time: int, txs: seq<Tx>)
    ensures var reward := RewardTx(h, publicKey, time);
      && Canonical(reward.hash) && (AllDecode(txs + [reward]) <==> AllDecode(txs))
      && IsTxHash(h, reward.hash, seq(40, _ => '0'), publicKey, 0, time)
  {
    assert Coinbase() == seq(40, _ => '0');
    DecodeEncode(h.tx(Coinbase(), publicKey, 0, time));
    hide Decodes;
    var all := txs + [RewardTx(h, publicKey, time)];
    assert all[|txs|] == RewardTx(h, publicKey, time);
    assert forall i :: 0 <= i < |txs| ==> all[i] == txs[i];
  }

  /** The block of row `row` is the one its action prescribes, packed from the pool of that moment, and hashed. */
  ghost predicate Created(cap: nat, fin: seq<DagAction>, row: nat, slot: nat, column: nat, bucket: seq<string>,
                          h: Hashing, pool: map<string, Tx>, b: Block)
  {
    && row < |fin| && slot + row < |bucket|
    && Shaped(fin[row], row, column, b)
    && Packs(cap, pool, b)
    && b.commitmentHash == bucket[slot + row] && Authentic(h, b)
  }

  /** Block b of row `row` stands at index k of everything the node appended since the start of the round, and was
      packed from the pool that the blocks before it left. */
  ghost predicate MadeInOrder(cap: nat, fin: seq<DagAction>, slot: nat, column: nat, bucket: seq<string>, h: Hashing,
                              start: NodeState, order: seq<Block>, row: nat, b: Block, k: nat)
  {
    && k < |order| && order[k] == b
    && Created(cap, fin, row, slot, column, bucket, h, AppendAll(start, order[..k]).pool, b)
  }

  lemma OrderGrows(cap: nat, fin: seq<DagAction>, slot: nat, column: nat, bucket: seq<string>, h: Hashing,
                   start: NodeState, order: seq<Block>, more: seq<Block>, row: nat, b: Block, k: nat)
    requires MadeInOrder(cap, fin, slot, column, bucket, h, start, order, row, b, k)
    ensures MadeInOrder(cap, fin, slot, column, bucket, h, start, order + more, row, b, k)
    ensures k < |order|
  {
    hide Created, AppendAll;
    assert (order + more)[..k] == order[..k];
  }

  lemma JustMade(cap: nat, fin: seq<DagAction>, slot: nat, column: nat, bucket: seq<string>, h: Hashing,
                 start: NodeState, order: seq<Block>, row: nat, b: Block)
    requires Created(cap, fin, row, slot, column, bucket, h, AppendAll(start, order).pool, b)
    ensures MadeInOrder(cap, fin, slot, column, bucket, h, start, order + [b], row, b, |order|)
  {
    hide Created, AppendAll;
    assert (order + [b])[..|order|] == order;
  }

  /** A pass: the rows it created blocks for, those blocks, everything the node appended from the start of the round to
      the end of the pass, and where its own blocks stand in that. */
  datatype Pass = Pass(rows: seq<nat>, made: seq<Block>, order: seq<Block>, at: seq<nat>)

  /** What one pass leaves behind: a block for every active row the node leads, in ascending order, and no other. */
  ghost predicate PassOutcome(p: Params, h: Hashing, start: NodeState, slot: nat, column: nat, positions: seq<nat>,
                              bucket: seq<string>, pass: Pass)
  {
    var fin := NodeActions(p, start.chain, column);
    && (forall i: nat :: i in pass.rows <==> i < |fin| && slot + i in positions && fin[i].action != Skip)
    && (forall j, k :: 0 <= j < k < |pass.rows| ==> pass.rows[j] < pass.rows[k])
    && |pass.made| == |pass.rows| == |pass.at|
    && (forall j, k :: 0 <= j < k < |pass.at| ==> pass.at[j] < pass.at[k])
    && (forall k :: 0 <= k < |pass.made| ==>
          MadeInOrder(p.txPerBlock, fin, slot, column, bucket, h, start, pass.order, pass.rows[k], pass.made[k],
                      pass.at[k]))
  }

  function MadeMap(rows: seq<nat>, made: seq<Block>): map<nat, Block>
    requires |made| == |rows|
  {
    if rows == [] then map[]
    else MadeMap(rows[..|rows| - 1], made[..|rows| - 1])[rows[|rows| - 1] := made[|rows| - 1]]
  }

  lemma {:induction false} MadeMapContents(rows: seq<nat>, made: seq<Block>)
    requires |made| == |rows|
    ensures forall i: nat :: i in MadeMap(rows, made) ==>
              exists k :: 0 <= k < |rows| && rows[k] == i && made[k] == MadeMap(rows, made)[i]
  {
    if rows != [] {
      var n := |rows| - 1;
      MadeMapContents(rows[..n], made[..n]);
      forall i: nat | i in MadeMap(rows, made)
        ensures exists k :: 0 <= k < |rows| && rows[k] == i && made[k] == MadeMap(rows, made)[i]
      {
        if i == rows[n] {
          assert made[n] == MadeMap(rows, made)[i];
        } else {
          var k :| 0 <= k < n && rows[..n][k] == i && made[..n][k] == MadeMap(rows[..n], made[..n])[i];
          assert rows[k] == i && made[k] == MadeMap(rows, made)[i];
        }
      }
    }
  }

  lemma {:induction false} MadeMapKeys(rows: seq<nat>, made: seq<Block>)
    requires |made| == |rows|
    ensures forall i: nat :: i in MadeMap(rows, made) <==> i in rows
  {
    if rows != [] {
      var n := |rows| - 1;
      MadeMapKeys(rows[..n], made[..n]);
      assert rows == rows[..n] + [rows[n]];
    }
  }

  /** Every node makes its pass, beginning and interleaving it with the arrivals of others as it likes. */
  ghost predicate AllPassed(p: Params, h: Hashing, positions: seq<seq<nat>>, slot: nat, bucket: seq<string>,
                            passes: seq<Pass>, e: RoundEvents, s: System)
  {
    && |positions| == |passes| == |e.made| == |e.orders| == |s.nodes|
    && forall n :: 0 <= n < |s.nodes| ==>
         && PassOutcome(p, h, s.nodes[n], slot, |s.cols|, positions[n], bucket, passes[n])
         && e.made[n] == MadeMap(passes[n].rows, passes[n].made) && passes[n].order <= e.orders[n]
  }

  lemma PassesAreLed(p: Params, h: Hashing, positions: seq<seq<nat>>, slot: nat, bucket: seq<string>,
                     passes: seq<Pass>, e: RoundEvents, s: System)
    requires AllPassed(p, h, positions, slot, bucket, passes, e, s) && Disjoint(positions)
    ensures Led(p, positions, slot, e, s)
  {
    hide Shaped, NodeActions, Disjoint, PassOutcome, MadeMap;
    forall n, i | 0 <= n < |e.made| && i in e.made[n]
      ensures i < Pow2(p.maxDepth) && slot + i in positions[n]
      ensures Shaped(NodeActions(p, s.nodes[n].chain, |s.cols|)[i], i, |s.cols|, e.made[n][i])
    {
      var k := MadeAt(p, h, s.nodes[n], slot, |s.cols|, positions[n], bucket, passes[n], i);
    }
  }

  lemma PassesArePacked(p: Params, h: Hashing, positions: seq<seq<nat>>, slot: nat, bucket: seq<string>,
                        passes: seq<Pass>, e: RoundEvents, s: System, s': System)
    requires AllPassed(p, h, positions, slot, bucket, passes, e, s) && Delivered(e, s, s')
    ensures Packed(p, e, s)
  {
    hide Packs, Shaped, NodeActions, PassOutcome, MadeMap, AppendAll, IsMade;
    forall n, k | 0 <= n < |s.nodes| && 0 <= k < |e.orders[n]| && e.orders[n][k] in e.made[n].Values
      ensures Packs(p.txPerBlock, AppendAll(s.nodes[n], e.orders[n][..k]).pool, e.orders[n][k])
    {
      var b := e.orders[n][k];
      var i :| i in e.made[n] && e.made[n][i] == b;
      var j := MadeAt(p, h, s.nodes[n], slot, |s.cols|, positions[n], bucket, passes[n], i);
      assert e.orders[n][j] == passes[n].order[j] == b;
      assert j == k;
      assert e.orders[n][..k] == passes[n].order[..k];
    }
  }

  /** The passes of all nodes make a round of the network: what the class does is what the executions of the ledger
      are made of. */
  lemma PassesFormRound(p: Params, h: Hashing, positions: seq<seq<nat>>, slot: nat, bucket: seq<string>,
                        passes: seq<Pass>, e: RoundEvents, s: System, s': System)
    requires AllPassed(p, h, positions, slot, bucket, passes, e, s) && Disjoint(positions)
    requires FreshHashes(e, s) && Delivered(e, s, s')
    requires s'.cols == s.cols + [ColumnMade(p.maxDepth, e.made)] && s'.given == s.given
    ensures Round(p, positions, slot, e, s, s')
  {
    PassesAreLed(p, h, positions, slot, bucket, passes, e, s);
    PassesArePacked(p, h, positions, slot, bucket, passes, e, s, s');
  }

  /** Where the block of row i stands in the order. */
  lemma MadeAt(p: Params, h: Hashing, start: NodeState, slot: nat, column: nat, positions: seq<nat>,
               bucket: seq<string>, pass: Pass, i: nat) returns (k: nat)
    requires PassOutcome(p, h, start, slot, column, positions, bucket, pass)
    requires i in MadeMap(pass.rows, pass.made)
    ensures k < |pass.order| && pass.order[k] == MadeMap(pass.rows, pass.made)[i]
    ensures i < Pow2(p.maxDepth) && slot + i in positions
    ensures Shaped(NodeActions(p, start.chain, column)[i], i, column, pass.order[k])
    ensures Packs(p.txPerBlock, AppendAll(start, pass.order[..k]).pool, pass.order[k])
  {
    hide Packs, Shaped, NodeActions;
    MadeMapContents(pass.rows, pass.made);
    var j :| 0 <= j < |pass.rows| && pass.rows[j] == i && pass.made[j] == MadeMap(pass.rows, pass.made)[i];
    k := pass.at[j];
    assert pass.rows[j] in pass.rows;
    assert MadeInOrder(p.txPerBlock, NodeActions(p, start.chain, column), slot, column, bucket, h, start, pass.order,
                       pass.rows[j], pass.made[j], pass.at[j]);
  }

  /** The branch's transactions among those already enumerated have been collected, each once. */
  ghost predicate Collected(pool: map<string, Tx>, depth: nat, row: nat, included: seq<Tx>, rest: set<string>)
    requires depth <= HASH_HEX_LEN
  {
    && (forall t :: t in included ==>
          t.hash in pool && pool[t.hash] == t && BelongsToIndex(t.mask, depth, row) && t.hash !in rest)
    && (forall i, j :: 0 <= i < j < |included| ==> included[i].hash != included[j].hash)
    && (forall h :: h in pool && h !in rest && BelongsToIndex(pool[h].mask, depth, row) ==> h in TxHashes(included))
  }

  lemma CollectOne(pool: map<string, Tx>, depth: nat, row: nat, included: seq<Tx>, rest: set<string>, h: string)
    requires depth <= HASH_HEX_LEN && h in rest && h in pool && pool[h].hash == h
    requires Collected(pool, depth, row, included, rest)
    ensures if BelongsToIndex(pool[h].mask, depth, row)
            then Collected(pool, depth, row, included + [pool[h]], rest - {h})
            else Collected(pool, depth, row, included, rest - {h})
  {
    hide BelongsToIndex;
    if BelongsToIndex(pool[h].mask, depth, row) {
      var next := included + [pool[h]];
      assert TxHashes(next) == TxHashes(included) + {h};
      forall i, j | 0 <= i < j < |next| ensures next[i].hash != next[j].hash {
        assert included[i] in included;
      }
    }
  }

  lemma PackedAsSpecified(cap: nat, pool: map<string, Tx>, b: Block, included: seq<Tx>, reward: Tx)
    requires b.depth <= HASH_HEX_LEN
    requires b.transactions == included[..Min(cap, |included|)] + [reward]
    requires |included| == |Candidates(pool, b.depth, b.row)|
    requires forall t :: t in included ==>
               t.hash in pool && pool[t.hash] == t && BelongsToIndex(t.mask, b.depth, b.row)
    requires forall i, j :: 0 <= i < j < |included| ==> included[i].hash != included[j].hash
    requires Canonical(reward.hash) && AllDecode(b.transactions)
    ensures Packs(cap, pool, b)
  {
    hide Canonical, BelongsToIndex, Candidates;
    assert Body(b) == included[..Min(cap, |included|)];
  }
}
