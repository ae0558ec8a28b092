/** Conservation of transactions over whole executions: pooled everywhere, or in exactly one block. */
module Conservation {
  import opened Types
  import opened Hex
  import opened Sets
  import opened Powers
  import opened Dag
  import opened Columns
  import opened Schedule
  import opened Routing
  import opened Ledger

  /** Occurrences of a hash in a list of transactions, and in a list of blocks. */
  function OccIn(txs: seq<Tx>, h: string): nat {
    if txs == [] then 0 else OccIn(txs[..|txs| - 1], h) + (if txs[|txs| - 1].hash == h then 1 else 0)
  }

  function Occ(bs: seq<Block>, h: string): nat {
    if bs == [] then 0 else Occ(bs[..|bs| - 1], h) + OccIn(bs[|bs| - 1].transactions, h)
  }

  lemma {:induction false} OccAppend(a: seq<Block>, b: seq<Block>, h: string)
    ensures Occ(a + b, h) == Occ(a, h) + Occ(b, h)
    decreases |b|
  {
    if b == [] {
      assert a + b == a;
    } else {
      OccAppend(a, b[..|b| - 1], h);
      assert (a + b)[..|a + b| - 1] == a + b[..|b| - 1];
    }
  }

  lemma {:induction false} OccInZero(txs: seq<Tx>, h: string)
    ensures OccIn(txs, h) == 0 <==> h !in TxHashes(txs)
  {
    if txs != [] {
      var init, last := txs[..|txs| - 1], txs[|txs| - 1];
      OccInZero(init, h);
      assert txs == init + [last];
    }
  }

  lemma {:induction false} OccInOne(txs: seq<Tx>, h: string)
    requires forall i, j :: 0 <= i < j < |txs| ==> txs[i].hash != txs[j].hash
    ensures OccIn(txs, h) == if h in TxHashes(txs) then 1 else 0
  {
    if txs != [] {
      var init, last := txs[..|txs| - 1], txs[|txs| - 1];
      OccInOne(init, h);
      assert txs == init + [last];
      LastIsNew(txs);
    }
  }

  lemma {:induction false} OccZero(bs: seq<Block>, h: string)
    requires forall b :: b in bs ==> h !in TxHashes(b.transactions)
    ensures Occ(bs, h) == 0
  {
    if bs != [] {
      OccZero(bs[..|bs| - 1], h);
      OccInZero(bs[|bs| - 1].transactions, h);
    }
  }

  /** If at most one of the blocks mentions a hash, and that one once, the total is 0 or 1. */
  lemma {:induction false} OccOnce(bs: seq<Block>, h: string)
    requires forall b :: b in bs ==> OccIn(b.transactions, h) <= 1
    requires forall i, j :: 0 <= i < j < |bs| ==>
               h !in TxHashes(bs[i].transactions) || h !in TxHashes(bs[j].transactions)
    ensures Occ(bs, h) == if h in HashesOf(bs) then 1 else 0
  {
    if bs != [] {
      var init, last := bs[..|bs| - 1], bs[|bs| - 1];
      LastBlock(bs, h);
      hide HashesOf, TxHashes;
      OccOnce(init, h);
      OccInZero(last.transactions, h);
    }
  }

  lemma LastBlock(bs: seq<Block>, h: string)
    requires bs != []
    requires forall i, j :: 0 <= i < j < |bs| ==>
               h !in TxHashes(bs[i].transactions) || h !in TxHashes(bs[j].transactions)
    ensures var init, last := bs[..|bs| - 1], bs[|bs| - 1];
      && (h in HashesOf(bs) <==> h in HashesOf(init) || h in TxHashes(last.transactions))
      && !(h in HashesOf(init) && h in TxHashes(last.transactions))
  {
    var init, last := bs[..|bs| - 1], bs[|bs| - 1];
    assert bs == init + [last];
    assert HashesOf(bs) == HashesOf(init) + TxHashes(last.transactions);
    if h in HashesOf(init) {
      var b, t :| b in init && t in b.transactions && t.hash == h;
      var i :| 0 <= i < |init| && init[i] == b;
      assert h in TxHashes(bs[i].transactions);
    }
  }

  // ---------------------------------------------------------------- invariant

  /** Hashes that a node can take and decode are written in lower case. */
  predicate LowerCase(hashes: set<string>) {
    forall h :: h in hashes && |h| >= HASH_HEX_LEN && Decodes(h) ==> Canonical(h)
  }

  /** Between rounds all pools agree and hold only given transactions, under their own hashes. */
  ghost predicate PoolsAgree(s: System) {
    && |s.nodes| > 0 && LowerCase(s.given)
    && (forall n :: 0 <= n < |s.nodes| ==> s.nodes[n].pool == s.nodes[0].pool)
    && (forall h :: h in s.nodes[0].pool ==>
          && h in s.given && |h| >= HASH_HEX_LEN
          && s.nodes[0].pool[h].hash == h && s.nodes[0].pool[h].mask < MASK_LIMIT)
  }

  /** Every given transaction is, at every node, either pooled or in the chain, and there exactly once. */
  ghost predicate Conserved(s: System) {
    forall n, h :: 0 <= n < |s.nodes| && h in s.given ==>
      Occ(s.nodes[n].chain, h) + (if h in s.nodes[n].pool then 1 else 0) == 1
  }

  lemma {:induction false} PutAllContents(pool: map<string, Tx>, txs: seq<Tx>)
    ensures PutAll(pool, txs).Keys == pool.Keys + TxHashes(txs)
    ensures forall h :: h in PutAll(pool, txs) ==>
              var t := PutAll(pool, txs)[h];
              if h in TxHashes(txs) then t in txs && t.hash == h else h in pool && t == pool[h]
  {
    if txs != [] {
      var init, last := txs[..|txs| - 1], txs[|txs| - 1];
      PutAllContents(pool, init);
      assert txs == init + [last];
    }
  }

  lemma GiveConserves(s: System, txs: seq<Tx>, s': System)
    requires PoolsAgree(s) && Conserved(s) && Give(s, txs, s') && LowerCase(s'.given)
    ensures PoolsAgree(s') && Conserved(s')
  {
    PutAllContents(s.nodes[0].pool, txs);
    MaskLimit();
    forall n, h | 0 <= n < |s'.nodes| && h in s'.given
      ensures Occ(s'.nodes[n].chain, h) + (if h in s'.nodes[n].pool then 1 else 0) == 1
    {
      PutAllContents(s.nodes[n].pool, txs);
      if h in TxHashes(txs) {
        OccZero(s.nodes[n].chain, h);
      }
    }
  }

  /** What a leader packs comes from the common pool and belongs to the branch of its block. */
  ghost predicate FromPool(pool: map<string, Tx>, b: Block) {
    && b.depth <= HASH_HEX_LEN && b.transactions != []
    && Canonical(b.transactions[|b.transactions| - 1].hash)
    && (forall t :: t in b.transactions ==> Decodes(t.hash))
    && (forall t :: t in Body(b) ==> t.hash in pool && pool[t.hash] == t && BelongsToIndex(t.mask, b.depth, b.row))
    && (forall i, j :: 0 <= i < j < |Body(b)| ==> Body(b)[i].hash != Body(b)[j].hash)
  }

  /** The moment at which a block was packed: its maker, and its place in the maker's order. */
  lemma PackedWhen(p: Params, positions: seq<seq<nat>>, slot: nat, e: RoundEvents, s: System, s': System, b: Block)
    returns (n: nat, k: nat)
    requires PoolsAgree(s) && Round(p, positions, slot, e, s, s') && IsMade(e.made, b)
    ensures n < |s.nodes| == |e.orders| && k < |e.orders[n]| && e.orders[n][k] == b
    ensures Packs(p.txPerBlock, s.nodes[0].pool - RemovedBy(e.orders[n][..k]), b)
  {
    hide NodeActions, ColumnMade;
    var m, i :| 0 <= m < |e.made| && i in e.made[m] && e.made[m][i] == b;
    n := m;
    assert b in e.orders[n];
    var j :| 0 <= j < |e.orders[n]| && e.orders[n][j] == b;
    k := j;
    assert e.orders[n][k] in e.made[n].Values;
    AppendAllState(s.nodes[n], e.orders[n][..k]);
  }

  lemma MadeFromPool(p: Params, positions: seq<seq<nat>>, slot: nat, e: RoundEvents, s: System, s': System, b: Block)
    requires PoolsAgree(s) && Round(p, positions, slot, e, s, s') && IsMade(e.made, b)
    ensures FromPool(s.nodes[0].pool, b)
  {
    var n, k := PackedWhen(p, positions, slot, e, s, s', b);
  }

  lemma MadeCanonical(p: Params, positions: seq<seq<nat>>, slot: nat, e: RoundEvents, s: System, s': System, b: Block)
    requires PoolsAgree(s) && Round(p, positions, slot, e, s, s') && IsMade(e.made, b)
    ensures forall t :: t in b.transactions ==> Canonical(t.hash)
  {
    hide Round, IsMade, LowerCase, FromPool;
    MadeFromPool(p, positions, slot, e, s, s', b);
    FromPoolCanonical(s.given, s.nodes[0].pool, b);
  }

  lemma FromPoolCanonical(given: set<string>, pool: map<string, Tx>, b: Block)
    requires FromPool(pool, b) && LowerCase(given) && forall h :: h in pool ==> h in given && |h| >= HASH_HEX_LEN
    ensures forall t :: t in b.transactions ==> Canonical(t.hash)
  {
    hide BelongsToIndex, Canonical, Decodes;
    forall t | t in b.transactions ensures Canonical(t.hash) {
      if t != b.transactions[|b.transactions| - 1] {
        assert t in Body(b);
      }
    }
  }

  /** Blocks of a round delete from the pools exactly the hashes they mention. */
  lemma RoundRemoves(p: Params, positions: seq<seq<nat>>, slot: nat, e: RoundEvents, s: System, s': System,
                     n: nat, k: nat)
    requires PoolsAgree(s) && Round(p, positions, slot, e, s, s')
    requires n < |s.nodes| == |e.orders| && k <= |e.orders[n]|
    ensures RemovedBy(e.orders[n][..k]) == HashesOf(e.orders[n][..k])
  {
    hide Led, FreshHashes, Packed, ColumnMade, IsMade, PoolsAgree, Canonical;
    forall b, t | b in e.orders[n][..k] && t in b.transactions ensures Canonical(t.hash) {
      assert b in e.orders[n];
      assert IsMade(e.made, b);
      MadeCanonical(p, positions, slot, e, s, s', b);
    }
    CanonicalRemoved(e.orders[n][..k]);
  }

  /** Two blocks of one round share no pooled transaction. */
  lemma MadeBlocksShareNothing(p: Params, positions: seq<seq<nat>>, slot: nat, e: RoundEvents, s: System, s': System,
                               b: Block, b': Block, h: string)
    requires NeverRoutesTwice(p.maxDepth) && Structure(p, s) && PoolsAgree(s) && Round(p, positions, slot, e, s, s')
    requires IsMade(e.made, b) && IsMade(e.made, b') && h in s.given
    requires h in TxHashes(b.transactions) && h in TxHashes(b'.transactions)
    ensures b == b'
  {
    hide Structure, Led, PoolsAgree, IsMade, FreshHashes, Delivered, Packed, ColumnMade;
    var mask := MadeMention(p, positions, slot, e, s, s', b, h);
    var mask' := MadeMention(p, positions, slot, e, s, s', b', h);
    OneBranchPerKey(p, positions, slot, e, s, b, b', mask);
  }

  /** A key belongs to the branch of one block of the round at most. */
  lemma OneBranchPerKey(p: Params, positions: seq<seq<nat>>, slot: nat, e: RoundEvents, s: System,
                        b: Block, b': Block, mask: nat)
    requires NeverRoutesTwice(p.maxDepth) && Structure(p, s) && Led(p, positions, slot, e, s)
    requires IsMade(e.made, b) && IsMade(e.made, b') && b.depth <= HASH_HEX_LEN && b'.depth <= HASH_HEX_LEN
    requires BelongsToIndex(mask, b.depth, b.row) && BelongsToIndex(mask, b'.depth, b'.row)
    ensures b == b'
  {
    hide NodeActions, ColumnMade, FinalActions, Led, BelongsToIndex;
    var next := ColumnMade(p.maxDepth, e.made);
    EveryColumnIsWellFormed(p, s.cols, |s.cols| - 1);
    RoundShapesColumn(p, positions, slot, e, s);
    RoundKeepsWellFormed(p, s.cols[|s.cols| - 1], next);
    ColumnHoldsAllMade(p, positions, slot, e, s);
    RoutedAtMostOnce(p.maxDepth, next, b.row, b'.row, mask);
  }

  /** A given hash in a new block is one of its pooled transactions, not its reward. */
  lemma MadeMention(p: Params, positions: seq<seq<nat>>, slot: nat, e: RoundEvents, s: System, s': System,
                    b: Block, h: string) returns (mask: nat)
    requires PoolsAgree(s) && Round(p, positions, slot, e, s, s') && IsMade(e.made, b)
    requires h in s.given && h in TxHashes(b.transactions)
    ensures h in s.nodes[0].pool && mask == s.nodes[0].pool[h].mask < MASK_LIMIT
    ensures b.depth <= HASH_HEX_LEN && BelongsToIndex(mask, b.depth, b.row) && h in TxHashes(Body(b))
  {
    hide NodeActions, ColumnMade, Led, Delivered, Packed;
    MadeFromPool(p, positions, slot, e, s, s', b);
    var t := MentionedInBody(s.nodes[0].pool, b, h);
    mask := t.mask;
  }

  lemma MentionedInBody(pool: map<string, Tx>, b: Block, h: string) returns (t: Tx)
    requires FromPool(pool, b) && h in TxHashes(b.transactions)
    requires h != b.transactions[|b.transactions| - 1].hash
    ensures t in Body(b) && t.hash == h && h in TxHashes(Body(b))
  {
    hide BelongsToIndex;
    assert b.transactions == Body(b) + [b.transactions[|b.transactions| - 1]];
    t :| t in b.transactions && t.hash == h;
    assert t in Body(b);
  }

  lemma MadeMentionsOnce(p: Params, positions: seq<seq<nat>>, slot: nat, e: RoundEvents, s: System, s': System,
                         b: Block, h: string)
    requires PoolsAgree(s) && Round(p, positions, slot, e, s, s') && IsMade(e.made, b) && h in s.given
    ensures OccIn(b.transactions, h) <= 1
  {
    hide NodeActions, ColumnMade;
    MadeFromPool(p, positions, slot, e, s, s', b);
    OccInOne(Body(b), h);
  }

  lemma RoundAddsOnce(p: Params, positions: seq<seq<nat>>, slot: nat, e: RoundEvents, s: System, s': System,
                      n: nat, h: string)
    requires NeverRoutesTwice(p.maxDepth) && Structure(p, s) && PoolsAgree(s) && Round(p, positions, slot, e, s, s')
    requires n < |s.nodes| && h in s.given
    ensures n < |e.orders|
    ensures Occ(e.orders[n], h) == if h in HashesOf(e.orders[n]) then 1 else 0
    ensures h in HashesOf(e.orders[n]) ==> h in s.nodes[0].pool
  {
    hide Led, Packed, ColumnMade, Structure, PoolsAgree, FreshHashes;
    forall b | b in e.orders[n] ensures OccIn(b.transactions, h) <= 1 {
      MadeMentionsOnce(p, positions, slot, e, s, s', b, h);
    }
    forall i, j | 0 <= i < j < |e.orders[n]|
      ensures h !in TxHashes(e.orders[n][i].transactions) || h !in TxHashes(e.orders[n][j].transactions)
    {
      var b, b' := e.orders[n][i], e.orders[n][j];
      if h in TxHashes(b.transactions) && h in TxHashes(b'.transactions) {
        MadeBlocksShareNothing(p, positions, slot, e, s, s', b, b', h);
      }
    }
    OccOnce(e.orders[n], h);
    if h in HashesOf(e.orders[n]) {
      var b, t :| b in e.orders[n] && t in b.transactions && t.hash == h;
      var mask := MadeMention(p, positions, slot, e, s, s', b, h);
    }
  }

  lemma SameBlocksSameHashes(e: RoundEvents, s: System, s': System, n: nat, m: nat)
    requires Delivered(e, s, s') && n < |s.nodes| && m < |s.nodes|
    ensures HashesOf(e.orders[n]) == HashesOf(e.orders[m])
  {
    forall b ensures b in e.orders[n] <==> b in e.orders[m] {
      assert b in e.orders[n] <==> IsMade(e.made, b);
      assert b in e.orders[m] <==> IsMade(e.made, b);
    }
  }

  lemma RoundResult(p: Params, positions: seq<seq<nat>>, slot: nat, e: RoundEvents, s: System, s': System, n: nat)
    requires PoolsAgree(s) && Round(p, positions, slot, e, s, s') && n < |s.nodes|
    ensures |s'.nodes| == |s.nodes| == |e.orders|
    ensures s'.nodes[n] == NodeState(s.nodes[n].chain + e.orders[n], s.nodes[0].pool - HashesOf(e.orders[n]))
  {
    hide Led, FreshHashes, Packed, ColumnMade, IsMade;
    AppendAllState(s.nodes[n], e.orders[n]);
    assert e.orders[n][..|e.orders[n]|] == e.orders[n];
    RoundRemoves(p, positions, slot, e, s, s', n, |e.orders[n]|);
  }

  lemma RoundConserves(p: Params, positions: seq<seq<nat>>, slot: nat, e: RoundEvents, s: System, s': System)
    requires NeverRoutesTwice(p.maxDepth) && Structure(p, s) && PoolsAgree(s) && Conserved(s)
    requires Round(p, positions, slot, e, s, s')
    ensures PoolsAgree(s') && Conserved(s')
  {
    hide Led, Packed, ColumnMade, Structure, FreshHashes;
    forall n | 0 <= n < |s.nodes|
      ensures s'.nodes[n] == NodeState(s.nodes[n].chain + e.orders[n], s.nodes[0].pool - HashesOf(e.orders[0]))
    {
      RoundResult(p, positions, slot, e, s, s', n);
      SameBlocksSameHashes(e, s, s', n, 0);
    }
    forall n, h | 0 <= n < |s'.nodes| && h in s'.given
      ensures Occ(s'.nodes[n].chain, h) + (if h in s'.nodes[n].pool then 1 else 0) == 1
    {
      OccAppend(s.nodes[n].chain, e.orders[n], h);
      RoundAddsOnce(p, positions, slot, e, s, s', n, h);
      SameBlocksSameHashes(e, s, s', n, 0);
    }
  }

  /** Main conservation result: in every state of every execution, unless L is 2 or 4, whoever misses blocks, each
      transaction given with a lower-case hash is either in every node's pool or exactly once in every node's chain. */
  lemma {:induction false} EveryStateConserves(p: Params, states: seq<System>, k: nat)
    requires NeverRoutesTwice(p.maxDepth) && IsExecution(p, states) && k < |states| && LowerCase(states[k].given)
    ensures PoolsAgree(states[k]) && Conserved(states[k])
  {
    hide Round, Give, Structure, PoolsAgree, Conserved, LowerCase;
    if k == 0 {
      InitConserves(p, states[0]);
    } else {
      assert Step(p, states[k - 1], states[k - 1 + 1]);
      GivenGrows(p, states[k - 1], states[k]);
      EveryStateConserves(p, states, k - 1);
      EveryStateHasStructure(p, states, k - 1);
      StepConserves(p, states[k - 1], states[k]);
    }
  }

  lemma GivenGrows(p: Params, s: System, s': System)
    requires Step(p, s, s')
    ensures s.given <= s'.given && (LowerCase(s'.given) ==> LowerCase(s.given))
  {
    hide Led, FreshHashes, Delivered, Packed, Canonical, Decodes;
  }

  lemma InitConserves(p: Params, s: System)
    requires Init(p, s)
    ensures PoolsAgree(s) && Conserved(s)
  {
  }

  lemma StepConserves(p: Params, s: System, s': System)
    requires NeverRoutesTwice(p.maxDepth) && Structure(p, s) && PoolsAgree(s) && Conserved(s) && Step(p, s, s')
    requires LowerCase(s'.given)
    ensures PoolsAgree(s') && Conserved(s')
  {
    hide Round, Give, Structure, PoolsAgree, Conserved, LowerCase;
    if txs :| Give(s, txs, s') {
      GiveConserves(s, txs, s');
    } else {
      var positions, slot, e :| Round(p, positions, slot, e, s, s');
      RoundConserves(p, positions, slot, e, s, s');
    }
  }

  // ---------------------------------------------------------------- progress

  /** Earlier blocks of the round do not touch the candidates of a later one. */
  lemma CandidatesUntouched(p: Params, positions: seq<seq<nat>>, slot: nat, e: RoundEvents, s: System, s': System,
                            b: Block, n: nat, k: nat)
    requires NeverRoutesTwice(p.maxDepth) && Structure(p, s) && PoolsAgree(s) && Round(p, positions, slot, e, s, s')
    requires IsMade(e.made, b) && n < |e.orders| && k < |e.orders[n]| && e.orders[n][k] == b
    requires b.depth <= HASH_HEX_LEN
    ensures Candidates(s.nodes[0].pool - HashesOf(e.orders[n][..k]), b.depth, b.row)
         == Candidates(s.nodes[0].pool, b.depth, b.row)
  {
    hide Structure, Led, Packed, FreshHashes, IsMade, ColumnMade, BelongsToIndex;
    var pool := s.nodes[0].pool;
    forall h | h in Candidates(pool, b.depth, b.row) ensures h !in HashesOf(e.orders[n][..k]) {
      if h in HashesOf(e.orders[n][..k]) {
        var c, t :| c in e.orders[n][..k] && t in c.transactions && t.hash == h;
        var i :| 0 <= i < k && e.orders[n][i] == c;
        assert c != b && IsMade(e.made, c);
        var mask := MadeMention(p, positions, slot, e, s, s', c, h);
        OneBranchPerKey(p, positions, slot, e, s, b, c, mask);
        assert false;
      }
    }
  }

  /** A block below the cap holds every pooled transaction of its branch. */
  lemma PackedAll(cap: nat, pool: map<string, Tx>, b: Block)
    requires Packs(cap, pool, b)
    ensures |Body(b)| <= cap
    ensures |Body(b)| < cap ==> TxHashes(Body(b)) == Candidates(pool, b.depth, b.row)
  {
    hide BelongsToIndex, Decodes, Canonical;
    DistinctCount(Body(b));
    assert TxHashes(Body(b)) <= Candidates(pool, b.depth, b.row);
    SubsetSize(TxHashes(Body(b)), Candidates(pool, b.depth, b.row));
  }

  /** Overflow past the cap stays pooled, and nothing else does: a pooled transaction whose branch got a block is
      included, unless that block already holds as many transactions as a block may. */
  lemma RoundIncludes(p: Params, positions: seq<seq<nat>>, slot: nat, e: RoundEvents, s: System, s': System,
                      b: Block, h: string)
    requires NeverRoutesTwice(p.maxDepth) && Structure(p, s) && PoolsAgree(s) && Round(p, positions, slot, e, s, s')
    requires IsMade(e.made, b) && h in s.nodes[0].pool
    requires b.depth <= HASH_HEX_LEN && BelongsToIndex(s.nodes[0].pool[h].mask, b.depth, b.row)
    ensures h in TxHashes(Body(b)) || |Body(b)| == p.txPerBlock
    ensures |Body(b)| <= p.txPerBlock
  {
    hide Round, Structure, IsMade, PoolsAgree, Packs, BelongsToIndex;
    var n, k := PackedWhen(p, positions, slot, e, s, s', b);
    RoundRemoves(p, positions, slot, e, s, s', n, k);
    CandidatesUntouched(p, positions, slot, e, s, s', b, n, k);
    PackedAll(p.txPerBlock, s.nodes[0].pool - HashesOf(e.orders[n][..k]), b);
    assert h in Candidates(s.nodes[0].pool, b.depth, b.row);
  }

  /** With L = 8 (or 1), while the columns tile, a round without missed blocks empties the pools of everything but
      overflow: every transaction left in the pool belongs to the branch of a block that is full. */
  lemma FullRoundLeavesOnlyOverflow(p: Params, positions: seq<seq<nat>>, slot: nat, e: RoundEvents, s: System,
                                    s': System, h: string) returns (b: Block)
    requires RoutesExactly(p.maxDepth) && Structure(p, s) && PoolsAgree(s) && Round(p, positions, slot, e, s, s')
    requires Tiles(p.maxDepth, s.cols[|s.cols| - 1])
    requires NoneMissed(FinalActions(p, s.cols[|s.cols| - 1]), ColumnMade(p.maxDepth, e.made))
    requires h in s'.nodes[0].pool
    ensures IsMade(e.made, b) && |Body(b)| == p.txPerBlock && b.depth <= HASH_HEX_LEN
    ensures h in s.nodes[0].pool && BelongsToIndex(s.nodes[0].pool[h].mask, b.depth, b.row)
  {
    hide NodeActions, FinalActions, FreshHashes, Packed, ColumnMade;
    var last, next := s.cols[|s.cols| - 1], ColumnMade(p.maxDepth, e.made);
    EveryColumnIsWellFormed(p, s.cols, |s.cols| - 1);
    RoundShapesColumn(p, positions, slot, e, s);
    RoundKeepsWellFormed(p, last, next);
    ColumnHoldsAllMade(p, positions, slot, e, s);
    forall v | 0 <= v < Pow2(p.maxDepth) ensures Covered(p.maxDepth, next, v) {
      RoundCoversNoLess(p, last, next, v);
    }
    RoundResult(p, positions, slot, e, s, s', 0);
    assert h in s.nodes[0].pool && h !in HashesOf(e.orders[0]);
    var mask := s.nodes[0].pool[h].mask;
    TilingRoutesToOne(p.maxDepth, next, mask);
    var i: nat :| RoutedTo(next, i, mask);
    b := next[i].value;
    assert b in e.orders[0];
    RoundIncludes(p, positions, slot, e, s, s', b, h);
    if h in TxHashes(Body(b)) {
      BodyIsIncluded(b, h);
      assert false;
    }
  }

  lemma BodyIsIncluded(b: Block, h: string)
    requires h in TxHashes(Body(b))
    ensures h in TxHashes(b.transactions)
  {
    var t :| t in Body(b) && t.hash == h;
    assert t in b.transactions;
  }

  // ---------------------------------------------------------------- the pools run empty

  /** A round in which every active row got its block. */
  ghost predicate FullRound(p: Params, s: System, s': System) {
    exists positions, slot, e :: FullRoundBy(p, positions, slot, e, s, s')
  }

  ghost predicate FullRoundBy(p: Params, positions: seq<seq<nat>>, slot: nat, e: RoundEvents, s: System, s': System) {
    && Round(p, positions, slot, e, s, s') && s.cols != []
    && NoneMissed(FinalActions(p, s.cols[|s.cols| - 1]), ColumnMade(p.maxDepth, e.made))
  }

  /** Rounds only, none of them with a missed block. */
  ghost predicate FullRun(p: Params, states: seq<System>) {
    |states| > 0 && forall k :: 0 <= k < |states| - 1 ==> FullRound(p, states[k], states[k + 1])
  }

  /** What full rounds start from and keep. */
  ghost predicate Tiled(p: Params, s: System) {
    Structure(p, s) && PoolsAgree(s) && Tiles(p.maxDepth, s.cols[|s.cols| - 1])
  }

  lemma FullRoundKeepsTiled(p: Params, s: System, s': System)
    requires RoutesExactly(p.maxDepth) && Tiled(p, s) && Conserved(s) && FullRound(p, s, s')
    ensures Tiled(p, s') && Conserved(s')
  {
    hide NodeActions, FinalActions, FreshHashes, Packed, ColumnMade, Led, Delivered, Conserved, PoolsAgree;
    var positions, slot, e :| FullRoundBy(p, positions, slot, e, s, s');
    RoundConserves(p, positions, slot, e, s, s');
    RoundKeepsStructure(p, positions, slot, e, s, s');
    EveryColumnIsWellFormed(p, s.cols, |s.cols| - 1);
    RoundShapesColumn(p, positions, slot, e, s);
    var last, next := s.cols[|s.cols| - 1], ColumnMade(p.maxDepth, e.made);
    forall v | 0 <= v < Pow2(p.maxDepth) ensures Covered(p.maxDepth, next, v) {
      RoundCoversNoLess(p, last, next, v);
    }
  }

  /** A full round takes something from every pool that is not empty. */
  lemma FullRoundShrinksPool(p: Params, s: System, s': System)
    requires RoutesExactly(p.maxDepth) && p.txPerBlock > 0 && Tiled(p, s) && FullRound(p, s, s')
    ensures s'.nodes != [] && s'.nodes[0].pool.Keys <= s.nodes[0].pool.Keys
    ensures s.nodes[0].pool != map[] ==> s'.nodes[0].pool.Keys < s.nodes[0].pool.Keys
  {
    hide NodeActions, FinalActions, FreshHashes, Packed, ColumnMade, Led, Structure, Tiles, NoneMissed;
    var positions, slot, e :| FullRoundBy(p, positions, slot, e, s, s');
    RoundResult(p, positions, slot, e, s, s', 0);
    if h :| h in s'.nodes[0].pool {
      var b := FullRoundLeavesOnlyOverflow(p, positions, slot, e, s, s', h);
      MadeFromPool(p, positions, slot, e, s, s', b);
      BodyLeavesPool(e, s, s', b);
    }
  }

  /** The transactions of a block are pooled before its round and not after it. */
  lemma BodyLeavesPool(e: RoundEvents, s: System, s': System, b: Block)
    requires Delivered(e, s, s') && |s.nodes| > 0 && IsMade(e.made, b) && FromPool(s.nodes[0].pool, b) && Body(b) != []
    requires s'.nodes[0].pool == s.nodes[0].pool - HashesOf(e.orders[0])
    ensures Body(b)[0].hash in s.nodes[0].pool && Body(b)[0].hash !in s'.nodes[0].pool
  {
    var t := Body(b)[0];
    assert t in Body(b) && t in b.transactions && b in e.orders[0];
    assert t.hash in HashesOf(e.orders[0]);
  }

  /** Progress: with L = 8 or 1 and room for at least one transaction per block, every pool is empty after at most as
      many full rounds as it held transactions. */
  lemma {:induction false} PoolsRunEmpty(p: Params, states: seq<System>, k: nat)
    requires RoutesExactly(p.maxDepth) && p.txPerBlock > 0 && FullRun(p, states) && k < |states|
    requires Tiled(p, states[0]) && Conserved(states[0])
    ensures Tiled(p, states[k]) && Conserved(states[k])
    ensures |states[0].nodes| > 0 && |states[k].nodes| > 0
    ensures k + |states[k].nodes[0].pool.Keys| <= |states[0].nodes[0].pool.Keys| || states[k].nodes[0].pool == map[]
    ensures k >= |states[0].nodes[0].pool.Keys| ==>
              forall n :: 0 <= n < |states[k].nodes| ==> states[k].nodes[n].pool == map[]
  {
    hide FullRound, Structure, Tiles, Conserved;
    if k > 0 {
      PoolsRunEmpty(p, states, k - 1);
      var s, s' := states[k - 1], states[k];
      assert FullRound(p, states[k - 1], states[k - 1 + 1]);
      FullRoundKeepsTiled(p, s, s');
      FullRoundShrinksPool(p, s, s');
      SubsetSize(s'.nodes[0].pool.Keys, s.nodes[0].pool.Keys);
      EmptyPool(s.nodes[0].pool);
      EmptyPool(s'.nodes[0].pool);
    }
    EmptyPool(states[k].nodes[0].pool);
  }

  lemma EmptyPool(pool: map<string, Tx>)
    ensures pool == map[] <==> |pool.Keys| == 0
  {
    assert pool == map[] <==> pool.Keys == {};
  }
}
