/** Why conservation needs lower-case hashes: an execution in which a packed transaction stays in the pool. */
module Casing {
  import opened Types
  import opened Hex
  import opened Powers
  import opened Dag
  import opened Columns
  import opened FixUp
  import opened Schedule
  import opened Routing
  import opened Ledger
  import opened Reception
  import opened Conservation
  import opened BlockNode
  import opened Demo

  /** Thresholds that leave the genesis branch alone. */
  function CalmParams(D: nat): Params {
    Params(D, 2, 1, 1)
  }

  function TxOf(h: string): Tx
    requires |h| >= HASH_HEX_LEN
  {
    Tx(h, Bits(h, HASH_HEX_LEN))
  }

  /** A hash that a node takes and decodes, but that re-encoding changes. */
  predicate MixedCase(h: string) {
    |h| >= HASH_HEX_LEN && Decodes(h) && !Canonical(h)
  }

  /** These are the long enough hexadecimal strings with an upper-case digit, such as thirty-two times 'A'. */
  lemma MixedCaseIff(h: string)
    ensures MixedCase(h) <==>
              |h| >= HASH_HEX_LEN && Decodes(h) && exists i :: 0 <= i < |h| && IsUpper(h[i])
    ensures MixedCase(seq(32, _ => 'A'))
  {
    var upper := seq(32, _ => 'A');
    assert Decodes(upper) && IsUpper(upper[0]);
    hide Canonical, Decodes, IsUpper;
    if Decodes(h) {
      CanonicalIff(h);
    }
    CanonicalIff(upper);
  }

  /** With a split threshold above its size, the genesis branch continues. */
  lemma GenesisContinues(D: nat)
    ensures var col := GenesisColumn(D); var fin := FinalActions(CalmParams(D), col);
      && WellFormed(D, col) && 0 < |fin| == |col| && fin[0] == DagAction(Continue, Some(Genesis()), None)
  {
    var p, col := CalmParams(D), GenesisColumn(D);
    GenesisFacts();
    hide Genesis, Hash;
    GenesisColumnTiles(D, col);
    DecisionExact(p, col, 0);
    var acts := DecideAll(p, col);
    assert acts[0] == DagAction(Continue, Some(Genesis()), None);
    hide DecideOn, GetSplitSecondIndex, GetMergeSecondIndex, Splits, Merges;
    DecisionsAreConflictFree(p, col);
    ApplySplitsResolves(D, acts, |acts|);
    assert Resolved(D, acts, |acts|, 0, FinalActions(p, col)[0]);
    hide DecideAll;
  }

  // ---------------------------------------------------------------- a round of one node, one block

  function Events(b: Block): RoundEvents {
    RoundEvents([map[0 := b]], [[b]])
  }

  function After(D: nat, s: System, b: Block): System
    requires |s.nodes| == 1
  {
    System([AppendAll(s.nodes[0], [b])], s.cols + [ColumnMade(D, Events(b).made)], s.given)
  }

  lemma MadeIs(b: Block, c: Block)
    ensures IsMade(Events(b).made, c) <==> c == b
  {
    assert 0 in Events(b).made[0] && Events(b).made[0][0] == b;
  }

  lemma OneFresh(b: Block, s: System)
    requires |b.transactions| == 2 && b.hash != "" && b.transactions[1].hash !in s.given
    requires forall n, c :: 0 <= n < |s.nodes| && c in s.nodes[n].chain ==> c.hash != b.hash
    ensures FreshHashes(Events(b), s)
  {
    forall c ensures IsMade(Events(b).made, c) <==> c == b {
      MadeIs(b, c);
    }
    hide IsMade;
  }

  lemma OneDelivered(D: nat, b: Block, s: System)
    requires |s.nodes| == 1
    ensures Delivered(Events(b), s, After(D, s, b))
  {
    forall c ensures IsMade(Events(b).made, c) <==> c == b {
      MadeIs(b, c);
    }
    hide IsMade, AppendAll, ColumnMade;
  }

  lemma OnePassed(p: Params, h: Hashing, bucket: seq<string>, b: Block, s: System)
    requires |s.nodes| == 1 && NodeActions(p, s.nodes[0].chain, |s.cols|)[0].action != Skip
    requires Created(p.txPerBlock, NodeActions(p, s.nodes[0].chain, |s.cols|), 0, 0, |s.cols|, bucket, h,
                     s.nodes[0].pool, b)
    ensures AllPassed(p, h, [[0]], 0, bucket, [Pass([0], [b], [b], [0])], Events(b), s)
  {
    hide NodeActions, Created, PassOutcome, MadeMap;
    OneBlockPass(p, h, s.nodes[0], |s.cols|, 0, bucket, b);
  }

  lemma OnePassRound(p: Params, h: Hashing, bucket: seq<string>, b: Block, s: System)
    requires |s.nodes| == 1 && |b.transactions| == 2 && b.hash != "" && b.transactions[1].hash !in s.given
    requires forall n, c :: 0 <= n < |s.nodes| && c in s.nodes[n].chain ==> c.hash != b.hash
    requires NodeActions(p, s.nodes[0].chain, |s.cols|)[0].action != Skip
    requires Created(p.txPerBlock, NodeActions(p, s.nodes[0].chain, |s.cols|), 0, 0, |s.cols|, bucket, h,
                     s.nodes[0].pool, b)
    ensures Round(p, [[0]], 0, Events(b), s, After(p.maxDepth, s, b))
  {
    hide NodeActions, Created, AllPassed, FreshHashes, Delivered, AppendAll, ColumnMade;
    OnePassed(p, h, bucket, b, s);
    OneFresh(b, s);
    OneDelivered(p.maxDepth, b, s);
    PassesFormRound(p, h, [[0]], 0, bucket, [Pass([0], [b], [b], [0])], Events(b), s, After(p.maxDepth, s, b));
  }

  lemma NotRemoved(b: Block, tx: Tx, reward: Tx)
    requires b.transactions == [tx, reward] && MixedCase(tx.hash) && Canonical(reward.hash)
    ensures tx.hash !in RemovedBy([b])
  {
    hide Reencoded, Decodes;
    forall t | t in b.transactions ensures Reencoded(t.hash) != tx.hash {
      assert t == tx || t == reward;
    }
  }

  lemma OccursOnce(b: Block, tx: Tx)
    requires tx in b.transactions
    ensures Occ([b], tx.hash) >= 1
  {
    assert [b][..0] == [];
    OccInZero(b.transactions, tx.hash);
  }

  /** The packed transaction is in the chain, and deletion misses it in the pool. */
  lemma StaysPooled(D: nat, s: System, b: Block, tx: Tx, reward: Tx)
    requires |s.nodes| == 1 && tx.hash in s.given && tx.hash in s.nodes[0].pool
    requires b.transactions == [tx, reward] && MixedCase(tx.hash) && Canonical(reward.hash)
    ensures !Conserved(After(D, s, b))
  {
    var s' := After(D, s, b);
    NotRemoved(b, tx, reward);
    OccursOnce(b, tx);
    hide AppendAll, ColumnMade, Occ, RemovedBy, MixedCase, Canonical;
    AppendAllState(s.nodes[0], [b]);
    OccAppend(s.nodes[0].chain, [b], tx.hash);
    assert tx.hash in s'.nodes[0].pool && Occ(s'.nodes[0].chain, tx.hash) >= 1;
    assert 0 < |s'.nodes| && tx.hash in s'.given;
  }

  // ---------------------------------------------------------------- the execution

  /** The block that takes the transaction, for the only slot of the bucket. */
  function KeptBlock(h: string): Block
    requires |h| >= HASH_HEX_LEN
  {
    NextBlock(true, TxOf(h), 0, 0, Hash(0))
  }

  function Pools(D: nat, h: string): System
    requires |h| >= HASH_HEX_LEN
  {
    Given(D, 1, TxOf(h))
  }

  function Kept(D: nat, h: string): System
    requires |h| >= HASH_HEX_LEN
  {
    After(D, Pools(D, h), KeptBlock(h))
  }

  lemma PoolsFacts(D: nat, h: string)
    requires |h| >= HASH_HEX_LEN
    ensures var s := Pools(D, h);
      && |s.nodes| == 1 && s.given == {h} && |s.cols| == 1
      && s.nodes[0] == NodeState([Genesis()], map[h := TxOf(h)])
  {
  }

  lemma BlockFacts(h: string)
    requires MixedCase(h)
    ensures var b := KeptBlock(h);
      && b.transactions == [TxOf(h), Reward(true)] && b.hash == Hash(26) && b.previousHash == Genesis().hash
      && b.secondHash == "" && b.depth == 0 && b.row == 0 && b.col == 1 && b.commitmentHash == Hash(0)
      && AllDecode(b.transactions) && Authentic(TheHashing(), b)
  {
    hide Canonical, Decodes, NextBlock, Hash;
    NextFacts(true, TxOf(h), 0, 0, Hash(0));
    NextIsAuthentic(true, TxOf(h), 0, 0, Hash(0));
  }

  lemma BlockIsCreated(D: nat, h: string)
    requires MixedCase(h)
    ensures NodeActions(CalmParams(D), [Genesis()], 1)[0].action != Skip
    ensures Created(1, NodeActions(CalmParams(D), [Genesis()], 1), 0, 0, 1, [Hash(0)], TheHashing(),
                    map[h := TxOf(h)], KeptBlock(h))
  {
    hide NodeActions, FinalActions, GenesisColumn, WellFormed, IsRun, Linearizes, KeptBlock, Genesis, Hash;
    hide AllDecode, Authentic, Reward, TheHashing, Canonical, Decodes, Bits, Packs;
    BlockFacts(h);
    GenesisFacts();
    GenesisContinues(D);
    FreshRun(CalmParams(D));
    RewardIs(true);
    assert TxOf(h).hash == h;
    PackOne(KeptBlock(h), TxOf(h), Reward(true));
    ShapedOn(NodeActions(CalmParams(D), [Genesis()], 1)[0], Genesis(), KeptBlock(h));
  }

  lemma ShapedOn(a: DagAction, g: Block, b: Block)
    requires a == DagAction(Continue, Some(g), None) && g.depth == 0
    requires b.row == 0 && b.col == 1 && b.depth == 0 && b.previousHash == g.hash && b.secondHash == ""
    ensures Shaped(a, 0, 1, b)
  {
  }

  lemma KeptFacts(h: string)
    requires MixedCase(h)
    ensures var b := KeptBlock(h);
      && |b.transactions| == 2 && b.hash != "" && b.transactions[1].hash != h && Genesis().hash != b.hash
  {
    hide KeptBlock, Genesis, TxOf, TheHashing, Reward, AllDecode, Authentic;
    BlockFacts(h);
    GenesisFacts();
    RewardIs(true);
    HashesDiffer(26, 10);
    assert |Hash(26)| == 64;
    hide Hash, Reencoded;
  }

  lemma KeptRound(D: nat, h: string)
    requires MixedCase(h)
    ensures Round(CalmParams(D), [[0]], 0, Events(KeptBlock(h)), Pools(D, h), Kept(D, h))
  {
    hide KeptBlock, Pools, Genesis, TxOf, TheHashing, NodeActions, Created, Round, After, Hash, Canonical, Decodes;
    KeptFacts(h);
    PoolsFacts(D, h);
    BlockIsCreated(D, h);
    OnePassRound(CalmParams(D), TheHashing(), [Hash(0)], KeptBlock(h), Pools(D, h));
  }

  lemma KeepingExecution(D: nat, h: string)
    requires MixedCase(h)
    ensures IsExecution(CalmParams(D), [Fresh(D, 1), Pools(D, h), Kept(D, h)])
  {
    hide Give, Round, Init, Fresh, Given, Bits, Hash, Kept, Canonical, Decodes;
    FreshIsInit(CalmParams(D), 1);
    NotTheGenesisHash(h);
    FreshGives(D, 1, TxOf(h));
    KeptRound(D, h);
    hide TxOf;
    assert Step(CalmParams(D), Fresh(D, 1), Pools(D, h));
    assert Step(CalmParams(D), Pools(D, h), Kept(D, h));
    hide Step, Pools;
  }

  lemma NotTheGenesisHash(h: string)
    requires MixedCase(h)
    ensures h != Hash(12)
  {
    HashesDiffer(12, 12);
  }

  lemma KeptIsNotConserved(D: nat, h: string)
    requires MixedCase(h)
    ensures !Conserved(Kept(D, h))
  {
    hide Hash, Conserved, After, KeptBlock, Reward, AllDecode, Authentic, Canonical, Decodes, Pools, Bits;
    PoolsFacts(D, h);
    BlockFacts(h);
    RewardIs(true);
    StaysPooled(D, Pools(D, h), KeptBlock(h), TxOf(h), Reward(true));
  }

  lemma GivenKept(D: nat, h: string)
    requires |h| >= HASH_HEX_LEN
    ensures Kept(D, h).given == {h}
  {
    PoolsFacts(D, h);
    hide Pools;
  }

  /** All hashes given so far are of the set. */
  ghost predicate GivesFrom(hashes: iset<string>, s: System) {
    forall h :: h in s.given ==> h in hashes
  }

  /** Where L is neither 2 nor 4: all executions that give hashes from a set conserve exactly when every hash of the
      set that a node can take and decode is in lower case. */
  lemma ConservationFromIff(D: nat, hashes: iset<string>)
    requires NeverRoutesTwice(D)
    ensures (forall p: Params, states: seq<System>, k: nat ::
               p.maxDepth == D && IsExecution(p, states) && k < |states| && GivesFrom(hashes, states[k]) ==>
                 Conserved(states[k]))
       <==> (forall h :: h in hashes ==> !MixedCase(h))
  {
    hide IsExecution, Conserved, Kept, Pools, Fresh, Decodes, Canonical;
    if h :| h in hashes && MixedCase(h) {
      KeepingExecution(D, h);
      KeptIsNotConserved(D, h);
      GivenKept(D, h);
      var states := [Fresh(D, 1), Pools(D, h), Kept(D, h)];
      assert IsExecution(CalmParams(D), states) && !Conserved(states[2]);
      assert GivesFrom(hashes, states[2]);
    } else {
      forall p: Params, states: seq<System>, k: nat
        | p.maxDepth == D && IsExecution(p, states) && k < |states| && GivesFrom(hashes, states[k])
        ensures Conserved(states[k])
      {
        assert LowerCase(states[k].given);
        EveryStateConserves(p, states, k);
      }
    }
  }
}
