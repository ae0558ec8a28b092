/** Why conservation needs L other than 2 and 4: an execution in which two branches take the same transaction. */
module Duplication {
  import opened Types
  import opened Hex
  import opened Powers
  import opened Dag
  import opened Columns
  import opened FixUp
  import opened Schedule
  import opened Routing
  import opened Ledger
  import opened Reception
  import opened Conservation
  import opened BlockNode
  import opened Demo

  function SplitParams(D: nat): Params {
    Params(D, 1, 1, 1)
  }

  /** The transaction whose hash is thirty-two zeros, so that its key is 0. */
  function Pooled(): Tx {
    Tx(seq(32, _ => '0'), 0)
  }

  lemma {:induction false} ZeroBits(k: nat)
    requires k <= 32
    ensures Bits(Pooled().hash, k) == 0
  {
    if k > 0 {
      ZeroBits(k - 1);
    }
  }

  lemma PooledIsCanonical()
    ensures Canonical(Pooled().hash)
  {
    hide Reencoded;
    CanonicalIff(Pooled().hash);
  }

  lemma PooledFacts()
    ensures var tx := Pooled();
      && |tx.hash| >= HASH_HEX_LEN && tx.mask == Bits(tx.hash, HASH_HEX_LEN) && Canonical(tx.hash)
      && forall n: byte :: tx.hash != Hash(n)
  {
    ZeroBits(HASH_HEX_LEN);
    hide Bits, Hash;
    PooledIsCanonical();
    hide Canonical;
    forall n: byte ensures Pooled().hash != Hash(n) {
      assert |Pooled().hash| == 32 && |Hash(n)| == 64;
    }
  }

  lemma GenesisDecides(D: nat)
    requires D >= 1
    ensures WellFormed(D, GenesisColumn(D)) && |GenesisColumn(D)| == Pow2(D)
    ensures DecideOn(SplitParams(D), GenesisColumn(D), 0) == DagAction(Split, Some(Genesis()), None)
  {
    GenesisFacts();
    hide Genesis, Hash, GetSplitSecondIndex;
    GenesisColumnTiles(D, GenesisColumn(D));
  }

  lemma GenesisStaysSplit(D: nat)
    requires D >= 1
    ensures WellFormed(D, GenesisColumn(D)) && |GenesisColumn(D)| == Pow2(D)
    ensures |FinalActions(SplitParams(D), GenesisColumn(D))| == Pow2(D)
    ensures FinalActions(SplitParams(D), GenesisColumn(D))[0] == DagAction(Split, Some(Genesis()), None)
  {
    var p, col := SplitParams(D), GenesisColumn(D);
    GenesisDecides(D);
    hide Genesis, DecideOn, GetSplitSecondIndex, GenesisColumn;
    var acts := DecideAll(p, col);
    DecisionsAreConflictFree(p, col);
    hide WellFormed;
    ApplySplitsResolves(D, acts, |acts|);
    assert Resolved(D, acts, |acts|, 0, FinalActions(p, col)[0]);
    assert acts[0].action == Split && !Closed(acts, |acts|, 0);
  }

  lemma SplitAtTop(p: Params, col: Column, b: Block)
    requires WellFormed(p.maxDepth, col) && |col| > 0 && |FinalActions(p, col)| == |col| && b.depth == 0
    requires FinalActions(p, col)[0] == DagAction(Split, Some(b), None)
    ensures p.maxDepth > 0
    ensures var half := Pow2(p.maxDepth - 1);
      half < |col| && FinalActions(p, col)[half] == DagAction(SplitSnd, Some(b), None)
  {
    FinalActionFacts(p, col);
    hide FinalActions;
    assert RowFacts(p.maxDepth, col, FinalActions(p, col), 0);
    assert RowFacts(p.maxDepth, col, FinalActions(p, col), Pow2(p.maxDepth - 1));
  }

  /** With a split threshold of 1 the genesis branch splits in the first round. */
  lemma GenesisSplits(D: nat)
    requires D >= 1
    ensures var col, half := GenesisColumn(D), Pow2(D - 1); var fin := FinalActions(SplitParams(D), col);
      && WellFormed(D, col) && half < |col| == |fin|
      && fin[0] == DagAction(Split, Some(Genesis()), None)
      && fin[half] == DagAction(SplitSnd, Some(Genesis()), None)
  {
    hide Genesis, GenesisColumn, FinalActions, WellFormed, Hash;
    var p, col := SplitParams(D), GenesisColumn(D);
    GenesisStaysSplit(D);
    GenesisFacts();
    SplitAtTop(p, col, Genesis());
  }

  // ---------------------------------------------------------------- a round of two nodes, one block each

  function Events(a: Block, b: Block, half: nat): RoundEvents {
    RoundEvents([map[0 := a], map[half := b]], [[a, b], [b, a]])
  }

  function After(D: nat, s: System, a: Block, b: Block, half: nat): System
    requires |s.nodes| == 2
  {
    System([AppendAll(s.nodes[0], [a, b]), AppendAll(s.nodes[1], [b, a])],
           s.cols + [ColumnMade(D, Events(a, b, half).made)], s.given)
  }

  lemma MadeAre(a: Block, b: Block, half: nat, c: Block)
    ensures IsMade(Events(a, b, half).made, c) <==> c == a || c == b
  {
    var made := Events(a, b, half).made;
    assert 0 in made[0] && made[0][0] == a;
    assert half in made[1] && made[1][half] == b;
  }

  lemma BothFresh(a: Block, b: Block, half: nat, s: System)
    requires a.hash != b.hash && a.hash != "" && b.hash != "" && |a.transactions| == |b.transactions| == 2
    requires a.transactions[1].hash !in s.given && b.transactions[1].hash !in s.given
    requires forall n, c :: 0 <= n < |s.nodes| && c in s.nodes[n].chain ==> c.hash != a.hash && c.hash != b.hash
    ensures FreshHashes(Events(a, b, half), s)
  {
    forall c ensures IsMade(Events(a, b, half).made, c) <==> c == a || c == b {
      MadeAre(a, b, half, c);
    }
    hide IsMade;
  }

  lemma BothDelivered(D: nat, a: Block, b: Block, half: nat, s: System)
    requires a != b && |s.nodes| == 2
    ensures Delivered(Events(a, b, half), s, After(D, s, a, b, half))
  {
    forall c ensures IsMade(Events(a, b, half).made, c) <==> c == a || c == b {
      MadeAre(a, b, half, c);
    }
    hide IsMade, AppendAll, ColumnMade;
  }

  /** A hash in both blocks is in the chain twice. */
  lemma TwiceInChain(D: nat, a: Block, b: Block, half: nat, s: System, h: string)
    requires |s.nodes| == 2 && h in s.given
    requires h in TxHashes(a.transactions) && h in TxHashes(b.transactions)
    ensures !Conserved(After(D, s, a, b, half))
  {
    var s' := After(D, s, a, b, half);
    AppendAllState(s.nodes[0], [a, b]);
    OccAppend(s.nodes[0].chain, [a, b], h);
    OccTwice(a, b, h);
    hide AppendAll, ColumnMade, Occ;
    assert s'.nodes[0].chain == s.nodes[0].chain + [a, b] && Occ(s'.nodes[0].chain, h) >= 2;
    assert 0 < |s'.nodes| && h in s'.given;
  }

  lemma OccTwice(a: Block, b: Block, h: string)
    requires h in TxHashes(a.transactions) && h in TxHashes(b.transactions)
    ensures Occ([a, b], h) >= 2
  {
    assert [a, b][..1] == [a] && [a][..0] == [];
    OccInZero(a.transactions, h);
    OccInZero(b.transactions, h);
  }

  // ---------------------------------------------------------------- the two halves

  /** Commitments for the slots 0 to 3. */
  function Bucket(): (r: seq<string>)
    ensures |r| == 4
  {
    seq(4, i requires 0 <= i < 4 => Hash(i))
  }

  /** The block of either half: the first node takes row 0, the second one the upper half. */
  function HalfBlock(first: bool, half: nat): Block
    requires half < 4
  {
    var row := if first then 0 else half;
    NextBlock(first, Pooled(), 1, row, Bucket()[row])
  }

  lemma Half(D: nat)
    requires D == 1 || D == 2
    ensures 0 < Pow2(D - 1) < 4 && Pow2(D - 1) < Pow2(D)
  {
  }

  function Pools(D: nat): System {
    Given(D, 2, Pooled())
  }

  function Doubled(D: nat): System
    requires D == 1 || D == 2
  {
    Half(D);
    After(D, Pools(D), HalfBlock(true, Pow2(D - 1)), HalfBlock(false, Pow2(D - 1)), Pow2(D - 1))
  }

  lemma PoolsFacts(D: nat)
    ensures var s := Pools(D);
      && |s.nodes| == 2 && s.given == {Pooled().hash} && |s.cols| == 1
      && forall n :: 0 <= n < 2 ==> s.nodes[n] == NodeState([Genesis()], map[Pooled().hash := Pooled()])
  {
    hide Pooled, Genesis;
  }

  /** Key 0 is routed to row 0 and, with 2 or 4 branches, to the upper half as well. */
  lemma BothBelong(D: nat, row: nat)
    requires D == 1 || D == 2
    requires row == 0 || row == Pow2(D - 1)
    ensures BelongsToIndex(0, 1, row)
  {
    assert row <= 2;
    assert Pow2(13) == 8 * Pow2(10) && Pow2(15) == 32 * Pow2(10);
    DivModUnique(0, Pow2(15), 0, 0);
    DivModUnique(row * Pow2(13), Pow2(15), 0, row * Pow2(13));
  }

  lemma HalfFacts(first: bool, half: nat)
    requires half < 4
    ensures var b, row := HalfBlock(first, half), if first then 0 else half;
      && b.transactions == [Pooled(), Reward(first)] && b.hash == Hash(if first then 26 else 27)
      && b.previousHash == Genesis().hash && b.secondHash == ""
      && b.depth == 1 && b.row == row && b.col == 1 && b.commitmentHash == Bucket()[row]
      && AllDecode(b.transactions) && Authentic(TheHashing(), b)
  {
    var row := if first then 0 else half;
    PooledFacts();
    hide Canonical, Decodes, Pooled, NextBlock, Bucket;
    assert Decodes(Pooled().hash) by {
      CanonicalDecodes(Pooled().hash);
    }
    NextFacts(first, Pooled(), 1, row, Bucket()[row]);
    NextIsAuthentic(first, Pooled(), 1, row, Bucket()[row]);
  }

  lemma CanonicalDecodes(s: string)
    requires Canonical(s)
    ensures Decodes(s)
  {
  }

  lemma HalfPacks(D: nat, first: bool)
    requires D == 1 || D == 2
    ensures Pow2(D - 1) < 4 && Packs(1, map[Pooled().hash := Pooled()], HalfBlock(first, Pow2(D - 1)))
  {
    hide HalfBlock, Reward, Canonical, Authentic, BelongsToIndex, AllDecode, Bucket, Genesis, Packs, Hash;
    assert Pooled().mask == 0;
    hide Pooled;
    hide TheHashing;
    Half(D);
    HalfFacts(first, Pow2(D - 1));
    BothBelong(D, if first then 0 else Pow2(D - 1));
    RewardIs(first);
    hide Pow2;
    PackOne(HalfBlock(first, Pow2(D - 1)), Pooled(), Reward(first));
  }

  lemma HalfIsShaped(D: nat, first: bool)
    requires D == 1 || D == 2
    ensures Pow2(D - 1) < 4
    ensures var half := Pow2(D - 1); var row := if first then 0 else half;
      row < Pow2(D) && Shaped(NodeActions(SplitParams(D), [Genesis()], 1)[row], row, 1, HalfBlock(first, half))
  {
    hide NodeActions, FinalActions, GenesisColumn, WellFormed, IsRun, Linearizes, HalfBlock, Genesis, Hash;
    hide AllDecode, Authentic, Reward, Pooled, Bucket, TheHashing;
    Half(D);
    HalfFacts(first, Pow2(D - 1));
    GenesisFacts();
    GenesisSplits(D);
    FreshRun(SplitParams(D));
    hide Pow2;
    var row := if first then 0 else Pow2(D - 1);
    ShapedAs(NodeActions(SplitParams(D), [Genesis()], 1)[row], Genesis(), row, HalfBlock(first, Pow2(D - 1)));
  }

  lemma ShapedAs(a: DagAction, g: Block, row: nat, b: Block)
    requires (a.action == Split || a.action == SplitSnd) && a.parent == Some(g) && a.second == None && g.depth == 0
    requires b.row == row && b.col == 1 && b.depth == 1 && b.previousHash == g.hash && b.secondHash == ""
    ensures Shaped(a, row, 1, b)
  {
  }

  /** Both blocks are what the creation loop makes of the pool at the start of the round. */
  lemma HalfIsCreated(D: nat, first: bool)
    requires D == 1 || D == 2
    ensures Pow2(D - 1) < 4
    ensures var half := Pow2(D - 1); var row := if first then 0 else half;
      && row < Pow2(D) && NodeActions(SplitParams(D), [Genesis()], 1)[row].action != Skip
      && Created(1, NodeActions(SplitParams(D), [Genesis()], 1), row, 0, 1, Bucket(), TheHashing(),
                 map[Pooled().hash := Pooled()], HalfBlock(first, half))
  {
    HalfIsShaped(D, first);
    HalfPacks(D, first);
    HalfFacts(first, Pow2(D - 1));
    hide NodeActions, Packs, HalfBlock, Genesis, Pooled, Hash, Pow2, Authentic, AllDecode, Reward, Bucket, TheHashing;
  }

  lemma BothPass(D: nat)
    requires D == 1 || D == 2
    ensures Pow2(D - 1) < 4
    ensures var half := Pow2(D - 1); var a, b := HalfBlock(true, half), HalfBlock(false, half);
      AllPassed(SplitParams(D), TheHashing(), [[0], [half]], 0, Bucket(),
                [Pass([0], [a], [a], [0]), Pass([half], [b], [b], [0])], Events(a, b, half), Pools(D))
  {
    hide HalfBlock, Pools, Pooled, Genesis, Bucket, Created, NodeActions, TheHashing, AllPassed, Events, Hash;
    Half(D);
    PoolsFacts(D);
    HalfIsCreated(D, true);
    HalfIsCreated(D, false);
    TwoPasses(SplitParams(D), TheHashing(), Pow2(D - 1), Bucket(), HalfBlock(true, Pow2(D - 1)),
              HalfBlock(false, Pow2(D - 1)), Pools(D));
  }

  lemma TwoPasses(p: Params, h: Hashing, half: nat, bucket: seq<string>, a: Block, b: Block, s: System)
    requires |s.nodes| == 2 && half < Pow2(p.maxDepth) && s.nodes[1].chain == s.nodes[0].chain
    requires NodeActions(p, s.nodes[0].chain, |s.cols|)[0].action != Skip
    requires NodeActions(p, s.nodes[0].chain, |s.cols|)[half].action != Skip
    requires Created(p.txPerBlock, NodeActions(p, s.nodes[0].chain, |s.cols|), 0, 0, |s.cols|, bucket, h,
                     s.nodes[0].pool, a)
    requires Created(p.txPerBlock, NodeActions(p, s.nodes[0].chain, |s.cols|), half, 0, |s.cols|, bucket, h,
                     s.nodes[1].pool, b)
    ensures AllPassed(p, h, [[0], [half]], 0, bucket, [Pass([0], [a], [a], [0]), Pass([half], [b], [b], [0])],
                      Events(a, b, half), s)
  {
    hide NodeActions, Created, PassOutcome, MadeMap;
    OneBlockPass(p, h, s.nodes[0], |s.cols|, 0, bucket, a);
    OneBlockPass(p, h, s.nodes[1], |s.cols|, half, bucket, b);
  }

  /** The hashes of the two blocks, of genesis, and of rewards and transaction all differ. */
  lemma AllDiffer(half: nat)
    requires half < 4
    ensures var a, b, g := HalfBlock(true, half), HalfBlock(false, half), Genesis();
      && a.hash != b.hash && a.hash != g.hash && b.hash != g.hash && a.hash != "" && b.hash != ""
      && |a.transactions| == |b.transactions| == 2
      && a.transactions[1].hash != Pooled().hash && b.transactions[1].hash != Pooled().hash
  {
    hide HalfBlock, Reward, Genesis, Pooled, Canonical, Authentic, AllDecode, Bucket, TheHashing, Hash, Bits;
    HalfFacts(true, half);
    HalfFacts(false, half);
    GenesisFacts();
    RewardIs(true);
    RewardIs(false);
    PooledFacts();
    HashesDiffer(26, 27);
    HashesDiffer(26, 10);
    HashesDiffer(27, 10);
    assert |Hash(26)| == 64 && |Hash(27)| == 64;
  }

  /** The passes of two nodes, each hashing its block as the code does, make a round. */
  lemma DoubledRound(D: nat)
    requires D == 1 || D == 2
    ensures Pow2(D - 1) < 4
    ensures var half := Pow2(D - 1);
      Round(SplitParams(D), [[0], [half]], 0, Events(HalfBlock(true, half), HalfBlock(false, half), half), Pools(D),
            Doubled(D))
  {
    hide HalfBlock, Pools, Genesis, Pooled, TheHashing, Bucket, AllPassed, Reward;
    Half(D);
    BothPass(D);
    PoolsFacts(D);
    AllDiffer(Pow2(D - 1));
    var half := Pow2(D - 1);
    TwoPassesRound(SplitParams(D), TheHashing(), half, Bucket(), HalfBlock(true, half), HalfBlock(false, half),
                   Pools(D));
    hide After, Events, Round;
  }

  lemma PairDisjoint(half: nat)
    requires half > 0
    ensures Disjoint([[0], [half]])
  {
  }

  lemma TwoPassesRound(p: Params, h: Hashing, half: nat, bucket: seq<string>, a: Block, b: Block, s: System)
    requires |s.nodes| == 2 && half > 0
    requires AllPassed(p, h, [[0], [half]], 0, bucket, [Pass([0], [a], [a], [0]), Pass([half], [b], [b], [0])],
                       Events(a, b, half), s)
    requires a.hash != b.hash && a.hash != "" && b.hash != "" && |a.transactions| == |b.transactions| == 2
    requires a.transactions[1].hash !in s.given && b.transactions[1].hash !in s.given
    requires forall n, c :: 0 <= n < |s.nodes| && c in s.nodes[n].chain ==> c.hash != a.hash && c.hash != b.hash
    ensures Round(p, [[0], [half]], 0, Events(a, b, half), s, After(p.maxDepth, s, a, b, half))
  {
    hide FreshHashes, Delivered, AppendAll, ColumnMade, AllPassed, Events, Disjoint;
    BothFresh(a, b, half, s);
    BothDelivered(p.maxDepth, a, b, half, s);
    PairDisjoint(half);
    PassesFormRound(p, h, [[0], [half]], 0, bucket, [Pass([0], [a], [a], [0]), Pass([half], [b], [b], [0])],
                    Events(a, b, half), s, After(p.maxDepth, s, a, b, half));
  }

  /** After that round the given transaction sits in two blocks of the chain. */
  lemma DoubledIsNotConserved(D: nat)
    requires D == 1 || D == 2
    ensures !Conserved(Doubled(D))
  {
    hide HalfBlock, Pools, Genesis, Pooled, TheHashing, Bucket, Conserved, Reward, Authentic, AllDecode, Hash;
    Half(D);
    var half := Pow2(D - 1);
    PoolsFacts(D);
    HalfFacts(true, half);
    HalfFacts(false, half);
    var a, b := HalfBlock(true, half), HalfBlock(false, half);
    assert a.transactions[0] == Pooled() && b.transactions[0] == Pooled();
    TwiceInChain(D, a, b, half, Pools(D), Pooled().hash);
  }

  /** Conservation over every execution that gives lower-case hashes holds exactly when L is neither 2 nor 4. */
  lemma ConservationIff(D: nat)
    ensures (forall p: Params, states: seq<System>, k: nat ::
               p.maxDepth == D && IsExecution(p, states) && k < |states| && LowerCase(states[k].given) ==>
                 Conserved(states[k]))
       <==> NeverRoutesTwice(D)
  {
    hide IsExecution, Conserved, Doubled, Pools, Fresh, LowerCase;
    if NeverRoutesTwice(D) {
      forall p: Params, states: seq<System>, k: nat
        | p.maxDepth == D && IsExecution(p, states) && k < |states| && LowerCase(states[k].given)
        ensures Conserved(states[k])
      {
        EveryStateConserves(p, states, k);
      }
    } else {
      DoublingExecution(D);
      DoubledIsNotConserved(D);
      DoubledIsLowerCase(D);
      var states := [Fresh(D, 2), Pools(D), Doubled(D)];
      assert IsExecution(SplitParams(D), states) && !Conserved(states[2]) && LowerCase(states[2].given);
    }
  }

  lemma DoubledIsLowerCase(D: nat)
    requires D == 1 || D == 2
    ensures LowerCase(Doubled(D).given)
  {
    PooledFacts();
    PoolsFacts(D);
    hide Canonical, Decodes, Pooled, Pools, AppendAll, ColumnMade, HalfBlock;
  }

  lemma DoublingExecution(D: nat)
    requires D == 1 || D == 2
    ensures IsExecution(SplitParams(D), [Fresh(D, 2), Pools(D), Doubled(D)])
  {
    hide Give, Round, Init, Fresh, Given, Doubled, Canonical, Bits, Hash;
    FreshIsInit(SplitParams(D), 2);
    PooledFacts();
    hide Pooled, HalfBlock, Events;
    FreshGives(D, 2, Pooled());
    DoubledRound(D);
    assert Step(SplitParams(D), Fresh(D, 2), Pools(D));
    assert Step(SplitParams(D), Pools(D), Doubled(D));
  }
}
