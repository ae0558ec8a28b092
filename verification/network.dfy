/** The elected leaders at work: one pass of every node, with the positions of the running generation, is a round
    of the network (node-implementation/p2p_communication.go). */
module Network {
  import opened Types
  import opened Powers
  import opened Schedule
  import opened Ledger
  import opened Reception
  import opened BlockNode
  import opened Buckets
  import opened Election
  import opened Epoch
  import opened Leadership
  import opened Columns
  import Clock

  /** Slots below `slots` have a leader, and no others. */
  ghost predicate LedUpTo(positions: seq<seq<nat>>, slots: nat) {
    forall x: nat :: x < slots <==> HasLeader(positions, x)
  }

  lemma Counts(p: Params, h: Hashing, positions: seq<seq<nat>>, slot: nat, bucket: seq<string>,
               passes: seq<Pass>, e: RoundEvents, s: System)
    requires AllPassed(p, h, positions, slot, bucket, passes, e, s)
    ensures |e.made| == |positions| == |s.nodes|
  {
  }

  lemma NodeMakes(p: Params, h: Hashing, positions: seq<seq<nat>>, slot: nat, bucket: seq<string>,
                  passes: seq<Pass>, e: RoundEvents, s: System, i: nat, n: nat)
    requires Structure(p, s) && AllPassed(p, h, positions, slot, bucket, passes, e, s)
    requires i < Pow2(p.maxDepth) == |s.cols[|s.cols| - 1]| && n < |s.nodes|
    ensures n < |e.made| && n < |positions|
    ensures i in e.made[n] <==> FinalActions(p, s.cols[|s.cols| - 1])[i].action != Skip && slot + i in positions[n]
  {
    hide FinalActions, NodeActions, MadeInOrder, MadeMap;
    NodesDecideAlike(p, s.nodes[n].chain, s.cols);
    MadeMapKeys(passes[n].rows, passes[n].made);
  }

  /** When every leader makes its pass, a row is filled exactly if it is active and its slot has a leader. */
  lemma RowIsMadeIff(p: Params, h: Hashing, positions: seq<seq<nat>>, slot: nat, bucket: seq<string>,
                     passes: seq<Pass>, e: RoundEvents, s: System, i: nat)
    requires Structure(p, s) && AllPassed(p, h, positions, slot, bucket, passes, e, s)
    requires LedUpTo(positions, |bucket|) && i < Pow2(p.maxDepth) == |s.cols[|s.cols| - 1]|
    ensures ColumnMade(p.maxDepth, e.made)[i].Some? <==>
              FinalActions(p, s.cols[|s.cols| - 1])[i].action != Skip && slot + i < |bucket|
  {
    var last := s.cols[|s.cols| - 1];
    hide FinalActions, AllPassed, Structure;
    Counts(p, h, positions, slot, bucket, passes, e, s);
    forall n | 0 <= n < |s.nodes|
      ensures i in e.made[n] <==> FinalActions(p, last)[i].action != Skip && slot + i in positions[n]
    {
      NodeMakes(p, h, positions, slot, bucket, passes, e, s, i, n);
    }
    BlockAtIsMade(e.made, i, |e.made|);
    assert slot + i < |bucket| <==> HasLeader(positions, slot + i);
  }

  /** No block is missed exactly when the window of the round stays inside the bucket, on the active rows. */
  lemma NothingMissedIff(p: Params, h: Hashing, positions: seq<seq<nat>>, slot: nat, bucket: seq<string>,
                         passes: seq<Pass>, e: RoundEvents, s: System)
    requires Structure(p, s) && AllPassed(p, h, positions, slot, bucket, passes, e, s)
    requires LedUpTo(positions, |bucket|)
    ensures var fin := FinalActions(p, s.cols[|s.cols| - 1]);
      NoneMissed(fin, ColumnMade(p.maxDepth, e.made)) <==>
        forall i :: 0 <= i < |fin| && fin[i].action != Skip ==> slot + i < |bucket|
  {
    var last := s.cols[|s.cols| - 1];
    EveryColumnIsWellFormed(p, s.cols, |s.cols| - 1);
    hide FinalActions, AllPassed, Structure, ColumnMade, LedUpTo;
    forall i | 0 <= i < |last|
      ensures ColumnMade(p.maxDepth, e.made)[i].Some? <==>
                FinalActions(p, last)[i].action != Skip && slot + i < |bucket|
    {
      RowIsMadeIff(p, h, positions, slot, bucket, passes, e, s, i);
    }
  }

  /** From election to ledger: with the positions of an elected running generation, the passes of all nodes are a
      round; it misses no block as long as its window lies inside the bucket; and every node can look up the
      commitment of every block made. */
  lemma ElectedPassesFormRound(c: Setup, own: seq<seq<CommitmentInfo>>, variants: nat, pick: Picks, nodes: seq<Traced>,
                               p: Params, h: Hashing, slot: nat, bucket: seq<string>, passes: seq<Pass>,
                               e: RoundEvents, s: System, s': System)
    requires ValidPicks(pick) && DistinctCommitments(own, variants) && NodesElected(c, own, pick, nodes)
    requires |nodes| > 0 && bucket == nodes[0].state.run.bucket && Structure(p, s)
    requires AllPassed(p, h, RunPositions(Runs(nodes)), slot, bucket, passes, e, s)
    requires FreshHashes(e, s) && Delivered(e, s, s')
    requires s'.cols == s.cols + [ColumnMade(p.maxDepth, e.made)] && s'.given == s.given
    ensures Round(p, RunPositions(Runs(nodes)), slot, e, s, s') && Structure(p, s')
    ensures slot + Pow2(p.maxDepth) <= |bucket| ==>
              NoneMissed(FinalActions(p, s.cols[|s.cols| - 1]), s'.cols[|s.cols|])
    ensures forall b, m :: IsMade(e.made, b) && 0 <= m < |nodes| ==> b.commitmentHash in nodes[m].state.run.shared
  {
    hide NodesElected, AllPassed, Structure, HasLeader, FinalActions, Round, Disjoint, FreshHashes, Delivered, LedUpTo;
    hide ColumnMade, RunPositions, Runs, IsMade, DistinctCommitments;
    var positions := RunPositions(Runs(nodes));
    ElectedLead(c, own, variants, pick, nodes, bucket);
    LastColumn(p, s);
    PassesFormRound(p, h, positions, slot, bucket, passes, e, s, s');
    RoundKeepsStructure(p, positions, slot, e, s, s');
    NothingMissedIff(p, h, positions, slot, bucket, passes, e, s);
    forall b, m | IsMade(e.made, b) && 0 <= m < |nodes| ensures b.commitmentHash in nodes[m].state.run.shared {
      var n, x := CommittedSlot(p, h, positions, slot, bucket, passes, e, s, b);
      LeaderIsRecognised(c, own, variants, pick, nodes, bucket, n, m, x);
    }
  }

  /** Every block of the round is appended by every node, whichever blocks of the round it has appended before:
      the commitment lookup succeeds and matches, the hash is right, and the parents are there. */
  lemma EveryBlockIsAppended(c: Setup, own: seq<seq<CommitmentInfo>>, variants: nat, pick: Picks, nodes: seq<Traced>,
                             p: Params, h: Hashing, slot: nat, bucket: seq<string>, passes: seq<Pass>,
                             e: RoundEvents, s: System, b: Block, m: nat, before: seq<Block>,
                             signatureVerifies: bool)
    requires ValidPicks(pick) && DistinctCommitments(own, variants) && NodesElected(c, own, pick, nodes)
    requires |nodes| > 0 && bucket == nodes[0].state.run.bucket && Structure(p, s)
    requires AllPassed(p, h, RunPositions(Runs(nodes)), slot, bucket, passes, e, s)
    requires IsMade(e.made, b) && m < |nodes| == |s.nodes|
    ensures b.commitmentHash in nodes[m].state.run.shared
    ensures var v := Judge(h, s.nodes[m].chain + before, Incoming(b, true, signatureVerifies),
                           nodes[m].state.run.shared[b.commitmentHash].hash);
      v.Appended? && v.parent.Some? && (b.secondHash != "" ==> v.second.Some?)
  {
    hide NodesElected, AllPassed, Structure, HasLeader, Disjoint, LedUpTo, Authentic, Judge, Present;
    hide RunPositions, Runs, IsMade, DistinctCommitments;
    var positions := RunPositions(Runs(nodes));
    ElectedLead(c, own, variants, pick, nodes, bucket);
    var n, x := CommittedSlot(p, h, positions, slot, bucket, passes, e, s, b);
    LeaderIsRecognised(c, own, variants, pick, nodes, bucket, n, m, x);
    PassesAreLed(p, h, positions, slot, bucket, passes, e, s);
    ParentsArePresent(p, positions, slot, e, s, b, m, before);
    CreatedBlockIsAppended(h, s.nodes[m].chain + before, b, signatureVerifies);
    AppendedParentsIff(h, s.nodes[m].chain + before, Incoming(b, true, signatureVerifies), b.commitmentHash);
  }

  lemma ParentsArePresent(p: Params, positions: seq<seq<nat>>, slot: nat, e: RoundEvents, s: System, b: Block, m: nat,
                          before: seq<Block>)
    requires Structure(p, s) && Led(p, positions, slot, e, s) && IsMade(e.made, b) && m < |s.nodes|
    ensures Present(s.nodes[m].chain + before, b.previousHash)
    ensures b.secondHash != "" ==> Present(s.nodes[m].chain + before, b.secondHash)
  {
    hide FinalActions, Led, NodeActions, IsMade;
    MadeIsShaped(p, positions, slot, e, s, b);
    EveryColumnIsWellFormed(p, s.cols, |s.cols| - 1);
    var last, chain := s.cols[|s.cols| - 1], s.nodes[m].chain + before;
    var a := FinalActions(p, last)[b.row];
    assert Linearizes(s.nodes[m].chain, s.cols);
    NewInterval(p, last, b.row);
    assert a.parent.value in chain;
    if b.secondHash != "" {
      FinalActionFacts(p, last);
      assert RowFacts(p.maxDepth, last, FinalActions(p, last), b.row);
      assert a.second.value in chain;
    }
  }

  lemma ElectedLead(c: Setup, own: seq<seq<CommitmentInfo>>, variants: nat, pick: Picks, nodes: seq<Traced>,
                    bucket: seq<string>)
    requires ValidPicks(pick) && DistinctCommitments(own, variants) && NodesElected(c, own, pick, nodes)
    requires |nodes| > 0 && bucket == nodes[0].state.run.bucket
    ensures Disjoint(RunPositions(Runs(nodes))) && LedUpTo(RunPositions(Runs(nodes)), |bucket|)
    ensures |RunPositions(Runs(nodes))| == |nodes|
  {
    hide NodesElected, HasLeader, Disjoint;
    EveryNodeAgreesOnLeaders(c, own, variants, pick, nodes, bucket);
  }

  lemma LeaderIsRecognised(c: Setup, own: seq<seq<CommitmentInfo>>, variants: nat, pick: Picks, nodes: seq<Traced>,
                           bucket: seq<string>, n: nat, m: nat, x: nat)
    requires ValidPicks(pick) && DistinctCommitments(own, variants) && NodesElected(c, own, pick, nodes)
    requires m < |nodes| && bucket == nodes[0].state.run.bucket
    requires n < |RunPositions(Runs(nodes))| && x in RunPositions(Runs(nodes))[n]
    ensures x < |bucket| && bucket[x] in nodes[m].state.run.shared
    ensures nodes[m].state.run.shared[bucket[x]].hash == bucket[x]
  {
    hide NodesElected, HasLeader, Disjoint;
    EveryNodeAgreesOnLeaders(c, own, variants, pick, nodes, bucket);
    LeadersAreRecognised(c, own, variants, pick, nodes, n, m, x);
  }

  /** The slot whose commitment a block opens, and the node that leads it. */
  lemma CommittedSlot(p: Params, h: Hashing, positions: seq<seq<nat>>, slot: nat, bucket: seq<string>,
                      passes: seq<Pass>, e: RoundEvents, s: System, b: Block)
    returns (n: nat, x: nat)
    requires AllPassed(p, h, positions, slot, bucket, passes, e, s) && IsMade(e.made, b)
    ensures n < |positions| && x in positions[n] && x < |bucket| && b.commitmentHash == bucket[x]
    ensures Authentic(h, b)
  {
    hide NodeActions, PassOutcome, MadeMap, Authentic;
    var m: nat, i :| m < |e.made| && i in e.made[m] && e.made[m][i] == b;
    OpenedSlot(p, h, s.nodes[m], slot, |s.cols|, positions[m], bucket, passes[m], i);
    n, x := m, slot + i;
  }

  lemma OpenedSlot(p: Params, h: Hashing, start: NodeState, slot: nat, column: nat, positions: seq<nat>,
                   bucket: seq<string>, pass: Pass, i: nat)
    requires PassOutcome(p, h, start, slot, column, positions, bucket, pass) && i in MadeMap(pass.rows, pass.made)
    ensures var b := MadeMap(pass.rows, pass.made)[i];
      slot + i in positions && slot + i < |bucket| && b.commitmentHash == bucket[slot + i] && Authentic(h, b)
  {
    hide NodeActions, Shaped, Packs, Authentic;
    MadeMapContents(pass.rows, pass.made);
    var k :| 0 <= k < |pass.rows| && pass.rows[k] == i && pass.made[k] == MadeMap(pass.rows, pass.made)[i];
    assert pass.rows[k] in pass.rows;
    assert MadeInOrder(p.txPerBlock, NodeActions(p, start.chain, column), slot, column, bucket, h, start, pass.order,
                       pass.rows[k], pass.made[k], pass.at[k]);
  }

  // ---------------------------------------------------------------- a whole epoch

  /** Transactions may arrive; chains and columns stay. */
  ghost predicate SameChains(s: System, s': System) {
    && s'.cols == s.cols && |s'.nodes| == |s.nodes|
    && forall n :: 0 <= n < |s.nodes| ==> s'.nodes[n].chain == s.nodes[n].chain
  }

  lemma GiveKeepsChains(s: System, txs: seq<Tx>, s': System)
    requires Give(s, txs, s')
    ensures SameChains(s, s')
  {
  }

  lemma SameChainsSameStructure(p: Params, s: System, s': System)
    requires Structure(p, s) && SameChains(s, s')
    ensures Structure(p, s')
  {
    hide IsRun, ColumnShaped, Linearizes, HashesDistinct;
  }

  /** One round: what the nodes did, from the state in which it began. */
  datatype RoundRecord = RoundRecord(begun: System, events: RoundEvents, passes: seq<Pass>)

  /** Transactions arrive after state s, then every node makes its pass and every block is delivered. */
  ghost predicate PassedRound(p: Params, h: Hashing, positions: seq<seq<nat>>, slot: nat, bucket: seq<string>,
                              s: System, r: RoundRecord, s': System)
  {
    && SameChains(s, r.begun)
    && AllPassed(p, h, positions, slot, bucket, r.passes, r.events, r.begun)
    && FreshHashes(r.events, r.begun) && Delivered(r.events, r.begun, s')
    && s'.cols == r.begun.cols + [ColumnMade(p.maxDepth, r.events.made)] && s'.given == r.begun.given
  }

  /** Up to `rounds` rounds of one epoch, with the windows of the slot clock. */
  ghost predicate PassedEpoch(p: Params, h: Hashing, positions: seq<seq<nat>>, rounds: nat, epoch: nat,
                              bucket: seq<string>, states: seq<System>, rs: seq<RoundRecord>)
    requires rounds > 0
  {
    && |states| == |rs| + 1 && |rs| <= rounds
    && forall i :: 0 <= i < |rs| ==>
         PassedRound(p, h, positions, Clock.SlotAt(Pow2(p.maxDepth), rounds, epoch * rounds + i), bucket,
                     states[i], rs[i], states[i + 1])
  }

  /** The window of every round of an epoch lies in the first L * rounds slots. */
  lemma WindowInEpoch(L: nat, rounds: nat, epoch: nat, i: nat)
    requires L > 0 && i < rounds
    ensures Clock.SlotAt(L, rounds, epoch * rounds + i) == L * i && L * i + L <= L * rounds
  {
    DivModUnique(epoch * rounds + i, rounds, epoch, i);
    ProductMonotone(i + 1, rounds, L);
    assert (i + 1) * L == L * i + L && rounds * L == L * rounds;
  }

  /** The nodes run an election in which every node has `variants` commitments. */
  ghost predicate RunsOn(c: Setup, own: seq<seq<CommitmentInfo>>, variants: nat, pick: Picks, nodes: seq<Traced>,
                         positions: seq<seq<nat>>, bucket: seq<string>)
  {
    && ValidPicks(pick) && DistinctCommitments(own, variants) && NodesElected(c, own, pick, nodes)
    && |nodes| > 0 && bucket == nodes[0].state.run.bucket && positions == RunPositions(Runs(nodes))
  }

  lemma BucketSize(c: Setup, own: seq<seq<CommitmentInfo>>, variants: nat, pick: Picks, nodes: seq<Traced>,
                   positions: seq<seq<nat>>, bucket: seq<string>)
    requires RunsOn(c, own, variants, pick, nodes, positions, bucket)
    ensures |bucket| == variants * |nodes|
  {
    hide NodesElected, HasLeader, Disjoint;
    EveryNodeAgreesOnLeaders(c, own, variants, pick, nodes, bucket);
  }

  /** The DAG is well-formed and its last column tiles. */
  ghost predicate Complete(p: Params, s: System) {
    Structure(p, s) && Tiles(p.maxDepth, s.cols[|s.cols| - 1])
  }

  /** The next column has a block for every active row. */
  ghost predicate AddsFullColumn(p: Params, s: System, s': System) {
    && |s'.cols| == |s.cols| + 1 > 1
    && NoneMissed(FinalActions(p, s.cols[|s.cols| - 1]), s'.cols[|s.cols|])
  }

  lemma PassedRoundIsFull(c: Setup, own: seq<seq<CommitmentInfo>>, variants: nat, pick: Picks, nodes: seq<Traced>,
                          positions: seq<seq<nat>>, p: Params, h: Hashing, slot: nat, bucket: seq<string>,
                          s: System, r: RoundRecord, s': System)
    requires RunsOn(c, own, variants, pick, nodes, positions, bucket) && Complete(p, s)
    requires PassedRound(p, h, positions, slot, bucket, s, r, s') && slot + Pow2(p.maxDepth) <= |bucket|
    ensures Complete(p, s') && AddsFullColumn(p, s, s')
  {
    hide Structure, NodesElected, AllPassed, FinalActions, FreshHashes, Delivered, RunPositions, Runs, ColumnMade;
    hide NoneMissed, Round, DistinctCommitments, SameChains, Tiles;
    BegunLikeS(p, s, r.begun);
    ElectedPassesFormRound(c, own, variants, pick, nodes, p, h, slot, bucket, r.passes, r.events, r.begun, s');
    RunOf(p, s');
    RunKeepsTiling(p, s'.cols, |s.cols| - 1);
  }

  lemma BegunLikeS(p: Params, s: System, begun: System)
    requires Structure(p, s) && SameChains(s, begun)
    ensures Structure(p, begun) && begun.cols == s.cols && |s.cols| > 0
  {
    SameChainsSameStructure(p, s, begun);
  }

  lemma RunOf(p: Params, s: System)
    requires Structure(p, s)
    ensures IsRun(p, s.cols)
  {
  }

  lemma RunKeepsTiling(p: Params, cols: seq<Column>, k: nat)
    requires IsRun(p, cols) && k + 1 < |cols|
    requires NoneMissed(FinalActions(p, cols[k]), cols[k + 1]) && Tiles(p.maxDepth, cols[k])
    ensures Tiles(p.maxDepth, cols[k + 1])
  {
    hide FinalActions, NoneMissed;
    EveryColumnIsWellFormed(p, cols, k);
    var col, next := cols[k], cols[k + 1];
    assert NextColumn(FinalActions(p, col), next);
    forall v | 0 <= v < Pow2(p.maxDepth) ensures Covered(p.maxDepth, next, v) {
      RoundCoversNoLess(p, col, next, v);
    }
  }

  /** From the election through the slot clock to the branches: with a commitment for every slot of an epoch and every
      leader making its pass, no round of the epoch misses a block, and the columns tile throughout. */
  lemma {:induction false} EpochMissesNothing(c: Setup, own: seq<seq<CommitmentInfo>>, variants: nat, pick: Picks,
                                              nodes: seq<Traced>, positions: seq<seq<nat>>, bucket: seq<string>,
                                              p: Params, h: Hashing, rounds: nat, epoch: nat, states: seq<System>,
                                              rs: seq<RoundRecord>, k: nat)
    requires RunsOn(c, own, variants, pick, nodes, positions, bucket)
    requires rounds > 0 && variants * |nodes| >= Pow2(p.maxDepth) * rounds && k < |states|
    requires PassedEpoch(p, h, positions, rounds, epoch, bucket, states, rs) && Complete(p, states[0])
    ensures Complete(p, states[k]) && (k > 0 ==> AddsFullColumn(p, states[k - 1], states[k]))
  {
    hide RunsOn, Complete, AddsFullColumn, PassedRound;
    if k > 0 {
      EpochMissesNothing(c, own, variants, pick, nodes, positions, bucket, p, h, rounds, epoch, states, rs, k - 1);
      BucketSize(c, own, variants, pick, nodes, positions, bucket);
      var slot := RoundOfEpoch(p, h, positions, rounds, epoch, bucket, states, rs, k - 1);
      PassedRoundIsFull(c, own, variants, pick, nodes, positions, p, h, slot, bucket, states[k - 1], rs[k - 1],
                        states[k]);
    }
  }

  /** Slot x lies in the window of round j of the epoch. */
  predicate InWindow(L: nat, rounds: nat, epoch: nat, j: nat, x: nat)
    requires rounds > 0
  {
    var slot := Clock.SlotAt(L, rounds, epoch * rounds + j);
    slot <= x < slot + L
  }

  /** Round i is the only one of the epoch whose window holds slot x. */
  ghost predicate OnlyWindow(L: nat, rounds: nat, epoch: nat, i: nat, x: nat)
    requires rounds > 0
  {
    forall j: nat :: j < rounds ==> (InWindow(L, rounds, epoch, j, x) <==> j == i)
  }

  lemma WindowOfSlot(L: nat, rounds: nat, epoch: nat, i: nat, row: nat, x: nat)
    requires i < rounds && row < L && x == L * i + row
    ensures OnlyWindow(L, rounds, epoch, i, x)
  {
    WindowInEpoch(L, rounds, epoch, i);
    assert x == i * L + row && L * rounds == rounds * L;
    DivModUnique(x, L, i, row);
    forall j: nat | j < rounds ensures InWindow(L, rounds, epoch, j, x) <==> j == i {
      Clock.WindowsTileEpoch(L, rounds, epoch, x, epoch * rounds + j);
    }
  }

  /** Slot x = L * i + row of the epoch is used in round i and in no other: its leader makes a block for that row
      exactly if the row is active. */
  lemma SlotIsServed(c: Setup, own: seq<seq<CommitmentInfo>>, variants: nat, pick: Picks, nodes: seq<Traced>,
                     positions: seq<seq<nat>>, bucket: seq<string>, p: Params, h: Hashing, rounds: nat, epoch: nat,
                     states: seq<System>, rs: seq<RoundRecord>, i: nat, row: nat, x: nat)
    requires RunsOn(c, own, variants, pick, nodes, positions, bucket)
    requires rounds > 0 && variants * |nodes| >= Pow2(p.maxDepth) * rounds
    requires PassedEpoch(p, h, positions, rounds, epoch, bucket, states, rs) && Complete(p, states[0])
    requires i < |rs| && row < Pow2(p.maxDepth) && x == Pow2(p.maxDepth) * i + row
    ensures OnlyWindow(Pow2(p.maxDepth), rounds, epoch, i, x)
    ensures |states[i].cols| > 0 && row < |FinalActions(p, states[i].cols[|states[i].cols| - 1])|
    ensures ColumnMade(p.maxDepth, rs[i].events.made)[row].Some? <==>
              FinalActions(p, states[i].cols[|states[i].cols| - 1])[row].action != Skip
  {
    hide RunsOn, AddsFullColumn, PassedRound, PassedEpoch, OnlyWindow, FinalActions, ColumnMade, Complete, Pow2;
    var slot := RoundOfEpoch(p, h, positions, rounds, epoch, bucket, states, rs, i);
    WindowOfSlot(Pow2(p.maxDepth), rounds, epoch, i, row, x);
    BucketSize(c, own, variants, pick, nodes, positions, bucket);
    EpochMissesNothing(c, own, variants, pick, nodes, positions, bucket, p, h, rounds, epoch, states, rs, i);
    ServedRow(c, own, variants, pick, nodes, positions, bucket, p, h, slot, states[i], rs[i], states[i + 1], row);
  }

  lemma RoundOfEpoch(p: Params, h: Hashing, positions: seq<seq<nat>>, rounds: nat, epoch: nat, bucket: seq<string>,
                     states: seq<System>, rs: seq<RoundRecord>, i: nat) returns (slot: nat)
    requires rounds > 0 && PassedEpoch(p, h, positions, rounds, epoch, bucket, states, rs) && i < |rs|
    ensures |states| == |rs| + 1 && i < rounds && slot + Pow2(p.maxDepth) <= Pow2(p.maxDepth) * rounds
    ensures PassedRound(p, h, positions, slot, bucket, states[i], rs[i], states[i + 1])
  {
    hide PassedRound, Clock.SlotAt;
    WindowInEpoch(Pow2(p.maxDepth), rounds, epoch, i);
    slot := Clock.SlotAt(Pow2(p.maxDepth), rounds, epoch * rounds + i);
  }

  lemma ServedRow(c: Setup, own: seq<seq<CommitmentInfo>>, variants: nat, pick: Picks, nodes: seq<Traced>,
                  positions: seq<seq<nat>>, bucket: seq<string>, p: Params, h: Hashing, slot: nat,
                  s: System, r: RoundRecord, s': System, row: nat)
    requires RunsOn(c, own, variants, pick, nodes, positions, bucket) && Complete(p, s) && row < Pow2(p.maxDepth)
    requires PassedRound(p, h, positions, slot, bucket, s, r, s')
    ensures |s.cols| > 0 && |s.cols[|s.cols| - 1]| == Pow2(p.maxDepth)
    ensures ColumnMade(p.maxDepth, r.events.made)[row].Some? <==>
              FinalActions(p, s.cols[|s.cols| - 1])[row].action != Skip && slot + row < |bucket|
  {
    SameChainsSameStructure(p, s, r.begun);
    LastColumn(p, s);
    hide NodesElected, FinalActions, AllPassed, Structure, LedUpTo, Disjoint, DistinctCommitments, ColumnMade;
    ElectedLead(c, own, variants, pick, nodes, bucket);
    RowIsMadeIff(p, h, positions, slot, bucket, r.passes, r.events, r.begun, row);
  }
}
