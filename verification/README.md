# Verified model of a proof-of-stake DAG blockchain node

The repository implements a proof-of-stake blockchain whose blocks form a DAG of parallel branches, with leaders
elected in secret from anonymous commitments. This project models its five connected protocols in Dafny and proves
what they keep over whole runs.

- **Branches.** With L = 2^D parallel rows, a block at row r and depth d owns the rows [r, r + 2^(D-d)). Every round
  each row decides to split, merge, continue or skip, a loop that overwrites the slice it ranges over resolves the
  decisions, and the blocks created form the next column (`dag.dfy`, `columns.dfy`, `fixup.dfy`, `schedule.dfy`,
  `clock.dfy`). The element at an index is read when the loop reaches it, as Go's `range` over a slice does.
- **Transactions.** Pooled transactions are routed to branches by hash bits, packed up to a cap and removed from the
  pools of all nodes (`routing.dfy`, `ledger.dfy`, `conservation.dfy`, `ancestry.dfy`); received blocks are judged in
  `reception.dfy`, with hexadecimal strings in `hex.dfy`, and `node.dfy` has the methods of the node itself.
  `duplication.dfy` and `casing.dfy` give the executions that break conservation, from the hash function and genesis
  block of `demo.dfy`.
- **Leader election.** Commitments are collected in any order, sorted, shuffled with a shared seed, and pass through
  the development, ready and running generations (`buckets.dfy`, `election.dfy`, `epoch.dfy`, `leadership.dfy`).
  `consensus.dfy` says what completing a bucket check means: when more than half of the nodes hold one bucket, and why
  two nodes that complete agree. `network.dfy` joins the elected leaders to the rounds that build the DAG.
- **Gossip.** Flooding with first-occurrence filtering and send suppression, with messages in flight (`gossip.dfy`).
- **Merkle paths and bootstrap.** The exchange of public keys at one node (`publickeys.dfy`) and across the network
  (`keyexchange.dfy`), the tree over them with the path loop of the circuit (`merkle.dfy`), the handshake of one server
  with N clients over FIFO channels (`bootstrap.dfy`), and the agreement on the time of the first block
  (`timesync.dfy`).

`powers.dfy`, `sets.dfy`, `types.dfy` and `utils.dfy` hold the arithmetic, the shared types and the numeric helpers.
Objects that the program updates in place are classes (`Node`, `CommitmentNode`, `SlotClock`, `Peer`, `KeyRing`,
`TimeKeeper`, `Server`, `Client`); their methods are proved against functions and predicates on values, and the lemmas
about runs are about those.

## Assumptions

- Rounds are synchronous: every block of a column reaches every node before the next round starts. A leader may
  produce or miss its block, and each node appends the blocks of a round in an order of its own; a node may read
  blocks of the round before it begins its own pass and between the blocks that it makes.
- The genesis block sits at column 0, row 0, depth 0. Block hashes do not collide and a reward transaction never has
  the hash of a given one. Commitment hashes are distinct across nodes and variants, and every node submits
  `MAX_COMMITMENT_VAR` of them, because `MIN_COMMITMENT_VAR` is 1 (`init.py:247`).
- `rng.Shuffle` is the Fisher-Yates loop whose choices depend only on the seed and the length. Hash functions are
  uninterpreted; the clock and the outcomes of signature checks and of zero-knowledge proofs are parameters.
- Each handler is one atomic step, except that the handler which completes the bucket check of round 1 sleeps between
  its two promotions while others run. The thresholds for splitting and merging are arbitrary integers.

## What does not hold for every configuration

The setup dialogue (`init.py:191-204`) offers L from 1 to 64 and 1 to 1000 rounds per epoch. The code is kept as it
is, and each limit is proved as an equivalence.

- Routing shifts by the constant 13, so every transaction belongs to exactly one branch of every tiling column only
  for L = 8 and L = 1 (`Routing.RoutingIsExactIff`).
- With L = 2 or L = 4 two branches can take the same transaction; `Duplication.ConservationIff` gives the execution,
  in which two makers hash their blocks as the code does, and proves conservation for every other length.
- Deletion uses the hash decoded and encoded again, so a transaction whose hash has upper-case digits stays pooled
  after it was packed (`Ledger.LeavesPoolIff`). Where L is neither 2 nor 4, executions that give hashes from a set
  conserve exactly when every hash of the set that a node can take is in lower case (`Casing.ConservationFromIff`), as
  the data processor writes them (`data-processor/src/commands/command.service.ts:142`).
- The merge ladder recognises no interval longer than 16 rows above row 0; this matters only above L = 64
  (`Dag.MergeSecondIndexRefinesBuddy`).
- With fewer than three rounds per epoch the next commitments are never generated (`Clock.GenerationOncePerEpochIff`).
- A block whose message signature fails, or whose parents are unknown, is logged and still appended
  (`blockchain.go:164-177` and `191-204`). `Reception.UnsoundBlockIsAppended` makes such a block from any well-formed
  contents, for every chain. `Reception.InboxSoundIff` says when a node that reads messages one after the other appends
  only signed blocks with known parents: exactly when everything that matches commitment and hash is sent signed and
  after its parents. Blocks that elected leaders make in synchronous rounds always find their parents
  (`Network.EveryBlockIsAppended`).
- Nodes that shuffled complete buckets with different seeds, as rounds 0 and 1 allow
  (`p2p_communication.go:426` and `477`), agree exactly when the seeds lead to the same choices
  (`Leadership.ElectedAgreeIff`).
- The time of the first block is agreed on only if a strict majority of the nodes proposed it (`TimeSync.AgreementIff`);
  two nodes that disagree swap their times (`TimeSync.TwoNodesSwap`).
- Whatever the keys, a node commanded twice to distribute its own can make others complete the key exchange twice and
  write out of bounds; one command per node never does (`KeyExchange.PanicFreeIff`).
- After 2^32 completed checks the 32-bit round counter reads 0, and the ready generation is overwritten instead of
  promoted (`Epoch.PromotionKeepsPipelineIff`).
- `splitIntoPowersOfTwo` never returns for bounds of 2^62 or more (`Utils.HangsIff`).

## Model

| member | source | states |
|---|---|---|
| Dag.SplitSecondIndexIsUpperHalf | node-implementation/dag.go:41-59 | for every depth in range: the start of the upper half of the interval, and for depth 0 the index itself |
| Dag.MergeSecondIndexExact | node-implementation/dag.go:61-103 | for every L = 2^D: the modulus ladder returns the right buddy, except that above row 0 it returns -1 for every interval longer than 16 rows |
| Dag.MergeSecondIndexRefinesBuddy | node-implementation/dag.go:61-103 | the ladder equals the buddy-allocator specification on all rows and depths if and only if L <= 64 |
| Dag.ScanBackExact | node-implementation/dag.go:109-122 | on any chain, the backward scan finds a block iff some match is visible, that is, not followed by a block of an older column, and what it finds is in the chain at that column and row |
| Dag.ScanBackSearchesWholeChain | node-implementation/dag.go:148-160 | when columns never decrease along the chain, giving up early loses nothing: the scan agrees with a search of the whole chain |
| Dag.DecideIgnoresNewer | node-implementation/dag.go:105-180 | a decision for a column is the same before and after blocks of that column have arrived |
| Dag.CalculateTxHashMasks | node-implementation/dag.go:9-25 | the masks written in place are the hash characters read as bits, and nothing else of a transaction changes |
| Dag.BitsPrefix | node-implementation/dag.go:16-22 | a routing key shifted right is the key of a hash prefix: a branch at depth d looks at the first d hash characters only |
| Dag.BitAt | node-implementation/dag.go:16-22 | bit i of the key, from the top, is 1 exactly when hash character i is not below '8' |
| Dag.DoesTxBelongToIndex | node-implementation/dag.go:27-39 | the early-exit comparison loop decides equality of the leading bits of key and shifted index, with depth 0 belonging to row 0 |
| FixUp.DecisionExact | node-implementation/dag.go:105-180 | on every well-formed column, for any thresholds: a row is skipped iff it has no block, splits iff its block is full enough and not at maximal depth, and otherwise merges iff its right buddy, within the reach of the ladder, holds a block of its depth and the two are small enough |
| FixUp.FixUpActions | node-implementation/p2p_communication.go:857-866 | the loop over the array it overwrites leaves "all merges applied, then the remaining splits" |
| FixUp.LoopIsMergesThenSplits | node-implementation/p2p_communication.go:857-866 | the sequential read-as-you-go loop and the two-phase specification give the same actions whenever decisions are free of conflicts |
| FixUp.LoopResolves | node-implementation/p2p_communication.go:857-866 | after any number of iterations each row is closed if a visited merge names it, opened if a surviving visited split does, and untouched otherwise; a split that a merge closed is skipped before it is visited |
| FixUp.DecisionsAreConflictFree | node-implementation/p2p_communication.go:852-866 | on every well-formed column, for any thresholds: a merge closes a later row that is neither MERGE nor SPLIT_SND, a split opens a later row that was SKIP, and no two splits open the same row |
| FixUp.MergeTarget | node-implementation/dag.go:142-171 | a merge closes exactly the block one interval to the right, of the same depth, and that row does not merge itself |
| FixUp.SplitTarget | node-implementation/p2p_communication.go:861-865 | a split opens the upper half of its own interval, inside the column, where no block sits |
| Schedule.FinalActionFacts | node-implementation/p2p_communication.go:852-879 | what the final action of every row says about the column: partners of splits and merges, their depths, their alignment, and that only merged rows are skipped |
| Schedule.NewInterval | node-implementation/p2p_communication.go:911-924 | the depth rule: every new block has depth in range, an aligned row and an interval inside the column; splits halve, merges double, the rest keep the interval of the parent |
| Schedule.NewIntervalsDisjoint | node-implementation/p2p_communication.go:857-946 | the intervals of any two rows active in a round are disjoint |
| Schedule.RoundKeepsWellFormed | node-implementation/p2p_communication.go:845-946 | whichever leaders miss their block, the next column has depths in range, aligned rows and disjoint intervals |
| Schedule.EveryColumnIsWellFormed | node-implementation/p2p_communication.go:830-946 | the same for every column of every run from genesis; and as long as no leader missed, the intervals tile [0, L) and their Kraft sum is L |
| Schedule.NewBlockWithinParents | node-implementation/p2p_communication.go:936-946 | a new block owns only rows that its parents owned |
| Schedule.RoundCoversNoMore | node-implementation/p2p_communication.go:845-946 | a row that no branch owns is never owned again |
| Schedule.RoundCoversNoLess | node-implementation/p2p_communication.go:845-946 | when no leader misses, every row owned before the round is owned after it |
| Schedule.RoundKeepsKraftSum | node-implementation/p2p_communication.go:911-924 | the sum of 2^(D-Depth) never grows, and is conserved by every round without missed blocks, even after earlier losses |
| Schedule.ActiveRowsCount | node-implementation/p2p_communication.go:868-879 | the expected number of new blocks is the block count of the previous column plus surviving splits minus merges |
| Columns.KraftCountsCoveredRows | node-implementation/p2p_communication.go:911-924 | the Kraft sum of a well-formed column is the number of rows it covers |
| Columns.TilingKraft | node-implementation/p2p_communication.go:911-924 | the Kraft sum of a tiling column is L |
| Routing.ShiftedRoutingIsMembership | node-implementation/dag.go:27-39 | for any D, with the shift 16 - D, agreement of the leading d bits is membership of the key's row in [r, r + 2^(D-d)) |
| Routing.BelongsIsOwnership | node-implementation/dag.go:27-39 | for L = 8 and L = 1, `doesTxBelongToIndex` holds iff the branch owns the row of the key |
| Routing.TilingRoutesToOne | node-implementation/dag.go:27-39 | for L = 8 and L = 1, every key belongs to exactly one active branch of a tiling column |
| Routing.RoutingIsExactIff | node-implementation/dag.go:32 | that holds for all tiling columns and keys if and only if L is 8 or 1 |
| Routing.RoutedAtMostOnce | node-implementation/dag.go:27-39 | unless L is 2 or 4, no key belongs to two active branches of a column |
| Routing.RoutedTwiceNeverIff | node-implementation/dag.go:32 | keys are never routed twice if and only if L is neither 2 nor 4 |
| Clock.NextSlot | node-implementation/p2p_communication.go:980-1005 | the slot reached by adding L is the first slot of the next window, or the epoch size exactly at the end of an epoch |
| Clock.TestsExact | node-implementation/p2p_communication.go:983-998 | the generation test fires exactly in round 2 of an epoch of at least three rounds, the epoch test exactly at multiples of the epoch length |
| Clock.GenerationOncePerEpochIff | node-implementation/p2p_communication.go:983-996 | commitments for the next epoch are generated exactly once per epoch if and only if an epoch has at least three rounds |
| Clock.WindowsTileEpoch | node-implementation/p2p_communication.go:845-854 | every slot of an epoch falls into exactly one round, at the row that the modulus recovers |
| Clock.SlotClock.EpochIndexes | node-implementation/p2p_communication.go:845-849 | the window of a round starts at its slot, and each index modulo L is its position in the window |
| Clock.SlotClock.NextRound | node-implementation/p2p_communication.go:980-1026 | slot = L * (absRound mod EPOCH_SIZE_ROUNDS) is kept by every round, and the two epoch actions fire exactly when they are due |
| BlockNode.Node.ProcessGenesisBlock | node-implementation/blockchain.go:30-73 | the hash of every transaction is that of its sender, recipient, amount and time, the root that of the decoded transaction hashes in order, the block hash that of number, root, author and time; the block enters at row, column and depth 0 without parents, the pool is untouched |
| BlockNode.Node.GatherTransactionPack | node-implementation/p2p_communication.go:1180-1203 | every transaction enters the pool under its hash with the mask computed from that hash, later ones replacing earlier ones |
| BlockNode.Node.FindBlock | node-implementation/dag.go:111-122 | the loop is the backward scan |
| BlockNode.Node.DecideAction | node-implementation/dag.go:105-180 | the imperative decision equals the specified one, for every chain, row and column |
| BlockNode.Node.PlanRound | node-implementation/p2p_communication.go:851-866 | a node computes from its chain exactly the final actions of the last column of the DAG, also after blocks of the round under way have arrived |
| BlockNode.Node.FilterRows | node-implementation/p2p_communication.go:868-879 | exactly the active rows whose slot the node leads, in ascending order, and the number of active rows |
| BlockNode.Node.IncludedTransactions | node-implementation/p2p_communication.go:926-932 | exactly the pooled transactions of the branch, each once, in whatever order the map is enumerated |
| BlockNode.Node.CreateBlock | node-implementation/blockchain.go:223-352 | the process ends iff a hash within the cap does not decode; otherwise contents are the first transactions up to the cap plus a reward of 0 from forty zeros to the maker, parent hashes are those of the action, root and hash are those of the decoded transaction hashes, number, author and time, and chain and pool change by that block only |
| BlockNode.Node.ResolveParent | node-implementation/blockchain.go:186-190 | the search that never stops ends with the oldest block of that hash |
| BlockNode.Node.ProcessBlock | node-implementation/blockchain.go:75-221 | the verdict is the specified one, whatever the signature check says; an appended block has the hash of its own number, author, time and decoded transaction hashes, it extends the chain and its transactions leave the pool, its parent is found iff the chain has it; otherwise nothing changes |
| BlockNode.Node.ReceiveBlock | node-implementation/p2p_communication.go:669-681 | a block is appended iff its commitment is known under its own hash, its fields decode and its hash is right; what it does then is processing the block |
| BlockNode.Node.ReceiveBlocks | node-implementation/p2p_communication.go:669-681 | a sequence of messages leaves the specified chain, in which each one is judged on what the earlier ones left, and ends early iff some expected block does not decode |
| BlockNode.Node.CreateBlocks | node-implementation/p2p_communication.go:907-978 | one block per assigned row, each packed from the pool that all earlier blocks left, received ones in between included; the loop completes if all hashes decode |
| BlockNode.Node.GenerationPass | node-implementation/p2p_communication.go:845-978 | a pass that begins before or after blocks of its round have arrived, and is interrupted by any others, leaves exactly the blocks of the led active rows and appends them in order among the received ones, if all hashes decode; it reports the previous block count plus splits minus merges |
| BlockNode.PassesFormRound | node-implementation/p2p_communication.go:845-978 | such passes of all nodes, each interleaved with arrivals in its own order, are together a round of the network executions that the ledger lemmas speak about |
| Hex.CanonicalIff | node-implementation/blockchain.go:97 | a decodable string survives decoding and encoding iff it has no upper-case digit |
| Hex.DecodeEncode | node-implementation/blockchain.go:36 | decoding undoes encoding, and encoded strings are canonical |
| Hex.DecodeAt | node-implementation/blockchain.go:97 | byte i has the values of digits 2 i and 2 i + 1, the upper half first |
| Reception.FirstWithHashIff | node-implementation/blockchain.go:186-190 | the parent search finds a block iff the chain has one of that hash, and returns the oldest such block |
| Reception.AuthenticIff | node-implementation/blockchain.go:95-104 | the hash of a block is right iff it is that of number, author, time and the root over the decoded transaction hashes in their order |
| Reception.HashBinds | node-implementation/blockchain.go:180-183 | binding: without hash collisions, blocks that any two nodes append under one hash have one number, author and time and the same decoded transaction hashes in the same order |
| Reception.AppendedParentsIff | node-implementation/blockchain.go:185-205 | the parent links of an appended block are set iff blocks of those hashes are in the chain |
| Reception.PresentIffKnown | node-implementation/blockchain.go:207-211 | after any messages the chain has a block of some hash iff it had one before or an earlier message that passes the tests brought it |
| Reception.VerdictIff | node-implementation/blockchain.go:106-205 | a message of the sequence is appended iff commitment, fields and hash pass; then it is signed and its links are set iff it was sent signed and after its parents |
| Reception.UnsoundBlockIsAppended | node-implementation/blockchain.go:162-205 | for every chain and any contents that decode, a block of these contents with a failing signature and an unknown parent is appended |
| Reception.InboxSoundIff | node-implementation/blockchain.go:106-211 | over any sequence of messages, each judged on the chain that the earlier ones left, all appended blocks are signed and have their parents iff every message that passes commitment, fields and hash is signed and comes after its parents |
| Reception.CreatedBlockIsAppended | node-implementation/blockchain.go:180-211 | round trip: a block hashed as its maker does is appended by every node that expects its commitment, with its parent iff the chain has it |
| Ledger.AppendAllState | node-implementation/blockchain.go:207-218 | appending blocks in order extends the chain by them and removes the union of their re-encoded hashes, so the pool does not depend on the order |
| Ledger.LeavesPoolIff | node-implementation/blockchain.go:213-218 | a pooled transaction leaves the pool with its block iff its hash has no upper-case digit |
| Ledger.PutAllKeepsLast | node-implementation/p2p_communication.go:1196-1200 | the pool holds the last added transaction under each hash, and what it had under all others |
| Ledger.NodesDecideAlike | node-implementation/p2p_communication.go:851-866 | nodes whose chains hold the same columns in different orders compute the same final actions |
| Ledger.ColumnHoldsAllMade | node-implementation/p2p_communication.go:907-947 | no two leaders make a block for the same row: the column holds every block made, each at its row |
| Ledger.RoundKeepsStructure | node-implementation/blockchain.go:207-211 | after a round every chain still holds exactly the blocks of the DAG with columns never decreasing and hashes distinct |
| Ledger.EveryStateHasStructure | node-implementation/blockchain.go:207-211 | the same in every state of every execution |
| Conservation.GiveConserves | node-implementation/p2p_communication.go:1196-1200 | handing fresh transactions to all nodes keeps all pools equal and every given transaction pooled or in one block |
| Conservation.MadeBlocksShareNothing | node-implementation/p2p_communication.go:926-932 | unless L is 2 or 4, two blocks of one round never share a given transaction |
| Conservation.RoundConserves | node-implementation/blockchain.go:223-293 | unless L is 2 or 4, a round keeps pools equal and each given transaction pooled everywhere or exactly once in every chain |
| Conservation.EveryStateConserves | node-implementation/p2p_communication.go:926-947 | unless L is 2 or 4, the same in every state of every execution that gave lower-case hashes only, whoever misses blocks |
| Conservation.RoundIncludes | node-implementation/blockchain.go:226-229 | a pooled transaction whose branch got a block is in that block, unless the block is full |
| Conservation.FullRoundLeavesOnlyOverflow | node-implementation/blockchain.go:226-229 | for L = 8 and L = 1, after a round without missed blocks on a tiling column, whatever stays pooled belonged to a branch whose block is full |
| Conservation.FullRoundShrinksPool | node-implementation/blockchain.go:226-229 | for L = 8 and L = 1 and a positive cap, a round without missed blocks takes something from every non-empty pool and adds nothing |
| Conservation.PoolsRunEmpty | node-implementation/blockchain.go:226-229 | progress over runs: without new transactions and missed blocks every pool is empty after at most as many rounds as it held transactions, and tiling and conservation are kept |
| Duplication.ConservationIff | node-implementation/dag.go:32 | conservation over all executions that give lower-case hashes holds if and only if L is neither 2 nor 4 |
| Duplication.DoublingExecution | node-implementation/dag.go:32 | for L = 2 and L = 4, a concrete execution with thresholds and cap 1 in which both halves of a split take the transaction with key 0 |
| Duplication.HalfFacts | node-implementation/blockchain.go:300-327 | each of the two blocks holds the transaction and a reward of its own maker, opens the commitment of its slot, and carries the hash of its contents under one hash function |
| Duplication.BothPass | node-implementation/p2p_communication.go:845-978 | they are what the generation passes of the two nodes make |
| Casing.ConservationFromIff | node-implementation/blockchain.go:213-218 | for every L other than 2 and 4 and any set of hashes: all executions that give hashes from the set conserve iff each of them that a node can take and decode is in lower case |
| Casing.MixedCaseIff | node-implementation/blockchain.go:97 | a hash is taken and decodes but changes when encoded again iff it has at least 16 digits, an even number, of which one is upper-case; there are such hashes |
| Casing.KeepingExecution | node-implementation/blockchain.go:213-218 | for every L and every mixed-case hash, an execution in which the only leader packs the transaction |
| Casing.KeptIsNotConserved | node-implementation/blockchain.go:213-218 | at its end the transaction is in the chain and still in the pool |
| Ancestry.ParentsAreOneColumnBack | node-implementation/blockchain.go:185-205 | parents resolved by hash are the blocks of the final action and lie exactly one column back, at every node |
| Ancestry.BlockWithinParents | node-implementation/p2p_communication.go:936-946 | the interval of a block lies within the union of the intervals of its resolved parents |
| Ancestry.FirstParentsReachGenesis | node-implementation/blockchain.go:185-190 | following first parents from column c reaches genesis in exactly c steps and not earlier |
| Buckets.SortStrings | node-implementation/p2p_communication.go:1218-1220 | the result is lexicographically sorted and a rearrangement of the input |
| Buckets.LexLeIff | node-implementation/p2p_communication.go:1218-1220 | the order is the lexicographic one: a prefix first, otherwise the first difference decides |
| Buckets.SortedIsUnique | node-implementation/p2p_communication.go:1266-1267 | a multiset of hashes has one sorted order: sorting erases the order of arrival |
| Buckets.RngShuffle | node-implementation/p2p_communication.go:1269-1272 | the in-place swaps from the top down are the specified shuffle |
| Buckets.ShuffleForgetsOrder | node-implementation/p2p_communication.go:1222-1273 | buckets with equal contents shuffled with one seed are identical, and shuffling again changes nothing |
| Buckets.SameShuffleIff | node-implementation/p2p_communication.go:1260-1272 | two seeds shuffle a list of distinct hashes alike iff they lead to the same choice at every index |
| Buckets.RearrangedKeepsElements | node-implementation/p2p_communication.go:1266-1272 | rearranging keeps membership and freedom from duplicates |
| Election.ReceiveKeepsBucket | node-implementation/p2p_communication.go:283-298 | a received commitment enters bucket and map once, known ones change nothing, bucket and map keep the same hashes and every entry its own |
| Election.ReceiveAllCollects | node-implementation/p2p_communication.go:283-298 | after any list of received commitments, with any repetitions, the bucket holds each hash exactly once |
| Election.ReceiversAgree | node-implementation/p2p_communication.go:283-298 | nodes that receive the same commitments in any orders hold one bucket once it is complete, before any shuffle |
| Election.PositionsAscend | node-implementation/p2p_communication.go:1275-1289 | positions are exactly the bucket indices of own commitments, ascending |
| Election.PositionsCount | node-implementation/p2p_communication.go:1275-1289 | a node finds as many positions as it has commitments in the bucket |
| Election.BucketsAgree | node-implementation/p2p_communication.go:1222-1273 | full buckets filled in any two orders and shuffled with one seed are identical, complete and of length variants times nodes |
| Election.EverySlotHasOneLeader | node-implementation/p2p_communication.go:1275-1299 | position lists are pairwise disjoint, cover exactly the slots of the bucket and have equal lengths |
| Election.FindInfoExact | node-implementation/p2p_communication.go:1382-1391 | the lookup succeeds iff the hash is one of the node's own commitments, and then returns the first such commitment |
| Election.InSyncLookupsSucceed | node-implementation/p2p_communication.go:934 | with positions computed on the bucket, every window index that passes the filter is in bounds and its lookup succeeds |
| Election.JoinIsInjective | node-implementation/p2p_communication.go:1293-1298 | lists of 64-digit hashes can be told apart after they are joined without a separator |
| Election.SameDigestIff | node-implementation/p2p_communication.go:1293-1298 | without digest collisions, two identified generations have equal digests iff they have the same bucket in the same order |
| Epoch.CommitmentNode.ReceiveCommitment | node-implementation/p2p_communication.go:275-298 | the handler is the specified transition of the development generation and changes nothing else |
| Epoch.CommitmentNode.SubmitCommitment | node-implementation/p2p_communication.go:358-385 | an own commitment enters the submitted list, the map and the bucket; completing the bucket shuffles it and recomputes positions |
| Epoch.CommitmentNode.RandomBucketShuffle | node-implementation/p2p_communication.go:1222-1273 | sort, then shuffle; with the shuffle key an incomplete bucket is left alone |
| Epoch.CommitmentNode.IdentifyCommitmentPositions | node-implementation/p2p_communication.go:1275-1299 | positions and digest are those of the current bucket |
| Epoch.CommitmentNode.PassToReady | node-implementation/p2p_communication.go:1301-1332 | development variables replace the ready ones, the ready map is added to, the 32-bit round advances, development is reset |
| Epoch.CommitmentNode.PassToRunning | node-implementation/p2p_communication.go:1334-1355 | ready variables replace the running ones, the running map only grows, ready is reset |
| Epoch.CommitmentNode.HandleBucketCheck | node-implementation/p2p_communication.go:461-607 | mismatch in the current round reshuffles and announces the bucket again, a wrong length is dropped, the last expected hash promotes by round number (in round 1 only to running, then the handler sleeps); the process dies iff this last hash is recorded and under half of all recorded ones match |
| Epoch.CommitmentNode.ResumeRoundOne | node-implementation/p2p_communication.go:547-550 | after the sleep of round 1, whatever arrived meanwhile, the development generation becomes the ready one |
| Epoch.CommitmentNode.GetCommitmentInfoByHash | node-implementation/p2p_communication.go:1382-1391 | the loop is the specified lookup in the running generation |
| Epoch.MapsOnlyGrow | node-implementation/p2p_communication.go:1301-1355 | promotions copy maps key by key: nothing leaves the ready or running map, and the passed generation wins |
| Epoch.AdvanceKeepsPipeline | node-implementation/p2p_communication.go:527-593 | completing a check shifts the generations and keeps the pipeline relation, in round 1 up to the sleep |
| Epoch.ResumeKeepsPipeline | node-implementation/p2p_communication.go:543-550 | waking up after the sleep of round 1 completes the shift |
| Epoch.PromotionKeepsPipelineIff | node-implementation/p2p_communication.go:527-593 | in every state of the pipeline, completing a check and all its promotions keeps the relation iff fewer than 2^32 checks came before |
| Epoch.EveryStateInPipeline | node-implementation/p2p_communication.go:1301-1355 | after k completed checks (up to 2^32) the rounds are k, k-1 and k-2, ready and running are the snapshots of those checks, the ready map has exactly its bucket's keys, the running map every running-bucket hash; also while the handler of round 1 sleeps, when no further check can complete; otherwise fewer checks than expected are recorded |
| Epoch.CheckPromotesIff | node-implementation/p2p_communication.go:489-525 | the consensus rule: a check passes the generation on iff it has the length of the own bucket and no mismatch, is the last one expected, and at least half of all recorded hashes are the own digest |
| Epoch.CheckDiesIff | node-implementation/p2p_communication.go:489-525 | the process dies iff the same holds with fewer than half |
| Epoch.OtherCheckEffect | node-implementation/p2p_communication.go:461-492 | any other check is recorded iff it counts, reshuffles with the key iff it mismatches in the current round, and changes nothing else |
| Epoch.PromotionStartsAfresh | node-implementation/p2p_communication.go:1301-1332 | passing a generation on to ready leaves no recorded check, an empty development generation and the next round number |
| Epoch.MatchingChecksComplete | node-implementation/p2p_communication.go:489-593 | progress: from no recorded check, as many matching checks as there are other nodes pass the generation on, with the last of them and none before |
| Epoch.MatchingCheckSurvives | node-implementation/p2p_communication.go:489-525 | and no matching check on the way ends the process |
| Leadership.AnyOrderElects | node-implementation/p2p_communication.go:1222-1299 | nodes that collect the same commitments in any orders, own ones included, and shuffle with one seed hold one bucket; their position lists are disjoint, cover [0, variants * N) and have `variants` entries each |
| Leadership.ArrivalsCollect | node-implementation/p2p_communication.go:275-385 | any interleaving of received and own commitments leaves a bucket with each hash once, a matching map, and the own commitments in submission order |
| Leadership.ArrivalsKeepContents | node-implementation/p2p_communication.go:275-385 | the map keeps, under each hash, the commitment that arrived first |
| Leadership.ReshuffleElects | node-implementation/p2p_communication.go:1007-1012 | reshuffling a complete bucket yields the order of the seed, positions in step with it, and loses nothing |
| Leadership.SettledIsStable | node-implementation/p2p_communication.go:283-289 | once complete and shuffled, a generation keeps bucket contents and positions in step under every further message until its check completes |
| Leadership.ElectedAgreeIff | node-implementation/p2p_communication.go:419-484 | two complete shuffled generations have one bucket iff the seeds that shuffled them last lead to the same choices |
| Leadership.CheckedIsElected | node-implementation/p2p_communication.go:1007-1012 | over traces: a bucket that ends complete with a shuffle, be it by the schedule, the initialisation, the completing own commitment or a mismatching check, followed only by messages that keep its order until its check completes, is an elected snapshot of the generator of that shuffle |
| Leadership.RanElectionRuns | node-implementation/p2p_communication.go:527-593 | over traces, for either generator: one further completed check later that generation is running, with its bucket, positions and lookups |
| Leadership.RunsElectNodes | node-implementation/p2p_communication.go:1222-1355 | nodes with such traces, all of one generator, satisfy the hypothesis of the network-wide election results |
| Leadership.LeaderLookupNeverFails | node-implementation/p2p_communication.go:871-879 | in the running generation every led index is in bounds, its own commitment is found, and its hash is in the running map |
| Leadership.EveryNodeAgreesOnLeaders | node-implementation/p2p_communication.go:1334-1355 | nodes two completed checks later run one bucket in which every slot has exactly one leader |
| Leadership.LeadersAreRecognised | node-implementation/p2p_communication.go:673-678 | a leader finds the secret for each of its slots, and every other node has the commitment of that slot under its own hash |
| Consensus.ChecksAreRecorded | node-implementation/p2p_communication.go:487-492 | over traces: what is recorded is the list of checks that counted since the round began |
| Consensus.RoundCompletesIff | node-implementation/p2p_communication.go:487-525 | over traces: a generation is passed on iff as many checks as there are other nodes have counted since the round began and at least half of them carry the own digest |
| Consensus.CompletesIffMajority | node-implementation/p2p_communication.go:489-525 | with one check from every other node, a node passes its generation on iff more than half of all nodes hold its bucket in its order |
| Consensus.TwoCompletionsAgree | node-implementation/p2p_communication.go:461-593 | agreement: any two nodes that complete such a round hold the same bucket in the same order, whatever seeds they shuffled with |
| Consensus.CompletionsElect | node-implementation/p2p_communication.go:461-593 | when all nodes complete on all commitments, every slot has exactly one leader |
| Consensus.ReactionIff | node-implementation/p2p_communication.go:468-545 | a check is answered by an announcement iff it mismatches in the current round, and announces digest, round and length after the reshuffle; commitments of round 1 start iff the check of round 0 completes; the handler sleeps iff the check of round 1 completes |
| Consensus.SecondTryRepairs | node-implementation/p2p_communication.go:468-485 | a node with all commitments that reads such an announcement in the same round counts it or ends with the announced bucket |
| Consensus.IncompleteBucketGrows | node-implementation/p2p_communication.go:1237-1239 | until it is complete, a bucket that the initialisation did not shuffle keeps the order of arrival |
| Network.ElectedPassesFormRound | node-implementation/p2p_communication.go:845-978 | with the positions of an elected running generation, the passes of all nodes form a round that keeps the structure of the DAG; it misses no block while its window lies inside the bucket; every node can look up the commitment of every block made |
| Network.EveryBlockIsAppended | node-implementation/p2p_communication.go:669-681 | every block of such a round is appended by every node, whichever blocks of the round it has already appended: its commitment is found and matches, its hash is right and its parents are there |
| Network.NothingMissedIff | node-implementation/p2p_communication.go:868-879 | when every leader makes its pass, no active row stays empty if and only if the slots of all active rows lie inside the bucket |
| Network.EpochMissesNothing | node-implementation/p2p_communication.go:845-1005 | when all leaders pass and the commitments cover the slots of the epoch, no round of it misses a block: its columns tile [0, L) throughout, after each of its rounds |
| Network.SlotIsServed | node-implementation/p2p_communication.go:845-1005 | then slot L * i + row belongs to the window of round i and of no other, and its leader fills that row iff it is active |
| Network.RowIsMadeIff | node-implementation/p2p_communication.go:868-947 | then a row gets a block exactly if it is active and its slot has a leader |
| Network.CommittedSlot | node-implementation/p2p_communication.go:934-939 | every block opens the commitment of a slot that its maker leads, and carries the hash of its contents |
| Gossip.Peer.IsMessageFirstOccurrence | node-implementation/p2p_communication.go:1078-1087 | the loop decides absence from the history |
| Gossip.Peer.MessageAlreadyReceived | node-implementation/p2p_communication.go:1089-1100 | the loop decides whether the peer delivered the message |
| Gossip.Peer.ReadData | node-implementation/p2p_communication.go:167-194 | the sender is recorded, a first occurrence is remembered, processed once and forwarded to all neighbours, a repetition changes nothing else |
| Gossip.Peer.SendMessageBroadcast | node-implementation/p2p_communication.go:226-235 | the originator remembers its message and starts one send per neighbour |
| Gossip.Peer.GossipMessage | node-implementation/p2p_communication.go:1054-1058 | the send is suppressed exactly when that peer already delivered the message |
| Gossip.StepInv | node-implementation/p2p_communication.go:169-194 | every step keeps: hops once and on edges, knowledge is genuine, processing once, a message known at one end of an edge is known at the other or on its way |
| Gossip.RunTaskSpreads | node-implementation/p2p_communication.go:1054-1058 | a suppressed send is not missed, because the peer that delivered the message knows it |
| Gossip.EveryStateInv | node-implementation/p2p_communication.go:167-194 | the invariant holds in every state of every execution with any number of broadcasts |
| Gossip.FloodIsFrugal | node-implementation/p2p_communication.go:176-194 | a message crosses each directed edge at most once and no peer processes a message twice |
| Gossip.KnownIsProcessedOnce | node-implementation/p2p_communication.go:176-191 | in every state of every execution a peer has processed each message that it knows exactly once, unless it broadcast it itself |
| Gossip.QuietMeansEverybodyKnows | node-implementation/p2p_communication.go:176-194 | when nothing is under way on a connected graph, every peer has every message ever broadcast |
| Gossip.QuietMeansEverybodyProcessed | node-implementation/p2p_communication.go:176-191 | when nothing is under way on a connected graph, every peer but the sender has processed each broadcast message exactly once |
| Gossip.FloodStepShrinks | node-implementation/p2p_communication.go:1045-1076 | every step of a flood lowers a measure of missing knowledge, pending sends and messages in flight |
| Gossip.FloodTerminates | node-implementation/p2p_communication.go:1045-1076 | no flood takes more steps than that measure |
| Gossip.FloodProgresses | node-implementation/p2p_communication.go:187-189 | while anything is pending some step is possible |
| PublicKeys.KeyRing.ReceiveKey | node-implementation/p2p_communication.go:718-814 | the first key triggers the broadcast of the own one unless the command did; a new key is added once; the last missing one sorts the list, builds the tree over the keys padded with "0" and leaves the path of the own key; a second completion runs past the leaf hashes |
| PublicKeys.KeyRing.RequestDistribution | node-implementation/p2p_communication.go:1172-1178 | the command is obeyed iff no other key is known, and marks the initial message as sent |
| PublicKeys.FirstIndex | node-implementation/p2p_communication.go:799-805 | the loop ends at an index of the node's own key |
| PublicKeys.LearnAllCollects | node-implementation/p2p_communication.go:728-750 | after any sequence of received keys the list holds each key once, and is sorted when complete |
| PublicKeys.EverybodyHasTheSameKeys | node-implementation/p2p_communication.go:745-758 | nodes that hear from everybody, in any order and with repetitions, end with one list of keys |
| PublicKeys.PathsMeetAtOneRoot | node-implementation/p2p_communication.go:797-814 | the path of every node leads from the hash of its own key to the root that every other node builds |
| KeyExchange.DeliverInv | node-implementation/p2p_communication.go:718-743 | every delivery brings news, completes nothing twice, and a key is known or under way iff it was broadcast, never both |
| KeyExchange.EveryStateInv | node-implementation/p2p_communication.go:718-758 | the invariant holds in every state of every execution in which no node is commanded twice |
| KeyExchange.NobodyPanics | node-implementation/p2p_communication.go:740-760 | in all of these each key is broadcast at most once and no node completes twice |
| KeyExchange.QuietMeansComplete | node-implementation/p2p_communication.go:740-758 | when nothing is under way and some key was broadcast, every node holds the same complete sorted list |
| KeyExchange.DeliveryTeaches | node-implementation/p2p_communication.go:728-750 | every delivery keeps the invariant and makes exactly one more key known somewhere, so an exchange runs out |
| KeyExchange.LeftoverPanics | node-implementation/p2p_communication.go:740-771 | from any state of the invariant with the first key broadcast, and one more broadcast of it under way, the exchange can run out and the copy left over makes a complete node complete again |
| KeyExchange.PanicFreeIff | node-implementation/p2p_communication.go:718-771 | for any two or more distinct keys and any limit on commands per node, no execution panics iff the limit is at most 1 |
| Merkle.BuildLevel | node-implementation/p2p_communication.go:779-794 | one level is the pairwise hashes of the level below |
| Merkle.BuildLevels | node-implementation/p2p_communication.go:773-797 | the loop builds the levels of the specified tree, for any depth, and the last one holds the root |
| Merkle.CollectPath | node-implementation/p2p_communication.go:807-814 | siblings and index bits form the path of the leaf, always in bounds |
| Merkle.FoldPath | node-implementation/zkp.go:462-475 | the loop of the circuit is the climb along the path |
| Merkle.PathLeadsToRoot | node-implementation/zkp.go:462-478 | for every leaf list of length 2^n and every index, climbing the extracted path from the leaf gives the built root |
| Merkle.TwoClaimsCollide | node-implementation/zkp.go:464-475 | two different claims with the same index bits and the same end exhibit a hash collision |
| Merkle.OnlyTheLeafVerifies | node-implementation/zkp.go:477-478 | with a collision-free hash, a claim with the bits of a leaf reaches the root if and only if it names that leaf and its siblings |
| TimeSync.TimeKeeper.ReceiveSyncTime | node-implementation/p2p_communication.go:608-668 | once all others have announced, the node keeps its time if at least half of them match, else adopts their majority, else dies; later announcements change nothing |
| TimeSync.CountInt64 | node-implementation/p2p_communication.go:619-625 | the loop counts the matching announcements |
| TimeSync.SettlesOnce | node-implementation/p2p_communication.go:627-644 | the outcome of a node is determined by its own time and the announced ones |
| TimeSync.SettlesIff | node-implementation/p2p_communication.go:627-644 | a node settles on x exactly when x was proposed by more than half of all N nodes, or of the N - 1 others if x is not its own |
| TimeSync.AgreementIff | node-implementation/p2p_communication.go:627-644 | all nodes settle on x if and only if a strict majority of the N nodes proposed x |
| TimeSync.TwoNodesSwap | node-implementation/p2p_communication.go:632-644 | two nodes with different proposals end with each other's |
| Bootstrap.Server.Increment | bootstrap-server/src/State.js:10-29 | each phase is followed by the next, the last by itself |
| Bootstrap.Server.ProcessMessage | bootstrap-server/src/Communication.js:45-112 | the method is the specified server transition, replies and broadcasts included |
| Bootstrap.Client.SayHello | node-implementation/bootstrap_client.go:158-160 | the phase changes before the hello leaves |
| Bootstrap.Client.HandleMessage | node-implementation/bootstrap_client.go:108-153 | the method is the specified client transition, which never looks at the kind of a message |
| Bootstrap.ServerDropsOthers | bootstrap-server/src/Communication.js:52-107 | a message of a kind that the phase does not wait for changes nothing and is not answered |
| Bootstrap.ServerIgnoresRepeats | bootstrap-server/src/Communication.js:52-107 | a repeated message changes nothing and is not answered |
| Bootstrap.ClientIgnoresKind | node-implementation/bootstrap_client.go:108-153 | what a client does depends on the payload only |
| Bootstrap.ClientFailsIff | node-implementation/bootstrap_client.go:108-153 | a client fails iff a message comes before its hello or a view in place of the ready message |
| Bootstrap.NextInv | bootstrap-server/src/Communication.js:45-148 | every event keeps the joint invariant of server, clients and channels |
| Bootstrap.EveryStateInv | bootstrap-server/src/Communication.js:45-148 | the invariant holds in every state of every execution with distinct ids |
| Bootstrap.ClientsDecodeCorrectly | node-implementation/bootstrap_client.go:108-148 | whatever a client reads is the message meant for its phase, its own view included, and no client fails |
| Bootstrap.ServerReadsExpected | bootstrap-server/src/Communication.js:52-107 | every message reaches the server in the phase meant for it, and is one the server still waits for |
| Bootstrap.NoEarlyFinish | node-implementation/bootstrap_client.go:139-148 | when some client has finished, every client has taken its configuration |
| Bootstrap.ServerMovesForward | bootstrap-server/src/Communication.js:76-93 | the phase never goes back and skips nothing, and `storedConfigs` counts the confirmed ids |
| Bootstrap.NeverStuck | bootstrap-server/src/Communication.js:52-107 | until server and clients are all finished some event can happen, given a configuration file |
| Bootstrap.HandshakeTerminates | bootstrap-server/src/Communication.js:45-148 | every execution with N clients has at most 8 N + 2 events |
| Utils.FindMajorElementInt64 | node-implementation/utils.go:24-40 | found iff a strict majority exists, and then that element |
| Utils.MajorityIsUnique | node-implementation/utils.go:32-35 | no list has two majority elements |
| Utils.SliceContainsInt | node-implementation/utils.go:60-67 | the loop decides membership |
| Utils.LogBase2 | node-implementation/utils.go:104-114 | 2^result <= x < 2^(result+1) |
| Utils.PowerOfTwoCheck | node-implementation/config.go:90 | x & (x - 1) is 0 exactly for the powers of two among positive x |
| Utils.InitDagMaxDepth | node-implementation/config.go:89-95 | the node goes on iff DAG_PARALLEL_LEN is a power of two, and then 2^dagMaxDepth equals it |
| Utils.SplitIntoPowersOfTwo | node-implementation/utils.go:116-136 | over 64-bit integers: never returns iff the doublings never exceed the bound; else for x > 0, strictly decreasing powers of two that sum to x; for 0, all powers up to the limit; for x < 0, nothing |
| Utils.HangsIff | node-implementation/utils.go:119-130 | over 64-bit integers, the doubling loops never end iff their bound is at least 2^62 |

## Left out

- Cryptography: EdDSA, MiMC, Groth16, Keccak, FNV and the compression of points. Hash functions are uninterpreted;
  the validity of commitments, the decoding of a received block's secret, key and signature, and the outcome of its
  signature check are parameters.
- The fields of a pooled transaction other than hash and mask, and the uniqueness of block numbers and reward hashes,
  which the code does not promise.
- An empty list of transactions in a block, on which the Merkle library fails; every block has a reward, and the
  genesis block one transaction per node.
- Wall-clock sleeps, jitter, latency, RabbitMQ messages, libp2p streams, JSON and base64 encoding, logging.
- Asynchronous rounds: a block that arrives after its round is not modelled.
- Mutex balance: the return at `p2p_communication.go:301-304`, which keeps a lock, is excluded, and a bucket check
  with under half of the hashes matching ends the process as its second unlock does.
- Epoch.EveryStateInPipeline: stops at 2^32 completed checks, where Epoch.PromotionKeepsPipelineIff shows that the
  relation ends.
- Sorting by BCHAIN_INIT_BUCKET_INFO when the generating round is 2 or more, the choice of the proposed time from the
  wall clock, and the list of rounds that keeps a node from generating commitments twice for one round.
- Election and Epoch group the five variables of a generation, submitted commitments, bucket, map, digest and
  positions, into one value per generation; `copy` of a slice is assignment of a value.
- References into the `blockchain` slice: a parent is the value of the block, which never changes once appended.
- BlockNode.Node.CreateBlock: takes the readings of the clock as inputs.
- BlockNode.Node.GatherTransactionPack: excludes hashes of fewer than 16 characters, on which the original panics.
- Depths above 16, that is L above 65536, where the shift count in `doesTxBelongToIndex` becomes negative.
- The pairing of views with sockets in `alterConfig`, which depends on connection order.
- Bootstrap.NeverStuck: presumes that the configuration file appears; connections do not fail.
- `findMajorElementString`, `blockSliceContainsRow` and `compressPoint`: the first two repeat loops modelled above,
  the last belongs to the cryptography.
- The topology generator, the data processor, the control interface, the setup prompts and the post-processing
  scripts.
