/** The blocks of the concrete executions: digests of 32 bytes, two makers, and passes that create one block. */
module Demo {
  import opened Types
  import opened Hex
  import opened Powers
  import opened Dag
  import opened Columns
  import opened FixUp
  import opened Schedule
  import opened Ledger
  import opened Reception
  import opened BlockNode

  function Digest(n: byte): (r: Bytes)
    ensures |r| == 32
  {
    seq(32, _ => n)
  }

  function Hash(n: byte): (s: string)
    ensures |s| == 64
  {
    Encode(Digest(n))
  }

  lemma HashesDiffer(m: byte, n: byte)
    ensures Canonical(Hash(m)) && (Hash(m) == Hash(n) <==> m == n)
  {
    DecodeEncode(Digest(m));
    DecodeEncode(Digest(n));
    assert Digest(m)[0] == m && Digest(n)[0] == n;
  }

  // Public keys of the two makers, and what the hash functions yield for each of them.

  function KeyA(): string {
    Hash(170)
  }

  function KeyB(): string {
    Hash(187)
  }

  function RootDigest(hashes: seq<Bytes>): Bytes {
    Digest(14)
  }

  function BlockDigest(number: nat, root: Bytes, author: string, time: int): Bytes {
    if author == KeyA() then Digest(26) else if author == KeyB() then Digest(27) else Digest(10)
  }

  function TxDigest(sender: string, recipient: string, amount: int, time: int): Bytes {
    if recipient == KeyA() then Digest(15) else if recipient == KeyB() then Digest(31) else Digest(12)
  }

  function TheHashing(): Hashing {
    Hashing(RootDigest, BlockDigest, TxDigest)
  }

  lemma KeysDiffer()
    ensures KeyA() != KeyB() && Coinbase() != KeyA() && Coinbase() != KeyB()
  {
    HashesDiffer(170, 187);
    hide Hash;
    assert |Coinbase()| == 40;
  }

  /** A genesis block with one transaction. */
  function Genesis(): Block {
    Block(Hash(10), [Tx(Hash(12), 0)], "", "", 0, 0, 0, "", Stamp(0, 0, Coinbase(), Hash(14)))
  }

  function GenesisColumn(D: nat): Column {
    seq(Pow2(D), i => if i == 0 then Some(Genesis()) else None)
  }

  lemma GenesisFacts()
    ensures var g := Genesis();
      && |g.transactions| == 1 && g.transactions[0].hash == Hash(12) && g.hash == Hash(10)
      && g.depth == 0 && g.row == 0 && g.col == 0
  {
  }

  lemma GenesisIsAuthentic()
    ensures Authentic(TheHashing(), Genesis())
  {
    KeysDiffer();
    hide Digest, KeyA, KeyB, Decodes, Hash, Reencoded, Coinbase;
    HashesDiffer(12, 12);
    var g := Genesis();
    assert g.transactions[0].hash == Hash(12);
    assert AllDecode(g.transactions);
    assert BlockDigest(0, Digest(14), Coinbase(), 0) == Digest(10);
    AuthenticBy(g, 10);
  }

  lemma AuthenticBy(b: Block, d: byte)
    requires AllDecode(b.transactions) && b.hash == Hash(d)
    requires BlockDigest(b.stamp.number, Digest(14), b.stamp.author, b.stamp.createdAt) == Digest(d)
    ensures Authentic(TheHashing(), b)
  {
    hide Digest, BlockDigest, Decodes;
    assert RootOf(TheHashing(), b.transactions) == Digest(14);
  }

  function KeyOf(first: bool): string {
    if first then KeyA() else KeyB()
  }

  /** A block after genesis by one of the makers, holding one transaction and the maker's reward. */
  function NextBlock(first: bool, tx: Tx, depth: nat, row: nat, commitmentHash: string): Block {
    Block(Hash(if first then 26 else 27), [tx, Reward(first)], Genesis().hash, "", depth, row, 1, commitmentHash,
          Stamp(2, 0, KeyOf(first), Hash(14)))
  }

  lemma NextFacts(first: bool, tx: Tx, depth: nat, row: nat, commitmentHash: string)
    ensures var b := NextBlock(first, tx, depth, row, commitmentHash);
      && b.transactions == [tx, Reward(first)] && b.previousHash == Genesis().hash && b.secondHash == ""
      && b.depth == depth && b.row == row && b.col == 1 && b.commitmentHash == commitmentHash
      && b.hash == Hash(if first then 26 else 27)
  {
  }

  function Reward(first: bool): Tx {
    RewardTx(TheHashing(), KeyOf(first), 0)
  }

  lemma RewardIs(first: bool)
    ensures Reward(first) == Tx(Hash(if first then 15 else 31), 0) && Canonical(Reward(first).hash)
  {
    hide Digest, KeyA, KeyB, Canonical;
    KeysDiffer();
    HashesDiffer(if first then 15 else 31, 0);
  }

  lemma NextIsAuthentic(first: bool, tx: Tx, depth: nat, row: nat, commitmentHash: string)
    requires Decodes(tx.hash)
    ensures var b := NextBlock(first, tx, depth, row, commitmentHash);
      AllDecode(b.transactions) && Authentic(TheHashing(), b)
  {
    KeysDiffer();
    RewardIs(first);
    hide Digest, KeyA, KeyB, Decodes, Reward, Reencoded, Hash;
    AuthenticBy(NextBlock(first, tx, depth, row, commitmentHash), if first then 26 else 27);
  }

  /** A pass that creates one block, the first one the node appends in the round. */
  lemma OneBlockPass(p: Params, h: Hashing, start: NodeState, column: nat, row: nat, bucket: seq<string>, b: Block)
    requires row < Pow2(p.maxDepth) && NodeActions(p, start.chain, column)[row].action != Skip
    requires Created(p.txPerBlock, NodeActions(p, start.chain, column), row, 0, column, bucket, h, start.pool, b)
    ensures PassOutcome(p, h, start, 0, column, [row], bucket, Pass([row], [b], [b], [0]))
    ensures MadeMap([row], [b]) == map[row := b]
  {
    hide NodeActions, Created;
    assert [b][..0] == [] && [row][..0] == [];
    AppendNone(start);
    assert MadeMap([], []) == map[];
  }

  /** With one transaction in the pool, a block packs exactly that and the reward. */
  lemma PackOne(b: Block, tx: Tx, reward: Tx)
    requires b.transactions == [tx, reward] && b.depth <= HASH_HEX_LEN && BelongsToIndex(tx.mask, b.depth, b.row)
    requires Canonical(reward.hash) && AllDecode(b.transactions)
    ensures Packs(1, map[tx.hash := tx], b)
  {
    hide Canonical, BelongsToIndex, Decodes;
    assert Body(b) == [tx];
    assert Candidates(map[tx.hash := tx], b.depth, b.row) == {tx.hash};
  }

  /** The network before and after one transaction is given to all of its nodes. */
  function Fresh(D: nat, N: nat): System {
    System(seq(N, _ => NodeState([Genesis()], map[])), [GenesisColumn(D)], {})
  }

  function Given(D: nat, N: nat, tx: Tx): System {
    System(seq(N, _ => NodeState([Genesis()], map[tx.hash := tx])), [GenesisColumn(D)], {tx.hash})
  }

  lemma FreshIsInit(p: Params, N: nat)
    requires N > 0
    ensures Init(p, Fresh(p.maxDepth, N))
  {
    hide Hash;
    assert Genesis().hash != "" by {
      assert |Hash(10)| == 64;
    }
  }

  lemma FreshGives(D: nat, N: nat, tx: Tx)
    requires |tx.hash| >= HASH_HEX_LEN && tx.mask == Bits(tx.hash, HASH_HEX_LEN) && tx.hash != Hash(12)
    ensures Give(Fresh(D, N), [tx], Given(D, N, tx))
  {
    hide Bits, Hash, GenesisColumn;
    var pool: map<string, Tx> := map[];
    assert PutAll(pool, [tx]) == map[tx.hash := tx] by {
      assert [tx][..0] == [];
    }
    hide PutAll;
    assert TxHashes([tx]) == {tx.hash};
    var s := Fresh(D, N);
    forall n, b | 0 <= n < |s.nodes| && b in s.nodes[n].chain ensures TxHashes([tx]) !! TxHashes(b.transactions) {
      assert b == Genesis();
    }
  }

  /** The chain of a fresh node holds exactly the genesis column. */
  lemma FreshRun(p: Params)
    ensures var col := GenesisColumn(p.maxDepth);
      && IsRun(p, [col]) && Linearizes([Genesis()], [col]) && WellFormed(p.maxDepth, col)
      && NodeActions(p, [Genesis()], 1) == FinalActions(p, col)
  {
    var col := GenesisColumn(p.maxDepth);
    GenesisFacts();
    hide Genesis, Hash, FinalActions, NodeActions;
    GenesisColumnTiles(p.maxDepth, col);
    GenesisLinear(p.maxDepth, Genesis(), col);
    assert IsRun(p, [col]);
    hide IsRun, Linearizes, GenesisColumn, WellFormed;
    NodesDecideAlike(p, [Genesis()], [col]);
  }

  lemma GenesisLinear(D: nat, g: Block, col: Column)
    requires |col| == Pow2(D) && col[0] == Some(g) && g.row == 0 && g.col == 0
    requires forall i :: 0 < i < |col| ==> col[i].None?
    ensures Linearizes([g], [col])
  {
    assert [g][0] == g;
  }
}
