/** What a node does with a received block (processBlock of node-implementation/blockchain.go), and how the hash of a
    block is computed there. */
module Reception {
  import opened Types
  import opened Hex
  import opened Ancestry

  /** The hash functions: Merkle root of transaction hashes; block hash of number, root, author and time;
      transaction hash of sender, recipient, amount and time. */
  datatype Hashing = Hashing(
    root: seq<Bytes> -> Bytes,
    block: (nat, Bytes, string, int) -> Bytes,
    tx: (string, string, int, int) -> Bytes)

  predicate AllDecode(txs: seq<Tx>) {
    forall i :: 0 <= i < |txs| ==> Decodes(txs[i].hash)
  }

  function RootOf(h: Hashing, txs: seq<Tx>): Bytes
    requires AllDecode(txs)
  {
    h.root(seq(|txs|, i requires 0 <= i < |txs| => Decode(txs[i].hash)))
  }

  function HashOf(h: Hashing, txs: seq<Tx>, stamp: Stamp): string
    requires AllDecode(txs)
  {
    Encode(h.block(stamp.number, RootOf(h, txs), stamp.author, stamp.createdAt))
  }

  /** The hash of the block is the one that its contents give. */
  predicate Authentic(h: Hashing, b: Block) {
    AllDecode(b.transactions) && b.hash == HashOf(h, b.transactions, b.stamp)
  }

  /** The leaves of the Merkle tree of a block: the decoded hashes of its transactions, in their order. */
  predicate AreLeaves(txs: seq<Tx>, leaves: seq<Bytes>) {
    |leaves| == |txs| && forall i :: 0 <= i < |txs| ==> Decodes(txs[i].hash) && leaves[i] == Decode(txs[i].hash)
  }

  /** Root and hash of the block are computed from these leaves. */
  predicate HashedOver(h: Hashing, b: Block, leaves: seq<Bytes>) {
    b.hash == Encode(h.block(b.stamp.number, h.root(leaves), b.stamp.author, b.stamp.createdAt))
  }

  lemma AuthenticIff(h: Hashing, b: Block, leaves: seq<Bytes>)
    requires AreLeaves(b.transactions, leaves)
    ensures Authentic(h, b) <==> HashedOver(h, b, leaves)
    ensures Encode(RootOf(h, b.transactions)) == Encode(h.root(leaves))
  {
    var txs := b.transactions;
    assert seq(|txs|, i requires 0 <= i < |txs| => Decode(txs[i].hash)) == leaves;
  }

  /** The hash of the block commits to number, author, time and the decoded hashes of its transactions. */
  ghost predicate Commits(h: Hashing, b: Block) {
    forall leaves :: AreLeaves(b.transactions, leaves) ==> HashedOver(h, b, leaves)
  }

  /** And its root field is the root over these. */
  ghost predicate HasRoot(h: Hashing, b: Block) {
    forall leaves :: AreLeaves(b.transactions, leaves) ==> b.stamp.merkleRoot == Encode(h.root(leaves))
  }

  lemma AuthenticCommits(h: Hashing, b: Block)
    requires AllDecode(b.transactions)
    ensures Authentic(h, b) ==> Commits(h, b)
    ensures b.stamp.merkleRoot == Encode(RootOf(h, b.transactions)) ==> HasRoot(h, b)
  {
    hide AreLeaves, HashedOver, Authentic, RootOf;
    forall leaves | AreLeaves(b.transactions, leaves)
      ensures Authentic(h, b) <==> HashedOver(h, b, leaves)
      ensures Encode(RootOf(h, b.transactions)) == Encode(h.root(leaves))
    {
      AuthenticIff(h, b, leaves);
    }
  }

  /** The transaction hash is that of these fields. */
  predicate IsTxHash(h: Hashing, hash: string, sender: string, recipient: string, amount: int, time: int) {
    Decodes(hash) && Decode(hash) == h.tx(sender, recipient, amount, time)
  }

  /** No two different roots, and no two different block contents, have one hash. */
  ghost predicate CollisionFree(h: Hashing) {
    && (forall a, b :: h.root(a) == h.root(b) ==> a == b)
    && (forall n: nat, r, p, t, n': nat, r', p', t' {:trigger h.block(n, r, p, t), h.block(n', r', p', t')} ::
          h.block(n, r, p, t) == h.block(n', r', p', t') ==> (n, r, p, t) == (n', r', p', t'))
  }

  lemma EncodeIsInjective(a: Bytes, b: Bytes)
    requires Encode(a) == Encode(b)
    ensures a == b
  {
    DecodeEncode(a);
    DecodeEncode(b);
  }

  /** A block as received. `fieldsDecode`: secret, author and signature fields are well-formed; `signatureVerifies`:
      the outcome of checking the message signature against the author's key. */
  datatype Incoming = Incoming(block: Block, fieldsDecode: bool, signatureVerifies: bool)

  datatype Verdict = Died | Rejected | Appended(parent: Option<Block>, second: Option<Block>)

  function Judge(h: Hashing, chain: seq<Block>, m: Incoming, expectedCommitmentHash: string): Verdict {
    var b := m.block;
    if !AllDecode(b.transactions) then Died
    else if b.commitmentHash != expectedCommitmentHash then Rejected
    else if !m.fieldsDecode then Rejected
    else if !Authentic(h, b) then Rejected
    else Appended(FirstWithHash(chain, b.previousHash),
                  if b.secondHash != "" then FirstWithHash(chain, b.secondHash) else None)
  }

  /** Binding: what any two nodes append under one hash has one number, author and time, and the same transactions in
      the same order. */
  lemma HashBinds(h: Hashing, chain: seq<Block>, m: Incoming, expected: string,
                  chain': seq<Block>, m': Incoming, expected': string)
    requires CollisionFree(h) && m.block.hash == m'.block.hash
    requires Judge(h, chain, m, expected).Appended? && Judge(h, chain', m', expected').Appended?
    ensures var a, b := m.block, m'.block;
      && (a.stamp.number, a.stamp.author, a.stamp.createdAt) == (b.stamp.number, b.stamp.author, b.stamp.createdAt)
      && |a.transactions| == |b.transactions|
      && forall i :: 0 <= i < |a.transactions| ==>
           && Decodes(a.transactions[i].hash) && Decodes(b.transactions[i].hash)
           && Decode(a.transactions[i].hash) == Decode(b.transactions[i].hash)
  {
    var a, b := m.block, m'.block;
    var x := seq(|a.transactions|, i requires 0 <= i < |a.transactions| => Decode(a.transactions[i].hash));
    var y := seq(|b.transactions|, i requires 0 <= i < |b.transactions| => Decode(b.transactions[i].hash));
    assert AreLeaves(a.transactions, x) && AreLeaves(b.transactions, y);
    AuthenticIff(h, a, x);
    AuthenticIff(h, b, y);
    EncodeIsInjective(h.block(a.stamp.number, h.root(x), a.stamp.author, a.stamp.createdAt),
                      h.block(b.stamp.number, h.root(y), b.stamp.author, b.stamp.createdAt));
    hide Decodes, Decode;
    assert h.root(x) == h.root(y);
  }

  ghost predicate Present(chain: seq<Block>, hash: string) {
    exists b :: b in chain && b.hash == hash
  }

  lemma {:induction false} FirstWithHashIff(chain: seq<Block>, hash: string)
    ensures FirstWithHash(chain, hash).Some? <==> Present(chain, hash)
    ensures FirstWithHash(chain, hash).Some? ==>
              FirstWithHash(chain, hash).value in chain && FirstWithHash(chain, hash).value.hash == hash
    ensures forall k :: 0 <= k < |chain| && chain[k].hash == hash && (forall j :: 0 <= j < k ==> chain[j].hash != hash)
              ==> FirstWithHash(chain, hash) == Some(chain[k])
  {
    if chain != [] {
      FirstWithHashIff(chain[1..], hash);
      assert chain == [chain[0]] + chain[1..];
    }
  }

  /** Parent links of an appended block are set exactly when blocks of those hashes are in the chain. */
  lemma AppendedParentsIff(h: Hashing, chain: seq<Block>, m: Incoming, expected: string)
    requires Judge(h, chain, m, expected).Appended?
    ensures var v := Judge(h, chain, m, expected);
      && (v.parent.Some? <==> Present(chain, m.block.previousHash))
      && (v.second.Some? <==> m.block.secondHash != "" && Present(chain, m.block.secondHash))
  {
    FirstWithHashIff(chain, m.block.previousHash);
    FirstWithHashIff(chain, m.block.secondHash);
  }

  /** The message handler: a block whose commitment is not found is dropped without a further look. */
  function Handle(h: Hashing, chain: seq<Block>, m: Incoming, expected: Option<string>): Verdict {
    if expected.None? then Rejected else Judge(h, chain, m, expected.value)
  }

  /** The block opens a commitment that the node knows, and its fields and hash are right. */
  predicate Passes(h: Hashing, m: Incoming, expected: Option<string>) {
    expected == Some(m.block.commitmentHash) && m.fieldsDecode && Authentic(h, m.block)
  }

  /** When a block is appended: no clause speaks of the signature or of the parents. */
  lemma AppendedIff(h: Hashing, chain: seq<Block>, m: Incoming, expected: Option<string>)
    ensures Handle(h, chain, m, expected).Appended? <==> Passes(h, m, expected)
  {
  }

  /** A hash that no block of the chain has. */
  function UnusedHash(chain: seq<Block>): (r: string)
    ensures forall b :: b in chain ==> |b.hash| < |r|
  {
    if chain == [] then "0" else
      assert chain == [chain[0]] + chain[1..];
      UnusedHash(chain[1..]) + chain[0].hash
  }

  /** Any well-formed contents can be sent as a block that is appended although its signature fails and its parent is
      unknown, whatever the chain. */
  lemma UnsoundBlockIsAppended(h: Hashing, chain: seq<Block>, contents: Block, expected: string)
    returns (m: Incoming)
    requires AllDecode(contents.transactions)
    ensures m.block.transactions == contents.transactions && m.block.stamp == contents.stamp
    ensures (m.block.depth, m.block.row, m.block.col) == (contents.depth, contents.row, contents.col)
    ensures Judge(h, chain, m, expected) == Appended(None, None)
    ensures !m.signatureVerifies && !Present(chain, m.block.previousHash)
  {
    var hash := HashOf(h, contents.transactions, contents.stamp);
    var b := contents.(hash := hash, previousHash := UnusedHash(chain), secondHash := "", commitmentHash := expected);
    m := Incoming(b, true, false);
    FirstWithHashIff(chain, b.previousHash);
  }

  // ---------------------------------------------------------------- a sequence of messages

  /** The commitment hash that the node finds for a message. */
  type Expected = Incoming -> Option<string>

  /** The chain after the messages of the inbox, each judged on what the earlier ones left. */
  function ChainAfter(h: Hashing, chain: seq<Block>, inbox: seq<Incoming>, expected: Expected): seq<Block> {
    if inbox == [] then chain
    else
      var m := inbox[|inbox| - 1];
      var before := ChainAfter(h, chain, inbox[..|inbox| - 1], expected);
      if Handle(h, before, m, expected(m)).Appended? then before + [m.block] else before
  }

  /** The process is still running when message k is read. */
  predicate Reads(inbox: seq<Incoming>, expected: Expected, k: nat) {
    k <= |inbox| && forall j :: 0 <= j < k && expected(inbox[j]).Some? ==> AllDecode(inbox[j].block.transactions)
  }

  /** The verdict on message k. */
  function VerdictAt(h: Hashing, chain: seq<Block>, inbox: seq<Incoming>, expected: Expected, k: nat): Verdict
    requires k < |inbox|
  {
    Handle(h, ChainAfter(h, chain, inbox[..k], expected), inbox[k], expected(inbox[k]))
  }

  /** A block of this hash was there from the start, or an earlier message brought one that passes the tests. */
  ghost predicate Known(h: Hashing, chain: seq<Block>, inbox: seq<Incoming>, expected: Expected, k: nat, hash: string) {
    || Present(chain, hash)
    || exists j :: 0 <= j < k && j < |inbox| && Passes(h, inbox[j], expected(inbox[j])) && inbox[j].block.hash == hash
  }

  lemma PresentAppended(chain: seq<Block>, b: Block, hash: string)
    ensures Present(chain + [b], hash) <==> Present(chain, hash) || b.hash == hash
  {
    assert b in chain + [b];
    assert forall c :: c in chain ==> c in chain + [b];
  }

  lemma {:induction false} PresentIffKnown(h: Hashing, chain: seq<Block>, inbox: seq<Incoming>, expected: Expected,
                                           k: nat, hash: string)
    requires k <= |inbox|
    ensures Present(ChainAfter(h, chain, inbox[..k], expected), hash) <==> Known(h, chain, inbox, expected, k, hash)
  {
    if k > 0 {
      PresentIffKnown(h, chain, inbox, expected, k - 1, hash);
      assert inbox[..k][..k - 1] == inbox[..k - 1];
      var m, before := inbox[k - 1], ChainAfter(h, chain, inbox[..k - 1], expected);
      AppendedIff(h, before, m, expected(m));
      PresentAppended(before, m.block, hash);
      hide Handle, Passes, Present;
    }
  }

  /** Message k is signed, and its parents are known before it. */
  ghost predicate SentSound(h: Hashing, chain: seq<Block>, inbox: seq<Incoming>, expected: Expected, k: nat)
    requires k < |inbox|
  {
    var b := inbox[k].block;
    && inbox[k].signatureVerifies && Known(h, chain, inbox, expected, k, b.previousHash)
    && (b.secondHash != "" ==> Known(h, chain, inbox, expected, k, b.secondHash))
  }

  lemma VerdictIff(h: Hashing, chain: seq<Block>, inbox: seq<Incoming>, expected: Expected, k: nat)
    requires k < |inbox|
    ensures var v, m := VerdictAt(h, chain, inbox, expected, k), inbox[k];
      && (v.Appended? <==> Passes(h, m, expected(m)))
      && (v.Appended? ==>
            (SentSound(h, chain, inbox, expected, k) <==>
               m.signatureVerifies && v.parent.Some? && (m.block.secondHash != "" ==> v.second.Some?)))
  {
    var m, before := inbox[k], ChainAfter(h, chain, inbox[..k], expected);
    AppendedIff(h, before, m, expected(m));
    PresentIffKnown(h, chain, inbox, expected, k, m.block.previousHash);
    PresentIffKnown(h, chain, inbox, expected, k, m.block.secondHash);
    hide Passes, Present, Known;
    if Handle(h, before, m, expected(m)).Appended? {
      AppendedParentsIff(h, before, m, expected(m).value);
    }
    hide Judge;
  }

  /** If the block was appended, it is signed and its links are set. */
  predicate IsSound(v: Verdict, m: Incoming) {
    v.Appended? ==> m.signatureVerifies && v.parent.Some? && (m.block.secondHash != "" ==> v.second.Some?)
  }

  /** Over a whole inbox, every appended block is signed and linked to its parents exactly when its senders see to
      it: whatever matches commitment and hash must come signed, and after its parents. */
  lemma InboxSoundIff(h: Hashing, chain: seq<Block>, inbox: seq<Incoming>, expected: Expected)
    ensures (forall k :: 0 <= k < |inbox| && Reads(inbox, expected, k) ==>
               IsSound(VerdictAt(h, chain, inbox, expected, k), inbox[k]))
       <==> (forall k :: 0 <= k < |inbox| && Reads(inbox, expected, k) && Passes(h, inbox[k], expected(inbox[k])) ==>
               SentSound(h, chain, inbox, expected, k))
  {
    hide VerdictAt, Passes, SentSound, Reads;
    forall k | 0 <= k < |inbox|
      ensures IsSound(VerdictAt(h, chain, inbox, expected, k), inbox[k]) <==>
                (Passes(h, inbox[k], expected(inbox[k])) ==> SentSound(h, chain, inbox, expected, k))
    {
      VerdictIff(h, chain, inbox, expected, k);
    }
  }

  /** A block that its maker hashed as createBlock does is appended by every node that expects its commitment, and
      finds its parent there if the chain has it. */
  lemma CreatedBlockIsAppended(h: Hashing, chain: seq<Block>, b: Block, signatureVerifies: bool)
    requires Authentic(h, b)
    ensures var v := Judge(h, chain, Incoming(b, true, signatureVerifies), b.commitmentHash);
      v.Appended? && (v.parent.Some? <==> Present(chain, b.previousHash))
  {
    AppendedParentsIff(h, chain, Incoming(b, true, signatureVerifies), b.commitmentHash);
  }
}
