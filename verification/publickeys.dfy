/** The exchange of public keys and the Merkle tree over them: the PUB_KEY_EXCHANGE case of
    node-implementation/p2p_communication.go, with node-implementation/p2p.go adding the own key first. */
module PublicKeys {
  import opened Powers
  import opened Buckets
  import opened Merkle

  /** A received key is added if it is new; with all keys present the list is sorted. */
  function Learn(nodes: nat, keys: seq<string>, key: string): seq<string> {
    var known := if key in keys then keys else keys + [key];
    if |known| == nodes then SortStrings(known) else known
  }

  function LearnAll(nodes: nat, own: string, received: seq<string>): seq<string> {
    if received == [] then [own]
    else Learn(nodes, LearnAll(nodes, own, received[..|received| - 1]), received[|received| - 1])
  }

  /** The leaves: the keys in order, padded with "0". */
  function Leaves(keys: seq<string>, size: nat): (r: seq<string>)
    ensures |r| == size
  {
    seq(size, i requires 0 <= i < size => if i < |keys| then keys[i] else "0")
  }

  /** First the keys, then "0" up to the size of the tree. */
  predicate IsPadded(keys: seq<string>, size: nat, leaves: seq<string>) {
    && |leaves| == size
    && (forall i :: 0 <= i < size && i < |keys| ==> leaves[i] == keys[i])
    && (forall i :: |keys| <= i < size ==> leaves[i] == "0")
  }

  lemma LeavesArePadded(keys: seq<string>, size: nat)
    ensures IsPadded(keys, size, Leaves(keys, size))
  {
  }

  function LeafHashes<T>(leafHash: string -> T, leaves: seq<string>): (r: seq<T>)
    ensures |r| == |leaves|
  {
    seq(|leaves|, i requires 0 <= i < |leaves| => leafHash(leaves[i]))
  }

  datatype Outcome = Waiting | Built | Panicked

  /** What the exchange depends on at one node; `built`: the leaves have been written. */
  datatype Ring = Ring(keys: seq<string>, sentInitial: bool, built: bool)

  /** The command to distribute the own key: obeyed only while no other key is known. */
  function Ask(r: Ring): (Ring, bool) {
    if |r.keys| == 1 then (r.(sentInitial := true), true) else (r, false)
  }

  /** A received key: the first one triggers the broadcast of the own key, unless the command did before. */
  function Hear(nodes: nat, r: Ring, key: string): (Ring, bool, Outcome) {
    var keys := Learn(nodes, r.keys, key);
    (Ring(keys, r.sentInitial, r.built || |keys| == nodes), |r.keys| == 1 && !r.sentInitial,
     if |keys| != nodes then Waiting else if r.built then Panicked else Built)
  }

  class KeyRing<T(0)> {
    const nodes: nat
    const depth: nat
    const own: string
    const leafHash: string -> T
    const hash: PairHash<T>
    var exchangedPubKey: seq<string>
    var sentInitialMessage: bool
    var pubKeysMerkleLeaves: seq<string>
    var levels: seq<seq<T>>
    var pubKeyLeafIndex: nat
    var pathNodes: seq<T>
    var pathIndices: seq<nat>

    ghost predicate Valid()
      reads this
    {
      own in exchangedPubKey && nodes <= Pow2(depth)
    }

    function State(): Ring
      reads this
    {
      Ring(exchangedPubKey, sentInitialMessage, pubKeysMerkleLeaves != [])
    }

    constructor (nodes: nat, depth: nat, own: string, leafHash: string -> T, hash: PairHash<T>)
      requires nodes <= Pow2(depth)
      ensures Valid() && State() == Ring([own], false, false)
      ensures this.nodes == nodes && this.depth == depth && this.own == own
    {
      this.nodes, this.depth, this.own, this.leafHash, this.hash := nodes, depth, own, leafHash, hash;
      exchangedPubKey, sentInitialMessage, pubKeysMerkleLeaves, levels := [own], false, [], [];
      pubKeyLeafIndex, pathNodes, pathIndices := 0, [], [];
    }

    /** REQUEST_PUBLIC_KEY_DISTRIBUTION. */
    method RequestDistribution() returns (broadcast: bool)
      requires Valid()
      modifies this`sentInitialMessage
      ensures Valid() && (State(), broadcast) == Ask(old(State()))
    {
      broadcast := |exchangedPubKey| == 1;
      if broadcast {
        sentInitialMessage := true;
      }
    }

    /** The last missing key builds the tree and the node's own path. Reaching the full count a second time would
        append the leaves again and write past the leaf hashes. */
    method ReceiveKey(key: string) returns (broadcast: bool, outcome: Outcome)
      requires Valid()
      modifies this
      ensures Valid() && (State(), broadcast, outcome) == Hear(nodes, old(State()), key)
      ensures outcome == Built ==>
                pubKeysMerkleLeaves == Leaves(exchangedPubKey, Pow2(depth)) && HoldsPath(exchangedPubKey)
      ensures outcome == Built ==> IsPadded(exchangedPubKey, Pow2(depth), pubKeysMerkleLeaves)
    {
      hide IsPadded;
      broadcast := |exchangedPubKey| == 1 && !sentInitialMessage;
      if key !in exchangedPubKey {
        exchangedPubKey := exchangedPubKey + [key];
      }
      if |exchangedPubKey| != nodes {
        return broadcast, Waiting;
      }
      OwnStaysIn(exchangedPubKey, own);
      exchangedPubKey := SortStrings(exchangedPubKey);
      if pubKeysMerkleLeaves != [] {
        return broadcast, Panicked;
      }
      BuildTree();
      outcome := Built;
    }

    method BuildTree()
      requires Valid() && |exchangedPubKey| == nodes
      modifies this`pubKeysMerkleLeaves, this`levels, this`pubKeyLeafIndex, this`pathNodes, this`pathIndices
      ensures pubKeysMerkleLeaves == Leaves(exchangedPubKey, Pow2(depth)) && HoldsPath(exchangedPubKey)
      ensures IsPadded(exchangedPubKey, Pow2(depth), pubKeysMerkleLeaves)
    {
      LeavesArePadded(exchangedPubKey, Pow2(depth));
      hide IsPath, Root, AreLevels, IsPadded;
      pubKeysMerkleLeaves := Leaves(exchangedPubKey, Pow2(depth));
      var leafHashes := LeafHashes(leafHash, pubKeysMerkleLeaves);
      levels := BuildLevels(hash, leafHashes, depth);
      pubKeyLeafIndex := FirstIndex(exchangedPubKey, own);
      pathNodes, pathIndices := CollectPath(hash, levels, leafHashes, depth, pubKeyLeafIndex);
    }

    /** The tree over `keys` is built and the path is that of the own key. */
    ghost predicate HoldsPath(keys: seq<string>)
      reads this
    {
      var leafHashes := LeafHashes(leafHash, Leaves(keys, Pow2(depth)));
      && pubKeyLeafIndex < |keys| <= Pow2(depth) && keys[pubKeyLeafIndex] == own
      && |levels| == depth + 1 && |levels[depth]| == 1 && levels[depth][0] == Root(hash, leafHashes, depth)
      && IsPath(hash, leafHashes, depth, pubKeyLeafIndex, pathNodes, pathIndices)
    }
  }

  lemma OwnStaysIn(keys: seq<string>, own: string)
    requires own in keys
    ensures own in SortStrings(keys) && |SortStrings(keys)| == |keys|
  {
    SortedLength(keys);
    assert own in multiset(keys);
    assert own in multiset(SortStrings(keys));
  }

  method FirstIndex(keys: seq<string>, own: string) returns (index: nat)
    requires own in keys
    ensures index < |keys| && keys[index] == own
  {
    index := 0;
    while keys[index] != own
      invariant index < |keys| && own in keys[index..]
      decreases |keys| - index
    {
      assert keys[index..] == [keys[index]] + keys[index + 1..];
      index := index + 1;
    }
  }

  // ---------------------------------------------------------------- all nodes build one tree

  lemma LearnCollects(nodes: nat, keys: seq<string>, key: string)
    requires NoDuplicates(keys)
    ensures NoDuplicates(Learn(nodes, keys, key)) && Elements(Learn(nodes, keys, key)) == Elements(keys) + {key}
    ensures |Learn(nodes, keys, key)| == nodes ==> Sorted(Learn(nodes, keys, key))
  {
    var known := if key in keys then keys else keys + [key];
    assert NoDuplicates(known) && Elements(known) == Elements(keys) + {key};
    hide NoDuplicates, Elements, Sorted;
    SortedLength(known);
    RearrangedKeepsElements(SortStrings(known), known);
  }

  lemma {:induction false} LearnAllCollects(nodes: nat, own: string, received: seq<string>)
    ensures var keys := LearnAll(nodes, own, received);
      && NoDuplicates(keys) && Elements(keys) == {own} + Elements(received)
      && (|keys| == nodes ==> Sorted(keys))
  {
    if received != [] {
      var init, last := received[..|received| - 1], received[|received| - 1];
      assert received == init + [last];
      assert Elements(received) == Elements(init) + {last};
      LearnAllCollects(nodes, own, init);
      LearnCollects(nodes, LearnAll(nodes, own, init), last);
    }
  }

  /** Nodes that hear from everybody, in any order and with any repetitions, end with one list of keys. */
  lemma EverybodyHasTheSameKeys(all: set<string>, a: string, b: string, fromA: seq<string>, fromB: seq<string>)
    requires {a} + Elements(fromA) == all && {b} + Elements(fromB) == all
    ensures LearnAll(|all|, a, fromA) == LearnAll(|all|, b, fromB)
    ensures Elements(LearnAll(|all|, a, fromA)) == all && |LearnAll(|all|, a, fromA)| == |all|
  {
    var ka, kb := LearnAll(|all|, a, fromA), LearnAll(|all|, b, fromB);
    LearnAllCollects(|all|, a, fromA);
    LearnAllCollects(|all|, b, fromB);
    NoDuplicatesLength(ka);
    NoDuplicatesLength(kb);
    SameMultiset(ka, kb);
    SortedIsUnique(ka, kb);
  }

  /** The membership proof of every node checks against the root of every other node. */
  lemma PathsMeetAtOneRoot<T>(leafHash: string -> T, hash: PairHash<T>, depth: nat, all: set<string>,
                              a: string, b: string, fromA: seq<string>, fromB: seq<string>,
                              index: nat, nodes: seq<T>, bits: seq<nat>)
    requires {a} + Elements(fromA) == all && {b} + Elements(fromB) == all && |all| <= Pow2(depth)
    requires index < |LearnAll(|all|, a, fromA)| <= Pow2(depth) && LearnAll(|all|, a, fromA)[index] == a
    requires IsPath(hash, LeafHashes(leafHash, Leaves(LearnAll(|all|, a, fromA), Pow2(depth))), depth, index,
                    nodes, bits)
    ensures Climb(hash, leafHash(a), nodes, bits, depth)
         == Root(hash, LeafHashes(leafHash, Leaves(LearnAll(|all|, b, fromB), Pow2(depth))), depth)
  {
    EverybodyHasTheSameKeys(all, a, b, fromA, fromB);
    var leaves := LeafHashes(leafHash, Leaves(LearnAll(|all|, a, fromA), Pow2(depth)));
    assert leaves[index] == leafHash(a);
    PathLeadsToRoot(hash, leaves, depth, index, nodes, bits);
  }
}
