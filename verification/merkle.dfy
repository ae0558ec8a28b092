/** The public-key Merkle tree: building and path extraction (node-implementation/p2p_communication.go) and the
    path loop of the circuit (node-implementation/zkp.go), for any depth and any two-input hash. */
module Merkle {
  import opened Powers

  type PairHash<!T> = (T, T) -> T

  // ---------------------------------------------------------------- specification

  function Parents<T>(hash: PairHash<T>, level: seq<T>): (r: seq<T>)
    requires |level| % 2 == 0
    ensures |r| == |level| / 2
  {
    seq(|level| / 2, i requires 0 <= i < |level| / 2 => hash(level[2 * i], level[2 * i + 1]))
  }

  function LevelAt<T>(hash: PairHash<T>, leaves: seq<T>, n: nat, k: nat): (r: seq<T>)
    requires |leaves| == Pow2(n) && k <= n
    ensures |r| == Pow2(n - k)
  {
    if k == 0 then leaves else Parents(hash, LevelAt(hash, leaves, n, k - 1))
  }

  function Root<T>(hash: PairHash<T>, leaves: seq<T>, n: nat): T
    requires |leaves| == Pow2(n)
  {
    LevelAt(hash, leaves, n, n)[0]
  }

  /** idx ^ 1. */
  function Sibling(idx: nat): nat {
    if idx % 2 == 0 then idx + 1 else idx - 1
  }

  /** idx >> k. */
  function Ancestor(idx: nat, k: nat): nat {
    if k == 0 then idx else Ancestor(idx, k - 1) / 2
  }

  lemma {:induction false} AncestorInLevel(idx: nat, n: nat, k: nat)
    requires idx < Pow2(n) && k <= n
    ensures Ancestor(idx, k) < Pow2(n - k)
    ensures k < n ==> Sibling(Ancestor(idx, k)) < Pow2(n - k)
  {
    if k > 0 {
      AncestorInLevel(idx, n, k - 1);
    }
  }

  /** The node reached from `leaf` after k steps: bit 0 puts the current node on the left. */
  function Climb<T>(hash: PairHash<T>, leaf: T, nodes: seq<T>, bits: seq<nat>, k: nat): T
    requires k <= |nodes| == |bits|
  {
    if k == 0 then leaf
    else
      var below := Climb(hash, leaf, nodes, bits, k - 1);
      if bits[k - 1] == 0 then hash(below, nodes[k - 1]) else hash(nodes[k - 1], below)
  }

  /** The k-th entries of the path: the index bit and the sibling node of level k. */
  ghost predicate PathStep<T>(hash: PairHash<T>, leaves: seq<T>, n: nat, idx: nat, k: nat, node: T, bit: nat)
    requires |leaves| == Pow2(n) && idx < Pow2(n) && k < n
  {
    && bit == Ancestor(idx, k) % 2
    && Sibling(Ancestor(idx, k)) < Pow2(n - k)
    && node == LevelAt(hash, leaves, n, k)[Sibling(Ancestor(idx, k))]
  }

  ghost predicate IsPath<T>(hash: PairHash<T>, leaves: seq<T>, n: nat, idx: nat, nodes: seq<T>, bits: seq<nat>)
    requires |leaves| == Pow2(n) && idx < Pow2(n)
  {
    && |nodes| == |bits| == n
    && forall k :: 0 <= k < n ==> PathStep(hash, leaves, n, idx, k, nodes[k], bits[k])
  }

  // ---------------------------------------------------------------- completeness

  lemma {:induction false} ClimbFollowsTree<T>(hash: PairHash<T>, leaves: seq<T>, n: nat, idx: nat,
                                               nodes: seq<T>, bits: seq<nat>, k: nat)
    requires |leaves| == Pow2(n) && idx < Pow2(n) && IsPath(hash, leaves, n, idx, nodes, bits) && k <= n
    ensures Ancestor(idx, k) < Pow2(n - k)
    ensures Climb(hash, leaves[idx], nodes, bits, k) == LevelAt(hash, leaves, n, k)[Ancestor(idx, k)]
  {
    hide Parents;
    AncestorInLevel(idx, n, k);
    if k > 0 {
      ClimbFollowsTree(hash, leaves, n, idx, nodes, bits, k - 1);
      var below, a := LevelAt(hash, leaves, n, k - 1), Ancestor(idx, k - 1);
      assert PathStep(hash, leaves, n, idx, k - 1, nodes[k - 1], bits[k - 1]);
      assert bits[k - 1] == a % 2 && nodes[k - 1] == below[Sibling(a)];
      assert Pow2(n - (k - 1)) == 2 * Pow2(n - k);
      ParentOfPair(hash, below, a);
    }
  }

  lemma ParentOfPair<T>(hash: PairHash<T>, level: seq<T>, a: nat)
    requires |level| % 2 == 0 && a < |level| && Sibling(a) < |level|
    ensures a / 2 < |level| / 2
    ensures Parents(hash, level)[a / 2]
         == if a % 2 == 0 then hash(level[a], level[Sibling(a)]) else hash(level[Sibling(a)], level[a])
  {
  }

  /** Round trip: the extracted path of every leaf leads from that leaf to the built root. */
  lemma PathLeadsToRoot<T>(hash: PairHash<T>, leaves: seq<T>, n: nat, idx: nat, nodes: seq<T>, bits: seq<nat>)
    requires |leaves| == Pow2(n) && idx < Pow2(n) && IsPath(hash, leaves, n, idx, nodes, bits)
    ensures Climb(hash, leaves[idx], nodes, bits, n) == Root(hash, leaves, n)
  {
    ClimbFollowsTree(hash, leaves, n, idx, nodes, bits, n);
  }

  // ---------------------------------------------------------------- soundness

  predicate Collides<T(==)>(hash: PairHash<T>, a: T, b: T, c: T, d: T) {
    (a, b) != (c, d) && hash(a, b) == hash(c, d)
  }

  /** Two different claims with the same index bits and the same end exhibit two colliding pairs. */
  lemma {:induction false} TwoClaimsCollide<T>(hash: PairHash<T>, leaf: T, nodes: seq<T>, leaf': T, nodes': seq<T>,
                                               bits: seq<nat>, k: nat)
    returns (a: T, b: T, c: T, d: T)
    requires k <= |nodes| == |nodes'| == |bits|
    requires Climb(hash, leaf, nodes, bits, k) == Climb(hash, leaf', nodes', bits, k)
    requires leaf != leaf' || nodes[..k] != nodes'[..k]
    ensures Collides(hash, a, b, c, d)
  {
    if k == 0 {
      assert false;
    } else {
      var x, y := Climb(hash, leaf, nodes, bits, k - 1), Climb(hash, leaf', nodes', bits, k - 1);
      if x == y && nodes[k - 1] == nodes'[k - 1] {
        assert nodes[..k] == nodes[..k - 1] + [nodes[k - 1]];
        assert nodes'[..k] == nodes'[..k - 1] + [nodes'[k - 1]];
        a, b, c, d := TwoClaimsCollide(hash, leaf, nodes, leaf', nodes', bits, k - 1);
      } else if bits[k - 1] == 0 {
        a, b, c, d := x, nodes[k - 1], y, nodes'[k - 1];
      } else {
        a, b, c, d := nodes[k - 1], x, nodes'[k - 1], y;
      }
    }
  }

  ghost predicate CollisionFree<T(!new)>(hash: PairHash<T>) {
    forall a, b, c, d :: !Collides(hash, a, b, c, d)
  }

  /** With a collision-free hash, a claim with the index bits of a leaf reaches the root exactly when it names that
      leaf and its true siblings. */
  lemma OnlyTheLeafVerifies<T(!new)>(hash: PairHash<T>, leaves: seq<T>, n: nat, idx: nat, nodes: seq<T>, bits: seq<nat>,
                               leaf': T, nodes': seq<T>)
    requires CollisionFree(hash) && |leaves| == Pow2(n) && idx < Pow2(n)
    requires IsPath(hash, leaves, n, idx, nodes, bits) && |nodes'| == n
    ensures Climb(hash, leaf', nodes', bits, n) == Root(hash, leaves, n) <==> leaf' == leaves[idx] && nodes' == nodes
  {
    PathLeadsToRoot(hash, leaves, n, idx, nodes, bits);
    if Climb(hash, leaf', nodes', bits, n) == Root(hash, leaves, n) && !(leaf' == leaves[idx] && nodes' == nodes) {
      assert nodes[..n] == nodes && nodes'[..n] == nodes';
      var a, b, c, d := TwoClaimsCollide(hash, leaves[idx], nodes, leaf', nodes', bits, n);
      assert false;
    }
  }

  // ---------------------------------------------------------------- the loops

  method BuildLevel<T(0)>(hash: PairHash<T>, prev: seq<T>) returns (next: seq<T>)
    requires |prev| % 2 == 0
    ensures next == Parents(hash, prev)
    ensures forall i :: 0 <= i < |next| ==> next[i] == hash(prev[2 * i], prev[2 * i + 1])
  {
    var curr := new T[|prev| / 2];
    var i := 0;
    while i < |prev|
      invariant 0 <= i <= |prev| && i % 2 == 0
      invariant forall j :: 0 <= j < i / 2 ==> curr[j] == hash(prev[2 * j], prev[2 * j + 1])
    {
      curr[i / 2] := hash(prev[i], prev[i + 1]);
      i := i + 2;
    }
    next := curr[..];
  }

  ghost predicate AreLevels<T>(hash: PairHash<T>, leaves: seq<T>, depth: nat, levels: seq<seq<T>>, k: nat)
    requires |leaves| == Pow2(depth)
  {
    k <= depth + 1 && k <= |levels| && forall i :: 0 <= i < k ==> levels[i] == LevelAt(hash, leaves, depth, i)
  }

  method BuildLevels<T(0)>(hash: PairHash<T>, leafHashes: seq<T>, depth: nat) returns (levels: seq<seq<T>>)
    requires |leafHashes| == Pow2(depth)
    ensures |levels| == depth + 1 && AreLevels(hash, leafHashes, depth, levels, depth + 1)
    ensures |levels[depth]| == 1 && levels[depth][0] == Root(hash, leafHashes, depth)
  {
    hide Parents;
    levels := [leafHashes];
    for level := 1 to depth + 1
      invariant |levels| == level && AreLevels(hash, leafHashes, depth, levels, level)
    {
      var prev := levels[level - 1];
      assert prev == LevelAt(hash, leafHashes, depth, level - 1) && |prev| == 2 * Pow2(depth - level);
      var curr := BuildLevel(hash, prev);
      levels := levels + [curr];
    }
  }

  lemma StepFromLevel<T>(hash: PairHash<T>, levels: seq<seq<T>>, leaves: seq<T>, depth: nat, idx: nat, k: nat)
    requires |leaves| == Pow2(depth) && idx < Pow2(depth) && k < depth
    requires |levels| == depth + 1 && AreLevels(hash, leaves, depth, levels, depth + 1)
    ensures Sibling(Ancestor(idx, k)) < |levels[k]|
    ensures PathStep(hash, leaves, depth, idx, k, levels[k][Sibling(Ancestor(idx, k))], Ancestor(idx, k) % 2)
  {
    AncestorInLevel(idx, depth, k);
    assert levels[k] == LevelAt(hash, leaves, depth, k);
  }

  method CollectPath<T>(hash: PairHash<T>, levels: seq<seq<T>>, ghost leaves: seq<T>, depth: nat, leafIndex: nat)
    returns (pathNodes: seq<T>, pathIndices: seq<nat>)
    requires |leaves| == Pow2(depth) && leafIndex < Pow2(depth)
    requires |levels| == depth + 1 && AreLevels(hash, leaves, depth, levels, depth + 1)
    ensures IsPath(hash, leaves, depth, leafIndex, pathNodes, pathIndices)
  {
    hide PathStep, AreLevels;
    var idx := leafIndex;
    pathNodes, pathIndices := [], [];
    for i := 0 to depth
      invariant idx == Ancestor(leafIndex, i) && |pathNodes| == |pathIndices| == i
      invariant forall k :: 0 <= k < i ==> PathStep(hash, leaves, depth, leafIndex, k, pathNodes[k], pathIndices[k])
    {
      StepFromLevel(hash, levels, leaves, depth, leafIndex, i);
      var siblingIndex := Sibling(idx);
      pathNodes := pathNodes + [levels[i][siblingIndex]];
      pathIndices := pathIndices + [idx % 2];
      idx := idx / 2;
    }
  }

  /** The loop of EddsaCircuit.Define; the circuit is satisfied when the result equals the public root. */
  method FoldPath<T>(hash: PairHash<T>, leaf: T, pathNodes: seq<T>, pathIndices: seq<nat>) returns (currentNode: T)
    requires |pathNodes| == |pathIndices|
    ensures currentNode == Climb(hash, leaf, pathNodes, pathIndices, |pathNodes|)
  {
    currentNode := leaf;
    for i := 0 to |pathNodes|
      invariant currentNode == Climb(hash, leaf, pathNodes, pathIndices, i)
    {
      var left := if pathIndices[i] == 0 then currentNode else pathNodes[i];
      var right := if pathIndices[i] == 0 then pathNodes[i] else currentNode;
      currentNode := hash(left, right);
    }
  }
}
