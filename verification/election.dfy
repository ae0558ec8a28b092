/** Secret leader election: commitment buckets, positions, leader lookup, and why every slot has one leader
    (node-implementation/p2p_communication.go). */
module Election {
  import opened Types
  import opened Buckets
  import Ledger

  datatype CommitmentInfo = CommitmentInfo(hash: string, secret: string)

  datatype SharedInfo = SharedInfo(hash: string, commitment: string)

  /** One generation of commitment variables: dev, ready or running. */
  datatype Stage = Stage(
    submitted: seq<CommitmentInfo>,
    bucket: seq<string>,
    shared: map<string, SharedInfo>,
    bucketHash: string,
    positions: seq<nat>)

  const EMPTY_STAGE := Stage([], [], map[], "", [])

  /** What all nodes share: the full bucket length MAX_COMMITMENT_VAR * nodes, the generators seeded with the
      genesis hash and with the shuffle key, and the digest of the joined bucket. */
  datatype Setup = Setup(full: nat, others: nat, genesisPick: Picks, keyPick: Picks, digest: string -> string)

  ghost predicate ValidSetup(c: Setup) {
    ValidPicks(c.genesisPick) && ValidPicks(c.keyPick)
  }

  function Own(submitted: seq<CommitmentInfo>): set<string> {
    set i | i in submitted :: i.hash
  }

  /** Indices below k whose commitment this node submitted, in ascending order. */
  function PositionsOf(bucket: seq<string>, submitted: seq<CommitmentInfo>, k: nat): seq<nat>
    requires k <= |bucket|
  {
    if k == 0 then []
    else PositionsOf(bucket, submitted, k - 1) + (if bucket[k - 1] in Own(submitted) then [k - 1] else [])
  }

  // ---------------------------------------------------------------- stage transitions

  /** A valid commitment from the network: ignored if known; completing the bucket only sorts it. */
  function Receive(st: Stage, full: nat, info: SharedInfo): Stage {
    if info.hash in st.bucket then st
    else
      var bucket := st.bucket + [info.hash];
      st.(shared := st.shared[info.hash := info],
          bucket := if |bucket| == full then SortStrings(bucket) else bucket)
  }

  /** strings.Join with an empty separator. */
  function Join(parts: seq<string>): string {
    if parts == [] then "" else parts[0] + Join(parts[1..])
  }

  function Identify(c: Setup, st: Stage): Stage {
    st.(bucketHash := c.digest(Join(st.bucket)), positions := PositionsOf(st.bucket, st.submitted, |st.bucket|))
  }

  /** randomBucketShuffle: with the shuffle key an incomplete bucket is left alone. */
  function ShuffleStage(c: Setup, st: Stage, fromInit: bool): (r: Stage)
    requires ValidSetup(c)
    ensures r.bucket == st.bucket
            || r.bucket == SortAndShuffle(st.bucket, if fromInit then c.genesisPick else c.keyPick)
  {
    if !fromInit && |st.bucket| != c.full then st
    else st.(bucket := SortAndShuffle(st.bucket, if fromInit then c.genesisPick else c.keyPick))
  }

  /** An own commitment: completing the bucket shuffles it and recomputes the positions. */
  function Submit(c: Setup, st: Stage, info: CommitmentInfo, commitment: string): Stage
    requires ValidSetup(c)
  {
    var st1 := st.(submitted := st.submitted + [info],
                   shared := st.shared[info.hash := SharedInfo(info.hash, commitment)],
                   bucket := st.bucket + [info.hash]);
    if |st1.bucket| == c.full then Identify(c, ShuffleStage(c, st1, false)) else st1
  }

  // ---------------------------------------------------------------- order of arrival

  function ReceiveAll(st: Stage, full: nat, infos: seq<SharedInfo>): Stage {
    if infos == [] then st
    else
      var last := infos[|infos| - 1];
      Receive(ReceiveAll(st, full, infos[..|infos| - 1]), full, last)
  }

  ghost predicate BucketMatchesMap(st: Stage) {
    && NoDuplicates(st.bucket) && st.shared.Keys == Elements(st.bucket)
    && forall h :: h in st.shared ==> st.shared[h].hash == h
  }

  lemma AppendNew(bucket: seq<string>, hash: string)
    requires NoDuplicates(bucket) && hash !in bucket
    ensures NoDuplicates(bucket + [hash]) && Elements(bucket + [hash]) == Elements(bucket) + {hash}
  {
  }

  lemma AlreadyElement(bucket: seq<string>, hash: string)
    requires hash in bucket
    ensures Elements(bucket) == Elements(bucket) + {hash}
  {
  }

  lemma ReceiveKeepsBucket(st: Stage, full: nat, info: SharedInfo)
    requires BucketMatchesMap(st)
    ensures var r := Receive(st, full, info);
      BucketMatchesMap(r) && Elements(r.bucket) == Elements(st.bucket) + {info.hash}
  {
    hide NoDuplicates, Elements, SortStrings;
    if info.hash !in st.bucket {
      var bucket := st.bucket + [info.hash];
      AppendNew(st.bucket, info.hash);
      SortingKeepsElements(bucket);
    } else {
      AlreadyElement(st.bucket, info.hash);
    }
  }

  /** Any order, any repetition: the bucket ends with each received hash exactly once. */
  lemma {:induction false} ReceiveAllCollects(st: Stage, full: nat, infos: seq<SharedInfo>)
    requires BucketMatchesMap(st)
    ensures var r := ReceiveAll(st, full, infos);
      BucketMatchesMap(r) && Elements(r.bucket) == Elements(st.bucket) + (set i | i in infos :: i.hash)
      && r.submitted == st.submitted
  {
    if infos != [] {
      var init, last := infos[..|infos| - 1], infos[|infos| - 1];
      assert infos == init + [last];
      ReceiveAllCollects(st, full, init);
      ReceiveKeepsBucket(ReceiveAll(st, full, init), full, last);
    }
  }

  /** The commitment that completes a bucket sorts it. */
  lemma {:induction false} ReceivedFullIsSorted(full: nat, infos: seq<SharedInfo>)
    ensures var bucket := ReceiveAll(EMPTY_STAGE, full, infos).bucket; |bucket| == full ==> Sorted(bucket)
  {
    hide Sorted;
    assert Sorted([]) by {
      SortedEmpty();
    }
    if infos != [] {
      ReceivedFullIsSorted(full, infos[..|infos| - 1]);
      SortedLength(ReceiveAll(EMPTY_STAGE, full, infos[..|infos| - 1]).bucket + [infos[|infos| - 1].hash]);
    }
  }

  lemma SortedEmpty()
    ensures Sorted([])
  {
  }

  /** Nodes that receive the same commitments hold the same bucket once it is complete, before any shuffle. */
  lemma ReceiversAgree(full: nat, a: seq<SharedInfo>, b: seq<SharedInfo>)
    requires (set i | i in a :: i.hash) == (set i | i in b :: i.hash) && |set i | i in a :: i.hash| == full
    ensures ReceiveAll(EMPTY_STAGE, full, a).bucket == ReceiveAll(EMPTY_STAGE, full, b).bucket
  {
    assert BucketMatchesMap(EMPTY_STAGE);
    ReceiveAllCollects(EMPTY_STAGE, full, a);
    ReceiveAllCollects(EMPTY_STAGE, full, b);
    var x, y := ReceiveAll(EMPTY_STAGE, full, a).bucket, ReceiveAll(EMPTY_STAGE, full, b).bucket;
    assert Elements(x) == Elements(y) == (set i | i in a :: i.hash);
    NoDuplicatesLength(x);
    NoDuplicatesLength(y);
    SameMultiset(x, y);
    ReceivedFullIsSorted(full, a);
    ReceivedFullIsSorted(full, b);
    SortedIsUnique(x, y);
  }

  // ---------------------------------------------------------------- positions

  lemma {:induction false} PositionsAscend(bucket: seq<string>, submitted: seq<CommitmentInfo>, k: nat)
    requires k <= |bucket|
    ensures var ps := PositionsOf(bucket, submitted, k);
      && (forall x: nat :: x in ps <==> x < k && bucket[x] in Own(submitted))
      && (forall i, j :: 0 <= i < j < |ps| ==> ps[i] < ps[j])
  {
    if k > 0 {
      PositionsAscend(bucket, submitted, k - 1);
      var before := PositionsOf(bucket, submitted, k - 1);
      forall i | 0 <= i < |before| ensures before[i] < k - 1 {
        assert before[i] in before;
      }
    }
  }

  /** A node that finds all of its commitments in the bucket holds exactly that many positions. */
  lemma PositionsCount(bucket: seq<string>, submitted: seq<CommitmentInfo>)
    requires NoDuplicates(bucket) && Own(submitted) <= Elements(bucket)
    ensures |PositionsOf(bucket, submitted, |bucket|)| == |Own(submitted)|
  {
    var ps := PositionsOf(bucket, submitted, |bucket|);
    PositionsAscend(bucket, submitted, |bucket|);
    forall i | 0 <= i < |ps| ensures ps[i] < |bucket| {
      assert ps[i] in ps;
    }
    var mine := seq(|ps|, i requires 0 <= i < |ps| => bucket[ps[i]]);
    NoDuplicatesLength(mine);
    forall h | h in Own(submitted) ensures h in mine {
      var x :| 0 <= x < |bucket| && bucket[x] == h;
      assert x in ps;
      var i :| 0 <= i < |ps| && ps[i] == x;
      assert mine[i] == h;
    }
    forall h | h in mine ensures h in Own(submitted) {
      var i :| 0 <= i < |mine| && mine[i] == h;
      assert ps[i] in ps;
    }
    assert Elements(mine) == Own(submitted);
  }

  // ---------------------------------------------------------------- election over N nodes

  function AllOwn(own: seq<seq<CommitmentInfo>>): set<string> {
    if own == [] then {} else AllOwn(own[..|own| - 1]) + Own(own[|own| - 1])
  }

  lemma {:induction false} AllOwnMember(own: seq<seq<CommitmentInfo>>, h: string)
    ensures h in AllOwn(own) <==> exists n :: 0 <= n < |own| && h in Own(own[n])
  {
    if own != [] {
      var init := own[..|own| - 1];
      AllOwnMember(init, h);
      if n :| 0 <= n < |init| && h in Own(init[n]) {
        assert h in Own(own[n]);
      }
      if n :| 0 <= n < |own| && h in Own(own[n]) {
        if n < |init| {
          assert h in Own(init[n]);
        }
      }
    }
  }

  /** Every node submitted `variants` commitments and no hash belongs to two nodes. */
  ghost predicate DistinctCommitments(own: seq<seq<CommitmentInfo>>, variants: nat) {
    && (forall n :: 0 <= n < |own| ==> |Own(own[n])| == variants)
    && (forall n, m :: 0 <= n < m < |own| ==> Own(own[n]) !! Own(own[m]))
  }

  lemma {:induction false} AllOwnCount(own: seq<seq<CommitmentInfo>>, variants: nat)
    requires DistinctCommitments(own, variants)
    ensures |AllOwn(own)| == variants * |own|
  {
    if own == [] {
    } else {
      var init, last := own[..|own| - 1], own[|own| - 1];
      assert forall n :: 0 <= n < |init| ==> init[n] == own[n];
      AllOwnCount(init, variants);
      assert AllOwn(init) !! Own(last) by {
        LastOwnsApart(own, variants);
      }
      OneMore(variants, |init|);
    }
  }

  lemma LastOwnsApart(own: seq<seq<CommitmentInfo>>, variants: nat)
    requires DistinctCommitments(own, variants) && own != []
    ensures AllOwn(own[..|own| - 1]) !! Own(own[|own| - 1])
  {
    var init, last := own[..|own| - 1], own[|own| - 1];
    forall h | h in AllOwn(init) ensures h !in Own(last) {
      AllOwnMember(init, h);
      var n :| 0 <= n < |init| && h in Own(init[n]);
      assert Own(own[n]) !! Own(own[|own| - 1]);
    }
  }

  lemma OneMore(variants: nat, k: nat)
    ensures variants * (k + 1) == variants * k + variants
  {
  }

  /** The bucket of a node holds every commitment of the network exactly once. */
  ghost predicate HoldsAll(own: seq<seq<CommitmentInfo>>, bucket: seq<string>) {
    NoDuplicates(bucket) && Elements(bucket) == AllOwn(own)
  }

  /** Buckets filled in any order and shuffled with the same seed are identical, and complete. */
  lemma BucketsAgree(own: seq<seq<CommitmentInfo>>, variants: nat, a: seq<string>, b: seq<string>, pick: Picks)
    requires ValidPicks(pick) && DistinctCommitments(own, variants) && HoldsAll(own, a) && HoldsAll(own, b)
    ensures SortAndShuffle(a, pick) == SortAndShuffle(b, pick)
    ensures HoldsAll(own, SortAndShuffle(a, pick)) && |SortAndShuffle(a, pick)| == variants * |own|
  {
    SameMultiset(a, b);
    ShuffleForgetsOrder(a, b, pick);
    RearrangedKeepsElements(SortAndShuffle(a, pick), a);
    NoDuplicatesLength(a);
    AllOwnCount(own, variants);
  }

  function NodePositions(own: seq<seq<CommitmentInfo>>, bucket: seq<string>): seq<seq<nat>> {
    seq(|own|, n requires 0 <= n < |own| => PositionsOf(bucket, own[n], |bucket|))
  }

  ghost predicate HasLeader(positions: seq<seq<nat>>, slot: nat) {
    exists n :: 0 <= n < |positions| && slot in positions[n]
  }

  /** Election uniqueness: the position lists of the nodes are pairwise disjoint, cover every slot of the
      bucket, and give every node the same number of slots. */
  lemma EverySlotHasOneLeader(own: seq<seq<CommitmentInfo>>, variants: nat, bucket: seq<string>)
    requires DistinctCommitments(own, variants) && HoldsAll(own, bucket)
    ensures |bucket| == variants * |own|
    ensures Ledger.Disjoint(NodePositions(own, bucket))
    ensures forall x: nat :: x < |bucket| <==> HasLeader(NodePositions(own, bucket), x)
    ensures forall n :: 0 <= n < |own| ==> |NodePositions(own, bucket)[n]| == variants
  {
    var ps := NodePositions(own, bucket);
    NoDuplicatesLength(bucket);
    AllOwnCount(own, variants);
    forall n | 0 <= n < |own|
      ensures |ps[n]| == variants
      ensures forall x: nat :: x in ps[n] <==> x < |bucket| && bucket[x] in Own(own[n])
    {
      PositionsAscend(bucket, own[n], |bucket|);
      forall h | h in Own(own[n]) ensures h in AllOwn(own) {
        AllOwnMember(own, h);
      }
      PositionsCount(bucket, own[n]);
    }
    forall x: nat ensures x < |bucket| <==> HasLeader(ps, x) {
      if x < |bucket| {
        assert bucket[x] in Elements(bucket);
        AllOwnMember(own, bucket[x]);
        var n :| 0 <= n < |own| && bucket[x] in Own(own[n]);
        assert x in ps[n];
      }
    }
  }

  // ---------------------------------------------------------------- leader lookup

  function FindInfo(submitted: seq<CommitmentInfo>, hash: string): Option<CommitmentInfo> {
    if submitted == [] then None
    else if submitted[0].hash == hash then Some(submitted[0])
    else FindInfo(submitted[1..], hash)
  }

  lemma {:induction false} FindInfoExact(submitted: seq<CommitmentInfo>, hash: string)
    ensures FindInfo(submitted, hash).Some? <==> hash in Own(submitted)
    ensures FindInfo(submitted, hash).Some? ==>
              FindInfo(submitted, hash).value in submitted && FindInfo(submitted, hash).value.hash == hash
    ensures forall k :: 0 <= k < |submitted| && submitted[k].hash == hash
                        && (forall j :: 0 <= j < k ==> submitted[j].hash != hash)
              ==> FindInfo(submitted, hash) == Some(submitted[k])
  {
    if submitted != [] {
      FindInfoExact(submitted[1..], hash);
      assert submitted == [submitted[0]] + submitted[1..];
      assert Own(submitted) == {submitted[0].hash} + Own(submitted[1..]);
    }
  }

  /** Every window index that passes the position filter can be served. */
  ghost predicate LookupsSucceed(st: Stage) {
    forall x :: x in st.positions ==> x < |st.bucket| && FindInfo(st.submitted, st.bucket[x]).Some?
  }

  /** Positions and digest are in step with the bucket and the submitted commitments. */
  ghost predicate InSync(c: Setup, st: Stage) {
    st.positions == PositionsOf(st.bucket, st.submitted, |st.bucket|) && st.bucketHash == c.digest(Join(st.bucket))
  }

  lemma InSyncLookupsSucceed(c: Setup, st: Stage)
    requires InSync(c, st)
    ensures LookupsSucceed(st)
  {
    PositionsAscend(st.bucket, st.submitted, |st.bucket|);
    forall x | x in st.positions ensures FindInfo(st.submitted, st.bucket[x]).Some? {
      FindInfoExact(st.submitted, st.bucket[x]);
    }
  }

  // ---------------------------------------------------------------- what equal digests mean

  /** A hexadecimal 256-bit hash. */
  const COMMITMENT_HASH_LEN: nat := 64

  predicate AllHashes(bucket: seq<string>) {
    forall i :: 0 <= i < |bucket| ==> |bucket[i]| == COMMITMENT_HASH_LEN
  }

  /** Hashes of one length can be told apart after joining. */
  lemma {:induction false} JoinIsInjective(a: seq<string>, b: seq<string>)
    requires AllHashes(a) && AllHashes(b) && Join(a) == Join(b)
    ensures a == b
  {
    if a != [] && b != [] {
      assert Join(a)[..COMMITMENT_HASH_LEN] == a[0] && Join(b)[..COMMITMENT_HASH_LEN] == b[0];
      assert Join(a)[COMMITMENT_HASH_LEN..] == Join(a[1..]) && Join(b)[COMMITMENT_HASH_LEN..] == Join(b[1..]);
      JoinIsInjective(a[1..], b[1..]);
    }
  }

  ghost predicate Injective(f: string -> string) {
    forall x, y :: f(x) == f(y) ==> x == y
  }

  /** Two identified generations announce the same digest exactly when they hold the same bucket in the same order. */
  lemma SameDigestIff(c: Setup, a: Stage, b: Stage)
    requires Injective(c.digest) && InSync(c, a) && InSync(c, b) && AllHashes(a.bucket) && AllHashes(b.bucket)
    ensures a.bucketHash == b.bucketHash <==> a.bucket == b.bucket
  {
    if a.bucketHash == b.bucketHash {
      JoinIsInjective(a.bucket, b.bucket);
    }
  }
}
