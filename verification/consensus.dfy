/** What completing a bucket check means (node-implementation/p2p_communication.go): which checks complete a round, and
    why two nodes that complete theirs hold one bucket. */
module Consensus {
  import Utils
  import opened Buckets
  import opened Election
  import opened Epoch
  import opened Leadership
  import Ledger

  // ---------------------------------------------------------------- the checks of a round

  /** Hashes of the checks that were recorded in the steps from a to b. */
  function Recorded(ts: seq<Traced>, es: seq<Event>, a: nat, b: nat): seq<string>
    requires a <= b <= |es| < |ts|
    decreases b
  {
    if a == b then []
    else
      var e, s := es[b - 1], ts[b - 1].state;
      Recorded(ts, es, a, b - 1) + if e.Checked? && Counts(s, e.hash, e.length, e.round) then [e.hash] else []
  }

  /** The round of checks begins with step a. */
  ghost predicate Begins(ts: seq<Traced>, a: nat) {
    a < |ts| && (a == 0 || |ts[a].snaps| > |ts[a - 1].snaps|)
  }

  /** Until a generation is passed on to ready, exactly the checks that count are recorded. */
  lemma StepRecords(c: Setup, t: Traced, e: Event, t': Traced)
    requires ValidSetup(c) && ChecksOpen(c, t) && StepOk(c, t, e, t') && t'.snaps == t.snaps
    ensures t'.state.checks == t.state.checks
              + if e.Checked? && Counts(t.state, e.hash, e.length, e.round) then [e.hash] else []
  {
    hide ShuffleStage, Identify, Receive, Submit, Utils.Count;
  }

  lemma {:induction false} ChecksAreRecorded(c: Setup, ts: seq<Traced>, es: seq<Event>, a: nat, b: nat)
    requires ValidSetup(c) && Follows(c, ts, es) && a <= b < |ts| && |ts[b].snaps| <= ROUND_LIMIT
    requires Begins(ts, a) && ts[a].snaps == ts[b].snaps
    ensures ts[b].state.checks == Recorded(ts, es, a, b)
  {
    hide StepOk, Pipeline, ChecksOpen, IsTrace, Counts, InitialState;
    if a < b {
      FollowsIsTrace(c, ts, es);
      SnapsGrow(c, ts, a, b - 1);
      SnapsGrow(c, ts, b - 1, b);
      FollowsStep(c, ts, es, b - 1);
      hide Follows;
      ChecksAreRecorded(c, ts, es, a, b - 1);
      StepRecords(c, ts[b - 1], es[b - 1], ts[b]);
    } else {
      BeginsEmpty(c, ts, es, a);
    }
  }

  lemma FollowsStep(c: Setup, ts: seq<Traced>, es: seq<Event>, k: nat)
    requires ValidSetup(c) && Follows(c, ts, es) && k < |es| && |ts[k].snaps| <= ROUND_LIMIT
    ensures ChecksOpen(c, ts[k]) && StepOk(c, ts[k], es[k], ts[k + 1])
  {
    FollowsIsTrace(c, ts, es);
    EveryStateInPipeline(c, ts, k);
    hide StepOk, Pipeline, ChecksOpen, IsTrace;
  }

  lemma BeginsEmpty(c: Setup, ts: seq<Traced>, es: seq<Event>, a: nat)
    requires ValidSetup(c) && Follows(c, ts, es) && Begins(ts, a) && |ts[a].snaps| <= ROUND_LIMIT
    ensures ts[a].state.checks == []
  {
    hide StepOk, ChecksOpen;
    if a > 0 {
      FollowsStep(c, ts, es, a - 1);
      PromotionStartsAfresh(c, ts[a - 1], es[a - 1], ts[a]);
    }
  }

  /** Over a whole round: the generation is passed on exactly when as many checks as there are other nodes have counted
      since the round began, and at least half of them carry the digest of the own bucket. */
  lemma RoundCompletesIff(c: Setup, ts: seq<Traced>, es: seq<Event>, a: nat, b: nat,
                          hash: string, length: nat, round: nat)
    requires ValidSetup(c) && Follows(c, ts, es) && a <= b < |ts| && |ts[b].snaps| <= ROUND_LIMIT
    requires Begins(ts, a) && ts[a].snaps == ts[b].snaps
    ensures var s, heard := ts[b].state, Recorded(ts, es, a, b) + [hash];
      (exists t' :: StepOk(c, ts[b], Checked(hash, length, round), t') && Promotes(ts[b], t')) <==>
        Counts(s, hash, length, round) && |heard| == c.others && 2 * multiset(heard)[s.dev.bucketHash] >= c.others
  {
    FollowsIsTrace(c, ts, es);
    ChecksAreRecorded(c, ts, es, a, b);
    EveryStateInPipeline(c, ts, b);
    CheckPromotesIff(c, ts[b], hash, length, round);
    hide StepOk, Follows, IsTrace, Pipeline, ChecksOpen;
  }

  // ---------------------------------------------------------------- two completions agree

  function Digests(stages: seq<Stage>): (r: seq<string>)
    ensures |r| == |stages|
  {
    seq(|stages|, n requires 0 <= n < |stages| => stages[n].bucketHash)
  }

  /** Node n, in state t, has recorded one check from every other node, each with the digest of the bucket that the
      sender holds, and the last one completes its round. */
  ghost predicate CompletesWith(c: Setup, stages: seq<Stage>, n: nat, t: Traced, e: Event, t': Traced)
    requires ValidSetup(c)
  {
    && n < |stages| && t.state.dev == stages[n] && ChecksOpen(c, t)
    && e.Checked? && StepOk(c, t, e, t') && Promotes(t, t')
    && multiset(t.state.checks + [e.hash]) + multiset{stages[n].bucketHash} == multiset(Digests(stages))
  }

  function BucketsOf(stages: seq<Stage>): (r: seq<seq<string>>)
    ensures |r| == |stages|
  {
    seq(|stages|, n requires 0 <= n < |stages| => stages[n].bucket)
  }

  /** Equal digests are counted exactly where buckets are equal. */
  lemma {:induction false} SameCounts(c: Setup, stages: seq<Stage>, st: Stage)
    requires Injective(c.digest) && InSync(c, st) && AllHashes(st.bucket)
    requires forall k :: 0 <= k < |stages| ==> InSync(c, stages[k]) && AllHashes(stages[k].bucket)
    ensures multiset(Digests(stages))[st.bucketHash] == multiset(BucketsOf(stages))[st.bucket]
  {
    hide InSync, AllHashes;
    if stages != [] {
      var init, last := stages[..|stages| - 1], stages[|stages| - 1];
      SameCounts(c, init, st);
      SameDigestIff(c, last, st);
      assert Digests(stages) == Digests(init) + [last.bucketHash];
      assert BucketsOf(stages) == BucketsOf(init) + [last.bucket];
    }
  }

  /** When the last of one check from every other node arrives, the generation is passed on exactly if more than half of
      all nodes hold the own bucket in the own order. */
  lemma CompletesIffMajority(c: Setup, stages: seq<Stage>, n: nat, t: Traced, hash: string, length: nat, round: nat)
    requires ValidSetup(c) && Injective(c.digest) && ChecksOpen(c, t)
    requires forall k :: 0 <= k < |stages| ==> InSync(c, stages[k]) && AllHashes(stages[k].bucket)
    requires n < |stages| == c.others + 1 && t.state.dev == stages[n] && Counts(t.state, hash, length, round)
    requires multiset(t.state.checks + [hash]) + multiset{stages[n].bucketHash} == multiset(Digests(stages))
    ensures (exists t' :: StepOk(c, t, Checked(hash, length, round), t') && Promotes(t, t')) <==>
              2 * multiset(BucketsOf(stages))[stages[n].bucket] > |stages|
  {
    CheckPromotesIff(c, t, hash, length, round);
    SameCounts(c, stages, stages[n]);
    assert |multiset(Digests(stages))| == |stages|;
    assert |multiset(t.state.checks + [hash])| == |t.state.checks| + 1;
    hide StepOk, InSync;
  }

  /** More than half of all nodes hold the digest of a node that completes. */
  lemma CompletionIsMajority(c: Setup, stages: seq<Stage>, n: nat, t: Traced, e: Event, t': Traced)
    requires ValidSetup(c) && CompletesWith(c, stages, n, t, e, t')
    ensures 2 * multiset(Digests(stages))[stages[n].bucketHash] > |stages|
  {
    CheckPromotesIff(c, t, e.hash, e.length, e.round);
    assert |multiset(Digests(stages))| == |stages|;
    assert |multiset(t.state.checks + [e.hash])| == |t.state.checks| + 1;
    hide StepOk;
  }

  lemma TwoMajorities(list: seq<string>, x: string, y: string)
    requires 2 * multiset(list)[x] > |list| && 2 * multiset(list)[y] > |list|
    ensures x == y
  {
    if x != y {
      BothFit(multiset(list), x, y);
    }
  }

  lemma BothFit(all: multiset<string>, x: string, y: string)
    requires x != y
    ensures all[x] + all[y] <= |all|
  {
    assert |all| == |all[x := 0][y := 0]| + all[x] + all[y];
  }

  /** Agreement: any two nodes that complete a round of one check from each other node hold the same bucket in the same
      order, whatever seeds they shuffled with and whatever the rest does. */
  lemma TwoCompletionsAgree(c: Setup, stages: seq<Stage>, n: nat, t: Traced, e: Event, t': Traced,
                            m: nat, u: Traced, f: Event, u': Traced)
    requires ValidSetup(c) && Injective(c.digest)
    requires forall k :: 0 <= k < |stages| ==> InSync(c, stages[k]) && AllHashes(stages[k].bucket)
    requires CompletesWith(c, stages, n, t, e, t') && CompletesWith(c, stages, m, u, f, u')
    ensures stages[n].bucket == stages[m].bucket
  {
    CompletionIsMajority(c, stages, n, t, e, t');
    CompletionIsMajority(c, stages, m, u, f, u');
    TwoMajorities(Digests(stages), stages[n].bucketHash, stages[m].bucketHash);
    SameDigestIff(c, stages[n], stages[m]);
  }

  /** So if every node completes its round, with whatever seed, on all commitments of the network, every slot has one
      leader. */
  lemma CompletionsElect(c: Setup, own: seq<seq<CommitmentInfo>>, variants: nat, stages: seq<Stage>,
                         ts: seq<Traced>, es: seq<Event>, us: seq<Traced>)
    requires ValidSetup(c) && Injective(c.digest) && DistinctCommitments(own, variants)
    requires |stages| == |ts| == |es| == |us| == |own| > 0
    requires forall n :: 0 <= n < |own| ==>
               && CompletesWith(c, stages, n, ts[n], es[n], us[n])
               && Settled(c, own, stages[n]) && stages[n].submitted == own[n] && AllHashes(stages[n].bucket)
    ensures forall n :: 0 <= n < |own| ==> stages[n].bucket == stages[0].bucket
    ensures Ledger.Disjoint(RunPositions(stages)) && |stages[0].bucket| == variants * |own|
    ensures forall x: nat :: x < |stages[0].bucket| <==> HasLeader(RunPositions(stages), x)
  {
    hide CompletesWith, HasLeader, Ledger.Disjoint, PositionsOf, HoldsAll, AllHashes;
    forall n | 0 <= n < |own| ensures stages[n].bucket == stages[0].bucket {
      TwoCompletionsAgree(c, stages, n, ts[n], es[n], us[n], 0, ts[0], es[0], us[0]);
    }
    EverySlotHasOneLeader(own, variants, stages[0].bucket);
    assert RunPositions(stages) == NodePositions(own, stages[0].bucket);
  }

  // ---------------------------------------------------------------- the second try

  /** What a node sends after a check: a mismatch for the current round announces the reshuffled bucket, the completed
      check of round 0 starts round 1, that of round 1 sleeps. */
  lemma ReactionIff(c: Setup, t: Traced, hash: string, length: nat, round: nat, t': Traced)
    requires ValidSetup(c) && ChecksOpen(c, t) && StepOk(c, t, Checked(hash, length, round), t')
    ensures var r, s, s' := React(c, t.state, hash, length, round), t.state, t'.state;
      && (r.Announce? <==> Mismatch(s, Checked(hash, length, round)))
      && (r.Announce? ==>
            (r.hash, r.round, r.length) == (s'.dev.bucketHash, s'.gen, |s'.dev.bucket|) && s'.gen == s.gen)
      && (r.NextCommitments? <==> Promotes(t, t') && s.gen == 0)
      && (r.NextCommitments? ==> r.round == s'.gen == 1)
      && (r.Pause? <==> Promotes(t, t') && s.gen == 1)
      && (r.Pause? <==> s'.midway && !s.midway)
  {
    hide ShuffleStage, Identify, Utils.Count;
  }

  /** An announced bucket is complete and in the order of the shuffle key if it was complete. */
  lemma AnnouncedIsElected(c: Setup, own: seq<seq<CommitmentInfo>>, t: Traced, hash: string, length: nat, round: nat,
                           t': Traced)
    requires ValidSetup(c) && ChecksOpen(c, t) && StepOk(c, t, Checked(hash, length, round), t')
    requires React(c, t.state, hash, length, round).Announce?
    requires HoldsAll(own, t.state.dev.bucket) && |t.state.dev.bucket| == c.full
    ensures Elected(c, own, c.keyPick, t'.state.dev)
  {
    ReactionIff(c, t, hash, length, round, t');
    OtherCheckEffect(c, t, hash, length, round, t');
    ReshuffleElects(c, own, t.state.dev, false);
    hide StepOk;
  }

  /** The second try repairs: when node u, in the same round and with all commitments, reads the announcement that node
      t made, it either counts it or ends with the bucket of t. */
  lemma SecondTryRepairs(c: Setup, own: seq<seq<CommitmentInfo>>, variants: nat, t: Traced, hash: string, length: nat,
                         round: nat, t': Traced, u: Traced, u': Traced)
    requires ValidSetup(c) && ChecksOpen(c, t) && StepOk(c, t, Checked(hash, length, round), t')
    requires DistinctCommitments(own, variants)
    requires HoldsAll(own, t.state.dev.bucket) && |t.state.dev.bucket| == c.full
    requires HoldsAll(own, u.state.dev.bucket) && |u.state.dev.bucket| == c.full
    requires ChecksOpen(c, u) && u.state.gen == t.state.gen
    requires var r := React(c, t.state, hash, length, round);
      r.Announce? && StepOk(c, u, Checked(r.hash, r.length, r.round), u')
    ensures var r := React(c, t.state, hash, length, round);
      || (u.state.dev.bucketHash == r.hash && Counts(u.state, r.hash, r.length, r.round))
      || (u'.state.dev.bucket == t'.state.dev.bucket && u'.state.dev.bucketHash == r.hash)
  {
    var r := React(c, t.state, hash, length, round);
    ReactionIff(c, t, hash, length, round, t');
    AnnouncedIsElected(c, own, t, hash, length, round, t');
    hide React, StepOk, SortAndShuffle, HoldsAll;
    if u.state.dev.bucketHash != r.hash {
      ReactionIff(c, u, r.hash, r.length, r.round, u');
      AnnouncedIsElected(c, own, u, r.hash, r.length, r.round, u');
      BucketsAgree(own, variants, u'.state.dev.bucket, t'.state.dev.bucket, c.keyPick);
    }
  }

  // ---------------------------------------------------------------- before the bucket is complete

  /** Until it is complete, a bucket that was not shuffled for the initialisation only grows at its end: key shuffles
      leave the order of arrival alone. */
  lemma IncompleteBucketGrows(c: Setup, t: Traced, e: Event, t': Traced)
    requires ValidSetup(c) && StepOk(c, t, e, t') && t'.snaps == t.snaps
    requires |t'.state.dev.bucket| != c.full && e != Reshuffled(true)
    ensures t.state.dev.bucket <= t'.state.dev.bucket
    ensures |t'.state.dev.bucket| <= |t.state.dev.bucket| + 1
  {
    var dev := t.state.dev;
    if e.Submitted? {
      SubmittedGrows(c, dev, e.own, e.commitment);
    } else {
      DevAfterStep(c, t, e, t');
      SortedLength(dev.bucket + if e.Received? then [e.info.hash] else []);
      ReshuffledLength(c, dev);
    }
    hide StepOk, ReshuffleStage, Submit, SortStrings;
  }

  lemma ReshuffledLength(c: Setup, st: Stage)
    requires ValidSetup(c)
    ensures var bucket := ReshuffleStage(c, st, false).bucket;
      |bucket| == |st.bucket| && (|bucket| != c.full ==> bucket == st.bucket)
  {
    ShuffleLength(st.bucket, c.keyPick);
    hide SortAndShuffle;
  }

  lemma SubmittedGrows(c: Setup, st: Stage, own: CommitmentInfo, commitment: string)
    requires ValidSetup(c)
    ensures var bucket := Submit(c, st, own, commitment).bucket;
      |bucket| == |st.bucket| + 1 && (|bucket| != c.full ==> bucket == st.bucket + [own.hash])
  {
    ShuffleLength(st.bucket + [own.hash], c.keyPick);
    hide SortAndShuffle;
  }

  lemma ShuffleLength(bucket: seq<string>, pick: Picks)
    requires ValidPicks(pick)
    ensures |SortAndShuffle(bucket, pick)| == |bucket|
  {
    assert |multiset(SortAndShuffle(bucket, pick))| == |multiset(bucket)|;
  }
}
