/** From commitments to leaders: what the running generation of every node looks like once all nodes have
    collected the same commitments (node-implementation/p2p_communication.go). */
module Leadership {
  import opened Buckets
  import opened Election
  import opened Epoch
  import Ledger

  /** The bucket is complete and positions are in step with it. */
  ghost predicate Settled(c: Setup, own: seq<seq<CommitmentInfo>>, st: Stage) {
    HoldsAll(own, st.bucket) && |st.bucket| == c.full && InSync(c, st)
  }

  /** Settled, with the order that the generator `pick` gives every complete bucket. */
  ghost predicate Elected(c: Setup, own: seq<seq<CommitmentInfo>>, pick: Picks, st: Stage)
    requires ValidPicks(pick)
  {
    Settled(c, own, st) && st.bucket == SortAndShuffle(st.bucket, pick)
  }

  /** Shuffling a complete bucket elects; this is the step at the end of an epoch and during initialisation. */
  lemma ReshuffleElects(c: Setup, own: seq<seq<CommitmentInfo>>, st: Stage, fromInit: bool)
    requires ValidSetup(c) && HoldsAll(own, st.bucket) && |st.bucket| == c.full
    ensures Elected(c, own, if fromInit then c.genesisPick else c.keyPick, ReshuffleStage(c, st, fromInit))
  {
    var pick := if fromInit then c.genesisPick else c.keyPick;
    ShuffleForgetsOrder(st.bucket, st.bucket, pick);
    RearrangedKeepsElements(SortAndShuffle(st.bucket, pick), st.bucket);
  }

  // ---------------------------------------------------------------- any order of arrival

  /** What fills a bucket: commitments of other nodes, and this node's own, which nobody can have sent before. */
  datatype Arrival = FromNetwork(info: SharedInfo) | OfThisNode(own: CommitmentInfo, commitment: string)

  function HashOf(a: Arrival): string {
    if a.FromNetwork? then a.info.hash else a.own.hash
  }

  function Arrive(c: Setup, st: Stage, a: Arrival): Stage
    requires ValidSetup(c)
  {
    match a
    case FromNetwork(info) => Receive(st, c.full, info)
    case OfThisNode(own, commitment) => Submit(c, st, own, commitment)
  }

  function ArriveAll(c: Setup, arrivals: seq<Arrival>): Stage
    requires ValidSetup(c)
  {
    if arrivals == [] then EMPTY_STAGE
    else Arrive(c, ArriveAll(c, arrivals[..|arrivals| - 1]), arrivals[|arrivals| - 1])
  }

  function OwnArrivals(arrivals: seq<Arrival>): seq<CommitmentInfo> {
    if arrivals == [] then []
    else
      var last := arrivals[|arrivals| - 1];
      OwnArrivals(arrivals[..|arrivals| - 1]) + if last.OfThisNode? then [last.own] else []
  }

  ghost predicate OwnAreNew(arrivals: seq<Arrival>) {
    forall i, j :: 0 <= i < j < |arrivals| && arrivals[j].OfThisNode? ==> HashOf(arrivals[i]) != HashOf(arrivals[j])
  }

  function HashesIn(arrivals: seq<Arrival>): set<string> {
    set a | a in arrivals :: HashOf(a)
  }

  lemma {:induction false} ArrivalsCollect(c: Setup, arrivals: seq<Arrival>)
    requires ValidSetup(c) && OwnAreNew(arrivals)
    ensures var st := ArriveAll(c, arrivals);
      BucketMatchesMap(st) && Elements(st.bucket) == HashesIn(arrivals) && st.submitted == OwnArrivals(arrivals)
  {
    if arrivals == [] {
    } else {
      var init, last := arrivals[..|arrivals| - 1], arrivals[|arrivals| - 1];
      assert arrivals == init + [last];
      ArrivalsCollect(c, init);
      assert HashesIn(arrivals) == HashesIn(init) + {HashOf(last)};
      if last.OfThisNode? {
        OwnIsNew(init, last);
      }
      hide BucketMatchesMap, Elements, HashesIn, Arrive, ValidSetup, OwnAreNew;
      OneCollected(c, ArriveAll(c, init), last);
    }
  }

  lemma OneCollected(c: Setup, st: Stage, a: Arrival)
    requires ValidSetup(c) && BucketMatchesMap(st)
    requires a.OfThisNode? ==> HashOf(a) !in Elements(st.bucket)
    ensures var st' := Arrive(c, st, a);
      && BucketMatchesMap(st') && Elements(st'.bucket) == Elements(st.bucket) + {HashOf(a)}
      && st'.submitted == st.submitted + if a.OfThisNode? then [a.own] else []
  {
    match a
    case FromNetwork(info) =>
      ReceiveKeepsBucket(st, c.full, info);
      hide BucketMatchesMap, SortStrings, Elements;
    case OfThisNode(own, commitment) =>
      assert own.hash !in st.bucket;
      SubmitKeepsBucket(c, st, own, commitment);
      SubmitExtends(c, st, own, commitment);
      hide Submit, NoDuplicates;
  }

  /** What a commitment is known by. */
  function SharedOf(a: Arrival): SharedInfo {
    if a.FromNetwork? then a.info else SharedInfo(a.own.hash, a.commitment)
  }

  /** The first arrival of hash h is at index i. */
  ghost predicate FirstArrival(arrivals: seq<Arrival>, h: string, i: nat) {
    i < |arrivals| && HashOf(arrivals[i]) == h && forall j :: 0 <= j < i ==> HashOf(arrivals[j]) != h
  }

  lemma OneAdded(c: Setup, st: Stage, a: Arrival)
    requires ValidSetup(c) && BucketMatchesMap(st)
    ensures Arrive(c, st, a).shared == if a.FromNetwork? && HashOf(a) in st.shared then st.shared
                                       else st.shared[HashOf(a) := SharedOf(a)]
  {
    hide SortAndShuffle, PositionsOf, SortStrings, NoDuplicates;
    assert HashOf(a) in st.shared <==> HashOf(a) in Elements(st.bucket);
  }

  /** The map keeps what arrived first under each hash. */
  lemma {:induction false} ArrivalsKeepContents(c: Setup, arrivals: seq<Arrival>, h: string, i: nat)
    requires ValidSetup(c) && OwnAreNew(arrivals) && FirstArrival(arrivals, h, i)
    ensures var shared := ArriveAll(c, arrivals).shared; h in shared && shared[h] == SharedOf(arrivals[i])
  {
    hide Arrive, BucketMatchesMap, Elements, HashesIn;
    var init, last := arrivals[..|arrivals| - 1], arrivals[|arrivals| - 1];
    var before := ArriveAll(c, init);
    ArrivalsCollect(c, init);
    SharedHashes(before);
    OneAdded(c, before, last);
    if i < |init| {
      assert HashOf(last) == h ==> last.FromNetwork?;
      hide OwnAreNew;
      ArrivalsKeepContents(c, init, h, i);
    } else {
      hide OwnAreNew;
      NotAmong(init, h);
    }
  }

  lemma SharedHashes(st: Stage)
    requires BucketMatchesMap(st)
    ensures st.shared.Keys == Elements(st.bucket)
  {
  }

  lemma NotAmong(arrivals: seq<Arrival>, h: string)
    requires forall j :: 0 <= j < |arrivals| ==> HashOf(arrivals[j]) != h
    ensures h !in HashesIn(arrivals)
  {
  }

  lemma SubmitExtends(c: Setup, st: Stage, own: CommitmentInfo, commitment: string)
    requires ValidSetup(c)
    ensures var st' := Submit(c, st, own, commitment);
      && st'.submitted == st.submitted + [own]
      && st'.shared == st.shared[own.hash := SharedInfo(own.hash, commitment)]
  {
    hide SortAndShuffle, PositionsOf;
  }

  lemma OwnIsNew(init: seq<Arrival>, last: Arrival)
    requires OwnAreNew(init + [last]) && last.OfThisNode?
    ensures HashOf(last) !in HashesIn(init)
  {
    forall a | a in init ensures HashOf(a) != HashOf(last) {
      var i :| 0 <= i < |init| && init[i] == a;
      assert (init + [last])[i] == a && (init + [last])[|init|] == last;
    }
  }

  /** Everything arrived at the node that submitted `mine`, in some order. */
  ghost predicate AllArrived(own: seq<seq<CommitmentInfo>>, mine: seq<CommitmentInfo>, arrivals: seq<Arrival>) {
    OwnAreNew(arrivals) && HashesIn(arrivals) == AllOwn(own) && OwnArrivals(arrivals) == mine
  }

  /** The generation of a node after all commitments arrived and the bucket was shuffled. */
  function Collected(c: Setup, arrivals: seq<Arrival>, fromInit: bool): Stage
    requires ValidSetup(c)
  {
    ReshuffleStage(c, ArriveAll(c, arrivals), fromInit)
  }

  lemma CollectedIsElected(c: Setup, own: seq<seq<CommitmentInfo>>, variants: nat, mine: seq<CommitmentInfo>,
                           arrivals: seq<Arrival>, fromInit: bool)
    requires ValidSetup(c) && DistinctCommitments(own, variants) && c.full == variants * |own|
    requires AllArrived(own, mine, arrivals)
    ensures Elected(c, own, if fromInit then c.genesisPick else c.keyPick, Collected(c, arrivals, fromInit))
    ensures Collected(c, arrivals, fromInit).submitted == mine
  {
    var st := ArriveAll(c, arrivals);
    ArrivalsCollect(c, arrivals);
    NoDuplicatesLength(st.bucket);
    AllOwnCount(own, variants);
    ReshuffleElects(c, own, st, fromInit);
  }

  /** Election uniqueness from the ground up: nodes that collect the same commitments, each in an order of its
      own, and shuffle with the same generator hold one bucket, and every slot of it has exactly one leader. */
  lemma AnyOrderElects(c: Setup, own: seq<seq<CommitmentInfo>>, variants: nat, arrivals: seq<seq<Arrival>>,
                       fromInit: bool, stages: seq<Stage>)
    requires ValidSetup(c) && DistinctCommitments(own, variants) && c.full == variants * |own|
    requires |arrivals| == |own| && forall n :: 0 <= n < |own| ==> AllArrived(own, own[n], arrivals[n])
    requires |stages| == |own| && forall n :: 0 <= n < |own| ==> stages[n] == Collected(c, arrivals[n], fromInit)
    ensures forall n, m :: 0 <= n < |own| && 0 <= m < |own| ==> stages[n].bucket == stages[m].bucket
    ensures Ledger.Disjoint(RunPositions(stages))
    ensures forall x: nat :: |own| > 0 ==> (x < c.full <==> HasLeader(RunPositions(stages), x))
    ensures forall n :: 0 <= n < |own| ==> |stages[n].positions| == variants
  {
    hide Collected, AllArrived, SortAndShuffle, HasLeader, Ledger.Disjoint, PositionsOf, HoldsAll;
    var pick := if fromInit then c.genesisPick else c.keyPick;
    forall n | 0 <= n < |own| ensures Elected(c, own, pick, stages[n]) && stages[n].submitted == own[n] {
      CollectedIsElected(c, own, variants, own[n], arrivals[n], fromInit);
    }
    forall n, m | 0 <= n < |own| && 0 <= m < |own| ensures stages[n].bucket == stages[m].bucket {
      BucketsAgree(own, variants, stages[n].bucket, stages[m].bucket, pick);
    }
    if |own| > 0 {
      EverySlotHasOneLeader(own, variants, stages[0].bucket);
      assert RunPositions(stages) == NodePositions(own, stages[0].bucket);
      forall n | 0 <= n < |own| ensures |stages[n].positions| == variants {
        assert NodePositions(own, stages[0].bucket)[n] == stages[n].positions;
      }
    } else {
      NobodyLeads(stages);
    }
  }

  lemma NobodyLeads(stages: seq<Stage>)
    requires stages == []
    ensures Ledger.Disjoint(RunPositions(stages))
  {
  }

  // ---------------------------------------------------------------- the running generation

  /** What a step that neither submits nor completes a check does to the development generation. */
  lemma DevAfterStep(c: Setup, t: Traced, e: Event, t': Traced)
    requires ValidSetup(c) && StepOk(c, t, e, t') && t'.snaps == t.snaps && !e.Submitted?
    ensures var dev, dev' := t.state.dev, t'.state.dev;
      || dev' == dev
      || (e.Received? && dev' == Receive(dev, c.full, e.info))
      || ((e.Reshuffled? || Mismatch(t.state, e)) && dev' == ReshuffleStage(c, dev, e == Reshuffled(true)))
  {
    hide ShuffleStage, Identify, Receive;
    assert |t'.snaps| != |t.snaps| + 1;
  }

  /** Once complete and identified, a generation stays settled until its check completes: commitments of the
      network are all known, reshuffles recompute the positions, and incomplete checks change nothing else. */
  lemma SettledIsStable(c: Setup, own: seq<seq<CommitmentInfo>>, t: Traced, e: Event, t': Traced)
    requires ValidSetup(c) && Settled(c, own, t.state.dev) && StepOk(c, t, e, t') && t'.snaps == t.snaps
    requires e.Received? ==> e.info.hash in AllOwn(own)
    requires !e.Submitted?
    ensures Settled(c, own, t'.state.dev) && t'.state.dev.submitted == t.state.dev.submitted
    ensures Elected(c, own, c.keyPick, t.state.dev) && (e.Reshuffled? ==> !e.fromInit) ==>
              Elected(c, own, c.keyPick, t'.state.dev)
  {
    var st := t.state.dev;
    DevAfterStep(c, t, e, t');
    hide StepOk;
    if e.Received? {
      assert e.info.hash in Elements(st.bucket);
    } else {
      ReshuffleElects(c, own, st, e == Reshuffled(true));
      ReshuffleKeepsSubmitted(c, st, e == Reshuffled(true));
    }
  }

  lemma ReshuffleKeepsSubmitted(c: Setup, st: Stage, fromInit: bool)
    requires ValidSetup(c)
    ensures ReshuffleStage(c, st, fromInit).submitted == st.submitted
  {
  }

  /** Two complete generations have the same bucket exactly when the generators that shuffled them last make the same
      choices; a node that reshuffled with the key does not match one that still has the genesis order. */
  lemma ElectedAgreeIff(c: Setup, own: seq<seq<CommitmentInfo>>, pickA: Picks, pickB: Picks, a: Stage, b: Stage)
    requires ValidPicks(pickA) && ValidPicks(pickB) && Elected(c, own, pickA, a) && Elected(c, own, pickB, b)
    ensures a.bucket == b.bucket <==> SamePicks(pickA, pickB, c.full)
  {
    hide InSync;
    SameMultiset(a.bucket, b.bucket);
    SortedIsUnique(SortStrings(a.bucket), SortStrings(b.bucket));
    SortingKeepsElements(a.bucket);
    SortedLength(a.bucket);
    SameShuffleIff(SortStrings(a.bucket), pickA, pickB);
  }

  // ---------------------------------------------------------------- elections over traces

  /** ts[k + 1] follows from ts[k] by event es[k]. */
  ghost predicate Follows(c: Setup, ts: seq<Traced>, es: seq<Event>)
    requires ValidSetup(c)
  {
    && |ts| == |es| + 1 && ts[0] == Traced(InitialState(), [])
    && forall k :: 0 <= k < |es| ==> StepOk(c, ts[k], es[k], ts[k + 1])
  }

  lemma FollowsIsTrace(c: Setup, ts: seq<Traced>, es: seq<Event>)
    requires ValidSetup(c) && Follows(c, ts, es)
    ensures IsTrace(c, ts)
  {
    hide StepOk;
    forall k | 0 <= k < |ts| - 1 ensures TraceStep(c, ts[k], ts[k + 1]) {
      assert StepOk(c, ts[k], es[k], ts[k + 1]);
    }
  }

  lemma {:induction false} SnapsGrow(c: Setup, ts: seq<Traced>, a: nat, b: nat)
    requires ValidSetup(c) && IsTrace(c, ts) && a <= b < |ts|
    ensures ts[a].snaps <= ts[b].snaps
  {
    hide TraceStep;
    if a < b {
      SnapsGrow(c, ts, a, b - 1);
      assert TraceStep(c, ts[b - 1], ts[b - 1 + 1]);
      TraceStepGrows(c, ts[b - 1], ts[b]);
    }
  }

  /** The generator that a shuffle uses. */
  function PickOf(c: Setup, fromInit: bool): Picks {
    if fromInit then c.genesisPick else c.keyPick
  }

  /** A mismatching hash for the current round makes the node reshuffle with the key. */
  predicate Mismatch(s: EpochState, e: Event) {
    e.Checked? && s.gen == e.round && e.hash != s.dev.bucketHash
  }

  /** Events that shuffle: a call from the schedule or from the initialisation, the own commitment that completes the
      bucket, and a mismatching check. */
  predicate ShufflesWith(c: Setup, s: EpochState, e: Event, fromInit: bool) {
    match e
    case Received(_) => false
    case Submitted(_, _) => !fromInit && |s.dev.bucket| + 1 == c.full
    case Reshuffled(f) => f == fromInit
    case Checked(_, _, _) => !fromInit && Mismatch(s, e)
    case Resumed => false
  }

  /** Messages that leave the order of a complete bucket alone: known commitments, reshuffles with the same generator,
      and checks, which must not mismatch as long as the order is that of the genesis block. */
  predicate IsLate(own: seq<seq<CommitmentInfo>>, s: EpochState, e: Event, fromInit: bool) {
    match e
    case Received(info) => info.hash in AllOwn(own)
    case Submitted(_, _) => false
    case Reshuffled(f) => f == fromInit
    case Checked(_, _, _) => fromInit ==> !Mismatch(s, e)
    case Resumed => true
  }

  /** Step i shuffles a bucket that is complete with it; only late messages follow; the check completes in step j. */
  ghost predicate ElectsAt(c: Setup, own: seq<seq<CommitmentInfo>>, fromInit: bool, ts: seq<Traced>, es: seq<Event>,
                           i: nat, j: nat)
    requires ValidSetup(c)
  {
    && Follows(c, ts, es) && i < j < |es|
    && ShufflesWith(c, ts[i].state, es[i], fromInit)
    && HoldsAll(own, ts[i + 1].state.dev.bucket) && |ts[i + 1].state.dev.bucket| == c.full
    && (forall k :: i < k < j ==> IsLate(own, ts[k].state, es[k], fromInit))
    && |ts[j].snaps| == |ts[i].snaps| && |ts[j + 1].snaps| == |ts[i].snaps| + 1
  }

  lemma SnapsSame(c: Setup, own: seq<seq<CommitmentInfo>>, fromInit: bool, ts: seq<Traced>, es: seq<Event>,
                  i: nat, j: nat, k: nat)
    requires ValidSetup(c) && ElectsAt(c, own, fromInit, ts, es, i, j) && i <= k <= j
    ensures ts[k].snaps == ts[i].snaps
  {
    hide StepOk, IsTrace, HoldsAll;
    FollowsIsTrace(c, ts, es);
    SnapsGrow(c, ts, i, k);
    SnapsGrow(c, ts, k, j);
  }

  lemma {:induction false} StaysElected(c: Setup, own: seq<seq<CommitmentInfo>>, fromInit: bool, ts: seq<Traced>,
                                        es: seq<Event>, i: nat, j: nat, k: nat)
    requires ValidSetup(c) && ElectsAt(c, own, fromInit, ts, es, i, j) && i < k <= j
    ensures Elected(c, own, PickOf(c, fromInit), ts[k].state.dev)
    ensures ts[k].state.dev.submitted == ts[i + 1].state.dev.submitted && ts[k].snaps == ts[i].snaps
  {
    hide Elected, HoldsAll, StepOk, ShufflesWith, IsLate;
    assert StepOk(c, ts[k - 1], es[k - 1], ts[k - 1 + 1]);
    assert i < k - 1 ==> IsLate(own, ts[k - 1].state, es[k - 1], fromInit);
    SnapsSame(c, own, fromInit, ts, es, i, j, k - 1);
    SnapsSame(c, own, fromInit, ts, es, i, j, k);
    if k == i + 1 {
      ShuffleElects(c, own, fromInit, ts[i], es[i], ts[k]);
    } else {
      StaysElected(c, own, fromInit, ts, es, i, j, k - 1);
      LateKeepsElected(c, own, fromInit, ts[k - 1], es[k - 1], ts[k]);
    }
  }

  /** A generation that ends complete with a shuffle is elected with the generator of that shuffle. */
  lemma ShuffledIsElected(c: Setup, own: seq<seq<CommitmentInfo>>, st: Stage, fromInit: bool)
    requires ValidSetup(c)
    requires var st' := ReshuffleStage(c, st, fromInit); HoldsAll(own, st'.bucket) && |st'.bucket| == c.full
    ensures Elected(c, own, PickOf(c, fromInit), ReshuffleStage(c, st, fromInit))
  {
    hide HoldsAll;
    ShuffleForgetsOrder(st.bucket, st.bucket, PickOf(c, fromInit));
  }

  lemma ShuffleElects(c: Setup, own: seq<seq<CommitmentInfo>>, fromInit: bool, t: Traced, e: Event, t': Traced)
    requires ValidSetup(c) && StepOk(c, t, e, t') && ShufflesWith(c, t.state, e, fromInit)
    requires HoldsAll(own, t'.state.dev.bucket) && |t'.state.dev.bucket| == c.full
    ensures Elected(c, own, PickOf(c, fromInit), t'.state.dev)
  {
    hide Elected, HoldsAll, SortAndShuffle, PositionsOf;
    var dev := t.state.dev;
    match e
    case Submitted(info, commitment) =>
      var st := dev.(submitted := dev.submitted + [info],
                     shared := dev.shared[info.hash := SharedInfo(info.hash, commitment)],
                     bucket := dev.bucket + [info.hash]);
      assert t'.state.dev == ReshuffleStage(c, st, false);
      ShuffledIsElected(c, own, st, false);
    case Reshuffled(f) => ShuffledIsElected(c, own, dev, f);
    case Checked(_, _, _) => ShuffledIsElected(c, own, dev, false);
  }

  /** Late messages keep a generation elected. */
  lemma LateKeepsElected(c: Setup, own: seq<seq<CommitmentInfo>>, fromInit: bool, t: Traced, e: Event, t': Traced)
    requires ValidSetup(c) && StepOk(c, t, e, t') && t'.snaps == t.snaps
    requires Elected(c, own, PickOf(c, fromInit), t.state.dev) && IsLate(own, t.state, e, fromInit)
    ensures Elected(c, own, PickOf(c, fromInit), t'.state.dev)
    ensures t'.state.dev.submitted == t.state.dev.submitted
  {
    var st := t.state.dev;
    DevAfterStep(c, t, e, t');
    hide StepOk;
    if e.Received? {
      assert e.info.hash in Elements(st.bucket);
    } else if t'.state.dev != st {
      ReshuffleElects(c, own, st, e == Reshuffled(true));
      ReshuffleKeepsSubmitted(c, st, e == Reshuffled(true));
    }
  }

  /** The snapshot that the completed check takes is elected. */
  lemma CheckedIsElected(c: Setup, own: seq<seq<CommitmentInfo>>, fromInit: bool, ts: seq<Traced>, es: seq<Event>,
                         i: nat, j: nat)
    requires ValidSetup(c) && ElectsAt(c, own, fromInit, ts, es, i, j)
    ensures var snap := ts[j].state.dev;
      && ts[j + 1].snaps == ts[i].snaps + [snap] && Elected(c, own, PickOf(c, fromInit), snap)
      && snap.submitted == ts[i + 1].state.dev.submitted
  {
    StaysElected(c, own, fromInit, ts, es, i, j, j);
    hide Elected, HoldsAll, ShufflesWith, IsLate;
    assert StepOk(c, ts[j], es[j], ts[j + 1]);
    StepTakesDev(c, ts[j], es[j], ts[j + 1]);
  }

  lemma StepTakesDev(c: Setup, t: Traced, e: Event, t': Traced)
    requires ValidSetup(c) && StepOk(c, t, e, t') && |t'.snaps| != |t.snaps|
    ensures t'.snaps == t.snaps + [t.state.dev]
  {
    hide BucketCheck;
  }

  /** The running generation is the one checked two epochs ago, lookups included. */
  lemma LeaderLookupNeverFails(c: Setup, t: Traced)
    requires Pipeline(t) && |t.snaps| >= 2 && InSync(c, t.snaps[|t.snaps| - 2])
    ensures LookupsSucceed(t.state.run)
    ensures forall x :: x in t.state.run.positions ==>
              x < |t.state.run.bucket| && t.state.run.bucket[x] in t.state.run.shared
  {
    var snap, run := t.snaps[|t.snaps| - 2], t.state.run;
    assert WithoutMap(run) == WithoutMap(snap);
    assert run.bucket == snap.bucket && run.submitted == snap.submitted && run.positions == snap.positions;
    InSyncLookupsSucceed(c, run);
    forall x | x in run.positions ensures x < |run.bucket| && run.bucket[x] in run.shared {
      assert run.bucket[x] in Elements(snap.bucket);
    }
  }

  /** A running generation that stems from an election over `own`, submitted commitments `mine`. */
  ghost predicate RunsElection(own: seq<seq<CommitmentInfo>>, pick: Picks, mine: seq<CommitmentInfo>, run: Stage)
    requires ValidPicks(pick)
  {
    && LookupsSucceed(run) && HoldsAll(own, run.bucket)
    && run.positions == PositionsOf(run.bucket, mine, |run.bucket|)
    && run.bucket == SortAndShuffle(run.bucket, pick)
    && Elements(run.bucket) <= run.shared.Keys
    && forall h :: h in run.bucket ==> run.shared[h].hash == h
  }

  lemma RunningIsElected(c: Setup, own: seq<seq<CommitmentInfo>>, pick: Picks, t: Traced, mine: seq<CommitmentInfo>)
    requires ValidPicks(pick) && Pipeline(t) && |t.snaps| >= 2
    requires Elected(c, own, pick, t.snaps[|t.snaps| - 2]) && t.snaps[|t.snaps| - 2].submitted == mine
    ensures RunsElection(own, pick, mine, t.state.run)
  {
    LeaderLookupNeverFails(c, t);
    var snap, run := t.snaps[|t.snaps| - 2], t.state.run;
    assert WithoutMap(run) == WithoutMap(snap);
    assert run.bucket == snap.bucket && run.submitted == snap.submitted && run.positions == snap.positions;
  }

  /** Every node completed its check of two epochs ago with an elected generation. */
  ghost predicate NodesElected(c: Setup, own: seq<seq<CommitmentInfo>>, pick: Picks, nodes: seq<Traced>)
    requires ValidPicks(pick)
  {
    && |nodes| == |own|
    && forall n :: 0 <= n < |nodes| ==>
         && Pipeline(nodes[n]) && |nodes[n].snaps| >= 2
         && (var snap := nodes[n].snaps[|nodes[n].snaps| - 2];
             Elected(c, own, pick, snap) && snap.submitted == own[n])
  }

  /** A node's history: its trace, where it elected, where the check completed, and where it stands now, one further
      check later. */
  datatype NodeRun = NodeRun(ts: seq<Traced>, es: seq<Event>, i: nat, j: nat, now: nat)

  ghost predicate RanElection(c: Setup, own: seq<seq<CommitmentInfo>>, fromInit: bool, mine: seq<CommitmentInfo>,
                              r: NodeRun)
    requires ValidSetup(c)
  {
    && ElectsAt(c, own, fromInit, r.ts, r.es, r.i, r.j) && r.j < r.now < |r.ts|
    && r.ts[r.i + 1].state.dev.submitted == mine
    && |r.ts[r.now].snaps| == |r.ts[r.i].snaps| + 2 <= ROUND_LIMIT
  }

  /** Two completed checks after its last change of order, a generation of complete buckets is running. */
  lemma RanElectionRuns(c: Setup, own: seq<seq<CommitmentInfo>>, fromInit: bool, mine: seq<CommitmentInfo>, r: NodeRun)
    requires ValidSetup(c) && RanElection(c, own, fromInit, mine, r)
    ensures var t := r.ts[r.now];
      && Pipeline(t) && |t.snaps| >= 2
      && Elected(c, own, PickOf(c, fromInit), t.snaps[|t.snaps| - 2]) && t.snaps[|t.snaps| - 2].submitted == mine
      && RunsElection(own, PickOf(c, fromInit), mine, t.state.run)
  {
    hide IsTrace, Pipeline, Elected, RunsElection, HoldsAll, StepOk, ChecksOpen;
    CheckedIsElected(c, own, fromInit, r.ts, r.es, r.i, r.j);
    FollowsIsTrace(c, r.ts, r.es);
    hide ElectsAt, Follows;
    SnapsGrow(c, r.ts, r.j + 1, r.now);
    EveryStateInPipeline(c, r.ts, r.now);
    RunningIsElected(c, own, PickOf(c, fromInit), r.ts[r.now], mine);
  }

  /** Elections need no further hypothesis than the histories of the nodes. */
  lemma RunsElectNodes(c: Setup, own: seq<seq<CommitmentInfo>>, fromInit: bool, runs: seq<NodeRun>, nodes: seq<Traced>)
    requires ValidSetup(c) && |runs| == |nodes| == |own|
    requires forall n :: 0 <= n < |own| ==>
               RanElection(c, own, fromInit, own[n], runs[n]) && nodes[n] == runs[n].ts[runs[n].now]
    ensures NodesElected(c, own, PickOf(c, fromInit), nodes)
  {
    hide RanElection, Pipeline, Elected, RunsElection;
    forall n | 0 <= n < |own|
      ensures Pipeline(nodes[n]) && |nodes[n].snaps| >= 2
      ensures var snap := nodes[n].snaps[|nodes[n].snaps| - 2];
        Elected(c, own, PickOf(c, fromInit), snap) && snap.submitted == own[n]
    {
      RanElectionRuns(c, own, fromInit, own[n], runs[n]);
    }
  }

  function Runs(nodes: seq<Traced>): seq<Stage> {
    seq(|nodes|, n requires 0 <= n < |nodes| => nodes[n].state.run)
  }

  function RunPositions(runs: seq<Stage>): seq<seq<nat>> {
    seq(|runs|, n requires 0 <= n < |runs| => runs[n].positions)
  }

  /** One bucket at all nodes, one leader for each of its slots, equally many slots for each node. */
  lemma EveryNodeAgreesOnLeaders(c: Setup, own: seq<seq<CommitmentInfo>>, variants: nat, pick: Picks,
                                 nodes: seq<Traced>, bucket: seq<string>)
    requires ValidPicks(pick) && DistinctCommitments(own, variants) && NodesElected(c, own, pick, nodes)
    requires |nodes| > 0 && bucket == nodes[0].state.run.bucket
    ensures forall n :: 0 <= n < |nodes| ==> nodes[n].state.run.bucket == bucket
    ensures |bucket| == variants * |nodes|
    ensures Ledger.Disjoint(RunPositions(Runs(nodes)))
    ensures forall x: nat :: x < |bucket| <==> HasLeader(RunPositions(Runs(nodes)), x)
    ensures forall n :: 0 <= n < |nodes| ==> |nodes[n].state.run.positions| == variants
  {
    hide Pipeline, Elected, HoldsAll, LookupsSucceed, SortAndShuffle, HasLeader, Ledger.Disjoint, PositionsOf;
    forall n | 0 <= n < |nodes| ensures RunsElection(own, pick, own[n], nodes[n].state.run) {
      RunningIsElected(c, own, pick, nodes[n], own[n]);
    }
    forall n | 0 <= n < |nodes| ensures nodes[n].state.run.bucket == bucket {
      BucketsAgree(own, variants, nodes[n].state.run.bucket, bucket, pick);
    }
    EverySlotHasOneLeader(own, variants, bucket);
    assert RunPositions(Runs(nodes)) == NodePositions(own, bucket);
    forall n | 0 <= n < |nodes| ensures |nodes[n].state.run.positions| == variants {
      assert NodePositions(own, bucket)[n] == nodes[n].state.run.positions;
    }
  }

  /** A leader finds the secret of every slot it leads, and every other node knows the slot's commitment. */
  lemma LeadersAreRecognised(c: Setup, own: seq<seq<CommitmentInfo>>, variants: nat, pick: Picks,
                             nodes: seq<Traced>, n: nat, m: nat, x: nat)
    requires ValidPicks(pick) && DistinctCommitments(own, variants) && NodesElected(c, own, pick, nodes)
    requires n < |nodes| && m < |nodes| && x in nodes[n].state.run.positions
    ensures var run := nodes[n].state.run;
      && x < |run.bucket| && FindInfo(run.submitted, run.bucket[x]).Some?
      && run.bucket[x] in nodes[m].state.run.shared && nodes[m].state.run.shared[run.bucket[x]].hash == run.bucket[x]
  {
    hide Pipeline, Elected, SortAndShuffle, PositionsOf;
    RunningIsElected(c, own, pick, nodes[n], own[n]);
    RunningIsElected(c, own, pick, nodes[m], own[m]);
    assert nodes[n].state.run.bucket[x] in Elements(nodes[n].state.run.bucket);
  }
}
