/** The dev -> ready -> running pipeline of commitment generations (node-implementation/p2p_communication.go):
    its transitions, the class that performs them, and what every run keeps. */
module Epoch {
  import opened Types
  import opened Buckets
  import opened Election
  import opened Utils

  const ROUND_LIMIT: nat := 0x1_0000_0000

  /** `gen`, `readyRound` and `runRound` are 32-bit counters. `midway`: the handler that completed the check of round
      1 sleeps between its two promotions. */
  datatype EpochState = EpochState(
    dev: Stage, ready: Stage, run: Stage,
    gen: nat, readyRound: nat, runRound: nat,
    checks: seq<string>, midway: bool)

  function InitialState(): EpochState {
    EpochState(EMPTY_STAGE, EMPTY_STAGE, EMPTY_STAGE, 0, 0, 0, [], false)
  }

  /** maps.Copy only adds to the ready map; the other variables are replaced. */
  function PassToEpochReady(s: EpochState): EpochState {
    EpochState(EMPTY_STAGE, s.dev.(shared := s.ready.shared + s.dev.shared), s.run,
               (s.gen + 1) % ROUND_LIMIT, s.gen, s.runRound, [], s.midway)
  }

  /** The running map is copied into and never cleared. */
  function PassToEpochRunning(s: EpochState): EpochState {
    s.(run := s.ready.(shared := s.run.shared + s.ready.shared), runRound := s.readyRound, ready := EMPTY_STAGE)
  }

  /** Completion of a bucket check, by the number of the generating round; in round 1 only the first promotion. */
  function Advance(s: EpochState): EpochState {
    if s.gen == 0 then PassToEpochReady(s)
    else if s.gen == 1 then PassToEpochRunning(s).(midway := true)
    else PassToEpochReady(PassToEpochRunning(s))
  }

  /** The second promotion of round 1. */
  function Resume(s: EpochState): EpochState {
    PassToEpochReady(s).(midway := false)
  }

  datatype Check = Waits(state: EpochState) | Completes(state: EpochState) | Aborts

  /** BCHAIN_BUCKET_CHECK: a mismatch for the current round reshuffles, a length mismatch is dropped, the last
      expected hash completes the check. With under half of the hashes matching, the process dies on a second
      unlock of the same mutex. */
  function BucketCheck(c: Setup, s: EpochState, hash: string, length: nat, round: nat): Check
    requires ValidSetup(c)
  {
    if s.gen == round && hash != s.dev.bucketHash then Waits(s.(dev := Identify(c, ShuffleStage(c, s.dev, false))))
    else if length != |s.dev.bucket| then Waits(s)
    else
      var checks := s.checks + [hash];
      if |checks| != c.others then Waits(s.(checks := checks))
      else if 2 * Count(checks, s.dev.bucketHash) < c.others then Aborts
      else Completes(Advance(s.(checks := checks)))
  }

  /** What the node does next: broadcast its bucket again, trigger the next commitments, or sleep before the second
      promotion of round 1. */
  datatype Reaction =
    | Quiet
    | Announce(hash: string, round: nat, length: nat)
    | NextCommitments(round: nat)
    | Pause

  function React(c: Setup, s: EpochState, hash: string, length: nat, round: nat): Reaction
    requires ValidSetup(c)
  {
    match BucketCheck(c, s, hash, length, round)
    case Waits(s') =>
      if s.gen == round && hash != s.dev.bucketHash then Announce(s'.dev.bucketHash, s.gen, |s'.dev.bucket|) else Quiet
    case Completes(s') => if s.gen == 0 then NextCommitments(s'.gen) else if s.gen == 1 then Pause else Quiet
    case Aborts => Quiet
  }

  datatype Event =
    | Received(info: SharedInfo)
    | Submitted(own: CommitmentInfo, commitment: string)
    | Reshuffled(fromInit: bool)
    | Checked(hash: string, length: nat, round: nat)
    | Resumed

  function ReshuffleStage(c: Setup, st: Stage, fromInit: bool): Stage
    requires ValidSetup(c)
  {
    Identify(c, ShuffleStage(c, st, fromInit))
  }

  // ---------------------------------------------------------------- the node

  class CommitmentNode {
    const setup: Setup
    var dev: Stage
    var ready: Stage
    var run: Stage
    var commitmentGenEpochRound: nat
    var readyEpochRound: nat
    var runEpochRound: nat
    var bucketHashesCheck: seq<string>
    var midway: bool

    function State(): EpochState
      reads this
    {
      EpochState(dev, ready, run, commitmentGenEpochRound, readyEpochRound, runEpochRound, bucketHashesCheck, midway)
    }

    constructor (setup: Setup)
      ensures this.setup == setup && State() == InitialState()
    {
      this.setup := setup;
      dev, ready, run := EMPTY_STAGE, EMPTY_STAGE, EMPTY_STAGE;
      commitmentGenEpochRound, readyEpochRound, runEpochRound := 0, 0, 0;
      bucketHashesCheck, midway := [], false;
    }

    method ReceiveCommitment(info: SharedInfo)
      modifies this
      ensures State() == old(State()).(dev := Receive(old(dev), setup.full, info))
    {
      var i := |dev.bucket| - 1;
      while i >= 0
        invariant -1 <= i < |dev.bucket|
        invariant forall k :: i < k < |dev.bucket| ==> dev.bucket[k] != info.hash
      {
        if dev.bucket[i] == info.hash {
          return;
        }
        i := i - 1;
      }
      dev := dev.(shared := dev.shared[info.hash := info], bucket := dev.bucket + [info.hash]);
      if |dev.bucket| == setup.full {
        dev := dev.(bucket := SortStrings(dev.bucket));
      }
    }

    method SubmitCommitment(own: CommitmentInfo, commitment: string)
      requires ValidSetup(setup)
      modifies this
      ensures State() == old(State()).(dev := Submit(setup, old(dev), own, commitment))
    {
      dev := dev.(submitted := dev.submitted + [own]);
      dev := dev.(shared := dev.shared[own.hash := SharedInfo(own.hash, commitment)]);
      dev := dev.(bucket := dev.bucket + [own.hash]);
      if |dev.bucket| == setup.full {
        RandomBucketShuffle(false);
        IdentifyCommitmentPositions();
      }
    }

    method RandomBucketShuffle(fromInit: bool)
      requires ValidSetup(setup)
      modifies this`dev
      ensures dev == ShuffleStage(setup, old(dev), fromInit)
    {
      if !fromInit && |dev.bucket| != setup.full {
        return;
      }
      var pick := if fromInit then setup.genesisPick else setup.keyPick;
      var bucket := RngShuffle(SortStrings(dev.bucket), pick);
      dev := dev.(bucket := bucket);
    }

    method IdentifyCommitmentPositions()
      modifies this`dev
      ensures dev == Identify(setup, old(dev))
    {
      var positions: seq<nat> := [];
      for i := 0 to |dev.bucket|
        invariant dev == old(dev)
        invariant positions == PositionsOf(dev.bucket, dev.submitted, i)
      {
        var mine := false;
        var k := 0;
        while k < |dev.submitted| && !mine
          invariant 0 <= k <= |dev.submitted|
          invariant mine <==> exists j :: 0 <= j < k && dev.submitted[j].hash == dev.bucket[i]
        {
          mine := dev.submitted[k].hash == dev.bucket[i];
          k := k + 1;
        }
        assert mine <==> dev.bucket[i] in Own(dev.submitted);
        if mine {
          positions := positions + [i];
        }
      }
      dev := dev.(bucketHash := setup.digest(Join(dev.bucket)), positions := positions);
    }

    method PassToReady()
      modifies this
      ensures State() == PassToEpochReady(old(State()))
    {
      ready := Stage(dev.submitted, dev.bucket, ready.shared + dev.shared, dev.bucketHash, dev.positions);
      readyEpochRound := commitmentGenEpochRound;
      commitmentGenEpochRound := (commitmentGenEpochRound + 1) % ROUND_LIMIT;
      bucketHashesCheck := [];
      dev := EMPTY_STAGE;
    }

    method PassToRunning()
      modifies this
      ensures State() == PassToEpochRunning(old(State()))
    {
      run := Stage(ready.submitted, ready.bucket, run.shared + ready.shared, ready.bucketHash, ready.positions);
      runEpochRound := readyEpochRound;
      ready := EMPTY_STAGE;
    }

    method HandleBucketCheck(hash: string, length: nat, round: nat) returns (alive: bool, reaction: Reaction)
      requires ValidSetup(setup)
      modifies this
      ensures var check := BucketCheck(setup, old(State()), hash, length, round);
              (alive <==> !check.Aborts?) && (alive ==> State() == check.state)
      ensures !alive <==> IsLast(setup, old(State()), hash, length, round)
                          && 2 * multiset(old(bucketHashesCheck) + [hash])[old(dev.bucketHash)] < setup.others
      ensures reaction == React(setup, old(State()), hash, length, round)
    {
      hide Count, Identify, ShuffleStage;
      reaction := Quiet;
      if commitmentGenEpochRound == round && hash != dev.bucketHash {
        RandomBucketShuffle(false);
        IdentifyCommitmentPositions();
        return true, Announce(dev.bucketHash, commitmentGenEpochRound, |dev.bucket|);
      }
      if length != |dev.bucket| {
        return true, Quiet;
      }
      bucketHashesCheck := bucketHashesCheck + [hash];
      if |bucketHashesCheck| == setup.others {
        var matched := CountMatches();
        if 2 * matched < setup.others {
          return false, Quiet;
        }
        if commitmentGenEpochRound == 0 {
          PassToReady();
          reaction := NextCommitments(commitmentGenEpochRound);
        } else if commitmentGenEpochRound == 1 {
          PassToRunning();
          midway := true;
          reaction := Pause;
        } else {
          PassToRunning();
          PassToReady();
        }
      }
      alive := true;
    }

    /** How many of the recorded hashes are the own digest. */
    method CountMatches() returns (matched: nat)
      ensures matched == Count(bucketHashesCheck, dev.bucketHash)
      ensures matched == multiset(bucketHashesCheck)[dev.bucketHash]
    {
      matched := 0;
      for i := 0 to |bucketHashesCheck|
        invariant matched == Count(bucketHashesCheck[..i], dev.bucketHash)
      {
        assert bucketHashesCheck[..i + 1][..i] == bucketHashesCheck[..i];
        if bucketHashesCheck[i] == dev.bucketHash {
          matched := matched + 1;
        }
      }
      assert bucketHashesCheck[..|bucketHashesCheck|] == bucketHashesCheck;
      CountIsMultiplicity(bucketHashesCheck, dev.bucketHash);
    }

    /** After the sleep of round 1; the time of the first block is announced next. */
    method ResumeRoundOne()
      modifies this
      ensures State() == Resume(old(State()))
    {
      PassToReady();
      midway := false;
    }

    method GetCommitmentInfoByHash(hash: string) returns (info: Option<CommitmentInfo>)
      ensures info == FindInfo(run.submitted, hash)
    {
      var i := 0;
      assert run.submitted[0..] == run.submitted;
      while i < |run.submitted|
        invariant 0 <= i <= |run.submitted|
        invariant FindInfo(run.submitted, hash) == FindInfo(run.submitted[i..], hash)
      {
        if run.submitted[i].hash == hash {
          return Some(run.submitted[i]);
        }
        assert run.submitted[i..][1..] == run.submitted[i + 1..];
        i := i + 1;
      }
      return None;
    }
  }

  // ---------------------------------------------------------------- runs

  /** A state with the stages that were current when each bucket check completed. */
  datatype Traced = Traced(state: EpochState, snaps: seq<Stage>)

  ghost predicate StepOk(c: Setup, t: Traced, e: Event, t': Traced)
    requires ValidSetup(c)
  {
    var s := t.state;
    match e
    case Received(info) =>
      t' == t.(state := s.(dev := Receive(s.dev, c.full, info)))
    case Submitted(own, commitment) =>
      own.hash !in s.dev.bucket && t' == t.(state := s.(dev := Submit(c, s.dev, own, commitment)))
    case Reshuffled(fromInit) =>
      t' == t.(state := s.(dev := ReshuffleStage(c, s.dev, fromInit)))
    case Checked(hash, length, round) =>
      (match BucketCheck(c, s, hash, length, round)
       case Waits(s') => t' == t.(state := s')
       case Completes(s') => t' == Traced(s', if s.gen == 1 then t.snaps else t.snaps + [s.dev])
       case Aborts => false)
    case Resumed =>
      s.midway && t' == Traced(Resume(s), t.snaps + [s.dev])
  }

  ghost predicate IsTrace(c: Setup, ts: seq<Traced>)
    requires ValidSetup(c)
  {
    && |ts| > 0 && ts[0] == Traced(InitialState(), [])
    && forall i :: 0 <= i < |ts| - 1 ==> TraceStep(c, ts[i], ts[i + 1])
  }

  ghost predicate TraceStep(c: Setup, t: Traced, t': Traced)
    requires ValidSetup(c)
  {
    exists e :: StepOk(c, t, e, t')
  }

  /** Hashes of the first k snapshots together. */
  function BucketUnion(snaps: seq<Stage>, k: nat): set<string>
    requires k <= |snaps|
  {
    if k == 0 then {} else BucketUnion(snaps, k - 1) + Elements(snaps[k - 1].bucket)
  }

  function WithoutMap(st: Stage): Stage {
    st.(shared := map[])
  }

  /** The running generation is that of snapshot j, with every hash of the buckets so far in its map. */
  ghost predicate Running(s: EpochState, snaps: seq<Stage>, j: nat)
    requires j < |snaps|
  {
    && WithoutMap(s.run) == WithoutMap(snaps[j]) && s.runRound == j
    && s.run.shared.Keys == BucketUnion(snaps, j + 1)
    && forall h :: h in snaps[j].shared ==> h in s.run.shared && s.run.shared[h] == snaps[j].shared[h]
  }

  /** After k completed checks the generating, ready and running rounds are k, k - 1 and k - 2; between the two
      promotions of round 1, the ready generation is empty and already running. */
  ghost predicate Pipeline(t: Traced) {
    var s, k := t.state, |t.snaps|;
    && BucketMatchesMap(s.dev)
    && (forall j :: 0 <= j < k ==> BucketMatchesMap(t.snaps[j]))
    && s.gen == k % ROUND_LIMIT
    && (s.midway ==> k == 1)
    && (if s.midway || k == 0 then s.ready == EMPTY_STAGE else s.ready == t.snaps[k - 1])
    && (k > 0 ==> s.readyRound == k - 1)
    && (if s.midway then Running(s, t.snaps, 0)
        else if k < 2 then s.run == EMPTY_STAGE else Running(s, t.snaps, k - 2))
  }

  /** Fewer checks than expected are recorded, except while the handler of round 1 sleeps, when none can complete. */
  ghost predicate ChecksOpen(c: Setup, t: Traced) {
    if t.state.midway then |t.state.checks| >= c.others else c.others > 0 ==> |t.state.checks| < c.others
  }

  lemma ShuffleKeepsBucket(c: Setup, st: Stage, fromInit: bool)
    requires ValidSetup(c) && BucketMatchesMap(st)
    ensures BucketMatchesMap(ReshuffleStage(c, st, fromInit))
    ensures Elements(ReshuffleStage(c, st, fromInit).bucket) == Elements(st.bucket)
  {
    var pick := if fromInit then c.genesisPick else c.keyPick;
    RearrangedKeepsElements(SortAndShuffle(st.bucket, pick), st.bucket);
  }

  lemma SubmitKeepsBucket(c: Setup, st: Stage, own: CommitmentInfo, commitment: string)
    requires ValidSetup(c) && BucketMatchesMap(st) && own.hash !in st.bucket
    ensures BucketMatchesMap(Submit(c, st, own, commitment))
  {
    hide SortAndShuffle, PositionsOf;
    var bucket := st.bucket + [own.hash];
    assert Elements(bucket) == Elements(st.bucket) + {own.hash};
    var r := Submit(c, st, own, commitment);
    assert r.shared == st.shared[own.hash := SharedInfo(own.hash, commitment)];
    assert multiset(r.bucket) == multiset(bucket);
    RearrangedKeepsElements(r.bucket, bucket);
  }

  lemma {:induction false} BucketUnionPrefix(snaps: seq<Stage>, st: Stage, k: nat)
    requires k <= |snaps|
    ensures BucketUnion(snaps + [st], k) == BucketUnion(snaps, k)
  {
    if k > 0 {
      BucketUnionPrefix(snaps, st, k - 1);
    }
  }

  /** The state once all promotions of a completed check are done. */
  function Promoted(s: EpochState): EpochState {
    if s.gen == 1 then Resume(Advance(s)) else Advance(s)
  }

  lemma AdvanceKeepsPipeline(t: Traced)
    requires Pipeline(t) && !t.state.midway && |t.snaps| < ROUND_LIMIT
    ensures Pipeline(Traced(Advance(t.state), if t.state.gen == 1 then t.snaps else t.snaps + [t.state.dev]))
  {
    var s, k := t.state, |t.snaps|;
    var snaps := t.snaps + [s.dev];
    assert k % ROUND_LIMIT == k;
    assert EMPTY_STAGE.shared + s.dev.shared == s.dev.shared;
    hide BucketMatchesMap;
    if k > 0 {
      RunningNext(t);
      hide Running;
      if k > 1 {
        RunningGrows(PassToEpochReady(PassToEpochRunning(s)), PassToEpochRunning(s), t.snaps, s.dev, k - 1);
      }
    }
  }

  /** A further snapshot changes nothing for a running generation. */
  lemma RunningGrows(s': EpochState, s: EpochState, snaps: seq<Stage>, st: Stage, j: nat)
    requires j < |snaps| && Running(s, snaps, j) && s'.run == s.run && s'.runRound == s.runRound
    ensures Running(s', snaps + [st], j)
  {
    BucketUnionPrefix(snaps, st, j + 1);
    assert (snaps + [st])[j] == snaps[j];
  }

  /** Passing the ready generation on makes it the running one. */
  lemma RunningNext(t: Traced)
    requires Pipeline(t) && !t.state.midway && 0 < |t.snaps|
    ensures Running(PassToEpochRunning(t.state), t.snaps, |t.snaps| - 1)
  {
    var s, k := t.state, |t.snaps|;
    if k == 1 {
      assert BucketUnion(t.snaps, 1) == BucketUnion(t.snaps, 0) + Elements(t.snaps[0].bucket);
      assert BucketUnion(t.snaps, 0) == {};
    }
  }

  lemma ResumeKeepsPipeline(t: Traced)
    requires Pipeline(t) && t.state.midway
    ensures Pipeline(Traced(Resume(t.state), t.snaps + [t.state.dev]))
  {
    var s := t.state;
    assert 2 % ROUND_LIMIT == 2;
    assert EMPTY_STAGE.shared + s.dev.shared == s.dev.shared;
    hide BucketMatchesMap, Running;
    RunningGrows(Resume(s), s, t.snaps, s.dev, 0);
  }

  /** A completed check keeps the pipeline as long as fewer than 2^32 checks came before it, and no longer: then the
      round counter reads 0, and the ready generation is overwritten instead of promoted. */
  lemma PromotionKeepsPipelineIff(t: Traced)
    requires Pipeline(t) && !t.state.midway && |t.snaps| <= ROUND_LIMIT
    ensures Pipeline(Traced(Promoted(t.state), t.snaps + [t.state.dev])) <==> |t.snaps| < ROUND_LIMIT
  {
    var s, k := t.state, |t.snaps|;
    if k < ROUND_LIMIT {
      AdvanceKeepsPipeline(t);
      if s.gen == 1 {
        ResumeKeepsPipeline(Traced(Advance(s), t.snaps));
      }
    } else {
      assert k % ROUND_LIMIT == 0;
      assert Promoted(s).runRound == k - 2;
    }
  }

  /** Changes to the development generation and to the received hashes leave the pipeline alone. */
  lemma DevelopmentIsApart(t: Traced, dev: Stage, checks: seq<string>)
    requires Pipeline(t) && BucketMatchesMap(dev)
    ensures Pipeline(t.(state := t.state.(dev := dev, checks := checks)))
  {
    hide BucketMatchesMap;
  }

  lemma StepKeepsPipeline(c: Setup, t: Traced, e: Event, t': Traced)
    requires ValidSetup(c) && Pipeline(t) && ChecksOpen(c, t) && StepOk(c, t, e, t') && |t'.snaps| <= ROUND_LIMIT
    ensures Pipeline(t') && ChecksOpen(c, t')
  {
    var dev := t.state.dev;
    assert BucketMatchesMap(dev);
    hide Receive, Submit, ReshuffleStage, Advance, Resume, BucketMatchesMap, Pipeline, BucketCheck;
    match e
    case Received(info) =>
      ReceiveKeepsBucket(dev, c.full, info);
      DevelopmentIsApart(t, t'.state.dev, t.state.checks);
    case Submitted(own, commitment) =>
      SubmitKeepsBucket(c, dev, own, commitment);
      DevelopmentIsApart(t, t'.state.dev, t.state.checks);
    case Reshuffled(fromInit) =>
      ShuffleKeepsBucket(c, dev, fromInit);
      DevelopmentIsApart(t, t'.state.dev, t.state.checks);
    case Checked(hash, length, round) =>
      CheckKeepsPipeline(c, t, hash, length, round, t');
    case Resumed =>
      ResumeKeepsPipeline(t);
      ResumeIsAwake(t.state);
  }

  lemma ResumeIsAwake(s: EpochState)
    ensures !Resume(s).midway && Resume(s).checks == []
  {
  }

  lemma CheckKeepsPipeline(c: Setup, t: Traced, hash: string, length: nat, round: nat, t': Traced)
    requires ValidSetup(c) && Pipeline(t) && ChecksOpen(c, t)
    requires StepOk(c, t, Checked(hash, length, round), t') && |t'.snaps| <= ROUND_LIMIT
    ensures Pipeline(t') && ChecksOpen(c, t')
  {
    var s, dev, checks := t.state, t.state.dev, t.state.checks + [hash];
    assert BucketMatchesMap(dev);
    hide ShuffleStage, Identify, Advance, BucketMatchesMap, Count, Pipeline;
    ShuffleKeepsBucket(c, dev, false);
    DevelopmentIsApart(t, dev, checks);
    match BucketCheck(c, s, hash, length, round)
    case Waits(s') => DevelopmentIsApart(t, s'.dev, s'.checks);
    case Completes(s') =>
      assert !s.midway && |checks| == c.others;
      AdvanceKeepsPipeline(t.(state := s.(checks := checks)));
      AdvanceSpends(s.(checks := checks));
  }

  lemma AdvanceSpends(s: EpochState)
    requires !s.midway
    ensures Advance(s).checks == if Advance(s).midway then s.checks else []
    ensures Advance(s).midway <==> s.gen == 1
  {
  }

  /** Passing a generation on only adds to the maps of ready and running; what the passed generation holds wins. */
  lemma MapsOnlyGrow(s: EpochState, h: string)
    ensures var s' := PassToEpochReady(s); var shared := s'.ready.shared;
      && (h in shared <==> h in s.ready.shared || h in s.dev.shared)
      && (h in shared ==> shared[h] == if h in s.dev.shared then s.dev.shared[h] else s.ready.shared[h])
    ensures var s' := PassToEpochRunning(s); var shared := s'.run.shared;
      && (h in shared <==> h in s.run.shared || h in s.ready.shared)
      && (h in shared ==> shared[h] == if h in s.ready.shared then s.ready.shared[h] else s.run.shared[h])
  {
  }

  // ---------------------------------------------------------------- the outcome of a check

  /** The check is recorded: no mismatch for the current round, and the length of the own bucket. */
  predicate Counts(s: EpochState, hash: string, length: nat, round: nat) {
    (s.gen == round ==> hash == s.dev.bucketHash) && length == |s.dev.bucket|
  }

  /** The generation was passed on: a snapshot is taken, or the handler of round 1 falls asleep. */
  predicate Promotes(t: Traced, t': Traced) {
    |t'.snaps| > |t.snaps| || (t'.state.midway && !t.state.midway)
  }

  /** It is recorded and the last one expected. */
  predicate IsLast(c: Setup, s: EpochState, hash: string, length: nat, round: nat) {
    Counts(s, hash, length, round) && |s.checks| + 1 == c.others
  }

  /** The consensus rule: a generation is passed on exactly with the last expected check, if at least half of all
      recorded hashes are that of the own bucket. */
  lemma CheckPromotesIff(c: Setup, t: Traced, hash: string, length: nat, round: nat)
    requires ValidSetup(c) && ChecksOpen(c, t)
    ensures var s, heard := t.state, multiset(t.state.checks + [hash]);
      (exists t' :: StepOk(c, t, Checked(hash, length, round), t') && Promotes(t, t')) <==>
        IsLast(c, s, hash, length, round) && 2 * heard[s.dev.bucketHash] >= c.others
  {
    var s, e := t.state, Checked(hash, length, round);
    CountIsMultiplicity(s.checks + [hash], s.dev.bucketHash);
    hide ShuffleStage, Identify, Count;
    var check := BucketCheck(c, s, hash, length, round);
    if check.Completes? {
      AdvanceSpends(s.(checks := s.checks + [hash]));
      var t' := Traced(check.state, if s.gen == 1 then t.snaps else t.snaps + [s.dev]);
      assert StepOk(c, t, e, t') && Promotes(t, t');
    }
  }

  /** The process dies exactly with the last expected check, if fewer than half of the recorded hashes match. */
  lemma CheckDiesIff(c: Setup, t: Traced, hash: string, length: nat, round: nat)
    requires ValidSetup(c)
    ensures var s, heard := t.state, multiset(t.state.checks + [hash]);
      (forall t' :: !StepOk(c, t, Checked(hash, length, round), t')) <==>
        IsLast(c, s, hash, length, round) && 2 * heard[s.dev.bucketHash] < c.others
  {
    var s, e := t.state, Checked(hash, length, round);
    CountIsMultiplicity(s.checks + [hash], s.dev.bucketHash);
    hide ShuffleStage, Identify, Count, Advance;
    match BucketCheck(c, s, hash, length, round)
    case Waits(s') => assert StepOk(c, t, e, t.(state := s'));
    case Completes(s') => assert StepOk(c, t, e, Traced(s', if s.gen == 1 then t.snaps else t.snaps + [s.dev]));
    case Aborts =>
  }

  /** A check that passes nothing on is recorded or not; a mismatch for the current round reshuffles with the key. */
  lemma OtherCheckEffect(c: Setup, t: Traced, hash: string, length: nat, round: nat, t': Traced)
    requires ValidSetup(c) && ChecksOpen(c, t)
    requires StepOk(c, t, Checked(hash, length, round), t') && !Promotes(t, t')
    ensures var s, s' := t.state, t'.state;
      && t'.snaps == t.snaps && s'.(dev := s.dev, checks := s.checks) == s
      && s'.checks == (if Counts(s, hash, length, round) then s.checks + [hash] else s.checks)
      && s'.dev == (if s.gen == round && hash != s.dev.bucketHash then ReshuffleStage(c, s.dev, false) else s.dev)
  {
    hide ShuffleStage, Identify, Count;
  }

  /** Passing a generation on to ready starts the next round with nothing collected and nothing recorded. */
  lemma PromotionStartsAfresh(c: Setup, t: Traced, e: Event, t': Traced)
    requires ValidSetup(c) && ChecksOpen(c, t) && StepOk(c, t, e, t') && |t'.snaps| > |t.snaps|
    ensures t'.snaps == t.snaps + [t.state.dev]
    ensures t'.state.checks == [] && t'.state.dev == EMPTY_STAGE && !t'.state.midway
    ensures t'.state.gen == (t.state.gen + 1) % ROUND_LIMIT
  {
    hide ShuffleStage, Identify, Count;
  }

  /** A chain of checks that all carry the digest and the length of the own bucket. */
  ghost predicate MatchingChecks(c: Setup, ts: seq<Traced>, es: seq<Event>)
    requires ValidSetup(c)
  {
    && |ts| == |es| + 1
    && forall k :: 0 <= k < |es| ==>
         && StepOk(c, ts[k], es[k], ts[k + 1])
         && es[k].Checked? && es[k].hash == ts[0].state.dev.bucketHash && es[k].length == |ts[0].state.dev.bucket|
  }

  lemma {:induction false} MatchingChecksAfter(c: Setup, ts: seq<Traced>, es: seq<Event>, k: nat)
    requires ValidSetup(c) && MatchingChecks(c, ts, es) && k <= |es| && k < c.others
    requires ts[0].state.checks == [] && !ts[0].state.midway
    ensures ts[k] == ts[0].(state := ts[0].state.(checks := seq(k, _ => ts[0].state.dev.bucketHash)))
  {
    if k > 0 {
      MatchingChecksAfter(c, ts, es, k - 1);
      var before, e := ts[k - 1], es[k - 1];
      assert StepOk(c, before, e, ts[k - 1 + 1]);
      CheckPromotesIff(c, before, e.hash, e.length, e.round);
      OtherCheckEffect(c, before, e.hash, e.length, e.round, ts[k]);
      hide StepOk;
      assert ts[k].state.checks == seq(k, _ => ts[0].state.dev.bucketHash);
    }
  }

  /** Progress: as many matching checks as there are other nodes always pass the generation on, the last of them and
      no earlier one. */
  lemma MatchingChecksComplete(c: Setup, ts: seq<Traced>, es: seq<Event>)
    requires ValidSetup(c) && MatchingChecks(c, ts, es) && |es| == c.others > 0
    requires ts[0].state.checks == [] && !ts[0].state.midway
    ensures Promotes(ts[|es| - 1], ts[|es|]) && forall k :: 0 <= k < |es| - 1 ==> !Promotes(ts[k], ts[k + 1])
    ensures if ts[0].state.gen == 1 then ts[|es|].state.midway && ts[|es|].snaps == ts[0].snaps
            else ts[|es|].snaps == ts[0].snaps + [ts[0].state.dev] && ts[|es|].state.checks == []
  {
    var n := |es| - 1;
    forall k | 0 <= k < n ensures !Promotes(ts[k], ts[k + 1]) {
      MatchingChecksAfter(c, ts, es, k);
      MatchingChecksAfter(c, ts, es, k + 1);
    }
    MatchingChecksAfter(c, ts, es, n);
    assert StepOk(c, ts[n], es[n], ts[n + 1]);
    hide MatchingChecks, ShuffleStage, Identify;
    LastMatches(c, ts[n], es[n], ts[n + 1]);
  }

  lemma LastMatches(c: Setup, t: Traced, e: Event, t': Traced)
    requires ValidSetup(c) && StepOk(c, t, e, t') && e.Checked? && !t.state.midway && |t.state.checks| + 1 == c.others
    requires e.hash == t.state.dev.bucketHash && e.length == |t.state.dev.bucket|
    requires t.state.checks == seq(|t.state.checks|, _ => t.state.dev.bucketHash)
    ensures Promotes(t, t')
    ensures if t.state.gen == 1 then t'.state.midway && t'.snaps == t.snaps
            else t'.snaps == t.snaps + [t.state.dev] && t'.state.checks == []
  {
    var own, k := t.state.dev.bucketHash, |t.state.checks|;
    assert t.state.checks + [e.hash] == seq(k + 1, _ => own);
    AllMatch(k + 1, own);
    hide ShuffleStage, Identify, Count;
    AdvanceSpends(t.state.(checks := t.state.checks + [e.hash]));
  }

  /** And none of them is refused. */
  lemma MatchingCheckSurvives(c: Setup, ts: seq<Traced>, es: seq<Event>, round: nat)
    requires ValidSetup(c) && MatchingChecks(c, ts, es) && |es| < c.others
    requires ts[0].state.checks == [] && !ts[0].state.midway
    ensures var dev := ts[0].state.dev;
      exists t' :: StepOk(c, ts[|es|], Checked(dev.bucketHash, |dev.bucket|, round), t')
  {
    var dev := ts[0].state.dev;
    MatchingChecksAfter(c, ts, es, |es|);
    assert ts[|es|].state.checks + [dev.bucketHash] == seq(|es| + 1, _ => dev.bucketHash);
    AllMatch(|es| + 1, dev.bucketHash);
    CountIsMultiplicity(seq(|es| + 1, _ => dev.bucketHash), dev.bucketHash);
    CheckDiesIff(c, ts[|es|], dev.bucketHash, |dev.bucket|, round);
    hide StepOk;
  }

  lemma {:induction false} AllMatch(n: nat, x: string)
    ensures Count(seq(n, _ => x), x) == n
  {
    if n > 0 {
      AllMatch(n - 1, x);
      assert seq(n, _ => x)[..n - 1] == seq(n - 1, _ => x);
    }
  }

  lemma StartInPipeline(c: Setup)
    ensures Pipeline(Traced(InitialState(), [])) && ChecksOpen(c, Traced(InitialState(), []))
  {
    assert BucketMatchesMap(EMPTY_STAGE);
  }

  /** Main pipeline result: over every run of up to 2^32 completed checks. */
  lemma {:induction false} EveryStateInPipeline(c: Setup, ts: seq<Traced>, i: nat)
    requires ValidSetup(c) && IsTrace(c, ts) && i < |ts| && |ts[i].snaps| <= ROUND_LIMIT
    ensures Pipeline(ts[i]) && ChecksOpen(c, ts[i])
  {
    hide Pipeline, ChecksOpen, TraceStep, InitialState;
    if i == 0 {
      StartInPipeline(c);
    } else {
      assert TraceStep(c, ts[i - 1], ts[i - 1 + 1]);
      TraceStepGrows(c, ts[i - 1], ts[i]);
      EveryStateInPipeline(c, ts, i - 1);
      TraceStepKeepsPipeline(c, ts[i - 1], ts[i]);
    }
  }

  /** Snapshots are only ever added. */
  lemma TraceStepGrows(c: Setup, t: Traced, t': Traced)
    requires ValidSetup(c) && TraceStep(c, t, t')
    ensures t.snaps <= t'.snaps && |t'.snaps| <= |t.snaps| + 1
  {
    hide BucketCheck;
    var e :| StepOk(c, t, e, t');
  }

  lemma TraceStepKeepsPipeline(c: Setup, t: Traced, t': Traced)
    requires ValidSetup(c) && TraceStep(c, t, t') && Pipeline(t) && ChecksOpen(c, t) && |t'.snaps| <= ROUND_LIMIT
    ensures Pipeline(t') && ChecksOpen(c, t')
  {
    hide Pipeline, ChecksOpen;
    var e :| StepOk(c, t, e, t');
    StepKeepsPipeline(c, t, e, t');
  }
}
