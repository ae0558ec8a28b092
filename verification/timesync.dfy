/** Agreement on the time of the first block: the BCHAIN_SYNC_TIME case of
    node-implementation/p2p_communication.go, at one node and across the network. */
module TimeSync {
  import opened Types
  import opened Utils

  // ---------------------------------------------------------------- one node

  /** What a node with time `own` makes of the times announced by the others: it keeps its own if at least half
      of them match, otherwise it takes the majority, and without a majority it dies. */
  ghost predicate Settles(own: int, times: seq<int>, result: Option<int>) {
    if 2 * Count(times, own) >= |times| then result == Some(own)
    else match result
      case Some(x) => IsMajority(times, x)
      case None => forall x :: !IsMajority(times, x)
  }

  lemma SettlesOnce(own: int, times: seq<int>, a: Option<int>, b: Option<int>)
    requires Settles(own, times, a) && Settles(own, times, b)
    ensures a == b
  {
    if a.Some? && b.Some? && a != b {
      MajorityIsUnique(times, a.value, b.value);
    }
  }

  datatype Outcome = Ignored | Waiting | Started | Died

  class TimeKeeper {
    const others: nat
    var timeSynced: bool
    var timeSyncNodes: seq<int>
    var syncedTime: int

    constructor (others: nat)
      ensures this.others == others && !timeSynced && timeSyncNodes == [] && syncedTime == 0
    {
      this.others := others;
      timeSynced, timeSyncNodes, syncedTime := false, [], 0;
    }

    /** The node's own proposal, which it also broadcasts. */
    method Announce(time: int)
      modifies this`syncedTime
      ensures syncedTime == time
    {
      syncedTime := time;
    }

    method ReceiveSyncTime(time: int) returns (outcome: Outcome)
      modifies this
      ensures old(timeSynced) <==> outcome == Ignored
      ensures timeSyncNodes == if outcome == Ignored then old(timeSyncNodes) else old(timeSyncNodes) + [time]
      ensures outcome == Waiting <==> !old(timeSynced) && |timeSyncNodes| != others
      ensures outcome == Started ==> timeSynced && Settles(old(syncedTime), timeSyncNodes, Some(syncedTime))
      ensures outcome == Died ==> Settles(old(syncedTime), timeSyncNodes, None)
      ensures outcome != Started ==> syncedTime == old(syncedTime) && timeSynced == old(timeSynced)
    {
      if timeSynced {
        return Ignored;
      }
      timeSyncNodes := timeSyncNodes + [time];
      if |timeSyncNodes| != others {
        return Waiting;
      }
      var matched := CountInt64(timeSyncNodes, syncedTime);
      if 2 * matched < others {
        var majorElement, success := FindMajorElementInt64(timeSyncNodes);
        if !success {
          return Died;
        }
        syncedTime := majorElement;
      }
      timeSynced := true;
      return Started;
    }
  }

  method CountInt64(list: seq<int>, x: int) returns (count: nat)
    ensures count == Count(list, x)
  {
    count := 0;
    for i := 0 to |list|
      invariant count == Count(list[..i], x)
    {
      assert list[..i + 1][..i] == list[..i];
      if list[i] == x {
        count := count + 1;
      }
    }
    assert list[..|list|] == list;
  }

  // ---------------------------------------------------------------- the network

  /** Node n receives the proposals of all the others, in some order. */
  ghost predicate HearsOthers(proposals: seq<int>, n: nat, times: seq<int>) {
    n < |proposals| && multiset(times) == multiset(proposals) - multiset{proposals[n]}
  }

  lemma OthersCount(proposals: seq<int>, n: nat, times: seq<int>, x: int)
    requires HearsOthers(proposals, n, times)
    ensures |times| == |proposals| - 1
    ensures Count(times, x) == Count(proposals, x) - if x == proposals[n] then 1 else 0
  {
    CountIsMultiplicity(times, x);
    CountIsMultiplicity(proposals, x);
    assert proposals[n] in multiset(proposals);
    assert |times| == |multiset(times)| && |multiset(proposals)| == |proposals|;
  }

  /** A node settles on x exactly when enough of the proposals, its own included, are x. */
  lemma SettlesIff(proposals: seq<int>, n: nat, times: seq<int>, x: int)
    requires HearsOthers(proposals, n, times)
    ensures Settles(proposals[n], times, Some(x)) <==>
              2 * Count(proposals, x) > if x == proposals[n] then |proposals| else |proposals| - 1
  {
    OthersCount(proposals, n, times, x);
    OthersCount(proposals, n, times, proposals[n]);
    if x != proposals[n] {
      CountBounds(proposals, x, proposals[n]);
    }
  }

  /** All nodes settle on one time exactly when a strict majority of them proposed it. */
  lemma AgreementIff(proposals: seq<int>, times: seq<seq<int>>, x: int)
    requires |times| == |proposals| > 0
    requires forall n :: 0 <= n < |proposals| ==> HearsOthers(proposals, n, times[n])
    ensures (forall n :: 0 <= n < |proposals| ==> Settles(proposals[n], times[n], Some(x)))
       <==> IsMajority(proposals, x)
  {
    forall n | 0 <= n < |proposals| {
      SettlesIff(proposals, n, times[n], x);
    }
    if forall n :: 0 <= n < |proposals| ==> Settles(proposals[n], times[n], Some(x)) {
      assert Settles(proposals[0], times[0], Some(x));
      if Count(proposals, x) > 0 {
        CountedIsMember(proposals, x);
        var n :| 0 <= n < |proposals| && proposals[n] == x;
        assert Settles(proposals[n], times[n], Some(x));
      }
    }
  }

  /** Without a majority nodes may even swap: two nodes with different proposals end with each other's. */
  lemma TwoNodesSwap(a: int, b: int)
    requires a != b
    ensures HearsOthers([a, b], 0, [b]) && HearsOthers([a, b], 1, [a])
    ensures Settles(a, [b], Some(b)) && Settles(b, [a], Some(a))
  {
    assert Count([b], b) == 1 && Count([a], a) == 1 by {
      assert [b][..0] == [] && [a][..0] == [];
    }
    assert Count([b], a) == 0 && Count([a], b) == 0 by {
      assert [b][..0] == [] && [a][..0] == [];
    }
  }
}
