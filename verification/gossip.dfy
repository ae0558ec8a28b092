/** Gossip flooding with first-occurrence filtering and send suppression
    (node-implementation/p2p_communication.go): one peer, and a network of peers as a step system. */
module Gossip {
  import opened Buckets

  // ---------------------------------------------------------------- one peer

  /** `history` is messageHistory, `from[p]` what messagePeersHistory records for peer p, `processed` the received
      messages handed to processNetworkMessage. */
  datatype PeerState = PeerState(history: seq<string>, from: map<nat, seq<string>>, processed: seq<string>)

  function HeardFrom(p: PeerState, peer: nat): seq<string> {
    if peer in p.from then p.from[peer] else []
  }

  function Receive(p: PeerState, sender: nat, id: string): PeerState {
    var heard := p.(from := p.from[sender := HeardFrom(p, sender) + [id]]);
    if id in p.history then heard
    else heard.(history := p.history + [id], processed := p.processed + [id])
  }

  function Originate(p: PeerState, id: string): PeerState {
    p.(history := p.history + [id])
  }

  class Peer {
    const neighbours: set<nat>
    var messageHistory: seq<string>
    var messagePeersHistory: map<nat, seq<string>>
    var processed: seq<string>

    function State(): PeerState
      reads this
    {
      PeerState(messageHistory, messagePeersHistory, processed)
    }

    constructor (neighbours: set<nat>)
      ensures this.neighbours == neighbours && State() == PeerState([], map[], [])
    {
      this.neighbours := neighbours;
      messageHistory, messagePeersHistory, processed := [], map[], [];
    }

    method IsMessageFirstOccurrence(id: string) returns (first: bool)
      ensures first <==> id !in messageHistory
    {
      var i := |messageHistory| - 1;
      while i >= 0
        invariant -1 <= i < |messageHistory|
        invariant id !in messageHistory[i + 1..]
      {
        if messageHistory[i] == id {
          return false;
        }
        i := i - 1;
      }
      return true;
    }

    method MessageAlreadyReceived(peer: nat, id: string) returns (received: bool)
      ensures received <==> id in HeardFrom(State(), peer)
    {
      var heard := if peer in messagePeersHistory then messagePeersHistory[peer] else [];
      var i := |heard| - 1;
      while i >= 0
        invariant -1 <= i < |heard|
        invariant id !in heard[i + 1..]
      {
        if heard[i] == id {
          return true;
        }
        i := i - 1;
      }
      return false;
    }

    /** One iteration of readData; `forward` are the goroutines it starts. */
    method ReadData(sender: nat, id: string) returns (forward: set<nat>)
      modifies this
      ensures State() == Receive(old(State()), sender, id)
      ensures forward == if id in old(messageHistory) then {} else neighbours
    {
      var heard := if sender in messagePeersHistory then messagePeersHistory[sender] else [];
      messagePeersHistory := messagePeersHistory[sender := heard + [id]];
      var first := IsMessageFirstOccurrence(id);
      if first {
        messageHistory := messageHistory + [id];
        processed := processed + [id];
        forward := neighbours;
      } else {
        forward := {};
      }
    }

    method SendMessageBroadcast(id: string) returns (forward: set<nat>)
      modifies this
      ensures State() == Originate(old(State()), id) && forward == neighbours
    {
      messageHistory := messageHistory + [id];
      forward := neighbours;
    }

    /** gossipMessage after its delay: write to the stream unless the peer already delivered the message. */
    method GossipMessage(peer: nat, id: string) returns (written: bool)
      ensures written <==> id !in HeardFrom(State(), peer)
    {
      var received := MessageAlreadyReceived(peer, id);
      written := !received;
    }
  }

  // ---------------------------------------------------------------- the network

  datatype Hop = Hop(src: nat, dst: nat, id: string)

  /** `tasks` are started goroutines, `flight` written but unread messages, `sent` everything ever written, `origins`
      who broadcast each message. */
  datatype Net = Net(peers: seq<PeerState>, tasks: multiset<Hop>, flight: multiset<Hop>, sent: multiset<Hop>,
                     origins: map<string, nat>)

  type Graph = seq<set<nat>>

  predicate Edge(g: Graph, n: nat, p: nat) {
    n < |g| && p in g[n]
  }

  /** Connections are mutual. */
  ghost predicate IsGraph(g: Graph) {
    forall n, p :: Edge(g, n, p) ==> Edge(g, p, n)
  }

  function Hops(n: nat, neighbours: set<nat>, id: string): set<Hop> {
    set p | p in neighbours :: Hop(n, p, id)
  }

  ghost predicate Init(g: Graph, s: Net) {
    s == Net(seq(|g|, _ => PeerState([], map[], [])), multiset{}, multiset{}, multiset{}, map[])
  }

  predicate CanBroadcast(g: Graph, s: Net, n: nat, id: string) {
    n < |g| == |s.peers| && id !in s.origins
  }

  function Broadcast(g: Graph, s: Net, n: nat, id: string): Net
    requires CanBroadcast(g, s, n, id)
  {
    s.(peers := s.peers[n := Originate(s.peers[n], id)],
       tasks := s.tasks + multiset(Hops(n, g[n], id)),
       origins := s.origins[id := n])
  }

  function RunTask(s: Net, h: Hop): Net
    requires h in s.tasks && h.src < |s.peers|
  {
    var tasks := s.tasks - multiset{h};
    if h.id in HeardFrom(s.peers[h.src], h.dst) then s.(tasks := tasks)
    else s.(tasks := tasks, flight := s.flight + multiset{h}, sent := s.sent + multiset{h})
  }

  function Deliver(g: Graph, s: Net, h: Hop): Net
    requires h in s.flight && h.dst < |s.peers| == |g|
  {
    var unseen := h.id !in s.peers[h.dst].history;
    s.(peers := s.peers[h.dst := Receive(s.peers[h.dst], h.src, h.id)],
       flight := s.flight - multiset{h},
       tasks := s.tasks + if unseen then multiset(Hops(h.dst, g[h.dst], h.id)) else multiset{})
  }

  /** A step of the flood: a goroutine wakes up, or a message is read. */
  ghost predicate FloodStep(g: Graph, s: Net, s': Net) {
    || (exists h :: h in s.tasks && h.src < |s.peers| && s' == RunTask(s, h))
    || (exists h :: h in s.flight && h.dst < |s.peers| == |g| && s' == Deliver(g, s, h))
  }

  ghost predicate Step(g: Graph, s: Net, s': Net) {
    FloodStep(g, s, s') || exists n, id :: CanBroadcast(g, s, n, id) && s' == Broadcast(g, s, n, id)
  }

  // ---------------------------------------------------------------- invariant

  predicate Knows(s: Net, n: nat, id: string) {
    n < |s.peers| && id in s.peers[n].history
  }

  predicate Heard(s: Net, n: nat, p: nat, id: string) {
    n < |s.peers| && id in HeardFrom(s.peers[n], p)
  }

  /** Every hop runs along an edge, from a peer that knows the message, and is taken at most once. */
  ghost predicate HopsOnce(g: Graph, s: Net) {
    && (forall h :: s.tasks[h] + s.sent[h] <= 1 && s.flight[h] <= s.sent[h])
    && (forall h :: h in s.tasks || h in s.sent ==> Edge(g, h.src, h.dst) && Knows(s, h.src, h.id))
  }

  /** A peer hears a message only from peers that know it, and knows only messages that somebody originated and still
      knows. */
  ghost predicate KnowledgeSound(s: Net) {
    && (forall n, p, id :: Heard(s, n, p, id) ==> Knows(s, p, id))
    && (forall n, id :: Knows(s, n, id) ==> id in s.origins)
    && (forall id :: id in s.origins ==> Knows(s, s.origins[id], id))
  }

  /** The peer knows the message from others. */
  ghost predicate Learned(s: Net, n: nat, id: string) {
    Knows(s, n, id) && !(id in s.origins && s.origins[id] == n)
  }

  /** A peer has processed what it learned, each message once, and nothing else. */
  ghost predicate ProcessedOnce(s: Net) {
    forall n :: 0 <= n < |s.peers| ==>
      NoDuplicates(s.peers[n].processed) && forall id :: id in s.peers[n].processed <==> Learned(s, n, id)
  }

  /** A message known at one end of an edge is known at the other, or on its way. */
  ghost predicate Spreading(g: Graph, s: Net) {
    forall n, p, id :: Edge(g, n, p) && Knows(s, n, id) ==>
      Hop(n, p, id) in s.tasks || Hop(n, p, id) in s.flight || Knows(s, p, id)
  }

  ghost predicate Inv(g: Graph, s: Net) {
    IsGraph(g) && |s.peers| == |g| && HopsOnce(g, s) && KnowledgeSound(s) && ProcessedOnce(s) && Spreading(g, s)
  }

  lemma InitInv(g: Graph, s: Net)
    requires IsGraph(g) && Init(g, s)
    ensures Inv(g, s)
  {
    forall n: nat | n < |s.peers| ensures s.peers[n] == PeerState([], map[], []) {
    }
  }

  lemma BroadcastKnowledge(g: Graph, s: Net, n: nat, id: string)
    requires CanBroadcast(g, s, n, id)
    ensures forall m, k :: Knows(Broadcast(g, s, n, id), m, k) <==> Knows(s, m, k) || (m == n && k == id)
    ensures forall m, p, k :: Heard(Broadcast(g, s, n, id), m, p, k) <==> Heard(s, m, p, k)
  {
  }

  lemma BroadcastProcessedOnce(g: Graph, s: Net, n: nat, id: string)
    requires CanBroadcast(g, s, n, id) && KnowledgeSound(s) && ProcessedOnce(s)
    ensures ProcessedOnce(Broadcast(g, s, n, id))
  {
    var s' := Broadcast(g, s, n, id);
    BroadcastKnowledge(g, s, n, id);
    BroadcastHops(g, s, n, id);
    assert forall m :: 0 <= m < |s.peers| ==> s'.peers[m].processed == s.peers[m].processed;
    hide Broadcast, NoDuplicates, Knows, Heard;
    forall m: nat, k: string | m < |s.peers| ensures Learned(s', m, k) <==> Learned(s, m, k) {
      assert k == id ==> !Knows(s, m, k);
    }
  }

  lemma BroadcastKnowledgeSound(g: Graph, s: Net, n: nat, id: string)
    requires CanBroadcast(g, s, n, id) && KnowledgeSound(s)
    ensures KnowledgeSound(Broadcast(g, s, n, id)) && !Knows(s, n, id)
  {
    BroadcastKnowledge(g, s, n, id);
    BroadcastHops(g, s, n, id);
    hide Broadcast, Knows, Heard;
  }

  lemma BroadcastInv(g: Graph, s: Net, n: nat, id: string)
    requires Inv(g, s) && CanBroadcast(g, s, n, id)
    ensures Inv(g, Broadcast(g, s, n, id))
  {
    var s' := Broadcast(g, s, n, id);
    BroadcastKnowledge(g, s, n, id);
    BroadcastHops(g, s, n, id);
    BroadcastProcessedOnce(g, s, n, id);
    BroadcastKnowledgeSound(g, s, n, id);
    assert |s'.peers| == |g| && id !in s.origins;
    hide Broadcast, Knows, Heard, ProcessedOnce, IsGraph, HopsOnce, Spreading, KnowledgeSound;
    StartedHops(g, s, s', n, id);
    SpreadFrom(g, s, s', n, id);
  }

  /** A peer that learns a message and starts its hops keeps hops on edges and single. */
  lemma StartedHops(g: Graph, s: Net, s': Net, n: nat, id: string)
    requires HopsOnce(g, s) && n < |g| && !Knows(s, n, id)
    requires forall m, k :: Knows(s', m, k) <==> Knows(s, m, k) || (m == n && k == id)
    requires s'.tasks == s.tasks + multiset(Hops(n, g[n], id)) && s'.sent == s.sent && s'.flight <= s.flight
    ensures HopsOnce(g, s')
  {
    NewHops(g, s, n, id);
    hide Knows, Edge, Hops;
    forall k ensures s'.tasks[k] + s'.sent[k] <= 1 && s'.flight[k] <= s'.sent[k] {
      assert s.tasks[k] + s.sent[k] <= 1 && s.flight[k] <= s.sent[k];
    }
    forall k | k in s'.tasks || k in s'.sent ensures Edge(g, k.src, k.dst) && Knows(s', k.src, k.id) {
      assert k in s.tasks || k in s.sent || k in Hops(n, g[n], id);
    }
  }

  lemma BroadcastHops(g: Graph, s: Net, n: nat, id: string)
    requires CanBroadcast(g, s, n, id)
    ensures var s' := Broadcast(g, s, n, id);
      s'.tasks == s.tasks + multiset(Hops(n, g[n], id)) && s'.sent == s.sent && s'.flight == s.flight
      && s'.origins == s.origins[id := n]
  {
  }

  /** The hops that a peer starts for a message it did not know are all new. */
  lemma NewHops(g: Graph, s: Net, n: nat, id: string)
    requires HopsOnce(g, s) && n < |g| && !Knows(s, n, id)
    ensures forall h :: h in Hops(n, g[n], id) <==> h.src == n && h.id == id && Edge(g, n, h.dst)
    ensures forall h :: multiset(Hops(n, g[n], id))[h] == if h in Hops(n, g[n], id) then 1 else 0
    ensures forall h :: h in Hops(n, g[n], id) ==> s.tasks[h] == 0 && s.sent[h] == 0
  {
  }

  lemma SpreadFrom(g: Graph, s: Net, s': Net, n: nat, id: string)
    requires Spreading(g, s) && n < |g|
    requires forall m, k :: Knows(s', m, k) <==> Knows(s, m, k) || (m == n && k == id)
    requires s'.tasks == s.tasks + multiset(Hops(n, g[n], id))
    requires forall h :: h in s.flight ==> h in s'.flight || (h.dst == n && h.id == id)
    ensures Spreading(g, s')
  {
    hide Knows;
    forall m, p, k | Edge(g, m, p) && Knows(s', m, k)
      ensures Hop(m, p, k) in s'.tasks || Hop(m, p, k) in s'.flight || Knows(s', p, k)
    {
      if m == n && k == id {
        assert Hop(m, p, k) in Hops(n, g[n], id);
      }
    }
  }

  lemma RunTaskInv(g: Graph, s: Net, h: Hop)
    requires Inv(g, s) && h in s.tasks
    ensures h.src < |s.peers| && Inv(g, RunTask(s, h))
  {
    assert Edge(g, h.src, h.dst);
    var s' := RunTask(s, h);
    RunTaskKnowledge(s, h);
    RunTaskHops(s, h);
    hide RunTask, Knows, Heard, ProcessedOnce, IsGraph, HopsOnce, Spreading;
    RunTaskHopsOnce(g, s, s', h);
    RunTaskSpreads(g, s, s', h);
  }

  lemma RunTaskHopsOnce(g: Graph, s: Net, s': Net, h: Hop)
    requires HopsOnce(g, s) && h in s.tasks
    requires forall n, id :: Knows(s', n, id) <==> Knows(s, n, id)
    requires s'.tasks == s.tasks - multiset{h}
    requires if Heard(s, h.src, h.dst, h.id) then s'.flight == s.flight && s'.sent == s.sent
             else s'.flight == s.flight + multiset{h} && s'.sent == s.sent + multiset{h}
    ensures HopsOnce(g, s')
  {
    hide Knows, Heard, Edge;
    forall k ensures s'.tasks[k] + s'.sent[k] <= 1 && s'.flight[k] <= s'.sent[k] {
      assert s.tasks[k] + s.sent[k] <= 1 && s.flight[k] <= s.sent[k];
    }
    forall k | k in s'.tasks || k in s'.sent ensures Edge(g, k.src, k.dst) && Knows(s', k.src, k.id) {
      assert k in s.tasks || k in s.sent;
    }
  }

  /** A suppressed send is not missed: the peer that delivered the message knows it. */
  lemma RunTaskSpreads(g: Graph, s: Net, s': Net, h: Hop)
    requires Spreading(g, s) && KnowledgeSound(s)
    requires forall n, id :: Knows(s', n, id) <==> Knows(s, n, id)
    requires s'.tasks == s.tasks - multiset{h}
    requires if Heard(s, h.src, h.dst, h.id) then s'.flight == s.flight else s'.flight == s.flight + multiset{h}
    ensures Spreading(g, s')
  {
    hide Knows, Heard;
    forall n, p, id | Edge(g, n, p) && Knows(s', n, id)
      ensures Hop(n, p, id) in s'.tasks || Hop(n, p, id) in s'.flight || Knows(s', p, id)
    {
      assert Hop(n, p, id) in s.tasks || Hop(n, p, id) in s.flight || Knows(s, p, id);
      if Hop(n, p, id) == h && Heard(s, h.src, h.dst, h.id) {
        assert Knows(s, p, id);
      }
    }
  }

  lemma RunTaskKnowledge(s: Net, h: Hop)
    requires h in s.tasks && h.src < |s.peers|
    ensures var s' := RunTask(s, h);
      && |s'.peers| == |s.peers|
      && (forall n, id :: Knows(s', n, id) <==> Knows(s, n, id))
      && (forall n, p, id :: Heard(s', n, p, id) <==> Heard(s, n, p, id))
      && (ProcessedOnce(s) ==> ProcessedOnce(s'))
  {
  }

  lemma RunTaskHops(s: Net, h: Hop)
    requires h in s.tasks && h.src < |s.peers|
    ensures var s' := RunTask(s, h);
      && s'.tasks == s.tasks - multiset{h} && s'.origins == s.origins
      && (if Heard(s, h.src, h.dst, h.id) then s'.flight == s.flight && s'.sent == s.sent
          else s'.flight == s.flight + multiset{h} && s'.sent == s.sent + multiset{h})
  {
  }

  lemma DeliverKnowledge(g: Graph, s: Net, h: Hop)
    requires h in s.flight && h.dst < |s.peers| == |g|
    ensures var s' := Deliver(g, s, h);
      && (forall m, k :: Knows(s', m, k) <==> Knows(s, m, k) || (m == h.dst && k == h.id))
      && (forall m, p, k :: Heard(s', m, p, k) <==> Heard(s, m, p, k) || (m == h.dst && p == h.src && k == h.id))
  {
    var s' := Deliver(g, s, h);
    var old', new' := s.peers[h.dst], s'.peers[h.dst];
    assert HeardFrom(new', h.src) == HeardFrom(old', h.src) + [h.id];
    assert forall p: nat :: p != h.src ==> HeardFrom(new', p) == HeardFrom(old', p);
  }

  lemma DeliverHops(g: Graph, s: Net, h: Hop)
    requires h in s.flight && h.dst < |s.peers| == |g|
    ensures var s' := Deliver(g, s, h);
      && s'.flight == s.flight - multiset{h} && s'.sent == s.sent && s'.origins == s.origins
      && s'.tasks == if Knows(s, h.dst, h.id) then s.tasks else s.tasks + multiset(Hops(h.dst, g[h.dst], h.id))
  {
  }

  lemma DeliverProcessedOnce(g: Graph, s: Net, h: Hop)
    requires h in s.flight && h.dst < |s.peers| == |g| && KnowledgeSound(s) && ProcessedOnce(s)
    ensures ProcessedOnce(Deliver(g, s, h))
  {
    var s', known := Deliver(g, s, h), Knows(s, h.dst, h.id);
    DeliverKnowledge(g, s, h);
    DeliverHops(g, s, h);
    assert s'.peers[h.dst].processed == s.peers[h.dst].processed + if known then [] else [h.id];
    assert forall m :: 0 <= m < |s.peers| && m != h.dst ==> s'.peers[m].processed == s.peers[m].processed;
    assert !known ==> !(h.id in s.origins && s.origins[h.id] == h.dst);
    hide Deliver, Knows, Heard;
    forall m: nat, k: string | m < |s.peers|
      ensures Learned(s', m, k) <==> Learned(s, m, k) || (!known && m == h.dst && k == h.id)
    {
    }
    assert !known ==> !Learned(s, h.dst, h.id);
    hide Learned;
  }

  lemma DeliverInv(g: Graph, s: Net, h: Hop)
    requires Inv(g, s) && h in s.flight
    ensures h.dst < |s.peers| && Inv(g, Deliver(g, s, h))
  {
    assert h in s.sent && Edge(g, h.src, h.dst);
    assert Edge(g, h.dst, h.src);
    var s' := Deliver(g, s, h);
    DeliverKnowledge(g, s, h);
    DeliverHops(g, s, h);
    DeliverProcessedOnce(g, s, h);
    assert |s'.peers| == |g|;
    hide Deliver, Knows, Heard, ProcessedOnce, IsGraph, HopsOnce, Spreading;
    DeliverHopsOnce(g, s, s', h);
    DeliverSpreads(g, s, s', h);
  }

  lemma DeliverHopsOnce(g: Graph, s: Net, s': Net, h: Hop)
    requires HopsOnce(g, s) && h in s.flight && h.dst < |g|
    requires forall m, k :: Knows(s', m, k) <==> Knows(s, m, k) || (m == h.dst && k == h.id)
    requires s'.flight == s.flight - multiset{h} && s'.sent == s.sent
    requires s'.tasks == if Knows(s, h.dst, h.id) then s.tasks else s.tasks + multiset(Hops(h.dst, g[h.dst], h.id))
    ensures HopsOnce(g, s')
  {
    hide Knows, Edge, Hops;
    if Knows(s, h.dst, h.id) {
      forall k ensures s'.tasks[k] + s'.sent[k] <= 1 && s'.flight[k] <= s'.sent[k] {
        assert s.tasks[k] + s.sent[k] <= 1 && s.flight[k] <= s.sent[k];
      }
    } else {
      StartedHops(g, s, s', h.dst, h.id);
    }
  }

  lemma DeliverSpreads(g: Graph, s: Net, s': Net, h: Hop)
    requires Spreading(g, s) && h in s.flight && h.dst < |g|
    requires forall m, k :: Knows(s', m, k) <==> Knows(s, m, k) || (m == h.dst && k == h.id)
    requires s'.flight == s.flight - multiset{h}
    requires s'.tasks == if Knows(s, h.dst, h.id) then s.tasks else s.tasks + multiset(Hops(h.dst, g[h.dst], h.id))
    ensures Spreading(g, s')
  {
    hide Knows;
    if Knows(s, h.dst, h.id) {
      forall n, p, id | Edge(g, n, p) && Knows(s', n, id)
        ensures Hop(n, p, id) in s'.tasks || Hop(n, p, id) in s'.flight || Knows(s', p, id)
      {
        assert Hop(n, p, id) in s.tasks || Hop(n, p, id) in s.flight || Knows(s, p, id);
      }
    } else {
      SpreadFrom(g, s, s', h.dst, h.id);
    }
  }

  // ---------------------------------------------------------------- executions

  ghost predicate IsExecution(g: Graph, ss: seq<Net>) {
    |ss| > 0 && Init(g, ss[0]) && forall i :: 0 <= i < |ss| - 1 ==> Step(g, ss[i], ss[i + 1])
  }

  lemma StepInv(g: Graph, s: Net, s': Net)
    requires Inv(g, s) && Step(g, s, s')
    ensures Inv(g, s')
  {
    hide Inv, RunTask, Deliver, Broadcast;
    if h :| h in s.tasks && h.src < |s.peers| && s' == RunTask(s, h) {
      RunTaskInv(g, s, h);
    } else if h :| h in s.flight && h.dst < |s.peers| == |g| && s' == Deliver(g, s, h) {
      DeliverInv(g, s, h);
    } else {
      var n, id :| CanBroadcast(g, s, n, id) && s' == Broadcast(g, s, n, id);
      BroadcastInv(g, s, n, id);
    }
  }

  lemma {:induction false} EveryStateInv(g: Graph, ss: seq<Net>, i: nat)
    requires IsGraph(g) && IsExecution(g, ss) && i < |ss|
    ensures Inv(g, ss[i])
  {
    hide Inv, Step;
    if i == 0 {
      InitInv(g, ss[0]);
    } else {
      EveryStateInv(g, ss, i - 1);
      assert Step(g, ss[i - 1], ss[i - 1 + 1]);
      StepInv(g, ss[i - 1], ss[i]);
    }
  }

  /** At most one copy of a message ever crosses a directed edge, and no peer processes a message twice. */
  lemma FloodIsFrugal(g: Graph, ss: seq<Net>, i: nat)
    requires IsGraph(g) && IsExecution(g, ss) && i < |ss|
    ensures forall h :: ss[i].sent[h] <= 1
    ensures forall n :: 0 <= n < |ss[i].peers| ==> NoDuplicates(ss[i].peers[n].processed)
  {
    EveryStateInv(g, ss, i);
    forall h ensures ss[i].sent[h] <= 1 {
      assert ss[i].tasks[h] + ss[i].sent[h] <= 1;
    }
  }

  lemma {:induction false} OccursOnce(list: seq<string>, x: string)
    requires NoDuplicates(list)
    ensures multiset(list)[x] == if x in list then 1 else 0
  {
    if list != [] {
      var init := list[..|list| - 1];
      OccursOnce(init, x);
      assert list == init + [list[|list| - 1]];
    }
  }

  /** Every message that a peer knows was handed to its handlers exactly once, unless the peer broadcast it itself. */
  lemma KnownIsProcessedOnce(g: Graph, ss: seq<Net>, i: nat, n: nat, id: string)
    requires IsGraph(g) && IsExecution(g, ss) && i < |ss| && n < |g|
    ensures |ss[i].peers| == |g|
    ensures multiset(ss[i].peers[n].processed)[id] == if Learned(ss[i], n, id) then 1 else 0
  {
    EveryStateInv(g, ss, i);
    OccursOnce(ss[i].peers[n].processed, id);
    hide IsExecution, Learned;
  }

  // ---------------------------------------------------------------- everybody learns every message

  ghost predicate Linked(g: Graph, n: nat, m: nat, k: nat)
    decreases k
  {
    if k == 0 then n == m else exists p :: Edge(g, n, p) && Linked(g, p, m, k - 1)
  }

  ghost predicate Joined(g: Graph, n: nat, m: nat) {
    exists k: nat :: Linked(g, n, m, k)
  }

  ghost predicate Connected(g: Graph) {
    forall n: nat, m: nat :: n < |g| && m < |g| ==> Joined(g, n, m)
  }

  lemma {:induction false} KnowledgeTravels(g: Graph, s: Net, n: nat, m: nat, k: nat, id: string)
    requires Inv(g, s) && s.tasks == multiset{} && s.flight == multiset{}
    requires Linked(g, n, m, k) && Knows(s, n, id)
    ensures Knows(s, m, id)
    decreases k
  {
    if k > 0 {
      var p :| Edge(g, n, p) && Linked(g, p, m, k - 1);
      KnowledgeTravels(g, s, p, m, k - 1, id);
    }
  }

  ghost predicate Known(s: Net, id: string) {
    exists n: nat :: Knows(s, n, id)
  }

  lemma StepKeepsKnown(g: Graph, s: Net, s': Net, id: string)
    requires Inv(g, s) && Step(g, s, s') && id in s'.origins && (id in s.origins ==> Known(s, id))
    ensures Known(s', id)
  {
    hide Inv, RunTask, Deliver, Broadcast, Knows;
    if h :| h in s.tasks && h.src < |s.peers| && s' == RunTask(s, h) {
      RunTaskKnowledge(s, h);
      RunTaskHops(s, h);
    } else if h :| h in s.flight && h.dst < |s.peers| == |g| && s' == Deliver(g, s, h) {
      DeliverKnowledge(g, s, h);
      DeliverHops(g, s, h);
    } else {
      var n, k :| CanBroadcast(g, s, n, k) && s' == Broadcast(g, s, n, k);
      BroadcastKnowledge(g, s, n, k);
      BroadcastHops(g, s, n, k);
      assert Knows(s', n, k);
    }
  }

  lemma {:induction false} BroadcastsAreKnown(g: Graph, ss: seq<Net>, i: nat, id: string)
    requires IsGraph(g) && IsExecution(g, ss) && i < |ss| && id in ss[i].origins
    ensures Known(ss[i], id)
  {
    hide Inv, Step, Known;
    if i > 0 {
      EveryStateInv(g, ss, i - 1);
      assert Step(g, ss[i - 1], ss[i - 1 + 1]);
      if id in ss[i - 1].origins {
        BroadcastsAreKnown(g, ss, i - 1, id);
      }
      StepKeepsKnown(g, ss[i - 1], ss[i], id);
    }
  }

  /** At quiescence on a connected graph every peer has every message that was ever broadcast, although sends to
      peers that delivered the message are suppressed. */
  lemma QuietMeansEverybodyKnows(g: Graph, ss: seq<Net>, i: nat, m: nat, id: string)
    requires IsGraph(g) && Connected(g) && IsExecution(g, ss) && i < |ss|
    requires ss[i].tasks == multiset{} && ss[i].flight == multiset{}
    requires id in ss[i].origins && m < |g|
    ensures Knows(ss[i], m, id)
  {
    EveryStateInv(g, ss, i);
    BroadcastsAreKnown(g, ss, i, id);
    var n: nat :| Knows(ss[i], n, id);
    assert Joined(g, n, m);
    var k: nat :| Linked(g, n, m, k);
    KnowledgeTravels(g, ss[i], n, m, k, id);
  }

  /** And everybody but its sender has processed it exactly once. */
  lemma QuietMeansEverybodyProcessed(g: Graph, ss: seq<Net>, i: nat, m: nat, id: string)
    requires IsGraph(g) && Connected(g) && IsExecution(g, ss) && i < |ss|
    requires ss[i].tasks == multiset{} && ss[i].flight == multiset{}
    requires id in ss[i].origins && m < |g|
    ensures |ss[i].peers| == |g|
    ensures multiset(ss[i].peers[m].processed)[id] == if ss[i].origins[id] == m then 0 else 1
  {
    QuietMeansEverybodyKnows(g, ss, i, m, id);
    KnownIsProcessedOnce(g, ss, i, m, id);
  }

  // ---------------------------------------------------------------- termination

  /** Peers that still have to learn a message. */
  ghost function Missing(s: Net): set<(nat, string)> {
    set n: nat, id | n < |s.peers| && id in s.origins && !Knows(s, n, id) :: (n, id)
  }

  ghost function Remaining(s: Net): nat {
    2 * |s.peers| * |Missing(s)| + 2 * |s.tasks| + |s.flight|
  }

  /** A neighbourhood is no larger than the graph. */
  lemma {:induction false} BoundedCount(a: set<nat>, n: nat)
    requires forall x :: x in a ==> x < n
    ensures |a| <= n
  {
    if n > 0 {
      BoundedCount(a - {n - 1}, n - 1);
    } else {
      assert a == {};
    }
  }

  lemma {:induction false} HopsCount(n: nat, neighbours: set<nat>, id: string)
    ensures |Hops(n, neighbours, id)| == |neighbours|
  {
    if neighbours == {} {
      assert Hops(n, neighbours, id) == {};
    } else {
      var p :| p in neighbours;
      HopsCount(n, neighbours - {p}, id);
      assert Hops(n, neighbours, id) == Hops(n, neighbours - {p}, id) + {Hop(n, p, id)};
    }
  }

  lemma FloodStepShrinks(g: Graph, s: Net, s': Net)
    requires Inv(g, s) && FloodStep(g, s, s')
    ensures Remaining(s') < Remaining(s)
  {
    if h :| h in s.tasks && h.src < |s.peers| && s' == RunTask(s, h) {
      RunTaskShrinks(s, h);
    } else {
      var h :| h in s.flight && h.dst < |s.peers| == |g| && s' == Deliver(g, s, h);
      DeliverShrinks(g, s, h);
    }
  }

  lemma RunTaskShrinks(s: Net, h: Hop)
    requires h in s.tasks && h.src < |s.peers|
    ensures Remaining(RunTask(s, h)) < Remaining(s)
  {
    var s' := RunTask(s, h);
    RunTaskKnowledge(s, h);
    RunTaskHops(s, h);
    hide RunTask, Knows;
    assert Missing(s') == Missing(s);
  }

  lemma DeliverShrinks(g: Graph, s: Net, h: Hop)
    requires Inv(g, s) && h in s.flight && h.dst < |s.peers| == |g|
    ensures Remaining(Deliver(g, s, h)) < Remaining(s)
  {
    var s' := Deliver(g, s, h);
    DeliverKnowledge(g, s, h);
    DeliverHops(g, s, h);
    assert |s'.peers| == |s.peers|;
    assert h in s.sent && Knows(s, h.src, h.id) && h.id in s.origins;
    hide Deliver, Knows, Inv, IsGraph, Missing, Hops;
    DeliverMissing(s, s', h);
    if Knows(s, h.dst, h.id) {
      assert s'.tasks == s.tasks && |s'.flight| < |s.flight|;
    } else {
      NeighbourhoodFits(g, h.dst);
      HopsCount(h.dst, g[h.dst], h.id);
      DeliverWeight(|g|, |Missing(s')|, |s.tasks|, |g[h.dst]|, |s.flight|);
    }
  }

  lemma DeliverWeight(n: nat, missing: nat, tasks: nat, started: nat, flight: nat)
    requires started <= n && flight > 0
    ensures 2 * n * missing + 2 * (tasks + started) + (flight - 1) < 2 * n * (missing + 1) + 2 * tasks + flight
  {
    assert 2 * n * (missing + 1) == 2 * n * missing + 2 * n;
  }

  lemma DeliverMissing(s: Net, s': Net, h: Hop)
    requires |s'.peers| == |s.peers| && s'.origins == s.origins && h.dst < |s.peers| && h.id in s.origins
    requires forall m, k :: Knows(s', m, k) <==> Knows(s, m, k) || (m == h.dst && k == h.id)
    ensures |Missing(s)| == |Missing(s')| + if Knows(s, h.dst, h.id) then 0 else 1
  {
    hide Knows;
    if Knows(s, h.dst, h.id) {
      assert Missing(s') == Missing(s);
    } else {
      assert Missing(s) == Missing(s') + {(h.dst, h.id)};
      assert (h.dst, h.id) !in Missing(s');
    }
  }

  lemma NeighbourhoodFits(g: Graph, n: nat)
    requires IsGraph(g) && n < |g|
    ensures |g[n]| <= |g|
  {
    forall x | x in g[n] ensures x < |g| {
      assert Edge(g, n, x);
      assert Edge(g, x, n);
    }
    BoundedCount(g[n], |g|);
  }

  ghost predicate IsFlood(g: Graph, ss: seq<Net>) {
    |ss| > 0 && forall i :: 0 <= i < |ss| - 1 ==> FloodStep(g, ss[i], ss[i + 1])
  }

  /** The flood terminates: after any execution, no more than Remaining steps can follow without a new
      broadcast. */
  lemma {:induction false} FloodTerminates(g: Graph, ss: seq<Net>)
    requires IsFlood(g, ss) && Inv(g, ss[0])
    ensures |ss| - 1 <= Remaining(ss[0])
    decreases |ss|
  {
    hide Inv, FloodStep, Remaining;
    if |ss| > 1 {
      assert FloodStep(g, ss[0], ss[0 + 1]);
      FloodStepShrinks(g, ss[0], ss[1]);
      FloodStepIsStep(g, ss[0], ss[1]);
      StepInv(g, ss[0], ss[1]);
      forall i | 0 <= i < |ss[1..]| - 1 ensures FloodStep(g, ss[1..][i], ss[1..][i + 1]) {
        assert FloodStep(g, ss[i + 1], ss[i + 1 + 1]);
      }
      FloodTerminates(g, ss[1..]);
    }
  }

  lemma FloodStepIsStep(g: Graph, s: Net, s': Net)
    requires FloodStep(g, s, s')
    ensures Step(g, s, s')
  {
  }

  /** It never gets stuck before it is quiet. */
  lemma FloodProgresses(g: Graph, s: Net)
    requires Inv(g, s) && (s.tasks != multiset{} || s.flight != multiset{})
    ensures exists s' :: FloodStep(g, s, s')
  {
    if s.tasks != multiset{} {
      var h :| h in s.tasks;
      RunTaskInv(g, s, h);
      assert FloodStep(g, s, RunTask(s, h));
    } else {
      var h :| h in s.flight;
      DeliverInv(g, s, h);
      assert FloodStep(g, s, Deliver(g, s, h));
    }
  }
}
