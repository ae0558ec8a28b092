/** The exchange of public keys across the network (node-implementation/p2p_communication.go): who broadcasts when,
    and why nobody completes twice. Gossip delivers every broadcast once to every other node. */
module KeyExchange {
  import opened Sets
  import opened Buckets
  import opened PublicKeys

  /** `flight` holds the undelivered copies (sender, receiver), `sent` the number of broadcasts of each node,
      `asked` how often it was commanded to distribute its key. */
  datatype KeyNet = KeyNet(rings: seq<Ring>, flight: multiset<(nat, nat)>, sent: seq<nat>, asked: seq<nat>,
                           panicked: bool)

  datatype Event = Command(n: nat) | Deliver(src: nat, dst: nat)

  /** One copy for every other node. */
  function Copies(N: nat, n: nat): multiset<(nat, nat)> {
    multiset(set d: nat | d < N && d != n :: (n, d))
  }

  predicate Sized(own: seq<string>, s: KeyNet) {
    |s.rings| == |s.sent| == |s.asked| == |own|
  }

  predicate Enabled(own: seq<string>, s: KeyNet, e: Event) {
    Sized(own, s) &&
    match e
    case Command(n) => n < |own|
    case Deliver(src, dst) => src < |own| && dst < |own| && (src, dst) in s.flight
  }

  function Broadcast(N: nat, s: KeyNet, n: nat, broadcast: bool): KeyNet
    requires n < |s.sent|
  {
    if broadcast then s.(sent := s.sent[n := s.sent[n] + 1], flight := s.flight + Copies(N, n)) else s
  }

  function Next(own: seq<string>, s: KeyNet, e: Event): KeyNet
    requires Enabled(own, s, e)
  {
    match e
    case Command(n) =>
      var (ring, broadcast) := Ask(s.rings[n]);
      Broadcast(|own|, s.(rings := s.rings[n := ring], asked := s.asked[n := s.asked[n] + 1]), n, broadcast)
    case Deliver(src, dst) =>
      var (ring, broadcast, outcome) := Hear(|own|, s.rings[dst], own[src]);
      Broadcast(|own|, s.(rings := s.rings[dst := ring], flight := s.flight - multiset{(src, dst)},
                          panicked := s.panicked || outcome == Panicked), dst, broadcast)
  }

  function Start(own: seq<string>): KeyNet {
    KeyNet(seq(|own|, n requires 0 <= n < |own| => Ring([own[n]], false, false)), multiset{},
           seq(|own|, _ => 0), seq(|own|, _ => 0), false)
  }

  ghost predicate IsExecution(own: seq<string>, ss: seq<KeyNet>, es: seq<Event>) {
    && |ss| == |es| + 1 && ss[0] == Start(own)
    && forall i :: 0 <= i < |es| ==> Enabled(own, ss[i], es[i]) && ss[i + 1] == Next(own, ss[i], es[i])
  }

  // ---------------------------------------------------------------- invariant

  predicate Knows(own: seq<string>, s: KeyNet, n: nat, m: nat)
    requires Sized(own, s) && n < |own| && m < |own|
  {
    own[m] in s.rings[n].keys
  }

  /** One node: its keys, and whether it has broadcast its own. */
  ghost predicate RingOk(own: seq<string>, s: KeyNet, n: nat)
    requires Sized(own, s) && n < |own|
  {
    var r := s.rings[n];
    && NoDuplicates(r.keys) && own[n] in r.keys && Elements(r.keys) <= Elements(own)
    && (|r.keys| == |own| ==> Sorted(r.keys))
    && (r.built <==> |r.keys| == |own|)
    && s.sent[n] == (if r.sentInitial || |r.keys| > 1 then 1 else 0)
    && (r.sentInitial ==> s.asked[n] > 0)
  }

  /** One pair of nodes: a broadcast key is on its way or known, and never both. */
  ghost predicate LinkOk(own: seq<string>, s: KeyNet, n: nat, m: nat)
    requires Sized(own, s) && n < |own| && m < |own|
  {
    s.flight[(n, m)] == (if n != m && s.sent[n] == 1 && !Knows(own, s, m, n) then 1 else 0)
    && (n != m && Knows(own, s, m, n) ==> s.sent[n] == 1)
  }

  ghost predicate Inv(own: seq<string>, s: KeyNet) {
    && |own| >= 2 && NoDuplicates(own) && Sized(own, s) && !s.panicked
    && (forall n, m :: (n, m) in s.flight ==> n < |own| && m < |own|)
    && (forall n :: 0 <= n < |own| ==> RingOk(own, s, n))
    && (forall n, m :: 0 <= n < |own| && 0 <= m < |own| ==> LinkOk(own, s, n, m))
  }

  /** Nobody is commanded twice. */
  predicate AskedAtMost(s: KeyNet, limit: nat) {
    forall n :: 0 <= n < |s.asked| ==> s.asked[n] <= limit
  }

  lemma CopiesCount(N: nat, n: nat, a: nat, b: nat)
    ensures Copies(N, n)[(a, b)] == if a == n && b < N && b != n then 1 else 0
  {
  }

  lemma StartInv(own: seq<string>)
    requires |own| >= 2 && NoDuplicates(own)
    ensures Inv(own, Start(own))
  {
    var s := Start(own);
    forall n | 0 <= n < |own| ensures RingOk(own, s, n) {
      assert s.rings[n].keys == [own[n]];
    }
  }

  lemma CommandInv(own: seq<string>, s: KeyNet, n: nat)
    requires Inv(own, s) && Enabled(own, s, Command(n)) && AskedAtMost(Next(own, s, Command(n)), 1)
    ensures Inv(own, Next(own, s, Command(n)))
  {
    var s' := Next(own, s, Command(n));
    assert s'.asked[n] == s.asked[n] + 1;
    assert RingOk(own, s, n);
    forall k | 0 <= k < |own| ensures RingOk(own, s', k) {
      assert RingOk(own, s, k);
    }
    forall k, m | 0 <= k < |own| && 0 <= m < |own| ensures LinkOk(own, s', k, m) {
      hide Copies, NoDuplicates;
      assert LinkOk(own, s, k, m);
      CopiesCount(|own|, n, k, m);
    }
  }

  /** A copy under way brings a key that its receiver does not have, so its list was not complete. */
  lemma CopyIsNews(own: seq<string>, s: KeyNet, src: nat, dst: nat)
    requires Inv(own, s) && Enabled(own, s, Deliver(src, dst))
    ensures src != dst && s.sent[src] == 1 && !Knows(own, s, dst, src) && s.flight[(src, dst)] == 1
    ensures |s.rings[dst].keys| < |own| && !s.rings[dst].built
  {
    assert LinkOk(own, s, src, dst);
    assert RingOk(own, s, dst);
    var keys := s.rings[dst].keys;
    NoDuplicatesLength(keys);
    NoDuplicatesLength(own);
    assert own[src] in Elements(own) && own[src] !in Elements(keys);
    SubsetSize(Elements(keys), Elements(own));
  }

  /** The ring after the delivery. */
  lemma HeardRing(own: seq<string>, s: KeyNet, src: nat, dst: nat)
    requires Inv(own, s) && Enabled(own, s, Deliver(src, dst))
    ensures var r, (r', broadcast, outcome) := s.rings[dst], Hear(|own|, s.rings[dst], own[src]);
      && NoDuplicates(r'.keys) && Elements(r'.keys) == Elements(r.keys) + {own[src]}
      && |r'.keys| == |r.keys| + 1 && (|r'.keys| == |own| ==> Sorted(r'.keys))
      && r'.sentInitial == r.sentInitial && (r'.built <==> |r'.keys| == |own|)
      && broadcast == (s.sent[dst] == 0) && outcome != Panicked
  {
    CopyIsNews(own, s, src, dst);
    assert RingOk(own, s, dst);
    var r := s.rings[dst];
    var keys := Learn(|own|, r.keys, own[src]);
    LearnCollects(|own|, r.keys, own[src]);
    NoDuplicatesLength(r.keys);
    NoDuplicatesLength(keys);
    assert own[src] !in Elements(r.keys);
    assert |r.keys| >= 1;
    hide Learn, NoDuplicates, Sorted, Inv;
  }

  lemma DeliverInv(own: seq<string>, s: KeyNet, src: nat, dst: nat)
    requires Inv(own, s) && Enabled(own, s, Deliver(src, dst))
    ensures Inv(own, Next(own, s, Deliver(src, dst)))
  {
    var s' := Next(own, s, Deliver(src, dst));
    CopyIsNews(own, s, src, dst);
    HeardRing(own, s, src, dst);
    DeliverEffect(own, s, src, dst);
    hide Next, Hear, NoDuplicates, Sorted, Copies;
    forall k | 0 <= k < |own| ensures RingOk(own, s', k) {
      DeliverRing(own, s, src, dst, k);
    }
    forall k, m | 0 <= k < |own| && 0 <= m < |own| ensures LinkOk(own, s', k, m) {
      DeliverLink(own, s, src, dst, k, m);
    }
  }

  lemma DeliverRing(own: seq<string>, s: KeyNet, src: nat, dst: nat, k: nat)
    requires Inv(own, s) && Enabled(own, s, Deliver(src, dst)) && k < |own|
    ensures var s' := Next(own, s, Deliver(src, dst)); Sized(own, s') && RingOk(own, s', k)
  {
    CopyIsNews(own, s, src, dst);
    HeardRing(own, s, src, dst);
    DeliverEffect(own, s, src, dst);
    assert RingOk(own, s, k);
    assert own[src] in Elements(own) && own[k] in Elements(s.rings[k].keys);
    var s' := Next(own, s, Deliver(src, dst));
    if k == dst {
      assert own[k] in Elements(s'.rings[k].keys);
    } else {
      assert s'.rings[k] == s.rings[k] && s'.sent[k] == s.sent[k];
    }
    hide Next, Hear, NoDuplicates, Sorted, Copies, Inv;
  }

  lemma DeliverEffect(own: seq<string>, s: KeyNet, src: nat, dst: nat)
    requires Enabled(own, s, Deliver(src, dst))
    ensures var s', (r', broadcast, outcome) := Next(own, s, Deliver(src, dst)), Hear(|own|, s.rings[dst], own[src]);
      && Sized(own, s') && s'.rings == s.rings[dst := r'] && s'.asked == s.asked
      && s'.sent == (if broadcast then s.sent[dst := s.sent[dst] + 1] else s.sent)
      && s'.flight == s.flight - multiset{(src, dst)} + (if broadcast then Copies(|own|, dst) else multiset{})
      && s'.panicked == (s.panicked || outcome == Panicked)
  {
    hide Hear, Copies;
  }

  /** What a delivery changes, node by node and pair by pair. */
  lemma DeliverCounts(own: seq<string>, s: KeyNet, src: nat, dst: nat, k: nat, m: nat)
    requires Inv(own, s) && Enabled(own, s, Deliver(src, dst)) && k < |own| && m < |own|
    ensures var s' := Next(own, s, Deliver(src, dst));
      && Sized(own, s')
      && s'.sent[k] == (if k == dst && s.sent[k] == 0 then 1 else s.sent[k])
      && Knows(own, s', m, k) == (Knows(own, s, m, k) || (m == dst && own[k] == own[src]))
      && s'.flight[(k, m)] == s.flight[(k, m)] - (if (k, m) == (src, dst) then 1 else 0)
                              + (if k == dst && s.sent[k] == 0 && m != k then 1 else 0)
  {
    CopyIsNews(own, s, src, dst);
    HeardRing(own, s, src, dst);
    DeliverEffect(own, s, src, dst);
    CopiesCount(|own|, dst, k, m);
    var s' := Next(own, s, Deliver(src, dst));
    assert own[k] in Elements(s.rings[m].keys) <==> own[k] in s.rings[m].keys;
    assert own[k] in Elements(s'.rings[m].keys) <==> own[k] in s'.rings[m].keys;
    hide Next, Hear, NoDuplicates, Sorted, Copies, Inv;
  }

  lemma DeliverLink(own: seq<string>, s: KeyNet, src: nat, dst: nat, k: nat, m: nat)
    requires Inv(own, s) && Enabled(own, s, Deliver(src, dst)) && k < |own| && m < |own|
    ensures var s' := Next(own, s, Deliver(src, dst)); Sized(own, s') && LinkOk(own, s', k, m)
  {
    CopyIsNews(own, s, src, dst);
    DeliverCounts(own, s, src, dst, k, m);
    assert LinkOk(own, s, k, m) && RingOk(own, s, k) && RingOk(own, s, m) && (k != src ==> own[k] != own[src]);
    hide Next, NoDuplicates, Sorted, Inv, Knows;
  }

  // ---------------------------------------------------------------- executions

  lemma {:induction false} EveryStateInv(own: seq<string>, ss: seq<KeyNet>, es: seq<Event>, i: nat)
    requires |own| >= 2 && NoDuplicates(own) && IsExecution(own, ss, es) && i < |ss|
    requires forall k :: 0 <= k < |ss| ==> AskedAtMost(ss[k], 1)
    ensures Inv(own, ss[i])
  {
    hide Inv, Next, AskedAtMost, NoDuplicates;
    if i == 0 {
      StartInv(own);
    } else {
      EveryStateInv(own, ss, es, i - 1);
      assert ss[i - 1 + 1] == Next(own, ss[i - 1], es[i - 1]);
      match es[i - 1]
      case Command(n) => CommandInv(own, ss[i - 1], n);
      case Deliver(src, dst) => DeliverInv(own, ss[i - 1], src, dst);
    }
  }

  /** Each key is broadcast at most once, and nobody completes the exchange twice. */
  lemma NobodyPanics(own: seq<string>, ss: seq<KeyNet>, es: seq<Event>, i: nat)
    requires |own| >= 2 && NoDuplicates(own) && IsExecution(own, ss, es) && i < |ss|
    requires forall k :: 0 <= k < |ss| ==> AskedAtMost(ss[k], 1)
    ensures !ss[i].panicked
    ensures forall n :: 0 <= n < |ss[i].sent| ==> ss[i].sent[n] <= 1
  {
    EveryStateInv(own, ss, es, i);
    forall n | 0 <= n < |ss[i].sent| ensures ss[i].sent[n] <= 1 {
      assert RingOk(own, ss[i], n);
    }
  }

  /** When nothing is under way and somebody has broadcast its key, everybody holds the same complete sorted list. */
  lemma QuietMeansComplete(own: seq<string>, s: KeyNet, n: nat, m: nat)
    requires Inv(own, s) && s.flight == multiset{} && n < |own| && s.sent[n] == 1 && m < |own|
    ensures s.rings[m].built && |s.rings[m].keys| == |own| && Elements(s.rings[m].keys) == Elements(own)
    ensures s.rings[m].keys == SortStrings(own)
  {
    var r := s.rings[m];
    forall k | 0 <= k < |own| ensures s.sent[k] == 1 {
      if k != n {
        assert LinkOk(own, s, n, k) && RingOk(own, s, k);
        TwoKeys(s.rings[k].keys, own[n], own[k]);
      }
    }
    assert RingOk(own, s, m);
    forall h | h in Elements(own) ensures h in Elements(r.keys) {
      var k :| 0 <= k < |own| && own[k] == h;
      assert LinkOk(own, s, k, m);
    }
    NoDuplicatesLength(r.keys);
    NoDuplicatesLength(own);
    SameMultiset(r.keys, own);
    SortedIsUnique(r.keys, SortStrings(own));
  }

  lemma TwoKeys(keys: seq<string>, a: string, b: string)
    requires a in keys && b in keys && a != b
    ensures |keys| > 1
  {
    var i :| 0 <= i < |keys| && keys[i] == a;
    var j :| 0 <= j < |keys| && keys[j] == b;
  }

  // ---------------------------------------------------------------- running to quiescence

  /** Keys known at all nodes together. */
  function KeyCount(rings: seq<Ring>): nat {
    if rings == [] then 0 else KeyCount(rings[..|rings| - 1]) + |rings[|rings| - 1].keys|
  }

  lemma {:induction false} KeyCountUpdate(rings: seq<Ring>, i: nat, r: Ring)
    requires i < |rings|
    ensures KeyCount(rings[i := r]) == KeyCount(rings) - |rings[i].keys| + |r.keys|
  {
    var init := rings[..|rings| - 1];
    if i < |init| {
      KeyCountUpdate(init, i, r);
      assert rings[i := r][..|init|] == init[i := r];
    } else {
      assert rings[i := r][..|init|] == init;
    }
  }

  lemma {:induction false} KeyCountBounded(rings: seq<Ring>, bound: nat)
    requires forall i :: 0 <= i < |rings| ==> |rings[i].keys| <= bound
    ensures KeyCount(rings) <= bound * |rings|
  {
    if rings != [] {
      KeyCountBounded(rings[..|rings| - 1], bound);
      assert bound * |rings| == bound * (|rings| - 1) + bound;
    }
  }

  /** What is still unknown. */
  ghost function Unknown(own: seq<string>, s: KeyNet): nat
    requires Inv(own, s)
  {
    Bounded(own, s);
    |own| * |own| - KeyCount(s.rings)
  }

  lemma Bounded(own: seq<string>, s: KeyNet)
    requires Inv(own, s)
    ensures KeyCount(s.rings) <= |own| * |own|
  {
    forall n | 0 <= n < |own| ensures |s.rings[n].keys| <= |own| {
      assert RingOk(own, s, n);
      NoDuplicatesLength(s.rings[n].keys);
      NoDuplicatesLength(own);
      SubsetSize(Elements(s.rings[n].keys), Elements(own));
    }
    KeyCountBounded(s.rings, |own|);
  }

  /** Every delivery makes one more key known somewhere. */
  lemma DeliveryTeaches(own: seq<string>, s: KeyNet, src: nat, dst: nat)
    requires Inv(own, s) && Enabled(own, s, Deliver(src, dst))
    ensures var s' := Next(own, s, Deliver(src, dst));
      Inv(own, s') && s'.asked == s.asked && s'.sent[0] >= s.sent[0] && Unknown(own, s') == Unknown(own, s) - 1
  {
    DeliverInv(own, s, src, dst);
    HeardRing(own, s, src, dst);
    DeliverEffect(own, s, src, dst);
    KeyCountUpdate(s.rings, dst, Hear(|own|, s.rings[dst], own[src]).0);
    hide Next, Hear, Inv;
  }

  // ---------------------------------------------------------------- the limit is exact

  /** The same state, had the first node been commanded once more before it heard anything. */
  function Shadow(own: seq<string>, s: KeyNet): KeyNet
    requires |own| > 0 && Sized(own, s)
  {
    s.(flight := s.flight + Copies(|own|, 0), sent := s.sent[0 := s.sent[0] + 1], asked := s.asked[0 := s.asked[0] + 1])
  }

  /** The extra copies take no part in a delivery. */
  lemma ShadowDelivers(own: seq<string>, s: KeyNet, src: nat, dst: nat)
    requires |own| > 0 && Enabled(own, s, Deliver(src, dst))
    ensures Enabled(own, Shadow(own, s), Deliver(src, dst))
    ensures Sized(own, Next(own, s, Deliver(src, dst)))
    ensures Next(own, Shadow(own, s), Deliver(src, dst)) == Shadow(own, Next(own, s, Deliver(src, dst)))
  {
    hide Next, Hear, Copies;
    DeliverEffect(own, s, src, dst);
    DeliverEffect(own, Shadow(own, s), src, dst);
    var more := if Hear(|own|, s.rings[dst], own[src]).1 then Copies(|own|, dst) else multiset{};
    TakeAside(s.flight, Copies(|own|, 0), (src, dst), more);
  }

  lemma TakeAside(a: multiset<(nat, nat)>, b: multiset<(nat, nat)>, x: (nat, nat), c: multiset<(nat, nat)>)
    requires x in a
    ensures a + b - multiset{x} + c == (a - multiset{x} + c) + b
  {
  }

  /** A way of running on: states from ss[0], one event each. */
  ghost predicate Path(own: seq<string>, ss: seq<KeyNet>, es: seq<Event>) {
    |ss| == |es| + 1 && forall i :: 0 <= i < |es| ==> Enabled(own, ss[i], es[i]) && ss[i + 1] == Next(own, ss[i], es[i])
  }

  lemma PathPrepend(own: seq<string>, s: KeyNet, e: Event, ss: seq<KeyNet>, es: seq<Event>)
    requires Enabled(own, s, e) && Path(own, ss, es) && ss[0] == Next(own, s, e)
    ensures Path(own, [s] + ss, [e] + es)
  {
    hide Enabled, Next;
    var ts, fs := [s] + ss, [e] + es;
    forall i | 0 <= i < |fs| ensures Enabled(own, ts[i], fs[i]) && ts[i + 1] == Next(own, ts[i], fs[i]) {
      if i > 0 {
        assert ts[i] == ss[i - 1] && fs[i] == es[i - 1] && ts[i + 1] == ss[i - 1 + 1];
      }
    }
  }

  /** Let the exchange run out and then deliver a copy that is left over: its receiver completes once more. */
  lemma {:induction false} LeftoverPanics(own: seq<string>, s: KeyNet) returns (ss: seq<KeyNet>, es: seq<Event>)
    requires Inv(own, s) && s.sent[0] == 1
    ensures Path(own, ss, es) && ss[0] == Shadow(own, s) && ss[|es|].panicked
    ensures forall k :: 0 <= k < |ss| ==> ss[k].asked == Shadow(own, s).asked
    decreases Unknown(own, s)
  {
    InvShape(own, s);
    hide Inv, Next, Enabled, Path, Shadow, Unknown;
    if s.flight != multiset{} {
      var src, dst, s' := AnyDelivery(own, s);
      var ts, fs := LeftoverPanics(own, s');
      PathPrepend(own, Shadow(own, s), Deliver(src, dst), ts, fs);
      ss, es := [Shadow(own, s)] + ts, [Deliver(src, dst)] + fs;
      PathLengths(own, ts, fs);
    } else {
      ss, es := LastPath(own, s);
    }
  }

  lemma InvShape(own: seq<string>, s: KeyNet)
    requires Inv(own, s)
    ensures |own| >= 2 && Sized(own, s)
  {
  }

  /** Any copy under way can be delivered, with or without the extra ones. */
  lemma AnyDelivery(own: seq<string>, s: KeyNet) returns (src: nat, dst: nat, s': KeyNet)
    requires Inv(own, s) && s.sent[0] == 1 && s.flight != multiset{}
    ensures Inv(own, s') && s'.sent[0] == 1 && Unknown(own, s') < Unknown(own, s)
    ensures Enabled(own, Shadow(own, s), Deliver(src, dst))
    ensures Next(own, Shadow(own, s), Deliver(src, dst)) == Shadow(own, s')
    ensures Shadow(own, s').asked == Shadow(own, s).asked
  {
    var x :| x in s.flight;
    src, dst := x.0, x.1;
    assert (src, dst) in s.flight && src < |own| && dst < |own|;
    InvShape(own, s);
    hide Inv, Next, Unknown, Copies;
    DeliveryTeaches(own, s, src, dst);
    s' := Next(own, s, Deliver(src, dst));
    InvShape(own, s');
    SentOnce(own, s', 0);
    ShadowDelivers(own, s, src, dst);
  }

  lemma SentOnce(own: seq<string>, s: KeyNet, n: nat)
    requires Inv(own, s) && n < |own|
    ensures s.sent[n] <= 1
  {
    assert RingOk(own, s, n);
  }

  lemma LastPath(own: seq<string>, s: KeyNet) returns (ss: seq<KeyNet>, es: seq<Event>)
    requires Inv(own, s) && s.sent[0] == 1 && s.flight == multiset{}
    ensures Path(own, ss, es) && ss[0] == Shadow(own, s) && ss[|es|].panicked
    ensures forall k :: 0 <= k < |ss| ==> ss[k].asked == Shadow(own, s).asked
  {
    InvShape(own, s);
    hide Inv, Next, Enabled, Shadow, Path;
    QuietMeansComplete(own, s, 0, 1);
    LastDelivery(own, s);
    var last := Shadow(own, s);
    ss, es := [last, Next(own, last, Deliver(0, 1))], [Deliver(0, 1)];
    OneStepPath(own, last, Deliver(0, 1));
  }

  lemma OneStepPath(own: seq<string>, s: KeyNet, e: Event)
    requires Enabled(own, s, e)
    ensures Path(own, [s, Next(own, s, e)], [e])
  {
    hide Enabled, Next;
  }

  lemma PathLengths(own: seq<string>, ss: seq<KeyNet>, es: seq<Event>)
    requires Path(own, ss, es)
    ensures |ss| == |es| + 1
  {
  }

  /** A complete node that hears one of its keys again panics. */
  lemma CompletePanics(N: nat, r: Ring, key: string)
    requires key in r.keys && |r.keys| == N && r.built
    ensures Hear(N, r, key).2 == Panicked
  {
    SortedLength(r.keys);
    hide SortStrings;
  }

  lemma LastDelivery(own: seq<string>, s: KeyNet)
    requires Inv(own, s) && s.rings[1].built && |s.rings[1].keys| == |own| && Elements(s.rings[1].keys) == Elements(own)
    ensures var last := Shadow(own, s);
      && Enabled(own, last, Deliver(0, 1)) && Next(own, last, Deliver(0, 1)).panicked
      && Next(own, last, Deliver(0, 1)).asked == last.asked
  {
    InvShape(own, s);
    CopiesCount(|own|, 0, 0, 1);
    assert own[0] in Elements(own);
    CompletePanics(|own|, s.rings[1], own[0]);
    assert Enabled(own, Shadow(own, s), Deliver(0, 1));
    DeliverEffect(own, Shadow(own, s), 0, 1);
    hide Inv, Hear, Copies, Next, Elements;
  }

  /** The first node is commanded twice at the very start. */
  lemma CommandedTwice(own: seq<string>) returns (s: KeyNet)
    requires |own| >= 2 && NoDuplicates(own)
    ensures Enabled(own, Start(own), Command(0)) && s == Next(own, Start(own), Command(0))
    ensures Inv(own, s) && s.sent[0] == 1 && AskedAtMost(Shadow(own, s), 2) && AskedAtMost(s, 2)
    ensures Enabled(own, s, Command(0)) && Next(own, s, Command(0)) == Shadow(own, s)
  {
    s := Next(own, Start(own), Command(0));
    StartInv(own);
    CommandInv(own, Start(own), 0);
    hide Inv, Copies;
  }

  ghost predicate PanicFree(own: seq<string>, limit: nat) {
    forall ss: seq<KeyNet>, es: seq<Event>, i: nat ::
      IsExecution(own, ss, es) && i < |ss| && (forall k :: 0 <= k < |ss| ==> AskedAtMost(ss[k], limit)) ==>
        !ss[i].panicked
  }

  lemma TwicePanics(own: seq<string>, limit: nat)
    requires |own| >= 2 && NoDuplicates(own) && limit >= 2
    ensures !PanicFree(own, limit)
  {
    hide Inv, Next, Enabled, Start, Shadow;
    var s := CommandedTwice(own);
    var ts, fs := LeftoverPanics(own, s);
    PathPrepend(own, s, Command(0), ts, fs);
    PathPrepend(own, Start(own), Command(0), [s] + ts, [Command(0)] + fs);
    var ss, es := [Start(own)] + ([s] + ts), [Command(0)] + ([Command(0)] + fs);
    assert IsExecution(own, ss, es);
    NobodyAsked(own);
    forall k | 0 <= k < |ss| ensures AskedAtMost(ss[k], limit) {
      if k >= 2 {
        assert ss[k] == ts[k - 2];
      }
      MoreAllowed(ss[k], 2, limit);
    }
    assert ss[|fs| + 2] == ts[|fs|];
  }

  lemma MoreAllowed(s: KeyNet, a: nat, b: nat)
    requires a <= b
    ensures AskedAtMost(s, a) ==> AskedAtMost(s, b)
  {
  }

  lemma NobodyAsked(own: seq<string>)
    ensures AskedAtMost(Start(own), 2)
  {
  }

  /** Whatever the distinct keys, no execution panics exactly when no node is commanded more than once. */
  lemma PanicFreeIff(own: seq<string>, limit: nat)
    requires |own| >= 2 && NoDuplicates(own)
    ensures PanicFree(own, limit) <==> limit <= 1
  {
    if limit <= 1 {
      forall ss: seq<KeyNet>, es: seq<Event>, i: nat
        | IsExecution(own, ss, es) && i < |ss| && (forall k :: 0 <= k < |ss| ==> AskedAtMost(ss[k], limit))
        ensures !ss[i].panicked
      {
        forall k | 0 <= k < |ss| ensures AskedAtMost(ss[k], 1) {
          MoreAllowed(ss[k], limit, 1);
        }
        NobodyPanics(own, ss, es, i);
      }
    } else {
      TwicePanics(own, limit);
    }
  }
}
