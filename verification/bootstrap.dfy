/** The bootstrap handshake: server (bootstrap-server/src/Communication.js, State.js), client
    (node-implementation/bootstrap_client.go), and both together over FIFO channels. */
module Bootstrap {
  import opened Types
  import opened Sets
  import opened Buckets

  // ---------------------------------------------------------------- messages

  datatype ClientMsg = ClientMsg(kind: string, id: string)

  /** The payload is a string or a node's view of the network. */
  datatype Data = Text(text: string) | View(view: nat)

  datatype ServerMsg = ServerMsg(kind: string, data: Data)

  const HELLO_OK := ServerMsg("hello", Text("ok"))
  const SEND_READY := ServerMsg("send_ready", Text("ok"))

  function SendConf(view: nat): ServerMsg {
    ServerMsg("send_conf", View(view))
  }

  // ---------------------------------------------------------------- server

  datatype ServerPhase = Booting | ReceiveHello | SendConfigs | SendReady | Finish

  function IncrementState(p: ServerPhase): ServerPhase {
    match p
    case Booting => ReceiveHello
    case ReceiveHello => SendConfigs
    case SendConfigs => SendReady
    case SendReady => Finish
    case Finish => Finish
  }

  function Rank(p: ServerPhase): nat {
    match p
    case Booting => 0
    case ReceiveHello => 1
    case SendConfigs => 2
    case SendReady => 3
    case Finish => 4
  }

  /** `timer` is the running interval that looks for network.json. */
  datatype ServerState = ServerState(phase: ServerPhase, nodesConfigs: map<string, bool>, nodesReady: set<string>,
                                     storedConfigs: nat, timer: bool)

  /** What processing a message sends: nothing, a reply, or a broadcast to all open sockets. */
  datatype Sends = Nothing | Reply(msg: ServerMsg) | ToAll(msg: ServerMsg)

  function ServerReceives(target: nat, s: ServerState, msg: ClientMsg): (ServerState, Sends) {
    match s.phase
    case Booting => (s, Nothing)
    case ReceiveHello =>
      if msg.kind == "hello" && msg.id !in s.nodesConfigs then
        var configs := s.nodesConfigs[msg.id := false];
        if |configs| == target then (s.(nodesConfigs := configs, phase := SendConfigs, timer := true), Reply(HELLO_OK))
        else (s.(nodesConfigs := configs), Reply(HELLO_OK))
      else (s, Nothing)
    case SendConfigs =>
      if msg.kind == "conf" then
        var s1 := if msg.id in s.nodesConfigs && !s.nodesConfigs[msg.id]
                  then s.(nodesConfigs := s.nodesConfigs[msg.id := true], storedConfigs := s.storedConfigs + 1) else s;
        if s1.storedConfigs == target then (s1.(phase := SendReady), ToAll(SEND_READY)) else (s1, Nothing)
      else (s, Nothing)
    case SendReady =>
      if msg.kind == "ready" then
        var ready := s.nodesReady + {msg.id};
        (s.(nodesReady := ready, phase := if |ready| == target then Finish else SendReady), Nothing)
      else (s, Nothing)
    case Finish => (s, Nothing)
  }

  /** The message that a phase waits for. */
  predicate Awaited(p: ServerPhase, kind: string) {
    || (p == ReceiveHello && kind == "hello")
    || (p == SendConfigs && kind == "conf")
    || (p == SendReady && kind == "ready")
  }

  /** Messages of any other kind change nothing and are not answered. */
  lemma ServerDropsOthers(target: nat, s: ServerState, msg: ClientMsg)
    requires !Awaited(s.phase, msg.kind)
    ensures ServerReceives(target, s, msg) == (s, Nothing)
  {
  }

  /** The phases end as soon as they can: the state is one between messages. */
  predicate Pending(target: nat, s: ServerState) {
    && (s.phase == SendConfigs ==> s.storedConfigs < target)
    && (s.phase == SendReady ==> |s.nodesReady| < target)
  }

  /** A repeated message changes nothing and is not answered. */
  lemma ServerIgnoresRepeats(target: nat, s: ServerState, msg: ClientMsg)
    requires Pending(target, s)
    ensures var s' := ServerReceives(target, s, msg).0; ServerReceives(target, s', msg) == (s', Nothing)
  {
    var s' := ServerReceives(target, s, msg).0;
    if s.phase == SendReady && msg.kind == "ready" {
      assert s.nodesReady + {msg.id} + {msg.id} == s.nodesReady + {msg.id};
    }
  }

  class Server {
    const targetNumNodes: nat
    var phase: ServerPhase
    var nodesConfigs: map<string, bool>
    var nodesReady: set<string>
    var storedConfigs: nat
    var timer: bool

    function State(): ServerState
      reads this
    {
      ServerState(phase, nodesConfigs, nodesReady, storedConfigs, timer)
    }

    constructor (targetNumNodes: nat)
      ensures this.targetNumNodes == targetNumNodes && State() == ServerState(Booting, map[], {}, 0, false)
    {
      this.targetNumNodes := targetNumNodes;
      phase, nodesConfigs, nodesReady, storedConfigs, timer := Booting, map[], {}, 0, false;
    }

    method Increment()
      modifies this`phase
      ensures phase == IncrementState(old(phase))
    {
      if phase == Booting {
        phase := ReceiveHello;
      } else if phase == ReceiveHello {
        phase := SendConfigs;
      } else if phase == SendConfigs {
        phase := SendReady;
      } else {
        phase := Finish;
      }
    }

    method ProcessMessage(msg: ClientMsg) returns (sends: Sends)
      modifies this
      ensures (State(), sends) == ServerReceives(targetNumNodes, old(State()), msg)
    {
      sends := Nothing;
      if phase == ReceiveHello {
        if msg.kind == "hello" && msg.id !in nodesConfigs {
          nodesConfigs := nodesConfigs[msg.id := false];
          sends := Reply(HELLO_OK);
          if |nodesConfigs| == targetNumNodes {
            Increment();
            timer := true;
          }
        }
      } else if phase == SendConfigs {
        if msg.kind == "conf" {
          if msg.id in nodesConfigs && !nodesConfigs[msg.id] {
            nodesConfigs := nodesConfigs[msg.id := true];
            storedConfigs := storedConfigs + 1;
          }
          if storedConfigs == targetNumNodes {
            Increment();
            sends := ToAll(SEND_READY);
          }
        }
      } else if phase == SendReady {
        if msg.kind == "ready" {
          nodesReady := nodesReady + {msg.id};
          if |nodesReady| == targetNumNodes {
            Increment();
          }
        }
      }
    }
  }

  // ---------------------------------------------------------------- client

  datatype ClientPhase = SendHello | ReceiveHelloConfirm | ReceiveConfig | ReceiveReady | Finished | Crashed

  datatype ClientState = ClientState(phase: ClientPhase, config: Option<nat>)

  /** The receive loop never looks at the kind of a message; it decodes by phase. A payload of the wrong shape is
      ignored for the configuration and fatal for the ready message. */
  function ClientReceives(id: string, c: ClientState, msg: ServerMsg): (ClientState, Option<ClientMsg>) {
    match c.phase
    case SendHello => (c.(phase := Crashed), None)
    case ReceiveHelloConfirm =>
      (if msg.data == Text("ok") then c.(phase := ReceiveConfig) else c, None)
    case ReceiveConfig =>
      (ClientState(ReceiveReady, if msg.data.View? then Some(msg.data.view) else c.config), Some(ClientMsg("conf", id)))
    case ReceiveReady =>
      if msg.data.View? then (c.(phase := Crashed), None)
      else (c.(phase := Finished), Some(ClientMsg("ready", id)))
    case Finished => (c, None)
    case Crashed => (c, None)
  }

  /** The kind of a message never matters. */
  lemma ClientIgnoresKind(id: string, c: ClientState, kind: string, kind': string, data: Data)
    ensures ClientReceives(id, c, ServerMsg(kind, data)) == ClientReceives(id, c, ServerMsg(kind', data))
  {
  }

  /** Exactly a message before the hello, and a view in place of the ready message, are fatal. */
  lemma ClientFailsIff(id: string, c: ClientState, msg: ServerMsg)
    requires c.phase != Crashed
    ensures ClientReceives(id, c, msg).0.phase == Crashed <==>
              c.phase == SendHello || (c.phase == ReceiveReady && msg.data.View?)
  {
  }

  /** A wrong answer to the hello is waited out, a text in place of the configuration is taken for one. */
  lemma ClientToleratesText(id: string, c: ClientState, msg: ServerMsg, text: string)
    requires msg.data == Text(text)
    ensures c.phase == ReceiveHelloConfirm && text != "ok" ==> ClientReceives(id, c, msg) == (c, None)
    ensures c.phase == ReceiveConfig ==>
              ClientReceives(id, c, msg) == (c.(phase := ReceiveReady), Some(ClientMsg("conf", id)))
    ensures c.phase == Finished ==> ClientReceives(id, c, msg) == (c, None)
  {
  }

  class Client {
    const id: string
    var phase: ClientPhase
    var configMessage: Option<nat>
    var readyToClose: bool

    function State(): ClientState
      reads this
    {
      ClientState(phase, configMessage)
    }

    constructor (id: string)
      ensures this.id == id && State() == ClientState(SendHello, None) && !readyToClose
    {
      this.id := id;
      phase, configMessage, readyToClose := SendHello, None, false;
    }

    /** The phase changes before the message leaves, so a fast reply is never missed. */
    method SayHello() returns (hello: ClientMsg)
      requires phase == SendHello
      modifies this
      ensures State() == old(State()).(phase := ReceiveHelloConfirm) && hello == ClientMsg("hello", id)
      ensures readyToClose == old(readyToClose)
    {
      phase := ReceiveHelloConfirm;
      hello := ClientMsg("hello", id);
    }

    method HandleMessage(msg: ServerMsg) returns (reply: Option<ClientMsg>)
      modifies this
      ensures (State(), reply) == ClientReceives(id, old(State()), msg)
      ensures readyToClose <==> old(readyToClose) || (old(phase) == ReceiveReady && phase == Finished)
    {
      reply := None;
      match phase {
        case ReceiveHelloConfirm =>
          if msg.data == Text("ok") {
            phase := ReceiveConfig;
          }
        case ReceiveConfig =>
          if msg.data.View? {
            configMessage := Some(msg.data.view);
          }
          phase := ReceiveReady;
          reply := Some(ClientMsg("conf", id));
        case ReceiveReady =>
          if msg.data.View? {
            phase := Crashed;
          } else {
            reply := Some(ClientMsg("ready", id));
            phase := Finished;
            readyToClose := true;
          }
        case Finished =>
        case Crashed =>
        case SendHello =>
          phase := Crashed;
      }
    }
  }

  // ---------------------------------------------------------------- the system

  /** `connected[n]` once client n has a socket; it is open until the client finishes. `views[n]` is the view sent
      to client n, once configurations have been sent. */
  datatype Handshake = Handshake(
    server: ServerState,
    clients: seq<ClientState>,
    connected: seq<bool>,
    up: seq<seq<ClientMsg>>,
    down: seq<seq<ServerMsg>>,
    views: Option<seq<nat>>)

  predicate Sized(ids: seq<string>, s: Handshake) {
    |ids| == |s.clients| == |s.connected| == |s.up| == |s.down| && (s.views.Some? ==> |s.views.value| == |ids|)
  }

  predicate Open(s: Handshake, n: nat)
    requires n < |s.clients| == |s.connected|
  {
    s.connected[n] && s.clients[n].phase != Finished
  }

  function Dispatch(s: Handshake, sender: nat, sends: Sends, n: nat): seq<ServerMsg>
    requires n < |s.clients| == |s.connected| == |s.down|
  {
    match sends
    case Nothing => s.down[n]
    case Reply(msg) => if n == sender then s.down[n] + [msg] else s.down[n]
    case ToAll(msg) => if Open(s, n) then s.down[n] + [msg] else s.down[n]
  }

  datatype Event =
    | Listening
    | Connect(n: nat)
    | Hello(n: nat)
    | ServerReads(n: nat)
    | ClientReads(n: nat)
    | Configurations(views: seq<nat>)

  predicate Enabled(ids: seq<string>, s: Handshake, e: Event) {
    Sized(ids, s) &&
    match e
    case Listening => s.server.phase == Booting
    case Connect(n) => n < |ids| && s.server.phase != Booting && !s.connected[n]
    case Hello(n) => n < |ids| && s.connected[n] && s.clients[n].phase == SendHello
    case ServerReads(n) => n < |ids| && s.up[n] != []
    case ClientReads(n) => n < |ids| && s.down[n] != [] && s.clients[n].phase != Finished
    case Configurations(views) => s.server.timer && |views| == |ids|
  }

  function Next(ids: seq<string>, s: Handshake, e: Event): Handshake
    requires Enabled(ids, s, e)
  {
    match e
    case Listening => s.(server := s.server.(phase := IncrementState(Booting)))
    case Connect(n) => s.(connected := s.connected[n := true])
    case Hello(n) =>
      s.(clients := s.clients[n := s.clients[n].(phase := ReceiveHelloConfirm)],
         up := s.up[n := s.up[n] + [ClientMsg("hello", ids[n])]])
    case ServerReads(n) =>
      var (server, sends) := ServerReceives(|ids|, s.server, s.up[n][0]);
      s.(server := server, up := s.up[n := s.up[n][1..]],
         down := seq(|ids|, k requires 0 <= k < |ids| => Dispatch(s, n, sends, k)))
    case ClientReads(n) =>
      var (client, reply) := ClientReceives(ids[n], s.clients[n], s.down[n][0]);
      s.(clients := s.clients[n := client], down := s.down[n := s.down[n][1..]],
         up := if reply.Some? then s.up[n := s.up[n] + [reply.value]] else s.up)
    case Configurations(views) =>
      s.(server := s.server.(timer := false), views := Some(views),
         down := seq(|ids|, k requires 0 <= k < |ids| =>
           if Open(s, k) then s.down[k] + [SendConf(views[k])] else s.down[k]))
  }

  function Start(ids: seq<string>): Handshake {
    Handshake(ServerState(Booting, map[], {}, 0, false),
              seq(|ids|, _ => ClientState(SendHello, None)), seq(|ids|, _ => false),
              seq(|ids|, _ => []), seq(|ids|, _ => []), None)
  }

  // ---------------------------------------------------------------- joint invariant

  /** Messages client n has taken from its channel, by phase. */
  function Consumed(p: ClientPhase): nat {
    match p
    case SendHello => 0
    case ReceiveHelloConfirm => 0
    case ReceiveConfig => 1
    case ReceiveReady => 2
    case Finished => 3
    case Crashed => 0
  }

  /** Messages client n has sent, by phase. */
  function Said(p: ClientPhase): nat {
    match p
    case SendHello => 0
    case ReceiveHelloConfirm => 1
    case ReceiveConfig => 1
    case ReceiveReady => 2
    case Finished => 3
    case Crashed => 0
  }

  /** Messages the server has sent to the client so far. */
  function Served(s: ServerState, views: Option<seq<nat>>, id: string): nat {
    (if id in s.nodesConfigs then 1 else 0) + (if views.Some? then 1 else 0) + (if Rank(s.phase) >= 3 then 1 else 0)
  }

  /** Messages of the client that the server has taken into account. */
  function Counted(s: ServerState, id: string): nat {
    (if id in s.nodesConfigs then 1 else 0) + (if id in s.nodesConfigs && s.nodesConfigs[id] then 1 else 0)
    + (if id in s.nodesReady then 1 else 0)
  }

  /** The k-th message to client n, and the k-th message from it. */
  function DownMsg(views: Option<seq<nat>>, n: nat, k: nat): ServerMsg {
    if k == 0 then HELLO_OK
    else if k == 1 then SendConf(if views.Some? && n < |views.value| then views.value[n] else 0)
    else SEND_READY
  }

  function UpMsg(id: string, k: nat): ClientMsg {
    ClientMsg(if k == 0 then "hello" else if k == 1 then "conf" else "ready", id)
  }

  /** The channel to client n holds exactly the messages sent and not yet consumed. */
  ghost predicate DownOk(views: Option<seq<nat>>, n: nat, down: seq<ServerMsg>, served: nat, consumed: nat) {
    served == consumed + |down| && forall i :: 0 <= i < |down| ==> down[i] == DownMsg(views, n, consumed + i)
  }

  ghost predicate UpOk(id: string, up: seq<ClientMsg>, said: nat, counted: nat) {
    said == counted + |up| && forall i :: 0 <= i < |up| ==> up[i] == UpMsg(id, counted + i)
  }

  ghost predicate ClientOk(s: Handshake, id: string, n: nat)
    requires n < |s.clients| == |s.connected| == |s.up| == |s.down|
    requires s.views.Some? ==> n < |s.views.value|
  {
    var c := s.clients[n];
    && c.phase != Crashed
    && DownOk(s.views, n, s.down[n], Served(s.server, s.views, id), Consumed(c.phase))
    && UpOk(id, s.up[n], Said(c.phase), Counted(s.server, id))
    && c.config == (if Consumed(c.phase) >= 2 && s.views.Some? then Some(s.views.value[n]) else None)
    && (c.phase != SendHello ==> s.connected[n])
    && (s.connected[n] ==> s.server.phase != Booting)
    && (id in s.server.nodesReady ==> id in s.server.nodesConfigs && s.server.nodesConfigs[id])
  }

  function Confirmed(s: ServerState): set<string> {
    set i | i in s.nodesConfigs && s.nodesConfigs[i]
  }

  ghost predicate ServerOk(ids: seq<string>, v: ServerState, views: Option<seq<nat>>) {
    var all := Elements(ids);
    && v.nodesConfigs.Keys <= all && v.nodesReady <= all
    && v.storedConfigs == |Confirmed(v)|
    && (Rank(v.phase) <= 1 ==> v.nodesConfigs.Keys != all && Confirmed(v) == {})
    && (Rank(v.phase) >= 2 ==> v.nodesConfigs.Keys == all)
    && (Rank(v.phase) == 2 ==> Confirmed(v) != all)
    && (Rank(v.phase) <= 2 ==> v.nodesReady == {})
    && (Rank(v.phase) >= 3 ==> Confirmed(v) == all && views.Some?)
    && (Rank(v.phase) == 3 ==> v.nodesReady != all)
    && (Rank(v.phase) == 4 ==> v.nodesReady == all)
    && (views.Some? ==> Rank(v.phase) >= 2)
    && (v.timer <==> Rank(v.phase) >= 2 && views.None?)
  }

  ghost predicate DistinctIds(ids: seq<string>) {
    |ids| > 0 && NoDuplicates(ids)
  }

  ghost predicate Inv(ids: seq<string>, s: Handshake) {
    && DistinctIds(ids) && Sized(ids, s) && ServerOk(ids, s.server, s.views)
    && forall n :: 0 <= n < |ids| ==> ClientOk(s, ids[n], n)
  }

  lemma StartInv(ids: seq<string>)
    requires DistinctIds(ids)
    ensures Inv(ids, Start(ids))
  {
    assert ids[0] in Elements(ids);
  }

  lemma ListeningInv(ids: seq<string>, s: Handshake)
    requires Inv(ids, s) && Enabled(ids, s, Listening)
    ensures Inv(ids, Next(ids, s, Listening))
  {
    var s' := Next(ids, s, Listening);
    forall n | 0 <= n < |ids| ensures ClientOk(s', ids[n], n) {
      assert ClientOk(s, ids[n], n);
    }
  }

  lemma ConnectInv(ids: seq<string>, s: Handshake, n: nat)
    requires Inv(ids, s) && Enabled(ids, s, Connect(n))
    ensures Inv(ids, Next(ids, s, Connect(n)))
  {
    var s' := Next(ids, s, Connect(n));
    forall k | 0 <= k < |ids| ensures ClientOk(s', ids[k], k) {
      assert ClientOk(s, ids[k], k);
    }
  }

  lemma HelloInv(ids: seq<string>, s: Handshake, n: nat)
    requires Inv(ids, s) && Enabled(ids, s, Hello(n))
    ensures Inv(ids, Next(ids, s, Hello(n)))
  {
    var s' := Next(ids, s, Hello(n));
    forall k | 0 <= k < |ids| ensures ClientOk(s', ids[k], k) {
      assert ClientOk(s, ids[k], k);
    }
  }

  /** What a client finds at the head of its channel is the message meant for its phase. */
  lemma ClientReadsExpected(ids: seq<string>, s: Handshake, n: nat)
    requires Inv(ids, s) && Enabled(ids, s, ClientReads(n))
    ensures s.clients[n].phase == ReceiveHelloConfirm ==> s.down[n][0] == HELLO_OK
    ensures s.clients[n].phase == ReceiveConfig ==> s.views.Some? && s.down[n][0] == SendConf(s.views.value[n])
    ensures s.clients[n].phase == ReceiveReady ==> s.down[n][0] == SEND_READY
    ensures s.clients[n].phase != SendHello
  {
    assert ClientOk(s, ids[n], n);
    assert ids[n] in Elements(ids);
  }

  lemma ClientReadsInv(ids: seq<string>, s: Handshake, n: nat)
    requires Inv(ids, s) && Enabled(ids, s, ClientReads(n))
    ensures Inv(ids, Next(ids, s, ClientReads(n)))
  {
    var s' := Next(ids, s, ClientReads(n));
    ClientReadsExpected(ids, s, n);
    forall k | 0 <= k < |ids| ensures ClientOk(s', ids[k], k) {
      assert ClientOk(s, ids[k], k);
      if k == n {
        ClientReadsOwn(ids, s, n);
      }
    }
  }

  lemma ClientReadsOwn(ids: seq<string>, s: Handshake, n: nat)
    requires Inv(ids, s) && Enabled(ids, s, ClientReads(n))
    ensures ClientOk(Next(ids, s, ClientReads(n)), ids[n], n)
  {
    hide DownOk, UpOk, Served, Counted, ServerOk;
    ClientReadsExpected(ids, s, n);
    assert ClientOk(s, ids[n], n);
    hide Inv;
    var c, v, id := s.clients[n], s.server, ids[n];
    DownTaken(s.views, n, s.down[n], Served(v, s.views, id), Consumed(c.phase));
    UpSent(id, s.up[n], Said(c.phase), Counted(v, id));
  }

  // What sending and taking one message does to a channel.

  lemma DownTaken(views: Option<seq<nat>>, n: nat, down: seq<ServerMsg>, served: nat, consumed: nat)
    requires DownOk(views, n, down, served, consumed) && down != []
    ensures DownOk(views, n, down[1..], served, consumed + 1)
  {
    hide DownMsg;
  }

  lemma DownSent(views: Option<seq<nat>>, n: nat, down: seq<ServerMsg>, served: nat, consumed: nat)
    requires DownOk(views, n, down, served, consumed)
    ensures DownOk(views, n, down + [DownMsg(views, n, served)], served + 1, consumed)
  {
    hide DownMsg;
  }

  lemma UpTaken(id: string, up: seq<ClientMsg>, said: nat, counted: nat)
    requires UpOk(id, up, said, counted) && up != []
    ensures UpOk(id, up[1..], said, counted + 1)
  {
    hide UpMsg;
  }

  lemma UpSent(id: string, up: seq<ClientMsg>, said: nat, counted: nat)
    requires UpOk(id, up, said, counted)
    ensures UpOk(id, up + [UpMsg(id, said)], said + 1, counted)
  {
    hide UpMsg;
  }

  lemma ConfigurationsInv(ids: seq<string>, s: Handshake, views: seq<nat>)
    requires Inv(ids, s) && Enabled(ids, s, Configurations(views))
    ensures Inv(ids, Next(ids, s, Configurations(views)))
  {
    var s' := Next(ids, s, Configurations(views));
    forall k | 0 <= k < |ids| ensures ClientOk(s', ids[k], k) {
      ConfiguredClient(ids, s, views, k);
    }
    hide ClientOk;
  }

  lemma ConfiguredClient(ids: seq<string>, s: Handshake, views: seq<nat>, k: nat)
    requires Inv(ids, s) && Enabled(ids, s, Configurations(views)) && k < |ids|
    ensures ClientOk(Next(ids, s, Configurations(views)), ids[k], k)
  {
    assert ClientOk(s, ids[k], k);
    assert ids[k] in Elements(ids);
  }

  /** A message reaches the server in the phase meant for it, and is the one the server still waits for. */
  lemma ServerReadsExpected(ids: seq<string>, s: Handshake, n: nat)
    requires Inv(ids, s) && Enabled(ids, s, ServerReads(n))
    ensures var id, v := ids[n], s.server;
      || (v.phase == ReceiveHello && s.up[n][0] == ClientMsg("hello", id) && id !in v.nodesConfigs)
      || (v.phase == SendConfigs && s.up[n][0] == ClientMsg("conf", id) && id in v.nodesConfigs && !v.nodesConfigs[id])
      || (v.phase == SendReady && s.up[n][0] == ClientMsg("ready", id) && id !in v.nodesReady)
  {
    assert ClientOk(s, ids[n], n);
    assert ids[n] in Elements(ids);
    var id, v := ids[n], s.server;
    if id in v.nodesConfigs && v.nodesConfigs[id] {
      assert id in Confirmed(v);
    }
  }

  lemma HelloCounted(ids: seq<string>, v: ServerState, views: Option<seq<nat>>, id: string)
    requires DistinctIds(ids) && ServerOk(ids, v, views) && id in ids
    requires v.phase == ReceiveHello && id !in v.nodesConfigs
    ensures ServerOk(ids, ServerReceives(|ids|, v, ClientMsg("hello", id)).0, views)
  {
    var v' := ServerReceives(|ids|, v, ClientMsg("hello", id)).0;
    NoDuplicatesLength(ids);
    SubsetSize(v'.nodesConfigs.Keys, Elements(ids));
    assert |v'.nodesConfigs| == |v'.nodesConfigs.Keys|;
    assert Confirmed(v') == Confirmed(v);
    assert ids[0] in Elements(ids);
  }

  lemma ConfCounted(ids: seq<string>, v: ServerState, views: Option<seq<nat>>, id: string)
    requires DistinctIds(ids) && ServerOk(ids, v, views) && views.Some?
    requires v.phase == SendConfigs && id in v.nodesConfigs && !v.nodesConfigs[id]
    ensures ServerOk(ids, ServerReceives(|ids|, v, ClientMsg("conf", id)).0, views)
  {
    var v' := ServerReceives(|ids|, v, ClientMsg("conf", id)).0;
    NoDuplicatesLength(ids);
    ConfEffect(|ids|, v, id);
    hide Confirmed, Elements, ServerReceives;
    SubsetSize(Confirmed(v'), Elements(ids));
  }

  lemma ConfEffect(target: nat, v: ServerState, id: string)
    requires v.phase == SendConfigs && id in v.nodesConfigs && !v.nodesConfigs[id]
    ensures var v' := ServerReceives(target, v, ClientMsg("conf", id)).0;
      && v'.nodesConfigs.Keys == v.nodesConfigs.Keys && v'.nodesReady == v.nodesReady && v'.timer == v.timer
      && id !in Confirmed(v) && Confirmed(v') == Confirmed(v) + {id} && Confirmed(v') <= v'.nodesConfigs.Keys
      && v'.storedConfigs == v.storedConfigs + 1
      && v'.phase == (if v'.storedConfigs == target then SendReady else SendConfigs)
  {
  }

  lemma ReadyCounted(ids: seq<string>, v: ServerState, views: Option<seq<nat>>, id: string)
    requires DistinctIds(ids) && ServerOk(ids, v, views) && id in ids
    requires v.phase == SendReady && id !in v.nodesReady
    ensures ServerOk(ids, ServerReceives(|ids|, v, ClientMsg("ready", id)).0, views)
  {
    var v' := ServerReceives(|ids|, v, ClientMsg("ready", id)).0;
    NoDuplicatesLength(ids);
    assert Confirmed(v') == Confirmed(v);
    SubsetSize(v'.nodesReady, Elements(ids));
  }

  lemma ServerReadsServer(ids: seq<string>, s: Handshake, n: nat)
    requires Inv(ids, s) && Enabled(ids, s, ServerReads(n))
    ensures ServerOk(ids, Next(ids, s, ServerReads(n)).server, s.views)
  {
    hide ServerOk, ServerReceives;
    ServerReadsExpected(ids, s, n);
    if s.server.phase == ReceiveHello {
      HelloCounted(ids, s.server, s.views, ids[n]);
    } else if s.server.phase == SendConfigs {
      ConfArrivesAfterViews(ids, s, n);
      ConfCounted(ids, s.server, s.views, ids[n]);
    } else {
      ReadyCounted(ids, s.server, s.views, ids[n]);
    }
  }

  lemma ConfArrivesAfterViews(ids: seq<string>, s: Handshake, n: nat)
    requires Inv(ids, s) && Enabled(ids, s, ServerReads(n)) && s.server.phase == SendConfigs
    ensures s.views.Some?
  {
    assert ClientOk(s, ids[n], n);
    assert ids[n] in Elements(ids);
  }

  lemma ReadEffect(ids: seq<string>, s: Handshake, n: nat, k: nat)
    requires Enabled(ids, s, ServerReads(n)) && k < |ids|
    ensures var s', r := Next(ids, s, ServerReads(n)), ServerReceives(|ids|, s.server, s.up[n][0]);
      && Sized(ids, s') && s'.server == r.0 && s'.clients == s.clients && s'.connected == s.connected
      && s'.views == s.views && s'.up[k] == (if k == n then s.up[n][1..] else s.up[k])
      && s'.down[k] == Dispatch(s, n, r.1, k)
  {
  }

  lemma ClientFacts(ids: seq<string>, s: Handshake, n: nat, k: nat)
    requires Inv(ids, s) && n < |ids| && k < |ids|
    ensures ClientOk(s, ids[k], k) && (k != n ==> ids[k] != ids[n])
  {
  }

  lemma HelloReadClient(ids: seq<string>, s: Handshake, n: nat, k: nat)
    requires Inv(ids, s) && Enabled(ids, s, ServerReads(n)) && k < |ids| && s.server.phase == ReceiveHello
    ensures ClientOk(Next(ids, s, ServerReads(n)), ids[k], k)
  {
    hide Inv, Next, DownOk, UpOk;
    ServerReadsExpected(ids, s, n);
    ReadEffect(ids, s, n, k);
    ClientFacts(ids, s, n, k);
    ViewsAfterHello(ids, s);
    var v, id, c := s.server, ids[k], s.clients[k];
    if k == n {
      DownSent(s.views, k, s.down[k], Served(v, s.views, id), Consumed(c.phase));
      UpTaken(id, s.up[k], Said(c.phase), Counted(v, id));
    }
  }

  lemma ViewsAfterHello(ids: seq<string>, s: Handshake)
    requires Inv(ids, s) && s.server.phase == ReceiveHello
    ensures s.views.None?
  {
  }

  lemma ConfReadClient(ids: seq<string>, s: Handshake, n: nat, k: nat)
    requires Inv(ids, s) && Enabled(ids, s, ServerReads(n)) && k < |ids| && s.server.phase == SendConfigs
    ensures ClientOk(Next(ids, s, ServerReads(n)), ids[k], k)
  {
    hide Inv, Next, DownOk, UpOk;
    ServerReadsExpected(ids, s, n);
    ReadEffect(ids, s, n, k);
    ClientFacts(ids, s, n, k);
    ConfArrivesAfterViews(ids, s, n);
    ConfFacts(ids, s, k);
    var v, id, c := s.server, ids[k], s.clients[k];
    DownSent(s.views, k, s.down[k], Served(v, s.views, id), Consumed(c.phase));
    if k == n {
      UpTaken(id, s.up[k], Said(c.phase), Counted(v, id));
    }
  }

  /** While configurations are confirmed, nobody is ready and every socket is open. */
  lemma ConfFacts(ids: seq<string>, s: Handshake, k: nat)
    requires Inv(ids, s) && k < |ids| && s.server.phase == SendConfigs
    ensures ids[k] in s.server.nodesConfigs && ids[k] !in s.server.nodesReady && Open(s, k)
  {
    assert ids[k] in Elements(ids);
    assert ClientOk(s, ids[k], k);
  }

  lemma ReadyReadClient(ids: seq<string>, s: Handshake, n: nat, k: nat)
    requires Inv(ids, s) && Enabled(ids, s, ServerReads(n)) && k < |ids| && s.server.phase == SendReady
    ensures ClientOk(Next(ids, s, ServerReads(n)), ids[k], k)
  {
    hide Inv, Next, DownOk, UpOk;
    ServerReadsExpected(ids, s, n);
    ReadEffect(ids, s, n, k);
    ClientFacts(ids, s, n, k);
    ReadyFacts(ids, s, n);
    var id, c := ids[k], s.clients[k];
    if k == n {
      UpTaken(id, s.up[k], Said(c.phase), Counted(s.server, id));
    }
  }

  lemma ReadyFacts(ids: seq<string>, s: Handshake, n: nat)
    requires Inv(ids, s) && n < |ids| && s.server.phase == SendReady
    ensures ids[n] in s.server.nodesConfigs && s.server.nodesConfigs[ids[n]]
  {
    assert ids[n] in Elements(ids) && ids[n] in Confirmed(s.server);
  }

  lemma ServerReadsInv(ids: seq<string>, s: Handshake, n: nat)
    requires Inv(ids, s) && Enabled(ids, s, ServerReads(n))
    ensures Inv(ids, Next(ids, s, ServerReads(n)))
  {
    ServerReadsServer(ids, s, n);
    forall k | 0 <= k < |ids| ensures ClientOk(Next(ids, s, ServerReads(n)), ids[k], k) {
      ServerReadsExpected(ids, s, n);
      if s.server.phase == ReceiveHello {
        HelloReadClient(ids, s, n, k);
      } else if s.server.phase == SendConfigs {
        ConfReadClient(ids, s, n, k);
      } else {
        ReadyReadClient(ids, s, n, k);
      }
    }
  }

  // ---------------------------------------------------------------- executions

  lemma NextInv(ids: seq<string>, s: Handshake, e: Event)
    requires Inv(ids, s) && Enabled(ids, s, e)
    ensures Inv(ids, Next(ids, s, e))
  {
    hide Inv, Next;
    match e
    case Listening => ListeningInv(ids, s);
    case Connect(n) => ConnectInv(ids, s, n);
    case Hello(n) => HelloInv(ids, s, n);
    case ServerReads(n) => ServerReadsInv(ids, s, n);
    case ClientReads(n) => ClientReadsInv(ids, s, n);
    case Configurations(views) => ConfigurationsInv(ids, s, views);
  }

  /** ss[i + 1] follows from ss[i] by event es[i]. */
  ghost predicate IsExecution(ids: seq<string>, ss: seq<Handshake>, es: seq<Event>) {
    && |ss| == |es| + 1 && ss[0] == Start(ids)
    && forall i :: 0 <= i < |es| ==> Enabled(ids, ss[i], es[i]) && ss[i + 1] == Next(ids, ss[i], es[i])
  }

  lemma {:induction false} EveryStateInv(ids: seq<string>, ss: seq<Handshake>, es: seq<Event>, i: nat)
    requires DistinctIds(ids) && IsExecution(ids, ss, es) && i < |ss|
    ensures Inv(ids, ss[i])
  {
    hide Inv, Next, Enabled, Start;
    if i == 0 {
      StartInv(ids);
    } else {
      EveryStateInv(ids, ss, es, i - 1);
      assert ss[i - 1 + 1] == Next(ids, ss[i - 1], es[i - 1]);
      NextInv(ids, ss[i - 1], es[i - 1]);
    }
  }

  /** Joint decoding: whatever a client reads is the message of its phase, and no client fails. */
  lemma ClientsDecodeCorrectly(ids: seq<string>, ss: seq<Handshake>, es: seq<Event>, i: nat, n: nat)
    requires DistinctIds(ids) && IsExecution(ids, ss, es) && i < |es| && es[i] == ClientReads(n)
    ensures n < |ids| == |ss[i].clients| == |ss[i].down| && ss[i].down[n] != []
    ensures var c, msg := ss[i].clients[n], ss[i].down[n][0];
      || (c.phase == ReceiveHelloConfirm && msg == HELLO_OK)
      || (c.phase == ReceiveConfig && ss[i].views.Some? && n < |ss[i].views.value|
          && msg == SendConf(ss[i].views.value[n]))
      || (c.phase == ReceiveReady && msg == SEND_READY)
  {
    EveryStateInv(ids, ss, es, i);
    ClientReadsExpected(ids, ss[i], n);
    assert ClientOk(ss[i], ids[n], n);
  }

  /** No client leaves for peer-to-peer mode before every client holds its configuration. */
  lemma NoEarlyFinish(ids: seq<string>, ss: seq<Handshake>, es: seq<Event>, i: nat, n: nat, m: nat)
    requires DistinctIds(ids) && IsExecution(ids, ss, es) && i < |ss| && n < |ids| && m < |ids|
    requires |ss[i].clients| == |ids| && ss[i].clients[n].phase == Finished
    ensures ss[i].views.Some? && m < |ss[i].views.value|
    ensures ss[i].clients[m].config == Some(ss[i].views.value[m])
  {
    EveryStateInv(ids, ss, es, i);
    assert ClientOk(ss[i], ids[n], n) && ClientOk(ss[i], ids[m], m);
    assert ids[m] in Elements(ids) && ids[m] in Confirmed(ss[i].server);
  }

  /** The server counts each confirmed client once, and its phase never goes back. */
  lemma ServerMovesForward(ids: seq<string>, ss: seq<Handshake>, es: seq<Event>, i: nat)
    requires DistinctIds(ids) && IsExecution(ids, ss, es) && i < |es|
    ensures ss[i].server.storedConfigs == |Confirmed(ss[i].server)|
    ensures Rank(ss[i].server.phase) <= Rank(ss[i + 1].server.phase) <= Rank(ss[i].server.phase) + 1
  {
    hide Inv, Enabled, Next;
    EveryStateInv(ids, ss, es, i);
    assert ss[i + 1] == Next(ids, ss[i], es[i]);
    NextRank(ids, ss[i], es[i]);
  }

  lemma NextRank(ids: seq<string>, s: Handshake, e: Event)
    requires Inv(ids, s) && Enabled(ids, s, e)
    ensures s.server.storedConfigs == |Confirmed(s.server)|
    ensures Rank(s.server.phase) <= Rank(Next(ids, s, e).server.phase) <= Rank(s.server.phase) + 1
  {
    hide Confirmed, Elements, ClientOk;
  }

  // ---------------------------------------------------------------- completion

  predicate Complete(s: Handshake) {
    s.server.phase == Finish && forall n :: 0 <= n < |s.clients| ==> s.clients[n].phase == Finished
  }

  /** The handshake never blocks: until it is complete some event can happen, given a configuration file. */
  lemma NeverStuck(ids: seq<string>, s: Handshake) returns (e: Event)
    requires Inv(ids, s) && !Complete(s)
    ensures Enabled(ids, s, e)
  {
    if s.server.phase == Booting {
      e := Listening;
    } else if s.server.timer {
      e := Configurations(seq(|ids|, _ => 0));
    } else if n :| 0 <= n < |ids| && s.up[n] != [] {
      e := ServerReads(n);
    } else if n :| 0 <= n < |ids| && !s.connected[n] {
      e := Connect(n);
    } else if n :| 0 <= n < |ids| && s.clients[n].phase == SendHello {
      e := Hello(n);
    } else {
      var n := Waiting(ids, s);
      e := ClientReads(n);
    }
  }

  /** With nothing left to do elsewhere, some unfinished client has a message to read. */
  lemma Waiting(ids: seq<string>, s: Handshake) returns (n: nat)
    requires Inv(ids, s) && !Complete(s) && s.server.phase != Booting && !s.server.timer
    requires forall k :: 0 <= k < |ids| ==> s.up[k] == [] && s.clients[k].phase != SendHello
    ensures n < |ids| && s.down[n] != [] && s.clients[n].phase != Finished
  {
    if k :| 0 <= k < |ids| && s.down[k] != [] && s.clients[k].phase != Finished {
      n := k;
    } else {
      AllReadMeansComplete(ids, s);
      assert false;
    }
  }

  lemma AllReadMeansComplete(ids: seq<string>, s: Handshake)
    requires Inv(ids, s) && s.server.phase != Booting && !s.server.timer
    requires forall k :: 0 <= k < |ids| ==> s.up[k] == [] && s.clients[k].phase != SendHello
    requires forall k :: 0 <= k < |ids| ==> s.down[k] == [] || s.clients[k].phase == Finished
    ensures Complete(s)
  {
    forall k | 0 <= k < |ids| ensures ids[k] in s.server.nodesConfigs {
      assert ClientOk(s, ids[k], k);
    }
    assert s.server.nodesConfigs.Keys == Elements(ids);
    forall k | 0 <= k < |ids| ensures ids[k] in Confirmed(s.server) {
      assert ClientOk(s, ids[k], k);
    }
    assert Confirmed(s.server) == Elements(ids);
    forall k | 0 <= k < |ids| ensures ids[k] in s.server.nodesReady && s.clients[k].phase == Finished {
      assert ClientOk(s, ids[k], k);
    }
    assert s.server.nodesReady == Elements(ids);
  }

  /** Steps taken so far that concern client n. */
  function Steps(s: Handshake, id: string, n: nat): nat
    requires n < |s.clients| == |s.connected|
  {
    (if s.connected[n] then 1 else 0) + (if s.clients[n].phase == SendHello then 0 else 1)
    + Consumed(s.clients[n].phase) + Counted(s.server, id)
  }

  function TotalSteps(ids: seq<string>, s: Handshake, k: nat): nat
    requires Sized(ids, s) && k <= |ids|
  {
    if k == 0 then (if s.server.phase == Booting then 0 else 1) + (if s.views.Some? then 1 else 0)
    else TotalSteps(ids, s, k - 1) + Steps(s, ids[k - 1], k - 1)
  }

  /** Client that an event concerns, if any. */
  function Subject(e: Event): Option<nat> {
    match e
    case Listening => None
    case Connect(n) => Some(n)
    case Hello(n) => Some(n)
    case ServerReads(n) => Some(n)
    case ClientReads(n) => Some(n)
    case Configurations(_) => None
  }

  /** Every event is one step of its client, or one of the two steps of the server alone. */
  lemma EventIsOneStep(ids: seq<string>, s: Handshake, e: Event, k: nat)
    requires Inv(ids, s) && Enabled(ids, s, e) && k < |ids|
    ensures var s' := Next(ids, s, e);
      Sized(ids, s') && Steps(s', ids[k], k) == Steps(s, ids[k], k) + (if Subject(e) == Some(k) then 1 else 0)
  {
    hide Inv, ServerReceives;
    match e
    case ServerReads(n) =>
      hide Next;
      ReadEffect(ids, s, n, k);
      CountedStep(ids, s, n, k);
    case ClientReads(n) =>
      hide Next;
      ClientReadIsOneStep(ids, s, n, k);
    case Listening =>
    case Connect(_) =>
    case Hello(_) =>
    case Configurations(_) =>
  }

  lemma ClientReadIsOneStep(ids: seq<string>, s: Handshake, n: nat, k: nat)
    requires Inv(ids, s) && Enabled(ids, s, ClientReads(n)) && k < |ids|
    ensures var s' := Next(ids, s, ClientReads(n));
      Sized(ids, s') && Steps(s', ids[k], k) == Steps(s, ids[k], k) + (if k == n then 1 else 0)
  {
    hide Inv, DownOk, UpOk, Counted;
    ClientReadsExpected(ids, s, n);
    ClientFacts(ids, s, n, n);
  }

  lemma CountedStep(ids: seq<string>, s: Handshake, n: nat, k: nat)
    requires Inv(ids, s) && Enabled(ids, s, ServerReads(n)) && k < |ids|
    ensures Counted(Next(ids, s, ServerReads(n)).server, ids[k])
         == Counted(s.server, ids[k]) + if k == n then 1 else 0
  {
    ServerReadsExpected(ids, s, n);
    assert k != n ==> ids[k] != ids[n];
    hide Inv, Enabled, ServerReceives, Counted;
    ReceivedIsCounted(|ids|, s.server, s.up[n][0], ids[n], ids[k]);
  }

  /** Each expected message advances the count of its sender by one and no other. */
  lemma ReceivedIsCounted(target: nat, v: ServerState, msg: ClientMsg, id: string, other: string)
    requires || (v.phase == ReceiveHello && msg == ClientMsg("hello", id) && id !in v.nodesConfigs)
             || (v.phase == SendConfigs && msg == ClientMsg("conf", id) && id in v.nodesConfigs && !v.nodesConfigs[id])
             || (v.phase == SendReady && msg == ClientMsg("ready", id) && id !in v.nodesReady)
    ensures Counted(ServerReceives(target, v, msg).0, other) == Counted(v, other) + if other == id then 1 else 0
  {
  }

  lemma {:induction false} TotalGrows(ids: seq<string>, s: Handshake, e: Event, k: nat)
    requires Inv(ids, s) && Enabled(ids, s, e) && k <= |ids|
    ensures Sized(ids, Next(ids, s, e))
    ensures TotalSteps(ids, Next(ids, s, e), k)
         == TotalSteps(ids, s, k) + (if Subject(e).None? || Subject(e).value < k then 1 else 0)
  {
    hide Inv, Steps;
    if k > 0 {
      TotalGrows(ids, s, e, k - 1);
      EventIsOneStep(ids, s, e, k - 1);
    } else {
      ServerAloneSteps(ids, s, e);
    }
  }

  lemma TimerBeforeViews(ids: seq<string>, s: Handshake)
    requires Inv(ids, s)
    ensures s.server.timer ==> s.views.None?
  {
  }

  lemma ServerAloneSteps(ids: seq<string>, s: Handshake, e: Event)
    requires Inv(ids, s) && Enabled(ids, s, e)
    ensures Sized(ids, Next(ids, s, e))
    ensures TotalSteps(ids, Next(ids, s, e), 0) == TotalSteps(ids, s, 0) + (if Subject(e).None? then 1 else 0)
  {
    hide Inv;
    TimerBeforeViews(ids, s);
    match e
    case ServerReads(n) =>
      hide Next;
      ServerReadsExpected(ids, s, n);
      ReadEffect(ids, s, n, n);
    case ClientReads(_) => hide ClientReceives;
    case _ =>
  }

  lemma {:induction false} TotalBounded(ids: seq<string>, s: Handshake, k: nat)
    requires Inv(ids, s) && k <= |ids|
    ensures TotalSteps(ids, s, k) <= 8 * k + 2
  {
    if k > 0 {
      hide Inv, Steps;
      TotalBounded(ids, s, k - 1);
      InvIsSized(ids, s);
      StepsBounded(s, ids[k - 1], k - 1);
    }
  }

  lemma InvIsSized(ids: seq<string>, s: Handshake)
    requires Inv(ids, s)
    ensures Sized(ids, s)
  {
  }

  lemma StepsBounded(s: Handshake, id: string, n: nat)
    requires n < |s.clients| == |s.connected|
    ensures Steps(s, id, n) <= 8
  {
  }

  /** The handshake of N clients is over after at most 8 N + 2 events; with NeverStuck, it completes. */
  lemma {:induction false} HandshakeTerminates(ids: seq<string>, ss: seq<Handshake>, es: seq<Event>, i: nat)
    requires DistinctIds(ids) && IsExecution(ids, ss, es) && i < |ss|
    ensures Inv(ids, ss[i]) && i == TotalSteps(ids, ss[i], |ids|) <= 8 * |ids| + 2
  {
    hide Inv, Next, Enabled, Steps;
    EveryStateInv(ids, ss, es, i);
    if i > 0 {
      HandshakeTerminates(ids, ss, es, i - 1);
      assert ss[i - 1 + 1] == Next(ids, ss[i - 1], es[i - 1]);
      TotalGrows(ids, ss[i - 1], es[i - 1], |ids|);
      SubjectInRange(ids, ss[i - 1], es[i - 1]);
    } else {
      StartSteps(ids, |ids|);
    }
    TotalBounded(ids, ss[i], |ids|);
  }

  lemma SubjectInRange(ids: seq<string>, s: Handshake, e: Event)
    requires Enabled(ids, s, e)
    ensures Subject(e).Some? ==> Subject(e).value < |ids|
  {
  }

  lemma {:induction false} StartSteps(ids: seq<string>, k: nat)
    requires k <= |ids|
    ensures TotalSteps(ids, Start(ids), k) == 0
  {
    if k > 0 {
      StartSteps(ids, k - 1);
    }
  }
}
