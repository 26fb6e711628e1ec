/** Collaboration sessions: which nodes are being edited, indexed by node and by knowledge base. */
module SessionRegistry {

  type Id = string

  datatype Mode = ReadOnly | Write

  datatype Session = Session(kbId: Id, mode: Mode)

  /** The two indexes of the registry. */
  datatype Registry = Registry(nodeSessions: map<Id, map<Id, Session>>, kbNodes: map<Id, set<Id>>)

  const EMPTY: Registry := Registry(map[], map[])

  function SessionsOf(r: Registry, nodeId: Id): map<Id, Session> {
    if nodeId in r.nodeSessions then r.nodeSessions[nodeId] else map[]
  }

  function NodesOf(r: Registry, kbId: Id): set<Id> {
    if kbId in r.kbNodes then r.kbNodes[kbId] else {}
  }

  function Registered(r: Registry, kbId: Id, nodeId: Id, connectionId: Id, mode: Mode): Registry {
    Registry(
      r.nodeSessions[nodeId := SessionsOf(r, nodeId)[connectionId := Session(kbId, mode)]],
      r.kbNodes[kbId := NodesOf(r, kbId) + {nodeId}])
  }

  function WithoutKbNode(kbNodes: map<Id, set<Id>>, kbId: Id, nodeId: Id): map<Id, set<Id>> {
    if kbId !in kbNodes then kbNodes
    else
      var rest := kbNodes[kbId] - {nodeId};
      if rest == {} then kbNodes - {kbId} else kbNodes[kbId := rest]
  }

  function Unregistered(r: Registry, kbId: Id, nodeId: Id, connectionId: Id): Registry {
    if nodeId !in r.nodeSessions then r
    else
      var rest := r.nodeSessions[nodeId] - {connectionId};
      if rest != map[] then Registry(r.nodeSessions[nodeId := rest], r.kbNodes)
      else Registry(r.nodeSessions - {nodeId}, WithoutKbNode(r.kbNodes, kbId, nodeId))
  }

  predicate HasSession(r: Registry, nodeId: Id) {
    SessionsOf(r, nodeId) != map[]
  }

  /** Some session of the node may write. */
  predicate HasWriteSession(r: Registry, nodeId: Id) {
    exists c <- SessionsOf(r, nodeId) :: SessionsOf(r, nodeId)[c].mode == Write
  }

  predicate HasSessionInKb(r: Registry, kbId: Id) {
    NodesOf(r, kbId) != {}
  }

  /** The registry as it runs: two maps that every call updates in step. */
  class DocumentSessionRegistry {
    var nodeSessions: map<Id, map<Id, Session>>
    var kbNodes: map<Id, set<Id>>

    ghost function State(): Registry
      reads this
    {
      Registry(nodeSessions, kbNodes)
    }

    constructor ()
      ensures State() == EMPTY
    {
      nodeSessions := map[];
      kbNodes := map[];
    }

    method Register(kbId: Id, nodeId: Id, connectionId: Id, mode: Mode)
      modifies this
      ensures State() == Registered(old(State()), kbId, nodeId, connectionId, mode)
    {
      var sessions := if nodeId in nodeSessions then nodeSessions[nodeId] else map[];
      sessions := sessions[connectionId := Session(kbId, mode)];
      nodeSessions := nodeSessions[nodeId := sessions];
      var nodes := if kbId in kbNodes then kbNodes[kbId] else {};
      nodes := nodes + {nodeId};
      kbNodes := kbNodes[kbId := nodes];
    }

    method Unregister(kbId: Id, nodeId: Id, connectionId: Id)
      modifies this
      ensures State() == Unregistered(old(State()), kbId, nodeId, connectionId)
    {
      if nodeId !in nodeSessions {
        return;
      }
      var sessions := nodeSessions[nodeId] - {connectionId};
      if |sessions| > 0 {
        nodeSessions := nodeSessions[nodeId := sessions];
        return;
      }
      nodeSessions := nodeSessions - {nodeId};
      RemoveKbNode(kbId, nodeId);
    }

    method RemoveKbNode(kbId: Id, nodeId: Id)
      modifies this`kbNodes
      ensures kbNodes == WithoutKbNode(old(kbNodes), kbId, nodeId)
    {
      if kbId !in kbNodes {
        return;
      }
      var nodes := kbNodes[kbId] - {nodeId};
      kbNodes := if |nodes| == 0 then kbNodes - {kbId} else kbNodes[kbId := nodes];
    }

    method HasActiveSession(nodeId: Id) returns (active: bool)
      ensures active == HasSession(State(), nodeId)
    {
      active := nodeId in nodeSessions && |nodeSessions[nodeId]| > 0;
    }

    method HasActiveWriteSession(nodeId: Id) returns (active: bool)
      ensures active == HasWriteSession(State(), nodeId)
    {
      if nodeId !in nodeSessions {
        assert SessionsOf(State(), nodeId) == map[];
        return false;
      }
      var sessions := nodeSessions[nodeId];
      assert sessions == SessionsOf(State(), nodeId);
      active := exists c <- sessions :: sessions[c].mode == Write;
    }

    /** Whether the check passes; the source throws when it does not. */
    method AssertNoActiveWriteSession(nodeId: Id) returns (passes: bool)
      ensures passes <==> !HasWriteSession(State(), nodeId)
    {
      var active := HasActiveWriteSession(nodeId);
      passes := !active;
    }

    method HasActiveSessionInKb(kbId: Id) returns (active: bool)
      ensures active == HasSessionInKb(State(), kbId)
    {
      active := kbId in kbNodes && |kbNodes[kbId]| > 0;
    }

    /** Whether the check passes; the source throws when it does not. */
    method AssertNoActiveSessionInNodes(nodeIds: seq<Id>) returns (passes: bool)
      ensures passes <==> forall id <- nodeIds :: !HasSession(State(), id)
    {
      for i := 0 to |nodeIds|
        invariant forall j | 0 <= j < i :: !HasSession(State(), nodeIds[j])
      {
        var active := HasActiveSession(nodeIds[i]);
        if active {
          return false;
        }
      }
      return true;
    }
  }

  // ---- Every run ----

  datatype Call =
    | Register(kbId: Id, nodeId: Id, connectionId: Id, mode: Mode)
    | Unregister(kbId: Id, nodeId: Id, connectionId: Id)

  function Apply(r: Registry, call: Call): Registry {
    match call
    case Register(kbId, nodeId, connectionId, mode) => Registered(r, kbId, nodeId, connectionId, mode)
    case Unregister(kbId, nodeId, connectionId) => Unregistered(r, kbId, nodeId, connectionId)
  }

  function Run(r: Registry, calls: seq<Call>): Registry
    decreases |calls|
  {
    if calls == [] then r else Run(Apply(r, calls[0]), calls[1..])
  }

  /** The knowledge-base index lists exactly the nodes of each base that have a live session. */
  ghost predicate Agrees(r: Registry, kbOf: Id -> Id) {
    && (forall n <- r.nodeSessions :: r.nodeSessions[n] != map[])
    && (forall kb <- r.kbNodes :: r.kbNodes[kb] != {})
    && (forall kb: Id, n: Id :: n in NodesOf(r, kb) <==> n in r.nodeSessions && kbOf(n) == kb)
  }

  lemma StepAgrees(r: Registry, call: Call, kbOf: Id -> Id)
    requires Agrees(r, kbOf) && call.kbId == kbOf(call.nodeId)
    ensures Agrees(Apply(r, call), kbOf)
  {
    var next := Apply(r, call);
    forall kb: Id, n: Id ensures n in NodesOf(next, kb) <==> n in next.nodeSessions && kbOf(n) == kb {
      assert n in NodesOf(r, kb) <==> n in r.nodeSessions && kbOf(n) == kb;
    }
    match call {
      case Register(kbId, nodeId, connectionId, _) =>
        assert connectionId in next.nodeSessions[nodeId];
        assert nodeId in next.kbNodes[kbId];
      case Unregister(_, _, _) =>
    }
  }

  /** Over every run in which each node is registered under its own knowledge base, the two
      indexes agree: a base lists exactly its nodes with a live session. */
  lemma {:induction false} RunAgrees(r: Registry, calls: seq<Call>, kbOf: Id -> Id)
    requires Agrees(r, kbOf) && forall call <- calls :: call.kbId == kbOf(call.nodeId)
    ensures Agrees(Run(r, calls), kbOf)
    decreases |calls|
  {
    if calls != [] {
      hide Agrees, Apply;
      StepAgrees(r, calls[0], kbOf);
      RunAgrees(Apply(r, calls[0]), calls[1..], kbOf);
    }
  }

  lemma EmptyAgrees(kbOf: Id -> Id)
    ensures Agrees(EMPTY, kbOf)
  {
  }

  /** The same from the start of the server, when no session is open. */
  lemma RunFromEmptyAgrees(calls: seq<Call>, kbOf: Id -> Id)
    requires forall call <- calls :: call.kbId == kbOf(call.nodeId)
    ensures Agrees(Run(EMPTY, calls), kbOf)
  {
    hide *;
    EmptyAgrees(kbOf);
    RunAgrees(EMPTY, calls, kbOf);
  }

  /** The call names the node's own base, or is an unregistration that leaves the node with a session
      or finds it without any. */
  predicate FitsBase(r: Registry, call: Call, kbOf: Id -> Id) {
    || call.kbId == kbOf(call.nodeId)
    || (call.Unregister?
        && (call.nodeId !in r.nodeSessions || r.nodeSessions[call.nodeId] - {call.connectionId} != map[]))
  }

  /** From indexes that agree, a call that fits leads to indexes that agree, and any other never does. */
  lemma StepAgreesIff(r: Registry, call: Call, kbOf: Id -> Id)
    requires Agrees(r, kbOf)
    ensures Agrees(Apply(r, call), kbOf) <==> FitsBase(r, call, kbOf)
  {
    var next, n := Apply(r, call), call.nodeId;
    if call.kbId == kbOf(n) {
      StepAgrees(r, call, kbOf);
    } else if FitsBase(r, call, kbOf) {
      assert next.kbNodes == r.kbNodes && next.nodeSessions.Keys == r.nodeSessions.Keys;
      assert forall kb: Id :: NodesOf(next, kb) == NodesOf(r, kb);
    } else if call.Register? {
      assert n in NodesOf(next, call.kbId);
    } else {
      assert n in NodesOf(r, kbOf(n));
      assert n in NodesOf(next, kbOf(n)) && n !in next.nodeSessions;
    }
  }

  ghost predicate AlwaysAgrees(r: Registry, calls: seq<Call>, kbOf: Id -> Id)
    decreases |calls|
  {
    Agrees(r, kbOf) && (calls == [] || AlwaysAgrees(Apply(r, calls[0]), calls[1..], kbOf))
  }

  predicate AllFit(r: Registry, calls: seq<Call>, kbOf: Id -> Id)
    decreases |calls|
  {
    calls == [] || (FitsBase(r, calls[0], kbOf) && AllFit(Apply(r, calls[0]), calls[1..], kbOf))
  }

  /** The indexes agree throughout a run if and only if every call of the run fits. */
  lemma {:induction false} RunAgreesIff(r: Registry, calls: seq<Call>, kbOf: Id -> Id)
    requires Agrees(r, kbOf)
    ensures AlwaysAgrees(r, calls, kbOf) <==> AllFit(r, calls, kbOf)
    decreases |calls|
  {
    hide Agrees, Apply, FitsBase;
    if calls != [] {
      StepAgreesIff(r, calls[0], kbOf);
      if Agrees(Apply(r, calls[0]), kbOf) {
        RunAgreesIff(Apply(r, calls[0]), calls[1..], kbOf);
      }
    }
  }

  /** Once the check of a knowledge base passes, no check of any set of its nodes can fail. */
  lemma FreeBaseHasFreeNodes(r: Registry, kbOf: Id -> Id, kbId: Id)
    requires Agrees(r, kbOf)
    ensures !HasSessionInKb(r, kbId) <==> forall n: Id | kbOf(n) == kbId :: !HasSession(r, n)
  {
    if n: Id :| n in NodesOf(r, kbId) {
      assert n in r.nodeSessions && kbOf(n) == kbId && HasSession(r, n);
    } else {
      forall n: Id | kbOf(n) == kbId ensures !HasSession(r, n) {
        assert n !in NodesOf(r, kbId);
      }
    }
  }

  /** A node registered under two bases leaves a stale lock behind: the premise that every node
      is registered under its own base cannot be dropped. */
  lemma ForeignBaseLeavesStaleLock()
    ensures var r := Run(EMPTY, [Register("kb1", "n", "c", Write), Register("kb2", "n", "c", Write),
                                 Unregister("kb2", "n", "c")]);
            !HasSession(r, "n") && HasSessionInKb(r, "kb1")
  {
    var calls := [Register("kb1", "n", "c", Write), Register("kb2", "n", "c", Write), Unregister("kb2", "n", "c")];
    var r1 := Apply(EMPTY, calls[0]);
    var r2 := Apply(r1, calls[1]);
    var r3 := Apply(r2, calls[2]);
    assert Run(EMPTY, calls) == r3 by {
      assert calls[1..] == [calls[1], calls[2]] && calls[1..][1..] == [calls[2]] && calls[1..][1..][1..] == [];
      assert Run(r3, []) == r3;
      assert Run(r2, [calls[2]]) == r3;
      assert Run(r1, calls[1..]) == r3;
    }
    assert r2.nodeSessions["n"] - {"c"} == map[];
    assert "n" in r3.kbNodes["kb1"];
  }

  // ---- The gateway in front of the registry ----

  /** What the gateway keeps for one opened document. */
  datatype Context = Context(kbId: Id, nodeId: Id, mode: Mode, registered: bool, connectionId: Id)

  datatype Gateway = Gateway(contexts: map<Id, Context>, registry: Registry)

  datatype Event = Connected(context: Id, socketId: Id) | Disconnected(context: Id, socketId: Id)

  function Missing(c: Context): bool {
    c.kbId == "" || c.nodeId == ""
  }

  /** A connection registers once; a disconnection undoes only what was registered. */
  function Handle(g: Gateway, event: Event): Gateway {
    if event.context !in g.contexts then g
    else
      var c := g.contexts[event.context];
      match event
      case Connected(id, socketId) =>
        if c.registered || Missing(c) then g
        else Gateway(g.contexts[id := c.(registered := true, connectionId := socketId)],
                     Registered(g.registry, c.kbId, c.nodeId, socketId, c.mode))
      case Disconnected(id, _) =>
        if !c.registered || Missing(c) then g
        else Gateway(g.contexts[id := c.(registered := false)],
                     Unregistered(g.registry, c.kbId, c.nodeId, c.connectionId))
  }

  function HandleAll(g: Gateway, events: seq<Event>): Gateway
    decreases |events|
  {
    if events == [] then g else HandleAll(Handle(g, events[0]), events[1..])
  }

  /** The context holds connection `connectionId` of node `nodeId`. */
  ghost predicate Holds(c: Context, nodeId: Id, connectionId: Id) {
    c.registered && c.nodeId == nodeId && c.connectionId == connectionId
  }

  ghost predicate Held(g: Gateway, nodeId: Id, connectionId: Id) {
    exists id <- g.contexts :: Holds(g.contexts[id], nodeId, connectionId)
  }

  /** The sessions of a node are exactly the registered contexts on it, each with a socket of its
      own, and nothing unusable was ever registered. */
  ghost predicate SessionsAreContexts(g: Gateway) {
    && (forall n: Id, conn: Id :: conn in SessionsOf(g.registry, n) <==> Held(g, n, conn))
    && (forall i <- g.contexts, j <- g.contexts ::
          i != j && g.contexts[i].registered && g.contexts[j].registered
          && g.contexts[i].nodeId == g.contexts[j].nodeId
          ==> g.contexts[i].connectionId != g.contexts[j].connectionId)
    && (forall i <- g.contexts :: g.contexts[i].registered ==> !Missing(g.contexts[i]))
  }

  /** Every registered context has its session, with the base and the mode it was opened for. */
  ghost predicate SessionsAsOpened(g: Gateway) {
    forall i <- g.contexts :: g.contexts[i].registered ==> HasItsSession(g.registry, g.contexts[i])
  }

  ghost predicate HasItsSession(r: Registry, c: Context) {
    var sessions := SessionsOf(r, c.nodeId);
    c.connectionId in sessions && sessions[c.connectionId] == Session(c.kbId, c.mode)
  }

  ghost predicate GatewayInv(g: Gateway) {
    SessionsAreContexts(g) && SessionsAsOpened(g)
  }

  /** The socket of a connection is not in use on the same node by another context. */
  ghost predicate SocketFree(g: Gateway, event: Event) {
    event.Connected? && event.context in g.contexts ==>
      !Held(g, g.contexts[event.context].nodeId, event.socketId)
  }

  lemma ConnectKeepsContexts(g: Gateway, id: Id, socketId: Id)
    requires SessionsAreContexts(g) && SocketFree(g, Connected(id, socketId))
    requires id in g.contexts && !g.contexts[id].registered && !Missing(g.contexts[id])
    ensures SessionsAreContexts(Handle(g, Connected(id, socketId)))
  {
    var c := g.contexts[id];
    var next := Handle(g, Connected(id, socketId));
    forall n: Id, conn: Id ensures conn in SessionsOf(next.registry, n) <==> Held(next, n, conn) {
      assert conn in SessionsOf(g.registry, n) <==> Held(g, n, conn);
      if Held(g, n, conn) {
        var i :| i in g.contexts && Holds(g.contexts[i], n, conn);
        assert Holds(next.contexts[i], n, conn);
      }
      if n == c.nodeId && conn == socketId {
        assert Holds(next.contexts[id], n, conn);
      }
      if Held(next, n, conn) {
        var i :| i in next.contexts && Holds(next.contexts[i], n, conn);
        if i != id {
          assert Holds(g.contexts[i], n, conn);
        }
      }
    }
    forall i | i in g.contexts && i != id && g.contexts[i].registered && g.contexts[i].nodeId == c.nodeId
      ensures g.contexts[i].connectionId != socketId
    {
      assert !Holds(g.contexts[i], c.nodeId, socketId);
    }
  }

  lemma DisconnectKeepsContexts(g: Gateway, id: Id, socketId: Id)
    requires SessionsAreContexts(g)
    requires id in g.contexts && g.contexts[id].registered
    ensures SessionsAreContexts(Handle(g, Disconnected(id, socketId)))
  {
    var c := g.contexts[id];
    var next := Handle(g, Disconnected(id, socketId));
    assert Holds(c, c.nodeId, c.connectionId);
    assert Held(g, c.nodeId, c.connectionId);
    assert c.connectionId in SessionsOf(g.registry, c.nodeId);
    forall n: Id, conn: Id ensures conn in SessionsOf(next.registry, n) <==> Held(next, n, conn) {
      assert conn in SessionsOf(g.registry, n) <==> Held(g, n, conn);
      assert conn in SessionsOf(next.registry, n)
        <==> conn in SessionsOf(g.registry, n) && !(n == c.nodeId && conn == c.connectionId);
      if Held(next, n, conn) {
        var i :| i in next.contexts && Holds(next.contexts[i], n, conn);
        assert Holds(g.contexts[i], n, conn);
      }
      if Held(g, n, conn) && !(n == c.nodeId && conn == c.connectionId) {
        var i :| i in g.contexts && Holds(g.contexts[i], n, conn);
        assert Holds(next.contexts[i], n, conn);
      }
    }
  }

  lemma ConnectKeepsSessions(g: Gateway, id: Id, socketId: Id)
    requires GatewayInv(g) && SocketFree(g, Connected(id, socketId))
    requires id in g.contexts && !g.contexts[id].registered && !Missing(g.contexts[id])
    ensures SessionsAsOpened(Handle(g, Connected(id, socketId)))
  {
    hide SessionsAreContexts;
    var c := g.contexts[id];
    var next := Handle(g, Connected(id, socketId));
    forall i | i in next.contexts && next.contexts[i].registered
      ensures HasItsSession(next.registry, next.contexts[i])
    {
      if i != id {
        assert Holds(g.contexts[i], g.contexts[i].nodeId, g.contexts[i].connectionId);
        assert HasItsSession(g.registry, g.contexts[i]);
        assert !(g.contexts[i].nodeId == c.nodeId && g.contexts[i].connectionId == socketId);
      }
    }
  }

  lemma DisconnectKeepsSessions(g: Gateway, id: Id, socketId: Id)
    requires GatewayInv(g) && id in g.contexts && g.contexts[id].registered
    ensures SessionsAsOpened(Handle(g, Disconnected(id, socketId)))
  {
    var c := g.contexts[id];
    var next := Handle(g, Disconnected(id, socketId));
    forall i | i in next.contexts && next.contexts[i].registered
      ensures HasItsSession(next.registry, next.contexts[i])
    {
      hide SessionsOf, Unregistered;
      assert i != id && !(g.contexts[i].nodeId == c.nodeId && g.contexts[i].connectionId == c.connectionId);
      assert HasItsSession(g.registry, g.contexts[i]);
      OtherSessionStays(g.registry, c.kbId, c.nodeId, c.connectionId, g.contexts[i]);
    }
  }

  lemma OtherSessionStays(r: Registry, kbId: Id, nodeId: Id, connectionId: Id, c: Context)
    requires HasItsSession(r, c) && !(c.nodeId == nodeId && c.connectionId == connectionId)
    ensures HasItsSession(Unregistered(r, kbId, nodeId, connectionId), c)
  {
    hide WithoutKbNode;
    if c.nodeId == nodeId {
      assert c.connectionId in r.nodeSessions[nodeId] - {connectionId};
    }
  }

  lemma HandleKeepsInv(g: Gateway, event: Event)
    requires GatewayInv(g) && SocketFree(g, event)
    ensures GatewayInv(Handle(g, event))
  {
    if event.context in g.contexts {
      var c := g.contexts[event.context];
      if event.Connected? && !c.registered && !Missing(c) {
        ConnectKeepsContexts(g, event.context, event.socketId);
        ConnectKeepsSessions(g, event.context, event.socketId);
      } else if event.Disconnected? && c.registered {
        DisconnectKeepsContexts(g, event.context, event.socketId);
        DisconnectKeepsSessions(g, event.context, event.socketId);
      }
    }
  }

  /** Every socket is free when it connects, all along a run. */
  ghost predicate SocketsFree(g: Gateway, events: seq<Event>)
    decreases |events|
  {
    events == [] || (SocketFree(g, events[0]) && SocketsFree(Handle(g, events[0]), events[1..]))
  }

  /** Over every run of connections and disconnections, in any order and repeated at will, the
      sessions in the registry are exactly the documents that are open. */
  lemma {:induction false} GatewayRunKeepsInv(g: Gateway, events: seq<Event>)
    requires GatewayInv(g) && SocketsFree(g, events)
    ensures GatewayInv(HandleAll(g, events))
    decreases |events|
  {
    if events != [] {
      hide GatewayInv, Handle;
      HandleKeepsInv(g, events[0]);
      GatewayRunKeepsInv(Handle(g, events[0]), events[1..]);
    }
  }

  /** The gateway before any connection: documents have been authenticated, none is registered. */
  ghost predicate IsIdle(g: Gateway) {
    g.registry == EMPTY && forall id <- g.contexts :: !g.contexts[id].registered
  }

  /** The same from an idle gateway. */
  lemma IdleGatewayRunKeepsInv(g: Gateway, events: seq<Event>)
    requires IsIdle(g) && SocketsFree(g, events)
    ensures GatewayInv(HandleAll(g, events))
  {
    hide HandleAll, SocketsFree;
    assert GatewayInv(g);
    GatewayRunKeepsInv(g, events);
  }

  /** Whether a document is open after some events: as its last one says. */
  function OpenAfter(events: seq<Event>, id: Id, before: bool): bool {
    if events == [] then before
    else OpenAfter(events[1..], id, if events[0].context == id then events[0].Connected? else before)
  }

  /** A document is registered if and only if the last event of its connection has connected it, and it
      keeps the node, base and mode it was authenticated for. */
  lemma {:induction false} RegisteredIffConnected(g: Gateway, events: seq<Event>, id: Id)
    requires id in g.contexts && !Missing(g.contexts[id])
    ensures var t := HandleAll(g, events);
            && id in t.contexts
            && t.contexts[id].registered == OpenAfter(events, id, g.contexts[id].registered)
            && t.contexts[id].nodeId == g.contexts[id].nodeId && t.contexts[id].kbId == g.contexts[id].kbId
            && t.contexts[id].mode == g.contexts[id].mode
    decreases |events|
  {
    if events != [] {
      assert var next := Handle(g, events[0]);
             && id in next.contexts
             && next.contexts[id].registered
                == (if events[0].context == id then events[0].Connected? else g.contexts[id].registered)
             && next.contexts[id].nodeId == g.contexts[id].nodeId && next.contexts[id].kbId == g.contexts[id].kbId
             && next.contexts[id].mode == g.contexts[id].mode by {
        hide Registered, Unregistered;
      }
      hide Handle;
      RegisteredIffConnected(Handle(g, events[0]), events[1..], id);
    }
  }

  /** From an idle gateway on, a document has its session, with its base and mode, if and only if the
      last event of its connection has connected it. */
  lemma OpenDocumentsHaveSessions(g: Gateway, events: seq<Event>, id: Id)
    requires IsIdle(g) && SocketsFree(g, events) && id in g.contexts && !Missing(g.contexts[id])
    ensures var t, was := HandleAll(g, events), g.contexts[id];
            && id in t.contexts
            && (OpenAfter(events, id, false) ==>
                  && Holds(t.contexts[id], was.nodeId, t.contexts[id].connectionId)
                  && t.contexts[id].connectionId in SessionsOf(t.registry, was.nodeId)
                  && SessionsOf(t.registry, was.nodeId)[t.contexts[id].connectionId] == Session(was.kbId, was.mode))
            && (!OpenAfter(events, id, false) ==> !t.contexts[id].registered)
  {
    hide HandleAll, SocketsFree;
    IdleGatewayRunKeepsInv(g, events);
    RegisteredIffConnected(g, events, id);
  }
}
