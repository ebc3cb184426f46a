/**
 * The inbound message dispatcher of a Chord node
 * (src/chord/chord_api.go:23-95 and the handle* accessors).
 *
 * `Listener.Receive` switches on the packet type of the request, builds the
 * reply from the node's state (its IP, successor list and predecessor) or
 * forwards to the node's `findSuccessor` and `notify`. Those two belong to
 * the node's lookup and stabilisation logic, which is not part of this model:
 * they are parameters of the members that call them, over a value snapshot
 * of the node's state. Go's `*RemoteNode` pointers are `Option` values, a nil
 * slice is the empty sequence, and a runtime panic is a `Status`.
 */
module ChordApi {
  import opened Wrappers
  import opened GoStrconv

  /** Identity of another ring member: its identifier and IP address. */
  datatype RemoteNode = RemoteNode(identifier: int, ip: string)

  /** A `*RemoteNode`, which may be nil. */
  type NodeRef = Option<RemoteNode>

  /** The message exchanged in both directions. */
  datatype Packet = Packet(packetType: string, msg: string, list: seq<NodeRef>, senderIP: string)

  /** The zero `Packet`: what `var reply Packet` holds before the call. */
  const ZeroPacket: Packet := Packet("", "", [], "")

  /** What `Receive` can see of the node. */
  datatype NodeState = NodeState(ip: string, successorList: seq<NodeRef>, predecessor: NodeRef)

  datatype PanicReason =
    | NilDereference   // a field read through a nil *RemoteNode
    | IndexOutOfRange  // List[0] of an empty list

  /** `Receive` always returns a nil error; it can only fail by panicking. */
  datatype Status = Nil | Panic(reason: PanicReason)

  /** The packet types `Receive` has a case for. */
  const Cases: set<string> :=
    {"ping", "pong", "query", "answer", "getSuccesorList", "getPredecessesor", "notify"}

  /** The node's lookup: `ChordNode.findSuccessor(id)` on the current state. */
  type FindSuccessor = (NodeState, int) -> NodeRef

  /** The node's notify handler: the state after `ChordNode.notify(candidate)`. */
  type Notify = (NodeState, NodeRef) -> NodeState

  /** The key the `query` case resolves: `strconv.Atoi(reply.Msg)`. It is read
      from the reply, not from the request. */
  function QueryKey(payload: Packet, reply: Packet): (key: int)
    ensures reply.msg == "" ==> key == 0
  {
    Atoi(reply.msg)
  }

  /** The state of the running node (the Go global `ChordNode`). */
  class Node {
    var ip: string
    var successorList: seq<NodeRef>
    var predecessor: NodeRef

    constructor (ip: string, successorList: seq<NodeRef>, predecessor: NodeRef)
      ensures State() == NodeState(ip, successorList, predecessor)
    {
      this.ip := ip;
      this.successorList := successorList;
      this.predecessor := predecessor;
    }

    function State(): (s: NodeState)
      reads this
    {
      NodeState(ip, successorList, predecessor)
    }

    /** `handleQuery`: the node's answer for `id`. */
    method HandleQuery(id: int, findSuccessor: FindSuccessor) returns (node: NodeRef)
      ensures node == findSuccessor(State(), id)
    {
      node := findSuccessor(State(), id);
    }

    /** `handleQuerySuccesorList`: the node's own successor list, whole. */
    method HandleQuerySuccessorList() returns (nodes: seq<NodeRef>)
      ensures nodes == successorList
    {
      nodes := successorList;
    }

    /** `handleQueryPredecessor`: the current predecessor, possibly nil. */
    method HandleQueryPredecessor() returns (node: NodeRef)
      ensures node == predecessor
    {
      node := predecessor;
    }

    /** `handleQueryNotify`: hands the sender to the node's notify handler. */
    method HandleQueryNotify(sender: NodeRef, notify: Notify)
      modifies this
      ensures State() == notify(old(State()), sender)
    {
      var next := notify(State(), sender);
      ip, successorList, predecessor := next.ip, next.successorList, next.predecessor;
    }
  }

  /** A `Packet` variable whose address is passed as the reply argument. */
  class PacketCell {
    var packet: Packet

    constructor ()
      ensures packet == ZeroPacket
    {
      packet := ZeroPacket;
    }
  }

  /** The RPC receiver; `node` stands for the global `ChordNode`. */
  class Listener {
    const node: Node

    constructor (node: Node)
      ensures this.node == node
    {
      this.node := node;
    }

    /** `Receive`: dispatch one request and write the reply. */
    method Receive(payload: Packet, reply: PacketCell, findSuccessor: FindSuccessor, notify: Notify)
      returns (status: Status)
      modifies node, reply
      // only the notify case can change the node
      ensures payload.packetType != "notify" ==> node.State() == old(node.State())
      ensures payload.packetType == "ping" ==>
        status == Nil && reply.packet == Packet("pong", "alive", [], node.ip)
      ensures payload.packetType == "query" ==>
        var answer := findSuccessor(old(node.State()), QueryKey(payload, old(reply.packet)));
        if answer.None? then
          status == Panic(NilDereference) && reply.packet == old(reply.packet)
        else
          status == Nil &&
          reply.packet == Packet("answer", RuneString(answer.value.identifier), [answer], node.ip)
      ensures payload.packetType == "getSuccesorList" ==>
        status == Nil && reply.packet == Packet("SuccesorList", "", node.successorList, node.ip)
      ensures payload.packetType == "getPredecessesor" ==>
        status == Nil && reply.packet == Packet("Predecessor", "", [node.predecessor], node.ip)
      ensures payload.packetType == "notify" ==>
        reply.packet == old(reply.packet) &&
        if payload.list == [] then
          status == Panic(IndexOutOfRange) && node.State() == old(node.State())
        else
          status == Nil && node.State() == notify(old(node.State()), payload.list[0])
      // pong, answer and every unknown type: nothing happens
      ensures payload.packetType in {"pong", "answer"} || payload.packetType !in Cases ==>
        status == Nil && reply.packet == old(reply.packet)
    {
      match payload.packetType
      case "ping" =>
        reply.packet := Packet("pong", "alive", [], node.ip);
        return Nil;
      case "pong" =>
        return Nil;
      case "query" =>
        var key := QueryKey(payload, reply.packet);
        var answer := node.HandleQuery(key, findSuccessor);
        if answer.None? {
          return Panic(NilDereference);
        }
        reply.packet := Packet("answer", RuneString(answer.value.identifier), [answer], node.ip);
        return Nil;
      case "answer" =>
        return Nil;
      case "getSuccesorList" =>
        var nodes := node.HandleQuerySuccessorList();
        reply.packet := Packet("SuccesorList", "", nodes, node.ip);
        return Nil;
      case "getPredecessesor" =>
        var pred := node.HandleQueryPredecessor();
        reply.packet := Packet("Predecessor", "", [pred], node.ip);
        return Nil;
      case "notify" =>
        if payload.list == [] {
          return Panic(IndexOutOfRange);
        }
        node.HandleQueryNotify(payload.list[0], notify);
        return Nil;
      case _ =>
        return Nil;
    }
  }

  // ---------------------------------------------------------------------
  // Requests as the client functions build them

  /** The request `ping` sends; `Receive` answers it with a pong. */
  function PingRequest(self: string): (p: Packet)
    ensures p.packetType in Cases && p.packetType == "ping" && p.senderIP == self
  {
    Packet("ping", "Are you alive?", [], self)
  }

  /** The request `query` sends. It names the query case, but the identifier
      is converted with `string(id)`: one character, not its decimal digits. */
  function QueryRequest(id: int, self: string): (p: Packet)
    ensures p.packetType in Cases && p.packetType == "query"
    ensures |p.msg| == 1
  {
    Packet("query", RuneString(id), [], self)
  }

  /** The request `querySuccessorList` sends; it names the successor-list case. */
  function SuccessorListRequest(self: string): (p: Packet)
    ensures p.packetType in Cases && p.packetType == "getSuccesorList"
  {
    Packet("getSuccesorList", "Get successor list", [], self)
  }

  /** The request `queryPredecessor` sends. Its tag "getPredecessor" is not
      the server's "getPredecessesor": it names none of the cases of
      `Receive` and falls to the default case. */
  function PredecessorRequest(self: string): (p: Packet)
    ensures p.packetType !in Cases
  {
    Packet("getPredecessor", "Get predecessor", [], self)
  }

  /** The request `notify` sends. It names the notify case and carries the
      sender's own identity as the entry that case reads, so the case cannot
      panic on it. */
  function NotifyRequest(selfId: int, self: string): (p: Packet)
    ensures p.packetType in Cases && p.packetType == "notify"
    ensures p.list != [] && p.list[0] == Some(RemoteNode(selfId, self))
  {
    Packet("notify", "I am our predecessor.", [Some(RemoteNode(selfId, self))], self)
  }

  /** The query case ignores the identifier the client sent: with the fresh
      reply every client passes, it always resolves identifier 0. Even read
      from the request, `string(id)` is not decimal: identifier 100 is "d",
      which `Atoi` reads as 0, and identifier 55 is "7". */
  lemma QueryIgnoresRequestedKey(id: int, self: string)
    ensures QueryKey(QueryRequest(id, self), ZeroPacket) == 0
    ensures Atoi(QueryRequest(100, self).msg) == 0
    ensures Atoi(QueryRequest(55, self).msg) == 7
  {
    assert RuneString(55) == "7";
    assert ScanUint("7", 0) == Value(7) by {
      assert "7"[1..] == [];
    }
  }

  // ---------------------------------------------------------------------
  // The client exchanges, with the network call replaced by a direct call

  /** `queryPredecessor` against a listener: the reply keeps its zero value,
      so the caller always receives an empty list. */
  method QueryPredecessorExchange(server: Listener, self: string, findSuccessor: FindSuccessor, notify: Notify)
    returns (list: seq<NodeRef>)
    modifies server.node
    ensures list == []
    ensures server.node.State() == old(server.node.State())
  {
    var reply := new PacketCell();
    var _ := server.Receive(PredecessorRequest(self), reply, findSuccessor, notify);
    list := reply.packet.list;
  }

  /** `query` against a listener: whatever identifier is asked for, the
      caller receives the server's successor of identifier 0, or the server
      panics when it has none. */
  method QueryExchange(server: Listener, id: int, self: string, findSuccessor: FindSuccessor, notify: Notify)
    returns (status: Status, answer: NodeRef)
    modifies server.node
    ensures var resolved := findSuccessor(old(server.node.State()), 0);
      if resolved.None? then status == Panic(NilDereference)
      else status == Nil && answer == resolved
    ensures server.node.State() == old(server.node.State())
  {
    var reply := new PacketCell();
    QueryIgnoresRequestedKey(id, self);
    status := server.Receive(QueryRequest(id, self), reply, findSuccessor, notify);
    if status == Nil {
      answer := reply.packet.list[0];
    } else {
      answer := None;
    }
  }

  // ---------------------------------------------------------------------
  // Corrected requests and key parsing

  /** The predecessor query with the tag the server matches. */
  function PredecessorRequestCorrected(self: string): (p: Packet)
    ensures p.packetType in Cases && p.packetType == "getPredecessesor"
  {
    Packet("getPredecessesor", "Get predecessor", [], self)
  }

  /** With the matching tag the caller receives the server's predecessor. */
  method QueryPredecessorExchangeCorrected(server: Listener, self: string, findSuccessor: FindSuccessor, notify: Notify)
    returns (list: seq<NodeRef>)
    modifies server.node
    ensures list == [old(server.node.predecessor)]
    ensures server.node.State() == old(server.node.State())
  {
    var reply := new PacketCell();
    var _ := server.Receive(PredecessorRequestCorrected(self), reply, findSuccessor, notify);
    list := reply.packet.list;
  }

  /** The query request with the identifier written in decimal. */
  function QueryRequestCorrected(id: int, self: string): (p: Packet)
    ensures p.packetType in Cases && p.packetType == "query"
  {
    Packet("query", Itoa(id), [], self)
  }

  /** The key read from the request rather than the reply. */
  function QueryKeyCorrected(payload: Packet, reply: Packet): (key: int)
    ensures MinInt64 <= key <= MaxInt64
  {
    Atoi(payload.msg)
  }

  /** With both corrections the server resolves exactly the identifier the
      client asked for, whatever the reply holds. */
  lemma QueryKeyCorrectedRoundTrip(id: int, self: string, reply: Packet)
    requires MinInt64 <= id <= MaxInt64
    ensures QueryKeyCorrected(QueryRequestCorrected(id, self), reply) == id
  {
    AtoiOfItoa(id);
  }
}
