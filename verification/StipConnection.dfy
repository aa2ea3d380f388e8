/** The connection as the program has it: the sessions by id, the queue of received messages, and
    the handling of one packet. */
module StipConnection {
  import opened StipPackets
  import opened StipSessions
  import opened StipRouting
  import opened StipClasses

  /** The routing map, split by the dynamic type of the session it points at. */
  class SessionManager {
    var sending: map<nat, SendMessageSession>
    var receiving: map<nat, ReceiveMessageSession>

    constructor ()
      ensures sending == map[] && receiving == map[]
    {
      sending, receiving := map[], map[];
    }

    predicate Has(id: nat)
      reads this
    {
      id in sending || id in receiving
    }

    /** Fails, where the program throws, when the id is taken. */
    method AddReceiving(session: ReceiveMessageSession) returns (ok: bool)
      modifies this
      ensures ok <==> !old(Has(session.id))
      ensures sending == old(sending)
      ensures receiving == if ok then old(receiving)[session.id := session] else old(receiving)
    {
      ok := !Has(session.id);
      if ok {
        receiving := receiving[session.id := session];
      }
    }

    method AddSending(session: SendMessageSession) returns (ok: bool)
      modifies this
      ensures ok <==> !old(Has(session.id))
      ensures receiving == old(receiving)
      ensures sending == if ok then old(sending)[session.id := session] else old(sending)
    {
      ok := !Has(session.id);
      if ok {
        sending := sending[session.id := session];
      }
    }

    method DeleteSession(id: nat)
      modifies this
      ensures sending == old(sending) - {id} && receiving == old(receiving) - {id}
    {
      sending, receiving := sending - {id}, receiving - {id};
    }
  }

  class Connection {
    const manager: SessionManager
    var messageQueue: seq<ReceiveMessageSession>

    ghost function Buffers(): set<object>
      reads manager, manager.receiving.Values
    {
      (set x | x in manager.receiving :: manager.receiving[x].data as object)
      + (set x | x in manager.receiving :: manager.receiving[x].receivedParts as object)
    }

    /** The sessions have the states the map gives, in order and under their own ids; receive
        sessions have processed their INIT and share no buffer. */
    ghost predicate Holds(sessions: map<nat, Session>)
      reads manager, manager.sending.Values, manager.receiving.Values, Buffers()
      ensures Holds(sessions) ==> forall x :: x in sessions ==> SessionValid(x, sessions[x])
    {
      && (forall x :: x in sessions ==> SessionValid(x, sessions[x]))
      && (forall x :: x in sessions <==> x in manager.sending || x in manager.receiving)
      && (forall x :: x in manager.sending ==>
            x !in manager.receiving && sessions[x] == Sending(manager.sending[x].State()))
      && (forall x :: x in manager.receiving ==>
            sessions[x] == Receiving(manager.receiving[x].State()) && sessions[x].recv.status != -1)
      && (forall x, y | x in manager.receiving && y in manager.receiving && x != y ::
            manager.receiving[x].data != manager.receiving[y].data
            && manager.receiving[x].receivedParts != manager.receiving[y].receivedParts)
    }

    /** The queue points at the sessions of the map with these ids. */
    ghost predicate Queues(inbox: seq<nat>)
      reads this, manager
    {
      && |inbox| == |messageQueue|
      && forall k :: 0 <= k < |inbox| ==>
           inbox[k] in manager.receiving && manager.receiving[inbox[k]] == messageQueue[k] && messageQueue[k].id == inbox[k]
    }

    /** The connection stands in state c. */
    ghost predicate StandsIn(c: Conn)
      reads this, manager, manager.sending.Values, manager.receiving.Values, Buffers()
      ensures StandsIn(c) ==> ConnValid(c)
    {
      Holds(c.sessions) && Queues(c.inbox)
    }

    constructor ()
      ensures StandsIn(Conn(map[], [])) && fresh(manager)
    {
      manager := new SessionManager();
      messageQueue := [];
    }

    /** Hands a packet to a receive session. */
    method ToReceiver(x: nat, p: Packet, ghost sessions: map<nat, Session>)
      returns (out: seq<Packet>, ghost rs: RecvState)
      requires Holds(sessions) && x in manager.receiving && !RecvFaults(sessions[x].recv, p)
      modifies manager.receiving[x], manager.receiving[x].data, manager.receiving[x].receivedParts
      ensures (rs, out) == RecvStep(sessions[x].recv, p, [])
      ensures Holds(sessions[x := Receiving(rs)])
      ensures manager.receiving[x].data == old(manager.receiving[x].data)
      ensures manager.receiving[x].receivedParts == old(manager.receiving[x].receivedParts)
    {
      ghost var block;
      out, block := manager.receiving[x].ProcessIncomingPacket(p);
      rs := manager.receiving[x].State();
    }

    method ToSender(x: nat, p: Packet, ghost sessions: map<nat, Session>)
      returns (out: seq<Packet>, ghost ss: SendState)
      requires Holds(sessions) && x in manager.sending && !SendFaults(sessions[x].send, p)
      modifies manager.sending[x]
      ensures (ss, out) == SendStep(sessions[x].send, p)
      ensures Holds(sessions[x := Sending(ss)])
    {
      out := manager.sending[x].ProcessIncomingPacket(p);
      ss := manager.sending[x].State();
    }

    method MarkDispatched(x: nat, ghost sessions: map<nat, Session>)
      requires Holds(sessions) && x in manager.receiving
      modifies manager.receiving[x]
      ensures Holds(sessions[x := Receiving(sessions[x].recv.(dispatched := true))])
    {
      manager.receiving[x].dispatched := true;
    }

    method Push(x: nat, ghost sessions: map<nat, Session>, ghost inbox: seq<nat>)
      requires Holds(sessions) && Queues(inbox) && x in manager.receiving
      modifies this`messageQueue
      ensures Holds(sessions) && Queues(inbox + [x])
    {
      messageQueue := messageQueue + [manager.receiving[x]];
      ghost var held := Holds(sessions);
      assert held;  // the sessions do not depend on the queue
    }

    /** A session that has just finished is dispatched, unless it was before. */
    method SettlePart(x: nat, ghost sessions: map<nat, Session>, ghost inbox: seq<nat>)
      requires Holds(sessions) && Queues(inbox) && x in manager.receiving
      modifies this`messageQueue, manager.receiving[x]
      ensures var rs := sessions[x].recv;
              if rs.status == 5 && !rs.dispatched then
                Holds(sessions[x := Receiving(rs.(dispatched := true))]) && Queues(inbox + [x])
              else Holds(sessions) && Queues(inbox)
    {
      if manager.receiving[x].status == 5 {
        if !manager.receiving[x].dispatched {
          MarkDispatched(x, sessions);
          Push(x, sessions[x := Receiving(sessions[x].recv.(dispatched := true))], inbox);
        }
      }
    }

    static lemma SettleTwice(c: Conn, x: nat, rs: RecvState)
      ensures var rs' := rs.(dispatched := true);
              c.sessions[x := Receiving(rs)][x := Receiving(rs')] == c.sessions[x := Receiving(rs')]
    {
    }

    static method NewSession(p: Packet)
      returns (session: ReceiveMessageSession, out: seq<Packet>, ghost block: seq<byte>)
      requires |p.data| >= 8 && p.command.InitRequest?
      ensures fresh(session) && fresh(session.data) && fresh(session.receivedParts)
      ensures session.Valid() && session.status != -1
      ensures |block| == AnnouncedSize(p)
      ensures session.id == p.sessionId
      ensures (session.State(), out) == RecvStep(NewRecv(p.sessionId, p.packetId, block), p, block)
    {
      session := new ReceiveMessageSession(p.sessionId, Value(p.data[..8]), p.packetId);
      out, block := session.ProcessIncomingPacket(p);
    }

    method Register(session: ReceiveMessageSession, ghost sessions: map<nat, Session>)
      requires Holds(sessions) && !manager.Has(session.id) && session.Valid() && session.status != -1
      requires forall x :: x in manager.receiving ==>
                 manager.receiving[x].data != session.data && manager.receiving[x].receivedParts != session.receivedParts
      modifies manager
      ensures Holds(sessions[session.id := Receiving(session.State())])
      ensures manager.receiving == old(manager.receiving)[session.id := session]
    {
      var ok := manager.AddReceiving(session);
    }

    /** A new session for an INIT with a new id, which processes the packet at once. */
    method CreateSession(p: Packet, ghost sessions: map<nat, Session>, ghost inbox: seq<nat>)
      returns (out: seq<Packet>, ghost rs: RecvState, ghost block: seq<byte>)
      requires Holds(sessions) && Queues(inbox) && !manager.Has(p.sessionId)
      requires |p.data| >= 8 && p.command.InitRequest?
      modifies manager
      ensures |block| == AnnouncedSize(p)
      ensures (rs, out) == RecvStep(NewRecv(p.sessionId, p.packetId, block), p, block)
      ensures Holds(sessions[p.sessionId := Receiving(rs)]) && Queues(inbox)
    {
      var session;
      session, out, block := NewSession(p);
      rs := session.State();
      Register(session, sessions);
    }

    method ProcessInit(p: Packet, ghost c: Conn) returns (out: seq<Packet>, ghost block: seq<byte>)
      requires StandsIn(c) && !ConnFaults(c, p) && p.command.InitRequest?
      modifies manager
      ensures BlockFits(c, p, block) && out == ConnStep(c, p, block).1
      ensures StandsIn(ConnStep(c, p, block).0)
    {
      out, block := [], [];
      if !manager.Has(p.sessionId) {
        ghost var rs;
        out, rs, block := CreateSession(p, c.sessions, c.inbox);
      }
    }

    method ProcessPart(p: Packet, ghost c: Conn) returns (out: seq<Packet>)
      requires StandsIn(c) && !ConnFaults(c, p) && p.command.SendDataPart?
      modifies this, manager.receiving.Values, Buffers()
      ensures out == ConnStep(c, p, []).1
      ensures StandsIn(ConnStep(c, p, []).0)
    {
      out := [];
      var x := p.sessionId;
      if x in manager.receiving {
        ghost var rs;
        out, rs := ToReceiver(x, p, c.sessions);
        SettlePart(x, c.sessions[x := Receiving(rs)], c.inbox);
        SettleTwice(c, x, rs);
      }
    }

    method ProcessOther(p: Packet, ghost c: Conn) returns (out: seq<Packet>)
      requires StandsIn(c) && !ConnFaults(c, p) && !p.command.InitRequest? && !p.command.SendDataPart?
      modifies manager.sending.Values, manager.receiving.Values, Buffers()
      ensures out == ConnStep(c, p, []).1
      ensures StandsIn(ConnStep(c, p, []).0)
    {
      out := [];
      var x := p.sessionId;
      if x in manager.sending {
        ghost var ss;
        out, ss := ToSender(x, p, c.sessions);
      } else if x in manager.receiving {
        ghost var rs;
        out, rs := ToReceiver(x, p, c.sessions);
      }
    }

    /** One turn of processThread. */
    method ProcessPacket(p: Packet, ghost c: Conn) returns (out: seq<Packet>, ghost block: seq<byte>)
      requires StandsIn(c) && !ConnFaults(c, p)
      modifies this, manager, manager.sending.Values, manager.receiving.Values, Buffers()
      ensures BlockFits(c, p, block) && out == ConnStep(c, p, block).1
      ensures StandsIn(ConnStep(c, p, block).0)
    {
      block := [];
      match p.command {
        case InitRequest => out, block := ProcessInit(p, c);
        case SendDataPart => out := ProcessPart(p, c);
        case _ => out := ProcessOther(p, c);
      }
    }

    /** receiveMessage, where it does not wait: null when the queue is empty and the connection has
        been stopped. */
    method ReceiveMessage(ghost c: Conn) returns (message: ReceiveMessageSession?)
      requires StandsIn(c)
      modifies this
      ensures message == null <==> c.inbox == []
      ensures message == null ==> StandsIn(c)
      ensures message != null ==>
                && StandsIn(c.(inbox := c.inbox[1..])) && message.id == c.inbox[0]
                && c.sessions[message.id].recv == message.State()
    {
      if messageQueue == [] {
        return null;
      }
      message := messageQueue[0];
      messageQueue := messageQueue[1..];
      ghost var held := Holds(c.sessions);
      assert held;  // the sessions do not depend on the queue
    }
  }
}
