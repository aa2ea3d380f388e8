/** One end of a connection: the map that routes packets to sessions, and the queue of messages
    received. The thread that processes packets is the function ConnStep. */
module StipRouting {
  import opened Wrappers
  import opened StipPackets
  import opened StipSessions

  datatype Session = Sending(send: SendState) | Receiving(recv: RecvState)

  /** `inbox` holds the ids of the sessions pushed on messageQueue and not yet taken. */
  datatype Conn = Conn(sessions: map<nat, Session>, inbox: seq<nat>)

  predicate SessionValid(x: nat, session: Session) {
    match session
    case Sending(ss) => ss.id == x && SendValid(ss)
    case Receiving(rs) => rs.id == x && RecvValid(rs)
  }

  ghost predicate ConnValid(c: Conn) {
    forall x :: x in c.sessions ==> SessionValid(x, c.sessions[x])
  }

  predicate IsReceiving(c: Conn, x: nat) {
    x in c.sessions && c.sessions[x].Receiving?
  }

  predicate IsSending(c: Conn, x: nat) {
    x in c.sessions && c.sessions[x].Sending?
  }

  /** The packet makes the connection create a receive session. */
  predicate Creates(c: Conn, p: Packet) {
    p.command.InitRequest? && p.sessionId !in c.sessions
  }

  ghost predicate ConnFaults(c: Conn, p: Packet)
    requires ConnValid(c)
  {
    if Creates(c, p) then |p.data| < 8
    else
      && p.sessionId in c.sessions && !p.command.InitRequest?
      && match c.sessions[p.sessionId]
         case Sending(ss) => SendFaults(ss, p)
         case Receiving(rs) => RecvFaults(rs, p)
  }

  /** malloc is asked for as many bytes as the packet announces. */
  ghost predicate BlockFits(c: Conn, p: Packet, block: seq<byte>) {
    Creates(c, p) && |p.data| >= 8 ==> |block| == AnnouncedSize(p)
  }

  /** Session x has become rs by a data part: a finished session is pushed on the queue once. */
  function Settle(c: Conn, x: nat, rs: RecvState): Conn {
    if rs.status == 5 && !rs.dispatched then
      Conn(c.sessions[x := Receiving(rs.(dispatched := true))], c.inbox + [x])
    else c.(sessions := c.sessions[x := Receiving(rs)])
  }

  ghost function ConnStep(c: Conn, p: Packet, block: seq<byte>): (r: (Conn, seq<Packet>))
    requires ConnValid(c) && !ConnFaults(c, p) && BlockFits(c, p, block)
    ensures ConnValid(r.0)
  {
    var x := p.sessionId;
    match p.command
    case InitRequest =>
      if x in c.sessions then (c, [])
      else
        var (rs, replies) := RecvStep(NewRecv(x, p.packetId, block), p, block);
        (c.(sessions := c.sessions[x := Receiving(rs)]), replies)
    case SendDataPart =>
      if !IsReceiving(c, x) then (c, [])
      else
        var (rs, replies) := RecvStep(c.sessions[x].recv, p, block);
        (Settle(c, x, rs), replies)
    case _ =>
      if x !in c.sessions then (c, [])
      else
        match c.sessions[x]
        case Sending(ss) =>
          var (ss', replies) := SendStep(ss, p);
          (c.(sessions := c.sessions[x := Sending(ss')]), replies)
        case Receiving(rs) =>
          var (rs', replies) := RecvStep(rs, p, block);
          (c.(sessions := c.sessions[x := Receiving(rs')]), replies)
  }

  // ----- sessions do not disturb each other

  /** What can happen to a connection: a packet is processed, or a thread of this side adds,
      changes or removes the send session it owns. */
  datatype Event = Arrives(p: Packet, block: seq<byte>) | Local(id: nat, entry: Option<SendState>)

  function EventId(e: Event): nat {
    match e
    case Arrives(p, _) => p.sessionId
    case Local(id, _) => id
  }

  ghost predicate CanHappen(c: Conn, e: Event)
    requires ConnValid(c)
  {
    match e
    case Arrives(p, block) => !ConnFaults(c, p) && BlockFits(c, p, block)
    case Local(id, entry) => !IsReceiving(c, id) && (entry.Some? ==> SessionValid(id, Sending(entry.value)))
  }

  ghost function Happen(c: Conn, e: Event): (r: (Conn, seq<Packet>))
    requires ConnValid(c) && CanHappen(c, e)
    ensures ConnValid(r.0)
  {
    match e
    case Arrives(p, block) => ConnStep(c, p, block)
    case Local(id, Some(ss)) => (c.(sessions := c.sessions[id := Sending(ss)]), [])
    case Local(id, None) => (c.(sessions := c.sessions - {id}), [])
  }

  ghost predicate AllHappen(c: Conn, es: seq<Event>)
    requires ConnValid(c)
    decreases |es|
  {
    es == [] || (CanHappen(c, es[0]) && AllHappen(Happen(c, es[0]).0, es[1..]))
  }

  /** The connection after all events, and every packet it sent. */
  ghost function HappenAll(c: Conn, es: seq<Event>): (r: (Conn, seq<Packet>))
    requires ConnValid(c) && AllHappen(c, es)
    ensures ConnValid(r.0)
    decreases |es|
  {
    if es == [] then (c, [])
    else
      var (c1, out1) := Happen(c, es[0]);
      var (c2, out2) := HappenAll(c1, es[1..]);
      (c2, out1 + out2)
  }

  ghost function OnlyId(es: seq<Event>, x: nat): seq<Event> {
    if es == [] then []
    else if EventId(es[0]) == x then [es[0]] + OnlyId(es[1..], x) else OnlyId(es[1..], x)
  }

  ghost function PacketsOf(ps: seq<Packet>, x: nat): seq<Packet> {
    if ps == [] then []
    else if ps[0].sessionId == x then [ps[0]] + PacketsOf(ps[1..], x) else PacketsOf(ps[1..], x)
  }

  ghost function Pushes(inbox: seq<nat>, x: nat): nat {
    multiset(inbox)[x]
  }

  /** Two connections look alike to session x. */
  ghost predicate SameFor(c: Conn, d: Conn, x: nat) {
    && (x in c.sessions <==> x in d.sessions)
    && (x in c.sessions ==> c.sessions[x] == d.sessions[x])
    && Pushes(c.inbox, x) == Pushes(d.inbox, x)
  }

  lemma PacketsOfConcat(ps: seq<Packet>, qs: seq<Packet>, x: nat)
    ensures PacketsOf(ps + qs, x) == PacketsOf(ps, x) + PacketsOf(qs, x)
  {
    if ps == [] {
      assert ps + qs == qs;
    } else {
      PacketsOfConcat(ps[1..], qs, x);
      assert (ps + qs)[1..] == ps[1..] + qs;
    }
  }

  lemma {:induction false} PacketsOfUniform(ps: seq<Packet>, x: nat, y: nat)
    requires forall p :: p in ps ==> p.sessionId == y
    ensures PacketsOf(ps, x) == if x == y then ps else []
  {
    if ps != [] {
      PacketsOfUniform(ps[1..], x, y);
    }
  }

  /** Whatever a session sends carries its own id. */
  lemma RepliesCarryId(c: Conn, e: Event)
    requires ConnValid(c) && CanHappen(c, e)
    ensures forall q :: q in Happen(c, e).1 ==> q.sessionId == EventId(e)
  {
  }

  lemma OtherIdUndisturbed(c: Conn, e: Event, x: nat)
    requires ConnValid(c) && CanHappen(c, e) && EventId(e) != x
    ensures SameFor(c, Happen(c, e).0, x)
  {
  }

  lemma SameIdSameStep(c: Conn, d: Conn, e: Event)
    requires ConnValid(c) && ConnValid(d) && SameFor(c, d, EventId(e)) && CanHappen(c, e)
    ensures CanHappen(d, e)
    ensures Happen(c, e).1 == Happen(d, e).1
    ensures SameFor(Happen(c, e).0, Happen(d, e).0, EventId(e))
  {
  }

  /** Session isolation: what becomes of session x, what it sends and how often it is pushed on
      the message queue depend on the events that carry its id and on no others. */
  lemma {:induction false} SessionIsolation(c: Conn, d: Conn, es: seq<Event>, x: nat)
    requires ConnValid(c) && ConnValid(d) && SameFor(c, d, x) && AllHappen(c, es)
    ensures AllHappen(d, OnlyId(es, x))
    ensures SameFor(HappenAll(c, es).0, HappenAll(d, OnlyId(es, x)).0, x)
    ensures PacketsOf(HappenAll(c, es).1, x) == HappenAll(d, OnlyId(es, x)).1
    decreases |es|
  {
    if es != [] {
      var e := es[0];
      var (c1, out1) := Happen(c, e);
      RepliesCarryId(c, e);
      PacketsOfUniform(out1, x, EventId(e));
      PacketsOfConcat(out1, HappenAll(c1, es[1..]).1, x);
      if EventId(e) == x {
        SameIdSameStep(c, d, e);
        SessionIsolation(c1, Happen(d, e).0, es[1..], x);
        assert OnlyId(es, x)[1..] == OnlyId(es[1..], x);
      } else {
        OtherIdUndisturbed(c, e, x);
        SessionIsolation(c1, d, es[1..], x);
      }
    }
  }
}
