/** Two peers joined by a network that loses, duplicates and reorders packets. Either side may
    send any number of messages at once, and the two sides may pick the same session ids. */
module StipSystem {
  import opened StipPackets
  import opened StipSessions
  import opened StipRouting

  /** `pcs` holds the threads inside sendMessage, `sent` every message ever given to it,
      `results` what it has returned, `taken` the sessions receiveMessage has handed out. */
  datatype Peer = Peer(conn: Conn, pcs: map<nat, Pc>, sent: map<nat, seq<byte>>, results: map<nat, bool>,
                       taken: seq<nat>)

  /** `out` holds every packet `me` has sent, `inc` every packet `other` has sent. A packet stays:
      it may be delivered late, many times or never. */
  datatype Sys = Sys(me: Peer, other: Peer, out: set<Packet>, inc: set<Packet>, faulted: bool)

  datatype Act =
    | Open(id: nat, msg: seq<byte>)          // sendMessage is called
    | Progress(id: nat, timeout: bool)       // its thread takes a step
    | Close(id: nat)                         // it returns
    | Deliver(p: Packet, block: seq<byte>)   // the processing thread handles a packet
    | Take                                   // receiveMessage

  /** An act of `me`, or of `other`. */
  datatype Step = Step(mine: bool, act: Act)

  function Flip(s: Sys): Sys {
    Sys(s.other, s.me, s.inc, s.out, s.faulted)
  }

  const NEW_PEER := Peer(Conn(map[], []), map[], map[], map[], [])
  const START := Sys(NEW_PEER, NEW_PEER, {}, {}, false)

  ghost predicate SysValid(s: Sys) {
    ConnValid(s.me.conn) && ConnValid(s.other.conn)
  }

  ghost function ToSet(ps: seq<Packet>): set<Packet> {
    set p | p in ps
  }

  ghost predicate CanAct(s: Sys, a: Act)
    requires SysValid(s)
  {
    && !s.faulted
    && match a
       case Open(id, msg) => id !in s.me.conn.sessions && id !in s.me.sent
       case Progress(id, timeout) =>
         id in s.me.pcs && IsSending(s.me.conn, id)
         && CanAdvance(s.me.conn.sessions[id].send, s.me.pcs[id], timeout)
       case Close(id) => id in s.me.pcs && s.me.pcs[id].Finished?
       case Deliver(p, block) => p in s.inc && BlockFits(s.me.conn, p, block)
       case Take => s.me.conn.inbox != []
  }

  ghost function Apply(s: Sys, a: Act): (s': Sys)
    requires SysValid(s) && CanAct(s, a)
    ensures SysValid(s')
  {
    var me, conn := s.me, s.me.conn;
    match a
    case Open(id, msg) =>
      s.(me := me.(conn := conn.(sessions := conn.sessions[id := Sending(NewSend(id, msg))]),
                   pcs := me.pcs[id := InitAsk(0)], sent := me.sent[id := msg]))
    case Progress(id, timeout) =>
      var (ss, pc, packets) := Advance(conn.sessions[id].send, me.pcs[id], timeout);
      s.(me := me.(conn := conn.(sessions := conn.sessions[id := Sending(ss)]), pcs := me.pcs[id := pc]),
         out := s.out + ToSet(packets))
    case Close(id) =>
      s.(me := me.(conn := conn.(sessions := conn.sessions - {id}), pcs := me.pcs - {id},
                   results := me.results[id := me.pcs[id].result]))
    case Deliver(p, block) =>
      if ConnFaults(conn, p) then s.(faulted := true)
      else
        var (conn', packets) := ConnStep(conn, p, block);
        s.(me := me.(conn := conn'), out := s.out + ToSet(packets))
    case Take =>
      s.(me := me.(conn := conn.(inbox := conn.inbox[1..]), taken := me.taken + [conn.inbox[0]]))
  }

  ghost predicate CanStep(s: Sys, t: Step)
    requires SysValid(s)
  {
    if t.mine then CanAct(s, t.act) else CanAct(Flip(s), t.act)
  }

  ghost function After(s: Sys, t: Step): (s': Sys)
    requires SysValid(s) && CanStep(s, t)
    ensures SysValid(s')
  {
    if t.mine then Apply(s, t.act) else Flip(Apply(Flip(s), t.act))
  }

  /** A run is a sequence of steps, each possible where it is taken. */
  ghost predicate Runs(ts: seq<Step>)
    decreases |ts|, 0
  {
    ts == [] || (Runs(ts[..|ts| - 1]) && CanStep(State(ts[..|ts| - 1]), ts[|ts| - 1]))
  }

  ghost function State(ts: seq<Step>): (s: Sys)
    requires Runs(ts)
    ensures SysValid(s)
    decreases |ts|, 1
  {
    if ts == [] then START else After(State(ts[..|ts| - 1]), ts[|ts| - 1])
  }

  // ----- the invariant

  /** The message of session x as far as its 32-bit size reaches. */
  ghost function MessageOf(sent: map<nat, seq<byte>>, x: nat): (m: seq<byte>)
    requires x in sent
    ensures |m| == U32(|sent[x]|)
  {
    sent[x][..U32(|sent[x]|)]
  }

  /** A packet from the sending side says only what belongs to its message. */
  ghost predicate GoodRequest(p: Packet, sent: map<nat, seq<byte>>) {
    IsRequest(p.command) ==>
      && p.sessionId in sent
      && var m := MessageOf(sent, p.sessionId);
         && (p.command.InitRequest? ==>
               |p.data| >= 8 && AnnouncedSize(p) == |m| && p.packetId == SenderCount(|m|))
         && (p.command.SendDataPart? ==>
               p.packetId < SenderCount(|m|) && p.data == Part(m, p.packetId))
  }

  ghost predicate AllMarked(rs: RecvState) {
    forall i :: 0 <= i < |rs.received| ==> rs.received[i]
  }

  /** Every marked part of the buffer is the message's, and the status tells when all are. */
  ghost predicate GoodReceiver(rs: RecvState, m: seq<byte>) {
    && RecvValid(rs) && rs.size == |m| && rs.packetCounts == ReceiverCount(|m|)
    && (rs.status == 1 || rs.status == 5)
    && (rs.status == 5 ==> AllMarked(rs))
    && (forall i :: 0 <= i < |rs.received| && rs.received[i] ==>
          i < SenderCount(|m|) && Part(rs.data, i) == Part(m, i))
    && (AllMarked(rs) && |m| > 0 ==> rs.dispatched)
    && (rs.dispatched ==> rs.status == 5)
  }

  /** Session x has every part of m. */
  ghost predicate Whole(c: Conn, x: nat, m: seq<byte>) {
    && IsReceiving(c, x)
    && GoodReceiver(c.sessions[x].recv, m) && AllMarked(c.sessions[x].recv)
  }

  /** And its status says so; for an empty message it takes a question to set it. */
  ghost predicate Delivered(c: Conn, x: nat, m: seq<byte>) {
    Whole(c, x, m) && c.sessions[x].recv.status == 5
  }

  /** A packet from the receiving side was justified when sent, and still is. */
  ghost predicate GoodReply(p: Packet, sent: map<nat, seq<byte>>, c: Conn) {
    !IsRequest(p.command) ==>
      && !p.command.InitResponseFailure?
      && p.sessionId in sent && IsReceiving(c, p.sessionId)
      && (p.command.ResponseAllReceived? ==> Delivered(c, p.sessionId, MessageOf(sent, p.sessionId)))
      && (p.command.ResponseResend? ==>
            4 * p.packetId <= |p.data| &&
            forall k :: 0 <= k < p.packetId ==>
              ResendList(p)[k] < ReceiverCount(|MessageOf(sent, p.sessionId)|))
  }

  ghost predicate GoodSender(ss: SendState, x: nat, sent: map<nat, seq<byte>>, c: Conn) {
    && x in sent && ss.id == x && ss.data == sent[x] && SendValid(ss)
    && !ss.status.InitFailure? && !ss.status.DataFailure?
    && (ss.status.DataSuccess? ==> Delivered(c, x, MessageOf(sent, x)))
  }

  ghost predicate GoodInbox(r: Peer) {
    var all := r.taken + r.conn.inbox;
    && (forall i, j :: 0 <= i < j < |all| ==> all[i] != all[j])
    && (forall x :: x in all <==> IsReceiving(r.conn, x) && r.conn.sessions[x].recv.dispatched)
  }

  /** Everything there is to keep about messages from s to r; fwd carries packets from s to r. */
  ghost predicate Half(s: Peer, r: Peer, fwd: set<Packet>, back: set<Packet>) {
    && (forall p :: p in fwd ==> GoodRequest(p, s.sent))
    && (forall p :: p in back ==> GoodReply(p, s.sent, r.conn))
    && (forall x :: IsReceiving(r.conn, x) ==>
          x in s.sent && GoodReceiver(r.conn.sessions[x].recv, MessageOf(s.sent, x)))
    && (forall x :: IsSending(s.conn, x) ==> GoodSender(s.conn.sessions[x].send, x, s.sent, r.conn))
    && (forall x :: x in s.pcs ==> IsSending(s.conn, x) && x in s.sent)
    && (forall x :: x in s.pcs && s.pcs[x] == Finished(true) ==> Delivered(r.conn, x, MessageOf(s.sent, x)))
    && (forall x :: x in s.results ==> x in s.sent)
    && (forall x :: x in s.results && s.results[x] ==> Delivered(r.conn, x, MessageOf(s.sent, x)))
    && GoodInbox(r)
  }

  ghost predicate Inv(s: Sys) {
    SysValid(s) && Half(s.me, s.other, s.out, s.inc) && Half(s.other, s.me, s.inc, s.out)
  }
}
