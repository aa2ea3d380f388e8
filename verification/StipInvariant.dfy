/** Every step of either peer keeps the invariant. */
module StipInvariant {
  import opened StipPackets
  import opened StipSessions
  import opened StipRouting
  import opened StipSystem

  // ----- the receiver's session

  /** A genuine part, whether new, repeated, or the sender's extra empty one, keeps the buffer true
      to the message, and stays inside it. */
  lemma PartKeepsReceiver(rs: RecvState, m: seq<byte>, p: Packet)
    requires GoodReceiver(rs, m) && |m| < U32_LIMIT
    requires p.command.SendDataPart? && p.packetId < SenderCount(|m|) && p.data == Part(m, p.packetId)
    ensures !RecvFaults(rs, p)
    ensures var rs' := RecvStep(rs, p, []).0;
            GoodReceiver(if rs'.status == 5 then rs'.(dispatched := true) else rs', m)
    ensures AllMarked(rs) ==> RecvStep(rs, p, []).0 == rs
  {
    var i := p.packetId;
    CountsDiffer(|m|);
    if i < rs.packetCounts && !rs.received[i] {
      PartInside(|m|, i);
      NewPartKeepsSlices(rs, m, i);
      CountFalseZero(rs.received[i := true]);
    } else if AllMarked(rs) && rs.packetCounts > 0 {
      assert rs.dispatched;
    }
  }

  lemma NewPartKeepsSlices(rs: RecvState, m: seq<byte>, i: nat)
    requires GoodReceiver(rs, m) && i < rs.packetCounts && i < SenderCount(|m|) && |m| < U32_LIMIT
    ensures Offset(i) + |Part(m, i)| <= |rs.data|
    ensures forall j :: 0 <= j < |rs.received| && rs.received[i := true][j] ==>
              j < SenderCount(|m|) && Part(WritePart(rs.data, i, Part(m, i)), j) == Part(m, j)
  {
    CountsDiffer(|m|);
    PartInside(|m|, i);
    forall j | 0 <= j < |rs.received| && rs.received[i := true][j]
      ensures j < SenderCount(|m|) && Part(WritePart(rs.data, i, Part(m, i)), j) == Part(m, j)
    {
      WritePartSlices(rs.data, i, Part(m, i), j);
    }
  }

  lemma QueryKeepsReceiver(rs: RecvState, m: seq<byte>, p: Packet)
    requires GoodReceiver(rs, m)
    requires p.command.RequestAllReceived? && !RecvFaults(rs, p)
    ensures var rs' := RecvStep(rs, p, []).0;
            GoodReceiver(rs', m) && rs' == rs.(status := rs'.status)
    ensures AllMarked(rs) <==> CountFalse(rs.received) == 0
  {
    CountFalseZero(rs.received);
  }

  /** The constructor sizes the vector by the announced count, INIT then resizes it. */
  lemma InitMakesReceiver(id: nat, p: Packet, block: seq<byte>, m: seq<byte>)
    requires p.command.InitRequest? && p.sessionId == id && |p.data| >= 8
    requires AnnouncedSize(p) == |m| == |block| && p.packetId == SenderCount(|m|)
    ensures var rs := RecvStep(NewRecv(id, p.packetId, block), p, block).0;
            && GoodReceiver(rs, m) && rs.received == seq(ReceiverCount(|m|), _ => false)
  {
    CountsDiffer(|m|);
    var rs := RecvStep(NewRecv(id, p.packetId, block), p, block).0;
    assert rs.received == seq(ReceiverCount(|m|), _ => false);
    if |m| > 0 {
      assert !rs.received[0];
    }
  }

  /** A complete buffer is the message. */
  lemma CompleteIsMessage(rs: RecvState, m: seq<byte>)
    requires GoodReceiver(rs, m) && AllMarked(rs)
    ensures rs.size == |m| && rs.data == m
  {
    CountsDiffer(|m|);
    PartsTile(rs.data, m);
  }

  // ----- how one packet changes a connection's receive sessions

  /** A packet that fits the messages of the other side changes no receive session but the one it
      names, and leaves that one good. */
  lemma StepKeepsReceivers(c: Conn, p: Packet, block: seq<byte>, sent: map<nat, seq<byte>>, x: nat)
    requires ConnValid(c) && !ConnFaults(c, p) && BlockFits(c, p, block)
    requires GoodRequest(p, sent)
    requires IsReceiving(c, x) ==> x in sent && GoodReceiver(c.sessions[x].recv, MessageOf(sent, x))
    ensures var c' := ConnStep(c, p, block).0;
            && (IsReceiving(c, x) ==> IsReceiving(c', x))
            && (IsReceiving(c', x) ==> x in sent && GoodReceiver(c'.sessions[x].recv, MessageOf(sent, x)))
  {
    if p.sessionId == x {
      if Creates(c, p) {
        InitMakesReceiver(x, p, block, MessageOf(sent, x));
      } else if IsReceiving(c, x) {
        var rs, m := c.sessions[x].recv, MessageOf(sent, x);
        if p.command.SendDataPart? {
          PartKeepsReceiver(rs, m, p);
        } else if p.command.RequestAllReceived? {
          QueryKeepsReceiver(rs, m, p);
        }
      }
    }
  }

  lemma StepKeepsDelivered(c: Conn, p: Packet, block: seq<byte>, sent: map<nat, seq<byte>>, x: nat)
    requires ConnValid(c) && !ConnFaults(c, p) && BlockFits(c, p, block)
    requires GoodRequest(p, sent) && x in sent && Delivered(c, x, MessageOf(sent, x))
    ensures Delivered(ConnStep(c, p, block).0, x, MessageOf(sent, x))
  {
    if p.sessionId == x {
      var rs, m := c.sessions[x].recv, MessageOf(sent, x);
      if p.command.SendDataPart? {
        PartKeepsReceiver(rs, m, p);
      } else if p.command.RequestAllReceived? {
        QueryKeepsReceiver(rs, m, p);
      }
    }
  }

  /** What the step sends, if the packet was a request, is a justified reply. */
  lemma StepGivesGoodReplies(c: Conn, p: Packet, block: seq<byte>, sent: map<nat, seq<byte>>, q: Packet)
    requires ConnValid(c) && !ConnFaults(c, p) && BlockFits(c, p, block)
    requires GoodRequest(p, sent)
    requires forall x :: IsReceiving(c, x) ==> x in sent && GoodReceiver(c.sessions[x].recv, MessageOf(sent, x))
    requires q in ConnStep(c, p, block).1
    ensures GoodReply(q, sent, ConnStep(c, p, block).0)
  {
    var x := p.sessionId;
    if IsReceiving(c, x) && p.command.RequestAllReceived? {
      var rs, m := c.sessions[x].recv, MessageOf(sent, x);
      QueryKeepsReceiver(rs, m, p);
      CountsDiffer(|m|);
      if CountFalse(rs.received) > 0 {
        ResendPacketRoundTrip(rs);
        MissingIsExact(rs.received, rs.packetCounts);
        var list := Missing(rs.received, rs.packetCounts);
        forall k | 0 <= k < |list| ensures list[k] < ReceiverCount(|m|) { assert list[k] in list; }
      }
    }
  }

  lemma StepKeepsInbox(r: Peer, p: Packet, block: seq<byte>, sent: map<nat, seq<byte>>)
    requires ConnValid(r.conn) && !ConnFaults(r.conn, p) && BlockFits(r.conn, p, block)
    requires GoodRequest(p, sent) && GoodInbox(r)
    requires forall x :: IsReceiving(r.conn, x) ==>
               x in sent && GoodReceiver(r.conn.sessions[x].recv, MessageOf(sent, x))
    ensures GoodInbox(r.(conn := ConnStep(r.conn, p, block).0))
  {
    var c, x := r.conn, p.sessionId;
    var c' := ConnStep(c, p, block).0;
    forall y | y != x ensures IsReceiving(c, y) == IsReceiving(c', y) && (IsReceiving(c, y) ==> c'.sessions[y] == c.sessions[y]) {
    }
    if c'.inbox == c.inbox {
      SameInbox(r, c', x);
    } else {
      NewInInbox(r, c', x);
    }
  }

  ghost predicate DiffersOnlyAt(c: Conn, c': Conn, x: nat) {
    forall y :: y != x ==> IsReceiving(c, y) == IsReceiving(c', y) && (IsReceiving(c, y) ==> c'.sessions[y] == c.sessions[y])
  }

  lemma SameInbox(r: Peer, c': Conn, x: nat)
    requires GoodInbox(r) && DiffersOnlyAt(r.conn, c', x) && c'.inbox == r.conn.inbox
    requires (IsReceiving(r.conn, x) && r.conn.sessions[x].recv.dispatched)
         <==> (IsReceiving(c', x) && c'.sessions[x].recv.dispatched)
    ensures GoodInbox(r.(conn := c'))
  {
    var all := r.taken + r.conn.inbox;
    forall y ensures y in all <==> IsReceiving(c', y) && c'.sessions[y].recv.dispatched {
    }
  }

  lemma NewInInbox(r: Peer, c': Conn, x: nat)
    requires GoodInbox(r) && DiffersOnlyAt(r.conn, c', x) && c'.inbox == r.conn.inbox + [x]
    requires IsReceiving(r.conn, x) && !r.conn.sessions[x].recv.dispatched
    requires IsReceiving(c', x) && c'.sessions[x].recv.dispatched
    ensures GoodInbox(r.(conn := c'))
  {
    var all, all' := r.taken + r.conn.inbox, r.taken + c'.inbox;
    assert all' == all + [x];
    assert x !in all;
    forall y ensures y in all' <==> IsReceiving(c', y) && c'.sessions[y].recv.dispatched {
      assert y in all' <==> y in all || y == x;
    }
  }

  // ----- both halves, act by act

  /** Nothing a sender relies on is lost at the receiving connection. */
  ghost predicate Keeps(c: Conn, c': Conn, sent: map<nat, seq<byte>>) {
    && (forall x :: IsReceiving(c, x) ==> IsReceiving(c', x))
    && (forall x :: x in sent && Delivered(c, x, MessageOf(sent, x)) ==> Delivered(c', x, MessageOf(sent, x)))
  }

  lemma DeliverToReceiver(s: Peer, r: Peer, fwd: set<Packet>, back: set<Packet>, p: Packet, block: seq<byte>)
    requires ConnValid(r.conn) && !ConnFaults(r.conn, p) && BlockFits(r.conn, p, block)
    requires Half(s, r, fwd, back) && p in fwd
    ensures var (c', replies) := ConnStep(r.conn, p, block);
            Half(s, r.(conn := c'), fwd, back + ToSet(replies))
  {
    var (c', replies) := ConnStep(r.conn, p, block);
    assert GoodRequest(p, s.sent);
    forall x | IsReceiving(r.conn, x) ensures IsReceiving(c', x) {
      StepKeepsReceivers(r.conn, p, block, s.sent, x);
    }
    forall x | IsReceiving(c', x)
      ensures x in s.sent && GoodReceiver(c'.sessions[x].recv, MessageOf(s.sent, x))
    {
      StepKeepsReceivers(r.conn, p, block, s.sent, x);
    }
    forall x | x in s.sent && Delivered(r.conn, x, MessageOf(s.sent, x))
      ensures Delivered(c', x, MessageOf(s.sent, x))
    {
      StepKeepsDelivered(r.conn, p, block, s.sent, x);
    }
    forall q | q in replies ensures GoodReply(q, s.sent, c') {
      StepGivesGoodReplies(r.conn, p, block, s.sent, q);
    }
    StepKeepsInbox(r, p, block, s.sent);
    HalfKeeps(s, r, fwd, back, c', ToSet(replies));
  }

  lemma HalfKeeps(s: Peer, r: Peer, fwd: set<Packet>, back: set<Packet>, c': Conn, more: set<Packet>)
    requires Half(s, r, fwd, back) && Keeps(r.conn, c', s.sent)
    requires forall x :: IsReceiving(c', x) ==>
               x in s.sent && GoodReceiver(c'.sessions[x].recv, MessageOf(s.sent, x))
    requires forall q :: q in more ==> GoodReply(q, s.sent, c')
    requires GoodInbox(r.(conn := c'))
    ensures Half(s, r.(conn := c'), fwd, back + more)
  {
    forall q | q in back ensures GoodReply(q, s.sent, c') {
      assert GoodReply(q, s.sent, r.conn);
    }
    forall x | IsSending(s.conn, x) ensures GoodSender(s.conn.sessions[x].send, x, s.sent, c') {
      assert GoodSender(s.conn.sessions[x].send, x, s.sent, r.conn);
    }
  }

  /** An answer handed to a send session: what it resends is genuine. */
  lemma AnswerKeepsSender(c: Conn, p: Packet, block: seq<byte>, sent: map<nat, seq<byte>>, rc: Conn, x: nat)
    requires ConnValid(c) && !ConnFaults(c, p) && BlockFits(c, p, block)
    requires GoodReply(p, sent, rc)
    requires IsSending(c, x) ==> GoodSender(c.sessions[x].send, x, sent, rc)
    ensures var c' := ConnStep(c, p, block).0;
            IsSending(c', x) <==> IsSending(c, x)
    ensures var c' := ConnStep(c, p, block).0;
            IsSending(c', x) ==> GoodSender(c'.sessions[x].send, x, sent, rc)
  {
  }

  lemma AnswerSendsGoodRequests(c: Conn, p: Packet, block: seq<byte>, sent: map<nat, seq<byte>>, rc: Conn, q: Packet)
    requires ConnValid(c) && !ConnFaults(c, p) && BlockFits(c, p, block)
    requires GoodReply(p, sent, rc)
    requires forall x :: IsSending(c, x) ==> GoodSender(c.sessions[x].send, x, sent, rc)
    requires q in ConnStep(c, p, block).1
    ensures GoodRequest(q, sent)
  {
    var x := p.sessionId;
    if IsSending(c, x) && p.command.ResponseResend? {
      var ss := c.sessions[x].send;
      assert GoodSender(ss, x, sent, rc);
      var list := ResendList(p);
      var k :| 0 <= k < |list| && q == PartPackets(ss, list)[k];
      assert q == PartPacket(ss, list[k]);
      assert Message(ss) == MessageOf(sent, x);
    }
  }

  lemma DeliverToSender(s: Peer, r: Peer, fwd: set<Packet>, back: set<Packet>, p: Packet, block: seq<byte>)
    requires ConnValid(s.conn) && !ConnFaults(s.conn, p) && BlockFits(s.conn, p, block)
    requires Half(s, r, fwd, back) && p in back
    ensures var (c', packets) := ConnStep(s.conn, p, block);
            Half(s.(conn := c'), r, fwd + ToSet(packets), back)
  {
    var (c', packets) := ConnStep(s.conn, p, block);
    assert GoodReply(p, s.sent, r.conn);
    forall x ensures IsSending(c', x) <==> IsSending(s.conn, x) {
      AnswerKeepsSender(s.conn, p, block, s.sent, r.conn, x);
    }
    forall x | IsSending(c', x) ensures GoodSender(c'.sessions[x].send, x, s.sent, r.conn) {
      AnswerKeepsSender(s.conn, p, block, s.sent, r.conn, x);
    }
    forall q | q in packets ensures GoodRequest(q, s.sent) {
      AnswerSendsGoodRequests(s.conn, p, block, s.sent, r.conn, q);
    }
  }

  /** A step of the sending thread: its packets are genuine, and it finishes with true only on an
      ALL_RECEIVED answer. */
  lemma ThreadStep(ss: SendState, pc: Pc, timeout: bool, x: nat, sent: map<nat, seq<byte>>, rc: Conn)
    requires GoodSender(ss, x, sent, rc) && CanAdvance(ss, pc, timeout)
    ensures var (ss', pc', packets) := Advance(ss, pc, timeout);
            && GoodSender(ss', x, sent, rc)
            && (forall q :: q in packets ==> GoodRequest(q, sent) && IsRequest(q.command))
            && (pc' == Finished(true) ==> Delivered(rc, x, MessageOf(sent, x)))
  {
    assert Message(ss) == MessageOf(sent, x);
    if pc.InitAsk? {
      var data := LittleEndian(ss.size, 8);
      assert data[..8] == data;
      Pow256Values();
      ValueOfLittleEndian(ss.size, 8);
    }
  }

  lemma ProgressKeepsSender(s: Peer, r: Peer, fwd: set<Packet>, back: set<Packet>, x: nat, timeout: bool)
    requires Half(s, r, fwd, back) && ConnValid(s.conn)
    requires x in s.pcs && IsSending(s.conn, x) && CanAdvance(s.conn.sessions[x].send, s.pcs[x], timeout)
    ensures var (ss, pc, packets) := Advance(s.conn.sessions[x].send, s.pcs[x], timeout);
            Half(s.(conn := s.conn.(sessions := s.conn.sessions[x := Sending(ss)]), pcs := s.pcs[x := pc]), r,
                 fwd + ToSet(packets), back)
  {
    ThreadStep(s.conn.sessions[x].send, s.pcs[x], timeout, x, s.sent, r.conn);
  }

  /** Changes to a peer's own send sessions, threads and history do not concern what it receives. */
  lemma SendSideDoesNotConcernReceiving(s: Peer, r: Peer, r': Peer, fwd: set<Packet>, back: set<Packet>,
                                        more: set<Packet>)
    requires Half(s, r, fwd, back)
    requires r'.taken == r.taken && r'.conn.inbox == r.conn.inbox
    requires forall x :: IsReceiving(r.conn, x) <==> IsReceiving(r'.conn, x)
    requires forall x :: IsReceiving(r.conn, x) ==> IsReceiving(r'.conn, x) && r'.conn.sessions[x] == r.conn.sessions[x]
    requires forall q :: q in more ==> IsRequest(q.command)
    ensures Half(s, r', fwd, back + more)
  {
    forall q | q in back ensures GoodReply(q, s.sent, r'.conn) {
      assert GoodReply(q, s.sent, r.conn);
    }
    forall x | IsSending(s.conn, x) ensures GoodSender(s.conn.sessions[x].send, x, s.sent, r'.conn) {
      assert GoodSender(s.conn.sessions[x].send, x, s.sent, r.conn);
    }
  }

  lemma OpenKeepsSender(s: Peer, r: Peer, fwd: set<Packet>, back: set<Packet>, x: nat, msg: seq<byte>)
    requires Half(s, r, fwd, back) && x !in s.conn.sessions && x !in s.sent
    ensures Half(s.(conn := s.conn.(sessions := s.conn.sessions[x := Sending(NewSend(x, msg))]),
                    pcs := s.pcs[x := InitAsk(0)], sent := s.sent[x := msg]), r, fwd, back)
  {
    var sent' := s.sent[x := msg];
    forall q | q in fwd ensures GoodRequest(q, sent') {
      RequestStays(q, s.sent, x, msg);
    }
    forall q | q in back ensures GoodReply(q, sent', r.conn) {
      ReplyStays(q, s.sent, x, msg, r.conn);
    }
    var c' := s.conn.(sessions := s.conn.sessions[x := Sending(NewSend(x, msg))]);
    forall y | IsSending(c', y) ensures GoodSender(c'.sessions[y].send, y, sent', r.conn) {
      if y != x {
        SenderStays(s.conn.sessions[y].send, y, s.sent, x, msg, r.conn);
      }
    }
  }

  lemma RequestStays(q: Packet, sent: map<nat, seq<byte>>, x: nat, msg: seq<byte>)
    requires GoodRequest(q, sent) && x !in sent
    ensures GoodRequest(q, sent[x := msg])
  {
  }

  lemma ReplyStays(q: Packet, sent: map<nat, seq<byte>>, x: nat, msg: seq<byte>, c: Conn)
    requires GoodReply(q, sent, c) && x !in sent
    ensures GoodReply(q, sent[x := msg], c)
  {
  }

  lemma SenderStays(ss: SendState, y: nat, sent: map<nat, seq<byte>>, x: nat, msg: seq<byte>, c: Conn)
    requires GoodSender(ss, y, sent, c) && x !in sent
    ensures GoodSender(ss, y, sent[x := msg], c)
  {
  }

  lemma CloseKeepsSender(s: Peer, r: Peer, fwd: set<Packet>, back: set<Packet>, x: nat)
    requires Half(s, r, fwd, back) && x in s.pcs && s.pcs[x].Finished?
    ensures Half(s.(conn := s.conn.(sessions := s.conn.sessions - {x}), pcs := s.pcs - {x},
                    results := s.results[x := s.pcs[x].result]), r, fwd, back)
  {
  }

  lemma TakeKeepsReceiver(s: Peer, r: Peer, fwd: set<Packet>, back: set<Packet>)
    requires Half(s, r, fwd, back) && r.conn.inbox != []
    ensures Half(s, r.(conn := r.conn.(inbox := r.conn.inbox[1..]), taken := r.taken + [r.conn.inbox[0]]), fwd, back)
  {
    var r' := r.(conn := r.conn.(inbox := r.conn.inbox[1..]), taken := r.taken + [r.conn.inbox[0]]);
    assert r'.taken + r'.conn.inbox == r.taken + r.conn.inbox;
    SessionsOnly(s, r, r', fwd, back);
  }

  lemma SessionsOnly(s: Peer, r: Peer, r': Peer, fwd: set<Packet>, back: set<Packet>)
    requires Half(s, r, fwd, back)
    requires r'.conn.sessions == r.conn.sessions && r'.taken + r'.conn.inbox == r.taken + r.conn.inbox
    ensures Half(s, r', fwd, back)
  {
    forall q | q in back ensures GoodReply(q, s.sent, r'.conn) {
      assert GoodReply(q, s.sent, r.conn);
    }
    forall x | IsSending(s.conn, x) ensures GoodSender(s.conn.sessions[x].send, x, s.sent, r'.conn) {
      assert GoodSender(s.conn.sessions[x].send, x, s.sent, r.conn);
    }
  }

  lemma OpenKeepsInv(s: Sys, id: nat, msg: seq<byte>)
    requires Inv(s) && CanAct(s, Open(id, msg))
    ensures Inv(Apply(s, Open(id, msg)))
  {
    var s' := Apply(s, Open(id, msg));
    OpenKeepsSender(s.me, s.other, s.out, s.inc, id, msg);
    SendSideDoesNotConcernReceiving(s.other, s.me, s'.me, s.inc, s.out, {});
    assert s.out + {} == s.out;
  }

  lemma ProgressKeepsInv(s: Sys, id: nat, timeout: bool)
    requires Inv(s) && CanAct(s, Act.Progress(id, timeout))
    ensures Inv(Apply(s, Act.Progress(id, timeout)))
  {
    var s' := Apply(s, Act.Progress(id, timeout));
    var ss, pc := s.me.conn.sessions[id].send, s.me.pcs[id];
    ProgressKeepsSender(s.me, s.other, s.out, s.inc, id, timeout);
    ThreadStep(ss, pc, timeout, id, s.me.sent, s.other.conn);
    SendSideDoesNotConcernReceiving(s.other, s.me, s'.me, s.inc, s.out, ToSet(Advance(ss, pc, timeout).2));
  }

  lemma CloseKeepsInv(s: Sys, id: nat)
    requires Inv(s) && CanAct(s, Close(id))
    ensures Inv(Apply(s, Close(id)))
  {
    var s' := Apply(s, Close(id));
    CloseKeepsSender(s.me, s.other, s.out, s.inc, id);
    SendSideDoesNotConcernReceiving(s.other, s.me, s'.me, s.inc, s.out, {});
    assert s.out + {} == s.out;
  }

  lemma TakeKeepsInv(s: Sys)
    requires Inv(s) && CanAct(s, Take)
    ensures Inv(Apply(s, Take))
  {
    TakeKeepsReceiver(s.other, s.me, s.inc, s.out);
    SendersUnchanged(s.me, Apply(s, Take).me, s.other, s.out, s.inc);
  }

  lemma ActKeepsInv(s: Sys, a: Act)
    requires Inv(s) && CanAct(s, a)
    ensures Inv(Apply(s, a))
  {
    match a
    case Open(id, msg) => OpenKeepsInv(s, id, msg);
    case Progress(id, timeout) => ProgressKeepsInv(s, id, timeout);
    case Close(id) => CloseKeepsInv(s, id);
    case Deliver(p, block) =>
      if !ConnFaults(s.me.conn, p) {
        DeliverToReceiver(s.other, s.me, s.inc, s.out, p, block);
        DeliverToSender(s.me, s.other, s.out, s.inc, p, block);
      }
    case Take => TakeKeepsInv(s);
  }

  lemma SendersUnchanged(s: Peer, s': Peer, r: Peer, fwd: set<Packet>, back: set<Packet>)
    requires Half(s, r, fwd, back)
    requires s'.conn.sessions == s.conn.sessions && s'.pcs == s.pcs && s'.sent == s.sent && s'.results == s.results
    ensures Half(s', r, fwd, back)
  {
  }

  /** Every reachable state satisfies the invariant. */
  lemma {:induction false} Invariant(ts: seq<Step>)
    requires Runs(ts)
    ensures Inv(State(ts))
  {
    if ts != [] {
      var before, t := ts[..|ts| - 1], ts[|ts| - 1];
      Invariant(before);
      var s := State(before);
      if t.mine {
        ActKeepsInv(s, t.act);
      } else {
        ActKeepsInv(Flip(s), t.act);
      }
    }
  }
}
