/** What the protocol promises in every run. */
module StipTheorems {
  import opened StipPackets
  import opened StipSessions
  import opened StipRouting
  import opened StipSystem
  import opened StipInvariant

  /** The same state seen from either side. */
  ghost function View(s: Sys, mine: bool): Sys {
    if mine then s else Flip(s)
  }

  ghost function TakenAndWaiting(r: Peer): seq<nat> {
    r.taken + r.conn.inbox
  }

  /** What getData of the receive session x returns. */
  ghost function GetData(r: Peer, x: nat): seq<byte>
    requires IsReceiving(r.conn, x)
  {
    r.conn.sessions[x].recv.data
  }

  lemma ViewKeepsInv(s: Sys, mine: bool)
    requires Inv(s)
    ensures Inv(View(s, mine))
  {
  }

  // ----- delivery

  lemma ResultMeansDelivered(v: Sys, x: nat)
    requires Inv(v) && x in v.me.results && v.me.results[x]
    ensures x in v.me.sent && Delivered(v.other.conn, x, MessageOf(v.me.sent, x))
    ensures GetData(v.other, x) == MessageOf(v.me.sent, x)
    ensures v.other.conn.sessions[x].recv.size == |MessageOf(v.me.sent, x)|
    ensures v.other.conn.sessions[x].recv.status == 5
    ensures |MessageOf(v.me.sent, x)| > 0 ==> x in TakenAndWaiting(v.other)
  {
    assert Half(v.me, v.other, v.out, v.inc);
    CompleteIsMessage(v.other.conn.sessions[x].recv, MessageOf(v.me.sent, x));
    assert GoodInbox(v.other);
  }

  lemma ReachIsWhole(msg: seq<byte>)
    ensures msg[..U32(|msg|)] == msg <==> |msg| < U32_LIMIT
  {
    if |msg| < U32_LIMIT {
      assert msg[..U32(|msg|)] == msg;
    }
  }

  /** If sendMessage returned true for a message whose 32-bit size is not zero, the peer has that
      very session among the messages received, with the bytes the size reaches. */
  lemma EndToEnd(ts: seq<Step>, mine: bool, x: nat)
    requires Runs(ts)
    requires var s := View(State(ts), mine).me; x in s.results && s.results[x]
    requires var s := View(State(ts), mine).me; x in s.sent ==> U32(|s.sent[x]|) > 0
    ensures var s, r := View(State(ts), mine).me, View(State(ts), mine).other;
            && x in s.sent && IsReceiving(r.conn, x)
            && x in TakenAndWaiting(r)
            && GetData(r, x) == MessageOf(s.sent, x)
            && r.conn.sessions[x].recv.size == |MessageOf(s.sent, x)| && r.conn.sessions[x].recv.status == 5
            && (GetData(r, x) == s.sent[x] <==> |s.sent[x]| < U32_LIMIT)
  {
    Invariant(ts);
    ViewKeepsInv(State(ts), mine);
    var v := View(State(ts), mine);
    ResultMeansDelivered(v, x);
    ReachIsWhole(v.me.sent[x]);
  }

  lemma InboxIsSent(v: Sys, k: nat)
    requires Inv(v) && k < |TakenAndWaiting(v.other)|
    ensures var x := TakenAndWaiting(v.other)[k];
            && x in v.me.sent && IsReceiving(v.other.conn, x)
            && GetData(v.other, x) == MessageOf(v.me.sent, x)
            && forall j :: 0 <= j < |TakenAndWaiting(v.other)| && j != k ==> TakenAndWaiting(v.other)[j] != x
  {
    assert Half(v.me, v.other, v.out, v.inc);
    assert GoodInbox(v.other);
    var x := TakenAndWaiting(v.other)[k];
    assert x in TakenAndWaiting(v.other);
    CompleteIsMessage(v.other.conn.sessions[x].recv, MessageOf(v.me.sent, x));
  }

  /** Nothing is received that was not sent: every session handed out or waiting is one the peer
      opened, complete and true to its message, and it is there once. */
  lemma ReceivedIsSent(ts: seq<Step>, mine: bool, k: nat)
    requires Runs(ts)
    requires k < |TakenAndWaiting(View(State(ts), mine).other)|
    ensures var s, r := View(State(ts), mine).me, View(State(ts), mine).other;
            var x := TakenAndWaiting(r)[k];
            && x in s.sent && IsReceiving(r.conn, x) && GetData(r, x) == MessageOf(s.sent, x)
            && forall j :: 0 <= j < |TakenAndWaiting(r)| && j != k ==> TakenAndWaiting(r)[j] != x
  {
    Invariant(ts);
    ViewKeepsInv(State(ts), mine);
    InboxIsSent(View(State(ts), mine), k);
  }

  // ----- a delivered session is frozen

  lemma PacketKeepsDispatched(c: Conn, p: Packet, block: seq<byte>, sent: map<nat, seq<byte>>, x: nat)
    requires ConnValid(c) && !ConnFaults(c, p) && BlockFits(c, p, block)
    requires GoodRequest(p, sent) && IsReceiving(c, x) && c.sessions[x].recv.dispatched
    requires x in sent && GoodReceiver(c.sessions[x].recv, MessageOf(sent, x))
    ensures var c' := ConnStep(c, p, block).0;
            x in c'.sessions && c'.sessions[x] == c.sessions[x] && c.inbox <= c'.inbox
  {
    if p.sessionId == x {
      var rs, m := c.sessions[x].recv, MessageOf(sent, x);
      if p.command.SendDataPart? {
        PartKeepsReceiver(rs, m, p);
      } else if p.command.RequestAllReceived? {
        QueryKeepsReceiver(rs, m, p);
      }
    }
  }

  /** The record of received sessions only grows, and the session x on it is left as it is. */
  ghost predicate Frozen(r: Peer, r': Peer, x: nat) {
    && IsReceiving(r.conn, x) && x in r'.conn.sessions && r'.conn.sessions[x] == r.conn.sessions[x]
    && TakenAndWaiting(r) <= TakenAndWaiting(r')
  }

  lemma ActKeepsDispatched(s: Sys, a: Act, x: nat)
    requires Inv(s) && CanAct(s, a)
    requires x in TakenAndWaiting(s.me)
    ensures Frozen(s.me, Apply(s, a).me, x)
  {
    assert Half(s.other, s.me, s.inc, s.out) && Half(s.me, s.other, s.out, s.inc);
    assert GoodInbox(s.me);
    var s' := Apply(s, a);
    match a
    case Deliver(p, block) =>
      assert GoodRequest(p, s.other.sent);
      if !ConnFaults(s.me.conn, p) {
        PacketKeepsDispatched(s.me.conn, p, block, s.other.sent, x);
      }
    case Take =>
      assert TakenAndWaiting(s'.me) == TakenAndWaiting(s.me);
    case Open(id, msg) =>
    case Progress(id, timeout) =>
    case Close(id) =>
      assert IsSending(s.me.conn, id);
  }

  lemma StepKeepsDispatched(s: Sys, t: Step, mine: bool, x: nat)
    requires Inv(s) && CanStep(s, t)
    requires x in TakenAndWaiting(View(s, mine).me)
    ensures Frozen(View(s, mine).me, View(After(s, t), mine).me, x)
  {
    ViewKeepsInv(s, mine);
    if t.mine == mine {
      ActKeepsDispatched(View(s, mine), t.act, x);
    } else {
      assert View(After(s, t), mine).me == View(s, mine).me;
      assert GoodInbox(View(s, mine).me);
    }
  }

  lemma FrozenTwice(r: Peer, r': Peer, r'': Peer, x: nat)
    requires Frozen(r, r', x) && Frozen(r', r'', x)
    ensures Frozen(r, r'', x)
  {
  }

  /** Once a session has been pushed on the queue, no later step of the run changes its size, its
      buffer or its marks, takes it off the record, or moves it. */
  lemma {:induction false} DeliveredIsFrozen(ts: seq<Step>, n: nat, mine: bool, x: nat)
    requires Runs(ts) && n <= |ts| && Runs(ts[..n])
    requires x in TakenAndWaiting(View(State(ts[..n]), mine).me)
    ensures Frozen(View(State(ts[..n]), mine).me, View(State(ts), mine).me, x)
    decreases |ts|
  {
    if n == |ts| {
      assert ts[..n] == ts;
      Invariant(ts);
      ViewKeepsInv(State(ts), mine);
      assert GoodInbox(View(State(ts), mine).me);
    } else {
      var before := ts[..|ts| - 1];
      assert before[..n] == ts[..n];
      DeliveredIsFrozen(before, n, mine, x);
      Invariant(before);
      var r, r' := View(State(ts[..n]), mine).me, View(State(before), mine).me;
      var k :| 0 <= k < |TakenAndWaiting(r)| && TakenAndWaiting(r)[k] == x;
      assert TakenAndWaiting(r')[k] == x;
      StepKeepsDispatched(State(before), ts[|ts| - 1], mine, x);
      FrozenTwice(r, r', View(State(ts), mine).me, x);
    }
  }

  // ----- bounds

  /** The largest message whose RESEND list always fits one packet. */
  const RESEND_LIMIT: nat := 16363 * 65455

  lemma AnswerNeverFaults(c: Conn, p: Packet, sent: map<nat, seq<byte>>, rc: Conn)
    requires ConnValid(c) && GoodReply(p, sent, rc) && IsSending(c, p.sessionId)
    requires GoodSender(c.sessions[p.sessionId].send, p.sessionId, sent, rc)
    ensures !SendFaults(c.sessions[p.sessionId].send, p)
  {
    var ss := c.sessions[p.sessionId].send;
    if p.command.ResponseResend? {
      assert Message(ss) == MessageOf(sent, p.sessionId);
      CountsDiffer(ss.size);
    }
  }

  lemma RequestFaultsOnlyWhenLarge(rs: RecvState, p: Packet, m: seq<byte>)
    requires GoodReceiver(rs, m) && |m| < U32_LIMIT && RecvFaults(rs, p)
    requires p.command.SendDataPart? ==> p.packetId < SenderCount(|m|) && p.data == Part(m, p.packetId)
    requires p.command.InitRequest? ==> |p.data| >= 8
    ensures |m| > RESEND_LIMIT
  {
    if p.command.SendDataPart? {
      PartKeepsReceiver(rs, m, p);
    } else {
      assert CountFalse(rs.received) <= ReceiverCount(|m|);
    }
  }

  lemma FaultNeedsLargeMessage(s: Sys, p: Packet, block: seq<byte>)
    requires Inv(s) && CanAct(s, Deliver(p, block)) && ConnFaults(s.me.conn, p)
    ensures exists x :: x in s.other.sent && |MessageOf(s.other.sent, x)| > RESEND_LIMIT
  {
    assert Half(s.other, s.me, s.inc, s.out) && Half(s.me, s.other, s.out, s.inc);
    var c, x := s.me.conn, p.sessionId;
    assert GoodRequest(p, s.other.sent) && GoodReply(p, s.me.sent, s.other.conn);
    if IsReceiving(c, x) {
      RequestFaultsOnlyWhenLarge(c.sessions[x].recv, p, MessageOf(s.other.sent, x));
    } else if IsSending(c, x) {
      AnswerNeverFaults(c, p, s.me.sent, s.other.conn);
    }
  }

  ghost predicate AllFit(sent: map<nat, seq<byte>>) {
    forall x :: x in sent ==> |MessageOf(sent, x)| <= RESEND_LIMIT
  }

  lemma ActKeepsFitting(s: Sys, a: Act)
    requires Inv(s) && CanAct(s, a)
    requires AllFit(Apply(s, a).me.sent) && AllFit(Apply(s, a).other.sent)
    ensures AllFit(s.me.sent) && AllFit(s.other.sent) && !Apply(s, a).faulted
  {
    var s' := Apply(s, a);
    forall x | x in s.me.sent ensures |MessageOf(s.me.sent, x)| <= RESEND_LIMIT {
      assert x in s'.me.sent && s'.me.sent[x] == s.me.sent[x];
      assert |MessageOf(s'.me.sent, x)| <= RESEND_LIMIT;
    }
    if a.Deliver? && ConnFaults(s.me.conn, a.p) {
      FaultNeedsLargeMessage(s, a.p, a.block);
    }
  }

  /** While no message exceeds the limit, no step of either side reads or writes outside a buffer:
      every part asked for exists, every copy is in range, every RESEND list fits. */
  lemma {:induction false} NoFault(ts: seq<Step>)
    requires Runs(ts)
    requires AllFit(State(ts).me.sent) && AllFit(State(ts).other.sent)
    ensures !State(ts).faulted
  {
    if ts != [] {
      var before, t := ts[..|ts| - 1], ts[|ts| - 1];
      Invariant(before);
      var s := View(State(before), t.mine);
      ActKeepsFitting(s, t.act);
      NoFault(before);
    }
  }

  // ----- a resend round

  /** A batch of events that are all arrivals of packets genuine for the other side's messages. */
  ghost predicate GenuineArrivals(es: seq<Event>, sent: map<nat, seq<byte>>) {
    forall k :: 0 <= k < |es| ==> es[k].Arrives? && GoodRequest(es[k].p, sent)
  }

  ghost predicate GoodReceivers(c: Conn, sent: map<nat, seq<byte>>) {
    forall x :: IsReceiving(c, x) ==> x in sent && GoodReceiver(c.sessions[x].recv, MessageOf(sent, x))
  }

  /** Part i of session x is marked, or is no part the receiver waits for. */
  ghost predicate Has(c: Conn, x: nat, i: nat) {
    IsReceiving(c, x) && (i < |c.sessions[x].recv.received| ==> c.sessions[x].recv.received[i])
  }

  lemma ArrivalKeepsReceivers(c: Conn, e: Event, sent: map<nat, seq<byte>>)
    requires ConnValid(c) && CanHappen(c, e) && GoodReceivers(c, sent)
    requires e.Arrives? && GoodRequest(e.p, sent)
    ensures GoodReceivers(Happen(c, e).0, sent)
  {
    var c' := Happen(c, e).0;
    forall y | IsReceiving(c', y)
      ensures y in sent && GoodReceiver(c'.sessions[y].recv, MessageOf(sent, y))
    {
      StepKeepsReceivers(c, e.p, e.block, sent, y);
    }
  }

  lemma ArrivalMarks(c: Conn, e: Event, x: nat, i: nat)
    requires ConnValid(c) && CanHappen(c, e) && e.Arrives?
    requires IsReceiving(c, x) && c.sessions[x].recv.status != -1
    ensures IsReceiving(Happen(c, e).0, x)
    ensures Has(c, x, i) ==> Has(Happen(c, e).0, x, i)
    ensures e.p.command.SendDataPart? && e.p.sessionId == x && e.p.packetId == i ==> Has(Happen(c, e).0, x, i)
  {
  }

  lemma {:induction false} ArrivalsMark(c: Conn, es: seq<Event>, sent: map<nat, seq<byte>>, x: nat, i: nat)
    requires ConnValid(c) && AllHappen(c, es) && GoodReceivers(c, sent)
    requires GenuineArrivals(es, sent) && IsReceiving(c, x)
    requires Has(c, x, i) || exists k :: 0 <= k < |es| && es[k].p.command.SendDataPart?
                                         && es[k].p.sessionId == x && es[k].p.packetId == i
    ensures GoodReceivers(HappenAll(c, es).0, sent)
    ensures Has(HappenAll(c, es).0, x, i)
    decreases |es|
  {
    if es != [] {
      ArrivalKeepsReceivers(c, es[0], sent);
      ArrivalMarks(c, es[0], x, i);
      if !Has(Happen(c, es[0]).0, x, i) {
        var k :| 0 <= k < |es| && es[k].p.command.SendDataPart? && es[k].p.sessionId == x && es[k].p.packetId == i;
        assert es[1..][k - 1] == es[k];
      }
      ArrivalsMark(Happen(c, es[0]).0, es[1..], sent, x, i);
    }
  }

  /** Sufficiency of one resend round. The receiver asks for its missing parts; the sender answers
      that RESEND packet; if each packet it resends is among those that then arrive, in whatever
      order, repeated, and mixed with any other genuine traffic, the receiver holds the whole
      message and answers the next question with ALL_RECEIVED. */
  lemma ResendRoundSuffices(c: Conn, sent: map<nat, seq<byte>>, x: nat, ss: SendState, es: seq<Event>)
    requires ConnValid(c) && GoodReceivers(c, sent) && IsReceiving(c, x)
    requires ss.id == x && SendValid(ss) && Message(ss) == MessageOf(sent, x)
    requires !SendFaults(ss, ResendPacket(c.sessions[x].recv))
    requires AllHappen(c, es) && GenuineArrivals(es, sent)
    requires forall q :: q in SendStep(ss, ResendPacket(c.sessions[x].recv)).1 ==>
               exists k :: 0 <= k < |es| && es[k].p == q
    ensures var c' := HappenAll(c, es).0;
            && Whole(c', x, MessageOf(sent, x))
            && c'.sessions[x].recv.data == MessageOf(sent, x)
            && !ConnFaults(c', QueryPacket(ss))
            && ConnStep(c', QueryPacket(ss), []).1 == [ReplyPacket(ResponseAllReceived, x)]
            && Delivered(ConnStep(c', QueryPacket(ss), []).0, x, MessageOf(sent, x))
  {
    var rs, m := c.sessions[x].recv, MessageOf(sent, x);
    var c' := HappenAll(c, es).0;
    ArrivalsMark(c, es, sent, x, rs.packetCounts);
    var rs' := c'.sessions[x].recv;
    forall i | 0 <= i < |rs'.received| ensures rs'.received[i] {
      ResentPartArrives(c, sent, x, ss, es, i);
    }
    CompleteIsMessage(rs', m);
    CountFalseZero(rs'.received);
  }

  lemma ResentPartArrives(c: Conn, sent: map<nat, seq<byte>>, x: nat, ss: SendState, es: seq<Event>, i: nat)
    requires ConnValid(c) && GoodReceivers(c, sent) && IsReceiving(c, x)
    requires ss.id == x && SendValid(ss) && Message(ss) == MessageOf(sent, x)
    requires !SendFaults(ss, ResendPacket(c.sessions[x].recv))
    requires AllHappen(c, es) && GenuineArrivals(es, sent)
    requires forall q :: q in SendStep(ss, ResendPacket(c.sessions[x].recv)).1 ==>
               exists k :: 0 <= k < |es| && es[k].p == q
    requires i < c.sessions[x].recv.packetCounts
    ensures Has(HappenAll(c, es).0, x, i)
  {
    var rs := c.sessions[x].recv;
    CountsDiffer(|MessageOf(sent, x)|);
    if !rs.received[i] {
      MissingIsResent(rs, ss, i);
      var k :| 0 <= k < |es| && es[k].p == PartPacket(ss, i);
    }
    ArrivalsMark(c, es, sent, x, i);
  }

  lemma MissingIsResent(rs: RecvState, ss: SendState, i: nat)
    requires RecvValid(rs) && rs.packetCounts <= U32_LIMIT && SendValid(ss)
    requires !SendFaults(ss, ResendPacket(rs))
    requires i < rs.packetCounts && !rs.received[i]
    ensures i < ss.packetCounts && PartPacket(ss, i) in SendStep(ss, ResendPacket(rs)).1
  {
    var list := Missing(rs.received, rs.packetCounts);
    ResendPacketRoundTrip(rs);
    MissingIsExact(rs.received, rs.packetCounts);
    assert i in list;
    var j :| 0 <= j < |list| && list[j] == i;
    assert PartPackets(ss, list)[j] == PartPacket(ss, i);
  }

  /** The same round from the receiver's side is exact: it asks for every missing part once, in
      increasing order, and for nothing else, and the sender can serve all of it. */
  lemma ResendRoundIsExact(rs: RecvState, m: seq<byte>, ss: SendState)
    requires GoodReceiver(rs, m) && SendValid(ss) && Message(ss) == m && |m| < U32_LIMIT
    ensures var p := ResendPacket(rs);
            && |p.data| == 4 * p.packetId && p.packetId == CountFalse(rs.received)
            && (forall i, j :: 0 <= i < j < p.packetId ==> ResendList(p)[i] < ResendList(p)[j])
            && (forall i: nat :: i in ResendList(p) <==> i < rs.packetCounts && !rs.received[i])
            && !SendFaults(ss, p)
  {
    CountsDiffer(|m|);
    ResendPacketRoundTrip(rs);
    MissingIsExact(rs.received, rs.packetCounts);
    assert rs.received[..rs.packetCounts] == rs.received;
    var list := Missing(rs.received, rs.packetCounts);
    forall k | 0 <= k < |list| ensures list[k] < ss.packetCounts { assert list[k] in list; }
  }

  // ----- later RESEND lists

  /** rs' is rs after some more packets: no mark has been taken back. */
  ghost predicate Grown(rs: RecvState, rs': RecvState) {
    && RecvValid(rs) && RecvValid(rs') && rs'.packetCounts == rs.packetCounts && rs'.status != -1
    && forall i :: 0 <= i < |rs.received| && rs.received[i] ==> rs'.received[i]
  }

  lemma PacketGrows(rs: RecvState, p: Packet, block: seq<byte>)
    requires RecvValid(rs) && rs.status != -1 && !RecvFaults(rs, p)
    ensures Grown(rs, RecvStep(rs, p, block).0)
  {
  }

  lemma EventGrows(c: Conn, e: Event, x: nat)
    requires ConnValid(c) && CanHappen(c, e) && IsReceiving(c, x) && c.sessions[x].recv.status != -1
    ensures IsReceiving(Happen(c, e).0, x) && Grown(c.sessions[x].recv, Happen(c, e).0.sessions[x].recv)
  {
    if EventId(e) != x {
      OtherIdUndisturbed(c, e, x);
    } else if !e.p.command.InitRequest? {
      PacketGrows(c.sessions[x].recv, e.p, e.block);
    }
  }

  lemma {:induction false} EventsGrow(c: Conn, es: seq<Event>, x: nat)
    requires ConnValid(c) && AllHappen(c, es) && IsReceiving(c, x) && c.sessions[x].recv.status != -1
    ensures IsReceiving(HappenAll(c, es).0, x) && Grown(c.sessions[x].recv, HappenAll(c, es).0.sessions[x].recv)
    decreases |es|
  {
    if es != [] {
      EventGrows(c, es[0], x);
      EventsGrow(Happen(c, es[0]).0, es[1..], x);
    }
  }

  /** Whatever happens between two questions, the second RESEND list is shorter exactly when a part
      was newly received in between, and never longer: the progress the approval loop needs. */
  lemma LaterListIsShorter(c: Conn, es: seq<Event>, x: nat)
    requires ConnValid(c) && AllHappen(c, es) && IsReceiving(c, x) && c.sessions[x].recv.status != -1
    ensures var c' := HappenAll(c, es).0;
            && IsReceiving(c', x)
            && var rs, rs' := c.sessions[x].recv, c'.sessions[x].recv;
               && RecvValid(rs) && RecvValid(rs') && |rs'.received| == |rs.received|
               && ResendPacket(rs').packetId <= ResendPacket(rs).packetId
               && (ResendPacket(rs').packetId < ResendPacket(rs).packetId <==>
                     exists i :: 0 <= i < |rs.received| && !rs.received[i] && rs'.received[i])
  {
    EventsGrow(c, es, x);
    CountFalseShrinks(c.sessions[x].recv.received, HappenAll(c, es).0.sessions[x].recv.received);
  }
}
