/** What a connection does for one receive session over any series of events, genuine or not: when
    it confirms the announcement, which parts it marks and keeps, how it answers a question, and
    when it dispatches a message without parts. */
module StipArrivals {
  import opened StipPackets
  import opened StipSessions
  import opened StipRouting

  ghost predicate Brings(e: Event, x: nat, command: Command) {
    e.Arrives? && e.p.command == command && e.p.sessionId == x
  }

  ghost predicate BringsPart(e: Event, x: nat, i: nat) {
    Brings(e, x, SendDataPart) && e.p.packetId == i
  }

  // ----- the announcement is confirmed once

  ghost function Confirmations(ps: seq<Packet>, x: nat): nat {
    if ps == [] then 0
    else (if ps[0].command.InitResponseSuccess? && ps[0].sessionId == x then 1 else 0) + Confirmations(ps[1..], x)
  }

  lemma {:induction false} ConfirmationsConcat(ps: seq<Packet>, qs: seq<Packet>, x: nat)
    ensures Confirmations(ps + qs, x) == Confirmations(ps, x) + Confirmations(qs, x)
  {
    if ps == [] {
      assert ps + qs == qs;
    } else {
      ConfirmationsConcat(ps[1..], qs, x);
      assert (ps + qs)[1..] == ps[1..] + qs;
    }
  }

  lemma {:induction false} NoConfirmations(ps: seq<Packet>, x: nat)
    requires forall q :: q in ps ==> !(q.command.InitResponseSuccess? && q.sessionId == x)
    ensures Confirmations(ps, x) == 0
  {
    if ps != [] {
      NoConfirmations(ps[1..], x);
    }
  }

  ghost predicate BecomesReceiving(c: Conn, c': Conn, x: nat) {
    IsReceiving(c', x) && !IsReceiving(c, x)
  }

  lemma EventConfirms(c: Conn, e: Event, x: nat)
    requires ConnValid(c) && CanHappen(c, e)
    ensures Confirmations(Happen(c, e).1, x) == if BecomesReceiving(c, Happen(c, e).0, x) then 1 else 0
    ensures IsReceiving(c, x) ==> IsReceiving(Happen(c, e).0, x)
  {
    var (c', out) := Happen(c, e);
    if e.Arrives? && e.p.sessionId == x && Creates(c, e.p) {
      assert out == [ReplyPacket(InitResponseSuccess, x)];
    } else {
      OthersConfirmNone(c, e, x);
      NoConfirmations(out, x);
    }
  }

  lemma OthersConfirmNone(c: Conn, e: Event, x: nat)
    requires ConnValid(c) && CanHappen(c, e) && !(e.Arrives? && e.p.sessionId == x && Creates(c, e.p))
    ensures forall q :: q in Happen(c, e).1 ==> !(q.command.InitResponseSuccess? && q.sessionId == x)
    ensures !BecomesReceiving(c, Happen(c, e).0, x) && (IsReceiving(c, x) ==> IsReceiving(Happen(c, e).0, x))
  {
    RepliesCarryId(c, e);
  }

  /** Whatever happens, INIT of session x is confirmed once if it becomes a receive session, and
      not otherwise: an INIT of a session already held gets no answer, however often it comes. */
  lemma {:induction false} ConfirmedOnce(c: Conn, es: seq<Event>, x: nat)
    requires ConnValid(c) && AllHappen(c, es)
    ensures Confirmations(HappenAll(c, es).1, x) == if BecomesReceiving(c, HappenAll(c, es).0, x) then 1 else 0
    ensures IsReceiving(c, x) ==> IsReceiving(HappenAll(c, es).0, x)
    decreases |es|
  {
    if es != [] {
      var (c1, out1) := Happen(c, es[0]);
      EventConfirms(c, es[0], x);
      ConfirmedOnce(c1, es[1..], x);
      ConfirmationsConcat(out1, HappenAll(c1, es[1..]).1, x);
    }
  }

  /** Unless this side sends under the same id, that is exactly when some INIT of it arrives. */
  lemma {:induction false} ConfirmedExactlyWhenAnnounced(c: Conn, es: seq<Event>, x: nat)
    requires ConnValid(c) && AllHappen(c, es) && !IsSending(c, x)
    requires forall k :: 0 <= k < |es| ==> !(es[k].Local? && es[k].id == x && es[k].entry.Some?)
    ensures IsReceiving(HappenAll(c, es).0, x) <==>
            IsReceiving(c, x) || exists k :: 0 <= k < |es| && Brings(es[k], x, InitRequest)
    decreases |es|
  {
    if es != [] {
      var c1, rest := Happen(c, es[0]).0, es[1..];
      assert !IsSending(c1, x);
      assert IsReceiving(c1, x) <==> IsReceiving(c, x) || Brings(es[0], x, InitRequest);
      ConfirmedExactlyWhenAnnounced(c1, rest, x);
      if k :| 0 <= k < |rest| && Brings(rest[k], x, InitRequest) {
        assert Brings(es[k + 1], x, InitRequest);
      }
      if k :| 0 <= k < |es| && Brings(es[k], x, InitRequest) {
        assert k == 0 || Brings(rest[k - 1], x, InitRequest);
      }
    }
  }

  /** At the session itself a second INIT is confirmed again and changes nothing. */
  lemma InitTwice(rs: RecvState, p: Packet, block: seq<byte>, p': Packet, block': seq<byte>)
    requires RecvValid(rs) && p.command.InitRequest? && p.sessionId == rs.id && !RecvFaults(rs, p)
    requires rs.status == -1 ==> |block| == AnnouncedSize(p)
    requires p'.command.InitRequest? && p'.sessionId == rs.id
    ensures var rs' := RecvStep(rs, p, block).0;
            && rs'.status != -1 && !RecvFaults(rs', p')
            && RecvStep(rs', p', block') == (rs', [ReplyPacket(InitResponseSuccess, rs.id)])
  {
  }

  /** INIT takes no mark back, whatever count was announced before it. */
  lemma InitKeepsMarks(rs: RecvState, p: Packet, block: seq<byte>, i: nat)
    requires RecvValid(rs) && p.command.InitRequest? && !RecvFaults(rs, p)
    requires p.sessionId == rs.id && rs.status == -1 ==> |block| == AnnouncedSize(p)
    requires i < RecvStep(rs, p, block).0.packetCounts
    ensures RecvStep(rs, p, block).0.received[i] <==> i < |rs.received| && rs.received[i]
  {
  }

  /** A session answers under its own id, and only what names it. A data part it takes whatever id
      it names: it is the connection that keeps sessions apart. */
  lemma AnswersOnlyItsOwn(rs: RecvState, p: Packet, block: seq<byte>)
    requires RecvValid(rs) && !RecvFaults(rs, p)
    requires p.command.InitRequest? && p.sessionId == rs.id && rs.status == -1 ==> |block| == AnnouncedSize(p)
    ensures forall q :: q in RecvStep(rs, p, block).1 ==> q.sessionId == rs.id
    ensures p.sessionId != rs.id ==>
              && RecvStep(rs, p, block).1 == []
              && (!p.command.SendDataPart? ==> RecvStep(rs, p, block).0 == rs)
              && (p.command.SendDataPart? ==>
                    && !RecvFaults(rs, p.(sessionId := rs.id))
                    && RecvStep(rs, p, block) == RecvStep(rs, p.(sessionId := rs.id), block))
  {
  }

  // ----- which parts are marked, and what of them is kept

  /** A session of a connection, from its INIT on. */
  ghost predicate Held(c: Conn, x: nat) {
    IsReceiving(c, x) && c.sessions[x].recv.status != -1
  }

  lemma EventMarks(c: Conn, e: Event, x: nat, i: nat)
    requires ConnValid(c) && CanHappen(c, e) && Held(c, x) && i < c.sessions[x].recv.packetCounts
    ensures Held(Happen(c, e).0, x) && Happen(c, e).0.sessions[x].recv.packetCounts == c.sessions[x].recv.packetCounts
    ensures Happen(c, e).0.sessions[x].recv.received[i] <==>
            c.sessions[x].recv.received[i] || BringsPart(e, x, i)
  {
    if EventId(e) != x {
      OtherIdUndisturbed(c, e, x);
    } else if !e.p.command.InitRequest? {
      PacketMarks(c.sessions[x].recv, e.p, e.block, i);
      StepStores(c, e.p, e.block);
    }
  }

  lemma PacketMarks(rs: RecvState, p: Packet, block: seq<byte>, i: nat)
    requires RecvValid(rs) && rs.status != -1 && !RecvFaults(rs, p) && i < rs.packetCounts
    ensures var rs' := RecvStep(rs, p, block).0;
            && rs'.status != -1 && rs'.packetCounts == rs.packetCounts
            && (rs'.received[i] <==> rs.received[i] || (p.command.SendDataPart? && p.packetId == i))
  {
  }

  /** A packet for a receive session leaves what the session makes of it, dispatched or not. */
  lemma StepStores(c: Conn, p: Packet, block: seq<byte>)
    requires ConnValid(c) && IsReceiving(c, p.sessionId) && !p.command.InitRequest? && !ConnFaults(c, p)
    ensures var c', rs := ConnStep(c, p, block).0, RecvStep(c.sessions[p.sessionId].recv, p, block).0;
            IsReceiving(c', p.sessionId)
            && c'.sessions[p.sessionId].recv == rs.(dispatched := c'.sessions[p.sessionId].recv.dispatched)
  {
  }

  /** Whatever happens, a part of a held session is marked afterwards exactly when it was before or
      has arrived. */
  lemma {:induction false} MarkedExactly(c: Conn, es: seq<Event>, x: nat, i: nat)
    requires ConnValid(c) && AllHappen(c, es) && Held(c, x) && i < c.sessions[x].recv.packetCounts
    ensures var c' := HappenAll(c, es).0;
            && Held(c', x) && c'.sessions[x].recv.packetCounts == c.sessions[x].recv.packetCounts
            && (c'.sessions[x].recv.received[i] <==>
                  c.sessions[x].recv.received[i] || exists k :: 0 <= k < |es| && BringsPart(es[k], x, i))
    decreases |es|
  {
    if es != [] {
      var c1, rest := Happen(c, es[0]).0, es[1..];
      EventMarks(c, es[0], x, i);
      MarkedExactly(c1, rest, x, i);
      if k :| 0 <= k < |rest| && BringsPart(rest[k], x, i) {
        assert BringsPart(es[k + 1], x, i);
      }
      if k :| 0 <= k < |es| && BringsPart(es[k], x, i) {
        assert k == 0 || BringsPart(rest[k - 1], x, i);
      }
    }
  }

  /** The first copy of a part is the one kept: another, whatever it holds, leaves the buffer. */
  lemma FirstCopyStays(rs: RecvState, p: Packet, q: Packet)
    requires RecvValid(rs) && p.command.SendDataPart? && q.command.SendDataPart? && p.packetId == q.packetId
    requires !RecvFaults(rs, p)
    ensures var rs' := RecvStep(rs, p, []).0;
            && !RecvFaults(rs', q) && RecvStep(rs', q, []).0.data == rs'.data
            && (p.packetId < rs.packetCounts && !rs.received[p.packetId] ==>
                  rs'.data[Offset(p.packetId)..Offset(p.packetId) + |p.data|] == p.data)
  {
  }

  // ----- questions

  /** A question of a held session gets one answer: ALL_RECEIVED when every part is marked, else the
      list of exactly those that are not. */
  lemma QuestionAnswered(c: Conn, p: Packet)
    requires ConnValid(c) && p.command.RequestAllReceived? && IsReceiving(c, p.sessionId)
    requires !ConnFaults(c, p) && c.sessions[p.sessionId].recv.packetCounts <= U32_LIMIT
    ensures var rs, answers := c.sessions[p.sessionId].recv, ConnStep(c, p, []).1;
            && |answers| == 1 && answers[0].sessionId == p.sessionId
            && (answers[0].command.ResponseAllReceived? <==> forall i :: 0 <= i < |rs.received| ==> rs.received[i])
            && (!answers[0].command.ResponseAllReceived? ==>
                  && answers[0].command.ResponseResend? && 4 * answers[0].packetId <= |answers[0].data|
                  && forall i: nat :: i in ResendList(answers[0]) <==> i < |rs.received| && !rs.received[i])
  {
    var rs := c.sessions[p.sessionId].recv;
    CountFalseZero(rs.received);
    ResendPacketRoundTrip(rs);
    MissingIsExact(rs.received, rs.packetCounts);
  }

  // ----- a message without parts

  /** Session x waits for no part. */
  ghost predicate Partless(c: Conn, x: nat) {
    Held(c, x) && c.sessions[x].recv.packetCounts == 0
  }

  ghost predicate Dispatched(c: Conn, x: nat)
    requires IsReceiving(c, x)
  {
    c.sessions[x].recv.dispatched
  }

  /** That is what the announcement of an empty message makes, and of no other. */
  lemma EmptyIsPartless(c: Conn, p: Packet, block: seq<byte>)
    requires ConnValid(c) && Creates(c, p) && !ConnFaults(c, p) && BlockFits(c, p, block)
    ensures var c' := ConnStep(c, p, block).0;
            && Held(c', p.sessionId) && !Dispatched(c', p.sessionId) && c'.sessions[p.sessionId].recv.status == 1
            && (Partless(c', p.sessionId) <==> AnnouncedSize(p) == 0)
  {
    CountsDiffer(AnnouncedSize(p));
  }

  /** Some data part of x arrives. */
  ghost predicate PartComes(es: seq<Event>, x: nat) {
    exists k :: 0 <= k < |es| && Brings(es[k], x, SendDataPart)
  }

  /** Some data part of x arrives after some question of it. */
  ghost predicate PartAfterQuestion(es: seq<Event>, x: nat) {
    exists k :: 0 <= k < |es| && Brings(es[k], x, RequestAllReceived) && PartComes(es[k + 1..], x)
  }

  /** One event of a session without parts: a question sets its status, and a data part, though it
      is no part of the message, hands it out if the status is set. */
  lemma PartlessStep(c: Conn, e: Event, x: nat)
    requires ConnValid(c) && CanHappen(c, e) && Partless(c, x)
    ensures var c' := Happen(c, e).0;
            && Partless(c', x)
            && (c'.sessions[x].recv.status == 5 <==>
                  c.sessions[x].recv.status == 5 || Brings(e, x, RequestAllReceived))
            && (Dispatched(c', x) <==>
                  Dispatched(c, x) || (c.sessions[x].recv.status == 5 && Brings(e, x, SendDataPart)))
            && Pushes(c'.inbox, x) == Pushes(c.inbox, x) + if Dispatched(c', x) && !Dispatched(c, x) then 1 else 0
  {
    if EventId(e) != x {
      OtherIdUndisturbed(c, e, x);
    }
  }

  lemma PartComesFirst(es: seq<Event>, x: nat)
    requires es != []
    ensures PartComes(es, x) <==> Brings(es[0], x, SendDataPart) || PartComes(es[1..], x)
  {
    var rest := es[1..];
    if k :| 0 <= k < |rest| && Brings(rest[k], x, SendDataPart) {
      assert Brings(es[k + 1], x, SendDataPart);
    }
    if k :| 0 <= k < |es| && Brings(es[k], x, SendDataPart) {
      assert k == 0 || Brings(rest[k - 1], x, SendDataPart);
    }
  }

  lemma PartAfterQuestionFirst(es: seq<Event>, x: nat)
    requires es != []
    ensures PartAfterQuestion(es, x) <==>
            (Brings(es[0], x, RequestAllReceived) && PartComes(es[1..], x)) || PartAfterQuestion(es[1..], x)
  {
    var rest := es[1..];
    if k :| 0 <= k < |rest| && Brings(rest[k], x, RequestAllReceived) && PartComes(rest[k + 1..], x) {
      assert rest[k + 1..] == es[k + 2..];
      assert Brings(es[k + 1], x, RequestAllReceived);
    }
    if k :| 0 <= k < |es| && Brings(es[k], x, RequestAllReceived) && PartComes(es[k + 1..], x) {
      if k > 0 {
        assert rest[k..] == es[k + 1..];
        assert Brings(rest[k - 1], x, RequestAllReceived);
      }
    }
  }

  /** A message without parts is handed out exactly when a data part of it arrives after a question
      of it, or after a question has already set its status; and it is pushed once. */
  lemma {:induction false} EmptyDispatchedExactly(c: Conn, es: seq<Event>, x: nat)
    requires ConnValid(c) && AllHappen(c, es) && Partless(c, x) && !Dispatched(c, x)
    ensures var c' := HappenAll(c, es).0;
            && Partless(c', x)
            && (Dispatched(c', x) <==>
                  PartAfterQuestion(es, x) || (c.sessions[x].recv.status == 5 && PartComes(es, x)))
            && Pushes(c'.inbox, x) == Pushes(c.inbox, x) + if Dispatched(c', x) then 1 else 0
    decreases |es|
  {
    if es != [] {
      var c1 := Happen(c, es[0]).0;
      PartlessStep(c, es[0], x);
      PartComesFirst(es, x);
      PartAfterQuestionFirst(es, x);
      if Dispatched(c1, x) {
        HandedOutOnce(c1, es[1..], x);
      } else {
        EmptyDispatchedExactly(c1, es[1..], x);
      }
    }
  }

  lemma {:induction false} HandedOutOnce(c: Conn, es: seq<Event>, x: nat)
    requires ConnValid(c) && AllHappen(c, es) && Partless(c, x) && Dispatched(c, x)
    ensures var c' := HappenAll(c, es).0;
            Partless(c', x) && Dispatched(c', x) && Pushes(c'.inbox, x) == Pushes(c.inbox, x)
    decreases |es|
  {
    if es != [] {
      PartlessStep(c, es[0], x);
      HandedOutOnce(Happen(c, es[0]).0, es[1..], x);
    }
  }
}
