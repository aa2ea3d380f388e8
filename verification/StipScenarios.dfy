/** Runs that show where the protocol's promises end: the empty message, the message whose RESEND
    list does not fit a packet, and the confirmation that comes too early. */
module StipScenarios {
  import opened StipPackets
  import opened StipSessions
  import opened StipRouting
  import opened StipSystem
  import opened StipInvariant
  import opened StipTheorems

  // ----- reaching a state, step by step

  ghost predicate Reachable(s: Sys) {
    exists ts :: Runs(ts) && State(ts) == s
  }

  /** The start is in the set, and no step leads out of it. The runs below are built inside any such
      set; the reachable states are one. */
  ghost predicate Closed(reach: iset<Sys>) {
    && START in reach
    && forall s, t {:trigger After(s, t)} :: s in reach && SysValid(s) && CanStep(s, t) ==> After(s, t) in reach
  }

  ghost function ReachableStates(): iset<Sys> {
    iset s: Sys | Reachable(s)
  }

  lemma StepReachable(s: Sys, t: Step)
    requires Reachable(s) && SysValid(s) && CanStep(s, t)
    ensures Reachable(After(s, t))
  {
    var ts :| Runs(ts) && State(ts) == s;
    var ts' := ts + [t];
    assert ts'[..|ts'| - 1] == ts;
    assert Runs(ts') && State(ts') == After(s, t);
  }

  lemma ReachableIsClosed()
    ensures Closed(ReachableStates())
  {
    assert Runs([]) && State([]) == START;
    forall s, t | s in ReachableStates() && SysValid(s) && CanStep(s, t) ensures After(s, t) in ReachableStates() {
      StepReachable(s, t);
    }
  }

  // ----- a peer that sends one message, and one that receives it

  /** A session of the peer that holds the marked parts; malloc happened to return the bytes of m. */
  ghost function ReceiverWith(m: seq<byte>, marks: seq<bool>): RecvState {
    RecvState(0, 1, |m|, ReceiverCount(|m|), marks, m, false)
  }

  /** Of n parts, the first j are missing. */
  ghost function Lacking(n: nat, j: nat): seq<bool> {
    seq(n, i => i >= j)
  }

  lemma {:induction false} LackingCount(n: nat, j: nat)
    ensures CountFalse(Lacking(n, j)) == if j <= n then j else n
  {
    if n > 0 {
      LackingCount(n - 1, j);
      assert Lacking(n, j)[..n - 1] == Lacking(n - 1, j);
    }
  }

  /** The session the peer holds after INIT and before any part. */
  ghost function FreshReceiver(m: seq<byte>): RecvState {
    ReceiverWith(m, Lacking(ReceiverCount(|m|), ReceiverCount(|m|)))
  }

  ghost function SenderPeer(msg: seq<byte>, pc: Pc, status: SendStatus): Peer {
    Peer(Conn(map[0 := Sending(NewSend(0, msg).(status := status))], []), map[0 := pc], map[0 := msg], map[], [])
  }

  ghost function ReceiverPeer(rs: RecvState): Peer {
    Peer(Conn(map[0 := Receiving(rs)], []), map[], map[], map[], [])
  }

  /** The thread that sends msg in session 0 stands at pc. */
  ghost predicate Sits(s: Sys, msg: seq<byte>, pc: Pc, status: SendStatus) {
    SysValid(s) && !s.faulted && s.me == SenderPeer(msg, pc, status)
  }

  /** And the peer has INIT and no part. */
  ghost predicate Underway(s: Sys, msg: seq<byte>, pc: Pc, status: SendStatus) {
    Sits(s, msg, pc, status) && s.other == ReceiverPeer(FreshReceiver(Message(NewSend(0, msg))))
  }

  ghost predicate OnlyOpened(s: Sys, msg: seq<byte>, pc: Pc, status: SendStatus) {
    Sits(s, msg, pc, status) && s.other == NEW_PEER && s.inc == {}
  }

  lemma Opened(reach: iset<Sys>, msg: seq<byte>) returns (s: Sys)
    requires Closed(reach)
    ensures s in reach && OnlyOpened(s, msg, InitMark(0), InitRequestSent) && InitPacket(NewSend(0, msg)) in s.out
  {
    var begun := After(START, Step(true, Open(0, msg)));
    assert OnlyOpened(begun, msg, InitAsk(0), Init);
    s := ThreadSteps(reach, begun, msg, InitAsk(0), Init, false);
    assert InitPacket(NewSend(0, msg)) == Advance(NewSend(0, msg), InitAsk(0), false).2[0];
  }

  lemma InitIsProcessed(ss: SendState, block: seq<byte>)
    requires SendValid(ss) && ss.id == 0 && block == Message(ss)
    ensures var p, c := InitPacket(ss), Conn(map[], []);
            && !ConnFaults(c, p) && BlockFits(c, p, block)
            && ConnStep(c, p, block) == (Conn(map[0 := Receiving(FreshReceiver(block))], []),
                                         [ReplyPacket(InitResponseSuccess, 0)])
  {
    var p := InitPacket(ss);
    assert p.data[..8] == p.data;
    Pow256Values();
    ValueOfLittleEndian(ss.size, 8);
    InitMakesReceiver(0, p, block, block);
    var n := ReceiverCount(|block|);
    assert seq(n, _ => false) == Lacking(n, n);
  }

  lemma InitArrives(s: Sys, msg: seq<byte>) returns (t: Step)
    requires OnlyOpened(s, msg, InitMark(0), InitRequestSent) && InitPacket(NewSend(0, msg)) in s.out
    ensures CanStep(s, t) && Underway(After(s, t), msg, InitMark(0), InitRequestSent)
    ensures After(s, t).inc == {ReplyPacket(InitResponseSuccess, 0)}
  {
    var ss := NewSend(0, msg);
    InitIsProcessed(ss, Message(ss));
    t := Step(false, Deliver(InitPacket(ss), Message(ss)));
  }

  lemma Starts(reach: iset<Sys>, msg: seq<byte>) returns (s: Sys)
    requires Closed(reach)
    ensures s in reach && Underway(s, msg, InitMark(0), InitRequestSent)
    ensures s.inc == {ReplyPacket(InitResponseSuccess, 0)}
  {
    var begun := Opened(reach, msg);
    var t := InitArrives(begun, msg);
    s := After(begun, t);
  }

  /** What the sending thread's next step leaves. */
  lemma ThreadMoves(s: Sys, msg: seq<byte>, pc: Pc, status: SendStatus, timeout: bool)
    requires Sits(s, msg, pc, status) && CanAdvance(NewSend(0, msg).(status := status), pc, timeout)
    ensures CanStep(s, Step(true, Act.Progress(0, timeout)))
    ensures var s' := After(s, Step(true, Act.Progress(0, timeout)));
            var (ss, pc', packets) := Advance(NewSend(0, msg).(status := status), pc, timeout);
            && Sits(s', msg, pc', ss.status) && s'.other == s.other
            && s'.out == s.out + ToSet(packets) && s'.inc == s.inc
  {
    var s' := After(s, Step(true, Act.Progress(0, timeout)));
    var (ss, pc', packets) := Advance(NewSend(0, msg).(status := status), pc, timeout);
    assert s'.me.conn.sessions == map[0 := Sending(ss)];
    assert s'.me.pcs == map[0 := pc'];
  }

  lemma ThreadSteps(reach: iset<Sys>, s: Sys, msg: seq<byte>, pc: Pc, status: SendStatus, timeout: bool)
    returns (s': Sys)
    requires Closed(reach) && s in reach && Sits(s, msg, pc, status)
    requires CanAdvance(NewSend(0, msg).(status := status), pc, timeout)
    ensures s' in reach && s'.other == s.other && s'.inc == s.inc && s.out <= s'.out
    ensures var (ss, pc', packets) := Advance(NewSend(0, msg).(status := status), pc, timeout);
            Sits(s', msg, pc', ss.status) && s'.out == s.out + ToSet(packets)
  {
    ThreadMoves(s, msg, pc, status, timeout);
    s' := After(s, Step(true, Act.Progress(0, timeout)));
  }

  /** The session hears an answer that sends nothing. */
  lemma SessionHears(s: Sys, msg: seq<byte>, pc: Pc, status: SendStatus, p: Packet)
    requires Sits(s, msg, pc, status) && p in s.inc && p.sessionId == 0
    requires p.command.InitResponseSuccess? || p.command.ResponseAllReceived?
    ensures CanStep(s, Step(true, Deliver(p, [])))
    ensures var s' := After(s, Step(true, Deliver(p, [])));
            && Sits(s', msg, pc, if p.command.InitResponseSuccess? then InitSuccess else DataSuccess)
            && s'.other == s.other && s'.inc == s.inc && s'.out == s.out
  {
    var status' := if p.command.InitResponseSuccess? then InitSuccess else DataSuccess;
    var s' := After(s, Step(true, Deliver(p, [])));
    assert s'.me.conn.sessions == map[0 := Sending(NewSend(0, msg).(status := status'))];
  }

  lemma Hears(reach: iset<Sys>, s: Sys, msg: seq<byte>, pc: Pc, status: SendStatus) returns (s': Sys)
    requires Closed(reach) && s in reach && Sits(s, msg, pc, status) && ReplyPacket(InitResponseSuccess, 0) in s.inc
    ensures s' in reach && Sits(s', msg, pc, InitSuccess)
    ensures s'.other == s.other && s'.inc == s.inc && s'.out == s.out
  {
    SessionHears(s, msg, pc, status, ReplyPacket(InitResponseSuccess, 0));
    s' := After(s, Step(true, Deliver(ReplyPacket(InitResponseSuccess, 0), [])));
  }

  /** Every part from part k on is on the network. */
  ghost predicate PartsSent(s: Sys, msg: seq<byte>, k: nat) {
    var ss := NewSend(0, msg);
    forall i :: k <= i < ss.packetCounts ==> PartPacket(ss, i) in s.out
  }

  /** All parts are sent, and none arrives yet. */
  lemma {:induction false} PartsAreSent(reach: iset<Sys>, s: Sys, msg: seq<byte>, k: nat) returns (s': Sys)
    requires Closed(reach) && s in reach && Sits(s, msg, DataPart(k), DataRequestSent)
    ensures s' in reach && Sits(s', msg, Ask(0), DataRequestSent) && PartsSent(s', msg, k)
    ensures s'.other == s.other && s'.inc == s.inc && s.out <= s'.out
    decreases NewSend(0, msg).packetCounts - k
  {
    var ss := NewSend(0, msg).(status := DataRequestSent);
    s' := ThreadSteps(reach, s, msg, DataPart(k), DataRequestSent, false);
    if k < ss.packetCounts {
      assert Advance(ss, DataPart(k), false).2[0] == PartPacket(NewSend(0, msg), k);
      s' := PartsAreSent(reach, s', msg, k + 1);
    }
  }

  /** The thread waits for its first answer, every part and the question are on the network, and
      nothing but the confirmation has come back. */
  ghost predicate FirstWait(s: Sys, msg: seq<byte>) {
    && Underway(s, msg, Wait(0), DataRequestSent) && PartsSent(s, msg, 0)
    && QueryPacket(NewSend(0, msg)) in s.out && s.inc == {ReplyPacket(InitResponseSuccess, 0)}
  }

  lemma Confirmed(reach: iset<Sys>, msg: seq<byte>) returns (s: Sys)
    requires Closed(reach)
    ensures s in reach && Underway(s, msg, DataStart, InitSuccess) && s.inc == {ReplyPacket(InitResponseSuccess, 0)}
  {
    s := Starts(reach, msg);
    s := ThreadSteps(reach, s, msg, InitMark(0), InitRequestSent, false);
    s := Hears(reach, s, msg, InitWait(0), Init);
    s := ThreadSteps(reach, s, msg, InitWait(0), InitSuccess, false);
  }

  lemma Asked(reach: iset<Sys>, msg: seq<byte>) returns (s: Sys)
    requires Closed(reach)
    ensures s in reach && FirstWait(s, msg)
  {
    s := Confirmed(reach, msg);
    s := ThreadSteps(reach, s, msg, DataStart, InitSuccess, false);
    s := PartsAreSent(reach, s, msg, 0);
    s := ThreadSteps(reach, s, msg, Ask(0), DataRequestSent, false);
    assert QueryPacket(NewSend(0, msg)) == Advance(NewSend(0, msg).(status := DataRequestSent), Ask(0), false).2[0];
  }

  // ----- the confirmation that comes too early

  /** One try whose wait expires. */
  lemma Expires(reach: iset<Sys>, s: Sys, msg: seq<byte>, i: nat, status: SendStatus) returns (s': Sys)
    requires Closed(reach) && s in reach && Sits(s, msg, InitMark(i), status)
    ensures s' in reach && Sits(s', msg, InitAsk(i + 1), Init) && s'.other == s.other
  {
    s' := ThreadSteps(reach, s, msg, InitMark(i), status, false);
    s' := ThreadSteps(reach, s', msg, InitWait(i), Init, true);
  }

  /** The peer confirms, and the confirmation arrives, but before the status is reset. */
  lemma ConfirmationMissed(reach: iset<Sys>, msg: seq<byte>) returns (s: Sys)
    requires Closed(reach)
    ensures s in reach && Underway(s, msg, Finished(false), Init)
  {
    s := Starts(reach, msg);
    s := Hears(reach, s, msg, InitMark(0), InitRequestSent);
    s := Expires(reach, s, msg, 0, InitSuccess);
    s := ThreadSteps(reach, s, msg, InitAsk(1), Init, false);
    s := Expires(reach, s, msg, 1, InitRequestSent);
    s := ThreadSteps(reach, s, msg, InitAsk(2), Init, false);
    s := Expires(reach, s, msg, 2, InitRequestSent);
    s := ThreadSteps(reach, s, msg, InitAsk(3), Init, false);
  }

  /** sendMessage returns. */
  lemma Returns(s: Sys, msg: seq<byte>, result: bool, status: SendStatus)
    requires Sits(s, msg, Finished(result), status)
    ensures CanStep(s, Step(true, Close(0)))
    ensures var s' := After(s, Step(true, Close(0)));
            && !s'.faulted && s'.me.sent == map[0 := msg] && s'.me.results == map[0 := result]
            && s'.other == s.other
  {
  }

  /** For every message there is a run in which the peer confirms, the confirmation arrives, and
      sendMessage still gives up, while the peer keeps the session. */
  lemma EarlyConfirmationLost(msg: seq<byte>) returns (s: Sys)
    ensures Reachable(s) && !s.faulted && s.me.sent == map[0 := msg] && s.me.results == map[0 := false]
    ensures IsReceiving(s.other.conn, 0)
  {
    ReachableIsClosed();
    s := ConfirmationMissed(ReachableStates(), msg);
    Returns(s, msg, false, Init);
    StepReachable(s, Step(true, Close(0)));
    s := After(s, Step(true, Close(0)));
  }

  // ----- the RESEND list that does not fit

  lemma LargeQueryFaults(ss: SendState)
    requires SendValid(ss) && ss.id == 0 && ss.size > RESEND_LIMIT
    ensures var c := Conn(map[0 := Receiving(FreshReceiver(Message(ss)))], []);
            ConnValid(c) && ConnFaults(c, QueryPacket(ss))
  {
    LackingCount(ReceiverCount(ss.size), ReceiverCount(ss.size));
  }

  lemma LargeMessageFaults(msg: seq<byte>) returns (s: Sys)
    requires U32(|msg|) > RESEND_LIMIT
    ensures Reachable(s) && s.faulted && s.me.sent == map[0 := msg] && s.other.sent == map[]
  {
    ReachableIsClosed();
    s := Asked(ReachableStates(), msg);
    LargeQueryFaults(NewSend(0, msg));
    var t := Step(false, Deliver(QueryPacket(NewSend(0, msg)), []));
    StepReachable(s, t);
    s := After(s, t);
  }

  /** The message given to any session of either side is msg. */
  ghost predicate OnlySent(s: Sys, msg: seq<byte>) {
    && (forall x :: x in s.me.sent ==> s.me.sent[x] == msg)
    && (forall x :: x in s.other.sent ==> s.other.sent[x] == msg)
  }

  /** A message can drive a peer outside a buffer exactly when its size, as the protocol sees it,
      exceeds RESEND_LIMIT. */
  lemma FaultsExactlyWhenLarge(msg: seq<byte>)
    ensures (exists s :: Reachable(s) && OnlySent(s, msg) && s.faulted) <==> U32(|msg|) > RESEND_LIMIT
  {
    if U32(|msg|) > RESEND_LIMIT {
      var s := LargeMessageFaults(msg);
      assert OnlySent(s, msg);
    } else {
      forall s | Reachable(s) && OnlySent(s, msg) ensures !s.faulted {
        var ts :| Runs(ts) && State(ts) == s;
        NoFault(ts);
      }
    }
  }

  // ----- acknowledged messages, seen and unseen

  /** The peer's session has no part missing, and the question arrives. */
  lemma CompleteAnswers(s: Sys, msg: seq<byte>, pc: Pc, status: SendStatus)
    requires Sits(s, msg, pc, status) && QueryPacket(NewSend(0, msg)) in s.out && IsReceiving(s.other.conn, 0)
    requires CountFalse(s.other.conn.sessions[0].recv.received) == 0
    ensures CanStep(s, Step(false, Deliver(QueryPacket(NewSend(0, msg)), [])))
    ensures var s' := After(s, Step(false, Deliver(QueryPacket(NewSend(0, msg)), [])));
            && Sits(s', msg, pc, status) && ReplyPacket(ResponseAllReceived, 0) in s'.inc
            && TakenAndWaiting(s'.other) == TakenAndWaiting(s.other)
  {
    var rs := s.other.conn.sessions[0].recv;
    EmptyAnswer(rs, QueryPacket(NewSend(0, msg)));
    assert RecvStep(rs, QueryPacket(NewSend(0, msg)), []).1[0] == ReplyPacket(ResponseAllReceived, 0);
  }

  lemma EmptyAnswer(rs: RecvState, p: Packet)
    requires RecvValid(rs) && rs.id == 0 && CountFalse(rs.received) == 0 && p == ReplyPacket(RequestAllReceived, 0)
    ensures !RecvFaults(rs, p) && RecvStep(rs, p, []).1 == [ReplyPacket(ResponseAllReceived, 0)]
  {
  }

  lemma Acknowledges(reach: iset<Sys>, s: Sys, msg: seq<byte>) returns (s': Sys)
    requires Closed(reach) && s in reach && Sits(s, msg, Wait(0), DataRequestSent)
    requires QueryPacket(NewSend(0, msg)) in s.out && IsReceiving(s.other.conn, 0)
    requires CountFalse(s.other.conn.sessions[0].recv.received) == 0
    ensures s' in reach && Sits(s', msg, Finished(true), DataSuccess)
    ensures TakenAndWaiting(s'.other) == TakenAndWaiting(s.other)
  {
    CompleteAnswers(s, msg, Wait(0), DataRequestSent);
    var told := After(s, Step(false, Deliver(QueryPacket(NewSend(0, msg)), [])));
    SessionHears(told, msg, Wait(0), DataRequestSent, ReplyPacket(ResponseAllReceived, 0));
    var heard := After(told, Step(true, Deliver(ReplyPacket(ResponseAllReceived, 0), [])));
    s' := ThreadSteps(reach, heard, msg, Wait(0), DataSuccess, false);
  }

  lemma EmptyMessageLost(msg: seq<byte>) returns (s: Sys)
    requires U32(|msg|) == 0
    ensures Reachable(s) && SysValid(s)
    ensures s.me.sent == map[0 := msg] && s.me.results == map[0 := true] && TakenAndWaiting(s.other) == []
  {
    ReachableIsClosed();
    s := Asked(ReachableStates(), msg);
    LackingCount(0, 0);
    s := Acknowledges(ReachableStates(), s, msg);
    Returns(s, msg, true, DataSuccess);
    StepReachable(s, Step(true, Close(0)));
    s := After(s, Step(true, Close(0)));
  }

  /** sendMessage of msg has returned true in session x, and the peer was not handed it. */
  ghost predicate AcknowledgedUnseen(s: Sys, mine: bool, x: nat, msg: seq<byte>) {
    var sender, receiver := View(s, mine).me, View(s, mine).other;
    && x in sender.sent && sender.sent[x] == msg
    && x in sender.results && sender.results[x]
    && x !in TakenAndWaiting(receiver)
  }

  /** An acknowledged message can go unseen exactly when its 32-bit size is zero. */
  lemma UnseenExactlyWhenEmpty(msg: seq<byte>)
    ensures (exists s, mine, x :: Reachable(s) && AcknowledgedUnseen(s, mine, x, msg)) <==> U32(|msg|) == 0
  {
    if U32(|msg|) == 0 {
      var s := EmptyMessageLost(msg);
      assert AcknowledgedUnseen(s, true, 0, msg);
    } else {
      forall s, mine, x | Reachable(s) ensures !AcknowledgedUnseen(s, mine, x, msg) {
        if AcknowledgedUnseen(s, mine, x, msg) {
          var ts :| Runs(ts) && State(ts) == s;
          EndToEnd(ts, mine, x);
        }
      }
    }
  }

  // ----- parts arrive, the last one first

  /** The peer once every part has arrived. */
  ghost function DonePeer(msg: seq<byte>): Peer {
    var m := Message(NewSend(0, msg));
    var n := ReceiverCount(|m|);
    Peer(Conn(map[0 := Receiving(RecvState(0, 5, |m|, n, Lacking(n, 0), m, true))], [0]), map[], map[], map[], [])
  }

  ghost function PeerLacking(msg: seq<byte>, j: nat): Peer {
    var m := Message(NewSend(0, msg));
    if j == 0 then DonePeer(msg) else ReceiverPeer(ReceiverWith(m, Lacking(ReceiverCount(|m|), j)))
  }

  /** The session of such a peer takes the part before the first it has. */
  lemma PartIsWritten(m: seq<byte>, j: nat, p: Packet)
    requires |m| < U32_LIMIT && 1 <= j <= ReceiverCount(|m|)
    requires j - 1 < SenderCount(|m|) && p == Packet(SendDataPart, 0, j - 1, Part(m, j - 1))
    ensures var n := ReceiverCount(|m|);
            var rs := ReceiverWith(m, Lacking(n, j));
            && !RecvFaults(rs, p)
            && RecvStep(rs, p, [])
               == (ReceiverWith(m, Lacking(n, j - 1)).(status := if j == 1 then 5 else 1), [])
  {
    var n := ReceiverCount(|m|);
    PartInside(|m|, j - 1);
    WholeWritten(m, Offset(j - 1), Part(m, j - 1));
    assert Lacking(n, j)[j - 1 := true] == Lacking(n, j - 1);
    LackingCount(n, j - 1);
  }

  /** Bytes written where they already are. */
  lemma WholeWritten(m: seq<byte>, at: nat, payload: seq<byte>)
    requires at + |payload| <= |m| && payload == m[at..at + |payload|]
    ensures m[..at] + payload + m[at + |payload|..] == m
  {
  }

  /** And its connection dispatches it when that was the last. */
  lemma PartIsTaken(msg: seq<byte>, j: nat)
    requires 1 <= j <= ReceiverCount(U32(|msg|))
    ensures j - 1 < NewSend(0, msg).packetCounts
    ensures var c, p := PeerLacking(msg, j).conn, PartPacket(NewSend(0, msg), j - 1);
            ConnValid(c) && !ConnFaults(c, p) && ConnStep(c, p, []) == (PeerLacking(msg, j - 1).conn, [])
  {
    var m := Message(NewSend(0, msg));
    CountsDiffer(|m|);
    PartIsWritten(m, j, PartPacket(NewSend(0, msg), j - 1));
    var rs := ReceiverWith(m, Lacking(ReceiverCount(|m|), j));
    PartSettles(rs, ReceiverWith(m, Lacking(ReceiverCount(|m|), j - 1)).(status := if j == 1 then 5 else 1));
  }

  lemma PartSettles(rs: RecvState, rs': RecvState)
    ensures Settle(Conn(map[0 := Receiving(rs)], []), 0, rs')
         == if rs'.status == 5 && !rs'.dispatched then Conn(map[0 := Receiving(rs'.(dispatched := true))], [0])
            else Conn(map[0 := Receiving(rs')], [])
  {
    assert map[0 := Receiving(rs)][0 := Receiving(rs')] == map[0 := Receiving(rs')];
  }

  lemma PartArrives(s: Sys, msg: seq<byte>, j: nat, pc: Pc, status: SendStatus) returns (t: Step)
    requires Sits(s, msg, pc, status) && s.other == PeerLacking(msg, j) && PartsSent(s, msg, 0)
    requires 1 <= j <= ReceiverCount(U32(|msg|))
    ensures !t.mine && CanStep(s, t) && Sits(After(s, t), msg, pc, status)
    ensures After(s, t).other == PeerLacking(msg, j - 1) && After(s, t).out == s.out && After(s, t).inc == s.inc
  {
    PartIsTaken(msg, j);
    t := Step(false, Deliver(PartPacket(NewSend(0, msg), j - 1), []));
    assert s.inc + ToSet([]) == s.inc;
  }

  lemma {:induction false} PartsArrive(reach: iset<Sys>, s: Sys, msg: seq<byte>, j: nat, pc: Pc, status: SendStatus)
    returns (s': Sys)
    requires Closed(reach) && s in reach && Sits(s, msg, pc, status) && PartsSent(s, msg, 0)
    requires s.other == PeerLacking(msg, j) && j <= ReceiverCount(U32(|msg|))
    ensures s' in reach && Sits(s', msg, pc, status) && s'.other == DonePeer(msg)
    ensures s'.out == s.out && s'.inc == s.inc
    decreases j
  {
    s' := s;
    if j > 0 {
      var t := PartArrives(s, msg, j, pc, status);
      s' := PartsArrive(reach, After(s, t), msg, j - 1, pc, status);
    }
  }

  /** Every message that is not empty can be acknowledged, and has then been dispatched. */
  lemma NonEmptyDelivered(msg: seq<byte>) returns (s: Sys)
    requires U32(|msg|) > 0
    ensures Reachable(s) && s.me.sent == map[0 := msg] && s.me.results == map[0 := true]
    ensures TakenAndWaiting(s.other) == [0]
  {
    ReachableIsClosed();
    var reach, n := ReachableStates(), ReceiverCount(U32(|msg|));
    s := Asked(reach, msg);
    CountsDiffer(U32(|msg|));
    s := PartsArrive(reach, s, msg, n, Wait(0), DataRequestSent);
    LackingCount(n, 0);
    s := Acknowledges(reach, s, msg);
    Returns(s, msg, true, DataSuccess);
    StepReachable(s, Step(true, Close(0)));
    s := After(s, Step(true, Close(0)));
  }
}
