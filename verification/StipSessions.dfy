/** What the two message sessions do with each packet and each step of the sending thread, as
    functions of their fields. The classes in StipClasses are proved against these functions.

    A `...Faults` predicate says that a step would read or write outside a buffer. */
module StipSessions {
  import opened StipPackets

  // ----- sender

  datatype SendStatus =
    | Init
    | InitRequestSent
    | InitSuccess
    | InitFailure
    | DataRequestSent
    | DataResend
    | DataSuccess
    | DataFailure

  /** `data` is the caller's buffer. */
  datatype SendState = SendState(id: nat, data: seq<byte>, size: nat, packetCounts: nat, status: SendStatus)

  /** The constructor takes the size as a 32-bit integer. */
  function NewSend(id: nat, data: seq<byte>): SendState {
    var size := U32(|data|);
    SendState(id, data, size, SenderCount(size), Init)
  }

  predicate SendValid(ss: SendState) {
    ss.size == U32(|ss.data|) && ss.packetCounts == SenderCount(ss.size)
  }

  /** The bytes this session sends: the caller's, as far as the 32-bit size reaches. */
  function Message(ss: SendState): (m: seq<byte>)
    requires SendValid(ss)
    ensures |m| == ss.size
  {
    ss.data[..ss.size]
  }

  function InitPacket(ss: SendState): Packet {
    Packet(InitRequest, ss.id, ss.packetCounts, LittleEndian(ss.size, 8))
  }

  function PartPacket(ss: SendState, i: nat): Packet
    requires SendValid(ss) && i < ss.packetCounts
  {
    Packet(SendDataPart, ss.id, i, Part(Message(ss), i))
  }

  function QueryPacket(ss: SendState): Packet {
    Packet(RequestAllReceived, ss.id, 0, [])
  }

  /** The packets of the listed parts, in order. */
  function PartPackets(ss: SendState, list: seq<nat>): (ps: seq<Packet>)
    requires SendValid(ss) && forall k :: 0 <= k < |list| ==> list[k] < ss.packetCounts
    ensures |ps| == |list|
    ensures forall k :: 0 <= k < |list| ==> ps[k] == PartPacket(ss, list[k])
  {
    seq(|list|, k requires 0 <= k < |list| => PartPacket(ss, list[k]))
  }

  /** The indices a RESEND packet lists; packetId is their number. */
  function ResendList(p: Packet): (list: seq<nat>)
    requires 4 * p.packetId <= |p.data|
    ensures |list| == p.packetId
  {
    seq(p.packetId, i requires 0 <= i < p.packetId => IndexAt(p.data, i))
  }

  predicate SendFaults(ss: SendState, p: Packet) {
    p.command.ResponseResend? &&
    !(4 * p.packetId <= |p.data| && forall k :: 0 <= k < p.packetId ==> ResendList(p)[k] < ss.packetCounts)
  }

  /** A packet handed to the sender's session by the connection thread. */
  function SendStep(ss: SendState, p: Packet): (r: (SendState, seq<Packet>))
    requires SendValid(ss) && !SendFaults(ss, p)
    ensures SendValid(r.0) && r.0 == ss.(status := r.0.status)
  {
    match p.command
    case InitResponseSuccess => (ss.(status := InitSuccess), [])
    case InitResponseFailure => (ss.(status := InitFailure), [])
    case ResponseResend => (ss.(status := DataResend), PartPackets(ss, ResendList(p)))
    case ResponseAllReceived => (ss.(status := DataSuccess), [])
    case _ => (ss, [])
  }

  const INIT_RETRIES: nat := 3
  const APPROVAL_RETRIES: nat := 6

  /** Where the thread that called sendMessage stands. Numbers count tries or parts sent. */
  datatype Pc =
    | InitAsk(i: nat)      // about to send INIT
    | InitMark(i: nat)     // INIT sent, about to reset the status and wait
    | InitWait(i: nat)     // waiting for the answer to INIT
    | DataStart            // about to send the parts
    | DataPart(k: nat)     // parts below k have been sent
    | Ask(i: nat)          // about to ask whether all parts arrived
    | Wait(i: nat)         // waiting for the answer
    | Finished(result: bool)

  predicate Answered(status: SendStatus) {
    status.DataSuccess? || status.DataFailure? || status.DataResend?
  }

  /** The thread can take a step; with `timeout` the step is the expiry of its wait. */
  predicate CanAdvance(ss: SendState, pc: Pc, timeout: bool) {
    match pc
    case InitWait(_) => timeout || ss.status.InitSuccess? || ss.status.InitFailure?
    case Wait(_) => timeout || Answered(ss.status)
    case Finished(_) => false
    case _ => !timeout
  }

  /** The wait consumes a RESEND even when it is then reported as timed out. */
  function Consume(status: SendStatus): SendStatus {
    if status.DataResend? then DataRequestSent else status
  }

  function Advance(ss: SendState, pc: Pc, timeout: bool): (SendState, Pc, seq<Packet>)
    requires SendValid(ss) && CanAdvance(ss, pc, timeout)
  {
    match pc
    case InitAsk(i) =>
      if i < INIT_RETRIES then (ss.(status := InitRequestSent), InitMark(i), [InitPacket(ss)])
      else (ss, Finished(false), [])
    case InitMark(i) => (ss.(status := Init), InitWait(i), [])
    case InitWait(i) =>
      if timeout then (ss, InitAsk(i + 1), [])
      else (ss, if ss.status.InitSuccess? then DataStart else Finished(false), [])
    case DataStart => (ss.(status := DataRequestSent), DataPart(0), [])
    case DataPart(k) =>
      if k < ss.packetCounts then (ss, DataPart(k + 1), [PartPacket(ss, k)]) else (ss, Ask(0), [])
    case Ask(i) =>
      if i < APPROVAL_RETRIES then (ss, Wait(i), [QueryPacket(ss)]) else (ss, Finished(false), [])
    case Wait(i) =>
      var ss' := ss.(status := Consume(ss.status));
      if timeout then (ss', Ask(i + 1), [])
      else if ss.status.DataSuccess? then (ss', Finished(true), [])
      else if ss.status.DataFailure? then (ss', Finished(false), [])
      else (ss', Ask(i), [])
  }

  // ----- receiver

  /** status is -1 before INIT, 1 while parts are missing, 5 when none is. */
  datatype RecvState = RecvState(id: nat, status: int, size: nat, packetCounts: nat, received: seq<bool>,
                                 data: seq<byte>, dispatched: bool)

  function CountFalse(marks: seq<bool>): (n: nat)
    ensures n <= |marks|
  {
    if marks == [] then 0
    else CountFalse(marks[..|marks| - 1]) + if marks[|marks| - 1] then 0 else 1
  }

  /** The indices not yet marked, from the first n, in increasing order. */
  function Missing(marks: seq<bool>, n: nat): (list: seq<nat>)
    requires n <= |marks|
  {
    if n == 0 then []
    else if marks[n - 1] then Missing(marks, n - 1) else Missing(marks, n - 1) + [n - 1]
  }

  /** std::vector::resize. */
  function Resize(marks: seq<bool>, n: nat): (r: seq<bool>)
    ensures |r| == n
  {
    if n <= |marks| then marks[..n] else marks + seq(n - |marks|, _ => false)
  }

  /** The session a fresh INIT creates, with the announced count; malloc returned `block`. */
  function NewRecv(id: nat, announced: nat, block: seq<byte>): RecvState {
    RecvState(id, -1, |block|, announced, seq(announced, _ => false), block, false)
  }

  function AnnouncedSize(p: Packet): nat
    requires |p.data| >= 8
  {
    Value(p.data[..8])
  }

  /** Field and vector sizes agree; true from the constructor on. */
  predicate RecvValid(rs: RecvState) {
    |rs.received| == rs.packetCounts && |rs.data| == rs.size
  }

  predicate RecvFaults(rs: RecvState, p: Packet)
    requires RecvValid(rs)
  {
    match p.command
    case InitRequest => p.sessionId == rs.id && rs.status == -1 && |p.data| < 8
    case SendDataPart =>
      p.packetId < rs.packetCounts && !rs.received[p.packetId]
      && Offset(p.packetId) + |p.data| > |rs.data|
    case RequestAllReceived => p.sessionId == rs.id && 4 * CountFalse(rs.received) > MAX_STIP_DATA_SIZE
    case _ => false
  }

  function ReplyPacket(command: Command, id: nat): Packet {
    Packet(command, id, 0, [])
  }

  function ResendPacket(rs: RecvState): Packet
    requires RecvValid(rs)
  {
    var list := Missing(rs.received, rs.packetCounts);
    Packet(ResponseResend, rs.id, CountFalse(rs.received), EncodeIndices(list))
  }

  /** A packet handed to the receiver's session; `block` is what malloc returns if it is called. */
  function RecvStep(rs: RecvState, p: Packet, block: seq<byte>): (r: (RecvState, seq<Packet>))
    requires RecvValid(rs) && !RecvFaults(rs, p)
    requires p.command.InitRequest? && p.sessionId == rs.id && rs.status == -1 ==> |block| == AnnouncedSize(p)
    ensures RecvValid(r.0) && r.0.id == rs.id && r.0.dispatched == rs.dispatched
  {
    match p.command
    case InitRequest =>
      if p.sessionId != rs.id then (rs, [])
      else
        var rs' :=
          if rs.status == -1 then
            var n := ReceiverCount(AnnouncedSize(p));
            rs.(size := AnnouncedSize(p), packetCounts := n, data := block, received := Resize(rs.received, n), status := 1)
          else rs;
        (rs', [ReplyPacket(InitResponseSuccess, rs.id)])
    case SendDataPart =>
      if p.packetId >= rs.packetCounts || rs.received[p.packetId] then (rs, [])
      else
        var marks := rs.received[p.packetId := true];
        (rs.(data := WritePart(rs.data, p.packetId, p.data), received := marks,
             status := if CountFalse(marks) == 0 then 5 else rs.status), [])
    case RequestAllReceived =>
      if p.sessionId != rs.id then (rs, [])
      else if CountFalse(rs.received) == 0 then
        (rs.(status := 5), [ReplyPacket(ResponseAllReceived, rs.id)])
      else (rs, [ResendPacket(rs)])
    case _ => (rs, [])
  }

  // ----- the list of missing parts

  lemma {:induction false} CountFalseZero(marks: seq<bool>)
    ensures CountFalse(marks) == 0 <==> forall i :: 0 <= i < |marks| ==> marks[i]
  {
    if marks != [] {
      CountFalseZero(marks[..|marks| - 1]);
    }
  }

  lemma {:induction false} CountFalseMark(marks: seq<bool>, i: nat)
    requires i < |marks| && !marks[i]
    ensures CountFalse(marks[i := true]) == CountFalse(marks) - 1
  {
    var marks' := marks[i := true];
    if i == |marks| - 1 {
      assert marks'[..i] == marks[..i];
    } else {
      CountFalseMark(marks[..|marks| - 1], i);
      assert marks'[..|marks| - 1] == marks[..|marks| - 1][i := true];
    }
  }

  lemma {:induction false} CountFalseShrinks(marks: seq<bool>, marks': seq<bool>)
    requires |marks| == |marks'| && forall i :: 0 <= i < |marks| && marks[i] ==> marks'[i]
    ensures CountFalse(marks') <= CountFalse(marks)
    ensures CountFalse(marks') == CountFalse(marks) <==> marks' == marks
  {
    if marks != [] {
      var n := |marks| - 1;
      CountFalseShrinks(marks[..n], marks'[..n]);
      assert marks == marks[..n] + [marks[n]] && marks' == marks'[..n] + [marks'[n]];
    }
  }

  /** The list is strictly increasing and holds exactly the unmarked indices. */
  lemma {:induction false} MissingIsExact(marks: seq<bool>, n: nat)
    requires n <= |marks|
    ensures forall i, j :: 0 <= i < j < |Missing(marks, n)| ==> Missing(marks, n)[i] < Missing(marks, n)[j]
    ensures forall i: nat :: i in Missing(marks, n) <==> i < n && !marks[i]
    ensures |Missing(marks, n)| == CountFalse(marks[..n])
  {
    if n > 0 {
      MissingIsExact(marks, n - 1);
      var list := Missing(marks, n - 1);
      forall i | 0 <= i < |list| ensures list[i] < n - 1 { assert list[i] in list; }
      assert marks[..n][..n - 1] == marks[..n - 1];
    }
  }

  /** What a sender reads from the RESEND packet is that list. */
  lemma ResendPacketRoundTrip(rs: RecvState)
    requires RecvValid(rs) && rs.packetCounts <= U32_LIMIT
    ensures var p := ResendPacket(rs);
            && |p.data| == 4 * p.packetId
            && ResendList(p) == Missing(rs.received, rs.packetCounts)
  {
    var list := Missing(rs.received, rs.packetCounts);
    MissingIsExact(rs.received, rs.packetCounts);
    assert rs.received[..rs.packetCounts] == rs.received;
    forall i | 0 <= i < |list| ensures ResendList(ResendPacket(rs))[i] == list[i] {
      forall k | 0 <= k < |list| ensures list[k] < U32_LIMIT { assert list[k] in list; }
      IndexAtEncoded(list, i);
    }
  }
}
