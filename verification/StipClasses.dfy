/** The sessions as the program has them: objects whose methods update their fields, each proved
    against its function in StipSessions, StipInvitation or StipApproval. The packets a method
    returns are those it puts on the socket, in order. */
module StipClasses {
  import opened StipPackets
  import opened StipSessions
  import opened StipApproval
  import opened StipInvitation

  class SendMessageSession {
    const id: nat
    const data: seq<byte>
    const size: nat
    const packetCounts: nat
    var status: SendStatus

    ghost function State(): SendState
      reads this
    {
      SendState(id, data, size, packetCounts, status)
    }

    ghost predicate Valid()
      reads this
    {
      SendValid(State())
    }

    constructor (id: nat, data: seq<byte>)
      ensures Valid() && State() == NewSend(id, data)
    {
      this.id := id;
      this.data := data;
      this.size := U32(|data|);
      this.packetCounts := SenderCount(U32(|data|));
      this.status := Init;
    }

    /** The copy starts at an offset computed in 32-bit arithmetic. */
    method SendPart(packetId: nat) returns (p: Packet)
      requires Valid() && packetId < packetCounts
      ensures p == PartPacket(State(), packetId)
    {
      var partSize := if packetId == packetCounts - 1 then size % MAX_STIP_DATA_SIZE else MAX_STIP_DATA_SIZE;
      PartInside(size, packetId);
      var offset := Offset(packetId);
      p := Packet(SendDataPart, id, packetId, data[offset..offset + partSize]);
      assert data[offset..offset + partSize] == Message(State())[offset..offset + partSize];
    }

    method DoResend(p: Packet) returns (out: seq<Packet>)
      requires Valid() && p.command.ResponseResend? && !SendFaults(State(), p)
      ensures out == PartPackets(State(), ResendList(p))
    {
      out := [];
      for i := 0 to p.packetId
        invariant out == PartPackets(State(), ResendList(p))[..i]
      {
        var index := IndexAt(p.data, i);
        assert index == ResendList(p)[i];
        var part := SendPart(index);
        out := out + [part];
      }
    }

    method ProcessIncomingPacket(p: Packet) returns (out: seq<Packet>)
      requires Valid() && !SendFaults(State(), p)
      modifies this
      ensures Valid() && (State(), out) == SendStep(old(State()), p)
    {
      out := [];
      match p.command {
        case InitResponseSuccess => status := InitSuccess;
        case InitResponseFailure => status := InitFailure;
        case ResponseResend =>
          out := DoResend(p);
          status := DataResend;
        case ResponseAllReceived => status := DataSuccess;
        case _ =>
      }
    }

    /** initSend, against what arrives before and after it resets the status. */
    method InitSend(attempt: Attempt) returns (result: bool, out: seq<Packet>)
      requires Valid() && Servable(State(), attempt.early) && Servable(State(), attempt.packets)
      modifies this
      ensures Valid() && (State(), out) == Try(old(State()), attempt)
      ensures result == status.InitSuccess?
    {
      var p := Packet(InitRequest, id, packetCounts, LittleEndian(size, 8));
      status := InitRequestSent;
      var early := AbsorbAll(attempt.early);
      status := Init;
      var more := AbsorbAll(attempt.packets);
      out := [p] + early + more;
      result := status == InitSuccess;
    }

    /** initSendWrappedTimout: an answer in a try that timed out is not looked at. */
    method InitSendWrappedTimeout(retryCount: nat, env: seq<Attempt>)
      returns (answer: Answer, tries: nat, out: seq<Packet>)
      requires Valid() && Peaceful(State(), env)
      modifies this
      ensures Valid() && State() == old(State()).(status := status)
      ensures (answer, status, tries, out) == Invite(old(State()), 0, retryCount, env)
    {
      ghost var start := State();
      out := [];
      var i := 0;
      ghost var whole := Invite(start, 0, retryCount, env);
      assert env[0..] == env;
      ContinueStart(whole);
      while i < retryCount
        invariant Valid() && State() == start.(status := status) && Peaceful(State(), env)
        invariant i <= |env|
        invariant whole == Continue(i, out, Invite(State(), i, retryCount, env[i..]))
      {
        if i == |env| {
          ContinueEnded(i, out, State(), retryCount, env[i..]);
          return Pending, i, out;
        }
        ContinueTry(i, out, State(), retryCount, env);
        var result, sent := InitSend(env[i]);
        out := out + sent;
        if !env[i].timedOut {
          if result {
            return Accepted, i + 1, out;
          } else if status == InitFailure {
            return Refused, i + 1, out;
          }
          return Pending, i, out;
        }
        i := i + 1;
      }
      ContinueEnded(i, out, State(), retryCount, env[i..]);
      return NoAnswer, i, out;
    }

    /** sendData: the status, then every part in order. */
    method SendData() returns (out: seq<Packet>)
      requires Valid()
      modifies this
      ensures Valid() && State() == old(State()).(status := DataRequestSent)
      ensures |out| == packetCounts && forall i :: 0 <= i < packetCounts ==> out[i] == PartPacket(State(), i)
    {
      status := DataRequestSent;
      out := [];
      for i := 0 to packetCounts
        invariant Valid() && State() == old(State()).(status := DataRequestSent)
        invariant |out| == i && forall k :: 0 <= k < i ==> out[k] == PartPacket(State(), k)
      {
        var part := SendPart(i);
        out := out + [part];
      }
    }

    method AskAllReceived() returns (p: Packet)
      ensures p == QueryPacket(State())
    {
      p := Packet(RequestAllReceived, id, 0, []);
    }

    /** What waitApproval does once its wait is over. */
    method WaitApproval() returns (result: SendStatus)
      requires Valid()
      modifies this
      ensures Valid() && State() == old(State()).(status := Consume(old(status)))
      ensures result == old(status)
    {
      if status == DataResend {
        status := DataRequestSent;
        return DataResend;
      }
      return status;
    }

    /** waitApprovalWrappedTimout, against an environment that decides what arrives during each
        wait and whether it expires. A RESEND takes the try back. */
    method WaitApprovalWrappedTimeout(retryCount: nat, env: seq<Episode>)
      returns (outcome: Outcome, rounds: nat, out: seq<Packet>)
      requires Valid() && Harmless(State(), env)
      modifies this
      ensures Valid() && State() == old(State()).(status := status)
      ensures (outcome, status, rounds, out) == Approval(old(State()), 0, retryCount, env)
    {
      ghost var start := State();
      rounds, out := 0, [];
      var i := 0;
      ghost var whole := Approval(start, 0, retryCount, env);
      assert env[0..] == env;
      ResumeStart(whole);
      while i < retryCount
        invariant Valid() && State() == start.(status := status) && Harmless(State(), env)
        invariant rounds <= |env|
        invariant whole == Resume(rounds, out, Approval(State(), i, retryCount, env[rounds..]))
        decreases |env| - rounds
      {
        if rounds == |env| {
          ResumeEnded(rounds, out, State(), i, retryCount, env[rounds..]);
          return StillWaiting, rounds, out;
        }
        ResumeRound(rounds, out, State(), i, retryCount, env);
        var sent := AskAndAbsorb(env[rounds].packets);
        out := out + sent;
        if !env[rounds].timedOut && !Answered(status) {
          return StillWaiting, rounds, out;
        }
        var result := WaitApproval();
        var timedOut := env[rounds].timedOut;
        rounds := rounds + 1;
        if timedOut {
          i := i + 1;
        } else if result == DataSuccess {
          return Approved, rounds, out;
        } else if result == DataFailure {
          return Rejected, rounds, out;
        }
      }
      ResumeEnded(rounds, out, State(), i, retryCount, env[rounds..]);
      return OutOfTries, rounds, out;
    }

    /** The question, and what arrives while the loop waits for its answer. */
    method AskAndAbsorb(ps: seq<Packet>) returns (out: seq<Packet>)
      requires Valid() && Servable(State(), ps)
      modifies this
      ensures Valid() && State() == Absorb(old(State()), ps).0
      ensures out == [QueryPacket(old(State()))] + Absorb(old(State()), ps).1
    {
      var query := AskAllReceived();
      var resent := AbsorbAll(ps);
      out := [query] + resent;
    }

    method AbsorbAll(ps: seq<Packet>) returns (out: seq<Packet>)
      requires Valid() && Servable(State(), ps)
      modifies this
      ensures Valid() && (State(), out) == Absorb(old(State()), ps)
    {
      out := [];
      ghost var start := State();
      assert ps[0..] == ps;
      for i := 0 to |ps|
        invariant Valid() && State() == start.(status := status) && Servable(State(), ps[i..])
        invariant Absorb(start, ps).0 == Absorb(State(), ps[i..]).0
        invariant Absorb(start, ps).1 == out + Absorb(State(), ps[i..]).1
      {
        assert ps[i..][1..] == ps[i + 1..];
        ghost var outBefore := out;
        var more := ProcessIncomingPacket(ps[i]);
        out := out + more;
        assert outBefore + (more + Absorb(State(), ps[i + 1..]).1) == out + Absorb(State(), ps[i + 1..]).1;
      }
      assert ps[|ps|..] == [] && out + [] == out;
    }
  }

  class ReceiveMessageSession {
    const id: nat
    var status: int
    var size: nat
    var packetCounts: nat
    var receivedParts: array<bool>
    var data: array<byte>
    var dispatched: bool

    ghost function State(): RecvState
      reads this, data, receivedParts
    {
      RecvState(id, status, size, packetCounts, receivedParts[..], data[..], dispatched)
    }

    ghost predicate Valid()
      reads this, data, receivedParts
    {
      RecvValid(State())
    }

    constructor (id: nat, size: nat, packetCounts: nat)
      ensures Valid() && fresh(data) && fresh(receivedParts) && data.Length == size
      ensures State() == NewRecv(id, packetCounts, data[..])
    {
      this.id := id;
      this.status := -1;
      this.size := size;
      this.packetCounts := packetCounts;
      this.receivedParts := new bool[packetCounts](_ => false);
      this.data := new byte[size];
      this.dispatched := false;
      new;
      assert receivedParts[..] == seq(packetCounts, _ => false);
    }

    method CountUnreceivedParts() returns (n: nat)
      ensures n == CountFalse(receivedParts[..])
    {
      n := 0;
      for i := 0 to receivedParts.Length
        invariant n == CountFalse(receivedParts[..i])
      {
        assert receivedParts[..i + 1][..i] == receivedParts[..i];
        if !receivedParts[i] {
          n := n + 1;
        }
      }
      assert receivedParts[..receivedParts.Length] == receivedParts[..];
    }

    /** The loop that fills the RESEND list. */
    method ListUnreceivedParts() returns (list: seq<nat>)
      requires Valid()
      ensures list == Missing(receivedParts[..], packetCounts)
    {
      list := [];
      for i := 0 to packetCounts
        invariant list == Missing(receivedParts[..], i)
      {
        if !receivedParts[i] {
          list := list + [i];
        }
      }
    }

    /** std::vector::resize, which moves the marks to a new block. */
    method ResizeParts(n: nat)
      modifies this`receivedParts
      ensures fresh(receivedParts) && receivedParts[..] == Resize(old(receivedParts[..]), n)
    {
      var was := receivedParts;
      receivedParts := new bool[n](k requires 0 <= k reads was => k < was.Length && was[k]);
    }

    /** memcpy of the payload to its part's place, computed in 32-bit arithmetic. */
    method CopyPart(i: nat, payload: seq<byte>)
      requires Offset(i) + |payload| <= data.Length
      modifies data
      ensures data[..] == WritePart(old(data[..]), i, payload)
    {
      var offset := Offset(i);
      for k := 0 to |payload|
        invariant forall j :: 0 <= j < data.Length ==>
                    data[j] == if offset <= j < offset + k then payload[j - offset] else old(data[j])
      {
        data[offset + k] := payload[k];
      }
    }

    method ProcessIncomingPacket(p: Packet) returns (out: seq<Packet>, ghost block: seq<byte>)
      requires Valid() && !RecvFaults(State(), p)
      modifies this, data, receivedParts
      ensures p.command.InitRequest? && p.sessionId == id && old(status) == -1 ==> |block| == AnnouncedSize(p)
      ensures old(status) != -1 ==> block == []
      ensures (State(), out) == RecvStep(old(State()), p, block)
      ensures Valid()
      ensures (data == old(data) && receivedParts == old(receivedParts))
              || (fresh(data) && fresh(receivedParts) && old(status) == -1)
    {
      out, block := [], [];
      match p.command {
        case InitRequest =>
          if p.sessionId != id {
            return;
          }
          if status == -1 {
            size := Value(p.data[..8]);
            packetCounts := (size + MAX_STIP_DATA_SIZE - 1) / MAX_STIP_DATA_SIZE;
            data := new byte[size];
            block := data[..];
            ResizeParts(packetCounts);
            status := 1;
          }
          out := [ReplyPacket(InitResponseSuccess, id)];
        case SendDataPart =>
          if p.packetId >= packetCounts {
            return;
          }
          if receivedParts[p.packetId] {
            return;
          }
          CopyPart(p.packetId, p.data);
          receivedParts[p.packetId] := true;
          var unreceived := CountUnreceivedParts();
          if unreceived == 0 {
            status := 5;
          }
        case RequestAllReceived =>
          if p.sessionId != id {
            return;
          }
          var unreceived := CountUnreceivedParts();
          if unreceived == 0 {
            status := 5;
            out := [ReplyPacket(ResponseAllReceived, id)];
          } else {
            var list := ListUnreceivedParts();
            out := [Packet(ResponseResend, id, unreceived, EncodeIndices(list))];
          }
        case _ =>
      }
    }

    method GetData() returns (bytes: seq<byte>, n: nat)
      ensures bytes == State().data && n == State().size
    {
      return data[..], size;
    }
  }
}
