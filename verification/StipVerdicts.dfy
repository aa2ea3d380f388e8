/** How the approval loop ends, read off the packets that arrive, and how often both loops ask. */
module StipVerdicts {
  import opened StipPackets
  import opened StipSessions
  import opened StipApproval
  import opened StipInvitation

  // ----- how the approval loop ends

  /** The packets of the first n rounds. */
  ghost function Heard(env: seq<Episode>, n: nat): seq<Packet>
    requires n <= |env|
  {
    if n == 0 then [] else env[0].packets + Heard(env[1..], n - 1)
  }

  ghost function Expired(env: seq<Episode>, n: nat): nat
    requires n <= |env|
  {
    if n == 0 then 0 else (if env[0].timedOut then 1 else 0) + Expired(env[1..], n - 1)
  }

  /** After this round there is another, if tries are left: its wait expires, or the last answer to
      arrive in it is a RESEND. */
  ghost predicate GoesOn(e: Episode) {
    e.timedOut || LastVerdict(e.packets, DataResend)
  }

  ghost predicate AllGoOn(env: seq<Episode>, n: nat)
    requires n <= |env|
  {
    forall j :: 0 <= j < n ==> GoesOn(env[j])
  }

  /** Round k is reached with tries left. */
  ghost predicate Reaches(env: seq<Episode>, i: nat, retryCount: nat, k: nat) {
    k < |env| && AllGoOn(env, k) && i + Expired(env, k) < retryCount
  }

  /** Of everything heard up to round k, the last answer says that all arrived. */
  ghost predicate Confirms(status: SendStatus, env: seq<Episode>, k: nat)
    requires k < |env|
  {
    LastVerdict(Heard(env, k + 1), DataSuccess) || (status.DataSuccess? && Silent(Heard(env, k + 1)))
  }

  ghost predicate ApprovesAt(status: SendStatus, env: seq<Episode>, i: nat, retryCount: nat, k: nat) {
    Reaches(env, i, retryCount, k) && !env[k].timedOut && Confirms(status, env, k)
  }

  /** The loop says yes exactly when some round that it reaches does not expire, and the last answer
      heard by then, in that round or in an earlier one that expired, is ALL_RECEIVED. It never says
      no: no packet means that. */
  lemma {:induction false} ApprovedExactly(ss: SendState, i: nat, retryCount: nat, env: seq<Episode>)
    requires SendValid(ss) && Harmless(ss, env) && !ss.status.DataResend? && !ss.status.DataFailure?
    ensures Approval(ss, i, retryCount, env).0.Approved? <==>
            exists k: nat :: ApprovesAt(ss.status, env, i, retryCount, k)
    ensures !Approval(ss, i, retryCount, env).0.Rejected?
    decreases |env|
  {
    if i < retryCount && env != [] {
      var ss1 := Absorb(ss, env[0].packets).0;
      var ss2 := ss1.(status := Consume(ss1.status));
      RoundVerdict(ss, env);
      if GoesOn(env[0]) {
        var i' := if env[0].timedOut then i + 1 else i;
        ApprovedExactly(ss2, i', retryCount, env[1..]);
        LaterRound(ss.status, ss2.status, env, i, i', retryCount);
      } else {
        assert ApprovesAt(ss.status, env, i, retryCount, 0) <==> Confirms(ss.status, env, 0);
        assert forall k: nat :: ApprovesAt(ss.status, env, i, retryCount, k) ==> k == 0;
      }
    }
  }

  /** What the first round leaves. */
  lemma RoundVerdict(ss: SendState, env: seq<Episode>)
    requires SendValid(ss) && Harmless(ss, env) && !ss.status.DataResend? && !ss.status.DataFailure? && env != []
    ensures var ss1 := Absorb(ss, env[0].packets).0;
            && (ss1.status.DataResend? <==> LastVerdict(env[0].packets, DataResend))
            && !ss1.status.DataFailure?
            && (ss1.status.DataSuccess? <==> Confirms(ss.status, env, 0))
            && (ss1.status.DataSuccess? <==>
                  LastVerdict(env[0].packets, DataSuccess) || (ss.status.DataSuccess? && Silent(env[0].packets)))
  {
    AbsorbedVerdict(ss, env[0].packets, DataResend);
    AbsorbedVerdict(ss, env[0].packets, DataFailure);
    AbsorbedVerdict(ss, env[0].packets, DataSuccess);
    assert Heard(env[1..], 0) == [];
    assert Heard(env, 1) == env[0].packets;
  }

  lemma {:induction false} VerdictOfConcat(ps: seq<Packet>, qs: seq<Packet>, v: SendStatus)
    ensures Silent(ps + qs) <==> Silent(ps) && Silent(qs)
    ensures LastVerdict(ps + qs, v) <==> LastVerdict(qs, v) || (LastVerdict(ps, v) && Silent(qs))
  {
    if ps == [] {
      assert ps + qs == qs;
    } else {
      VerdictOfConcat(ps[1..], qs, v);
      assert (ps + qs)[1..] == ps[1..] + qs;
      LastVerdictFirst(ps + qs, v);
      LastVerdictFirst(ps, v);
    }
  }

  /** Seen from the second round on. */
  lemma ConfirmsLater(status: SendStatus, status': SendStatus, env: seq<Episode>, k: nat)
    requires k + 1 < |env|
    requires status'.DataSuccess? <==>
             LastVerdict(env[0].packets, DataSuccess) || (status.DataSuccess? && Silent(env[0].packets))
    ensures Confirms(status, env, k + 1) <==> Confirms(status', env[1..], k)
  {
    assert Heard(env, k + 2) == env[0].packets + Heard(env[1..], k + 1);
    VerdictOfConcat(env[0].packets, Heard(env[1..], k + 1), DataSuccess);
  }

  lemma ReachesLater(env: seq<Episode>, k: nat)
    requires env != [] && GoesOn(env[0]) && k + 1 <= |env|
    ensures AllGoOn(env, k + 1) <==> AllGoOn(env[1..], k)
    ensures Expired(env, k + 1) == (if env[0].timedOut then 1 else 0) + Expired(env[1..], k)
  {
    var rest := env[1..];
    assert forall j :: 0 <= j < |rest| ==> rest[j] == env[j + 1];
    assert forall j :: 1 <= j < |env| ==> env[j] == rest[j - 1];
  }

  lemma ApprovesLater(status: SendStatus, status': SendStatus, env: seq<Episode>, i: nat, i': nat, retryCount: nat,
                      k: nat)
    requires env != [] && GoesOn(env[0]) && i' == if env[0].timedOut then i + 1 else i
    requires status'.DataSuccess? <==>
             LastVerdict(env[0].packets, DataSuccess) || (status.DataSuccess? && Silent(env[0].packets))
    ensures ApprovesAt(status, env, i, retryCount, k + 1) <==> ApprovesAt(status', env[1..], i', retryCount, k)
  {
    if k + 1 < |env| {
      ConfirmsLater(status, status', env, k);
      ReachesLater(env, k);
      SameRounds(env, k);
    }
  }

  lemma SameRounds(env: seq<Episode>, k: nat)
    requires k + 1 < |env|
    ensures env[1..][k] == env[k + 1] && |env[1..]| == |env| - 1
  {
  }

  lemma LaterRound(status: SendStatus, status': SendStatus, env: seq<Episode>, i: nat, i': nat, retryCount: nat)
    requires env != [] && GoesOn(env[0]) && i' == if env[0].timedOut then i + 1 else i
    requires status'.DataSuccess? <==>
             LastVerdict(env[0].packets, DataSuccess) || (status.DataSuccess? && Silent(env[0].packets))
    requires !ApprovesAt(status, env, i, retryCount, 0)
    ensures (exists k: nat :: ApprovesAt(status, env, i, retryCount, k)) <==>
            (exists k: nat :: ApprovesAt(status', env[1..], i', retryCount, k))
  {
    if k: nat :| ApprovesAt(status', env[1..], i', retryCount, k) {
      ApprovesLater(status, status', env, i, i', retryCount, k);
      assert ApprovesAt(status, env, i, retryCount, k + 1);
    }
    if k: nat :| ApprovesAt(status, env, i, retryCount, k) {
      ApprovesLater(status, status', env, i, i', retryCount, k - 1);
      assert ApprovesAt(status', env[1..], i', retryCount, k - 1);
    }
  }

  /** After k rounds that all went on, the last try has expired. */
  ghost predicate RunsOutAt(env: seq<Episode>, i: nat, retryCount: nat, k: nat) {
    k <= |env| && AllGoOn(env, k) && i + Expired(env, k) == retryCount
  }

  /** And it runs out of tries exactly when as many waits expire as it has tries, all other rounds
      before that ending with a RESEND. */
  lemma {:induction false} OutOfTriesExactly(ss: SendState, i: nat, retryCount: nat, env: seq<Episode>)
    requires SendValid(ss) && Harmless(ss, env) && !ss.status.DataResend? && !ss.status.DataFailure? && i <= retryCount
    ensures Approval(ss, i, retryCount, env).0.OutOfTries? <==> exists k: nat :: RunsOutAt(env, i, retryCount, k)
    decreases |env|
  {
    if i == retryCount {
      assert RunsOutAt(env, i, retryCount, 0);
    } else if env != [] {
      var ss1 := Absorb(ss, env[0].packets).0;
      RoundVerdict(ss, env);
      if GoesOn(env[0]) {
        var i' := if env[0].timedOut then i + 1 else i;
        OutOfTriesExactly(ss1.(status := Consume(ss1.status)), i', retryCount, env[1..]);
        RunsOutLater(env, i, i', retryCount);
      } else {
        assert forall k: nat :: RunsOutAt(env, i, retryCount, k) ==> k == 0;
      }
    }
  }

  lemma RunsOutLater(env: seq<Episode>, i: nat, i': nat, retryCount: nat)
    requires env != [] && GoesOn(env[0]) && i < retryCount && i' == if env[0].timedOut then i + 1 else i
    ensures (exists k: nat :: RunsOutAt(env, i, retryCount, k)) <==>
            (exists k: nat :: RunsOutAt(env[1..], i', retryCount, k))
  {
    if k: nat :| RunsOutAt(env[1..], i', retryCount, k) {
      ReachesLater(env, k);
      assert RunsOutAt(env, i, retryCount, k + 1);
    }
    if k: nat :| RunsOutAt(env, i, retryCount, k) {
      assert k > 0;
      ReachesLater(env, k - 1);
      assert RunsOutAt(env[1..], i', retryCount, k - 1);
    }
  }

  // ----- one question a round, one INIT a try

  ghost function CountOf(ps: seq<Packet>, command: Command): nat {
    if ps == [] then 0 else (if ps[0].command == command then 1 else 0) + CountOf(ps[1..], command)
  }

  lemma {:induction false} CountOfConcat(ps: seq<Packet>, qs: seq<Packet>, command: Command)
    ensures CountOf(ps + qs, command) == CountOf(ps, command) + CountOf(qs, command)
  {
    if ps == [] {
      assert ps + qs == qs;
    } else {
      CountOfConcat(ps[1..], qs, command);
      assert (ps + qs)[1..] == ps[1..] + qs;
    }
  }

  lemma {:induction false} CountOfNone(ps: seq<Packet>, command: Command)
    requires forall k :: 0 <= k < |ps| ==> ps[k].command != command
    ensures CountOf(ps, command) == 0
  {
    if ps != [] {
      CountOfNone(ps[1..], command);
    }
  }

  /** What a session sends when answers arrive are parts. */
  lemma {:induction false} AbsorbSendsParts(ss: SendState, ps: seq<Packet>, command: Command)
    requires SendValid(ss) && Servable(ss, ps) && !command.SendDataPart?
    ensures CountOf(Absorb(ss, ps).1, command) == 0
    decreases |ps|
  {
    if ps != [] {
      var (ss1, out1) := SendStep(ss, ps[0]);
      CountOfNone(out1, command);
      AbsorbSendsParts(ss1, ps[1..], command);
      CountOfConcat(out1, Absorb(ss1, ps[1..]).1, command);
    }
  }

  lemma AskedOnce(asked: Packet, rest: seq<Packet>, command: Command)
    requires asked.command == command && CountOf(rest, command) == 0
    ensures CountOf([asked] + rest, command) == 1
  {
    assert ([asked] + rest)[1..] == rest;
  }

  /** The loop asks once in every round: the questions sent are the rounds counted, and the one it
      may still wait in. */
  lemma {:induction false} AsksOnceARound(ss: SendState, i: nat, retryCount: nat, env: seq<Episode>)
    requires SendValid(ss) && Harmless(ss, env)
    ensures var r := Approval(ss, i, retryCount, env);
            && r.2 <= CountOf(r.3, RequestAllReceived) <= r.2 + 1
            && (CountOf(r.3, RequestAllReceived) > r.2 ==> r.0.StillWaiting?)
    decreases |env|
  {
    if i < retryCount && env != [] {
      var (ss1, resent) := Absorb(ss, env[0].packets);
      AbsorbSendsParts(ss, env[0].packets, RequestAllReceived);
      AskedOnce(QueryPacket(ss), resent, RequestAllReceived);
      if env[0].timedOut || ss1.status.DataResend? {
        var ss2, i' := ss1.(status := Consume(ss1.status)), if env[0].timedOut then i + 1 else i;
        AsksOnceARound(ss2, i', retryCount, env[1..]);
        CountOfConcat([QueryPacket(ss)] + resent, Approval(ss2, i', retryCount, env[1..]).3, RequestAllReceived);
      }
    }
  }

  /** And the loop before it sends one INIT in every try. */
  lemma {:induction false} AnnouncesOnceATry(ss: SendState, i: nat, retryCount: nat, env: seq<Attempt>)
    requires SendValid(ss) && Peaceful(ss, env)
    ensures var r := Invite(ss, i, retryCount, env);
            && r.2 <= CountOf(r.3, InitRequest) <= r.2 + 1
            && (CountOf(r.3, InitRequest) > r.2 ==> r.0.Pending?)
    decreases |env|
  {
    if i < retryCount && env != [] {
      var (told, sent) := Try(ss, env[0]);
      TryAnnounces(ss, env[0]);
      if env[0].timedOut {
        AnnouncesOnceATry(told, i + 1, retryCount, env[1..]);
        CountOfConcat(sent, Invite(told, i + 1, retryCount, env[1..]).3, InitRequest);
      }
    }
  }

  lemma TryAnnounces(ss: SendState, a: Attempt)
    requires SendValid(ss) && Servable(ss, a.early) && Servable(ss, a.packets)
    ensures CountOf(Try(ss, a).1, InitRequest) == 1
  {
    var (early, out1) := Absorb(ss.(status := InitRequestSent), a.early);
    var (told, out2) := Absorb(early.(status := Init), a.packets);
    AbsorbSendsParts(ss.(status := InitRequestSent), a.early, InitRequest);
    AbsorbSendsParts(early.(status := Init), a.packets, InitRequest);
    AskedOnce(InitPacket(ss), out1, InitRequest);
    CountOfConcat([InitPacket(ss)] + out1, out2, InitRequest);
  }
  // ----- the parts, each once

  /** What the thread of the step system sends from DataPart(k) on, until it asks. */
  function DriveData(ss: SendState, k: nat): (r: (SendState, Pc, seq<Packet>))
    requires SendValid(ss) && k <= ss.packetCounts
    decreases ss.packetCounts - k
  {
    var (ss', pc, packets) := Advance(ss, DataPart(k), false);
    if k == ss.packetCounts then (ss', pc, packets)
    else
      var (last, stop, rest) := DriveData(ss', k + 1);
      (last, stop, packets + rest)
  }

  /** The thread sends every part once, in order, as the method sendData does, and then asks. */
  lemma {:induction false} DataPhaseIsThread(ss: SendState, k: nat)
    requires SendValid(ss) && k <= ss.packetCounts
    ensures var (last, stop, sent) := DriveData(ss, k);
            && last == ss && stop == Ask(0) && |sent| == ss.packetCounts - k
            && forall i :: k <= i < ss.packetCounts ==> sent[i - k] == PartPacket(ss, i)
    decreases ss.packetCounts - k
  {
    if k < ss.packetCounts {
      DataPhaseIsThread(ss, k + 1);
      var rest := DriveData(ss, k + 1).2;
      assert DriveData(ss, k).2 == [PartPacket(ss, k)] + rest;
      assert forall i :: k + 1 <= i < ss.packetCounts ==> rest[i - (k + 1)] == PartPacket(ss, i);
    }
  }
}
