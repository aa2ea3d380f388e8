/** The sender's loop that asks until it is told that everything arrived. A RESEND answer gives
    the try back, so the number of tries alone does not bound the loop. */
module StipApproval {
  import opened StipPackets
  import opened StipSessions

  /** What happens during one wait: the packets the connection thread hands to the session, and
      whether the wait then expires. */
  datatype Episode = Episode(packets: seq<Packet>, timedOut: bool)

  datatype Outcome = Approved | Rejected | OutOfTries | StillWaiting

  predicate Servable(ss: SendState, ps: seq<Packet>) {
    forall k :: 0 <= k < |ps| ==> !SendFaults(ss, ps[k])
  }

  /** The session after a series of packets, and what it resent. */
  function Absorb(ss: SendState, ps: seq<Packet>): (r: (SendState, seq<Packet>))
    requires SendValid(ss) && Servable(ss, ps)
    ensures SendValid(r.0) && r.0 == ss.(status := r.0.status)
    decreases |ps|
  {
    if ps == [] then (ss, [])
    else
      var (ss1, out1) := SendStep(ss, ps[0]);
      var (ss2, out2) := Absorb(ss1, ps[1..]);
      (ss2, out1 + out2)
  }

  predicate Harmless(ss: SendState, env: seq<Episode>)
  {
    forall k :: 0 <= k < |env| ==> Servable(ss, env[k].packets)
  }

  /** The loop from try i on, against the given episodes: how it ends, the session's last status,
      how many rounds it took, and every packet sent. It still waits when an episode brings no
      answer and does not expire, or when the episodes run out. */
  function Approval(ss: SendState, i: nat, retryCount: nat, env: seq<Episode>)
    : (r: (Outcome, SendStatus, nat, seq<Packet>))
    requires SendValid(ss) && Harmless(ss, env)
    decreases |env|
  {
    if i >= retryCount then (OutOfTries, ss.status, 0, [])
    else if env == [] then (StillWaiting, ss.status, 0, [])
    else
      var (ss1, resent) := Absorb(ss, env[0].packets);
      var ss2 := ss1.(status := Consume(ss1.status));
      var sent := [QueryPacket(ss)] + resent;
      if !env[0].timedOut && !Answered(ss1.status) then (StillWaiting, ss1.status, 0, sent)
      else if !env[0].timedOut && ss1.status.DataSuccess? then (Approved, ss1.status, 1, sent)
      else if !env[0].timedOut && ss1.status.DataFailure? then (Rejected, ss1.status, 1, sent)
      else
        var (outcome, status, rounds, rest) :=
          Approval(ss2, if env[0].timedOut then i + 1 else i, retryCount, env[1..]);
        (outcome, status, rounds + 1, sent + rest)
  }

  /** The whole loop's result, from where it stands after `rounds` rounds. */
  ghost function Resume(rounds: nat, out: seq<Packet>, rest: (Outcome, SendStatus, nat, seq<Packet>))
    : (Outcome, SendStatus, nat, seq<Packet>)
  {
    (rest.0, rest.1, rounds + rest.2, out + rest.3)
  }

  /** One round, from where the loop stands. */
  lemma ResumeRound(rounds: nat, out: seq<Packet>, ss: SendState, i: nat, retryCount: nat, env: seq<Episode>)
    requires SendValid(ss) && Harmless(ss, env) && rounds < |env| && i < retryCount
    ensures var (ss1, resent) := Absorb(ss, env[rounds].packets);
            var ss2, timedOut := ss1.(status := Consume(ss1.status)), env[rounds].timedOut;
            var sent := out + ([QueryPacket(ss)] + resent);
            Resume(rounds, out, Approval(ss, i, retryCount, env[rounds..]))
            == if !timedOut && !Answered(ss1.status) then (StillWaiting, ss1.status, rounds, sent)
               else if !timedOut && ss1.status.DataSuccess? then (Approved, ss1.status, rounds + 1, sent)
               else if !timedOut && ss1.status.DataFailure? then (Rejected, ss1.status, rounds + 1, sent)
               else Resume(rounds + 1, sent, Approval(ss2, if timedOut then i + 1 else i, retryCount, env[rounds + 1..]))
  {
    var rest := env[rounds..];
    assert rest[0] == env[rounds] && rest[1..] == env[rounds + 1..];
    FirstRound(rounds, out, ss, i, retryCount, rest);
  }

  lemma FirstRound(rounds: nat, out: seq<Packet>, ss: SendState, i: nat, retryCount: nat, env: seq<Episode>)
    requires SendValid(ss) && Harmless(ss, env) && env != [] && i < retryCount
    ensures var (ss1, resent) := Absorb(ss, env[0].packets);
            var ss2, timedOut := ss1.(status := Consume(ss1.status)), env[0].timedOut;
            var sent := out + ([QueryPacket(ss)] + resent);
            Resume(rounds, out, Approval(ss, i, retryCount, env))
            == if !timedOut && !Answered(ss1.status) then (StillWaiting, ss1.status, rounds, sent)
               else if !timedOut && ss1.status.DataSuccess? then (Approved, ss1.status, rounds + 1, sent)
               else if !timedOut && ss1.status.DataFailure? then (Rejected, ss1.status, rounds + 1, sent)
               else Resume(rounds + 1, sent, Approval(ss2, if timedOut then i + 1 else i, retryCount, env[1..]))
  {
    var (ss1, resent) := Absorb(ss, env[0].packets);
    var ss2 := ss1.(status := Consume(ss1.status));
    Regroup(out, [QueryPacket(ss)] + resent,
            Approval(ss2, if env[0].timedOut then i + 1 else i, retryCount, env[1..]).3);
  }

  lemma Regroup(xs: seq<Packet>, ys: seq<Packet>, zs: seq<Packet>)
    ensures xs + (ys + zs) == xs + ys + zs
  {
  }

  lemma ResumeEnded(rounds: nat, out: seq<Packet>, ss: SendState, i: nat, retryCount: nat, env: seq<Episode>)
    requires SendValid(ss) && Harmless(ss, env) && (i >= retryCount || env == [])
    ensures Resume(rounds, out, Approval(ss, i, retryCount, env))
            == (if i >= retryCount then OutOfTries else StillWaiting, ss.status, rounds, out)
  {
    assert out + [] == out;
  }

  lemma ResumeStart(whole: (Outcome, SendStatus, nat, seq<Packet>))
    ensures Resume(0, [], whole) == whole
  {
    assert [] + whole.3 == whole.3;
  }

  /** The rounds of the loop in which a RESEND is acted on, and the try given back. */
  function Resends(ss: SendState, i: nat, retryCount: nat, env: seq<Episode>): nat
    requires SendValid(ss) && Harmless(ss, env)
    decreases |env|
  {
    if i >= retryCount || env == [] then 0
    else
      var ss1 := Absorb(ss, env[0].packets).0;
      var ss2 := ss1.(status := Consume(ss1.status));
      if env[0].timedOut then Resends(ss2, i + 1, retryCount, env[1..])
      else if ss1.status.DataResend? then 1 + Resends(ss2, i, retryCount, env[1..])
      else 0
  }

  /** The loop takes at most one round for each try left and each RESEND acted on, and fewer while
      it still waits. How many RESENDs there can be is a matter of the whole run: see StipRounds. */
  lemma {:induction false} RoundsAreTriesAndResends(ss: SendState, i: nat, retryCount: nat, env: seq<Episode>)
    requires SendValid(ss) && Harmless(ss, env) && i <= retryCount
    ensures var r, most := Approval(ss, i, retryCount, env), retryCount - i + Resends(ss, i, retryCount, env);
            r.2 <= most && (r.0.StillWaiting? ==> r.2 < most)
    decreases |env|
  {
    if i < retryCount && env != [] {
      var ss1 := Absorb(ss, env[0].packets).0;
      var ss2 := ss1.(status := Consume(ss1.status));
      if env[0].timedOut {
        RoundsAreTriesAndResends(ss2, i + 1, retryCount, env[1..]);
      } else if ss1.status.DataResend? {
        RoundsAreTriesAndResends(ss2, i, retryCount, env[1..]);
      }
    }
  }

  // ----- the loop is the sending thread of the step system

  /** The thread of the step system from Ask(i) on, its waits filled by the same episodes: where it
      stands, the session's status and every packet sent. */
  function Drive(ss: SendState, i: nat, env: seq<Episode>): (r: (Pc, SendStatus, seq<Packet>))
    requires SendValid(ss) && Harmless(ss, env)
    decreases |env|
  {
    var (asked, waiting, query) := Advance(ss, Ask(i), false);
    if waiting.Finished? then (waiting, asked.status, query)
    else if env == [] then (Ask(i), ss.status, [])
    else
      var (told, resent) := Absorb(asked, env[0].packets);
      if !CanAdvance(told, waiting, env[0].timedOut) then (waiting, told.status, query + resent)
      else
        var (ss', pc, more) := Advance(told, waiting, env[0].timedOut);
        if pc.Finished? then (pc, ss'.status, query + resent + more)
        else
          var (last, status, rest) := Drive(ss', pc.i, env[1..]);
          (last, status, query + resent + more + rest)
  }

  /** The thread and the loop end alike, with the same status and packets. */
  ghost predicate Agree(d: (Pc, SendStatus, seq<Packet>), r: (Outcome, SendStatus, nat, seq<Packet>)) {
    && d.1 == r.1 && d.2 == r.3
    && (d.0 == Finished(true) <==> r.0.Approved?)
    && (d.0 == Finished(false) <==> r.0.Rejected? || r.0.OutOfTries?)
  }

  /** The session after a round that goes on, and the try it goes on with. */
  function Onward(ss: SendState, i: nat, e: Episode): (r: (SendState, nat))
    requires SendValid(ss) && Servable(ss, e.packets)
    ensures SendValid(r.0) && r.0 == ss.(status := r.0.status)
  {
    var told := Absorb(ss, e.packets).0;
    (told.(status := Consume(told.status)), if e.timedOut then i + 1 else i)
  }

  lemma ThreadGoesOn(ss: SendState, i: nat, env: seq<Episode>)
    requires SendValid(ss) && Harmless(ss, env) && i < APPROVAL_RETRIES && env != []
    requires env[0].timedOut || Absorb(ss, env[0].packets).0.status.DataResend?
    ensures var (ss', next) := Onward(ss, i, env[0]);
            var d := Drive(ss', next, env[1..]);
            Drive(ss, i, env) == (d.0, d.1, [QueryPacket(ss)] + Absorb(ss, env[0].packets).1 + d.2)
  {
    NothingAdded([QueryPacket(ss)] + Absorb(ss, env[0].packets).1);
  }

  lemma NothingAdded(xs: seq<Packet>)
    ensures xs + [] == xs
  {
  }

  lemma LoopGoesOn(ss: SendState, i: nat, env: seq<Episode>)
    requires SendValid(ss) && Harmless(ss, env) && i < APPROVAL_RETRIES && env != []
    requires env[0].timedOut || Absorb(ss, env[0].packets).0.status.DataResend?
    ensures var (ss', next) := Onward(ss, i, env[0]);
            var r := Approval(ss', next, APPROVAL_RETRIES, env[1..]);
            Approval(ss, i, APPROVAL_RETRIES, env)
            == (r.0, r.1, r.2 + 1, [QueryPacket(ss)] + Absorb(ss, env[0].packets).1 + r.3)
  {
  }

  /** A round that is the last, or does not end. */
  lemma RoundStops(ss: SendState, i: nat, env: seq<Episode>)
    requires SendValid(ss) && Harmless(ss, env)
    requires i >= APPROVAL_RETRIES || env == []
             || (!env[0].timedOut && !Absorb(ss, env[0].packets).0.status.DataResend?)
    ensures Agree(Drive(ss, i, env), Approval(ss, i, APPROVAL_RETRIES, env))
  {
    if i < APPROVAL_RETRIES && env != [] {
      var sent := [QueryPacket(ss)] + Absorb(ss, env[0].packets).1;
      assert sent + [] == sent;
    }
  }

  lemma {:induction false} LoopIsThread(ss: SendState, i: nat, env: seq<Episode>)
    requires SendValid(ss) && Harmless(ss, env)
    ensures Agree(Drive(ss, i, env), Approval(ss, i, APPROVAL_RETRIES, env))
    decreases |env|
  {
    if i >= APPROVAL_RETRIES || env == [] {
      RoundStops(ss, i, env);
    } else {
      var told := Absorb(ss, env[0].packets).0;
      if env[0].timedOut || told.status.DataResend? {
        ThreadGoesOn(ss, i, env);
        LoopGoesOn(ss, i, env);
        var (ss', next) := Onward(ss, i, env[0]);
        LoopIsThread(ss', next, env[1..]);
      } else {
        RoundStops(ss, i, env);
      }
    }
  }
}
