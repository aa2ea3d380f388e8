/** The sender's loop that announces the message until the peer answers. Each try marks the request
    as sent, sends it, and only then resets the status and waits: an answer that comes before the
    reset is lost. */
module StipInvitation {
  import opened Wrappers
  import opened StipPackets
  import opened StipSessions
  import opened StipApproval

  /** What arrives in one try, before the status is reset and after, and whether the wait expires. */
  datatype Attempt = Attempt(early: seq<Packet>, packets: seq<Packet>, timedOut: bool)

  datatype Answer = Accepted | Refused | NoAnswer | Pending

  predicate Peaceful(ss: SendState, env: seq<Attempt>) {
    forall k :: 0 <= k < |env| ==> Servable(ss, env[k].early) && Servable(ss, env[k].packets)
  }

  /** The session at the end of one try, and every packet sent in it. */
  function Try(ss: SendState, a: Attempt): (r: (SendState, seq<Packet>))
    requires SendValid(ss) && Servable(ss, a.early) && Servable(ss, a.packets)
    ensures SendValid(r.0) && r.0 == ss.(status := r.0.status)
  {
    var (early, out1) := Absorb(ss.(status := InitRequestSent), a.early);
    var (told, out2) := Absorb(early.(status := Init), a.packets);
    (told, [InitPacket(ss)] + out1 + out2)
  }

  /** The loop from try i on: how it ends, the last status, the tries made, and all packets sent. */
  function Invite(ss: SendState, i: nat, retryCount: nat, env: seq<Attempt>)
    : (r: (Answer, SendStatus, nat, seq<Packet>))
    requires SendValid(ss) && Peaceful(ss, env)
    decreases |env|
  {
    if i >= retryCount then (NoAnswer, ss.status, 0, [])
    else if env == [] then (Pending, ss.status, 0, [])
    else
      var (told, sent) := Try(ss, env[0]);
      if env[0].timedOut then
        var (answer, status, tries, rest) := Invite(told, i + 1, retryCount, env[1..]);
        (answer, status, tries + 1, sent + rest)
      else if told.status.InitSuccess? then (Accepted, told.status, 1, sent)
      else if told.status.InitFailure? then (Refused, told.status, 1, sent)
      else (Pending, told.status, 0, sent)
  }

  /** The whole loop's result, from where it stands after `tries` tries. */
  ghost function Continue(tries: nat, out: seq<Packet>, rest: (Answer, SendStatus, nat, seq<Packet>))
    : (Answer, SendStatus, nat, seq<Packet>)
  {
    (rest.0, rest.1, tries + rest.2, out + rest.3)
  }

  lemma ContinueTry(i: nat, out: seq<Packet>, ss: SendState, retryCount: nat, env: seq<Attempt>)
    requires SendValid(ss) && Peaceful(ss, env) && i < |env| && i < retryCount
    ensures var (told, sent) := Try(ss, env[i]);
            Continue(i, out, Invite(ss, i, retryCount, env[i..]))
            == if env[i].timedOut then Continue(i + 1, out + sent, Invite(told, i + 1, retryCount, env[i + 1..]))
               else if told.status.InitSuccess? then (Accepted, told.status, i + 1, out + sent)
               else if told.status.InitFailure? then (Refused, told.status, i + 1, out + sent)
               else (Pending, told.status, i, out + sent)
  {
    var rest := env[i..];
    assert rest[0] == env[i] && rest[1..] == env[i + 1..];
    FirstTry(i, out, ss, retryCount, rest);
  }

  lemma FirstTry(i: nat, out: seq<Packet>, ss: SendState, retryCount: nat, env: seq<Attempt>)
    requires SendValid(ss) && Peaceful(ss, env) && env != [] && i < retryCount
    ensures var (told, sent) := Try(ss, env[0]);
            Continue(i, out, Invite(ss, i, retryCount, env))
            == if env[0].timedOut then Continue(i + 1, out + sent, Invite(told, i + 1, retryCount, env[1..]))
               else if told.status.InitSuccess? then (Accepted, told.status, i + 1, out + sent)
               else if told.status.InitFailure? then (Refused, told.status, i + 1, out + sent)
               else (Pending, told.status, i, out + sent)
  {
    var (told, sent) := Try(ss, env[0]);
    Regroup(out, sent, Invite(told, i + 1, retryCount, env[1..]).3);
  }

  lemma ContinueEnded(i: nat, out: seq<Packet>, ss: SendState, retryCount: nat, env: seq<Attempt>)
    requires SendValid(ss) && Peaceful(ss, env) && (i >= retryCount || env == [])
    ensures Continue(i, out, Invite(ss, i, retryCount, env))
            == (if i >= retryCount then NoAnswer else Pending, ss.status, i, out)
  {
    assert out + [] == out;
  }

  lemma ContinueStart(whole: (Answer, SendStatus, nat, seq<Packet>))
    ensures Continue(0, [], whole) == whole
  {
    assert [] + whole.3 == whole.3;
  }

  // ----- which answers count

  /** The status a packet sets, whatever the status was. */
  function Verdict(p: Packet): Option<SendStatus> {
    match p.command
    case InitResponseSuccess => Some(InitSuccess)
    case InitResponseFailure => Some(InitFailure)
    case ResponseResend => Some(DataResend)
    case ResponseAllReceived => Some(DataSuccess)
    case _ => None
  }

  ghost predicate Silent(ps: seq<Packet>) {
    forall l :: 0 <= l < |ps| ==> Verdict(ps[l]).None?
  }

  /** The last packet that sets the status sets it to v. */
  ghost predicate LastVerdict(ps: seq<Packet>, v: SendStatus) {
    exists j :: 0 <= j < |ps| && Verdict(ps[j]) == Some(v) && Silent(ps[j + 1..])
  }

  lemma LastVerdictFirst(ps: seq<Packet>, v: SendStatus)
    requires ps != []
    ensures LastVerdict(ps, v) <==> LastVerdict(ps[1..], v) || (Verdict(ps[0]) == Some(v) && Silent(ps[1..]))
    ensures Silent(ps) <==> Verdict(ps[0]).None? && Silent(ps[1..])
  {
    var rest := ps[1..];
    assert forall l :: 1 <= l < |ps| ==> ps[l] == rest[l - 1];
    if j :| 0 <= j < |rest| && Verdict(rest[j]) == Some(v) && Silent(rest[j + 1..]) {
      assert rest[j + 1..] == ps[j + 2..];
      assert Verdict(ps[j + 1]) == Some(v);
    }
    if j :| 0 <= j < |ps| && Verdict(ps[j]) == Some(v) && Silent(ps[j + 1..]) {
      if j > 0 {
        assert rest[j..] == ps[j + 1..];
        assert Verdict(rest[j - 1]) == Some(v);
      }
    }
  }

  lemma {:induction false} AbsorbedVerdict(ss: SendState, ps: seq<Packet>, v: SendStatus)
    requires SendValid(ss) && Servable(ss, ps)
    ensures Absorb(ss, ps).0.status == v <==> LastVerdict(ps, v) || (ss.status == v && Silent(ps))
    decreases |ps|
  {
    if ps != [] {
      AbsorbedVerdict(SendStep(ss, ps[0]).0, ps[1..], v);
      LastVerdictFirst(ps, v);
    }
  }

  /** After the reset, success is what the last answer of the wait says. */
  lemma TryVerdict(ss: SendState, a: Attempt, v: SendStatus)
    requires SendValid(ss) && Servable(ss, a.early) && Servable(ss, a.packets) && v != Init
    ensures Try(ss, a).0.status == v <==> LastVerdict(a.packets, v)
  {
    var early := Absorb(ss.(status := InitRequestSent), a.early).0;
    AbsorbedVerdict(early.(status := Init), a.packets, v);
  }

  /** Try k is reached, and its wait ends with the answer v. */
  ghost predicate AnswersAt(env: seq<Attempt>, k: nat, v: SendStatus) {
    k < |env| && (forall j :: 0 <= j < k ==> env[j].timedOut) && !env[k].timedOut && LastVerdict(env[k].packets, v)
  }

  /** The peer's confirmation counts exactly when it is the last answer after the reset of a try
      that does not expire, every earlier try having expired; and a refusal likewise. */
  lemma AcceptedExactly(ss: SendState, i: nat, retryCount: nat, env: seq<Attempt>)
    requires SendValid(ss) && Peaceful(ss, env)
    ensures var answer := Invite(ss, i, retryCount, env).0;
            && (answer.Accepted? <==> exists k: nat :: i + k < retryCount && AnswersAt(env, k, InitSuccess))
            && (answer.Refused? <==> exists k: nat :: i + k < retryCount && AnswersAt(env, k, InitFailure))
  {
    AnsweredExactly(ss, i, retryCount, env, InitSuccess);
    AnsweredExactly(ss, i, retryCount, env, InitFailure);
  }

  lemma {:induction false} AnsweredExactly(ss: SendState, i: nat, retryCount: nat, env: seq<Attempt>, v: SendStatus)
    requires SendValid(ss) && Peaceful(ss, env) && (v == InitSuccess || v == InitFailure)
    ensures Invite(ss, i, retryCount, env).0 == (if v == InitSuccess then Accepted else Refused)
       <==> exists k: nat :: i + k < retryCount && AnswersAt(env, k, v)
    decreases |env|
  {
    if i < retryCount && env != [] {
      if env[0].timedOut {
        AnsweredExactly(Try(ss, env[0]).0, i + 1, retryCount, env[1..], v);
        LaterTry(env, i, retryCount, v);
      } else {
        TryVerdict(ss, env[0], v);
        assert AnswersAt(env, 0, v) <==> LastVerdict(env[0].packets, v);
        assert forall k: nat :: AnswersAt(env, k, v) ==> k == 0;
        assert i + 0 < retryCount;
      }
    }
  }

  lemma LaterTry(env: seq<Attempt>, i: nat, retryCount: nat, v: SendStatus)
    requires env != [] && env[0].timedOut
    ensures (exists k: nat :: i + k < retryCount && AnswersAt(env, k, v))
       <==> (exists k: nat :: i + 1 + k < retryCount && AnswersAt(env[1..], k, v))
  {
    var rest := env[1..];
    if k: nat :| i + 1 + k < retryCount && AnswersAt(rest, k, v) {
      assert forall j :: 1 <= j < |env| ==> env[j] == rest[j - 1];
      assert AnswersAt(env, k + 1, v) && i + (k + 1) < retryCount;
    }
    if k: nat :| i + k < retryCount && AnswersAt(env, k, v) {
      assert k > 0;
      assert forall j :: 0 <= j < |rest| ==> rest[j] == env[j + 1];
      assert AnswersAt(rest, k - 1, v) && i + 1 + (k - 1) < retryCount;
    }
  }

  /** Only what arrives after the reset decides: with any other early packets the loop ends the
      same way, with the same status, after as many tries. */
  lemma {:induction false} EarlyAnswersAreLost(ss: SendState, i: nat, retryCount: nat, env: seq<Attempt>,
                                               other: seq<Attempt>)
    requires SendValid(ss) && Peaceful(ss, env) && Peaceful(ss, other) && |env| == |other|
    requires forall k :: 0 <= k < |env| ==> other[k] == env[k].(early := other[k].early)
    ensures var a, b := Invite(ss, i, retryCount, env), Invite(ss, i, retryCount, other);
            a.0 == b.0 && a.1 == b.1 && a.2 == b.2
    decreases |env|
  {
    if i < retryCount && env != [] {
      var told := Try(ss, env[0]).0;
      assert Try(ss, other[0]).0 == told;
      if env[0].timedOut {
        EarlyAnswersAreLost(told, i + 1, retryCount, env[1..], other[1..]);
      }
    }
  }

  /** The loop makes at most the tries it has, and gives up exactly when every one of them expired. */
  lemma {:induction false} TriesBounded(ss: SendState, i: nat, retryCount: nat, env: seq<Attempt>)
    requires SendValid(ss) && Peaceful(ss, env) && i <= retryCount
    ensures Invite(ss, i, retryCount, env).2 <= retryCount - i
    ensures Invite(ss, i, retryCount, env).0.NoAnswer? <==>
            |env| >= retryCount - i && forall k :: 0 <= k < retryCount - i ==> env[k].timedOut
    decreases |env|
  {
    if i < retryCount && env != [] && env[0].timedOut {
      var told := Try(ss, env[0]).0;
      TriesBounded(told, i + 1, retryCount, env[1..]);
      var late := env[1..];
      assert forall k :: 1 <= k < |env| ==> env[k] == late[k - 1];
      assert forall k :: 0 <= k < |late| ==> late[k] == env[k + 1];
    }
  }

  /** The thread of the step system from InitAsk(i) on, with the same arrivals. */
  function DriveInit(ss: SendState, i: nat, env: seq<Attempt>): (r: (Pc, SendStatus, seq<Packet>))
    requires SendValid(ss) && Peaceful(ss, env)
    decreases |env|
  {
    var (asked, marking, packets) := Advance(ss, InitAsk(i), false);
    if marking.Finished? then (marking, asked.status, packets)
    else if env == [] then (InitAsk(i), ss.status, [])
    else
      var (early, out1) := Absorb(asked, env[0].early);
      var (marked, waiting, none) := Advance(early, marking, false);
      var (told, out2) := Absorb(marked, env[0].packets);
      var sent := packets + out1 + none + out2;
      if !CanAdvance(told, waiting, env[0].timedOut) then (waiting, told.status, sent)
      else
        var (ss', pc, more) := Advance(told, waiting, env[0].timedOut);
        if pc.InitAsk? then
          var (last, status, rest) := DriveInit(ss', pc.i, env[1..]);
          (last, status, sent + more + rest)
        else (pc, ss'.status, sent + more)
  }

  /** One try of the thread. */
  lemma ThreadTry(ss: SendState, i: nat, env: seq<Attempt>)
    requires SendValid(ss) && Peaceful(ss, env) && i < INIT_RETRIES && env != []
    ensures var (told, sent) := Try(ss, env[0]);
            DriveInit(ss, i, env)
            == if env[0].timedOut then
                 var d := DriveInit(told, i + 1, env[1..]); (d.0, d.1, sent + d.2)
               else if told.status.InitSuccess? then (DataStart, told.status, sent)
               else if told.status.InitFailure? then (Finished(false), told.status, sent)
               else (InitWait(i), told.status, sent)
  {
    var (early, out1) := Absorb(ss.(status := InitRequestSent), env[0].early);
    var out2 := Absorb(early.(status := Init), env[0].packets).1;
    NothingAdded([InitPacket(ss)] + out1, out2);
  }

  lemma NothingAdded(xs: seq<Packet>, ys: seq<Packet>)
    ensures xs + [] + ys == xs + ys && xs + ys + [] == xs + ys
  {
  }

  /** The thread and the loop end alike, with the same status and packets. */
  ghost predicate Agree(d: (Pc, SendStatus, seq<Packet>), r: (Answer, SendStatus, nat, seq<Packet>)) {
    && d.1 == r.1 && d.2 == r.3
    && (d.0 == DataStart <==> r.0.Accepted?)
    && (d.0 == Finished(false) <==> r.0.Refused? || r.0.NoAnswer?)
  }

  lemma {:induction false} InitLoopIsThread(ss: SendState, i: nat, env: seq<Attempt>)
    requires SendValid(ss) && Peaceful(ss, env)
    ensures Agree(DriveInit(ss, i, env), Invite(ss, i, INIT_RETRIES, env))
    decreases |env|
  {
    if i < INIT_RETRIES && env != [] {
      ThreadTry(ss, i, env);
      if env[0].timedOut {
        InitLoopIsThread(Try(ss, env[0]).0, i + 1, env[1..]);
      }
    }
  }
}
