/** Runs of the approval loop: with no progress it goes on for ever, and with progress it can take
    every round its bound allows. */
module StipRoundScenarios {
  import opened Wrappers
  import opened StipPackets
  import opened StipSessions
  import opened StipRouting
  import opened StipSystem
  import opened StipTheorems
  import opened StipRounds
  import opened StipScenarios

  // ----- reaching a state with its rounds counted

  /** A state, a number of rounds that session 0 has had at least, and the peer at the last RESEND. */
  datatype Stage = Stage(s: Sys, rounds: nat, last: Option<Peer>)

  /** The run ts ends in stage c. */
  ghost predicate EndsIn(ts: seq<Step>, c: Stage, progress: bool) {
    && Runs(ts) && State(ts) == c.s && Rounds(ts, true, 0) >= c.rounds
    && AtLastResend(ts, true, 0) == c.last && (progress ==> PartsArriveBetween(ts, true, 0))
  }

  ghost predicate Arrived(c: Stage, progress: bool) {
    exists ts :: EndsIn(ts, c, progress)
  }

  ghost predicate MayFollow(c: Stage, t: Step, progress: bool) {
    && SysValid(c.s) && CanStep(c.s, t)
    && (progress && c.last.Some? && ActsOnResend(c.s, t, true, 0) ==> NewPart(c.last.value, c.s.other, 0))
  }

  ghost function Following(c: Stage, t: Step): Stage
    requires SysValid(c.s) && CanStep(c.s, t)
  {
    Stage(After(c.s, t), c.rounds + if EndsWait(c.s, t, true, 0) then 1 else 0,
          if ActsOnResend(c.s, t, true, 0) then Some(c.s.other) else c.last)
  }

  /** No step leads out of the set; with `progress`, none that keeps to the progress. */
  ghost predicate ClosedStages(stages: iset<Stage>, progress: bool) {
    forall c, t {:trigger Following(c, t)} :: c in stages && MayFollow(c, t, progress) ==> Following(c, t) in stages
  }

  ghost function ArrivedStages(progress: bool): iset<Stage> {
    iset c: Stage | Arrived(c, progress)
  }

  lemma RunExtends(ts: seq<Step>, t: Step)
    requires Runs(ts) && CanStep(State(ts), t)
    ensures Runs(ts + [t]) && State(ts + [t]) == After(State(ts), t)
  {
    assert (ts + [t])[..|ts|] == ts;
  }

  lemma CountsExtend(ts: seq<Step>, t: Step)
    requires Runs(ts) && CanStep(State(ts), t) && Runs(ts + [t])
    ensures Rounds(ts + [t], true, 0) == Rounds(ts, true, 0) + if EndsWait(State(ts), t, true, 0) then 1 else 0
    ensures AtLastResend(ts + [t], true, 0)
         == if ActsOnResend(State(ts), t, true, 0) then Some(State(ts).other) else AtLastResend(ts, true, 0)
  {
    assert (ts + [t])[..|ts|] == ts;
    RoundsExtend(ts, t, ts + [t]);
    LastResendExtends(ts, t, ts + [t]);
  }

  lemma RoundsExtend(ts: seq<Step>, t: Step, more: seq<Step>)
    requires Runs(ts) && Runs(more) && |more| == |ts| + 1 && more[..|ts|] == ts && more[|ts|] == t
    ensures Rounds(more, true, 0) == Rounds(ts, true, 0) + if EndsWait(State(ts), t, true, 0) then 1 else 0
  {
  }

  lemma LastResendExtends(ts: seq<Step>, t: Step, more: seq<Step>)
    requires Runs(ts) && Runs(more) && |more| == |ts| + 1 && more[..|ts|] == ts && more[|ts|] == t
    ensures AtLastResend(more, true, 0)
         == if ActsOnResend(State(ts), t, true, 0) then Some(View(State(ts), true).other) else AtLastResend(ts, true, 0)
  {
  }

  lemma ProgressExtends(ts: seq<Step>, t: Step)
    requires Runs(ts) && CanStep(State(ts), t) && Runs(ts + [t]) && PartsArriveBetween(ts, true, 0)
    requires ActsOnResend(State(ts), t, true, 0) && AtLastResend(ts, true, 0).Some? ==>
               NewPart(AtLastResend(ts, true, 0).value, State(ts).other, 0)
    ensures PartsArriveBetween(ts + [t], true, 0)
  {
    assert (ts + [t])[..|ts|] == ts;
  }

  lemma EndExtends(ts: seq<Step>, c: Stage, t: Step, progress: bool)
    requires EndsIn(ts, c, progress) && MayFollow(c, t, progress)
    ensures EndsIn(ts + [t], Following(c, t), progress)
  {
    RunExtends(ts, t);
    CountsExtend(ts, t);
    if progress {
      ProgressExtends(ts, t);
    }
  }

  lemma StageFollows(c: Stage, t: Step, progress: bool)
    requires Arrived(c, progress) && MayFollow(c, t, progress)
    ensures Arrived(Following(c, t), progress)
  {
    var ts :| EndsIn(ts, c, progress);
    EndExtends(ts, c, t, progress);
  }

  lemma ArrivedIsClosed(progress: bool)
    ensures ClosedStages(ArrivedStages(progress), progress)
  {
    forall c, t | c in ArrivedStages(progress) && MayFollow(c, t, progress)
      ensures Following(c, t) in ArrivedStages(progress)
    {
      StageFollows(c, t, progress);
    }
  }

  /** With no RESEND under way, no round is one yet. */
  lemma FirstStage(s: Sys, progress: bool)
    requires Reachable(s) && !ResendUnderWay(s, 0)
    ensures Stage(s, 0, None) in ArrivedStages(progress)
  {
    var ts :| Runs(ts) && State(ts) == s;
    NoneActedOn(ts, true, 0);
    assert EndsIn(ts, Stage(s, 0, None), progress);
  }

  // ----- one RESEND, heard again and again

  /** The RESEND of a peer that misses the first parts of the message, as many as one packet lists. */
  ghost function Listed(msg: seq<byte>): Packet {
    var m := Message(NewSend(0, msg));
    ResendPacket(ReceiverWith(m, Lacking(ReceiverCount(|m|), MostListed(|m|))))
  }

  lemma ListedIsServed(msg: seq<byte>)
    ensures Listed(msg).command.ResponseResend? && Listed(msg).sessionId == 0
    ensures !SendFaults(NewSend(0, msg), Listed(msg))
  {
    var m := Message(NewSend(0, msg));
    var n := ReceiverCount(|m|);
    var marks := Lacking(n, MostListed(|m|));
    CountsDiffer(|m|);
    ResendPacketRoundTrip(ReceiverWith(m, marks));
    MissingIsExact(marks, n);
    forall k | 0 <= k < |Missing(marks, n)| ensures Missing(marks, n)[k] < NewSend(0, msg).packetCounts {
      assert Missing(marks, n)[k] in Missing(marks, n);
    }
  }

  /** The thread waits on its first try, the peer misses the first j parts, and that RESEND is on
      the network. */
  ghost predicate Listening(s: Sys, msg: seq<byte>, j: nat) {
    && Sits(s, msg, Wait(0), DataRequestSent) && s.other == PeerLacking(msg, j)
    && PartsSent(s, msg, 0) && Listed(msg) in s.inc
  }

  lemma PeerAsks(s: Sys, msg: seq<byte>) returns (t: Step)
    requires U32(|msg|) > 0 && Sits(s, msg, Wait(0), DataRequestSent) && PartsSent(s, msg, 0)
    requires s.other == PeerLacking(msg, MostListed(U32(|msg|))) && QueryPacket(NewSend(0, msg)) in s.out
    ensures !t.mine && CanStep(s, t) && Listening(After(s, t), msg, MostListed(U32(|msg|)))
  {
    var m := Message(NewSend(0, msg));
    var n := ReceiverCount(|m|);
    CountsDiffer(|m|);
    LackingCount(n, MostListed(|m|));
    var rs := ReceiverWith(m, Lacking(n, MostListed(|m|)));
    t := Step(false, Deliver(QueryPacket(NewSend(0, msg)), []));
    ListIsSent(rs, QueryPacket(NewSend(0, msg)));
    assert Listed(msg) == [ResendPacket(rs)][0];
  }

  lemma ListIsSent(rs: RecvState, p: Packet)
    requires RecvValid(rs) && rs.id == 0 && 0 < CountFalse(rs.received) <= LIST_LIMIT
    requires p == ReplyPacket(RequestAllReceived, 0)
    ensures var c := Conn(map[0 := Receiving(rs)], []);
            && ConnValid(c) && !ConnFaults(c, p) && ConnStep(c, p, []) == (c, [ResendPacket(rs)])
  {
    assert map[0 := Receiving(rs)][0 := Receiving(rs)] == map[0 := Receiving(rs)];
  }

  lemma ThreadHears(s: Sys, msg: seq<byte>, j: nat) returns (t: Step)
    requires Listening(s, msg, j)
    ensures t.mine && t.act.Deliver? && CanStep(s, t) && Sits(After(s, t), msg, Wait(0), DataResend)
    ensures After(s, t).other == s.other && After(s, t).inc == s.inc && s.out <= After(s, t).out
  {
    ListedIsServed(msg);
    t := Step(true, Deliver(Listed(msg), []));
    assert After(s, t).me.conn.sessions == map[0 := Sending(NewSend(0, msg).(status := DataResend))];
  }

  lemma ThreadActs(s: Sys, msg: seq<byte>) returns (t: Step)
    requires Sits(s, msg, Wait(0), DataResend)
    ensures CanStep(s, t) && EndsWait(s, t, true, 0) && ActsOnResend(s, t, true, 0)
    ensures Sits(After(s, t), msg, Ask(0), DataRequestSent)
    ensures After(s, t).other == s.other && After(s, t).inc == s.inc && s.out <= After(s, t).out
  {
    ThreadMoves(s, msg, Wait(0), DataResend, false);
    t := Step(true, Act.Progress(0, false));
  }

  lemma ThreadAsks(s: Sys, msg: seq<byte>, i: nat, status: SendStatus) returns (t: Step)
    requires Sits(s, msg, Ask(i), status) && i < APPROVAL_RETRIES
    ensures CanStep(s, t) && !EndsWait(s, t, true, 0) && Sits(After(s, t), msg, Wait(i), status)
    ensures After(s, t).other == s.other && After(s, t).inc == s.inc && s.out <= After(s, t).out
  {
    ThreadMoves(s, msg, Ask(i), status, false);
    t := Step(true, Act.Progress(0, false));
  }

  /** A round: the RESEND is heard, acted on, and the question asked again, on the same try. */
  lemma ResendRound(stages: iset<Stage>, progress: bool, c: Stage, msg: seq<byte>, j: nat) returns (c': Stage)
    requires ClosedStages(stages, progress) && c in stages && Listening(c.s, msg, j)
    requires progress && c.last.Some? ==> NewPart(c.last.value, c.s.other, 0)
    ensures c' in stages && Listening(c'.s, msg, j)
    ensures c'.s.other == c.s.other && c'.rounds == c.rounds + 1 && c'.last == Some(c.s.other)
  {
    var t1 := ThreadHears(c.s, msg, j);
    assert MayFollow(c, t1, progress);
    var c1 := Following(c, t1);
    var t2 := ThreadActs(c1.s, msg);
    assert MayFollow(c1, t2, progress);
    var c2 := Following(c1, t2);
    var t3 := ThreadAsks(c2.s, msg, 0, DataRequestSent);
    assert MayFollow(c2, t3, progress);
    c' := Following(c2, t3);
  }

  // ----- up to the first RESEND

  /** The peer receives the parts from the last down to those it will list. */
  lemma {:induction false} PartsUpTo(stages: iset<Stage>, progress: bool, c: Stage, msg: seq<byte>, j: nat, to: nat)
    returns (c': Stage)
    requires ClosedStages(stages, progress) && c in stages && Sits(c.s, msg, Wait(0), DataRequestSent)
    requires PartsSent(c.s, msg, 0) && c.s.other == PeerLacking(msg, j) && to <= j <= ReceiverCount(U32(|msg|))
    ensures c' in stages && Sits(c'.s, msg, Wait(0), DataRequestSent) && c'.s.other == PeerLacking(msg, to)
    ensures c'.s.out == c.s.out && c'.s.inc == c.s.inc && c'.rounds == c.rounds && c'.last == c.last
    decreases j
  {
    c' := c;
    if to < j {
      var t := PartArrives(c.s, msg, j, Wait(0), DataRequestSent);
      assert MayFollow(c, t, progress);
      c' := PartsUpTo(stages, progress, Following(c, t), msg, j - 1, to);
    }
  }

  lemma Begun(msg: seq<byte>, progress: bool) returns (c: Stage)
    ensures c in ArrivedStages(progress) && FirstWait(c.s, msg) && c.rounds == 0 && c.last == None
  {
    ReachableIsClosed();
    var s := Asked(ReachableStates(), msg);
    FirstStage(s, progress);
    c := Stage(s, 0, None);
  }

  lemma ListeningReached(msg: seq<byte>, progress: bool) returns (c: Stage)
    requires U32(|msg|) > 0
    ensures c in ArrivedStages(progress) && Listening(c.s, msg, MostListed(U32(|msg|))) && c.rounds == 0 && c.last == None
  {
    var begun := Begun(msg, progress);
    ArrivedIsClosed(progress);
    CountsDiffer(U32(|msg|));
    c := PartsUpTo(ArrivedStages(progress), progress, begun, msg, ReceiverCount(U32(|msg|)), MostListed(U32(|msg|)));
    var t := PeerAsks(c.s, msg);
    assert MayFollow(c, t, progress);
    c := Following(c, t);
  }

  // ----- without progress

  lemma {:induction false} ManyRounds(stages: iset<Stage>, begun: Stage, msg: seq<byte>, j: nat, n: nat)
    returns (c: Stage)
    requires ClosedStages(stages, false) && begun in stages && Listening(begun.s, msg, j) && begun.rounds == 0
    ensures c in stages && Listening(c.s, msg, j) && c.rounds == n
  {
    c := begun;
    if n > 0 {
      c := ManyRounds(stages, begun, msg, j, n - 1);
      c := ResendRound(stages, false, c, msg, j);
    }
  }

  /** Without progress there is no bound: for every message that is not empty and every n there is
      a run with n rounds whose thread is still on its first try. */
  lemma ApprovalUnbounded(msg: seq<byte>, n: nat)
    requires U32(|msg|) > 0
    ensures exists ts :: Runs(ts) && !State(ts).faulted && State(ts).me.sent == map[0 := msg]
                         && State(ts).me.pcs == map[0 := Wait(0)] && Rounds(ts, true, 0) >= n
  {
    ArrivedIsClosed(false);
    var begun := ListeningReached(msg, false);
    var c := ManyRounds(ArrivedStages(false), begun, msg, MostListed(U32(|msg|)), n);
    var ts :| EndsIn(ts, c, false);
  }

  /** The run ts gives msg to session x, and that session takes more rounds than it has tries. */
  ghost predicate OutlastsTries(ts: seq<Step>, mine: bool, x: nat, msg: seq<byte>) {
    && Runs(ts) && x in View(State(ts), mine).me.sent && View(State(ts), mine).me.sent[x] == msg
    && Rounds(ts, mine, x) > APPROVAL_RETRIES
  }

  /** The tries bound the rounds exactly for messages whose 32-bit size is zero. */
  lemma TriesBoundExactlyWhenEmpty(msg: seq<byte>)
    ensures (exists ts, mine, x :: OutlastsTries(ts, mine, x, msg)) <==> U32(|msg|) > 0
  {
    if U32(|msg|) > 0 {
      ApprovalUnbounded(msg, APPROVAL_RETRIES + 1);
      var ts :| Runs(ts) && State(ts).me.sent == map[0 := msg] && Rounds(ts, true, 0) >= APPROVAL_RETRIES + 1;
      assert OutlastsTries(ts, true, 0, msg);
    } else {
      forall ts, mine, x | Runs(ts) ensures !OutlastsTries(ts, mine, x, msg) {
        if OutlastsTries(ts, mine, x, msg) {
          EmptyNeedsOnlyTries(ts, mine, x);
        }
      }
    }
  }

  // ----- with progress, every round there can be

  lemma FewerIsNew(msg: seq<byte>, j: nat)
    requires 1 <= j <= ReceiverCount(U32(|msg|))
    ensures NewPart(PeerLacking(msg, j), PeerLacking(msg, j - 1), 0)
  {
    var n := ReceiverCount(U32(|msg|));
    assert !Lacking(n, j)[j - 1] && Lacking(n, j - 1)[j - 1];
  }

  /** i parts of those listed have arrived, one before each RESEND after the first. */
  lemma {:induction false} OneByOne(stages: iset<Stage>, begun: Stage, msg: seq<byte>, i: nat) returns (c: Stage)
    requires ClosedStages(stages, true) && begun in stages && Listening(begun.s, msg, MostListed(U32(|msg|)))
    requires begun.rounds == 0 && begun.last == None && i <= MostListed(U32(|msg|))
    ensures c in stages && Listening(c.s, msg, MostListed(U32(|msg|)) - i)
    ensures c.rounds == i + 1 && c.last == Some(c.s.other)
  {
    if i == 0 {
      c := ResendRound(stages, true, begun, msg, MostListed(U32(|msg|)));
    } else {
      var j := MostListed(U32(|msg|)) - i;
      var before := OneByOne(stages, begun, msg, i - 1);
      c := PartThenRound(stages, before, msg, j);
    }
  }

  lemma PartThenRound(stages: iset<Stage>, c: Stage, msg: seq<byte>, j: nat) returns (c': Stage)
    requires ClosedStages(stages, true) && c in stages && Listening(c.s, msg, j + 1) && c.last == Some(c.s.other)
    requires j + 1 <= ReceiverCount(U32(|msg|))
    ensures c' in stages && Listening(c'.s, msg, j) && c'.rounds == c.rounds + 1 && c'.last == Some(c'.s.other)
  {
    var c1 := OnePart(stages, c, msg, j);
    c' := ResendRound(stages, true, c1, msg, j);
  }

  lemma OnePart(stages: iset<Stage>, c: Stage, msg: seq<byte>, j: nat) returns (c': Stage)
    requires ClosedStages(stages, true) && c in stages && Listening(c.s, msg, j + 1)
    requires j + 1 <= ReceiverCount(U32(|msg|))
    ensures c' in stages && Listening(c'.s, msg, j) && c'.rounds == c.rounds && c'.last == c.last
    ensures NewPart(c.s.other, c'.s.other, 0)
  {
    var t := PartArrives(c.s, msg, j + 1, Wait(0), DataRequestSent);
    FewerIsNew(msg, j + 1);
    c' := PeerStep(stages, c, t);
  }

  /** A step of the peer is no round. */
  lemma PeerStep(stages: iset<Stage>, c: Stage, t: Step) returns (c': Stage)
    requires ClosedStages(stages, true) && c in stages && !t.mine && SysValid(c.s) && CanStep(c.s, t)
    ensures c' in stages && c'.s == After(c.s, t) && c'.rounds == c.rounds && c'.last == c.last
  {
    assert MayFollow(c, t, true);
    c' := Following(c, t);
  }

  /** The wait of try i expires. */
  lemma TryExpires(stages: iset<Stage>, c: Stage, msg: seq<byte>, i: nat) returns (c': Stage)
    requires ClosedStages(stages, true) && c in stages && Sits(c.s, msg, Wait(i), DataRequestSent)
    ensures c' in stages && Sits(c'.s, msg, Ask(i + 1), DataRequestSent) && c'.rounds == c.rounds + 1
  {
    ThreadMoves(c.s, msg, Wait(i), DataRequestSent, true);
    var t := Step(true, Act.Progress(0, true));
    assert MayFollow(c, t, true);
    c' := Following(c, t);
  }

  /** From try i on, every wait expires. */
  lemma {:induction false} AllExpire(stages: iset<Stage>, c: Stage, msg: seq<byte>, i: nat) returns (c': Stage)
    requires ClosedStages(stages, true) && c in stages && i < APPROVAL_RETRIES
    requires Sits(c.s, msg, Wait(i), DataRequestSent)
    ensures c' in stages && c'.rounds == c.rounds + APPROVAL_RETRIES - i
    ensures Sits(c'.s, msg, Ask(APPROVAL_RETRIES), DataRequestSent)
    decreases APPROVAL_RETRIES - i
  {
    c' := TryExpires(stages, c, msg, i);
    if i + 1 < APPROVAL_RETRIES {
      var t := ThreadAsks(c'.s, msg, i + 1, DataRequestSent);
      assert MayFollow(c', t, true);
      c' := AllExpire(stages, Following(c', t), msg, i + 1);
    }
  }

  lemma AllRounds(msg: seq<byte>) returns (c: Stage)
    ensures c in ArrivedStages(true) && Sits(c.s, msg, Ask(APPROVAL_RETRIES), DataRequestSent)
    ensures c.rounds == MostRounds(U32(|msg|))
  {
    ArrivedIsClosed(true);
    if U32(|msg|) > 0 {
      c := ListeningReached(msg, true);
      c := OneByOne(ArrivedStages(true), c, msg, MostListed(U32(|msg|)));
    } else {
      c := Begun(msg, true);
    }
    c := AllExpire(ArrivedStages(true), c, msg, 0);
  }

  /** The bound is reached: for every message there is a run with progress that takes exactly as many
      rounds as it allows. */
  lemma RoundsReached(msg: seq<byte>)
    ensures exists ts :: Runs(ts) && PartsArriveBetween(ts, true, 0) && State(ts).me.sent == map[0 := msg]
                         && Rounds(ts, true, 0) == MostRounds(U32(|msg|))
  {
    var c := AllRounds(msg);
    var ts :| EndsIn(ts, c, true);
    ApprovalTerminates(ts, true, 0);
  }
}
