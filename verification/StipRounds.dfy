/** How often the sending thread asks whether everything arrived, counted over the runs of the two
    peers. A RESEND gives the try back, so the number of tries alone is no bound. */
module StipRounds {
  import opened Wrappers
  import opened StipPackets
  import opened StipSessions
  import opened StipRouting
  import opened StipSystem
  import opened StipInvariant
  import opened StipTheorems

  // ----- rounds of a run

  /** The step ends a wait for the answer: the wait expires, or the thread acts on an answer. */
  ghost predicate EndsWait(s: Sys, t: Step, mine: bool, x: nat) {
    var me := View(s, mine).me;
    t.mine == mine && t.act.Progress? && t.act.id == x && x in me.pcs && me.pcs[x].Wait?
  }

  ghost predicate HasHeardResend(c: Conn, x: nat) {
    IsSending(c, x) && c.sessions[x].send.status.DataResend?
  }

  /** The thread acts on a RESEND, and the try is given back. */
  ghost predicate ActsOnResend(s: Sys, t: Step, mine: bool, x: nat) {
    EndsWait(s, t, mine, x) && !t.act.timeout && HasHeardResend(View(s, mine).me.conn, x)
  }

  ghost function Rounds(ts: seq<Step>, mine: bool, x: nat): nat
    requires Runs(ts)
  {
    if ts == [] then 0
    else
      var before, t := ts[..|ts| - 1], ts[|ts| - 1];
      Rounds(before, mine, x) + if EndsWait(State(before), t, mine, x) then 1 else 0
  }

  ghost function ResendRounds(ts: seq<Step>, mine: bool, x: nat): nat
    requires Runs(ts)
  {
    if ts == [] then 0
    else
      var before, t := ts[..|ts| - 1], ts[|ts| - 1];
      ResendRounds(before, mine, x) + if ActsOnResend(State(before), t, mine, x) then 1 else 0
  }

  /** The peer as it was when a RESEND was last acted on. */
  ghost function AtLastResend(ts: seq<Step>, mine: bool, x: nat): Option<Peer>
    requires Runs(ts)
  {
    if ts == [] then None
    else
      var before, t := ts[..|ts| - 1], ts[|ts| - 1];
      if ActsOnResend(State(before), t, mine, x) then Some(View(State(before), mine).other)
      else AtLastResend(before, mine, x)
  }

  /** Between r and r' the peer has received a part of session x that it did not have. */
  ghost predicate NewPart(r: Peer, r': Peer, x: nat) {
    && IsReceiving(r.conn, x) && IsReceiving(r'.conn, x)
    && var marks, marks' := r.conn.sessions[x].recv.received, r'.conn.sessions[x].recv.received;
       exists i :: 0 <= i < |marks| && i < |marks'| && !marks[i] && marks'[i]
  }

  /** Whenever the thread acts on a RESEND, the peer has newly received a part since the thread
      last acted on one. The RESEND itself may be old, repeated or overtaken. */
  ghost predicate PartsArriveBetween(ts: seq<Step>, mine: bool, x: nat)
    requires Runs(ts)
  {
    ts == [] ||
    var before, t := ts[..|ts| - 1], ts[|ts| - 1];
    && PartsArriveBetween(before, mine, x)
    && (ActsOnResend(State(before), t, mine, x) && AtLastResend(before, mine, x).Some? ==>
          NewPart(AtLastResend(before, mine, x).value, View(State(before), mine).other, x))
  }

  // ----- every round uses up a try or is a RESEND

  ghost predicate Tally(me: Peer, x: nat, rounds: nat, resends: nat) {
    if x in me.pcs then
      match me.pcs[x]
      case Ask(i) => rounds == i + resends && i <= APPROVAL_RETRIES
      case Wait(i) => rounds == i + resends && i < APPROVAL_RETRIES
      case Finished(_) => rounds <= APPROVAL_RETRIES + resends
      case _ => rounds == 0 && resends == 0
    else if x in me.sent then rounds <= APPROVAL_RETRIES + resends
    else rounds == 0 && resends == 0
  }

  lemma ActKeepsTally(s: Sys, a: Act, x: nat, rounds: nat, resends: nat)
    requires Inv(s) && CanAct(s, a) && Tally(s.me, x, rounds, resends)
    ensures var t := Step(true, a);
            Tally(Apply(s, a).me, x, rounds + if EndsWait(s, t, true, x) then 1 else 0,
                  resends + if ActsOnResend(s, t, true, x) then 1 else 0)
  {
    assert Half(s.me, s.other, s.out, s.inc);
    match a
    case Progress(id, timeout) =>
      if id == x {
        ThreadKeepsTally(s.me, Apply(s, a).me, x, timeout, rounds, resends);
      }
    case _ =>
  }

  lemma ThreadKeepsTally(me: Peer, me': Peer, x: nat, timeout: bool, rounds: nat, resends: nat)
    requires x in me.pcs && IsSending(me.conn, x) && Tally(me, x, rounds, resends)
    requires var ss := me.conn.sessions[x].send;
             SendValid(ss) && CanAdvance(ss, me.pcs[x], timeout)
             && me'.pcs == me.pcs[x := Advance(ss, me.pcs[x], timeout).1]
    ensures var acts := !timeout && me.conn.sessions[x].send.status.DataResend?;
            Tally(me', x, rounds + if me.pcs[x].Wait? then 1 else 0, resends + if me.pcs[x].Wait? && acts then 1 else 0)
  {
  }

  lemma StepKeepsTally(s: Sys, t: Step, mine: bool, x: nat, rounds: nat, resends: nat)
    requires Inv(s) && CanStep(s, t) && Tally(View(s, mine).me, x, rounds, resends)
    ensures Tally(View(After(s, t), mine).me, x, rounds + if EndsWait(s, t, mine, x) then 1 else 0,
                  resends + if ActsOnResend(s, t, mine, x) then 1 else 0)
  {
    if t.mine == mine {
      ViewKeepsInv(s, mine);
      ActKeepsTally(View(s, mine), t.act, x, rounds, resends);
    } else {
      assert View(After(s, t), mine).me == View(s, mine).me;
    }
  }

  lemma {:induction false} RoundsTally(ts: seq<Step>, mine: bool, x: nat)
    requires Runs(ts)
    ensures Tally(View(State(ts), mine).me, x, Rounds(ts, mine, x), ResendRounds(ts, mine, x))
  {
    if ts != [] {
      var before := ts[..|ts| - 1];
      RoundsTally(before, mine, x);
      Invariant(before);
      StepKeepsTally(State(before), ts[|ts| - 1], mine, x, Rounds(before, mine, x), ResendRounds(before, mine, x));
    }
  }

  /** In every run the rounds of a session are at most the tries and the RESENDs acted on. */
  lemma RoundsAreTriesAndResends(ts: seq<Step>, mine: bool, x: nat)
    requires Runs(ts)
    ensures Rounds(ts, mine, x) <= APPROVAL_RETRIES + ResendRounds(ts, mine, x)
  {
    RoundsTally(ts, mine, x);
  }

  // ----- marks only grow along a run

  /** r' is r some steps later, as far as session x is concerned. */
  ghost predicate PeerGrown(r: Peer, r': Peer, x: nat) {
    IsReceiving(r.conn, x) ==>
      IsReceiving(r'.conn, x) && Grown(r.conn.sessions[x].recv, r'.conn.sessions[x].recv)
  }

  lemma ActGrows(s: Sys, a: Act, x: nat)
    requires Inv(s) && CanAct(s, a)
    ensures PeerGrown(s.me, Apply(s, a).me, x)
  {
    assert Half(s.other, s.me, s.inc, s.out) && Half(s.me, s.other, s.out, s.inc);
    if IsReceiving(s.me.conn, x) && a.Deliver? && !ConnFaults(s.me.conn, a.p) {
      EventGrows(s.me.conn, Arrives(a.p, a.block), x);
    }
  }

  lemma StepGrows(s: Sys, t: Step, mine: bool, x: nat)
    requires Inv(s) && CanStep(s, t)
    ensures PeerGrown(View(s, mine).other, View(After(s, t), mine).other, x)
  {
    if t.mine == mine {
      assert View(After(s, t), mine).other == View(s, mine).other;
      ViewKeepsInv(s, mine);
      PeerGrowsFrom(View(s, mine), x);
    } else {
      ViewKeepsInv(s, t.mine);
      ActGrows(View(s, t.mine), t.act, x);
    }
  }

  lemma PeerGrowsFrom(v: Sys, x: nat)
    requires Inv(v)
    ensures PeerGrown(v.other, v.other, x)
  {
    assert Half(v.me, v.other, v.out, v.inc);
    if IsReceiving(v.other.conn, x) {
      assert GoodReceiver(v.other.conn.sessions[x].recv, MessageOf(v.me.sent, x));
    }
  }

  lemma GrownTwice(r: Peer, r': Peer, r'': Peer, x: nat)
    requires PeerGrown(r, r', x) && PeerGrown(r', r'', x)
    ensures PeerGrown(r, r'', x)
  {
  }

  // ----- what a RESEND presupposes

  /** The most indices one packet can list. */
  const LIST_LIMIT: nat := MAX_STIP_DATA_SIZE / 4

  /** The parts of session x the peer still misses. */
  ghost function MissingAt(r: Peer, x: nat): nat {
    if IsReceiving(r.conn, x) then CountFalse(r.conn.sessions[x].recv.received) else 0
  }

  lemma SentStays(s: Sys, t: Step, mine: bool, x: nat)
    requires SysValid(s) && CanStep(s, t) && x in View(s, mine).me.sent
    ensures x in View(After(s, t), mine).me.sent
    ensures View(After(s, t), mine).me.sent[x] == View(s, mine).me.sent[x]
  {
  }

  ghost predicate ResendUnderWay(v: Sys, x: nat) {
    exists p :: p in v.inc && p.command.ResponseResend? && p.sessionId == x
  }

  /** The message is not empty, and what the peer misses of it fits one packet. */
  ghost predicate Listable(v: Sys, x: nat) {
    && x in v.me.sent && |MessageOf(v.me.sent, x)| > 0
    && IsReceiving(v.other.conn, x) && MissingAt(v.other, x) <= LIST_LIMIT
  }

  /** A RESEND was sent by a peer that missed parts, and it is from a packet that the sender knows. */
  ghost predicate ResendsJustified(v: Sys, x: nat) {
    && (ResendUnderWay(v, x) ==> Listable(v, x))
    && (HasHeardResend(v.me.conn, x) ==> ResendUnderWay(v, x))
  }

  lemma ResendIsOfMissing(c: Conn, p: Packet, block: seq<byte>, q: Packet)
    requires ConnValid(c) && !ConnFaults(c, p) && BlockFits(c, p, block)
    requires q in ConnStep(c, p, block).1 && q.command.ResponseResend?
    ensures var x := q.sessionId;
            && IsReceiving(c, x) && 0 < CountFalse(c.sessions[x].recv.received) <= LIST_LIMIT
            && ConnStep(c, p, block).0 == c.(sessions := c.sessions[x := c.sessions[x]])
  {
  }

  /** Every RESEND the peer adds in a step is for a session it misses parts of. */
  lemma PeerSendsResend(v: Sys, a: Act, q: Packet)
    requires Inv(v) && CanAct(Flip(v), a) && q !in v.inc && q.command.ResponseResend?
    requires q in Flip(Apply(Flip(v), a)).inc
    ensures Listable(Flip(Apply(Flip(v), a)), q.sessionId)
  {
    var v', x := Flip(Apply(Flip(v), a)), q.sessionId;
    match a
    case Deliver(p, block) =>
      ResendIsOfMissing(v.other.conn, p, block, q);
      assert Half(v.me, v.other, v.out, v.inc);
      CountsDiffer(|MessageOf(v.me.sent, x)|);
    case _ =>
  }

  lemma ListableStays(v: Sys, v': Sys, x: nat)
    requires Listable(v, x) && PeerGrown(v.other, v'.other, x)
    requires x in v'.me.sent && v'.me.sent[x] == v.me.sent[x]
    ensures Listable(v', x)
  {
    CountFalseShrinks(v.other.conn.sessions[x].recv.received, v'.other.conn.sessions[x].recv.received);
  }

  lemma PeerKeepsJustified(v: Sys, a: Act, x: nat)
    requires Inv(v) && CanAct(Flip(v), a) && ResendsJustified(v, x)
    ensures ResendsJustified(Flip(Apply(Flip(v), a)), x)
  {
    var v' := Flip(Apply(Flip(v), a));
    if ResendUnderWay(v, x) {
      ViewKeepsInv(v, false);
      ActGrows(Flip(v), a, x);
      ListableStays(v, v', x);
    } else if ResendUnderWay(v', x) {
      var q :| q in v'.inc && q.command.ResponseResend? && q.sessionId == x;
      PeerSendsResend(v, a, q);
    }
  }

  lemma HearsOnlyResend(c: Conn, p: Packet, block: seq<byte>, x: nat)
    requires ConnValid(c) && !ConnFaults(c, p) && BlockFits(c, p, block)
    ensures HasHeardResend(ConnStep(c, p, block).0, x) ==>
            HasHeardResend(c, x) || (p.command.ResponseResend? && p.sessionId == x)
  {
  }

  lemma ThreadHearsNone(ss: SendState, pc: Pc, timeout: bool)
    requires SendValid(ss) && CanAdvance(ss, pc, timeout)
    ensures Advance(ss, pc, timeout).0.status.DataResend? ==> ss.status.DataResend?
  {
  }

  lemma OwnActHears(v: Sys, a: Act, x: nat)
    requires SysValid(v) && CanAct(v, a) && (HasHeardResend(v.me.conn, x) ==> ResendUnderWay(v, x))
    ensures HasHeardResend(Apply(v, a).me.conn, x) ==> ResendUnderWay(v, x)
  {
    match a
    case Deliver(p, block) =>
      if !ConnFaults(v.me.conn, p) {
        HearsOnlyResend(v.me.conn, p, block, x);
      }
    case Progress(id, timeout) => ThreadHearsNone(v.me.conn.sessions[id].send, v.me.pcs[id], timeout);
    case _ =>
  }

  lemma OwnActKeepsJustified(v: Sys, a: Act, x: nat)
    requires Inv(v) && CanAct(v, a) && ResendsJustified(v, x)
    ensures ResendsJustified(Apply(v, a), x)
  {
    var v' := Apply(v, a);
    OwnActHears(v, a, x);
    assert v'.inc == v.inc && v'.other == v.other;
    if Listable(v, x) {
      SentStays(v, Step(true, a), true, x);
      assert Listable(v', x);
    }
  }

  lemma StepKeepsJustified(s: Sys, t: Step, mine: bool, x: nat)
    requires Inv(s) && CanStep(s, t) && ResendsJustified(View(s, mine), x)
    ensures ResendsJustified(View(After(s, t), mine), x)
  {
    ViewKeepsInv(s, mine);
    if t.mine == mine {
      OwnActKeepsJustified(View(s, mine), t.act, x);
    } else {
      PeerKeepsJustified(View(s, mine), t.act, x);
    }
  }

  lemma {:induction false} AlwaysJustified(ts: seq<Step>, mine: bool, x: nat)
    requires Runs(ts)
    ensures ResendsJustified(View(State(ts), mine), x)
  {
    if ts != [] {
      var before := ts[..|ts| - 1];
      AlwaysJustified(before, mine, x);
      Invariant(before);
      StepKeepsJustified(State(before), ts[|ts| - 1], mine, x);
    }
  }

  // ----- RESENDs with progress

  lemma NewPartMissingLess(r: Peer, r': Peer, x: nat)
    requires PeerGrown(r, r', x) && NewPart(r, r', x)
    ensures MissingAt(r', x) < MissingAt(r, x)
  {
    CountFalseShrinks(r.conn.sessions[x].recv.received, r'.conn.sessions[x].recv.received);
  }

  /** The most parts of a message of that size that a RESEND can ask for. */
  function MostListed(size: nat): nat {
    if ReceiverCount(size) <= LIST_LIMIT then ReceiverCount(size) else LIST_LIMIT
  }

  lemma MissingAtMost(v: Sys, x: nat)
    requires Inv(v) && Listable(v, x)
    ensures MissingAt(v.other, x) <= MostListed(|MessageOf(v.me.sent, x)|)
  {
    assert Half(v.me, v.other, v.out, v.inc);
  }

  /** RESENDs acted on so far and parts missing at the last of them: together no more than the
      parts that can be listed and one, and none at all for an empty message. */
  ghost predicate ResendsBounded(v: Sys, x: nat, resends: nat, last: Option<Peer>) {
    match last
    case None => resends == 0
    case Some(r) =>
      && x in v.me.sent && |MessageOf(v.me.sent, x)| > 0 && PeerGrown(r, v.other, x)
      && resends + MissingAt(r, x) <= MostListed(|MessageOf(v.me.sent, x)|) + 1
  }

  /** v' is v one step later, as far as session x is concerned. */
  ghost predicate Follows(v: Sys, v': Sys, x: nat) {
    && PeerGrown(v.other, v'.other, x)
    && (x in v.me.sent ==> x in v'.me.sent && v'.me.sent[x] == v.me.sent[x])
  }

  lemma StepFollows(s: Sys, t: Step, mine: bool, x: nat)
    requires Inv(s) && CanStep(s, t)
    ensures Follows(View(s, mine), View(After(s, t), mine), x)
  {
    StepGrows(s, t, mine, x);
    if x in View(s, mine).me.sent {
      SentStays(s, t, mine, x);
    }
  }

  lemma BoundStays(v: Sys, v': Sys, x: nat, resends: nat, last: Option<Peer>)
    requires ResendsBounded(v, x, resends, last) && Follows(v, v', x)
    ensures ResendsBounded(v', x, resends, last)
  {
    if last.Some? {
      GrownTwice(last.value, v.other, v'.other, x);
    }
  }

  /** The first RESEND acted on. */
  lemma FirstResend(v: Sys, v': Sys, x: nat)
    requires Inv(v) && Listable(v, x) && Follows(v, v', x)
    ensures ResendsBounded(v', x, 1, Some(v.other))
  {
    MissingAtMost(v, x);
  }

  /** A later one, with a part newly received since the one before. */
  lemma NextResend(v: Sys, v': Sys, x: nat, resends: nat, r: Peer)
    requires ResendsBounded(v, x, resends, Some(r)) && NewPart(r, v.other, x) && Follows(v, v', x)
    ensures ResendsBounded(v', x, resends + 1, Some(v.other))
  {
    NewPartMissingLess(r, v.other, x);
  }

  lemma {:induction false} ResendRoundsBounded(ts: seq<Step>, mine: bool, x: nat)
    requires Runs(ts) && PartsArriveBetween(ts, mine, x)
    ensures ResendsBounded(View(State(ts), mine), x, ResendRounds(ts, mine, x), AtLastResend(ts, mine, x))
  {
    if ts != [] {
      var before, t := ts[..|ts| - 1], ts[|ts| - 1];
      var v, v' := View(State(before), mine), View(State(ts), mine);
      ResendRoundsBounded(before, mine, x);
      Invariant(before);
      StepFollows(State(before), t, mine, x);
      var resends, last := ResendRounds(before, mine, x), AtLastResend(before, mine, x);
      if !ActsOnResend(State(before), t, mine, x) {
        BoundStays(v, v', x, resends, last);
      } else if last.Some? {
        NextResend(v, v', x, resends, last.value);
      } else {
        AlwaysJustified(before, mine, x);
        ViewKeepsInv(State(before), mine);
        FirstResend(v, v', x);
      }
    }
  }

  /** The most rounds the loop can take with progress. */
  function MostRounds(size: nat): nat {
    APPROVAL_RETRIES + if size == 0 then 0 else MostListed(size) + 1
  }

  /** Termination of the approval loop, in every run: if at least one part is newly received
      between any two RESENDs acted on, the thread ends at most as many waits as it has tries and
      the receiver has parts to list, and one more. */
  lemma ApprovalTerminates(ts: seq<Step>, mine: bool, x: nat)
    requires Runs(ts) && PartsArriveBetween(ts, mine, x)
    requires x in View(State(ts), mine).me.sent
    ensures Rounds(ts, mine, x) <= MostRounds(|MessageOf(View(State(ts), mine).me.sent, x)|)
    ensures Rounds(ts, mine, x)
         <= APPROVAL_RETRIES + ReceiverCount(|MessageOf(View(State(ts), mine).me.sent, x)|) + 1
  {
    RoundsAreTriesAndResends(ts, mine, x);
    ResendRoundsBounded(ts, mine, x);
  }

  // ----- a session that sees no RESEND

  /** Without a RESEND under way none has been acted on. */
  lemma {:induction false} NoneActedOn(ts: seq<Step>, mine: bool, x: nat)
    requires Runs(ts) && !ResendUnderWay(View(State(ts), mine), x)
    ensures ResendRounds(ts, mine, x) == 0 && AtLastResend(ts, mine, x).None? && PartsArriveBetween(ts, mine, x)
  {
    if ts != [] {
      var before, t := ts[..|ts| - 1], ts[|ts| - 1];
      NetworkGrows(State(before), t, mine);
      AlwaysJustified(before, mine, x);
      NoneActedOn(before, mine, x);
    }
  }

  /** A packet sent stays on the network. */
  lemma NetworkGrows(s: Sys, t: Step, mine: bool)
    requires SysValid(s) && CanStep(s, t)
    ensures View(s, mine).inc <= View(After(s, t), mine).inc
  {
  }

  /** For an empty message the tries do bound the rounds, in every run. */
  lemma EmptyNeedsOnlyTries(ts: seq<Step>, mine: bool, x: nat)
    requires Runs(ts) && x in View(State(ts), mine).me.sent && |MessageOf(View(State(ts), mine).me.sent, x)| == 0
    ensures Rounds(ts, mine, x) <= APPROVAL_RETRIES
  {
    AlwaysJustified(ts, mine, x);
    NoneActedOn(ts, mine, x);
    RoundsAreTriesAndResends(ts, mine, x);
  }
}
