/** Why sendMessage returns what it returns, in the expired waits of a run. */
module StipExpiries {
  import opened StipSessions
  import opened StipSystem
  import opened StipInvariant
  import opened StipTheorems

  /** The step is the expiry of session x's wait for the answer to INIT. */
  ghost predicate InitExpires(s: Sys, t: Step, mine: bool, x: nat) {
    var me := View(s, mine).me;
    t.mine == mine && t.act == Act.Progress(x, true) && x in me.pcs && me.pcs[x].InitWait?
  }

  /** The step is the expiry of its wait for the answer to the question. */
  ghost predicate QuestionExpires(s: Sys, t: Step, mine: bool, x: nat) {
    var me := View(s, mine).me;
    t.mine == mine && t.act == Act.Progress(x, true) && x in me.pcs && me.pcs[x].Wait?
  }

  ghost function InitExpiries(ts: seq<Step>, mine: bool, x: nat): nat
    requires Runs(ts)
  {
    if ts == [] then 0
    else
      var before, t := ts[..|ts| - 1], ts[|ts| - 1];
      InitExpiries(before, mine, x) + if InitExpires(State(before), t, mine, x) then 1 else 0
  }

  ghost function QuestionExpiries(ts: seq<Step>, mine: bool, x: nat): nat
    requires Runs(ts)
  {
    if ts == [] then 0
    else
      var before, t := ts[..|ts| - 1], ts[|ts| - 1];
      QuestionExpiries(before, mine, x) + if QuestionExpires(State(before), t, mine, x) then 1 else 0
  }

  /** INIT confirmed with less than three expiries; the message confirmed with less than six more,
      or not. */
  ghost predicate Explained(result: bool, inits: nat, questions: nat) {
    if result then inits < 3 && questions < 6
    else (inits == 3 && questions == 0) || (inits < 3 && questions == 6)
  }

  /** What the two counts are where the thread stands. */
  ghost predicate At(pc: Pc, inits: nat, questions: nat) {
    match pc
    case InitAsk(i) => inits == i <= 3 && questions == 0
    case InitMark(i) => inits == i < 3 && questions == 0
    case InitWait(i) => inits == i < 3 && questions == 0
    case DataStart => inits < 3 && questions == 0
    case DataPart(_) => inits < 3 && questions == 0
    case Ask(i) => inits < 3 && questions == i <= 6
    case Wait(i) => inits < 3 && questions == i < 6
    case Finished(result) => Explained(result, inits, questions)
  }

  ghost predicate Accounted(me: Peer, x: nat, inits: nat, questions: nat) {
    if x in me.pcs then x !in me.results && At(me.pcs[x], inits, questions)
    else if x in me.results then Explained(me.results[x], inits, questions)
    else x !in me.sent ==> inits == 0 && questions == 0
  }

  /** One step of the thread: nothing but an expiry uses up a try. */
  lemma ThreadAccounts(ss: SendState, pc: Pc, timeout: bool, inits: nat, questions: nat)
    requires SendValid(ss) && CanAdvance(ss, pc, timeout) && At(pc, inits, questions)
    requires !ss.status.InitFailure? && !ss.status.DataFailure?
    ensures At(Advance(ss, pc, timeout).1, inits + if pc.InitWait? && timeout then 1 else 0,
               questions + if pc.Wait? && timeout then 1 else 0)
  {
  }

  lemma ProgressAccounts(v: Sys, x: nat, timeout: bool, inits: nat, questions: nat)
    requires Inv(v) && CanAct(v, Act.Progress(x, timeout)) && Accounted(v.me, x, inits, questions)
    ensures var pc := v.me.pcs[x];
            Accounted(Apply(v, Act.Progress(x, timeout)).me, x,
                      inits + if pc.InitWait? && timeout then 1 else 0,
                      questions + if pc.Wait? && timeout then 1 else 0)
  {
    assert Half(v.me, v.other, v.out, v.inc);
    assert GoodSender(v.me.conn.sessions[x].send, x, v.me.sent, v.other.conn);
    ThreadAccounts(v.me.conn.sessions[x].send, v.me.pcs[x], timeout, inits, questions);
  }

  lemma ActAccounts(v: Sys, a: Act, x: nat, inits: nat, questions: nat)
    requires Inv(v) && CanAct(v, a) && Accounted(v.me, x, inits, questions)
    ensures var t := Step(true, a);
            Accounted(Apply(v, a).me, x, inits + if InitExpires(v, t, true, x) then 1 else 0,
                      questions + if QuestionExpires(v, t, true, x) then 1 else 0)
  {
    if a.Progress? && a.id == x {
      ProgressAccounts(v, x, a.timeout, inits, questions);
    } else {
      ResultsAreSent(v);
      OthersKeepAccount(v, a, x, inits, questions);
    }
  }

  lemma ResultsAreSent(v: Sys)
    requires Inv(v)
    ensures v.me.results.Keys <= v.me.sent.Keys && v.me.pcs.Keys <= v.me.sent.Keys
  {
    assert Half(v.me, v.other, v.out, v.inc);
  }

  /** Opening starts both counts, closing keeps them, and no other act concerns the thread of x. */
  lemma OthersKeepAccount(v: Sys, a: Act, x: nat, inits: nat, questions: nat)
    requires SysValid(v) && CanAct(v, a) && !(a.Progress? && a.id == x)
    requires v.me.results.Keys <= v.me.sent.Keys && v.me.pcs.Keys <= v.me.sent.Keys
    requires Accounted(v.me, x, inits, questions)
    ensures Accounted(Apply(v, a).me, x, inits, questions)
  {
  }

  lemma StepAccounts(s: Sys, t: Step, mine: bool, x: nat, inits: nat, questions: nat)
    requires Inv(s) && CanStep(s, t) && Accounted(View(s, mine).me, x, inits, questions)
    ensures Accounted(View(After(s, t), mine).me, x, inits + if InitExpires(s, t, mine, x) then 1 else 0,
                      questions + if QuestionExpires(s, t, mine, x) then 1 else 0)
  {
    if t.mine == mine {
      ViewKeepsInv(s, mine);
      ActAccounts(View(s, mine), t.act, x, inits, questions);
    } else {
      assert View(After(s, t), mine).me == View(s, mine).me;
    }
  }

  lemma {:induction false} RunAccounts(ts: seq<Step>, mine: bool, x: nat)
    requires Runs(ts)
    ensures Accounted(View(State(ts), mine).me, x, InitExpiries(ts, mine, x), QuestionExpiries(ts, mine, x))
  {
    if ts != [] {
      var before := ts[..|ts| - 1];
      RunAccounts(before, mine, x);
      Invariant(before);
      StepAccounts(State(before), ts[|ts| - 1], mine, x,
                   InitExpiries(before, mine, x), QuestionExpiries(before, mine, x));
    }
  }

  /** In every run sendMessage has returned false exactly when three waits for the answer to INIT
      expired, before any question, or else six waits for the answer to a question; answers alone
      never make it fail. */
  lemma FalseExactlyWhenExpired(ts: seq<Step>, mine: bool, x: nat)
    requires Runs(ts) && x in View(State(ts), mine).me.results
    ensures var inits, questions := InitExpiries(ts, mine, x), QuestionExpiries(ts, mine, x);
            && inits <= 3 && questions <= 6 && (inits == 3 ==> questions == 0)
            && (!View(State(ts), mine).me.results[x] <==> inits == 3 || questions == 6)
  {
    RunAccounts(ts, mine, x);
  }
}
