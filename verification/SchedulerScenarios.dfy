/** Runs that use the whole load bound: for every number of cores n, a worker with n cores can be
    given n + 1 tasks of n cores each. And runs that strand a task. */
module SchedulerScenarios {
  import opened SchedulerTables
  import opened SchedulerSystem
  import opened SchedulerInvariant
  import opened SchedulerTheorems

  // ----- reaching a state, step by step

  ghost predicate Reachable(s: Sys) {
    exists es :: Runs(es) && State(es) == s
  }

  /** The start is in the set, no step leads out of it, and its states satisfy the invariant. The
      runs below are built inside any such set; the reachable states are one. */
  ghost predicate Closed(reach: iset<Sys>) {
    && START in reach
    && (forall s {:trigger Inv(s)} :: s in reach ==> Inv(s))
    && (forall s, e {:trigger Apply(s, e)} :: s in reach && Enabled(s, e) ==> Apply(s, e) in reach)
  }

  ghost function ReachableStates(): iset<Sys> {
    iset s: Sys | Reachable(s)
  }

  lemma Follows(s: Sys, e: Step)
    requires Reachable(s) && Enabled(s, e)
    ensures Reachable(Apply(s, e))
  {
    var es :| Runs(es) && State(es) == s;
    OneMore(es, e);
  }

  lemma ReachableInv(s: Sys)
    requires Reachable(s)
    ensures Inv(s)
  {
    var es :| Runs(es) && State(es) == s;
    Invariant(es);
  }

  lemma ReachableIsClosed()
    ensures Closed(ReachableStates())
  {
    assert Runs([]) && State([]) == START;
    forall s | s in ReachableStates() ensures Inv(s) {
      ReachableInv(s);
    }
    forall s, e | s in ReachableStates() && Enabled(s, e) ensures Apply(s, e) in ReachableStates() {
      Follows(s, e);
    }
  }

  /** One step inside such a set. */
  lemma Next(reach: iset<Sys>, s: Sys, e: Step)
    requires Closed(reach) && s in reach && Enabled(s, e)
    ensures Apply(s, e) in reach && Inv(s)
  {
  }

  // ----- one worker "w", one client "c"; the length of a task's id tells its place in the table

  function Name(k: nat): (id: string)
    ensures |id| == k + 1
  {
    if k == 0 then "x" else Name(k - 1) + "x"
  }

  function NewTask(s: Sys, cores: int): Task {
    Task(Name(|s.tables.tasks|), "", "", "", cores, Queued, "", "c")
  }

  ghost predicate Named(s: Sys) {
    && s.tables.clients == ["c"]
    && forall i :: 0 <= i < |s.tables.tasks| ==> |s.tables.tasks[i].id| == i + 1 && s.tables.tasks[i].clientId == "c"
  }

  /** q tasks of n cores wait in the queue. */
  ghost predicate QueueHolds(s: Sys, n: nat, q: nat) {
    |s.tables.queue| == q && forall k :: 0 <= k < q ==> s.tables.queue[k].cores == n
  }

  /** The tasks in places lo up to hi, of one core each, have been requested from the worker. */
  ghost predicate SmallOut(s: Sys, lo: nat, hi: nat) {
    && lo <= hi == |s.tables.tasks|
    && forall i :: lo <= i < hi ==> s.tables.tasks[i].cores == 1 && Request("w", s.tables.tasks[i].id) in s.requests
  }

  ghost predicate NoWorker(s: Sys, n: nat, q: nat) {
    && Named(s) && QueueHolds(s, n, q) && s.tables.workers == [] && s.spawned == []
    && s.known == {} && |s.tables.tasks| == q
  }

  ghost predicate OneWorker(s: Sys, n: nat, used: int, owes: bool, q: nat, lo: nat, hi: nat) {
    && Named(s) && QueueHolds(s, n, q) && SmallOut(s, lo, hi) && s.spawned == []
    && s.tables.workers == [Worker("w", n, used)]
    && "w" in s.threads && s.threads["w"] == Thread(Worker("w", n, 0), owes)
  }

  lemma NewTaskIsFresh(s: Sys, cores: int)
    requires Named(s) && cores >= 1
    ensures Enabled(s, Accept(NewTask(s, cores)))
  {
    assert forall i :: 0 <= i < |s.tables.tasks| ==> |s.tables.tasks[i].id| == i + 1;
  }

  /** The state after a task of `cores` cores has arrived. */
  ghost function Arrived(s: Sys, cores: int): Sys {
    s.(tables := s.tables.(tasks := s.tables.tasks + [NewTask(s, cores)]), spawned := s.spawned + [NewTask(s, cores)])
  }

  lemma Arrives(reach: iset<Sys>, s: Sys, cores: int)
    requires Closed(reach) && s in reach && Named(s) && s.spawned == [] && cores >= 1
    ensures Arrived(s, cores) in reach
  {
    NewTaskIsFresh(s, cores);
    Next(reach, s, Accept(NewTask(s, cores)));
  }

  lemma NamedGrows(s: Sys, cores: int)
    requires Named(s)
    ensures Named(Arrived(s, cores))
  {
  }

  ghost function ToQueue(s: Sys, t: Task): Sys {
    s.(spawned := [], tables := s.tables.(queue := s.tables.queue + [t]), enqueued := s.enqueued + [t.id])
  }

  lemma RunsToQueue(reach: iset<Sys>, s: Sys, t: Task)
    requires Closed(reach) && s in reach && s.spawned == [t] && s.tables.workers == []
    ensures ToQueue(s, t) in reach
  {
    Next(reach, s, Run(0));
    RunIsToQueue(s, t);
  }

  lemma RunIsToQueue(s: Sys, t: Task)
    requires Inv(s) && s.spawned == [t] && s.tables.workers == []
    ensures Apply(s, Run(0)) == ToQueue(s, t)
  {
    var m, j := RunOutcome(s, 0);
  }

  ghost function ToWorker(s: Sys, t: Task, k: nat, n: nat, used: int): Sys
    requires k < |s.tables.tasks|
  {
    s.(spawned := [], sent := s.sent + [Request("w", t.id)], requests := s.requests + {Request("w", t.id)},
       tables := s.tables.(tasks := s.tables.tasks[k := SentTask(t, "w")], workers := [Worker("w", n, used + t.cores)]))
  }

  lemma RunsToWorker(reach: iset<Sys>, s: Sys, t: Task, k: nat, n: nat, used: int)
    requires Closed(reach) && s in reach && s.spawned == [t] && k < |s.tables.tasks| && s.tables.tasks[k] == t
    requires s.tables.workers == [Worker("w", n, used)] && 0 <= t.cores <= n - used && t.status == Queued
    ensures ToWorker(s, t, k, n, used) in reach
  {
    Next(reach, s, Run(0));
    RunIsToWorker(s, t, k, n, used);
  }

  lemma RunIsToWorker(s: Sys, t: Task, k: nat, n: nat, used: int)
    requires Inv(s) && s.spawned == [t] && k < |s.tables.tasks| && s.tables.tasks[k] == t
    requires s.tables.workers == [Worker("w", n, used)] && 0 <= t.cores <= n - used && t.status == Queued
    ensures Apply(s, Run(0)) == ToWorker(s, t, k, n, used)
  {
    assert Eligible(s.tables.workers[0], t.cores);
    var m, j := RunShape(s, 0);
    assert s.tables.tasks[m].id == s.tables.tasks[k].id && m == k;
    SendsIsToWorker(s, Apply(s, Run(0)), t, k, n, used);
  }

  lemma SendsIsToWorker(s: Sys, s': Sys, t: Task, k: nat, n: nat, used: int)
    requires s.spawned == [t] && s.tables.workers == [Worker("w", n, used)] && Sends(s, s', 0, k, 0)
    ensures s' == ToWorker(s, t, k, n, used)
  {
  }

  lemma QueueBig(reach: iset<Sys>, s: Sys, n: nat, q: nat) returns (s': Sys)
    requires Closed(reach) && s in reach && NoWorker(s, n, q) && n >= 1
    ensures s' in reach && NoWorker(s', n, q + 1)
  {
    Arrives(reach, s, n);
    RunsToQueue(reach, Arrived(s, n), NewTask(s, n));
    s' := ToQueue(Arrived(s, n), NewTask(s, n));
    QueueBigLeaves(s, s', n, q);
  }

  lemma QueueBigLeaves(s: Sys, s': Sys, n: nat, q: nat)
    requires NoWorker(s, n, q) && s' == ToQueue(Arrived(s, n), NewTask(s, n))
    ensures NoWorker(s', n, q + 1)
  {
    NamedGrows(s, n);
  }

  lemma SendSmall(reach: iset<Sys>, s: Sys, n: nat, used: int, q: nat, lo: nat, hi: nat) returns (s': Sys)
    requires Closed(reach) && s in reach && OneWorker(s, n, used, true, q, lo, hi) && used < n
    ensures s' in reach && OneWorker(s', n, used + 1, true, q, lo, hi + 1)
  {
    Arrives(reach, s, 1);
    RunsToWorker(reach, Arrived(s, 1), NewTask(s, 1), hi, n, used);
    s' := ToWorker(Arrived(s, 1), NewTask(s, 1), hi, n, used);
    SendSmallLeaves(s, s', n, used, q, lo, hi);
  }

  lemma SendSmallLeaves(s: Sys, s': Sys, n: nat, used: int, q: nat, lo: nat, hi: nat)
    requires OneWorker(s, n, used, true, q, lo, hi)
    requires s' == ToWorker(Arrived(s, 1), NewTask(s, 1), hi, n, used)
    ensures OneWorker(s', n, used + 1, true, q, lo, hi + 1)
  {
    SmallMore(s, s', lo, hi);
  }

  lemma SmallMore(s: Sys, s': Sys, lo: nat, hi: nat)
    requires Named(s) && SmallOut(s, lo, hi) && s'.tables.clients == s.tables.clients
    requires |s'.tables.tasks| == hi + 1 && s'.tables.tasks[..hi] == s.tables.tasks
    requires var t := s'.tables.tasks[hi];
             |t.id| == hi + 1 && t.clientId == "c" && t.cores == 1
             && s'.requests == s.requests + {Request("w", t.id)}
    ensures Named(s') && SmallOut(s', lo, hi + 1)
  {
    assert forall i :: 0 <= i < hi ==> s'.tables.tasks[i] == s'.tables.tasks[..hi][i];
  }

  ghost function Taken(s: Sys, m: nat, n: nat, used: int): Sys
    requires m < |s.tables.tasks| && s.tables.queue != [] && "w" in s.threads
  {
    var t := s.tables.queue[0];
    s.(sent := s.sent + [Request("w", t.id)], requests := s.requests + {Request("w", t.id)},
       threads := s.threads["w" := s.threads["w"].(owes := false)], dequeued := s.dequeued + [t.id],
       tables := s.tables.(tasks := s.tables.tasks[m := SentTask(t, "w")], queue := s.tables.queue[1..],
                           workers := [Worker("w", n, used + t.cores)]))
  }

  lemma ChecksQueue(reach: iset<Sys>, s: Sys, n: nat, used: int) returns (m: nat)
    requires Closed(reach) && s in reach && s.tables.workers == [Worker("w", n, used)]
    requires "w" in s.threads && s.threads["w"].owes && s.tables.queue != [] && s.tables.queue[0].cores <= n
    ensures m < |s.tables.tasks| && s.tables.tasks[m] == s.tables.queue[0] && Taken(s, m, n, used) in reach
  {
    Next(reach, s, Check("w"));
    m := CheckIsTaken(s, n, used);
  }

  lemma CheckIsTaken(s: Sys, n: nat, used: int) returns (m: nat)
    requires Inv(s) && s.tables.workers == [Worker("w", n, used)]
    requires "w" in s.threads && s.threads["w"].owes && s.tables.queue != [] && s.tables.queue[0].cores <= n
    ensures m < |s.tables.tasks| && s.tables.tasks[m] == s.tables.queue[0]
    ensures Apply(s, Check("w")) == Taken(s, m, n, used)
  {
    var j;
    m, j := CheckShape(s, "w");
    assert j == 0;
    TakesIsTaken(s, Apply(s, Check("w")), m, n, used);
  }

  lemma TakesIsTaken(s: Sys, s': Sys, m: nat, n: nat, used: int)
    requires s.tables.workers == [Worker("w", n, used)] && Takes(s, s', "w", m, 0)
    ensures s' == Taken(s, m, n, used)
  {
  }

  lemma TakeBig(reach: iset<Sys>, s: Sys, n: nat, used: int, q: nat, lo: nat, hi: nat) returns (s': Sys)
    requires Closed(reach) && s in reach && OneWorker(s, n, used, true, q + 1, lo, hi)
    ensures s' in reach && OneWorker(s', n, used + n, false, q, lo, hi)
  {
    var m := ChecksQueue(reach, s, n, used);
    s' := Taken(s, m, n, used);
    TakeBigLeaves(s, s', m, n, used, q, lo, hi);
  }

  lemma TakeBigLeaves(s: Sys, s': Sys, m: nat, n: nat, used: int, q: nat, lo: nat, hi: nat)
    requires OneWorker(s, n, used, true, q + 1, lo, hi)
    requires m < |s.tables.tasks| && s.tables.tasks[m] == s.tables.queue[0] && s' == Taken(s, m, n, used)
    ensures OneWorker(s', n, used + n, false, q, lo, hi)
  {
    QueueRest(s, s', n, q);
  }

  lemma QueueRest(s: Sys, s': Sys, n: nat, q: nat)
    requires QueueHolds(s, n, q + 1) && s'.tables.queue == s.tables.queue[1..]
    ensures QueueHolds(s', n, q)
  {
  }

  ghost function Finished(s: Sys, k: nat, n: nat, used: int): Sys
    requires k < |s.tables.tasks| && "w" in s.threads
  {
    var t := s.tables.tasks[k];
    s.(requests := s.requests - {Request("w", t.id)}, results := s.results - {Request("w", t.id)},
       threads := s.threads["w" := s.threads["w"].(owes := true)],
       tables := s.tables.(tasks := s.tables.tasks[k := t.(status := Ready, output := "")],
                           workers := [Worker("w", n, used - t.cores)]))
  }

  lemma Answers(reach: iset<Sys>, s: Sys, r: Request)
    requires Closed(reach) && s in reach && r in s.requests
    ensures s.(requests := s.requests - {r}, results := s.results + {r}) in reach && r !in s.results
  {
    Next(reach, s, Answer(r));
  }

  lemma ReceivesFromWorker(reach: iset<Sys>, s: Sys, k: nat, n: nat, used: int)
    requires Closed(reach) && s in reach && k < |s.tables.tasks| && s.tables.tasks[k].clientId in s.tables.clients
    requires s.tables.workers == [Worker("w", n, used)] && "w" in s.threads && !s.threads["w"].owes
    requires Request("w", s.tables.tasks[k].id) in s.results
    ensures Request("w", s.tables.tasks[k].id) !in s.requests && Finished(s, k, n, used) in reach
  {
    var r := Request("w", s.tables.tasks[k].id);
    Next(reach, s, Receive(r, "", true));
    assert s.requests - {r} == s.requests;
    ReceiveIsFinished(s, r, k, n, used);
  }

  lemma ReceiveIsFinished(s: Sys, r: Request, k: nat, n: nat, used: int)
    requires Inv(s) && k < |s.tables.tasks| && s.tables.tasks[k].clientId in s.tables.clients
    requires s.tables.workers == [Worker("w", n, used)] && "w" in s.threads && !s.threads["w"].owes
    requires r == Request("w", s.tables.tasks[k].id) && r in s.results && s.requests - {r} == s.requests
    ensures Apply(s, Receive(r, "", true)) == Finished(s, k, n, used)
  {
    var k', j := ReceiveOutcome(s, r, "");
    assert k' == k;
  }

  lemma FinishSmall(reach: iset<Sys>, s: Sys, n: nat, used: int, q: nat, lo: nat, hi: nat) returns (s': Sys)
    requires Closed(reach) && s in reach && OneWorker(s, n, used, false, q, lo, hi) && lo < hi
    ensures s' in reach && OneWorker(s', n, used - 1, true, q, lo + 1, hi)
  {
    var r := Request("w", s.tables.tasks[lo].id);
    Answers(reach, s, r);
    var s1 := s.(requests := s.requests - {r}, results := s.results + {r});
    ReceivesFromWorker(reach, s1, lo, n, used);
    s' := Finished(s1, lo, n, used);
    FinishSmallLeaves(s, s', n, used, q, lo, hi);
  }

  lemma FinishSmallLeaves(s: Sys, s': Sys, n: nat, used: int, q: nat, lo: nat, hi: nat)
    requires OneWorker(s, n, used, false, q, lo, hi) && lo < hi
    requires var r := Request("w", s.tables.tasks[lo].id);
             s' == Finished(s.(requests := s.requests - {r}, results := s.results + {r}), lo, n, used)
    ensures OneWorker(s', n, used - 1, true, q, lo + 1, hi)
  {
    forall i | lo + 1 <= i < hi
      ensures s'.tables.tasks[i] == s.tables.tasks[i] && Request("w", s.tables.tasks[i].id) in s'.requests
    {
      assert |s.tables.tasks[i].id| != |s.tables.tasks[lo].id|;
    }
  }

  // ----- the runs

  lemma {:induction false} Queueing(reach: iset<Sys>, n: nat, q: nat) returns (s: Sys)
    requires Closed(reach) && n >= 1
    ensures s in reach && NoWorker(s, n, q)
  {
    if q == 0 {
      assert Runs([]) && State([]) == START;
      Next(reach, START, ClientJoins("c"));
      s := Apply(START, ClientJoins("c"));
    } else {
      var before := Queueing(reach, n, q - 1);
      s := QueueBig(reach, before, n, q - 1);
    }
  }

  lemma {:induction false} Filling(reach: iset<Sys>, n: nat, used: nat) returns (s: Sys)
    requires Closed(reach) && used <= n && n >= 1
    ensures s in reach && OneWorker(s, n, used, true, n + 1, n + 1, n + 1 + used)
  {
    if used == 0 {
      var before := Queueing(reach, n, n + 1);
      Next(reach, before, Register(Worker("w", n, 0)));
      s := Apply(before, Register(Worker("w", n, 0)));
    } else {
      var before := Filling(reach, n, used - 1);
      s := SendSmall(reach, before, n, used - 1, n + 1, n + 1, n + used);
    }
  }

  /** What q replacements of a task of one core by one of n cores add to the used cores. */
  function Gain(n: nat, q: nat): int {
    if q == 0 then 0 else n - 1 + Gain(n, q - 1)
  }

  lemma {:induction false} GainIs(n: nat, q: nat)
    ensures Gain(n, q) == q * (n - 1)
  {
    if q > 0 {
      GainIs(n, q - 1);
      assert q * (n - 1) == (q - 1) * (n - 1) + (n - 1);
    }
  }

  /** Each small task that finishes makes room, in the thread's eyes, for a big one. */
  lemma {:induction false} Replacing(reach: iset<Sys>, s: Sys, n: nat, used: int, q: nat, lo: nat, hi: nat)
    returns (s': Sys)
    requires Closed(reach) && s in reach && OneWorker(s, n, used, false, q, lo, hi) && q <= hi - lo
    ensures s' in reach && s'.tables.workers == [Worker("w", n, used + Gain(n, q))]
    decreases q
  {
    s' := s;
    if q > 0 {
      s' := FinishSmall(reach, s, n, used, q, lo, hi);
      s' := TakeBig(reach, s', n, used - 1, q - 1, lo + 1, hi);
      s' := Replacing(reach, s', n, used - 1 + n, q - 1, lo + 1, hi);
    }
  }

  /** The bound on used cores is reached, for every number of cores: no smaller one holds. */
  lemma BoundReached(n: nat) returns (s: Sys)
    requires n >= 1
    ensures Reachable(s) && s.tables.workers == [Worker("w", n, n * (n + 1))]
  {
    ReachableIsClosed();
    s := Full(ReachableStates(), n);
    GainIs(n, n);
    assert n + n + n * (n - 1) == n * (n + 1);
  }

  lemma Full(reach: iset<Sys>, n: nat) returns (s: Sys)
    requires Closed(reach) && n >= 1
    ensures s in reach && s.tables.workers == [Worker("w", n, n + n + Gain(n, n))]
  {
    s := Filling(reach, n, n);
    s := TakeBig(reach, s, n, n, n, n + 1, n + 1 + n);
    s := Replacing(reach, s, n, n + n, n, n + 1, n + 1 + n);
  }

  // ----- stranded tasks

  lemma SmallInFlight(s: Sys, lo: nat, hi: nat, i: nat)
    requires Inv(s) && SmallOut(s, lo, hi) && lo <= i < hi
    ensures InFlight(s.tables.tasks[i], "w")
  {
    var r := Request("w", s.tables.tasks[i].id);
    assert r in s.requests + s.results;
    var k :| 0 <= k < |s.tables.tasks| && s.tables.tasks[k].id == r.taskId && InFlight(s.tables.tasks[k], r.workerId);
    assert k == i;
  }

  /** The worker leaves, with the request still under way. */
  lemma LeftBehind() returns (s: Sys)
    ensures Reachable(s) && Stranded(s, 2)
    ensures Request(s.tables.tasks[2].workerId, s.tables.tasks[2].id) in s.requests
  {
    ReachableIsClosed();
    var filled := Filling(ReachableStates(), 1, 1);
    var taken := TakeBig(ReachableStates(), filled, 1, 1, 1, 2, 3);
    ReachableInv(taken);
    SmallInFlight(taken, 2, 3, 2);
    Follows(taken, Leave("w"));
    s := Apply(taken, Leave("w"));
  }

  /** The request is lost, with the worker still connected. */
  lemma RequestLost() returns (s: Sys)
    ensures Reachable(s) && Stranded(s, 2)
    ensures s.tables.tasks[2].workerId in s.threads
  {
    ReachableIsClosed();
    var filled := Filling(ReachableStates(), 1, 1);
    ReachableInv(filled);
    SmallInFlight(filled, 2, 3, 2);
    var r := Request("w", filled.tables.tasks[2].id);
    Follows(filled, Lose(r));
    s := Apply(filled, Lose(r));
    assert r !in filled.results;
  }
}
