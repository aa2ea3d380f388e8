/** What holds over every run of the server. */
module SchedulerTheorems {
  import opened Wrappers
  import opened SchedulerTables
  import opened SchedulerSystem
  import opened SchedulerInvariant

  // ----- cores

  /** A registered worker's used cores are exactly those of the tasks in flight at it. */
  lemma CoreConservation(es: seq<Step>, i: nat)
    requires Runs(es) && i < |State(es).tables.workers|
    ensures var s := State(es);
            s.tables.workers[i].usedCores == Sum(Cores(s.tables.workers[i].id), s.tables.tasks)
  {
    Invariant(es);
    assert LoadOk(State(es), State(es).tables.workers[i]);
  }

  /** Returning a finished task's cores never reaches below zero, so the reset does nothing. */
  lemma ClampNeverFires(es: seq<Step>, r: Request, output: string) returns (k: nat, j: nat)
    requires Runs(es) && r in State(es).results && r.workerId in State(es).threads
    ensures ReturnsCores(State(es), r, output, k, j)
  {
    Invariant(es);
    k, j := ResultReturnsCores(State(es), r, output);
  }

  lemma ResultReturnsCores(s: Sys, r: Request, output: string) returns (k: nat, j: nat)
    requires Inv(s) && r in s.results && r.workerId in s.threads
    ensures ReturnsCores(s, r, output, k, j)
  {
    k, j := ReceiveOutcome(s, r, output);
  }

  ghost predicate ReturnsCores(s: Sys, r: Request, output: string, k: nat, j: nat) {
    && k < |s.tables.tasks| && s.tables.tasks[k].id == r.taskId
    && j < |s.tables.workers| && s.tables.workers[j].id == r.workerId
    && var used := s.tables.workers[j].usedCores - s.tables.tasks[k].cores;
       && used >= 0
       && HandleResult(s.tables, r.taskId, output).tables.workers
          == s.tables.workers[j := s.tables.workers[j].(usedCores := used)]
  }

  /** Tasks in flight at a worker, with the look at the queue its thread may owe, number at most
      one more than its cores, and each is no larger than the worker; so its used cores are at most
      n(n + 1) for n cores. */
  ghost predicate LoadBounded(s: Sys, w: Worker) {
    && Sum(Count(w.id), s.tables.tasks) + Owed(s, w.id) <= Capacity(w) + 1
    && (forall k :: 0 <= k < |s.tables.tasks| && InFlight(s.tables.tasks[k], w.id) ==>
          s.tables.tasks[k].cores <= w.cores)
    && w.usedCores <= Capacity(w) * (Capacity(w) + 1)
  }

  lemma LoadBound(es: seq<Step>, i: nat)
    requires Runs(es) && i < |State(es).tables.workers|
    ensures LoadBounded(State(es), State(es).tables.workers[i])
  {
    Invariant(es);
    LoadBoundOf(State(es), i);
  }

  lemma LoadBoundOf(s: Sys, i: nat)
    requires TasksOk(s) && LoadsOk(s) && i < |s.tables.workers|
    ensures LoadBounded(s, s.tables.workers[i])
  {
    assert LoadOk(s, s.tables.workers[i]);
    UsedBound(s, s.tables.workers[i]);
  }

  lemma UsedBound(s: Sys, w: Worker)
    requires TasksOk(s) && LoadOk(s, w)
    ensures w.usedCores <= Capacity(w) * (Capacity(w) + 1)
  {
    var n := Capacity(w);
    CountBounds(w.id, s.tables.tasks, n);
    Grows(Sum(Count(w.id), s.tables.tasks), n + 1, n);
  }

  lemma Grows(a: int, b: int, n: nat)
    requires a <= b
    ensures a * n <= n * b
  {
    assert n * b - a * n == (b - a) * n;
  }

  /** What a worker runs beyond its cores came from the queue. */
  lemma OverloadComesFromQueue(es: seq<Step>, i: nat)
    requires Runs(es) && i < |State(es).tables.workers|
    ensures var s, w := State(es), State(es).tables.workers[i];
            && w.usedCores <= Capacity(w) + Sum(FromQueue(w.id, s.dequeued), s.tables.tasks)
            && (s.dequeued == [] ==> w.usedCores <= Capacity(w))
  {
    Invariant(es);
    var s, w := State(es), State(es).tables.workers[i];
    assert LoadOk(s, w);
    if s.dequeued == [] {
      SumZero(FromQueue(w.id, s.dequeued), s.tables.tasks);
    }
  }

  ghost predicate AllWithin(workers: seq<Worker>) {
    forall i :: 0 <= i < |workers| ==> workers[i].usedCores <= Capacity(workers[i])
  }

  ghost predicate WithinCores(s: Sys) {
    AllWithin(s.tables.workers)
  }

  /** The step is a look at the queue whose front task fits the worker's cores, but not those the
      table says are free. */
  ghost predicate Overloads(s: Sys, e: Step) {
    && e.Check? && s.tables.queue != []
    && exists j :: 0 <= j < |s.tables.workers| && s.tables.workers[j].id == e.workerId
                   && FreeCores(s.tables.workers[j]) < s.tables.queue[0].cores <= s.tables.workers[j].cores
  }

  /** The steps after which some worker exceeds its cores are exactly these. */
  lemma OverloadExactly(s: Sys, e: Step)
    requires Inv(s) && WithinCores(s) && Enabled(s, e)
    ensures WithinCores(Apply(s, e)) <==> !Overloads(s, e)
  {
    match e
    case Run(k) => RunStaysWithin(s, k);
    case Check(id) => CheckStaysWithin(s, id);
    case Receive(r, output, clientTold) => ReceiveStaysWithin(s, r, output, clientTold);
    case Leave(id) => EndStaysWithin(s, id);
    case _ =>
  }

  lemma RunStaysWithin(s: Sys, k: nat)
    requires Inv(s) && WithinCores(s) && k < |s.spawned|
    ensures WithinCores(Apply(s, Run(k)))
  {
    var m, j := RunShape(s, k);
    if Sends(s, Apply(s, Run(k)), k, m, j) {
      SendStaysWithin(s, Apply(s, Run(k)), k, m, j);
    }
  }

  lemma SendStaysWithin(s: Sys, s': Sys, k: nat, m: nat, j: nat)
    requires WithinCores(s) && Sends(s, s', k, m, j)
    ensures WithinCores(s')
  {
  }

  lemma CheckStaysWithin(s: Sys, id: string)
    requires Inv(s) && WithinCores(s) && Enabled(s, Check(id))
    ensures WithinCores(Apply(s, Check(id))) <==> !Overloads(s, Check(id))
  {
    var s' := Apply(s, Check(id));
    var j := CheckAdds(s, s', id);
    OverloadsAt(s, id, j);
    AddedWithin(s.tables, s'.tables, j);
  }

  /** A look at the queue adds the front task's cores to the worker's, or changes no worker. */
  lemma CheckAdds(s: Sys, s': Sys, id: string) returns (j: nat)
    requires Inv(s) && Enabled(s, Check(id)) && s' == Apply(s, Check(id))
    ensures j < |s.tables.workers| && s.tables.workers[j].id == id && Adds(s.tables, s'.tables, j)
    ensures s.tables.queue != [] ==> s.tables.queue[0].cores >= 1
  {
    var m;
    m, j := CheckShape(s, id);
    if s.tables.queue != [] {
      FrontIsPositive(s);
    }
    ShapeAdds(s, s', id, m, j);
  }

  lemma ShapeAdds(s: Sys, s': Sys, id: string, m: nat, j: nat)
    requires j < |s.tables.workers| && (s.tables.queue != [] ==> s.tables.queue[0].cores >= 1)
    requires if s.tables.queue != [] && s.tables.queue[0].cores <= s.tables.workers[j].cores
             then Takes(s, s', id, m, j) else Passes(s, s', id)
    ensures Adds(s.tables, s'.tables, j)
  {
  }

  lemma FrontIsPositive(s: Sys)
    requires TasksOk(s) && WaitingOk(s) && s.tables.queue != []
    ensures s.tables.queue[0].cores >= 1
  {
    var m := QueueFrontInTable(s);
    assert GoodTask(s.tables.tasks[m], s.known);
  }

  lemma OverloadsAt(s: Sys, id: string, j: nat)
    requires WorkersOk(s) && j < |s.tables.workers| && s.tables.workers[j].id == id
    ensures Overloads(s, Check(id)) <==>
            s.tables.queue != []
            && FreeCores(s.tables.workers[j]) < s.tables.queue[0].cores <= s.tables.workers[j].cores
  {
    assert forall i :: 0 <= i < |s.tables.workers| && s.tables.workers[i].id == id ==> i == j;
  }

  ghost predicate Adds(t: Tables, t': Tables, j: nat)
    requires j < |t.workers|
  {
    var w := t.workers[j];
    if t.queue != [] && 1 <= t.queue[0].cores <= w.cores
    then t'.workers == t.workers[j := w.(usedCores := w.usedCores + t.queue[0].cores)]
    else t'.workers == t.workers
  }

  lemma AddedWithin(t: Tables, t': Tables, j: nat)
    requires j < |t.workers| && Adds(t, t', j) && (t.queue != [] ==> t.queue[0].cores >= 1)
    requires AllWithin(t.workers)
    ensures AllWithin(t'.workers) <==> !(t.queue != [] && FreeCores(t.workers[j]) < t.queue[0].cores <= t.workers[j].cores)
  {
    if AllWithin(t'.workers) {
      assert t'.workers[j].usedCores <= Capacity(t'.workers[j]);
    }
  }

  lemma ReceiveStaysWithin(s: Sys, r: Request, output: string, clientTold: bool)
    requires Inv(s) && WithinCores(s) && Enabled(s, Receive(r, output, clientTold))
    ensures WithinCores(Apply(s, Receive(r, output, clientTold)))
  {
    var k, j := ReceiveFinishes(s, r, output);
    var s1 := AfterResult(s, r, output);
    FinishStaysWithin(s, s1, k, j, output);
    EndStaysWithin(s1, r.workerId);
  }

  lemma FinishStaysWithin(s: Sys, s1: Sys, k: nat, j: nat, output: string)
    requires Inv(s) && WithinCores(s) && Finishes(s, s1, k, j, output)
    ensures WithinCores(s1) && WorkersOk(s1)
  {
    FinishKeepsTables(s, s1, k, j, output);
    assert GoodTask(s.tables.tasks[k], s.known);
  }

  lemma EndStaysWithin(s: Sys, id: string)
    requires WorkersOk(s) && WithinCores(s) && id in s.threads
    ensures WithinCores(EndThread(s, id))
  {
    var j := RemovedAt(s, id);
    forall i: nat | i < |EndThread(s, id).tables.workers|
      ensures var w := EndThread(s, id).tables.workers[i]; w.usedCores <= Capacity(w)
    {
      assert s.tables.workers[Before(i, j)].usedCores <= Capacity(s.tables.workers[Before(i, j)]);
    }
  }

  /** A task's thread sends it to the first of the workers with the most free cores, if those are
      enough, and queues it if not. */
  lemma DispatchPicksMostFree(es: seq<Step>, k: nat) returns (j: nat)
    requires Runs(es) && k < |State(es).spawned|
    ensures var t, task := State(es).tables, State(es).spawned[k];
            PicksMostFree(t, task, ProcessTask(t, task), j)
  {
    Invariant(es);
    j := OutcomePicks(State(es), k);
  }

  ghost predicate PicksMostFree(t: Tables, task: Task, o: Outcome, j: nat) {
    if o.sent.Some? then
      && j < |t.workers| && t.workers[j].cores - t.workers[j].usedCores >= task.cores
      && (forall i :: 0 <= i < |t.workers| ==>
            t.workers[i].cores - t.workers[i].usedCores <= t.workers[j].cores - t.workers[j].usedCores)
      && (forall i :: 0 <= i < j ==>
            t.workers[i].cores - t.workers[i].usedCores < t.workers[j].cores - t.workers[j].usedCores)
      && o.sent.value == Request(t.workers[j].id, task.id)
      && o.tables.workers == t.workers[j := t.workers[j].(usedCores := t.workers[j].usedCores + task.cores)]
      && o.tables.queue == t.queue
    else
      && (forall i :: 0 <= i < |t.workers| ==> t.workers[i].cores - t.workers[i].usedCores < task.cores)
      && o.tables == t.(queue := t.queue + [task])
  }

  lemma OutcomePicks(s: Sys, k: nat) returns (j: nat)
    requires Inv(s) && k < |s.spawned|
    ensures PicksMostFree(s.tables, s.spawned[k], ProcessTask(s.tables, s.spawned[k]), j)
  {
    var m;
    m, j := RunOutcome(s, k);
    assert GoodTask(s.tables.tasks[m], s.known);
    Picks(s.tables, s.spawned[k], m, j, ProcessTask(s.tables, s.spawned[k]));
  }

  lemma Picks(t: Tables, task: Task, m: nat, j: nat, o: Outcome)
    requires m < |t.tasks| && t.tasks[m] == task && task.cores >= 1
    requires if j < |t.workers| then
               && IsMostFree(t.workers, |t.workers|, task.cores, Some(j))
               && o == Outcome(Sending(t, m, j), Some(Request(t.workers[j].id, task.id)), false)
             else
               && o == Outcome(t.(queue := t.queue + [task]), None, false)
               && forall i :: 0 <= i < |t.workers| ==> !Eligible(t.workers[i], task.cores)
    ensures PicksMostFree(t, task, o, j)
  {
    OthersHaveLess(t.workers, task.cores);
  }

  /** With at least one core asked for, a worker not eligible has fewer free cores than asked. */
  lemma OthersHaveLess(workers: seq<Worker>, required: int)
    requires required >= 1
    ensures forall i :: 0 <= i < |workers| ==>
              (Eligible(workers[i], required) <==> workers[i].cores - workers[i].usedCores >= required)
  {
  }

  // ----- looks at the queue

  ghost predicate LooksFor(e: Step, id: string) {
    e.Check? && e.workerId == id
  }

  /** A result of worker id is handled and its client told. */
  ghost predicate TellsFor(e: Step, id: string) {
    e.Receive? && e.r.workerId == id && e.clientTold
  }

  ghost function Looks(es: seq<Step>, id: string): nat {
    if es == [] then 0 else Looks(es[..|es| - 1], id) + if LooksFor(es[|es| - 1], id) then 1 else 0
  }

  ghost function Tells(es: seq<Step>, id: string): nat {
    if es == [] then 0 else Tells(es[..|es| - 1], id) + if TellsFor(es[|es| - 1], id) then 1 else 0
  }

  /** The looks taken and the one owed are one for registering and one for every client told. */
  ghost predicate Paid(s: Sys, id: string, looks: nat, tells: nat) {
    if id in s.threads then looks + Owed(s, id) == 1 + tells
    else id !in s.known ==> looks == 0 && tells == 0
  }

  lemma ThreadsKnown(s: Sys, id: string)
    requires WorkersOk(s) && id in s.threads
    ensures id in s.known
  {
    var j := ThreadWorker(s, id);
  }

  lemma PayStep(s: Sys, e: Step, id: string, looks: nat, tells: nat)
    requires Inv(s) && Enabled(s, e) && Paid(s, id, looks, tells)
    ensures Paid(Apply(s, e), id, looks + if LooksFor(e, id) then 1 else 0, tells + if TellsFor(e, id) then 1 else 0)
  {
    if id in s.threads {
      ThreadsKnown(s, id);
    }
    match e
    case Check(other) =>
      var m, j := CheckShape(s, other);
      PayCheck(s, Apply(s, e), other, m, j, id, looks, tells);
    case Run(k) =>
      var m, j := RunShape(s, k);
      PayRun(s, Apply(s, e), k, m, j, id, looks, tells);
    case _ => PayOther(s, e, id, looks, tells);
  }

  lemma PayCheck(s: Sys, s': Sys, other: string, m: nat, j: nat, id: string, looks: nat, tells: nat)
    requires Paid(s, id, looks, tells) && other in s.threads && s.threads[other].owes
    requires Takes(s, s', other, m, j) || Passes(s, s', other)
    requires id in s.threads ==> id in s.known
    ensures Paid(s', id, looks + if other == id then 1 else 0, tells)
  {
  }

  lemma PayRun(s: Sys, s': Sys, k: nat, m: nat, j: nat, id: string, looks: nat, tells: nat)
    requires Paid(s, id, looks, tells) && (Sends(s, s', k, m, j) || QueuesUp(s, s', k, m))
    ensures Paid(s', id, looks, tells)
  {
  }

  lemma PayOther(s: Sys, e: Step, id: string, looks: nat, tells: nat)
    requires Enabled(s, e) && Paid(s, id, looks, tells) && !e.Check? && !e.Run?
    requires id in s.threads ==> id in s.known
    ensures Paid(Apply(s, e), id, looks, tells + if TellsFor(e, id) then 1 else 0)
  {
  }

  lemma {:induction false} RunPays(es: seq<Step>, id: string)
    requires Runs(es)
    ensures Paid(State(es), id, Looks(es, id), Tells(es, id))
  {
    if es != [] {
      var before := es[..|es| - 1];
      RunPays(before, id);
      Invariant(before);
      PayStep(State(before), es[|es| - 1], id, Looks(before, id), Tells(before, id));
    }
  }

  /** In every run a connected worker's thread has looked at the queue, or still has to, once since
      it registered and once for every result whose client was told, and no more often. */
  lemma LooksArePaid(es: seq<Step>, id: string)
    requires Runs(es) && id in State(es).threads
    ensures Looks(es, id) + Owed(State(es), id) == 1 + Tells(es, id)
  {
    RunPays(es, id);
  }

  // ----- the life of a task

  /** Every accepted task is in exactly one place. */
  lemma Lifecycle(es: seq<Step>, i: nat)
    requires Runs(es) && i < |State(es).tables.tasks|
    ensures var s, t := State(es), State(es).tables.tasks[i];
            match t.status
            case Queued => t.workerId == "" && (t in s.spawned <==> t !in s.tables.queue)
            case SentToWorker => t.workerId != "" && NotWaiting(s, t.id)
            case Ready => t.workerId != "" && NotWaiting(s, t.id)
            case _ => false
  {
    Invariant(es);
    var s, t := State(es), State(es).tables.tasks[i];
    if t.status == Queued {
      assert t in Waiting(s);
      Apart(s, t);
    } else {
      WaitingIsQueued(s, i);
    }
  }

  ghost predicate NotWaiting(s: Sys, id: string) {
    && (forall k :: 0 <= k < |s.spawned| ==> s.spawned[k].id != id)
    && (forall k :: 0 <= k < |s.tables.queue| ==> s.tables.queue[k].id != id)
  }

  lemma Apart(s: Sys, t: Task)
    requires WaitingOk(s)
    ensures !(t in s.spawned && t in s.tables.queue)
  {
    var was := Waiting(s);
    forall a, b | 0 <= a < |s.spawned| && 0 <= b < |s.tables.queue| ensures s.spawned[a] != s.tables.queue[b] {
      assert was[a] == s.spawned[a] && was[|s.spawned| + b] == s.tables.queue[b];
    }
  }

  lemma WaitingIsQueued(s: Sys, i: nat)
    requires TasksOk(s) && WaitingOk(s) && i < |s.tables.tasks| && s.tables.tasks[i].status != Queued
    ensures NotWaiting(s, s.tables.tasks[i].id)
  {
    var was := Waiting(s);
    forall q | 0 <= q < |was| ensures was[q].id != s.tables.tasks[i].id {
      var m :| 0 <= m < |s.tables.tasks| && s.tables.tasks[m] == was[q];
      assert m != i;
    }
    forall k | 0 <= k < |s.spawned| ensures s.spawned[k].id != s.tables.tasks[i].id {
      assert was[k] == s.spawned[k];
    }
    forall k | 0 <= k < |s.tables.queue| ensures s.tables.queue[k].id != s.tables.tasks[i].id {
      assert was[|s.spawned| + k] == s.tables.queue[k];
    }
  }

  /** What waits is what is not yet sent, each task once: no task is lost on the way. */
  lemma NoneLost(es: seq<Step>)
    requires Runs(es)
    ensures Ids(State(es).tables.tasks) == Accepted(es)
    ensures DistinctIds(Waiting(State(es)))
    ensures forall t :: t in Waiting(State(es)) <==> t in State(es).tables.tasks && t.status == Queued
  {
    Invariant(es);
    TableIsAccepted(es);
  }

  ghost function Accepted(es: seq<Step>): seq<string> {
    if es == [] then [] else Accepted(es[..|es| - 1]) + AcceptedBy(es[|es| - 1])
  }

  ghost function AcceptedBy(e: Step): seq<string> {
    if e.Accept? then [e.task.id] else []
  }

  lemma {:induction false} TableIsAccepted(es: seq<Step>)
    requires Runs(es)
    ensures Ids(State(es).tables.tasks) == Accepted(es)
  {
    if es != [] {
      var s, e := State(es[..|es| - 1]), es[|es| - 1];
      TableIsAccepted(es[..|es| - 1]);
      Invariant(es[..|es| - 1]);
      StepForward(s, e);
    }
  }

  /** b is a later state of task a: what was asked for stays, the status only moves on, the worker
      once chosen stays, and a finished task no longer changes. */
  ghost predicate Later(a: Task, b: Task) {
    && b == a.(status := b.status, workerId := b.workerId, output := b.output)
    && match a.status
       case Queued => (b.status == Queued || b.status == SentToWorker || b.status == Ready) && (b.status == Queued ==> b == a)
       case SentToWorker => (b.status == SentToWorker && b == a) || (b.status == Ready && b.workerId == a.workerId)
       case _ => b == a
  }

  ghost predicate AllLater(earlier: seq<Task>, now: seq<Task>) {
    |earlier| <= |now| && forall i :: 0 <= i < |earlier| ==> Later(earlier[i], now[i])
  }

  lemma StepForward(s: Sys, e: Step)
    requires Inv(s) && Enabled(s, e)
    ensures AllLater(s.tables.tasks, Apply(s, e).tables.tasks)
    ensures Ids(Apply(s, e).tables.tasks) == Ids(s.tables.tasks) + AcceptedBy(e)
  {
    match e
    case Run(k) => RunForward(s, k);
    case Check(id) => CheckForward(s, id);
    case Receive(r, output, clientTold) => ReceiveForward(s, r, output, clientTold);
    case _ =>
  }

  lemma RunForward(s: Sys, k: nat)
    requires Inv(s) && k < |s.spawned|
    ensures Moved(s.tables.tasks, Apply(s, Run(k)).tables.tasks)
  {
    var m, j := RunShape(s, k);
    RunMoves(s, Apply(s, Run(k)), k, m, j);
  }

  lemma RunMoves(s: Sys, s': Sys, k: nat, m: nat, j: nat)
    requires TasksOk(s) && (Sends(s, s', k, m, j) || QueuesUp(s, s', k, m))
    ensures Moved(s.tables.tasks, s'.tables.tasks)
  {
    MovedBy(s, m, s'.tables.tasks);
  }

  lemma CheckForward(s: Sys, id: string)
    requires Inv(s) && Enabled(s, Check(id))
    ensures Moved(s.tables.tasks, Apply(s, Check(id)).tables.tasks)
  {
    var m, j := CheckShape(s, id);
    CheckMoves(s, Apply(s, Check(id)), id, m, j);
  }

  lemma CheckMoves(s: Sys, s': Sys, id: string, m: nat, j: nat)
    requires TasksOk(s) && (Takes(s, s', id, m, j) || Passes(s, s', id))
    ensures Moved(s.tables.tasks, s'.tables.tasks)
  {
    MovedBy(s, m, s'.tables.tasks);
  }

  lemma ReceiveForward(s: Sys, r: Request, output: string, clientTold: bool)
    requires Inv(s) && Enabled(s, Receive(r, output, clientTold))
    ensures Moved(s.tables.tasks, Apply(s, Receive(r, output, clientTold)).tables.tasks)
  {
    var k, j := ReceiveFinishes(s, r, output);
    FinishMoves(s, AfterResult(s, r, output), k, j, output);
  }

  lemma FinishMoves(s: Sys, s': Sys, k: nat, j: nat, output: string)
    requires TasksOk(s) && Finishes(s, s', k, j, output)
    ensures Moved(s.tables.tasks, s'.tables.tasks)
  {
    MovedBy(s, k, s'.tables.tasks);
  }

  ghost predicate Moved(earlier: seq<Task>, now: seq<Task>) {
    AllLater(earlier, now) && Ids(now) == Ids(earlier)
  }

  lemma MovedBy(s: Sys, k: nat, now: seq<Task>)
    requires TasksOk(s)
    requires now == s.tables.tasks
             || (k < |s.tables.tasks| && |now| > k && now == s.tables.tasks[k := now[k]]
                 && Later(s.tables.tasks[k], now[k]))
    ensures Moved(s.tables.tasks, now)
  {
    AllLaterReflexive(s.tables.tasks, s.known);
  }

  lemma AllLaterTransitive(a: seq<Task>, b: seq<Task>, c: seq<Task>)
    requires AllLater(a, b) && AllLater(b, c)
    ensures AllLater(a, c)
  {
    forall i | 0 <= i < |a| ensures Later(a[i], c[i]) {
      assert Later(a[i], b[i]) && Later(b[i], c[i]);
    }
  }

  lemma AllLaterReflexive(a: seq<Task>, known: set<string>)
    requires forall i :: 0 <= i < |a| ==> GoodTask(a[i], known)
    ensures AllLater(a, a)
  {
  }

  /** Over any stretch of a run, from its state after n steps to its end. */
  lemma {:induction false} StatusOnlyAdvances(es: seq<Step>, n: nat)
    requires Runs(es) && n <= |es|
    ensures Runs(es[..n]) && AllLater(State(es[..n]).tables.tasks, State(es).tables.tasks)
  {
    if n == |es| {
      assert es[..n] == es;
      Invariant(es);
      AllLaterReflexive(State(es).tables.tasks, State(es).known);
    } else {
      var before := es[..|es| - 1];
      StatusOnlyAdvances(before, n);
      assert before[..n] == es[..n];
      Invariant(before);
      StepForward(State(before), es[|es| - 1]);
      AllLaterTransitive(State(es[..n]).tables.tasks, State(before).tables.tasks, State(es).tables.tasks);
    }
  }

  // ----- tasks that can never be finished

  /** The worker of task i is still there, and the request or the answer is under way. */
  ghost predicate Answerable(s: Sys, i: nat)
    requires i < |s.tables.tasks|
  {
    var t := s.tables.tasks[i];
    t.workerId in s.threads && Request(t.workerId, t.id) in s.requests + s.results
  }

  ghost predicate Stranded(s: Sys, i: nat) {
    i < |s.tables.tasks| && s.tables.tasks[i].status == SentToWorker && !Answerable(s, i)
  }

  /** A stranded task stays as it is for the rest of every run: nothing sends it again. */
  lemma {:induction false} StrandedForever(es: seq<Step>, n: nat, i: nat)
    requires Runs(es) && n <= |es| && Runs(es[..n]) && Stranded(State(es[..n]), i)
    ensures Stranded(State(es), i) && State(es).tables.tasks[i] == State(es[..n]).tables.tasks[i]
  {
    if n == |es| {
      assert es[..n] == es;
    } else {
      var before := es[..|es| - 1];
      assert before[..n] == es[..n];
      StrandedForever(before, n, i);
      Invariant(before);
      StrandedStep(State(before), es[|es| - 1], i);
    }
  }

  lemma StrandedStep(s: Sys, e: Step, i: nat)
    requires Inv(s) && Enabled(s, e) && Stranded(s, i)
    ensures Stranded(Apply(s, e), i) && Apply(s, e).tables.tasks[i] == s.tables.tasks[i]
  {
    match e
    case Run(k) =>
      var m, j := RunShape(s, k);
      StrandedRun(s, Apply(s, e), k, m, j, i);
    case Check(id) =>
      var m, j := CheckShape(s, id);
      StrandedCheck(s, Apply(s, e), id, m, j, i);
    case Receive(r, output, clientTold) => StrandedReceive(s, r, output, clientTold, i);
    case Register(w) =>
      assert GoodTask(s.tables.tasks[i], s.known);
      StrandedOutside(s, e, i);
    case _ => StrandedOutside(s, e, i);
  }

  /** What the server does with the task table in no other step touches it or sends anything. */
  lemma StrandedOutside(s: Sys, e: Step, i: nat)
    requires Enabled(s, e) && Stranded(s, i) && !e.Run? && !e.Check? && !e.Receive?
    requires s.tables.tasks[i].workerId in s.known || !e.Register?
    ensures Stranded(Apply(s, e), i) && Apply(s, e).tables.tasks[i] == s.tables.tasks[i]
  {
  }

  lemma StrandedRun(s: Sys, s': Sys, k: nat, m: nat, j: nat, i: nat)
    requires DistinctIds(s.tables.tasks) && Stranded(s, i) && WaitingOk(s)
    requires Sends(s, s', k, m, j) || QueuesUp(s, s', k, m)
    ensures Stranded(s', i) && s'.tables.tasks[i] == s.tables.tasks[i]
  {
    SpawnedStatus(s, k);
    assert m != i;
  }

  lemma StrandedCheck(s: Sys, s': Sys, id: string, m: nat, j: nat, i: nat)
    requires DistinctIds(s.tables.tasks) && Stranded(s, i)
    requires Takes(s, s', id, m, j) || Passes(s, s', id)
    ensures Stranded(s', i) && s'.tables.tasks[i] == s.tables.tasks[i]
  {
  }

  lemma StrandedReceive(s: Sys, r: Request, output: string, clientTold: bool, i: nat)
    requires Inv(s) && Enabled(s, Receive(r, output, clientTold)) && Stranded(s, i)
    ensures var s' := Apply(s, Receive(r, output, clientTold));
            Stranded(s', i) && s'.tables.tasks[i] == s.tables.tasks[i]
  {
    var k, j := ReceiveFinishes(s, r, output);
    assert k != i;
  }

  lemma OneMore(es: seq<Step>, e: Step)
    requires Runs(es) && Enabled(State(es), e)
    ensures Runs(es + [e]) && State(es + [e]) == Apply(State(es), e)
  {
    assert (es + [e])[..|es|] == es;
  }

  /** Task i is in flight, the request or the answer is there, and its worker's thread listens. */
  ghost predicate Heard(s: Sys, i: nat) {
    && i < |s.tables.tasks| && s.tables.tasks[i].status == SentToWorker && Answerable(s, i)
    && !s.threads[s.tables.tasks[i].workerId].owes
  }

  lemma CheckThenHeard(s: Sys, i: nat)
    requires Inv(s) && i < |s.tables.tasks| && s.tables.tasks[i].status == SentToWorker && Answerable(s, i)
    requires s.threads[s.tables.tasks[i].workerId].owes
    ensures Heard(Apply(s, Check(s.tables.tasks[i].workerId)), i)
  {
    var id := s.tables.tasks[i].workerId;
    var m, j := CheckShape(s, id);
    ShapeHeard(s, Apply(s, Check(id)), id, m, j, i);
  }

  lemma ShapeHeard(s: Sys, s': Sys, id: string, m: nat, j: nat, i: nat)
    requires i < |s.tables.tasks| && s.tables.tasks[i].status == SentToWorker && Answerable(s, i)
    requires id == s.tables.tasks[i].workerId && (Takes(s, s', id, m, j) || Passes(s, s', id))
    ensures Heard(s', i)
  {
  }

  lemma ReceiveThenReady(s: Sys, i: nat, r: Request)
    requires Inv(s) && Heard(s, i) && r == Request(s.tables.tasks[i].workerId, s.tables.tasks[i].id) && r in s.results
    ensures Enabled(s, Receive(r, "", true))
    ensures i < |Apply(s, Receive(r, "", true)).tables.tasks|
    ensures Apply(s, Receive(r, "", true)).tables.tasks[i].status == Ready
  {
    var k, j := ReceiveFinishes(s, r, "");
    assert k == i;
  }

  lemma AnswerThenHeard(s: Sys, i: nat, r: Request)
    requires Heard(s, i) && r == Request(s.tables.tasks[i].workerId, s.tables.tasks[i].id) && r in s.requests
    ensures Heard(Apply(s, Answer(r)), i) && r in Apply(s, Answer(r)).results
  {
  }

  /** Some run that continues es makes task i Ready. */
  ghost predicate CanFinish(es: seq<Step>, i: nat) {
    exists longer :: FinishesIn(es, longer, i)
  }

  ghost predicate FinishesIn(es: seq<Step>, longer: seq<Step>, i: nat) {
    es <= longer && ReadyAfter(longer, i)
  }

  ghost predicate ReadyAfter(es: seq<Step>, i: nat) {
    Runs(es) && i < |State(es).tables.tasks| && State(es).tables.tasks[i].status == Ready
  }

  lemma IsFinished(es: seq<Step>, i: nat)
    requires ReadyAfter(es, i)
    ensures CanFinish(es, i)
  {
    assert FinishesIn(es, es, i);
  }

  lemma StepThenFinish(es: seq<Step>, e: Step, i: nat)
    requires CanFinish(es + [e], i)
    ensures CanFinish(es, i)
  {
    var longer :| FinishesIn(es + [e], longer, i);
    assert FinishesIn(es, longer, i);
  }

  lemma ResultCanFinish(es: seq<Step>, i: nat, r: Request)
    requires Runs(es) && Heard(State(es), i) && r in State(es).results
    requires r == Request(State(es).tables.tasks[i].workerId, State(es).tables.tasks[i].id)
    ensures CanFinish(es, i)
  {
    Invariant(es);
    ReceiveThenReady(State(es), i, r);
    OneMore(es, Receive(r, "", true));
    IsFinished(es + [Receive(r, "", true)], i);
    StepThenFinish(es, Receive(r, "", true), i);
  }

  lemma HeardCanFinish(es: seq<Step>, i: nat)
    requires Runs(es) && Heard(State(es), i)
    ensures CanFinish(es, i)
  {
    var s := State(es);
    var r := Request(s.tables.tasks[i].workerId, s.tables.tasks[i].id);
    if r in s.requests {
      AnswerThenHeard(s, i, r);
      OneMore(es, Answer(r));
      ResultCanFinish(es + [Answer(r)], i, r);
      StepThenFinish(es, Answer(r), i);
    } else {
      ResultCanFinish(es, i, r);
    }
  }

  lemma AnswerableCanFinish(es: seq<Step>, i: nat)
    requires Runs(es) && i < |State(es).tables.tasks| && State(es).tables.tasks[i].status == SentToWorker
    requires Answerable(State(es), i)
    ensures CanFinish(es, i)
  {
    var s := State(es);
    var id := s.tables.tasks[i].workerId;
    if s.threads[id].owes {
      Invariant(es);
      CheckThenHeard(s, i);
      OneMore(es, Check(id));
      HeardCanFinish(es + [Check(id)], i);
      StepThenFinish(es, Check(id), i);
    } else {
      HeardCanFinish(es, i);
    }
  }

  lemma StrandedCannotFinish(es: seq<Step>, longer: seq<Step>, i: nat)
    requires Runs(es) && Stranded(State(es), i)
    ensures !FinishesIn(es, longer, i)
  {
    if es <= longer && Runs(longer) {
      assert longer[..|es|] == es;
      StrandedForever(longer, |es|, i);
    }
  }

  /** A task sent to a worker can still become Ready exactly when that worker is connected and the
      request or its answer has not been lost. */
  lemma ReadyExactlyWhenAnswerable(es: seq<Step>, i: nat)
    requires Runs(es) && i < |State(es).tables.tasks| && State(es).tables.tasks[i].status == SentToWorker
    ensures CanFinish(es, i) <==> Answerable(State(es), i)
  {
    if Answerable(State(es), i) {
      AnswerableCanFinish(es, i);
    } else {
      forall longer ensures !FinishesIn(es, longer, i) {
        StrandedCannotFinish(es, longer, i);
      }
    }
  }

  /** No task is sent twice, and the requests sent are those of the tasks no longer waiting, to the
      worker the table names. */
  lemma SentOnce(es: seq<Step>)
    requires Runs(es)
    ensures var s := State(es);
            && (forall i, j :: 0 <= i < j < |s.sent| ==> s.sent[i].taskId != s.sent[j].taskId)
            && (forall r :: r in s.sent <==>
                  exists i :: 0 <= i < |s.tables.tasks| && s.tables.tasks[i].status != Queued
                              && r == Request(s.tables.tasks[i].workerId, s.tables.tasks[i].id))
  {
    Invariant(es);
    var s := State(es);
    forall r | r in s.sent
      ensures exists i :: 0 <= i < |s.tables.tasks| && s.tables.tasks[i].status != Queued
                          && r == Request(s.tables.tasks[i].workerId, s.tables.tasks[i].id)
    {
      var i :| 0 <= i < |s.tables.tasks| && s.tables.tasks[i].id == r.taskId && s.tables.tasks[i].workerId == r.workerId;
      assert r == Request(s.tables.tasks[i].workerId, s.tables.tasks[i].id);
    }
  }

  /** Tasks leave the queue in the order they entered it. */
  lemma FirstInFirstOut(es: seq<Step>)
    requires Runs(es)
    ensures State(es).dequeued + Ids(State(es).tables.queue) == State(es).enqueued
    ensures forall i, j :: 0 <= i < j < |State(es).enqueued| ==> State(es).enqueued[i] != State(es).enqueued[j]
  {
    Invariant(es);
    EnqueuedOnce(es);
  }

  /** An id from the queue belongs to a task in the queue or already sent. */
  ghost predicate EnqueuedOk(s: Sys) {
    && (forall i, j :: 0 <= i < j < |s.enqueued| ==> s.enqueued[i] != s.enqueued[j])
    && (forall k :: 0 <= k < |s.spawned| ==> s.spawned[k].id !in s.enqueued)
    && (forall x :: x in s.enqueued ==> exists i :: 0 <= i < |s.tables.tasks| && s.tables.tasks[i].id == x)
  }

  lemma {:induction false} EnqueuedOnce(es: seq<Step>)
    requires Runs(es)
    ensures EnqueuedOk(State(es))
  {
    if es != [] {
      var before := es[..|es| - 1];
      EnqueuedOnce(before);
      Invariant(before);
      EnqueuedStep(State(before), es[|es| - 1]);
    }
  }

  lemma EnqueuedStep(s: Sys, e: Step)
    requires Inv(s) && EnqueuedOk(s) && Enabled(s, e)
    ensures EnqueuedOk(Apply(s, e))
  {
    StepForward(s, e);
    match e
    case Run(k) =>
      var m, j := RunShape(s, k);
      EnqueuedByRun(s, Apply(s, e), k, m, j);
    case Check(id) =>
      var m, j := CheckShape(s, id);
      EnqueuedByCheck(s, Apply(s, e), id, m, j);
    case _ =>
      NoneEnqueued(s, e);
      EnqueuedStay(s, Apply(s, e));
  }

  lemma NoneEnqueued(s: Sys, e: Step)
    requires EnqueuedOk(s) && Enabled(s, e) && !e.Run? && !e.Check?
    ensures Apply(s, e).enqueued == s.enqueued
    ensures forall k :: 0 <= k < |Apply(s, e).spawned| ==> Apply(s, e).spawned[k].id !in s.enqueued
  {
  }

  lemma EnqueuedByCheck(s: Sys, s': Sys, id: string, m: nat, j: nat)
    requires EnqueuedOk(s) && AllLater(s.tables.tasks, s'.tables.tasks)
    requires Takes(s, s', id, m, j) || Passes(s, s', id)
    ensures EnqueuedOk(s')
  {
    EnqueuedStay(s, s');
  }

  lemma EnqueuedStay(s: Sys, s': Sys)
    requires EnqueuedOk(s) && AllLater(s.tables.tasks, s'.tables.tasks) && s'.enqueued == s.enqueued
    requires forall k :: 0 <= k < |s'.spawned| ==> s'.spawned[k].id !in s.enqueued
    ensures EnqueuedOk(s')
  {
    forall x | x in s'.enqueued ensures exists i :: 0 <= i < |s'.tables.tasks| && s'.tables.tasks[i].id == x {
      var i :| 0 <= i < |s.tables.tasks| && s.tables.tasks[i].id == x;
      assert Later(s.tables.tasks[i], s'.tables.tasks[i]);
    }
  }

  lemma EnqueuedByRun(s: Sys, s': Sys, k: nat, m: nat, j: nat)
    requires WaitingOk(s) && EnqueuedOk(s) && AllLater(s.tables.tasks, s'.tables.tasks)
    requires Sends(s, s', k, m, j) || QueuesUp(s, s', k, m)
    ensures EnqueuedOk(s')
  {
    SpawnedOthers(s, k);
    EnqueuedStay(s, s'.(enqueued := s.enqueued));
    if QueuesUp(s, s', k, m) {
      assert s'.tables.tasks[m].id == s.spawned[k].id;
      EnqueuedMore(s'.(enqueued := s.enqueued), s', s.spawned[k].id);
    }
  }

  lemma EnqueuedMore(s: Sys, s': Sys, x: string)
    requires EnqueuedOk(s) && s' == s.(enqueued := s.enqueued + [x]) && x !in s.enqueued
    requires exists i :: 0 <= i < |s.tables.tasks| && s.tables.tasks[i].id == x
    requires forall k :: 0 <= k < |s.spawned| ==> s.spawned[k].id != x
    ensures EnqueuedOk(s')
  {
    assert forall i :: 0 <= i < |s.enqueued| ==> s.enqueued[i] in s.enqueued;
  }

  lemma SpawnedOthers(s: Sys, k: nat)
    requires WaitingOk(s) && k < |s.spawned|
    ensures forall i :: 0 <= i < |s.spawned| && i != k ==> s.spawned[i].id != s.spawned[k].id
  {
    assert forall i :: 0 <= i < |s.spawned| ==> Waiting(s)[i] == s.spawned[i];
  }

  // ----- exceptions

  /** No task's thread throws, and no look at the queue does. */
  lemma DispatchNeverThrows(es: seq<Step>)
    requires Runs(es)
    ensures var s := State(es);
            && (forall k :: 0 <= k < |s.spawned| ==> !ProcessTask(s.tables, s.spawned[k]).thrown)
            && (forall id :: id in s.threads ==> !CheckTaskQueue(s.tables, s.threads[id].copy).thrown)
  {
    Invariant(es);
    var s := State(es);
    forall k | 0 <= k < |s.spawned| ensures !ProcessTask(s.tables, s.spawned[k]).thrown {
      var m, j := RunOutcome(s, k);
    }
    forall id | id in s.threads ensures !CheckTaskQueue(s.tables, s.threads[id].copy).thrown {
      var m, j := CheckOutcome(s, id);
    }
  }

  /** How many of the connections of client id are open: those that joined less those that left. */
  ghost function Present(es: seq<Step>, id: string): nat {
    if es == [] then 0
    else
      var before, e := Present(es[..|es| - 1], id), es[|es| - 1];
      if e == ClientJoins(id) then before + 1
      else if e == ClientLeaves(id) && before > 0 then before - 1
      else before
  }

  /** The client table holds a row for each of them, and no other. */
  lemma {:induction false} ClientsArePresent(es: seq<Step>, id: string)
    requires Runs(es)
    ensures multiset(State(es).tables.clients)[id] == Present(es, id)
  {
    if es != [] {
      ClientsArePresent(es[..|es| - 1], id);
      ClientsStep(State(es[..|es| - 1]), es[|es| - 1], id);
    }
  }

  lemma ClientsStep(s: Sys, e: Step, id: string)
    requires Enabled(s, e)
    ensures var before, now := multiset(s.tables.clients)[id], multiset(Apply(s, e).tables.clients)[id];
            now == if e == ClientJoins(id) then before + 1
                   else if e == ClientLeaves(id) && before > 0 then before - 1
                   else before
  {
    if e.ClientLeaves? {
      var k := RemovesFirst(s.tables.clients, e.clientId);
    } else if !e.ClientJoins? {
      ClientsKept(s, e);
    }
  }

  lemma ClientsKept(s: Sys, e: Step)
    requires Enabled(s, e) && !e.ClientJoins? && !e.ClientLeaves?
    ensures Apply(s, e).tables.clients == s.tables.clients
  {
    match e
    case Run(k) => RunKeepsClients(s, k, ProcessTask(s.tables, s.spawned[k]));
    case Check(id) => CheckKeepsClients(s, id, CheckTaskQueue(s.tables, s.threads[id].copy));
    case Receive(r, output, clientTold) => ResultKeepsClients(s.tables, r.taskId, output);
    case _ =>
  }

  lemma RunKeepsClients(s: Sys, k: nat, o: Outcome)
    requires k < |s.spawned| && o == ProcessTask(s.tables, s.spawned[k])
    ensures AfterRun(s, k, o).tables.clients == s.tables.clients
  {
  }

  lemma CheckKeepsClients(s: Sys, id: string, o: Outcome)
    requires id in s.threads && o == CheckTaskQueue(s.tables, s.threads[id].copy)
    ensures AfterCheck(s, id, o).tables.clients == s.tables.clients
  {
  }

  lemma ResultKeepsClients(t: Tables, id: string, output: string)
    ensures HandleResult(t, id, output).tables.clients == t.clients
  {
  }

  /** Handling a result throws, and so ends the worker's thread, exactly when no connection of the
      task's client is open. */
  lemma ResultThrowsExactlyWhenClientGone(es: seq<Step>, r: Request, output: string, clientTold: bool)
    returns (k: nat)
    requires Runs(es) && r in State(es).results && r.workerId in State(es).threads
    ensures var s := State(es);
            && k < |s.tables.tasks| && s.tables.tasks[k].id == r.taskId
            && (HandleResult(s.tables, r.taskId, output).thrown <==> Present(es, s.tables.tasks[k].clientId) == 0)
            && (Enabled(s, Receive(r, output, clientTold)) ==>
                  (r.workerId in Apply(s, Receive(r, output, clientTold)).threads
                   <==> Present(es, s.tables.tasks[k].clientId) > 0))
  {
    Invariant(es);
    var j: nat;
    k, j := ReceiveOutcome(State(es), r, output);
    ClientsArePresent(es, State(es).tables.tasks[k].clientId);
    if Enabled(State(es), Receive(r, output, clientTold)) {
      ThrowEndsThread(State(es), r, output, clientTold);
    }
  }

  lemma ThrowEndsThread(s: Sys, r: Request, output: string, clientTold: bool)
    requires Enabled(s, Receive(r, output, clientTold))
    ensures r.workerId in Apply(s, Receive(r, output, clientTold)).threads
       <==> !HandleResult(s.tables, r.taskId, output).thrown
  {
  }

  /** Whatever the tables, handling a result throws exactly when its task, the task's worker or the
      task's client is not in them, and what it changes before that stays: a task that is found is
      Ready with the output, whether or not its worker or client is. */
  lemma ResultThrowsExactly(t: Tables, id: string, output: string)
    ensures var o, k := HandleResult(t, id, output), Index(Ids(t.tasks), id);
            && o.sent.None? && o.tables.queue == t.queue && o.tables.clients == t.clients
            && (k == |t.tasks| ==> o == Outcome(t, None, true))
            && (k < |t.tasks| ==>
                  && o.tables.tasks == t.tasks[k := t.tasks[k].(status := Ready, output := output)]
                  && (o.thrown <==> t.tasks[k].workerId !in WorkerIds(t.workers) || t.tasks[k].clientId !in t.clients)
                  && (t.tasks[k].workerId !in WorkerIds(t.workers) ==> o.tables.workers == t.workers))
  {
    var k := Index(Ids(t.tasks), id);
    if k < |t.tasks| {
      FoundIfThere(WorkerIds(t.workers), t.tasks[k].workerId);
    }
  }

  /** A task without an id is stored under a made-up one, but its thread keeps the empty id: its
      handler throws exactly when a worker is free for it, and otherwise queues the task, with the
      empty id. */
  lemma EmptyIdThrows(t: Tables, task: Task)
    requires forall i :: 0 <= i < |t.tasks| ==> t.tasks[i].id != ""
    requires forall i :: 0 <= i < |t.workers| ==> t.workers[i].id != ""
    ensures var stored := t.(tasks := AddTask(t.tasks, task));
            var free := exists j :: 0 <= j < |t.workers| && Eligible(t.workers[j], task.cores);
            && (forall i :: 0 <= i < |stored.tasks| ==> stored.tasks[i].id != "")
            && (ProcessTask(stored, task).thrown <==> task.id == "" && free)
            && (ProcessTask(stored, task).thrown ==> ProcessTask(stored, task) == Outcome(stored, None, true))
            && (!free ==> ProcessTask(stored, task) == Outcome(stored.(queue := t.queue + [task]), None, false))
  {
    var stored := t.(tasks := AddTask(t.tasks, task));
    assert stored.tasks[|t.tasks|].id != "";
    match BestIndex(t.workers, |t.workers|, task.cores)
    case None =>
    case Some(j) =>
      assert Index(WorkerIds(t.workers), t.workers[j].id) < |t.workers|;
      if task.id != "" {
        assert stored.tasks[|t.tasks|].id == task.id;
        assert Index(Ids(stored.tasks), task.id) < |stored.tasks|;
      }
  }

  /** Once queued, it makes the look at the queue that takes it throw, which ends the thread of the
      worker: exactly when it fits the thread's copy. The task is then neither sent nor queued, and
      its cores stay booked on a worker that is in the table. */
  lemma EmptyIdInQueueThrows(t: Tables, worker: Worker)
    requires forall i :: 0 <= i < |t.tasks| ==> t.tasks[i].id != ""
    requires t.queue != [] && t.queue[0].id == ""
    ensures var o, k := CheckTaskQueue(t, worker), Index(WorkerIds(t.workers), worker.id);
            && (o.thrown <==> t.queue[0].cores <= FreeCores(worker))
            && (!o.thrown ==> o == Outcome(t, None, false))
            && (o.thrown ==>
                  && o.sent.None? && o.tables.queue == t.queue[1..] && o.tables.tasks == t.tasks
                  && o.tables.workers
                     == if k < |t.workers| then
                          t.workers[k := t.workers[k].(usedCores := Changed(t.workers[k].usedCores, t.queue[0].cores, true))]
                        else t.workers)
  {
    assert Index(Ids(t.tasks), "") == |t.tasks|;
  }
}
