/** The server with all its threads: one per worker and per client connection, and one per task
    accepted. Each handler is one step; steps interleave freely, and messages can be lost. */
module SchedulerSystem {
  import opened SchedulerTables

  /** A worker's connection thread: its own copy of the worker, never updated, and whether it has
      yet to look at the queue before it waits for the next message. */
  datatype Thread = Thread(copy: Worker, owes: bool)

  /** `spawned` holds the tasks of threads not yet run; `requests` and `results` what is on its way
      to and from workers. The last four fields record the run: the ids enqueued, the ids taken
      from the queue, the requests sent, and every worker id ever registered. */
  datatype Sys = Sys(tables: Tables, spawned: seq<Task>, threads: map<string, Thread>,
                     requests: set<Request>, results: set<Request>,
                     enqueued: seq<string>, dequeued: seq<string>, sent: seq<Request>, known: set<string>)

  datatype Step =
    | Accept(task: Task)                                  // a client's TaskRequest
    | Run(k: nat)                                         // the thread of spawned task k runs
    | Register(worker: Worker)                            // a worker connects
    | Check(workerId: string)                             // its thread looks at the queue
    | Answer(r: Request)                                  // a worker takes up a request and answers
    | Receive(r: Request, output: string, clientTold: bool) // its thread handles the answer
    | Leave(workerId: string)                             // its thread ends at a receive
    | ClientJoins(clientId: string)
    | ClientLeaves(clientId: string)
    | Lose(r: Request)

  const START := Sys(Tables([], [], [], []), [], map[], {}, {}, [], [], [], {})

  ghost predicate FreshTaskId(s: Sys, id: string) {
    id != "" && forall i :: 0 <= i < |s.tables.tasks| ==> s.tables.tasks[i].id != id
  }

  /** The assumptions on the outside world are the guards of Accept, Register and Answer. */
  ghost predicate Enabled(s: Sys, e: Step) {
    match e
    case Accept(task) =>
      && FreshTaskId(s, task.id) && task.cores >= 1
      && task.status == Queued && task.workerId == ""
    case Run(k) => k < |s.spawned|
    case Register(w) => w.id != "" && w.id !in s.known && w.usedCores == 0
    case Check(id) => id in s.threads && s.threads[id].owes
    case Answer(r) => r in s.requests
    case Receive(r, _, _) => r in s.results && r.workerId in s.threads && !s.threads[r.workerId].owes
    case Leave(id) => id in s.threads && !s.threads[id].owes
    case ClientJoins(_) => true
    case ClientLeaves(_) => true
    case Lose(r) => r in s.requests || r in s.results
  }

  ghost function Sent(o: Outcome): seq<Request> {
    if o.sent.Some? then [o.sent.value] else []
  }

  ghost function Log(s: Sys, o: Outcome): Sys {
    s.(tables := o.tables, sent := s.sent + Sent(o),
       requests := s.requests + if o.sent.Some? then {o.sent.value} else {})
  }

  /** A worker's thread ends: processConnection removes the worker. */
  ghost function EndThread(s: Sys, id: string): Sys {
    s.(tables := s.tables.(workers := RemoveWorker(s.tables.workers, id)), threads := s.threads - {id})
  }

  /** The thread of spawned task k has run, with outcome o. */
  ghost function AfterRun(s: Sys, k: nat, o: Outcome): Sys
    requires k < |s.spawned|
  {
    var s1 := s.(spawned := s.spawned[..k] + s.spawned[k + 1..],
                 enqueued := if |o.tables.queue| > |s.tables.queue| then s.enqueued + [s.spawned[k].id] else s.enqueued);
    Log(s1, o)
  }

  /** The thread of worker id has looked at the queue, with outcome o. */
  ghost function AfterCheck(s: Sys, id: string, o: Outcome): Sys
    requires id in s.threads
  {
    var took := |o.tables.queue| < |s.tables.queue|;
    var s1 := s.(dequeued := if took then s.dequeued + [s.tables.queue[0].id] else s.dequeued,
                 threads := s.threads[id := s.threads[id].(owes := false)]);
    if o.thrown then EndThread(Log(s1, o), id) else Log(s1, o)
  }

  ghost function Apply(s: Sys, e: Step): Sys
    requires Enabled(s, e)
  {
    match e
    case Accept(task) =>
      s.(tables := s.tables.(tasks := AddTask(s.tables.tasks, task)), spawned := s.spawned + [task])
    case Run(k) => AfterRun(s, k, ProcessTask(s.tables, s.spawned[k]))
    case Register(w) =>
      s.(tables := s.tables.(workers := s.tables.workers + [w]), threads := s.threads[w.id := Thread(w, true)],
         known := s.known + {w.id})
    case Check(id) => AfterCheck(s, id, CheckTaskQueue(s.tables, s.threads[id].copy))
    case Answer(r) => s.(requests := s.requests - {r}, results := s.results + {r})
    case Receive(r, output, clientTold) =>
      var o := HandleResult(s.tables, r.taskId, output);
      var s1 := s.(tables := o.tables, results := s.results - {r});
      if o.thrown then EndThread(s1, r.workerId)
      else s1.(threads := s.threads[r.workerId := s.threads[r.workerId].(owes := clientTold)])
    case Leave(id) => EndThread(s, id)
    case ClientJoins(c) => s.(tables := s.tables.(clients := s.tables.clients + [c]))
    case ClientLeaves(c) => s.(tables := s.tables.(clients := RemoveClient(s.tables.clients, c)))
    case Lose(r) => s.(requests := s.requests - {r}, results := s.results - {r})
  }

  ghost predicate Runs(es: seq<Step>)
    decreases |es|, 0
  {
    es == [] || (Runs(es[..|es| - 1]) && Enabled(State(es[..|es| - 1]), es[|es| - 1]))
  }

  ghost function State(es: seq<Step>): Sys
    requires Runs(es)
    decreases |es|, 1
  {
    if es == [] then START else Apply(State(es[..|es| - 1]), es[|es| - 1])
  }

  // ----- sums over the task table

  /** What a task adds to a sum: the cores, or one, for a task in flight at worker w; or its cores
      if it also came from the queue. */
  datatype Measure = Cores(w: string) | Count(w: string) | FromQueue(w: string, dequeued: seq<string>)

  predicate InFlight(t: Task, w: string) {
    t.status == SentToWorker && t.workerId == w
  }

  function Weight(m: Measure, t: Task): int {
    match m
    case Cores(w) => if InFlight(t, w) then t.cores else 0
    case Count(w) => if InFlight(t, w) then 1 else 0
    case FromQueue(w, dequeued) => if InFlight(t, w) && t.id in dequeued then t.cores else 0
  }

  function Sum(m: Measure, tasks: seq<Task>): int {
    if tasks == [] then 0 else Sum(m, tasks[..|tasks| - 1]) + Weight(m, tasks[|tasks| - 1])
  }

  lemma {:induction false} SumUpdate(m: Measure, tasks: seq<Task>, k: nat, t: Task)
    requires k < |tasks|
    ensures Sum(m, tasks[k := t]) == Sum(m, tasks) - Weight(m, tasks[k]) + Weight(m, t)
  {
    var n := |tasks| - 1;
    if k < n {
      SumUpdate(m, tasks[..n], k, t);
      assert tasks[k := t][..n] == tasks[..n][k := t];
    } else {
      assert tasks[k := t][..n] == tasks[..n];
    }
  }

  lemma SumAppend(m: Measure, tasks: seq<Task>, t: Task)
    ensures Sum(m, tasks + [t]) == Sum(m, tasks) + Weight(m, t)
  {
    assert (tasks + [t])[..|tasks|] == tasks;
  }

  lemma {:induction false} SumSame(m: Measure, m': Measure, tasks: seq<Task>)
    requires forall i :: 0 <= i < |tasks| ==> Weight(m, tasks[i]) == Weight(m', tasks[i])
    ensures Sum(m, tasks) == Sum(m', tasks)
  {
    if tasks != [] {
      SumSame(m, m', tasks[..|tasks| - 1]);
    }
  }

  lemma {:induction false} SumZero(m: Measure, tasks: seq<Task>)
    requires forall i :: 0 <= i < |tasks| ==> Weight(m, tasks[i]) == 0
    ensures Sum(m, tasks) == 0
  {
    if tasks != [] {
      SumZero(m, tasks[..|tasks| - 1]);
    }
  }

  /** Tasks of at least one core weigh at least their number, and at most their number times any
      bound on their cores. */
  lemma {:induction false} CountBounds(w: string, tasks: seq<Task>, bound: nat)
    requires forall i :: 0 <= i < |tasks| && InFlight(tasks[i], w) ==> 1 <= tasks[i].cores <= bound
    ensures 0 <= Sum(Count(w), tasks) <= Sum(Cores(w), tasks) <= Sum(Count(w), tasks) * bound
  {
    if tasks != [] {
      CountBounds(w, tasks[..|tasks| - 1], bound);
      var n := Sum(Count(w), tasks[..|tasks| - 1]);
      assert (n + 1) * bound == n * bound + bound;
    }
  }

  lemma {:induction false} FromQueueAtMost(w: string, dequeued: seq<string>, tasks: seq<Task>)
    requires forall i :: 0 <= i < |tasks| && InFlight(tasks[i], w) ==> 1 <= tasks[i].cores
    ensures 0 <= Sum(FromQueue(w, dequeued), tasks) <= Sum(Cores(w), tasks)
  {
    if tasks != [] {
      FromQueueAtMost(w, dequeued, tasks[..|tasks| - 1]);
    }
  }

  // ----- the invariant

  ghost function Waiting(s: Sys): seq<Task> {
    s.spawned + s.tables.queue
  }

  ghost predicate DistinctIds(tasks: seq<Task>) {
    forall i, j :: 0 <= i < j < |tasks| ==> tasks[i].id != tasks[j].id
  }

  ghost predicate GoodTask(t: Task, known: set<string>) {
    && t.id != "" && t.cores >= 1
    && (t.status == Queued || t.status == SentToWorker || t.status == Ready)
    && (if t.status == Queued then t.workerId == "" else t.workerId != "" && t.workerId in known)
  }

  ghost predicate TasksOk(s: Sys) {
    && DistinctIds(s.tables.tasks)
    && forall i :: 0 <= i < |s.tables.tasks| ==> GoodTask(s.tables.tasks[i], s.known)
  }

  /** The tasks waiting in a thread or in the queue are exactly those with status Queued, each in
      one place, and each copy agrees with the table. */
  ghost predicate WaitingOk(s: Sys) {
    && DistinctIds(Waiting(s))
    && (forall k :: 0 <= k < |Waiting(s)| ==> Waiting(s)[k] in s.tables.tasks && Waiting(s)[k].status == Queued)
    && (forall i :: 0 <= i < |s.tables.tasks| && s.tables.tasks[i].status == Queued ==> s.tables.tasks[i] in Waiting(s))
  }

  ghost predicate WorkersOk(s: Sys) {
    && (forall i, j :: 0 <= i < j < |s.tables.workers| ==> s.tables.workers[i].id != s.tables.workers[j].id)
    && (forall i :: 0 <= i < |s.tables.workers| ==>
          var w := s.tables.workers[i];
          && w.id != "" && w.id in s.known && w.id in s.threads
          && s.threads[w.id].copy == Worker(w.id, w.cores, 0))
    && (forall id :: id in s.threads ==> exists i :: 0 <= i < |s.tables.workers| && s.tables.workers[i].id == id)
  }

  ghost function Owed(s: Sys, id: string): int {
    if id in s.threads && s.threads[id].owes then 1 else 0
  }

  ghost function Capacity(w: Worker): nat {
    if w.cores < 0 then 0 else w.cores
  }

  /** The used cores are those of the tasks in flight; these are not too many, and none is larger
      than the worker; and what exceeds the worker's cores came from the queue. */
  ghost predicate LoadOk(s: Sys, w: Worker) {
    && w.usedCores == Sum(Cores(w.id), s.tables.tasks)
    && Sum(Count(w.id), s.tables.tasks) + Owed(s, w.id) <= Capacity(w) + 1
    && (forall i :: 0 <= i < |s.tables.tasks| && InFlight(s.tables.tasks[i], w.id) ==>
          s.tables.tasks[i].cores <= w.cores)
    && w.usedCores <= Capacity(w) + Sum(FromQueue(w.id, s.dequeued), s.tables.tasks)
  }

  ghost predicate LoadsOk(s: Sys) {
    forall i :: 0 <= i < |s.tables.workers| ==> LoadOk(s, s.tables.workers[i])
  }

  /** A request or answer under way belongs to a task in flight at that worker. */
  ghost predicate WireOk(s: Sys) {
    && s.requests !! s.results
    && forall r :: r in s.requests + s.results ==>
         exists i :: 0 <= i < |s.tables.tasks| && s.tables.tasks[i].id == r.taskId
                     && InFlight(s.tables.tasks[i], r.workerId)
  }

  ghost predicate QueueOk(s: Sys) {
    s.dequeued + Ids(s.tables.queue) == s.enqueued
  }

  /** No task has been sent twice, and those sent are exactly those no longer Queued. */
  ghost predicate SentOk(s: Sys) {
    && (forall i, j :: 0 <= i < j < |s.sent| ==> s.sent[i].taskId != s.sent[j].taskId)
    && (forall i :: 0 <= i < |s.tables.tasks| ==>
          (s.tables.tasks[i].status != Queued <==> Request(s.tables.tasks[i].workerId, s.tables.tasks[i].id) in s.sent))
    && (forall r :: r in s.sent ==> exists i :: 0 <= i < |s.tables.tasks| && s.tables.tasks[i].id == r.taskId
                                                && s.tables.tasks[i].workerId == r.workerId)
  }

  ghost predicate Inv(s: Sys) {
    TasksOk(s) && WaitingOk(s) && WorkersOk(s) && LoadsOk(s) && WireOk(s) && QueueOk(s) && SentOk(s)
  }
}
