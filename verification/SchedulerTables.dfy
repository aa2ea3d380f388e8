/** The server's tables and what its handlers do to them, as functions. Tables are scanned from
    the front, as the services do; an exception leaves the changes made before it. The classes in
    SchedulerServices are proved against these functions. */
module SchedulerTables {
  import opened Wrappers

  datatype TaskStatus = Created | Queued | SentToWorker | Ready | Failed

  datatype Task = Task(id: string, func: string, input: string, output: string, cores: int,
                       status: TaskStatus, workerId: string, clientId: string)

  datatype Worker = Worker(id: string, cores: int, usedCores: int)

  /** What findMostFreeWorker returns when no worker will do. */
  const NO_WORKER := Worker("", 0, 0)

  datatype Tables = Tables(tasks: seq<Task>, workers: seq<Worker>, clients: seq<string>, queue: seq<Task>)

  // ----- scans

  function Ids(tasks: seq<Task>): (ids: seq<string>)
    ensures |ids| == |tasks|
    ensures forall i :: 0 <= i < |tasks| ==> ids[i] == tasks[i].id
  {
    seq(|tasks|, i requires 0 <= i < |tasks| => tasks[i].id)
  }

  function WorkerIds(workers: seq<Worker>): (ids: seq<string>)
    ensures |ids| == |workers|
    ensures forall i :: 0 <= i < |workers| ==> ids[i] == workers[i].id
  {
    seq(|workers|, i requires 0 <= i < |workers| => workers[i].id)
  }

  /** Where id first stands; the number of ids when it is not there. */
  function Index(ids: seq<string>, id: string): (k: nat)
    ensures k <= |ids|
    ensures k < |ids| ==> ids[k] == id
    ensures forall i :: 0 <= i < k ==> ids[i] != id
  {
    if ids == [] then 0 else if ids[0] == id then 0 else 1 + Index(ids[1..], id)
  }

  /** None where the program throws "Task not found". */
  function FindTask(tasks: seq<Task>, id: string): Option<Task> {
    var k := Index(Ids(tasks), id);
    if k < |tasks| then Some(tasks[k]) else None
  }

  function UpdateTask(tasks: seq<Task>, task: Task): Option<seq<Task>> {
    var k := Index(Ids(tasks), task.id);
    if k < |tasks| then Some(tasks[k := task]) else None
  }

  lemma FoundIfThere(ids: seq<string>, id: string)
    ensures id in ids <==> Index(ids, id) < |ids|
  {
    if id in ids {
      var i :| 0 <= i < |ids| && ids[i] == id;
    }
  }

  /** Finding and updating succeed exactly for an id in the table, and reach its first task. */
  lemma LookupsExactly(tasks: seq<Task>, task: Task)
    ensures FindTask(tasks, task.id).Some? <==> task.id in Ids(tasks)
    ensures UpdateTask(tasks, task).Some? <==> task.id in Ids(tasks)
    ensures task.id in Ids(tasks) ==>
              exists k: nat :: k < |tasks| && tasks[k].id == task.id && task.id !in Ids(tasks[..k])
                               && FindTask(tasks, task.id) == Some(tasks[k])
                               && UpdateTask(tasks, task) == Some(tasks[..k] + [task] + tasks[k + 1..])
  {
    FoundIfThere(Ids(tasks), task.id);
    var k := Index(Ids(tasks), task.id);
    if k < |tasks| {
      assert tasks[k := task] == tasks[..k] + [task] + tasks[k + 1..];
    }
  }

  /** The used cores after a change, reset to zero when they would be negative. */
  function Changed(usedCores: int, cores: int, increase: bool): int {
    var used := if increase then usedCores + cores else usedCores - cores;
    if used < 0 then 0 else used
  }

  function ModifyUsedCores(workers: seq<Worker>, id: string, cores: int, increase: bool): Option<seq<Worker>> {
    var k := Index(WorkerIds(workers), id);
    if k < |workers| then
      Some(workers[k := workers[k].(usedCores := Changed(workers[k].usedCores, cores, increase))])
    else None
  }

  function RemoveWorker(workers: seq<Worker>, id: string): seq<Worker> {
    var k := Index(WorkerIds(workers), id);
    if k < |workers| then workers[..k] + workers[k + 1..] else workers
  }

  function RemoveClient(clients: seq<string>, id: string): seq<string> {
    var k := Index(clients, id);
    if k < |clients| then clients[..k] + clients[k + 1..] else clients
  }

  /** The first row of id leaves and the others stay in their order; without one nothing changes. */
  lemma RemovesFirst(clients: seq<string>, id: string) returns (k: nat)
    ensures k <= |clients| && id !in clients[..k]
    ensures if k < |clients| then clients[k] == id && RemoveClient(clients, id) == clients[..k] + clients[k + 1..]
            else RemoveClient(clients, id) == clients
    ensures multiset(RemoveClient(clients, id)) == multiset(clients) - multiset{id}
  {
    k := Index(clients, id);
    if k < |clients| {
      assert clients == clients[..k] + ([id] + clients[k + 1..]);
    } else {
      assert clients[..k] == clients;
      assert id !in multiset(clients);
    }
  }

  /** Whatever the table, a change of used cores reaches the first row of that id alone, and no count
      is left negative that was not. */
  lemma ModifiesOneRow(workers: seq<Worker>, id: string, cores: int, increase: bool)
    ensures var k, modified := Index(WorkerIds(workers), id), ModifyUsedCores(workers, id, cores, increase);
            && (modified.None? <==> id !in WorkerIds(workers))
            && (modified.Some? ==>
                  && |modified.value| == |workers| && k < |workers|
                  && (forall i :: 0 <= i < |workers| && i != k ==> modified.value[i] == workers[i])
                  && modified.value[k].id == id && modified.value[k].cores == workers[k].cores
                  && var used, now := workers[k].usedCores, modified.value[k].usedCores;
                     && now >= 0
                     && (increase && used + cores >= 0 ==> now - used == cores)
                     && (!increase && used >= cores ==> used - now == cores)
                     && (!increase && used < cores ==> now == 0))
  {
    FoundIfThere(WorkerIds(workers), id);
  }

  // ----- the choice of a worker

  function FreeCores(w: Worker): int {
    w.cores - w.usedCores
  }

  predicate Eligible(w: Worker, required: int) {
    FreeCores(w) >= required && FreeCores(w) >= 0
  }

  /** k is the first among the first n workers of those with the most free cores, out of the
      eligible ones; None when none is eligible. */
  ghost predicate IsMostFree(workers: seq<Worker>, n: nat, required: int, best: Option<nat>)
    requires n <= |workers|
  {
    match best
    case None => forall j :: 0 <= j < n ==> !Eligible(workers[j], required)
    case Some(k) =>
      && k < n && Eligible(workers[k], required)
      && forall j :: 0 <= j < n && Eligible(workers[j], required) ==>
           FreeCores(workers[j]) <= FreeCores(workers[k]) && (j < k ==> FreeCores(workers[j]) < FreeCores(workers[k]))
  }

  function BestIndex(workers: seq<Worker>, n: nat, required: int): (best: Option<nat>)
    requires n <= |workers|
    ensures IsMostFree(workers, n, required, best)
  {
    if n == 0 then None
    else
      var best := BestIndex(workers, n - 1, required);
      if Eligible(workers[n - 1], required)
         && (best.None? || FreeCores(workers[n - 1]) > FreeCores(workers[best.value]))
      then Some(n - 1) else best
  }

  function MostFree(workers: seq<Worker>, required: int): Worker {
    match BestIndex(workers, |workers|, required)
    case None => NO_WORKER
    case Some(k) => workers[k]
  }

  /** The description leaves no choice. */
  lemma MostFreeUnique(workers: seq<Worker>, n: nat, required: int, a: Option<nat>, b: Option<nat>)
    requires n <= |workers| && IsMostFree(workers, n, required, a) && IsMostFree(workers, n, required, b)
    ensures a == b
  {
  }

  lemma MostFreeExactly(workers: seq<Worker>, required: int, w: Worker, best: Option<nat>)
    requires IsMostFree(workers, |workers|, required, best)
    ensures w == MostFree(workers, required) <==> w == if best.Some? then workers[best.value] else NO_WORKER
  {
    MostFreeUnique(workers, |workers|, required, best, BestIndex(workers, |workers|, required));
  }

  /** Whatever a task asks for, the worker chosen has that much free and is not overloaded, and no
      worker is chosen exactly when none is such. */
  lemma ChoiceIsFree(workers: seq<Worker>, required: int)
    ensures var best := BestIndex(workers, |workers|, required);
            && (best.None? <==>
                  forall i :: 0 <= i < |workers| ==>
                    workers[i].cores - workers[i].usedCores < required || workers[i].usedCores > workers[i].cores)
            && (best.Some? ==>
                  && workers[best.value].usedCores <= workers[best.value].cores
                  && workers[best.value].cores - workers[best.value].usedCores >= required
                  && MostFree(workers, required) == workers[best.value])
  {
    var best := BestIndex(workers, |workers|, required);
    if best.None? {
      assert forall i :: 0 <= i < |workers| ==> !Eligible(workers[i], required);
    } else {
      assert Eligible(workers[best.value], required);
    }
  }

  // ----- the handlers

  datatype Request = Request(workerId: string, taskId: string)

  /** `sent` is the request put on the connection; `thrown` that an exception left the handler. */
  datatype Outcome = Outcome(tables: Tables, sent: Option<Request>, thrown: bool)

  /** processTask, on the copy of the task its thread holds. */
  function ProcessTask(t: Tables, task: Task): Outcome {
    var worker := MostFree(t.workers, task.cores);
    if worker.id == "" then Outcome(t.(queue := t.queue + [task]), None, false)
    else
      match UpdateTask(t.tasks, task.(workerId := worker.id, status := SentToWorker))
      case None => Outcome(t, None, true)
      case Some(tasks) =>
        match ModifyUsedCores(t.workers, worker.id, task.cores, true)
        case None => Outcome(t.(tasks := tasks), None, true)
        case Some(workers) =>
          Outcome(t.(tasks := tasks, workers := workers), Some(Request(worker.id, task.id)), false)
  }

  /** checkTaskQueue, on the copy of the worker its connection thread holds. */
  function CheckTaskQueue(t: Tables, worker: Worker): Outcome {
    if t.queue == [] || t.queue[0].cores > worker.cores - worker.usedCores then Outcome(t, None, false)
    else
      var pending := t.queue[0];
      var t1 := t.(queue := t.queue[1..]);
      match ModifyUsedCores(t1.workers, worker.id, pending.cores, true)
      case None => Outcome(t1, None, true)
      case Some(workers) =>
        var t2 := t1.(workers := workers);
        match UpdateTask(t2.tasks, pending.(workerId := worker.id, status := SentToWorker))
        case None => Outcome(t2, None, true)
        case Some(tasks) => Outcome(t2.(tasks := tasks), Some(Request(worker.id, pending.id)), false)
  }

  /** The TaskResult branch of processWorker, up to the answer to the client. */
  function HandleResult(t: Tables, id: string, output: string): Outcome {
    match FindTask(t.tasks, id)
    case None => Outcome(t, None, true)
    case Some(task) =>
      match UpdateTask(t.tasks, task.(status := Ready, output := output))
      case None => Outcome(t, None, true)
      case Some(tasks) =>
        var t1 := t.(tasks := tasks);
        match ModifyUsedCores(t1.workers, task.workerId, task.cores, false)
        case None => Outcome(t1, None, true)
        case Some(workers) => Outcome(t1.(workers := workers), None, task.clientId !in t1.clients)
  }

  function Digits(n: nat): string {
    if n < 10 then [('0' as int + n) as char] else Digits(n / 10) + [('0' as int + n % 10) as char]
  }

  /** addTask: a task without an id is stored under a made-up one. */
  function AddTask(tasks: seq<Task>, task: Task): seq<Task> {
    var id := if task.id == "" then "task-" + Digits(|tasks|) else task.id;
    tasks + [task.(id := id, status := Queued)]
  }

  /** What a decimal numeral stands for. */
  ghost function Number(digits: string): int {
    if digits == "" then 0
    else 10 * Number(digits[..|digits| - 1]) + (digits[|digits| - 1] as int - '0' as int)
  }

  lemma {:induction false} DigitsRoundTrip(n: nat)
    ensures Number(Digits(n)) == n
  {
    if n < 10 {
      assert Digits(n)[..0] == "";
    } else {
      DigitsRoundTrip(n / 10);
      assert Digits(n)[..|Digits(n)| - 1] == Digits(n / 10);
    }
  }

  /** A task with an id keeps it; one without is stored under the number of tasks before it, so
      under another id than every other task stored so. */
  lemma StoredId(tasks: seq<Task>, task: Task)
    ensures var stored := AddTask(tasks, task);
            && |stored| == |tasks| + 1 && stored[..|tasks|] == tasks
            && var last := stored[|tasks|];
               && last == task.(id := last.id, status := Queued)
               && if task.id != "" then last.id == task.id
                  else |last.id| > 5 && last.id[..5] == "task-" && Number(last.id[5..]) == |tasks|
  {
    DigitsRoundTrip(|tasks|);
    var id := "task-" + Digits(|tasks|);
    assert id[5..] == Digits(|tasks|);
  }
}
