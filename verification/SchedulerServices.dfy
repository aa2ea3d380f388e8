/** The server's services and handlers, proved against the functions of SchedulerTables. An
    exception is a result: false, None, or `thrown`. */
module SchedulerServices {
  import opened Wrappers
  import opened SchedulerTables

  class UserDBService {
    var workers: seq<Worker>
    var clients: seq<string>

    constructor ()
      ensures workers == [] && clients == []
    {
      workers, clients := [], [];
    }

    method AddClient(client: string)
      modifies this`clients
      ensures clients == old(clients) + [client]
    {
      clients := clients + [client];
    }

    method AddWorker(worker: Worker)
      modifies this`workers
      ensures workers == old(workers) + [worker]
    {
      workers := workers + [worker];
    }

    method RemoveClient(client: string)
      modifies this`clients
      ensures clients == SchedulerTables.RemoveClient(old(clients), client)
    {
      var k := 0;
      while k < |clients|
        invariant k <= |clients| && clients == old(clients)
        invariant forall i :: 0 <= i < k ==> clients[i] != client
      {
        if clients[k] == client {
          clients := clients[..k] + clients[k + 1..];
          return;
        }
        k := k + 1;
      }
    }

    method RemoveWorker(worker: Worker)
      modifies this`workers
      ensures workers == SchedulerTables.RemoveWorker(old(workers), worker.id)
    {
      var k := 0;
      while k < |workers|
        invariant k <= |workers| && workers == old(workers)
        invariant forall i :: 0 <= i < k ==> workers[i].id != worker.id
      {
        if workers[k].id == worker.id {
          workers := workers[..k] + workers[k + 1..];
          return;
        }
        k := k + 1;
      }
    }

    /** The eligible worker with the most free cores, the first one among equals. */
    method FindMostFreeWorker(requiredCores: int) returns (mostFreeWorker: Worker)
      ensures mostFreeWorker == MostFree(workers, requiredCores)
    {
      mostFreeWorker := NO_WORKER;
      var maxFreeCores := -1;
      ghost var best: Option<nat> := None;
      var k := 0;
      while k < |workers|
        invariant k <= |workers| && IsMostFree(workers, k, requiredCores, best)
        invariant best.None? ==> mostFreeWorker == NO_WORKER && maxFreeCores == -1
        invariant best.Some? ==> mostFreeWorker == workers[best.value] && maxFreeCores == FreeCores(mostFreeWorker)
      {
        var freeCores := workers[k].cores - workers[k].usedCores;
        if freeCores >= requiredCores && freeCores > maxFreeCores {
          mostFreeWorker, maxFreeCores := workers[k], freeCores;
          best := Some(k);
        }
        k := k + 1;
      }
      MostFreeExactly(workers, requiredCores, mostFreeWorker, best);
    }

    /** The client of that id; the program throws when there is none. */
    method FindClientByID(id: string) returns (r: Option<string>)
      ensures r == if id in clients then Some(id) else None
    {
      var k := 0;
      while k < |clients|
        invariant k <= |clients| && id !in clients[..k]
      {
        if clients[k] == id {
          return Some(clients[k]);
        }
        k := k + 1;
      }
      r := None;
    }

    method ModifyWorkerUsedCores(id: string, cores: int, increase: bool) returns (found: bool)
      modifies this`workers
      ensures var modified := ModifyUsedCores(old(workers), id, cores, increase);
              found == modified.Some? && workers == if found then modified.value else old(workers)
    {
      var k := 0;
      while k < |workers|
        invariant k <= |workers| && workers == old(workers)
        invariant forall i :: 0 <= i < k ==> workers[i].id != id
      {
        if workers[k].id == id {
          if increase {
            workers := workers[k := workers[k].(usedCores := workers[k].usedCores + cores)];
          } else {
            workers := workers[k := workers[k].(usedCores := workers[k].usedCores - cores)];
          }
          if workers[k].usedCores < 0 {
            workers := workers[k := workers[k].(usedCores := 0)];
          }
          return true;
        }
        k := k + 1;
      }
      found := false;
    }
  }

  class TaskService {
    var tasks: seq<Task>

    constructor ()
      ensures tasks == []
    {
      tasks := [];
    }

    method AddTask(task: Task)
      modifies this
      ensures tasks == SchedulerTables.AddTask(old(tasks), task)
    {
      var stored := task;
      if stored.id == "" {
        stored := stored.(id := NewTaskID());
      }
      stored := stored.(status := Queued);
      tasks := tasks + [stored];
    }

    function NewTaskID(): string
      reads this
    {
      "task-" + Digits(|tasks|)
    }

    method UpdateTask(task: Task) returns (found: bool)
      modifies this
      ensures var updated := SchedulerTables.UpdateTask(old(tasks), task);
              found == updated.Some? && tasks == if found then updated.value else old(tasks)
    {
      var k := 0;
      while k < |tasks|
        invariant k <= |tasks| && tasks == old(tasks)
        invariant forall i :: 0 <= i < k ==> tasks[i].id != task.id
      {
        if tasks[k].id == task.id {
          tasks := tasks[k := task];
          return true;
        }
        k := k + 1;
      }
      found := false;
    }

    method FindTaskByID(id: string) returns (r: Option<Task>)
      ensures r == FindTask(tasks, id)
    {
      var k := 0;
      while k < |tasks|
        invariant k <= |tasks|
        invariant forall i :: 0 <= i < k ==> tasks[i].id != id
      {
        if tasks[k].id == id {
          return Some(tasks[k]);
        }
        k := k + 1;
      }
      r := None;
    }
  }

  class TaskQueue {
    var taskQueue: seq<Task>

    constructor ()
      ensures taskQueue == []
    {
      taskQueue := [];
    }

    method Enqueue(task: Task)
      modifies this
      ensures taskQueue == old(taskQueue) + [task]
    {
      taskQueue := taskQueue + [task];
    }

    /** The front task leaves the queue if it asks for no more than `freeCores`. */
    method TryDequeue(freeCores: int) returns (r: Option<Task>)
      modifies this
      ensures r.Some? <==> old(taskQueue) != [] && old(taskQueue)[0].cores <= freeCores
      ensures if r.Some? then [r.value] + taskQueue == old(taskQueue) else taskQueue == old(taskQueue)
    {
      if taskQueue != [] && taskQueue[0].cores <= freeCores {
        r := Some(taskQueue[0]);
        taskQueue := taskQueue[1..];
      } else {
        r := None;
      }
    }
  }

  class RabbitServer {
    const userDBService: UserDBService
    const taskService: TaskService
    const pendingTasks: TaskQueue

    constructor ()
      ensures fresh(userDBService) && fresh(taskService) && fresh(pendingTasks)
      ensures Tables() == SchedulerTables.Tables([], [], [], [])
    {
      userDBService := new UserDBService();
      taskService := new TaskService();
      pendingTasks := new TaskQueue();
    }

    function Tables(): Tables
      reads userDBService, taskService, pendingTasks
    {
      SchedulerTables.Tables(taskService.tasks, userDBService.workers, userDBService.clients, pendingTasks.taskQueue)
    }

    /** A client's TaskRequest: the task is stored, and `spawned` is what its thread will process. */
    method AcceptTask(id: string, func: string, input: string, cores: int, clientId: string) returns (spawned: Task)
      modifies taskService
      ensures spawned == Task(id, func, input, "", cores, Queued, "", clientId)
      ensures Tables() == old(Tables()).(tasks := AddTask(old(Tables()).tasks, spawned))
    {
      spawned := Task(id, func, input, "", cores, Queued, "", clientId);
      taskService.AddTask(spawned);
    }

    method ProcessTask(task: Task) returns (sent: Option<Request>, thrown: bool)
      modifies userDBService, taskService, pendingTasks
      ensures Outcome(Tables(), sent, thrown) == SchedulerTables.ProcessTask(old(Tables()), task)
    {
      var worker := userDBService.FindMostFreeWorker(task.cores);
      if worker.id == "" {
        pendingTasks.Enqueue(task);
        return None, false;
      }
      var found := taskService.UpdateTask(task.(workerId := worker.id, status := SentToWorker));
      if !found {
        return None, true;
      }
      found := userDBService.ModifyWorkerUsedCores(worker.id, task.cores, true);
      if !found {
        return None, true;
      }
      sent, thrown := Some(Request(worker.id, task.id)), false;
    }

    /** `worker` is the connection thread's copy. */
    method CheckTaskQueue(worker: Worker) returns (sent: Option<Request>, thrown: bool)
      modifies userDBService, taskService, pendingTasks
      ensures Outcome(Tables(), sent, thrown) == SchedulerTables.CheckTaskQueue(old(Tables()), worker)
    {
      var dequeued := pendingTasks.TryDequeue(worker.cores - worker.usedCores);
      if dequeued.None? {
        return None, false;
      }
      var pendingTask := dequeued.value;
      assert pendingTasks.taskQueue == old(pendingTasks.taskQueue)[1..];
      var found := userDBService.ModifyWorkerUsedCores(worker.id, pendingTask.cores, true);
      if !found {
        return None, true;
      }
      found := taskService.UpdateTask(pendingTask.(workerId := worker.id, status := SentToWorker));
      if !found {
        return None, true;
      }
      sent, thrown := Some(Request(worker.id, pendingTask.id)), false;
    }

    /** A worker's TaskResult, up to the answer to the client. */
    method HandleResult(id: string, output: string) returns (thrown: bool)
      modifies userDBService, taskService
      ensures Outcome(Tables(), None, thrown) == SchedulerTables.HandleResult(old(Tables()), id, output)
    {
      var r := taskService.FindTaskByID(id);
      if r.None? {
        return true;
      }
      var task := r.value.(status := Ready, output := output);
      var found := taskService.UpdateTask(task);
      if !found {
        return true;
      }
      found := userDBService.ModifyWorkerUsedCores(task.workerId, task.cores, false);
      if !found {
        return true;
      }
      var client := userDBService.FindClientByID(task.clientId);
      thrown := client.None?;
    }
  }
}
