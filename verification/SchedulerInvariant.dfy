/** Every step of the server keeps its invariant. */
module SchedulerInvariant {
  import opened Wrappers
  import opened SchedulerTables
  import opened SchedulerSystem

  // ----- scans find what they look for

  lemma TaskIndexOf(tasks: seq<Task>, k: nat)
    requires DistinctIds(tasks) && k < |tasks|
    ensures Index(Ids(tasks), tasks[k].id) == k
  {
  }

  lemma WorkerIndexOf(s: Sys, j: nat)
    requires WorkersOk(s) && j < |s.tables.workers|
    ensures Index(WorkerIds(s.tables.workers), s.tables.workers[j].id) == j
  {
  }

  // ----- sending a waiting task to a worker

  ghost function SentTask(t: Task, id: string): Task {
    t.(workerId := id, status := SentToWorker)
  }

  /** s' is s after the waiting task at table index k has gone to the worker at index j. */
  ghost predicate Dispatches(s: Sys, s': Sys, k: nat, j: nat) {
    && k < |s.tables.tasks| && j < |s.tables.workers|
    && var t, w := s.tables.tasks[k], s.tables.workers[j];
       && t.status == Queued
       && s'.tables.tasks == s.tables.tasks[k := SentTask(t, w.id)]
       && s'.tables.workers == s.tables.workers[j := w.(usedCores := w.usedCores + t.cores)]
       && s'.known == s.known && s'.threads.Keys == s.threads.Keys
       && (forall id :: id in s.threads ==> s'.threads[id].copy == s.threads[id].copy)
       && s'.requests == s.requests + {Request(w.id, t.id)} && s'.results == s.results
       && s'.sent == s.sent + [Request(w.id, t.id)]
       && (exists q :: 0 <= q < |Waiting(s)| && Waiting(s)[q] == t
                       && Waiting(s') == Waiting(s)[..q] + Waiting(s)[q + 1..])
  }

  /** Used cores are no part of what ties the worker table to the threads. */
  lemma RowsKept(s: Sys, s': Sys)
    requires WorkersOk(s) && s'.known == s.known && |s'.tables.workers| == |s.tables.workers|
    requires forall i :: 0 <= i < |s.tables.workers| ==>
               s'.tables.workers[i] == s.tables.workers[i].(usedCores := s'.tables.workers[i].usedCores)
    requires s'.threads.Keys == s.threads.Keys
    requires forall id :: id in s.threads ==> s'.threads[id].copy == s.threads[id].copy
    ensures WorkersOk(s')
  {
    forall id | id in s'.threads
      ensures exists i :: 0 <= i < |s'.tables.workers| && s'.tables.workers[i].id == id
    {
      var i :| 0 <= i < |s.tables.workers| && s.tables.workers[i].id == id;
      assert s'.tables.workers[i].id == id;
    }
  }

  lemma DispatchKeepsTasks(s: Sys, s': Sys, k: nat, j: nat)
    requires TasksOk(s) && WorkersOk(s) && Dispatches(s, s', k, j)
    ensures TasksOk(s') && WorkersOk(s')
  {
    var t, w := s.tables.tasks[k], s.tables.workers[j];
    assert w.id != "" && w.id in s.known;
    ReplacedTask(s.tables.tasks, s'.tables.tasks, k, SentTask(t, w.id), s.known);
    RowsKept(s, s');
  }

  lemma ReplacedTask(tasks: seq<Task>, tasks': seq<Task>, k: nat, t: Task, known: set<string>)
    requires DistinctIds(tasks) && k < |tasks| && t.id == tasks[k].id && GoodTask(t, known)
    requires tasks' == tasks[k := t] && forall i :: 0 <= i < |tasks| ==> GoodTask(tasks[i], known)
    ensures DistinctIds(tasks') && forall i :: 0 <= i < |tasks'| ==> GoodTask(tasks'[i], known)
  {
  }

  lemma DispatchKeepsWaiting(s: Sys, s': Sys, k: nat, j: nat)
    requires TasksOk(s) && WaitingOk(s) && Dispatches(s, s', k, j)
    ensures WaitingOk(s')
  {
    var t := s.tables.tasks[k];
    var was, now := Waiting(s), Waiting(s');
    var q :| 0 <= q < |was| && was[q] == t && now == was[..q] + was[q + 1..];
    RemovedOne(was, now, q);
    OthersStay(s.tables.tasks, s'.tables.tasks, k);
    forall i | 0 <= i < |now| ensures now[i] in s'.tables.tasks && now[i].status == Queued {
      assert now[i] in was && now[i] in s.tables.tasks;
    }
    forall i | 0 <= i < |s'.tables.tasks| && s'.tables.tasks[i].status == Queued
      ensures s'.tables.tasks[i] in now
    {
      assert s.tables.tasks[i] in was;
    }
  }

  lemma OthersStay(tasks: seq<Task>, tasks': seq<Task>, k: nat)
    requires k < |tasks| && |tasks'| == |tasks| && forall i :: 0 <= i < |tasks| && i != k ==> tasks'[i] == tasks[i]
    ensures forall t :: t in tasks && t.id != tasks[k].id ==> t in tasks'
  {
    forall t | t in tasks && t.id != tasks[k].id ensures t in tasks' {
      var i :| 0 <= i < |tasks| && tasks[i] == t;
      assert tasks'[i] == t;
    }
  }

  /** Taking out one task leaves the others, in their order. */
  lemma RemovedOne(was: seq<Task>, now: seq<Task>, q: nat)
    requires DistinctIds(was) && q < |was| && now == was[..q] + was[q + 1..]
    ensures DistinctIds(now)
    ensures forall t :: t in now <==> t in was && t.id != was[q].id
  {
    forall t | t in was && t.id != was[q].id ensures t in now {
      var m :| 0 <= m < |was| && was[m] == t;
      assert now[if m < q then m else m - 1] == t;
    }
  }

  lemma DispatchKeepsWire(s: Sys, s': Sys, k: nat, j: nat)
    requires TasksOk(s) && WireOk(s) && SentOk(s) && Dispatches(s, s', k, j)
    ensures WireOk(s')
  {
    var t, w := s.tables.tasks[k], s.tables.workers[j];
    var r := Request(w.id, t.id);
    forall r' | r' in s.requests + s.results ensures r'.taskId != t.id {
      var i :| 0 <= i < |s.tables.tasks| && s.tables.tasks[i].id == r'.taskId && InFlight(s.tables.tasks[i], r'.workerId);
      assert i != k;
    }
    forall r' | r' in s'.requests + s'.results
      ensures exists i :: 0 <= i < |s'.tables.tasks| && s'.tables.tasks[i].id == r'.taskId
                          && InFlight(s'.tables.tasks[i], r'.workerId)
    {
      if r' == r {
        assert s'.tables.tasks[k].id == r'.taskId;
      } else {
        var i :| 0 <= i < |s.tables.tasks| && s.tables.tasks[i].id == r'.taskId
                 && InFlight(s.tables.tasks[i], r'.workerId);
        assert i != k;
        assert s'.tables.tasks[i].id == r'.taskId;
      }
    }
  }

  lemma DispatchKeepsSent(s: Sys, s': Sys, k: nat, j: nat)
    requires TasksOk(s) && SentOk(s) && Dispatches(s, s', k, j)
    ensures SentOk(s')
  {
    NotSentYet(s, k);
    SentStaysExact(s, s', k, j);
    SentStaysKnown(s, s', k, j);
  }

  /** A Queued task has not been sent. */
  lemma NotSentYet(s: Sys, k: nat)
    requires TasksOk(s) && SentOk(s) && k < |s.tables.tasks| && s.tables.tasks[k].status == Queued
    ensures forall i :: 0 <= i < |s.sent| ==> s.sent[i].taskId != s.tables.tasks[k].id
  {
    forall i | 0 <= i < |s.sent| ensures s.sent[i].taskId != s.tables.tasks[k].id {
      assert s.sent[i] in s.sent;
      var m :| 0 <= m < |s.tables.tasks| && s.tables.tasks[m].id == s.sent[i].taskId
               && s.tables.tasks[m].workerId == s.sent[i].workerId;
      assert s.sent[i] == Request(s.tables.tasks[m].workerId, s.tables.tasks[m].id);
    }
  }

  lemma SentStaysExact(s: Sys, s': Sys, k: nat, j: nat)
    requires TasksOk(s) && SentOk(s) && Dispatches(s, s', k, j)
    ensures forall i :: 0 <= i < |s'.tables.tasks| ==>
              (s'.tables.tasks[i].status != Queued
               <==> Request(s'.tables.tasks[i].workerId, s'.tables.tasks[i].id) in s'.sent)
  {
    var r := Request(s.tables.workers[j].id, s.tables.tasks[k].id);
    forall i | 0 <= i < |s'.tables.tasks|
      ensures s'.tables.tasks[i].status != Queued
         <==> Request(s'.tables.tasks[i].workerId, s'.tables.tasks[i].id) in s'.sent
    {
      if i == k {
        assert s'.sent[|s.sent|] == r;
      } else {
        assert s.tables.tasks[i].id != s.tables.tasks[k].id;
      }
    }
  }

  lemma SentStaysKnown(s: Sys, s': Sys, k: nat, j: nat)
    requires TasksOk(s) && SentOk(s) && Dispatches(s, s', k, j)
    ensures forall r :: r in s'.sent ==> exists i :: 0 <= i < |s'.tables.tasks| && s'.tables.tasks[i].id == r.taskId
                                                    && s'.tables.tasks[i].workerId == r.workerId
  {
    NotSentYet(s, k);
    forall r | r in s'.sent
      ensures exists i :: 0 <= i < |s'.tables.tasks| && s'.tables.tasks[i].id == r.taskId
                          && s'.tables.tasks[i].workerId == r.workerId
    {
      if r in s.sent {
        var m :| 0 <= m < |s.tables.tasks| && s.tables.tasks[m].id == r.taskId
                 && s.tables.tasks[m].workerId == r.workerId;
        assert m != k;
        assert s'.tables.tasks[m].id == r.taskId;
      } else {
        assert s'.tables.tasks[k].id == r.taskId;
      }
    }
  }

  /** How the sums of worker w change when task k goes to the worker with id `target`. */
  lemma DispatchSums(tasks: seq<Task>, k: nat, target: string, w: string, dequeued: seq<string>)
    requires k < |tasks| && tasks[k].status == Queued
    ensures var t, tasks' := tasks[k], tasks[k := SentTask(tasks[k], target)];
            && Sum(Cores(w), tasks') == Sum(Cores(w), tasks) + (if w == target then t.cores else 0)
            && Sum(Count(w), tasks') == Sum(Count(w), tasks) + (if w == target then 1 else 0)
            && Sum(FromQueue(w, dequeued), tasks')
               == Sum(FromQueue(w, dequeued), tasks) + (if w == target && t.id in dequeued then t.cores else 0)
  {
    var t' := SentTask(tasks[k], target);
    SumUpdate(Cores(w), tasks, k, t');
    SumUpdate(Count(w), tasks, k, t');
    SumUpdate(FromQueue(w, dequeued), tasks, k, t');
  }

  /** A task with a new id on the record of the queue changes no sum but its own. */
  lemma RecordDequeued(tasks: seq<Task>, k: nat, w: string, dequeued: seq<string>)
    requires DistinctIds(tasks) && k < |tasks| && tasks[k].status == Queued
    ensures Sum(FromQueue(w, dequeued + [tasks[k].id]), tasks) == Sum(FromQueue(w, dequeued), tasks)
  {
    var x := tasks[k].id;
    forall i | 0 <= i < |tasks|
      ensures Weight(FromQueue(w, dequeued + [x]), tasks[i]) == Weight(FromQueue(w, dequeued), tasks[i])
    {
      if i != k {
        assert tasks[i].id != x;
        assert tasks[i].id in dequeued + [x] <==> tasks[i].id in dequeued;
      }
    }
    SumSame(FromQueue(w, dequeued + [x]), FromQueue(w, dequeued), tasks);
  }

  lemma NonNegativeSums(s: Sys, w: string)
    requires TasksOk(s)
    ensures 0 <= Sum(Count(w), s.tables.tasks) <= Sum(Cores(w), s.tables.tasks)
    ensures 0 <= Sum(FromQueue(w, s.dequeued), s.tables.tasks) <= Sum(Cores(w), s.tables.tasks)
  {
    FromQueueAtMost(w, s.dequeued, s.tables.tasks);
    CountAtMostCores(w, s.tables.tasks);
  }

  lemma {:induction false} CountAtMostCores(w: string, tasks: seq<Task>)
    requires forall i :: 0 <= i < |tasks| && InFlight(tasks[i], w) ==> 1 <= tasks[i].cores
    ensures 0 <= Sum(Count(w), tasks) <= Sum(Cores(w), tasks)
  {
    if tasks != [] {
      CountAtMostCores(w, tasks[..|tasks| - 1]);
    }
  }

  /** Workers other than the one that got the task keep their loads. */
  lemma DispatchKeepsOtherLoads(s: Sys, s': Sys, k: nat, j: nat, i: nat)
    requires TasksOk(s) && WorkersOk(s) && Dispatches(s, s', k, j)
    requires i < |s.tables.workers| && i != j && LoadOk(s, s.tables.workers[i])
    requires s'.dequeued == s.dequeued || s'.dequeued == s.dequeued + [s.tables.tasks[k].id]
    requires Owed(s', s.tables.workers[i].id) == Owed(s, s.tables.workers[i].id)
    ensures LoadOk(s', s'.tables.workers[i])
  {
    var w, target := s.tables.workers[i], s.tables.workers[j].id;
    assert w.id != target;
    DispatchSums(s.tables.tasks, k, target, w.id, s'.dequeued);
    RecordDequeued(s.tables.tasks, k, w.id, s.dequeued);
  }

  /** processTask sends only to a worker with room: its used cores stay within its cores. */
  lemma DirectDispatchLoad(s: Sys, s': Sys, k: nat, j: nat)
    requires TasksOk(s) && WorkersOk(s) && TasksOk(s') && Dispatches(s, s', k, j)
    requires LoadOk(s, s.tables.workers[j]) && s'.dequeued == s.dequeued
    requires FreeCores(s.tables.workers[j]) >= s.tables.tasks[k].cores
    ensures LoadOk(s', s'.tables.workers[j]) && s'.tables.workers[j].usedCores <= s'.tables.workers[j].cores
  {
    var w := s.tables.workers[j];
    DispatchSums(s.tables.tasks, k, w.id, w.id, s.dequeued);
    NonNegativeSums(s', w.id);
    NonNegativeSums(s, w.id);
  }

  /** checkTaskQueue sends without looking at the table's used cores: it is the owed look at the
      queue that is spent. */
  lemma QueueDispatchLoad(s: Sys, s': Sys, k: nat, j: nat)
    requires TasksOk(s) && WorkersOk(s) && Dispatches(s, s', k, j)
    requires LoadOk(s, s.tables.workers[j])
    requires s'.dequeued == s.dequeued + [s.tables.tasks[k].id]
    requires Owed(s, s.tables.workers[j].id) == 1 && Owed(s', s.tables.workers[j].id) == 0
    requires s.tables.tasks[k].cores <= s.tables.workers[j].cores
    ensures LoadOk(s', s'.tables.workers[j])
  {
    var w := s.tables.workers[j];
    DispatchSums(s.tables.tasks, k, w.id, w.id, s'.dequeued);
    RecordDequeued(s.tables.tasks, k, w.id, s.dequeued);
  }

  // ----- Run

  lemma SpawnedInTable(s: Sys, k: nat) returns (m: nat)
    requires WaitingOk(s) && k < |s.spawned|
    ensures m < |s.tables.tasks| && s.tables.tasks[m] == s.spawned[k] && s.spawned[k].status == Queued
  {
    assert Waiting(s)[k] == s.spawned[k];
    m :| 0 <= m < |s.tables.tasks| && s.tables.tasks[m] == s.spawned[k];
  }

  /** The tables after task m has gone to worker j, at the head of the queue or not. */
  ghost function Sending(t: Tables, m: nat, j: nat): Tables
    requires m < |t.tasks| && j < |t.workers|
  {
    var w := t.workers[j];
    t.(tasks := t.tasks[m := SentTask(t.tasks[m], w.id)],
       workers := t.workers[j := w.(usedCores := w.usedCores + t.tasks[m].cores)])
  }

  /** Both services find their rows, and the clamp to zero does not fire. */
  lemma UpdatesSucceed(s: Sys, m: nat, j: nat)
    requires TasksOk(s) && WorkersOk(s) && m < |s.tables.tasks| && j < |s.tables.workers|
    requires s.tables.workers[j].usedCores >= 0
    ensures var w, t := s.tables.workers[j], s.tables.tasks[m];
            && UpdateTask(s.tables.tasks, SentTask(t, w.id)) == Some(Sending(s.tables, m, j).tasks)
            && ModifyUsedCores(s.tables.workers, w.id, t.cores, true) == Some(Sending(s.tables, m, j).workers)
  {
    TaskIndexOf(s.tables.tasks, m);
    WorkerIndexOf(s, j);
  }

  lemma UsedNonNegative(s: Sys, j: nat)
    requires TasksOk(s) && LoadsOk(s) && j < |s.tables.workers|
    ensures s.tables.workers[j].usedCores >= 0
  {
    assert LoadOk(s, s.tables.workers[j]);
    NonNegativeSums(s, s.tables.workers[j].id);
  }

  /** processTask sends the task to the eligible worker with the most free cores, or to the queue
      when there is none; it never throws. */
  lemma RunOutcome(s: Sys, k: nat) returns (m: nat, j: nat)
    requires Inv(s) && k < |s.spawned|
    ensures m < |s.tables.tasks| && s.tables.tasks[m] == s.spawned[k]
    ensures var task, o := s.spawned[k], ProcessTask(s.tables, s.spawned[k]);
            if j < |s.tables.workers| then
              && IsMostFree(s.tables.workers, |s.tables.workers|, task.cores, Some(j))
              && o == Outcome(Sending(s.tables, m, j), Some(Request(s.tables.workers[j].id, task.id)), false)
            else
              && o == Outcome(s.tables.(queue := s.tables.queue + [task]), None, false)
              && forall i :: 0 <= i < |s.tables.workers| ==> !Eligible(s.tables.workers[i], task.cores)
  {
    var task := s.spawned[k];
    m := SpawnedInTable(s, k);
    match BestIndex(s.tables.workers, |s.tables.workers|, task.cores)
    case None =>
      j := |s.tables.workers|;
    case Some(best) =>
      j := best;
      UsedNonNegative(s, j);
      UpdatesSucceed(s, m, j);
  }

  /** s' is s after the thread of spawned task k has sent it, as task m of the table, to worker j. */
  ghost predicate Sends(s: Sys, s': Sys, k: nat, m: nat, j: nat) {
    && k < |s.spawned| && m < |s.tables.tasks| && j < |s.tables.workers|
    && s.tables.tasks[m] == s.spawned[k] && s.spawned[k].status == Queued
    && FreeCores(s.tables.workers[j]) >= s.spawned[k].cores
    && var r := Request(s.tables.workers[j].id, s.spawned[k].id);
       s' == s.(tables := Sending(s.tables, m, j), spawned := s.spawned[..k] + s.spawned[k + 1..],
                sent := s.sent + [r], requests := s.requests + {r})
  }

  /** s' is s after that thread has put it at the end of the queue. */
  ghost predicate QueuesUp(s: Sys, s': Sys, k: nat, m: nat) {
    && k < |s.spawned| && m < |s.tables.tasks| && s.tables.tasks[m] == s.spawned[k]
    && s' == s.(spawned := s.spawned[..k] + s.spawned[k + 1..],
                tables := s.tables.(queue := s.tables.queue + [s.spawned[k]]),
                enqueued := s.enqueued + [s.spawned[k].id])
  }

  /** A task's thread does one or the other, the second when no worker will do. */
  lemma RunShape(s: Sys, k: nat) returns (m: nat, j: nat)
    requires Inv(s) && k < |s.spawned|
    ensures var s' := Apply(s, Run(k));
            Sends(s, s', k, m, j)
            || (QueuesUp(s, s', k, m)
                && forall i :: 0 <= i < |s.tables.workers| ==> !Eligible(s.tables.workers[i], s.spawned[k].cores))
  {
    m, j := RunOutcome(s, k);
    SpawnedStatus(s, k);
    if j < |s.tables.workers| {
      OutcomeSends(s, k, m, j, ProcessTask(s.tables, s.spawned[k]));
    } else {
      OutcomeQueuesUp(s, k, m, ProcessTask(s.tables, s.spawned[k]));
    }
  }

  lemma OutcomeSends(s: Sys, k: nat, m: nat, j: nat, o: Outcome)
    requires k < |s.spawned| && m < |s.tables.tasks| && j < |s.tables.workers|
    requires s.tables.tasks[m] == s.spawned[k] && s.spawned[k].status == Queued
    requires FreeCores(s.tables.workers[j]) >= s.spawned[k].cores
    requires o == Outcome(Sending(s.tables, m, j), Some(Request(s.tables.workers[j].id, s.spawned[k].id)), false)
    ensures Sends(s, AfterRun(s, k, o), k, m, j)
  {
  }

  lemma OutcomeQueuesUp(s: Sys, k: nat, m: nat, o: Outcome)
    requires k < |s.spawned| && m < |s.tables.tasks| && s.tables.tasks[m] == s.spawned[k]
    requires o == Outcome(s.tables.(queue := s.tables.queue + [s.spawned[k]]), None, false)
    ensures QueuesUp(s, AfterRun(s, k, o), k, m)
  {
    assert s.sent + [] == s.sent && s.requests + {} == s.requests;
  }

  lemma SpawnedStatus(s: Sys, k: nat)
    requires WaitingOk(s) && k < |s.spawned|
    ensures s.spawned[k].status == Queued
  {
    var m := SpawnedInTable(s, k);
  }

  lemma RunKeepsInv(s: Sys, k: nat)
    requires Inv(s) && Enabled(s, Run(k))
    ensures Inv(Apply(s, Run(k)))
  {
    var m, j := RunShape(s, k);
    if Sends(s, Apply(s, Run(k)), k, m, j) {
      SendKeepsInv(s, Apply(s, Run(k)), k, m, j);
    } else {
      EnqueueKeepsInv(s, Apply(s, Run(k)), k, m);
    }
  }

  lemma SendKeepsInv(s: Sys, s': Sys, k: nat, m: nat, j: nat)
    requires Inv(s) && Sends(s, s', k, m, j)
    ensures Inv(s')
  {
    SendDispatches(s, s', k, m, j);
    DispatchKeepsAll(s, s', m, j);
    SendKeepsLoads(s, s', m, j);
  }

  lemma SendDispatches(s: Sys, s': Sys, k: nat, m: nat, j: nat)
    requires Sends(s, s', k, m, j)
    ensures Dispatches(s, s', m, j)
  {
    assert Waiting(s)[k] == s.spawned[k];
    assert Waiting(s') == Waiting(s)[..k] + Waiting(s)[k + 1..];
  }

  lemma SendKeepsLoads(s: Sys, s': Sys, m: nat, j: nat)
    requires TasksOk(s) && WorkersOk(s) && LoadsOk(s) && TasksOk(s') && Dispatches(s, s', m, j)
    requires s'.dequeued == s.dequeued && s'.threads == s.threads
    requires FreeCores(s.tables.workers[j]) >= s.tables.tasks[m].cores
    ensures LoadsOk(s')
  {
    forall i | 0 <= i < |s'.tables.workers| ensures LoadOk(s', s'.tables.workers[i]) {
      assert LoadOk(s, s.tables.workers[i]);
      if i == j {
        DirectDispatchLoad(s, s', m, j);
      } else {
        DispatchKeepsOtherLoads(s, s', m, j, i);
      }
    }
  }

  lemma DispatchKeepsAll(s: Sys, s': Sys, k: nat, j: nat)
    requires Inv(s) && Dispatches(s, s', k, j)
    ensures TasksOk(s') && WorkersOk(s') && WaitingOk(s') && WireOk(s') && SentOk(s')
  {
    DispatchKeepsTasks(s, s', k, j);
    DispatchKeepsWaiting(s, s', k, j);
    DispatchKeepsWire(s, s', k, j);
    DispatchKeepsSent(s, s', k, j);
  }

  /** A task moves from its thread to the end of the queue. */
  lemma EnqueueKeepsInv(s: Sys, s': Sys, k: nat, m: nat)
    requires Inv(s) && QueuesUp(s, s', k, m)
    ensures Inv(s')
  {
    EnqueueKeepsWaiting(s, s', k);
    IdsOfMore(s.tables.queue, s.spawned[k]);
    SameLoads(s, s');
    SameWire(s, s');
  }

  lemma IdsOfMore(queue: seq<Task>, t: Task)
    ensures Ids(queue + [t]) == Ids(queue) + [t.id]
  {
  }

  lemma SameWire(s: Sys, s': Sys)
    requires WireOk(s) && SentOk(s) && TasksOk(s) && WorkersOk(s)
    requires s'.tables.tasks == s.tables.tasks && s'.tables.workers == s.tables.workers && s'.threads == s.threads
    requires s'.requests == s.requests && s'.results == s.results && s'.sent == s.sent && s'.known == s.known
    ensures WireOk(s') && SentOk(s') && TasksOk(s') && WorkersOk(s')
  {
  }

  lemma EnqueueKeepsWaiting(s: Sys, s': Sys, k: nat)
    requires WaitingOk(s) && k < |s.spawned|
    requires s'.tables.tasks == s.tables.tasks
    requires s'.spawned == s.spawned[..k] + s.spawned[k + 1..]
    requires s'.tables.queue == s.tables.queue + [s.spawned[k]]
    ensures WaitingOk(s')
  {
    var was, now := Waiting(s), Waiting(s');
    assert was[k] == s.spawned[k] && now == was[..k] + was[k + 1..] + [was[k]];
    MovedToEnd(was, now, k);
    forall i | 0 <= i < |now| ensures now[i] in s'.tables.tasks && now[i].status == Queued {
      assert now[i] in was;
    }
    forall i | 0 <= i < |s'.tables.tasks| && s'.tables.tasks[i].status == Queued
      ensures s'.tables.tasks[i] in now
    {
      assert s.tables.tasks[i] in was;
    }
  }

  lemma MovedToEnd(was: seq<Task>, now: seq<Task>, k: nat)
    requires DistinctIds(was) && k < |was| && now == was[..k] + was[k + 1..] + [was[k]]
    ensures DistinctIds(now)
    ensures forall t :: t in was <==> t in now
  {
    var rest := was[..k] + was[k + 1..];
    RemovedOne(was, rest, k);
    assert was == was[..k] + [was[k]] + was[k + 1..];
  }

  lemma SameLoads(s: Sys, s': Sys)
    requires LoadsOk(s) && s'.tables.tasks == s.tables.tasks && s'.tables.workers == s.tables.workers
    requires s'.threads == s.threads && s'.dequeued == s.dequeued
    ensures LoadsOk(s')
  {
    forall i | 0 <= i < |s'.tables.workers| ensures LoadOk(s', s'.tables.workers[i]) {
      assert LoadOk(s, s.tables.workers[i]);
    }
  }

  // ----- Check

  lemma ThreadWorker(s: Sys, id: string) returns (j: nat)
    requires WorkersOk(s) && id in s.threads
    ensures j < |s.tables.workers| && s.tables.workers[j].id == id
    ensures s.threads[id].copy == Worker(id, s.tables.workers[j].cores, 0)
  {
    j :| 0 <= j < |s.tables.workers| && s.tables.workers[j].id == id;
  }

  lemma QueueFrontInTable(s: Sys) returns (m: nat)
    requires WaitingOk(s) && s.tables.queue != []
    ensures m < |s.tables.tasks| && s.tables.tasks[m] == s.tables.queue[0] && s.tables.tasks[m].status == Queued
  {
    assert Waiting(s)[|s.spawned|] == s.tables.queue[0];
    m :| 0 <= m < |s.tables.tasks| && s.tables.tasks[m] == s.tables.queue[0];
  }

  /** checkTaskQueue takes the front of the queue exactly when its cores are at most all the
      worker's cores, however many are in use; it never throws. */
  lemma CheckOutcome(s: Sys, id: string) returns (m: nat, j: nat)
    requires Inv(s) && id in s.threads
    ensures j < |s.tables.workers| && s.tables.workers[j].id == id
    ensures var o := CheckTaskQueue(s.tables, s.threads[id].copy);
            if s.tables.queue != [] && s.tables.queue[0].cores <= s.tables.workers[j].cores then
              && m < |s.tables.tasks| && s.tables.tasks[m] == s.tables.queue[0] && s.tables.tasks[m].status == Queued
              && o == Outcome(Sending(s.tables, m, j).(queue := s.tables.queue[1..]),
                              Some(Request(id, s.tables.queue[0].id)), false)
            else o == Outcome(s.tables, None, false)
  {
    j := ThreadWorker(s, id);
    m := 0;
    if s.tables.queue != [] {
      m := QueueFrontInTable(s);
      UsedNonNegative(s, j);
      UpdatesSucceed(s, m, j);
    }
  }

  /** s' is s after the front of the queue has gone to the worker that owed a look. */
  ghost predicate Takes(s: Sys, s': Sys, id: string, m: nat, j: nat) {
    && id in s.threads && s.threads[id].owes && s.tables.queue != []
    && m < |s.tables.tasks| && j < |s.tables.workers| && s.tables.workers[j].id == id
    && s.tables.tasks[m] == s.tables.queue[0] && s.tables.tasks[m].status == Queued
    && s.tables.queue[0].cores <= s.tables.workers[j].cores
    && var r := Request(id, s.tables.queue[0].id);
       s' == s.(tables := Sending(s.tables, m, j).(queue := s.tables.queue[1..]),
                threads := s.threads[id := s.threads[id].(owes := false)],
                dequeued := s.dequeued + [s.tables.queue[0].id],
                sent := s.sent + [r], requests := s.requests + {r})
  }

  /** s' is s after the worker's thread has looked at the queue and taken nothing. */
  ghost predicate Passes(s: Sys, s': Sys, id: string) {
    id in s.threads && s' == s.(threads := s.threads[id := s.threads[id].(owes := false)])
  }

  /** A look at the queue is one or the other. */
  lemma CheckShape(s: Sys, id: string) returns (m: nat, j: nat)
    requires Inv(s) && Enabled(s, Check(id))
    ensures j < |s.tables.workers| && s.tables.workers[j].id == id
    ensures var s' := Apply(s, Check(id));
            if s.tables.queue != [] && s.tables.queue[0].cores <= s.tables.workers[j].cores
            then Takes(s, s', id, m, j) else Passes(s, s', id)
  {
    m, j := CheckOutcome(s, id);
    var o := CheckTaskQueue(s.tables, s.threads[id].copy);
    if s.tables.queue != [] && s.tables.queue[0].cores <= s.tables.workers[j].cores {
      OutcomeTakes(s, id, m, j, o);
    } else {
      OutcomePasses(s, id, o);
    }
  }

  lemma OutcomeTakes(s: Sys, id: string, m: nat, j: nat, o: Outcome)
    requires id in s.threads && s.threads[id].owes && s.tables.queue != []
    requires j < |s.tables.workers| && s.tables.workers[j].id == id
    requires m < |s.tables.tasks| && s.tables.tasks[m] == s.tables.queue[0] && s.tables.tasks[m].status == Queued
    requires s.tables.queue[0].cores <= s.tables.workers[j].cores
    requires o == Outcome(Sending(s.tables, m, j).(queue := s.tables.queue[1..]),
                          Some(Request(id, s.tables.queue[0].id)), false)
    ensures Takes(s, AfterCheck(s, id, o), id, m, j)
  {
  }

  lemma OutcomePasses(s: Sys, id: string, o: Outcome)
    requires id in s.threads && o == Outcome(s.tables, None, false)
    ensures Passes(s, AfterCheck(s, id, o), id)
  {
    assert s.sent + [] == s.sent && s.requests + {} == s.requests;
  }

  lemma CheckKeepsInv(s: Sys, id: string)
    requires Inv(s) && Enabled(s, Check(id))
    ensures Inv(Apply(s, Check(id)))
  {
    var m, j := CheckShape(s, id);
    if Passes(s, Apply(s, Check(id)), id) {
      OweChangeKeepsInv(s, Apply(s, Check(id)), id, j);
    } else {
      TakeKeepsInv(s, Apply(s, Check(id)), id, m, j);
    }
  }

  lemma TakeKeepsInv(s: Sys, s': Sys, id: string, m: nat, j: nat)
    requires Inv(s) && Takes(s, s', id, m, j)
    ensures Inv(s')
  {
    TakeDispatches(s, s', id, m, j);
    DispatchKeepsAll(s, s', m, j);
    TakeKeepsLoads(s, s', id, m, j);
    TakeKeepsQueue(s, s', id, m, j);
  }

  lemma TakeKeepsQueue(s: Sys, s': Sys, id: string, m: nat, j: nat)
    requires QueueOk(s) && Takes(s, s', id, m, j)
    ensures QueueOk(s')
  {
    IdsOfRest(s.tables.queue, s'.tables.queue);
    Regroup(s.dequeued, s.tables.queue[0].id, Ids(s'.tables.queue));
  }

  lemma Regroup(xs: seq<string>, x: string, ys: seq<string>)
    ensures xs + ([x] + ys) == xs + [x] + ys
  {
  }

  lemma IdsOfRest(queue: seq<Task>, rest: seq<Task>)
    requires queue != [] && rest == queue[1..]
    ensures Ids(queue) == [queue[0].id] + Ids(rest)
  {
  }

  lemma TakeDispatches(s: Sys, s': Sys, id: string, m: nat, j: nat)
    requires Takes(s, s', id, m, j)
    ensures Dispatches(s, s', m, j)
  {
    var q := |s.spawned|;
    assert Waiting(s)[q] == s.tables.queue[0];
    assert Waiting(s') == Waiting(s)[..q] + Waiting(s)[q + 1..];
  }

  lemma TakeKeepsLoads(s: Sys, s': Sys, id: string, m: nat, j: nat)
    requires TasksOk(s) && WorkersOk(s) && LoadsOk(s) && Dispatches(s, s', m, j)
    requires s.tables.workers[j].id == id && id in s.threads && s.threads[id].owes
    requires s'.threads == s.threads[id := s.threads[id].(owes := false)]
    requires s'.dequeued == s.dequeued + [s.tables.tasks[m].id]
    requires s.tables.tasks[m].cores <= s.tables.workers[j].cores
    ensures LoadsOk(s')
  {
    forall i | 0 <= i < |s'.tables.workers| ensures LoadOk(s', s'.tables.workers[i]) {
      assert LoadOk(s, s.tables.workers[i]);
      if i == j {
        QueueDispatchLoad(s, s', m, j);
      } else {
        DispatchKeepsOtherLoads(s, s', m, j, i);
      }
    }
  }

  /** Setting or dropping an owed look at the queue. */
  lemma OweChangeKeepsInv(s: Sys, s': Sys, id: string, j: nat)
    requires Inv(s) && id in s.threads && j < |s.tables.workers| && s.tables.workers[j].id == id
    requires s'.threads.Keys == s.threads.Keys && s' == s.(threads := s'.threads)
    requires s'.threads == s.threads[id := s.threads[id].(owes := s'.threads[id].owes)]
    requires s'.threads[id].owes ==> Sum(Count(id), s.tables.tasks) <= Capacity(s.tables.workers[j])
    ensures Inv(s')
  {
    SameTasks(s, s');
    RowsKept(s, s');
    OweChangeKeepsLoads(s, s', id, j);
  }

  lemma OweChangeKeepsLoads(s: Sys, s': Sys, id: string, j: nat)
    requires WorkersOk(s) && LoadsOk(s) && j < |s.tables.workers| && s.tables.workers[j].id == id
    requires s'.tables == s.tables && s'.dequeued == s.dequeued && id in s.threads && id in s'.threads
    requires s'.threads == s.threads[id := s'.threads[id]]
    requires s'.threads[id].owes ==> Sum(Count(id), s.tables.tasks) <= Capacity(s.tables.workers[j])
    ensures LoadsOk(s')
  {
    forall i | 0 <= i < |s'.tables.workers| ensures LoadOk(s', s'.tables.workers[i]) {
      assert LoadOk(s, s.tables.workers[i]);
    }
  }

  // ----- workers come and go

  /** With the tasks unchanged and no worker id forgotten, only the workers are left to look at. */
  lemma SameTasks(s: Sys, s': Sys)
    requires TasksOk(s) && WaitingOk(s) && WireOk(s) && QueueOk(s) && SentOk(s)
    requires s' == s.(tables := s.tables.(workers := s'.tables.workers), threads := s'.threads, known := s'.known)
    requires s.known <= s'.known
    ensures TasksOk(s') && WaitingOk(s') && WireOk(s') && QueueOk(s') && SentOk(s')
  {
  }

  lemma RegisterKeepsInv(s: Sys, w: Worker)
    requires Inv(s) && Enabled(s, Register(w))
    ensures Inv(Apply(s, Register(w)))
  {
    var s' := Apply(s, Register(w));
    SameTasks(s, s');
    RegisterKeepsWorkers(s, w);
    RegisterKeepsLoads(s, w);
  }

  lemma RegisterKeepsWorkers(s: Sys, w: Worker)
    requires WorkersOk(s) && Enabled(s, Register(w))
    ensures WorkersOk(Apply(s, Register(w)))
  {
    var s' := Apply(s, Register(w));
    forall id | id in s'.threads
      ensures exists i :: 0 <= i < |s'.tables.workers| && s'.tables.workers[i].id == id
    {
      RegisteredRow(s, w, id);
    }
  }

  lemma RegisteredRow(s: Sys, w: Worker, id: string)
    requires WorkersOk(s) && (id in s.threads || id == w.id)
    ensures exists i :: 0 <= i < |s.tables.workers + [w]| && (s.tables.workers + [w])[i].id == id
  {
    if id == w.id {
      assert (s.tables.workers + [w])[|s.tables.workers|].id == id;
    } else {
      var i :| 0 <= i < |s.tables.workers| && s.tables.workers[i].id == id;
      assert (s.tables.workers + [w])[i].id == id;
    }
  }

  /** A new worker has no task in flight: its id is not in the table yet. */
  lemma RegisterKeepsLoads(s: Sys, w: Worker)
    requires TasksOk(s) && WorkersOk(s) && LoadsOk(s) && Enabled(s, Register(w))
    ensures LoadsOk(Apply(s, Register(w)))
  {
    var s' := Apply(s, Register(w));
    SumZero(Cores(w.id), s.tables.tasks);
    SumZero(Count(w.id), s.tables.tasks);
    SumZero(FromQueue(w.id, s.dequeued), s.tables.tasks);
    forall i | 0 <= i < |s'.tables.workers| ensures LoadOk(s', s'.tables.workers[i]) {
      if i < |s.tables.workers| {
        assert LoadOk(s, s.tables.workers[i]);
      }
    }
  }

  /** Where row i of the table without row j was before. */
  function Before(i: nat, j: nat): nat {
    if i < j then i else i + 1
  }

  /** The row of worker id is removed, and no other. */
  lemma RemovedAt(s: Sys, id: string) returns (j: nat)
    requires WorkersOk(s) && id in s.threads
    ensures var ws, ws' := s.tables.workers, RemoveWorker(s.tables.workers, id);
            && j < |ws| && |ws'| == |ws| - 1 && ws[j].id == id
            && (forall i: nat :: i < |ws'| ==> ws'[i] == ws[Before(i, j)] && ws'[i].id != id)
  {
    j := ThreadWorker(s, id);
    WorkerIndexOf(s, j);
    RemovedRow(s.tables.workers, j);
  }

  lemma RemovedRow(ws: seq<Worker>, j: nat)
    requires j < |ws| && Index(WorkerIds(ws), ws[j].id) == j
    requires forall i, k :: 0 <= i < k < |ws| ==> ws[i].id != ws[k].id
    ensures var ws' := RemoveWorker(ws, ws[j].id);
            && |ws'| == |ws| - 1
            && forall i: nat :: i < |ws'| ==> ws'[i] == ws[Before(i, j)] && ws'[i].id != ws[j].id
  {
    WithoutRow(ws, j);
    forall i: nat | i < |ws| - 1 ensures ws[Before(i, j)].id != ws[j].id {
    }
  }

  lemma WithoutRow(ws: seq<Worker>, j: nat)
    requires j < |ws|
    ensures var ws' := ws[..j] + ws[j + 1..];
            |ws'| == |ws| - 1 && forall i: nat :: i < |ws'| ==> ws'[i] == ws[Before(i, j)]
  {
  }

  lemma EndThreadKeepsInv(s: Sys, id: string)
    requires Inv(s) && id in s.threads
    ensures Inv(EndThread(s, id))
  {
    var s' := EndThread(s, id);
    SameTasks(s, s');
    var j := RemovedAt(s, id);
    EndThreadKeepsWorkers(s, s', id, j);
    EndThreadKeepsLoads(s, s', id, j);
  }

  ghost predicate Ends(s: Sys, s': Sys, id: string, j: nat) {
    && s'.threads == s.threads - {id} && s'.known == s.known
    && s'.tables.tasks == s.tables.tasks && s'.dequeued == s.dequeued
    && var ws, ws' := s.tables.workers, s'.tables.workers;
       && j < |ws| && |ws'| == |ws| - 1 && ws[j].id == id
       && forall i: nat :: i < |ws'| ==> ws'[i] == ws[Before(i, j)] && ws'[i].id != id
  }

  lemma EndThreadKeepsWorkers(s: Sys, s': Sys, id: string, j: nat)
    requires WorkersOk(s) && Ends(s, s', id, j)
    ensures WorkersOk(s')
  {
    forall x | x in s'.threads
      ensures exists i :: 0 <= i < |s'.tables.workers| && s'.tables.workers[i].id == x
    {
      OthersKeepRow(s, s', id, j, x);
    }
    RowsStayGood(s, s', id, j);
  }

  /** The rows left are in order, and their ids different. */
  lemma RowsStayGood(s: Sys, s': Sys, id: string, j: nat)
    requires WorkersOk(s) && Ends(s, s', id, j)
    ensures forall i, k :: 0 <= i < k < |s'.tables.workers| ==> s'.tables.workers[i].id != s'.tables.workers[k].id
    ensures forall i :: 0 <= i < |s'.tables.workers| ==>
              var w := s'.tables.workers[i];
              && w.id != "" && w.id in s'.known && w.id in s'.threads
              && s'.threads[w.id].copy == Worker(w.id, w.cores, 0)
  {
    forall i: nat, k: nat | i < k < |s'.tables.workers| ensures s'.tables.workers[i].id != s'.tables.workers[k].id {
      assert s.tables.workers[Before(i, j)].id != s.tables.workers[Before(k, j)].id;
    }
    forall i: nat | i < |s'.tables.workers| ensures s'.tables.workers[i] == s.tables.workers[Before(i, j)] {
    }
  }

  lemma OthersKeepRow(s: Sys, s': Sys, id: string, j: nat, x: string)
    requires WorkersOk(s) && Ends(s, s', id, j) && x in s.threads && x != id
    ensures exists i :: 0 <= i < |s'.tables.workers| && s'.tables.workers[i].id == x
  {
    var i :| 0 <= i < |s.tables.workers| && s.tables.workers[i].id == x;
    var i' := if i < j then i else i - 1;
    assert Before(i', j) == i && s'.tables.workers[i'].id == x;
  }

  lemma EndThreadKeepsLoads(s: Sys, s': Sys, id: string, j: nat)
    requires LoadsOk(s) && Ends(s, s', id, j)
    ensures LoadsOk(s')
  {
    forall i: nat | i < |s'.tables.workers| ensures LoadOk(s', s'.tables.workers[i]) {
      assert LoadOk(s, s.tables.workers[Before(i, j)]);
    }
  }

  // ----- Receive

  /** s' is s after the task at index k, in flight at worker j, has been marked Ready. */
  ghost predicate Finishes(s: Sys, s': Sys, k: nat, j: nat, output: string) {
    && k < |s.tables.tasks| && j < |s.tables.workers|
    && var t, w := s.tables.tasks[k], s.tables.workers[j];
       && InFlight(t, w.id)
       && s' == s.(tables := s.tables.(tasks := s.tables.tasks[k := t.(status := Ready, output := output)],
                                       workers := s.tables.workers[j := w.(usedCores := w.usedCores - t.cores)]),
                   results := s.results - {Request(w.id, t.id)})
       && Request(w.id, t.id) in s.results
  }

  lemma {:induction false} SumContains(w: string, tasks: seq<Task>, k: nat)
    requires forall i :: 0 <= i < |tasks| && InFlight(tasks[i], w) ==> 1 <= tasks[i].cores
    requires k < |tasks| && InFlight(tasks[k], w)
    ensures Sum(Cores(w), tasks) >= tasks[k].cores
  {
    var n := |tasks| - 1;
    CountAtMostCores(w, tasks[..n]);
    if k < n {
      SumContains(w, tasks[..n], k);
    }
  }

  lemma AnswersTask(s: Sys, r: Request) returns (k: nat, j: nat)
    requires Inv(s) && r in s.results && r.workerId in s.threads
    ensures k < |s.tables.tasks| && s.tables.tasks[k].id == r.taskId && InFlight(s.tables.tasks[k], r.workerId)
    ensures j < |s.tables.workers| && s.tables.workers[j].id == r.workerId
    ensures s.tables.workers[j].usedCores >= s.tables.tasks[k].cores
  {
    k :| 0 <= k < |s.tables.tasks| && s.tables.tasks[k].id == r.taskId && InFlight(s.tables.tasks[k], r.workerId);
    j := ThreadWorker(s, r.workerId);
    assert LoadOk(s, s.tables.workers[j]);
    SumContains(r.workerId, s.tables.tasks, k);
  }

  /** The answer's task is found and marked, its cores come off its worker without reaching below
      zero; the handler throws only when the client is gone. */
  lemma ReceiveOutcome(s: Sys, r: Request, output: string) returns (k: nat, j: nat)
    requires Inv(s) && r in s.results && r.workerId in s.threads
    ensures k < |s.tables.tasks| && j < |s.tables.workers|
    ensures s.tables.tasks[k].id == r.taskId && InFlight(s.tables.tasks[k], r.workerId)
    ensures s.tables.workers[j].id == r.workerId && s.tables.workers[j].usedCores >= s.tables.tasks[k].cores
    ensures var t, w := s.tables.tasks[k], s.tables.workers[j];
            HandleResult(s.tables, r.taskId, output)
            == Outcome(s.tables.(tasks := s.tables.tasks[k := t.(status := Ready, output := output)],
                                 workers := s.tables.workers[j := w.(usedCores := w.usedCores - t.cores)]),
                       None, t.clientId !in s.tables.clients)
  {
    k, j := AnswersTask(s, r);
    ResultUpdates(s, k, j, output);
  }

  lemma ResultUpdates(s: Sys, k: nat, j: nat, output: string)
    requires TasksOk(s) && WorkersOk(s) && k < |s.tables.tasks| && j < |s.tables.workers|
    requires s.tables.tasks[k].workerId == s.tables.workers[j].id
    requires s.tables.workers[j].usedCores >= s.tables.tasks[k].cores
    ensures var t, w := s.tables.tasks[k], s.tables.workers[j];
            HandleResult(s.tables, t.id, output)
            == Outcome(s.tables.(tasks := s.tables.tasks[k := t.(status := Ready, output := output)],
                                 workers := s.tables.workers[j := w.(usedCores := w.usedCores - t.cores)]),
                       None, t.clientId !in s.tables.clients)
  {
    TaskIndexOf(s.tables.tasks, k);
    WorkerIndexOf(s, j);
  }

  lemma FinishKeepsTables(s: Sys, s': Sys, k: nat, j: nat, output: string)
    requires TasksOk(s) && WorkersOk(s) && WaitingOk(s) && Finishes(s, s', k, j, output)
    ensures TasksOk(s') && WorkersOk(s') && WaitingOk(s')
  {
    RowsKept(s, s');
    FinishKeepsWaiting(s, s', k, j, output);
  }

  lemma FinishKeepsWaiting(s: Sys, s': Sys, k: nat, j: nat, output: string)
    requires TasksOk(s) && WaitingOk(s) && Finishes(s, s', k, j, output)
    ensures WaitingOk(s')
  {
    OthersStay(s.tables.tasks, s'.tables.tasks, k);
    forall q | 0 <= q < |Waiting(s')| ensures Waiting(s')[q] in s'.tables.tasks {
      assert Waiting(s)[q] in s.tables.tasks;
    }
  }

  lemma FinishKeepsWire(s: Sys, s': Sys, k: nat, j: nat, output: string)
    requires TasksOk(s) && WireOk(s) && SentOk(s) && Finishes(s, s', k, j, output)
    ensures WireOk(s') && SentOk(s')
  {
    var r0 := Request(s.tables.workers[j].id, s.tables.tasks[k].id);
    forall r | r in s'.requests + s'.results
      ensures exists i :: 0 <= i < |s'.tables.tasks| && s'.tables.tasks[i].id == r.taskId
                          && InFlight(s'.tables.tasks[i], r.workerId)
    {
      assert r != r0;
      var i :| 0 <= i < |s.tables.tasks| && s.tables.tasks[i].id == r.taskId && InFlight(s.tables.tasks[i], r.workerId);
      assert i != k;
      assert s'.tables.tasks[i].id == r.taskId;
    }
    forall r | r in s'.sent
      ensures exists i :: 0 <= i < |s'.tables.tasks| && s'.tables.tasks[i].id == r.taskId
                          && s'.tables.tasks[i].workerId == r.workerId
    {
      var i :| 0 <= i < |s.tables.tasks| && s.tables.tasks[i].id == r.taskId && s.tables.tasks[i].workerId == r.workerId;
      assert s'.tables.tasks[i].id == r.taskId;
    }
  }

  lemma FinishKeepsLoads(s: Sys, s': Sys, k: nat, j: nat, output: string)
    requires TasksOk(s) && WorkersOk(s) && LoadsOk(s) && Finishes(s, s', k, j, output)
    ensures LoadsOk(s')
  {
    forall i | 0 <= i < |s'.tables.workers| ensures LoadOk(s', s'.tables.workers[i]) {
      FinishSums(s.tables.tasks, k, s'.tables.tasks[k], s.tables.workers[i].id, s.dequeued);
      assert LoadOk(s, s.tables.workers[i]);
    }
  }

  lemma FinishSums(tasks: seq<Task>, k: nat, t': Task, w: string, dequeued: seq<string>)
    requires k < |tasks| && tasks[k].status == SentToWorker && t'.status == Ready
    ensures var t, tasks' := tasks[k], tasks[k := t'];
            && Sum(Cores(w), tasks') == Sum(Cores(w), tasks) - (if t.workerId == w then t.cores else 0)
            && Sum(Count(w), tasks') == Sum(Count(w), tasks) - (if t.workerId == w then 1 else 0)
            && Sum(FromQueue(w, dequeued), tasks')
               == Sum(FromQueue(w, dequeued), tasks) - (if t.workerId == w && t.id in dequeued then t.cores else 0)
  {
    SumUpdate(Cores(w), tasks, k, t');
    SumUpdate(Count(w), tasks, k, t');
    SumUpdate(FromQueue(w, dequeued), tasks, k, t');
  }

  lemma FinishKeepsInv(s: Sys, s': Sys, k: nat, j: nat, output: string)
    requires Inv(s) && Finishes(s, s', k, j, output)
    ensures Inv(s')
  {
    FinishKeepsTables(s, s', k, j, output);
    FinishKeepsWire(s, s', k, j, output);
    FinishKeepsLoads(s, s', k, j, output);
  }

  ghost function AfterResult(s: Sys, r: Request, output: string): Sys {
    s.(tables := HandleResult(s.tables, r.taskId, output).tables, results := s.results - {r})
  }

  lemma ReceiveFinishes(s: Sys, r: Request, output: string) returns (k: nat, j: nat)
    requires Inv(s) && r in s.results && r.workerId in s.threads
    ensures Finishes(s, AfterResult(s, r, output), k, j, output) && s.tables.workers[j].id == r.workerId
  {
    k, j := ReceiveOutcome(s, r, output);
    assert r == Request(r.workerId, r.taskId);
  }

  lemma ReceiveKeepsInv(s: Sys, r: Request, output: string, clientTold: bool)
    requires Inv(s) && Enabled(s, Receive(r, output, clientTold))
    ensures Inv(Apply(s, Receive(r, output, clientTold)))
  {
    var k, j := ReceiveFinishes(s, r, output);
    FinishKeepsInv(s, AfterResult(s, r, output), k, j, output);
    ThenEndsOrOwes(s, AfterResult(s, r, output), k, j, output, clientTold);
  }

  lemma ThenEndsOrOwes(s: Sys, s1: Sys, k: nat, j: nat, output: string, clientTold: bool)
    requires Inv(s) && Inv(s1) && Finishes(s, s1, k, j, output) && s.tables.workers[j].id in s.threads
    ensures var id := s.tables.workers[j].id;
            Inv(EndThread(s1, id)) && Inv(s1.(threads := s1.threads[id := s1.threads[id].(owes := clientTold)]))
  {
    EndThreadKeepsInv(s1, s.tables.workers[j].id);
    FinishFrees(s, s1, k, j, output);
    OweAfterFinish(s1, s.tables.workers[j].id, j, clientTold);
  }

  lemma OweAfterFinish(s1: Sys, id: string, j: nat, clientTold: bool)
    requires Inv(s1) && id in s1.threads && j < |s1.tables.workers| && s1.tables.workers[j].id == id
    requires Sum(Count(id), s1.tables.tasks) <= Capacity(s1.tables.workers[j])
    ensures Inv(s1.(threads := s1.threads[id := s1.threads[id].(owes := clientTold)]))
  {
    OweChangeKeepsInv(s1, s1.(threads := s1.threads[id := s1.threads[id].(owes := clientTold)]), id, j);
  }

  /** After a task is finished its worker has at most as many in flight as it has cores. */
  lemma FinishFrees(s: Sys, s': Sys, k: nat, j: nat, output: string)
    requires LoadsOk(s) && Finishes(s, s', k, j, output)
    ensures Sum(Count(s.tables.workers[j].id), s'.tables.tasks) <= Capacity(s'.tables.workers[j])
  {
    assert LoadOk(s, s.tables.workers[j]);
    SumUpdate(Count(s.tables.workers[j].id), s.tables.tasks, k, s'.tables.tasks[k]);
  }

  // ----- the other steps

  lemma AcceptKeepsInv(s: Sys, task: Task)
    requires Inv(s) && Enabled(s, Accept(task))
    ensures Inv(Apply(s, Accept(task)))
  {
    var s' := Apply(s, Accept(task));
    assert s'.tables.tasks == s.tables.tasks + [task];
    AcceptKeepsWaiting(s, s', task);
    AcceptKeepsWire(s, s', task);
    AcceptKeepsLoads(s, s', task);
  }

  lemma AcceptKeepsLoads(s: Sys, s': Sys, task: Task)
    requires LoadsOk(s) && task.status == Queued && s'.dequeued == s.dequeued && s'.threads == s.threads
    requires s'.tables.tasks == s.tables.tasks + [task] && s'.tables.workers == s.tables.workers
    ensures LoadsOk(s')
  {
    forall i | 0 <= i < |s'.tables.workers| ensures LoadOk(s', s'.tables.workers[i]) {
      var w := s.tables.workers[i];
      assert LoadOk(s, w);
      SumAppend(Cores(w.id), s.tables.tasks, task);
      SumAppend(Count(w.id), s.tables.tasks, task);
      SumAppend(FromQueue(w.id, s.dequeued), s.tables.tasks, task);
    }
  }

  lemma AcceptKeepsWaiting(s: Sys, s': Sys, task: Task)
    requires WaitingOk(s) && FreshTaskId(s, task.id) && task.status == Queued
    requires s'.tables.tasks == s.tables.tasks + [task]
    requires s'.spawned == s.spawned + [task] && s'.tables.queue == s.tables.queue
    ensures WaitingOk(s')
  {
    var was, now, n := Waiting(s), Waiting(s'), |s.spawned|;
    assert now == was[..n] + [task] + was[n..];
    forall i | 0 <= i < |was| ensures was[i].id != task.id {
    }
    InsertedOne(was, now, n, task);
    forall q | 0 <= q < |now| ensures now[q] in s'.tables.tasks && now[q].status == Queued {
      assert now[q] == task || now[q] in was;
    }
    forall i | 0 <= i < |s'.tables.tasks| && s'.tables.tasks[i].status == Queued
      ensures s'.tables.tasks[i] in now
    {
      assert s'.tables.tasks[i] == task || s.tables.tasks[i] in was;
    }
  }

  lemma InsertedOne(was: seq<Task>, now: seq<Task>, n: nat, task: Task)
    requires DistinctIds(was) && n <= |was| && now == was[..n] + [task] + was[n..]
    requires forall i :: 0 <= i < |was| ==> was[i].id != task.id
    ensures DistinctIds(now)
    ensures forall t :: t in now <==> t in was || t == task
  {
    assert was == was[..n] + was[n..];
  }

  lemma AcceptKeepsWire(s: Sys, s': Sys, task: Task)
    requires WireOk(s) && SentOk(s) && FreshTaskId(s, task.id) && task.status == Queued
    requires s'.tables.tasks == s.tables.tasks + [task]
    requires s'.requests == s.requests && s'.results == s.results && s'.sent == s.sent
    ensures WireOk(s') && SentOk(s')
  {
    forall r | r in s'.requests + s'.results
      ensures exists i :: 0 <= i < |s'.tables.tasks| && s'.tables.tasks[i].id == r.taskId
                          && InFlight(s'.tables.tasks[i], r.workerId)
    {
      var i :| 0 <= i < |s.tables.tasks| && s.tables.tasks[i].id == r.taskId && InFlight(s.tables.tasks[i], r.workerId);
      assert s'.tables.tasks[i].id == r.taskId;
    }
    forall r | r in s'.sent
      ensures exists i :: 0 <= i < |s'.tables.tasks| && s'.tables.tasks[i].id == r.taskId
                          && s'.tables.tasks[i].workerId == r.workerId
      ensures r.taskId != task.id
    {
      var i :| 0 <= i < |s.tables.tasks| && s.tables.tasks[i].id == r.taskId && s.tables.tasks[i].workerId == r.workerId;
      assert s'.tables.tasks[i].id == r.taskId;
    }
  }

  /** Clients and the wire: nothing the invariant speaks of gets worse. */
  lemma OutsideKeepsInv(s: Sys, s': Sys)
    requires Inv(s)
    requires s' == s.(requests := s'.requests, results := s'.results,
                      tables := s.tables.(clients := s'.tables.clients))
    requires s'.requests !! s'.results && s'.requests + s'.results <= s.requests + s.results
    ensures Inv(s')
  {
    SameLoads(s, s');
  }

  lemma StepKeepsInv(s: Sys, e: Step)
    requires Inv(s) && Enabled(s, e)
    ensures Inv(Apply(s, e))
  {
    match e
    case Accept(task) => AcceptKeepsInv(s, task);
    case Run(k) => RunKeepsInv(s, k);
    case Register(w) => RegisterKeepsInv(s, w);
    case Check(id) => CheckKeepsInv(s, id);
    case Answer(r) => OutsideKeepsInv(s, Apply(s, e));
    case Receive(r, output, clientTold) => ReceiveKeepsInv(s, r, output, clientTold);
    case Leave(id) => EndThreadKeepsInv(s, id);
    case ClientJoins(c) => OutsideKeepsInv(s, Apply(s, e));
    case ClientLeaves(c) => OutsideKeepsInv(s, Apply(s, e));
    case Lose(r) => OutsideKeepsInv(s, Apply(s, e));
  }

  /** Every reachable state satisfies the invariant. */
  lemma {:induction false} Invariant(es: seq<Step>)
    requires Runs(es)
    ensures Inv(State(es))
  {
    if es != [] {
      Invariant(es[..|es| - 1]);
      StepKeepsInv(State(es[..|es| - 1]), es[|es| - 1]);
    }
  }
}
