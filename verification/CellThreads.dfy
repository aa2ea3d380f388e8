/** How the worker's handlers run one thread per result cell, at most `cores` at a time: the
    handler thread spawns jobs in order, and blocks to join the whole batch when it is full or
    the last job has been spawned. Each job updates its own cell `steps` times; the scheduler
    interleaves all live jobs and the spawning freely. */
module CellThreads {

  /** Job c's k-th update turns its cell's value v into update(c, k, v). Cells start at 0. */
  datatype Jobs = Jobs(count: nat, steps: nat, update: (nat, nat, int) -> int)

  /** `live` is the handler's thread vector; pc[c] counts the updates job c has made. */
  datatype State = State(started: seq<nat>, live: seq<nat>, joining: bool, pc: seq<nat>, cell: seq<int>)

  ghost predicate Init(jobs: Jobs, s: State) {
    s == State([], [], false, seq(jobs.count, _ => 0), seq(jobs.count, _ => 0))
  }

  ghost predicate Spawn(jobs: Jobs, cores: nat, s: State, s': State) {
    && !s.joining
    && var next := |s.started|;
    && next < jobs.count
    && s' == s.(started := s.started + [next], live := s.live + [next],
                joining := |s.live| + 1 == cores || next + 1 == jobs.count)
  }

  ghost predicate Update(jobs: Jobs, s: State, s': State, c: nat) {
    && c in s.live
    && c < |s.pc| && c < |s.cell| && s.pc[c] < jobs.steps
    && s' == s.(pc := s.pc[c := s.pc[c] + 1], cell := s.cell[c := jobs.update(c, s.pc[c], s.cell[c])])
  }

  ghost predicate Join(jobs: Jobs, s: State, s': State) {
    && s.joining
    && (forall c :: c in s.live ==> c < |s.pc| && s.pc[c] == jobs.steps)
    && s' == s.(live := [], joining := false)
  }

  ghost predicate Next(jobs: Jobs, cores: nat, s: State, s': State) {
    Spawn(jobs, cores, s, s') || Join(jobs, s, s') || exists c :: Update(jobs, s, s', c)
  }

  /** The handler has joined its last batch and goes on to read the result. */
  ghost predicate Finished(jobs: Jobs, s: State) {
    |s.started| == jobs.count && !s.joining
  }

  /** A schedule: any sequence of steps from the start. */
  ghost predicate Run(jobs: Jobs, cores: nat, r: seq<State>) {
    && r != [] && Init(jobs, r[0])
    && forall i, j :: 0 <= i < j < |r| && j == i + 1 ==> Next(jobs, cores, r[i], r[j])
  }

  /** What job c computes on its own: its cell after the first k updates. */
  ghost function Alone(jobs: Jobs, c: nat, k: nat): int {
    if k == 0 then 0 else jobs.update(c, k - 1, Alone(jobs, c, k - 1))
  }

  ghost predicate Inv(jobs: Jobs, cores: nat, s: State) {
    && |s.pc| == |s.cell| == jobs.count
    && |s.started| <= jobs.count && |s.live| <= |s.started|
    && (forall i :: 0 <= i < |s.started| ==> s.started[i] == i)
    && (forall i :: 0 <= i < |s.live| ==> s.live[i] == |s.started| - |s.live| + i)
    && (forall c :: 0 <= c < |s.pc| ==> s.pc[c] <= jobs.steps && s.cell[c] == Alone(jobs, c, s.pc[c]))
    && (forall c :: 0 <= c < |s.started| - |s.live| ==> s.pc[c] == jobs.steps)
    && (s.joining <==> |s.live| > 0 && (|s.live| == cores || |s.started| == jobs.count))
    && (cores > 0 ==> |s.live| <= cores)
  }

  lemma InvStep(jobs: Jobs, cores: nat, s: State, s': State)
    requires Inv(jobs, cores, s) && Next(jobs, cores, s, s')
    ensures Inv(jobs, cores, s')
  {
    if c :| Update(jobs, s, s', c) {
      InvUpdate(jobs, cores, s, s', c);
    } else if Join(jobs, s, s') {
      InvJoin(jobs, cores, s, s');
    }
  }

  lemma InvUpdate(jobs: Jobs, cores: nat, s: State, s': State, c: nat)
    requires Inv(jobs, cores, s) && Update(jobs, s, s', c)
    ensures Inv(jobs, cores, s')
  {
    assert s'.cell[c] == Alone(jobs, c, s'.pc[c]);
  }

  lemma InvJoin(jobs: Jobs, cores: nat, s: State, s': State)
    requires Inv(jobs, cores, s) && Join(jobs, s, s')
    ensures Inv(jobs, cores, s')
  {
    forall c | 0 <= c < |s.started| ensures s.pc[c] == jobs.steps {
      if c >= |s.started| - |s.live| {
        assert s.live[c - (|s.started| - |s.live|)] == c;
      }
    }
  }

  lemma {:induction false} InvRun(jobs: Jobs, cores: nat, r: seq<State>)
    requires Run(jobs, cores, r)
    ensures Inv(jobs, cores, r[|r| - 1])
  {
    if |r| > 1 {
      InvRun(jobs, cores, r[..|r| - 1]);
      InvStep(jobs, cores, r[|r| - 2], r[|r| - 1]);
    }
  }

  /** In every schedule at most `cores` jobs are live, the jobs started are 0, 1, 2, ... each
      exactly once, and when the handler reads the result no thread is live and every cell holds
      what its job computes alone. */
  lemma EverySchedule(jobs: Jobs, cores: nat, r: seq<State>)
    requires Run(jobs, cores, r)
    ensures var s := r[|r| - 1];
            && (cores > 0 ==> |s.live| <= cores)
            && |s.started| <= jobs.count
            && (forall i :: 0 <= i < |s.started| ==> s.started[i] == i)
            && (Finished(jobs, s) ==>
                  && s.live == [] && |s.cell| == |s.started| == jobs.count
                  && forall c :: 0 <= c < jobs.count ==> s.cell[c] == Alone(jobs, c, jobs.steps))
  {
    InvRun(jobs, cores, r);
  }

  // ----- every schedule can be completed, and none is longer than the work there is

  ghost function Remaining(jobs: Jobs, pc: seq<nat>): int {
    if pc == [] then 0 else Remaining(jobs, pc[..|pc| - 1]) + jobs.steps - pc[|pc| - 1]
  }

  ghost function Measure(jobs: Jobs, s: State): int {
    Remaining(jobs, s.pc) + 2 * (jobs.count - |s.started|) + if s.joining then 1 else 0
  }

  lemma {:induction false} RemainingUpdate(jobs: Jobs, pc: seq<nat>, c: nat)
    requires c < |pc|
    ensures Remaining(jobs, pc[c := pc[c] + 1]) == Remaining(jobs, pc) - 1
  {
    var pc' := pc[c := pc[c] + 1];
    if c < |pc| - 1 {
      RemainingUpdate(jobs, pc[..|pc| - 1], c);
      assert pc'[..|pc| - 1] == pc[..|pc| - 1][c := pc[c] + 1];
    } else {
      assert pc'[..|pc| - 1] == pc[..|pc| - 1];
    }
  }

  lemma {:induction false} RemainingStart(jobs: Jobs, n: nat)
    ensures Remaining(jobs, seq(n, _ => 0)) == n * jobs.steps
  {
    if n > 0 {
      RemainingStart(jobs, n - 1);
      assert seq(n, _ => 0)[..n - 1] == seq(n - 1, _ => 0);
    }
  }

  lemma {:induction false} RemainingNonNegative(jobs: Jobs, pc: seq<nat>)
    requires forall c :: 0 <= c < |pc| ==> pc[c] <= jobs.steps
    ensures Remaining(jobs, pc) >= 0
  {
    if pc != [] {
      RemainingNonNegative(jobs, pc[..|pc| - 1]);
    }
  }

  lemma {:induction false} ScheduleMeasure(jobs: Jobs, cores: nat, r: seq<State>)
    requires Run(jobs, cores, r)
    ensures |r| - 1 + Measure(jobs, r[|r| - 1]) <= jobs.count * jobs.steps + 2 * jobs.count
  {
    if |r| == 1 {
      RemainingStart(jobs, jobs.count);
    } else {
      var r' := r[..|r| - 1];
      ScheduleMeasure(jobs, cores, r');
      InvRun(jobs, cores, r');
      var s, s' := r[|r| - 2], r[|r| - 1];
      assert Next(jobs, cores, s, s');
      if c :| Update(jobs, s, s', c) {
        RemainingUpdate(jobs, s.pc, c);
      }
    }
  }

  /** No schedule is longer than the spawns, joins and updates there are, and one that has not
      finished can go on: so every schedule, extended as far as it goes, finishes. */
  lemma SchedulesFinish(jobs: Jobs, cores: nat, r: seq<State>)
    requires Run(jobs, cores, r)
    ensures |r| <= 1 + jobs.count * jobs.steps + 2 * jobs.count
    ensures var s := r[|r| - 1]; !Finished(jobs, s) ==> exists s' :: Next(jobs, cores, s, s')
  {
    ScheduleMeasure(jobs, cores, r);
    InvRun(jobs, cores, r);
    var s := r[|r| - 1];
    RemainingNonNegative(jobs, s.pc);
    if !Finished(jobs, s) {
      if !s.joining {
        var next := |s.started|;
        var s' := s.(started := s.started + [next], live := s.live + [next],
                     joining := |s.live| + 1 == cores || next + 1 == jobs.count);
        assert Next(jobs, cores, s, s');
      } else if c :| c in s.live && s.pc[c] < jobs.steps {
        var s' := s.(pc := s.pc[c := s.pc[c] + 1], cell := s.cell[c := jobs.update(c, s.pc[c], s.cell[c])]);
        assert Update(jobs, s, s', c);
        assert Next(jobs, cores, s, s');
      } else {
        var s' := s.(live := [], joining := false);
        assert Next(jobs, cores, s, s');
      }
    }
  }
}
