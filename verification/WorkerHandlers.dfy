/** The worker's matrix handlers: one cell per thread for a product, one matrix per thread for
    determinants. */
module WorkerHandlers {
  import opened Wrappers
  import opened Determinants
  import opened Elimination
  import opened Products
  import opened CellThreads

  /** The thread body: adds the dot product to its own cell, touching no other. */
  method MatrixMultiplication(a: seq<Row>, b: seq<Row>, result: array2<int>, row: nat, col: nat)
    requires Multiplicable(a, b) && result.Length0 == |a| && result.Length1 == |b[0]|
    requires row < |a| && col < |b[0]|
    modifies result
    ensures result[row, col] == old(result[row, col]) + Entry(a, b, row, col)
    ensures forall r, c :: 0 <= r < |a| && 0 <= c < |b[0]| && (r, c) != (row, col) ==>
              result[r, c] == old(result[r, c])
  {
    var colsA := |a[0]|;
    for k := 0 to colsA
      invariant result[row, col] == old(result[row, col]) + Dot(a, b, row, col, k)
      invariant forall r, c :: 0 <= r < |a| && 0 <= c < |b[0]| && (r, c) != (row, col) ==>
                  result[r, c] == old(result[r, c])
    {
      result[row, col] := result[row, col] + a[row][k] * b[k][col];
    }
  }

  ghost predicate Distinct<T>(xs: seq<T>) {
    forall i, j :: 0 <= i < j < |xs| ==> xs[i] != xs[j]
  }

  /** Cell (r, c) comes before (row, col) in the handler's two nested loops. */
  ghost predicate Before(r: nat, c: nat, row: nat, col: nat) {
    r < row || (r == row && c < col)
  }

  /** With the loops at (row, col), joined cells are finished and all others still zero. */
  ghost predicate Progress(a: seq<Row>, b: seq<Row>, cells: seq<Row>, threads: seq<(nat, nat)>, row: nat, col: nat)
    requires Multiplicable(a, b) && |cells| == |a| && Rectangular(cells, |b[0]|)
  {
    && Distinct(threads)
    && (forall t :: t in threads ==> t.0 < |a| && t.1 < |b[0]| && Before(t.0, t.1, row, col))
    && (forall r: nat, c: nat :: r < |a| && c < |b[0]| ==>
          cells[r][c] == if Before(r, c, row, col) && (r, c) !in threads then Entry(a, b, r, c) else 0)
  }

  lemma SpawnKeepsProgress(a: seq<Row>, b: seq<Row>, cells: seq<Row>, threads: seq<(nat, nat)>, row: nat, col: nat)
    requires Multiplicable(a, b) && |cells| == |a| && Rectangular(cells, |b[0]|)
    requires row < |a| && col < |b[0]| && Progress(a, b, cells, threads, row, col)
    ensures Progress(a, b, cells, threads + [(row, col)], row, col + 1)
  {
    assert !Before(row, col, row, col);
  }

  lemma RowEndKeepsProgress(a: seq<Row>, b: seq<Row>, cells: seq<Row>, threads: seq<(nat, nat)>, row: nat)
    requires Multiplicable(a, b) && |cells| == |a| && Rectangular(cells, |b[0]|)
    requires row < |a| && Progress(a, b, cells, threads, row, |b[0]|)
    ensures Progress(a, b, cells, threads, row + 1, 0)
  {
    assert forall r: nat, c: nat :: c < |b[0]| ==> (Before(r, c, row, |b[0]|) <==> Before(r, c, row + 1, 0));
  }

  ghost function Cells(result: array2<int>): (cells: seq<Row>)
    reads result
    ensures |cells| == result.Length0 && Rectangular(cells, result.Length1)
    ensures forall r, c :: 0 <= r < result.Length0 && 0 <= c < result.Length1 ==> cells[r][c] == result[r, c]
  {
    seq(result.Length0, r requires 0 <= r < result.Length0 reads result =>
      seq(result.Length1, c requires 0 <= c < result.Length1 reads result => result[r, c]))
  }

  /** Joining a batch: every thread of it has then run to its end. */
  method JoinAll(a: seq<Row>, b: seq<Row>, result: array2<int>, threads: seq<(nat, nat)>, row: nat, col: nat)
    requires Multiplicable(a, b) && result.Length0 == |a| && result.Length1 == |b[0]|
    requires Progress(a, b, Cells(result), threads, row, col)
    modifies result
    ensures Progress(a, b, Cells(result), [], row, col)
  {
    for i := 0 to |threads|
      invariant Progress(a, b, Cells(result), threads[i..], row, col)
    {
      ghost var before := Cells(result);
      var t := threads[i];
      MatrixMultiplication(a, b, result, t.0, t.1);
      JoinKeepsProgress(a, b, before, threads[i..], row, col, Cells(result));
      assert threads[i..][1..] == threads[i + 1..];
    }
  }

  lemma JoinKeepsProgress(a: seq<Row>, b: seq<Row>, cells: seq<Row>, threads: seq<(nat, nat)>, row: nat, col: nat,
                          cells': seq<Row>)
    requires Multiplicable(a, b) && |cells| == |cells'| == |a|
    requires Rectangular(cells, |b[0]|) && Rectangular(cells', |b[0]|)
    requires threads != [] && Progress(a, b, cells, threads, row, col)
    requires forall r: nat, c: nat :: r < |a| && c < |b[0]| ==>
               cells'[r][c] == cells[r][c] + if (r, c) == threads[0] then Entry(a, b, r, c) else 0
    ensures Progress(a, b, cells', threads[1..], row, col)
  {
    assert threads == [threads[0]] + threads[1..];
  }

  /** The handler's inner loop: spawns the cells of one row, joining each batch that fills up. */
  method MultiplyRow(a: seq<Row>, b: seq<Row>, result: array2<int>, live: seq<(nat, nat)>, row: nat, taskCores: nat)
    returns (threads: seq<(nat, nat)>)
    requires Multiplicable(a, b) && result.Length0 == |a| && result.Length1 == |b[0]|
    requires row < |a| && Progress(a, b, Cells(result), live, row, 0)
    requires taskCores > 0 ==> |live| < taskCores
    modifies result
    ensures Progress(a, b, Cells(result), threads, row + 1, 0)
    ensures taskCores > 0 ==> |threads| < taskCores
    ensures row == |a| - 1 && |b[0]| > 0 ==> threads == []
  {
    threads := live;
    for col := 0 to |b[0]|
      invariant Progress(a, b, Cells(result), threads, row, col)
      invariant taskCores > 0 ==> |threads| < taskCores
      invariant row == |a| - 1 && col == |b[0]| && col > 0 ==> threads == []
    {
      SpawnKeepsProgress(a, b, Cells(result), threads, row, col);
      threads := threads + [(row, col)];
      if |threads| == taskCores || (row == |a| - 1 && col == |b[0]| - 1) {
        JoinAll(a, b, result, threads, row, col + 1);
        threads := [];
      }
    }
    RowEndKeepsProgress(a, b, Cells(result), threads, row);
  }

  /** The product handler, each batch run to its end where the handler joins it. No answer is
      sent when the dimensions do not match. */
  method MatrixMultiplicationHandler(a: seq<Row>, b: seq<Row>, taskCores: nat) returns (answer: Option<seq<Row>>)
    requires |a| > 0 && (|a[0]| == |b| ==> Multiplicable(a, b))
    ensures answer.None? <==> |a[0]| != |b|
    ensures answer.Some? ==>
              && |answer.value| == |a| && Rectangular(answer.value, |b[0]|)
              && forall r, c :: 0 <= r < |a| && 0 <= c < |b[0]| ==> answer.value[r][c] == Entry(a, b, r, c)
  {
    if |a[0]| != |b| {
      return None;
    }
    var rowsA, colsB := |a|, |b[0]|;
    var result := new int[rowsA, colsB]((r, c) => 0);
    var threads: seq<(nat, nat)> := [];
    for row := 0 to rowsA
      invariant Progress(a, b, Cells(result), threads, row, 0)
      invariant taskCores > 0 ==> |threads| < taskCores
      invariant row == rowsA && colsB > 0 ==> threads == []
    {
      threads := MultiplyRow(a, b, result, threads, row, taskCores);
    }
    var rows := ToRows(result);
    return Some(rows);
  }

  method ToRows(result: array2<int>) returns (rows: seq<Row>)
    ensures rows == Cells(result)
  {
    rows := [];
    for row := 0 to result.Length0
      invariant rows == Cells(result)[..row]
    {
      rows := rows + [seq(result.Length1, c requires 0 <= c < result.Length1 reads result => result[row, c])];
    }
  }

  // ----- the same cells under any schedule

  /** Job c is cell (c / cols, c % cols): the loops' order of spawning. */
  ghost function ProductJobs(a: seq<Row>, b: seq<Row>): Jobs
    requires Multiplicable(a, b)
  {
    var cols := |b[0]|;
    Jobs(|a| * cols, |b|, (c: nat, k: nat, v: int) =>
      if cols > 0 && c / cols < |a| && k < |b| then v + a[c / cols][k] * b[k][c % cols] else v)
  }

  ghost function Index(r: nat, c: nat, cols: nat): nat {
    r * cols + c
  }

  lemma DivisionUnique(x: int, d: nat, q: int, rem: nat)
    requires x == q * d + rem && rem < d
    ensures x / d == q && x % d == rem
  {
    var e := q - x / d;
    assert e * d == x % d - rem;
    NonzeroMultiple(e, d);
  }

  lemma NonzeroMultiple(e: int, d: nat)
    ensures e >= 1 ==> e * d >= d
    ensures e <= -1 ==> e * d <= 0 - d
  {
    if e >= 1 {
      assert (e - 1) * d >= 0;
    } else if e <= -1 {
      assert (-1 - e) * d >= 0;
    }
  }

  /** Row and column are recovered from the index: no two cells share a job. */
  lemma CellIndex(rows: nat, cols: nat, r: nat, c: nat)
    requires r < rows && c < cols
    ensures Index(r, c, cols) < rows * cols
    ensures Index(r, c, cols) / cols == r && Index(r, c, cols) % cols == c
  {
    DivisionUnique(Index(r, c, cols), cols, r, c);
    Multiples(r + 1, rows, cols);
  }

  lemma Multiples(a: nat, b: nat, n: nat)
    requires 0 < a <= b
    ensures (a - 1) * n + n == a * n <= b * n
  {
    var d := b - a;
    assert d * n >= 0;
    assert b * n == a * n + d * n;
  }

  lemma {:induction false} JobIsDot(a: seq<Row>, b: seq<Row>, r: nat, c: nat, k: nat)
    requires Multiplicable(a, b) && r < |a| && c < |b[0]| && k <= |b|
    ensures Alone(ProductJobs(a, b), Index(r, c, |b[0]|), k) == Dot(a, b, r, c, k)
  {
    CellIndex(|a|, |b[0]|, r, c);
    if k > 0 {
      JobIsDot(a, b, r, c, k - 1);
    }
  }

  /** Whatever the interleaving, the handler reads the matrix product. */
  lemma EveryScheduleMultiplies(a: seq<Row>, b: seq<Row>, cores: nat, run: seq<State>)
    requires Multiplicable(a, b) && Run(ProductJobs(a, b), cores, run)
    requires Finished(ProductJobs(a, b), run[|run| - 1])
    ensures var s := run[|run| - 1];
            && s.live == [] && |s.cell| == |a| * |b[0]|
            && forall r: nat, c: nat :: r < |a| && c < |b[0]| ==>
                 Index(r, c, |b[0]|) < |s.cell| && s.cell[Index(r, c, |b[0]|)] == Entry(a, b, r, c)
  {
    var jobs, s := ProductJobs(a, b), run[|run| - 1];
    EverySchedule(jobs, cores, run);
    forall r: nat, c: nat | r < |a| && c < |b[0]|
      ensures Index(r, c, |b[0]|) < |s.cell| && s.cell[Index(r, c, |b[0]|)] == Entry(a, b, r, c)
    {
      CellIndex(|a|, |b[0]|, r, c);
      JobIsDot(a, b, r, c, |b|);
    }
  }

  // ----- determinants

  ghost predicate AllSquareEnough(matrices: seq<seq<Row>>) {
    forall i :: 0 <= i < |matrices| ==> Covers(matrices[i], |matrices[i]|)
  }

  ghost function DetOf(matrix: seq<Row>): int
    requires Covers(matrix, |matrix|)
  {
    Det(Block(matrix, |matrix|))
  }

  /** The determinant handler: results[i] is written by the thread of matrix i alone. */
  method DeterminantHandler(matrices: seq<seq<Row>>, taskCores: nat) returns (results: array<int>)
    requires AllSquareEnough(matrices)
    ensures fresh(results) && results.Length == |matrices|
    ensures forall i :: 0 <= i < |matrices| ==> results[i] == DetOf(matrices[i])
  {
    results := new int[|matrices|](i => 0);
    var threads: seq<nat> := [];
    for i := 0 to |matrices|
      invariant |threads| <= i && (i == |matrices| ==> threads == [])
      invariant taskCores > 0 ==> |threads| < taskCores
      invariant forall t :: 0 <= t < |threads| ==> threads[t] == i - |threads| + t
      invariant forall k :: 0 <= k < i - |threads| ==> results[k] == DetOf(matrices[k])
    {
      threads := threads + [i];
      if |threads| == taskCores || i == |matrices| - 1 {
        for t := 0 to |threads|
          invariant forall k :: 0 <= k < i + 1 - |threads| + t ==> results[k] == DetOf(matrices[k])
        {
          results[threads[t]] := Determinant(matrices[threads[t]], |matrices[threads[t]]|);
        }
        threads := [];
      }
    }
  }

  ghost function DeterminantJobs(matrices: seq<seq<Row>>): Jobs
    requires AllSquareEnough(matrices)
  {
    Jobs(|matrices|, 1, (c: nat, k: nat, v: int) => if c < |matrices| then DetOf(matrices[c]) else v)
  }

  /** Whatever the interleaving, the handler reads the determinants in the order asked. */
  lemma EveryScheduleFindsDeterminants(matrices: seq<seq<Row>>, cores: nat, run: seq<State>)
    requires AllSquareEnough(matrices) && Run(DeterminantJobs(matrices), cores, run)
    requires Finished(DeterminantJobs(matrices), run[|run| - 1])
    ensures var s := run[|run| - 1];
            && s.live == [] && |s.cell| == |matrices|
            && forall i :: 0 <= i < |matrices| ==> s.cell[i] == DetOf(matrices[i])
  {
    var jobs, s := DeterminantJobs(matrices), run[|run| - 1];
    EverySchedule(jobs, cores, run);
    forall i | 0 <= i < |matrices| ensures s.cell[i] == DetOf(matrices[i]) {
      assert Alone(jobs, i, 1) == jobs.update(i, 0, Alone(jobs, i, 0));
    }
  }
}
