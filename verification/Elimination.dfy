/** The worker's determinant: elimination by Euclid's algorithm on pairs of rows, in place. */
module Elimination {
  import opened Determinants
  import opened Euclid

  /** At least n rows of at least n entries: what the elimination reads and writes. */
  ghost predicate Covers(rows: seq<Row>, n: nat) {
    n <= |rows| && forall r :: 0 <= r < n ==> |rows[r]| >= n
  }

  /** The leading n by n block. */
  ghost function Block(rows: seq<Row>, n: nat): (m: Matrix)
    requires Covers(rows, n)
    ensures |m| == n && Square(m)
    ensures forall r, c :: 0 <= r < n && 0 <= c < n ==> m[r][c] == rows[r][c]
  {
    seq(n, r requires 0 <= r < n => rows[r][..n])
  }

  /** The first i columns are zero below the diagonal. */
  ghost predicate Cleared(rows: seq<Row>, n: nat, i: nat)
    requires Covers(rows, n)
  {
    forall r, c :: 0 <= c < i && c < r < n ==> rows[r][c] == 0
  }

  ghost predicate SameRowsExcept(a: seq<Row>, b: seq<Row>, i: nat, j: nat) {
    |a| == |b| && forall r :: 0 <= r < |a| && r != i && r != j ==> a[r] == b[r]
  }

  /** The running factor and the determinant have both kept their value or both changed sign. */
  ghost predicate SignsAgree(det0: int, d0: int, det: int, d: int) {
    (det == det0 && d == d0) || (det == -det0 && d == -d0)
  }

  ghost predicate CommonDivisor(d: int, xs: seq<int>) {
    forall k :: 0 <= k < |xs| ==> Divides(d, xs[k])
  }

  /** g is a greatest common divisor of xs, of either sign; 0 when all of xs is 0. */
  ghost predicate IsGcd(g: int, xs: seq<int>) {
    CommonDivisor(g, xs) && forall d :: CommonDivisor(d, xs) ==> Divides(d, g)
  }

  ghost predicate SameDivisors(g: int, xs: seq<int>) {
    forall d :: CommonDivisor(d, xs) <==> Divides(d, g)
  }

  /** Entries i..j-1 of column i. */
  ghost function ColumnBelow(rows: seq<Row>, n: nat, i: nat, j: nat): (xs: seq<int>)
    requires Covers(rows, n) && i <= j <= n && i < n
    ensures |xs| == j - i
  {
    seq(j - i, k requires 0 <= k < j - i => rows[i + k][i])
  }

  /** `matrix[i][k] -= ratio * matrix[j][k]` for k from i on. */
  method SubtractRow(m: array<Row>, n: nat, i: nat, j: nat, ratio: int)
    requires i < j < n && Covers(m[..], n) && Cleared(m[..], n, i)
    modifies m
    ensures Covers(m[..], n) && SameRowsExcept(m[..], old(m[..]), i, i)
    ensures Block(m[..], n)
         == Block(old(m[..]), n)[i := Combine(Block(old(m[..]), n)[i], -ratio, Block(old(m[..]), n)[j])]
    ensures Cleared(m[..], n, i)
    ensures m[i][i] == old(m[i][i]) - ratio * m[j][i]
  {
    for k := i to n
      invariant Covers(m[..], n) && |m[i]| == |old(m[i])|
      invariant forall r :: 0 <= r < m.Length && r != i ==> m[r] == old(m[r])
      invariant forall c :: 0 <= c < n ==>
                  m[i][c] == if i <= c < k then old(m[i][c]) - ratio * m[j][c] else old(m[i][c])
    {
      m[i] := m[i][k := m[i][k] - ratio * m[j][k]];
    }
    ghost var was := Block(old(m[..]), n);
    forall c | 0 <= c < n
      ensures m[i][c] == was[i][c] + (-ratio) * was[j][c]
    {
      assert (-ratio) * was[j][c] == -(ratio * was[j][c]);
      if c < i {
        assert was[i][c] == 0 && was[j][c] == 0;
      }
    }
    assert Block(m[..], n)[i] == Combine(was[i], -ratio, was[j]);
    assert forall r :: 0 <= r < n && r != i ==> Block(m[..], n)[r] == was[r];
  }

  /** One round of Euclid's algorithm on rows i and j: subtract, then exchange the rows. */
  method EuclidRound(m: array<Row>, n: nat, i: nat, j: nat)
    requires i < j < n && Covers(m[..], n) && Cleared(m[..], n, i)
    requires m[j][i] != 0
    modifies m
    ensures Covers(m[..], n) && SameRowsExcept(m[..], old(m[..]), i, j)
    ensures Cleared(m[..], n, i)
    ensures Det(Block(m[..], n)) == -Det(Block(old(m[..]), n))
    ensures m[i][i] == old(m[j][i]) && m[j][i] == TruncRem(old(m[i][i]), old(m[j][i]))
  {
    ghost var before := Block(m[..], n);
    var ratio := TruncDiv(m[i][i], m[j][i]);
    SubtractRow(m, n, i, j, ratio);
    AddRowMultiple(before, i, -ratio, j);
    ghost var middle := Block(m[..], n);
    m[i], m[j] := m[j], m[i];
    assert Block(m[..], n) == Swap(middle, i, j);
    SwapNegates(middle, i, j);
  }

  /** Runs Euclid's algorithm on rows i and j until entry (j, i) is zero. */
  method ClearEntry(m: array<Row>, n: nat, i: nat, j: nat, det0: int) returns (det: int, ghost rounds: nat)
    requires i < j < n && Covers(m[..], n) && Cleared(m[..], n, i)
    modifies m
    ensures Covers(m[..], n) && SameRowsExcept(m[..], old(m[..]), i, j)
    ensures Cleared(m[..], n, i) && m[j][i] == 0
    ensures SignsAgree(det0, Det(Block(old(m[..]), n)), det, Det(Block(m[..], n)))
    ensures forall d :: Divides(d, old(m[i][i])) && Divides(d, old(m[j][i])) <==> Divides(d, m[i][i])
    ensures rounds == Steps(old(m[i][i]), old(m[j][i]))
    ensures old(m[j][i]) != 0 ==> rounds <= 2 * FloorLog2(Abs(old(m[j][i]))) + 2
  {
    det, rounds := det0, 0;
    while m[j][i] != 0
      invariant Covers(m[..], n) && SameRowsExcept(m[..], old(m[..]), i, j)
      invariant Cleared(m[..], n, i)
      invariant SignsAgree(det0, Det(Block(old(m[..]), n)), det, Det(Block(m[..], n)))
      invariant forall d :: Divides(d, old(m[i][i])) && Divides(d, old(m[j][i]))
                       <==> Divides(d, m[i][i]) && Divides(d, m[j][i])
      invariant rounds + Steps(m[i][i], m[j][i]) == Steps(old(m[i][i]), old(m[j][i]))
      decreases Abs(m[j][i])
    {
      ghost var a, b := m[i][i], m[j][i];
      EuclidRound(m, n, i, j);
      det := det * -1;
      RemainderShrinks(a, b);
      forall d ensures Divides(d, a) && Divides(d, b) <==> Divides(d, b) && Divides(d, TruncRem(a, b)) {
        StepKeepsDivisors(d, a, b);
      }
      rounds := rounds + 1;
    }
    forall d ensures Divides(d, m[j][i]) { DividesZero(d); }
    if old(m[j][i]) != 0 {
      StepsLogarithmic(old(m[i][i]), old(m[j][i]));
    }
  }

  /** Stage i has cleared column i down to row j of what the matrix was, and the pivot has the
      common divisors of the entries so far. */
  ghost predicate StageAt(was: seq<Row>, rows: seq<Row>, n: nat, i: nat, j: nat) {
    && Covers(was, n) && Covers(rows, n) && i < j <= n && |rows| == |was|
    && Cleared(rows, n, i)
    && (forall r :: 0 <= r < i || j <= r < n ==> rows[r] == was[r])
    && (forall r :: i < r < j ==> rows[r][i] == 0)
    && SameDivisors(rows[i][i], ColumnBelow(was, n, i, j))
  }

  method ClearNext(m: array<Row>, n: nat, i: nat, j: nat, det0: int, ghost was: seq<Row>) returns (det: int)
    requires j < n && StageAt(was, m[..], n, i, j)
    modifies m
    ensures StageAt(was, m[..], n, i, j + 1)
    ensures SignsAgree(det0, Det(Block(old(m[..]), n)), det, Det(Block(m[..], n)))
  {
    ghost var pivot := m[i][i];
    ghost var rounds;
    det, rounds := ClearEntry(m, n, i, j, det0);
    ColumnExtends(was, n, i, j);
    DivisorsExtend(pivot, ColumnBelow(was, n, i, j), was[j][i], m[i][i]);
  }

  /** Stage i of the elimination: every entry of column i below the diagonal becomes zero. */
  method ClearColumn(m: array<Row>, n: nat, i: nat, det0: int) returns (det: int)
    requires i < n && Covers(m[..], n) && Cleared(m[..], n, i)
    modifies m
    ensures Covers(m[..], n) && Cleared(m[..], n, i + 1)
    ensures forall r :: 0 <= r < i ==> m[r] == old(m[r])
    ensures SignsAgree(det0, Det(Block(old(m[..]), n)), det, Det(Block(m[..], n)))
    ensures IsGcd(m[i][i], ColumnBelow(old(m[..]), n, i, n))
  {
    ghost var was := m[..];
    det := det0;
    FirstOfColumn(was, n, i);
    for j := i + 1 to n
      invariant StageAt(was, m[..], n, i, j)
      invariant SignsAgree(det0, Det(Block(was, n)), det, Det(Block(m[..], n)))
    {
      det := ClearNext(m, n, i, j, det, was);
    }
    SameDivisorsIsGcd(m[i][i], ColumnBelow(was, n, i, n));
  }

  lemma FirstOfColumn(rows: seq<Row>, n: nat, i: nat)
    requires Covers(rows, n) && i < n
    ensures SameDivisors(rows[i][i], ColumnBelow(rows, n, i, i + 1))
  {
    var x := rows[i][i];
    assert ColumnBelow(rows, n, i, i + 1) == [x];
    forall d ensures CommonDivisor(d, [x]) <==> Divides(d, x) {
      if CommonDivisor(d, [x]) { assert Divides(d, [x][0]); }
    }
  }

  lemma ColumnExtends(rows: seq<Row>, n: nat, i: nat, j: nat)
    requires Covers(rows, n) && i < j < n
    ensures ColumnBelow(rows, n, i, j + 1) == ColumnBelow(rows, n, i, j) + [rows[j][i]]
  {
  }

  lemma DivisorsExtend(g: int, xs: seq<int>, x: int, g': int)
    requires SameDivisors(g, xs)
    requires forall d :: Divides(d, g) && Divides(d, x) <==> Divides(d, g')
    ensures SameDivisors(g', xs + [x])
  {
    forall d ensures CommonDivisor(d, xs + [x]) <==> Divides(d, g') {
      if CommonDivisor(d, xs + [x]) {
        forall k | 0 <= k < |xs| ensures Divides(d, xs[k]) { assert (xs + [x])[k] == xs[k]; }
        assert (xs + [x])[|xs|] == x;
      }
    }
  }

  lemma SameDivisorsIsGcd(g: int, xs: seq<int>)
    requires SameDivisors(g, xs)
    ensures IsGcd(g, xs)
  {
    assert g == g * 1;
    assert Divides(g, g);
  }

  /** The worker's `determinant`: its argument is a copy, so the caller's matrix is not touched. */
  method Determinant(matrix: seq<Row>, n: nat) returns (det: int)
    requires Covers(matrix, n)
    ensures det == Det(Block(matrix, n))
  {
    var m := new Row[|matrix|](r requires 0 <= r < |matrix| => matrix[r]);
    assert m[..] == matrix;
    ghost var original := Det(Block(matrix, n));
    det := 1;
    for i := 0 to n
      invariant Covers(m[..], n) && Cleared(m[..], n, i)
      invariant SignsAgree(DiagonalProduct(Block(m[..], n), i), original, det, Det(Block(m[..], n)))
    {
      ghost var before, det0 := Block(m[..], n), det;
      det := ClearColumn(m, n, i, det);
      StageKeepsFactor(original, before, Block(m[..], n), i, det0, det);
      det := det * m[i][i];
    }
    TriangularProduct(Block(m[..], n));
  }

  /** One stage, and the pivot it multiplies in, keep `det` equal to the product of the finished
      pivots, negated exactly when the matrix has changed sign. */
  lemma StageKeepsFactor(original: int, before: Matrix, after: Matrix, i: nat, det0: int, det: int)
    requires Square(before) && Square(after) && |before| == |after| && i < |after|
    requires forall r :: 0 <= r < i ==> before[r] == after[r]
    requires SignsAgree(DiagonalProduct(before, i), original, det0, Det(before))
    requires SignsAgree(det0, Det(before), det, Det(after))
    ensures SignsAgree(DiagonalProduct(after, i + 1), original, det * after[i][i], Det(after))
  {
    SameDiagonal(before, after, i);
    var p := DiagonalProduct(after, i);
    assert (-p) * after[i][i] == -(p * after[i][i]);
  }

  lemma {:induction false} SameDiagonal(a: Matrix, b: Matrix, k: nat)
    requires Square(a) && Square(b) && |a| == |b| && k <= |a|
    requires forall r :: 0 <= r < k ==> a[r] == b[r]
    ensures DiagonalProduct(a, k) == DiagonalProduct(b, k)
  {
    if k > 0 {
      SameDiagonal(a, b, k - 1);
    }
  }
}
