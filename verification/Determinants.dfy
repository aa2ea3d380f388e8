/** The mathematical determinant of a square integer matrix, by cofactor expansion along the
    first column, and the laws of it that an elimination relies on. Nothing here comes from the
    worker's code: it is the independent definition the code is measured against. */
module Determinants {

  type Row = seq<int>
  type Matrix = seq<Row>

  ghost predicate Square(m: Matrix) {
    forall r :: 0 <= r < |m| ==> |m[r]| == |m|
  }

  /** The matrix without row r and without the first column. */
  ghost function Minor(m: Matrix, r: nat): (minor: Matrix)
    requires Square(m) && r < |m|
    ensures |minor| == |m| - 1 && Square(minor)
  {
    seq(|m| - 1, t requires 0 <= t < |m| - 1 => if t < r then m[t][1..] else m[t + 1][1..])
  }

  ghost function Det(m: Matrix): int
    requires Square(m)
    decreases |m|, |m| + 1
  {
    if m == [] then 1 else CofactorSum(m, |m|)
  }

  /** The first k terms of the expansion of m along its first column. */
  ghost function CofactorSum(m: Matrix, k: nat): int
    requires Square(m) && k <= |m|
    decreases |m|, k
  {
    if k == 0 then 0 else CofactorSum(m, k - 1) + TermAt(m, k - 1)
  }

  /** The term of row t. */
  ghost function TermAt(m: Matrix, t: nat): int
    requires Square(m) && t < |m|
    decreases |m|, 0
  {
    Term(t, m[t][0], Det(Minor(m, t)))
  }

  /** The row a term belongs to gives the sign. */
  ghost function Term(r: nat, c: int, d: int): int {
    if r % 2 == 0 then c * d else -(c * d)
  }

  // ----- exchanging rows

  ghost function Swap(m: Matrix, i: nat, j: nat): (m': Matrix)
    requires i < |m| && j < |m|
    ensures |m'| == |m|
    ensures Square(m) ==> Square(m')
  {
    m[i := m[j]][j := m[i]]
  }

  lemma {:induction false} SwapAdjacent(m: Matrix, r: nat)
    requires Square(m) && r + 1 < |m|
    ensures Det(Swap(m, r, r + 1)) == -Det(m)
    decreases |m|, |m| + 3
  {
    SwapAdjacentSum(m, r, |m|);
  }

  lemma {:induction false} SwapAdjacentSum(m: Matrix, r: nat, k: nat)
    requires Square(m) && r + 1 < |m|
    requires k <= |m| && k != r + 1
    ensures CofactorSum(Swap(m, r, r + 1), k) == -CofactorSum(m, k)
    decreases |m|, k + 2
  {
    if k == 0 {
    } else if k == r + 2 {
      SwapAdjacentSum(m, r, r);
      SwapAdjacentPair(m, r);
      TwoTerms(m, r);
      TwoTerms(Swap(m, r, r + 1), r);
    } else {
      SwapAdjacentSum(m, r, k - 1);
      SwapAdjacentTerm(m, r, k - 1);
    }
  }

  /** The two terms of the exchanged rows change places, each under the other's sign. */
  lemma SwapAdjacentPair(m: Matrix, r: nat)
    requires Square(m) && r + 1 < |m|
    ensures TermAt(Swap(m, r, r + 1), r) == -TermAt(m, r + 1)
    ensures TermAt(Swap(m, r, r + 1), r + 1) == -TermAt(m, r)
  {
    SwapAdjacentMinors(m, r);
  }

  lemma TwoTerms(m: Matrix, r: nat)
    requires Square(m) && r + 1 < |m|
    ensures CofactorSum(m, r + 2) == CofactorSum(m, r) + TermAt(m, r) + TermAt(m, r + 1)
  {
    assert CofactorSum(m, r + 1) == CofactorSum(m, r) + TermAt(m, r);
  }

  lemma SwapAdjacentMinors(m: Matrix, r: nat)
    requires Square(m) && r + 1 < |m|
    ensures Minor(Swap(m, r, r + 1), r) == Minor(m, r + 1)
    ensures Minor(Swap(m, r, r + 1), r + 1) == Minor(m, r)
  {
  }

  lemma {:induction false} SwapAdjacentTerm(m: Matrix, r: nat, t: nat)
    requires Square(m) && r + 1 < |m| && t < |m| && t != r && t != r + 1
    ensures TermAt(Swap(m, r, r + 1), t) == -TermAt(m, t)
    decreases |m|, 1
  {
    SwapAdjacentMinor(m, r, t);
    TermNegates(t, m[t][0], Det(Minor(m, t)));
  }

  lemma {:induction false} SwapAdjacentMinor(m: Matrix, r: nat, t: nat)
    requires Square(m) && r + 1 < |m| && t < |m| && t != r && t != r + 1
    ensures Det(Minor(Swap(m, r, r + 1), t)) == -Det(Minor(m, t))
    decreases |m|, 0
  {
    var a := Minor(m, t);
    var r' := if t < r then r - 1 else r;
    assert Minor(Swap(m, r, r + 1), t) == Swap(a, r', r' + 1);
    SwapAdjacent(a, r');
  }

  lemma TermNegates(t: nat, c: int, d: int)
    ensures Term(t, c, -d) == -Term(t, c, d)
  {
    assert c * (-d) == -(c * d);
  }

  /** Exchanging any two different rows changes the sign. */
  lemma {:induction false} SwapNegates(m: Matrix, i: nat, j: nat)
    requires Square(m) && i < j < |m|
    ensures Det(Swap(m, i, j)) == -Det(m)
    decreases j - i
  {
    if j == i + 1 {
      SwapAdjacent(m, i);
    } else {
      var a := Swap(m, j - 1, j);
      var b := Swap(a, i, j - 1);
      SwapAdjacent(m, j - 1);
      SwapNegates(a, i, j - 1);
      SwapAdjacent(b, j - 1);
      assert Swap(b, j - 1, j) == Swap(m, i, j);
    }
  }

  /** Two equal rows make the determinant zero. */
  lemma EqualRows(m: Matrix, i: nat, j: nat)
    requires Square(m) && i < |m| && j < |m| && i != j && m[i] == m[j]
    ensures Det(m) == 0
  {
    var lo, hi := if i < j then i else j, if i < j then j else i;
    SwapNegates(m, lo, hi);
    assert Swap(m, lo, hi) == m;
  }

  // ----- adding a multiple of one row to another

  /** The row a + q * b. */
  ghost function Combine(a: Row, q: int, b: Row): (c: Row)
    requires |a| == |b|
    ensures |c| == |a|
  {
    seq(|a|, k requires 0 <= k < |a| => a[k] + q * b[k])
  }

  /** The determinant is linear in each row. */
  lemma {:induction false} RowLinear(m: Matrix, i: nat, a: Row, q: int, b: Row)
    requires Square(m) && i < |m| && |a| == |b| == |m|
    ensures Det(m[i := Combine(a, q, b)]) == Det(m[i := a]) + q * Det(m[i := b])
    decreases |m|, |m| + 3
  {
    RowLinearSum(m, i, a, q, b, |m|);
  }

  lemma {:induction false} RowLinearSum(m: Matrix, i: nat, a: Row, q: int, b: Row, k: nat)
    requires Square(m) && i < |m| && |a| == |b| == |m| && k <= |m|
    ensures CofactorSum(m[i := Combine(a, q, b)], k)
         == CofactorSum(m[i := a], k) + q * CofactorSum(m[i := b], k)
    decreases |m|, k + 2
  {
    if k > 0 {
      RowLinearSum(m, i, a, q, b, k - 1);
      if k - 1 == i {
        RowLinearOwnTerm(m, i, a, q, b);
      } else {
        RowLinearTerm(m, i, a, q, b, k - 1);
      }
      Distribute(q, CofactorSum(m[i := b], k - 1), TermAt(m[i := b], k - 1));
    }
  }

  lemma Distribute(q: int, x: int, y: int)
    ensures q * (x + y) == q * x + q * y
  {
  }

  lemma MinorOfUpdate(m: Matrix, i: nat, row: Row, t: nat)
    requires Square(m) && i < |m| && |row| == |m| && t < |m|
    ensures Minor(m[i := row], t)
         == if t == i then Minor(m, t) else Minor(m, t)[if i < t then i else i - 1 := row[1..]]
  {
  }

  lemma RowLinearOwnTerm(m: Matrix, i: nat, a: Row, q: int, b: Row)
    requires Square(m) && i < |m| && |a| == |b| == |m|
    ensures TermAt(m[i := Combine(a, q, b)], i) == TermAt(m[i := a], i) + q * TermAt(m[i := b], i)
  {
    MinorOfUpdate(m, i, Combine(a, q, b), i);
    MinorOfUpdate(m, i, a, i);
    MinorOfUpdate(m, i, b, i);
    CoefficientLinear(i, a[0], q, b[0], Det(Minor(m, i)));
  }

  lemma {:induction false} RowLinearTerm(m: Matrix, i: nat, a: Row, q: int, b: Row, t: nat)
    requires Square(m) && i < |m| && |a| == |b| == |m| && t < |m| && t != i
    ensures TermAt(m[i := Combine(a, q, b)], t) == TermAt(m[i := a], t) + q * TermAt(m[i := b], t)
    decreases |m|, 1
  {
    RowLinearMinor(m, i, a, q, b, t);
    TermLinear(t, m[t][0], Det(Minor(m[i := a], t)), q, Det(Minor(m[i := b], t)));
  }

  lemma {:induction false} RowLinearMinor(m: Matrix, i: nat, a: Row, q: int, b: Row, t: nat)
    requires Square(m) && i < |m| && |a| == |b| == |m| && t < |m| && t != i
    ensures Det(Minor(m[i := Combine(a, q, b)], t)) == Det(Minor(m[i := a], t)) + q * Det(Minor(m[i := b], t))
    decreases |m|, 0
  {
    var i' := if i < t then i else i - 1;
    assert Combine(a, q, b)[1..] == Combine(a[1..], q, b[1..]);
    MinorOfUpdate(m, i, Combine(a, q, b), t);
    MinorOfUpdate(m, i, a, t);
    MinorOfUpdate(m, i, b, t);
    RowLinear(Minor(m, t), i', a[1..], q, b[1..]);
  }

  lemma CoefficientLinear(t: nat, x: int, q: int, y: int, d: int)
    ensures Term(t, x + q * y, d) == Term(t, x, d) + q * Term(t, y, d)
  {
    assert (x + q * y) * d == x * d + (q * y) * d;
    assert (q * y) * d == q * (y * d);
    assert q * (-(y * d)) == -(q * (y * d));
  }

  lemma TermLinear(t: nat, c: int, x: int, q: int, y: int)
    ensures Term(t, c, x + q * y) == Term(t, c, x) + q * Term(t, c, y)
  {
    assert c * (x + q * y) == c * x + c * (q * y);
    assert c * (q * y) == q * (c * y);
    assert q * (-(c * y)) == -(q * (c * y));
  }

  /** Adding a multiple of another row leaves the determinant alone. */
  lemma AddRowMultiple(m: Matrix, i: nat, q: int, j: nat)
    requires Square(m) && i < |m| && j < |m| && i != j
    ensures Square(m[i := Combine(m[i], q, m[j])])
    ensures Det(m[i := Combine(m[i], q, m[j])]) == Det(m)
  {
    RowLinear(m, i, m[i], q, m[j]);
    assert m[i := m[i]] == m;
    EqualRows(m[i := m[j]], i, j);
  }

  // ----- triangular matrices

  ghost predicate UpperTriangular(m: Matrix)
    requires Square(m)
  {
    forall r, c :: 0 <= c < r < |m| ==> m[r][c] == 0
  }

  /** The product of the first k diagonal entries. */
  ghost function DiagonalProduct(m: Matrix, k: nat): int
    requires Square(m) && k <= |m|
  {
    if k == 0 then 1 else DiagonalProduct(m, k - 1) * m[k - 1][k - 1]
  }

  lemma {:induction false} DiagonalOfMinor(m: Matrix, k: nat)
    requires Square(m) && 0 < k <= |m|
    ensures DiagonalProduct(m, k) == m[0][0] * DiagonalProduct(Minor(m, 0), k - 1)
  {
    if k > 1 {
      DiagonalOfMinor(m, k - 1);
      var d := DiagonalProduct(Minor(m, 0), k - 2);
      assert (m[0][0] * d) * m[k - 1][k - 1] == m[0][0] * (d * m[k - 1][k - 1]);
    } else {
      assert DiagonalProduct(m, 0) == 1;
      assert DiagonalProduct(m, 1) == m[0][0];
    }
  }

  lemma {:induction false} FirstColumnOnly(m: Matrix, k: nat)
    requires Square(m) && 0 < k <= |m|
    requires forall r :: 0 < r < |m| ==> m[r][0] == 0
    ensures CofactorSum(m, k) == m[0][0] * Det(Minor(m, 0))
  {
    if k == 1 {
      assert CofactorSum(m, 0) == 0;
    } else {
      FirstColumnOnly(m, k - 1);
    }
  }

  /** The determinant of an upper triangular matrix is the product of its diagonal. */
  lemma {:induction false} TriangularProduct(m: Matrix)
    requires Square(m) && UpperTriangular(m)
    ensures Det(m) == DiagonalProduct(m, |m|)
    decreases |m|
  {
    if m != [] {
      FirstColumnOnly(m, |m|);
      TriangularProduct(Minor(m, 0));
      DiagonalOfMinor(m, |m|);
    }
  }
}
