/** The matrix product, and the laws that fix it: linear in each row of the left matrix, a unit row
    picks a row of the right one, and determinants multiply. */
module Products {
  import opened Determinants
  import opened Euclid
  import opened Elimination

  ghost predicate Rectangular(m: seq<Row>, cols: nat) {
    forall r :: 0 <= r < |m| ==> |m[r]| == cols
  }

  ghost predicate AtLeast(m: seq<Row>, cols: nat) {
    forall r :: 0 <= r < |m| ==> |m[r]| >= cols
  }

  /** A product is defined and the code's reads are in range; it looks at the first row of each
      matrix only, and does not mind longer rows after it. */
  ghost predicate Multiplicable(a: seq<Row>, b: seq<Row>) {
    |a| > 0 && |b| > 0 && |a[0]| == |b| && AtLeast(a, |b|) && AtLeast(b, |b[0]|)
  }

  /** The first k products of row `row` of a and column `col` of b, added up. */
  ghost function Dot(a: seq<Row>, b: seq<Row>, row: nat, col: nat, k: nat): int
    requires Multiplicable(a, b) && row < |a| && col < |b[0]| && k <= |b|
  {
    if k == 0 then 0 else Dot(a, b, row, col, k - 1) + a[row][k - 1] * b[k - 1][col]
  }

  ghost function Entry(a: seq<Row>, b: seq<Row>, row: nat, col: nat): int
    requires Multiplicable(a, b) && row < |a| && col < |b[0]|
  {
    Dot(a, b, row, col, |b|)
  }

  // ----- what fixes an entry

  /** A row that is 1 at `pick` and 0 elsewhere. */
  ghost predicate UnitRow(x: Row, n: nat, pick: nat)
    requires n <= |x|
  {
    forall k :: 0 <= k < n ==> x[k] == if k == pick then 1 else 0
  }

  lemma {:induction false} UnitDot(a: seq<Row>, b: seq<Row>, row: nat, pick: nat, col: nat, k: nat)
    requires Multiplicable(a, b) && row < |a| && col < |b[0]| && pick < |b| && k <= |b|
    requires UnitRow(a[row], |b|, pick)
    ensures Dot(a, b, row, col, k) == if pick < k then b[pick][col] else 0
  {
    if k > 0 {
      UnitDot(a, b, row, pick, col, k - 1);
    }
  }

  /** A unit row of a picks its row of b. */
  lemma UnitRowPicks(a: seq<Row>, b: seq<Row>, row: nat, pick: nat, col: nat)
    requires Multiplicable(a, b) && row < |a| && col < |b[0]| && pick < |b|
    requires UnitRow(a[row], |b|, pick)
    ensures Entry(a, b, row, col) == b[pick][col]
  {
    UnitDot(a, b, row, pick, col, |b|);
  }

  lemma UpdateMultiplicable(a: seq<Row>, b: seq<Row>, row: nat, x: Row)
    requires Multiplicable(a, b) && row < |a| && |x| == |a[row]|
    ensures Multiplicable(a[row := x], b)
  {
  }

  lemma {:induction false} DotLinear(c: seq<Row>, ax: seq<Row>, ay: seq<Row>, b: seq<Row>, row: nat, q: int,
                                     col: nat, k: nat)
    requires Multiplicable(c, b) && Multiplicable(ax, b) && Multiplicable(ay, b)
    requires row < |c| == |ax| == |ay| && col < |b[0]| && k <= |b|
    requires forall t :: 0 <= t < |b| ==> c[row][t] == ax[row][t] + q * ay[row][t]
    ensures Dot(c, b, row, col, k) == Dot(ax, b, row, col, k) + q * Dot(ay, b, row, col, k)
  {
    if k > 0 {
      DotLinear(c, ax, ay, b, row, q, col, k - 1);
      SumLinear(Dot(ay, b, row, col, k - 1), ax[row][k - 1], q, ay[row][k - 1], b[k - 1][col]);
    }
  }

  lemma SumLinear(s: int, x: int, q: int, y: int, z: int)
    ensures (x + q * y) * z + q * s == x * z + q * (s + y * z)
  {
    assert (x + q * y) * z == x * z + (q * y) * z;
    assert (q * y) * z == q * (y * z);
    Distribute(q, s, y * z);
  }

  /** An entry is linear in its row of a. */
  lemma EntryLinear(a: seq<Row>, b: seq<Row>, row: nat, x: Row, q: int, y: Row, col: nat)
    requires Multiplicable(a, b) && row < |a| && |x| == |y| == |a[row]| && col < |b[0]|
    ensures Multiplicable(a[row := x], b) && Multiplicable(a[row := y], b)
    ensures Multiplicable(a[row := Combine(x, q, y)], b)
    ensures Entry(a[row := Combine(x, q, y)], b, row, col)
         == Entry(a[row := x], b, row, col) + q * Entry(a[row := y], b, row, col)
  {
    UpdateMultiplicable(a, b, row, x);
    UpdateMultiplicable(a, b, row, y);
    UpdateMultiplicable(a, b, row, Combine(x, q, y));
    DotLinear(a[row := Combine(x, q, y)], a[row := x], a[row := y], b, row, q, col, |b|);
  }

  lemma {:induction false} DotOfRow(a: seq<Row>, a': seq<Row>, b: seq<Row>, row: nat, row': nat, col: nat, k: nat)
    requires Multiplicable(a, b) && Multiplicable(a', b) && row < |a| && row' < |a'| && a[row] == a'[row']
    requires col < |b[0]| && k <= |b|
    ensures Dot(a, b, row, col, k) == Dot(a', b, row', col, k)
  {
    if k > 0 {
      DotOfRow(a, a', b, row, row', col, k - 1);
    }
  }

  // ----- the product of square matrices

  ghost predicate SquarePair(a: Matrix, b: Matrix) {
    Square(a) && Square(b) && |a| == |b| > 0
  }

  ghost function Product(a: Matrix, b: Matrix): (p: Matrix)
    requires SquarePair(a, b)
    ensures |p| == |a| && Square(p)
    ensures forall r, c :: 0 <= r < |a| && 0 <= c < |a| ==> p[r][c] == Entry(a, b, r, c)
  {
    seq(|a|, r requires 0 <= r < |a| => seq(|a|, c requires 0 <= c < |a| => Entry(a, b, r, c)))
  }

  /** Equal rows of the left matrix give equal rows of the product. */
  lemma ProductRow(a: Matrix, a': Matrix, b: Matrix, r: nat, r': nat)
    requires SquarePair(a, b) && SquarePair(a', b) && r < |a| && r' < |a'| && a[r] == a'[r']
    ensures Product(a, b)[r] == Product(a', b)[r']
  {
    forall c | 0 <= c < |a| ensures Entry(a, b, r, c) == Entry(a', b, r', c) {
      DotOfRow(a, a', b, r, r', c, |b|);
    }
  }

  lemma ProductOfSwap(a: Matrix, b: Matrix, i: nat, j: nat)
    requires SquarePair(a, b) && i < j < |a|
    ensures Product(Swap(a, i, j), b) == Swap(Product(a, b), i, j)
  {
    forall r | 0 <= r < |a| ensures Product(Swap(a, i, j), b)[r] == Swap(Product(a, b), i, j)[r] {
      ProductRow(Swap(a, i, j), a, b, r, if r == i then j else if r == j then i else r);
    }
  }

  lemma ProductOfCombine(a: Matrix, b: Matrix, i: nat, q: int, j: nat)
    requires SquarePair(a, b) && i < |a| && j < |a|
    ensures SquarePair(a[i := Combine(a[i], q, a[j])], b)
    ensures Product(a[i := Combine(a[i], q, a[j])], b)
         == Product(a, b)[i := Combine(Product(a, b)[i], q, Product(a, b)[j])]
  {
    var c, p := a[i := Combine(a[i], q, a[j])], Product(a, b);
    forall r | 0 <= r < |a| && r != i ensures Product(c, b)[r] == p[r] {
      ProductRow(c, a, b, r, r);
    }
    CombinedRow(a, b, i, q, j);
  }

  lemma CombinedRow(a: Matrix, b: Matrix, i: nat, q: int, j: nat)
    requires SquarePair(a, b) && i < |a| && j < |a|
    ensures SquarePair(a[i := Combine(a[i], q, a[j])], b)
    ensures Product(a[i := Combine(a[i], q, a[j])], b)[i] == Combine(Product(a, b)[i], q, Product(a, b)[j])
  {
    var c, p := a[i := Combine(a[i], q, a[j])], Product(a, b);
    assert a[i := a[i]] == a;
    ProductRow(a[i := a[j]], a, b, i, j);
    forall k | 0 <= k < |a| ensures Product(c, b)[i][k] == p[i][k] + q * p[j][k] {
      EntryLinear(a, b, i, a[i], q, a[j], k);
      assert Product(a[i := a[j]], b)[i][k] == p[j][k];
    }
  }

  // ----- a triangular left matrix

  ghost function ZeroRow(n: nat): (z: Row)
    ensures |z| == n && forall k :: 0 <= k < n ==> z[k] == 0
  {
    seq(n, k => 0)
  }

  lemma ZeroRowDet(m: Matrix, i: nat)
    requires Square(m) && i < |m|
    ensures Det(m[i := ZeroRow(|m|)]) == 0
  {
    var z := ZeroRow(|m|);
    assert Combine(z, 1, z) == z;
    RowLinear(m, i, z, 1, z);
  }

  /** The first k rows of b, each times its entry of x, added up. */
  ghost function RowSum(x: Row, b: Matrix, k: nat): (s: Row)
    requires Square(b) && |x| == |b| && k <= |b|
    ensures |s| == |b|
  {
    if k == 0 then ZeroRow(|b|) else Combine(RowSum(x, b, k - 1), x[k - 1], b[k - 1])
  }

  lemma {:induction false} RowSumIsDot(a: Matrix, b: Matrix, r: nat, c: nat, k: nat)
    requires SquarePair(a, b) && r < |a| && c < |a| && k <= |a|
    ensures RowSum(a[r], b, k)[c] == Dot(a, b, r, c, k)
  {
    if k > 0 {
      RowSumIsDot(a, b, r, c, k - 1);
    }
  }

  lemma ProductRowIsSum(a: Matrix, b: Matrix, r: nat)
    requires SquarePair(a, b) && r < |a|
    ensures Product(a, b)[r] == RowSum(a[r], b, |b|)
  {
    forall c | 0 <= c < |a| ensures RowSum(a[r], b, |b|)[c] == Entry(a, b, r, c) {
      RowSumIsDot(a, b, r, c, |b|);
    }
  }

  /** Row i of a triangular matrix brings in row i of b and rows below it, which m holds anyway. */
  lemma {:induction false} TriangularRow(m: Matrix, x: Row, b: Matrix, i: nat, k: nat)
    requires Square(m) && Square(b) && |m| == |b| == |x| && i < |m| && k <= |m|
    requires forall c :: 0 <= c < i ==> x[c] == 0
    requires forall r :: i <= r < |m| ==> m[r] == b[r]
    ensures Det(m[i := RowSum(x, b, k)]) == if k <= i then 0 else x[i] * Det(m)
  {
    if k == 0 {
      ZeroRowDet(m, i);
    } else {
      TriangularRow(m, x, b, i, k - 1);
      RowLinear(m, i, RowSum(x, b, k - 1), x[k - 1], b[k - 1]);
      if k - 1 == i {
        assert m[i := b[i]] == m;
      } else if k - 1 > i {
        EqualRows(m[i := b[k - 1]], i, k - 1);
      }
    }
  }

  /** The first i rows of the product over the rest of b. */
  lemma {:induction false} TriangularRows(a: Matrix, b: Matrix, i: nat)
    requires SquarePair(a, b) && UpperTriangular(a) && i <= |a|
    ensures Square(Product(a, b)[..i] + b[i..])
    ensures Det(Product(a, b)[..i] + b[i..]) == DiagonalProduct(a, i) * Det(b)
  {
    var p := Product(a, b);
    if i == 0 {
      assert p[..0] + b[0..] == b;
    } else {
      var m := p[..i - 1] + b[i - 1..];
      TriangularRows(a, b, i - 1);
      ProductRowIsSum(a, b, i - 1);
      TriangularRow(m, a[i - 1], b, i - 1, |b|);
      assert p[..i] + b[i..] == m[i - 1 := p[i - 1]];
      Reassociate(DiagonalProduct(a, i - 1), a[i - 1][i - 1], Det(b));
    }
  }

  lemma Reassociate(x: int, y: int, z: int)
    ensures y * (x * z) == (x * y) * z
  {
    assert (x * y) * z == (y * x) * z;
  }

  // ----- any left matrix

  ghost predicate Multiplies(a: Matrix, b: Matrix)
    requires SquarePair(a, b)
  {
    Det(Product(a, b)) == Det(a) * Det(b)
  }

  lemma TriangularMultiplies(a: Matrix, b: Matrix)
    requires SquarePair(a, b) && UpperTriangular(a)
    ensures Multiplies(a, b)
  {
    TriangularRows(a, b, |a|);
    assert Product(a, b)[..|a|] + b[|a|..] == Product(a, b);
    TriangularProduct(a);
  }

  /** One round of the elimination on the left matrix. */
  ghost function Round(a: Matrix, i: nat, j: nat): (a': Matrix)
    requires Square(a) && i < j < |a| && a[j][i] != 0
    ensures |a'| == |a| && Square(a')
  {
    Swap(a[i := Combine(a[i], -TruncDiv(a[i][i], a[j][i]), a[j])], i, j)
  }

  /** A round negates both determinants. */
  lemma RoundKeepsMultiplies(a: Matrix, b: Matrix, i: nat, j: nat)
    requires SquarePair(a, b) && i < j < |a| && a[j][i] != 0
    requires Multiplies(Round(a, i, j), b)
    ensures Multiplies(a, b)
  {
    var q := -TruncDiv(a[i][i], a[j][i]);
    var c, p := a[i := Combine(a[i], q, a[j])], Product(a, b);
    AddRowMultiple(a, i, q, j);
    SwapNegates(c, i, j);
    ProductOfCombine(a, b, i, q, j);
    AddRowMultiple(p, i, q, j);
    ProductOfSwap(c, b, i, j);
    SwapNegates(Product(c, b), i, j);
    assert (-Det(a)) * Det(b) == -(Det(a) * Det(b));
  }

  lemma RoundKeepsCleared(a: Matrix, i: nat, j: nat)
    requires Square(a) && i < j < |a| && a[j][i] != 0 && Cleared(a, |a|, i)
    ensures Cleared(Round(a, i, j), |a|, i)
    ensures Round(a, i, j)[j][i] == TruncRem(a[i][i], a[j][i])
    ensures forall r :: i < r < j ==> Round(a, i, j)[r] == a[r]
  {
    var d, e := TruncDiv(a[i][i], a[j][i]), a[j][i];
    assert (-d) * e == -(d * e);
  }

  /** The elimination of Elimination.Determinant, on the left matrix, down to a triangular one. */
  lemma {:induction false} EliminateLeft(a: Matrix, b: Matrix, i: nat, j: nat)
    requires SquarePair(a, b) && i < j && Cleared(a, |a|, i)
    requires forall r :: i < r < j && r < |a| ==> a[r][i] == 0
    ensures Multiplies(a, b)
    decreases |a| - i, |a| - j, if i < j < |a| then Abs(a[j][i]) else 0
  {
    if i >= |a| {
      TriangularMultiplies(a, b);
    } else if j >= |a| {
      EliminateLeft(a, b, i + 1, i + 2);
    } else if a[j][i] == 0 {
      EliminateLeft(a, b, i, j + 1);
    } else {
      RoundKeepsCleared(a, i, j);
      RemainderShrinks(a[i][i], a[j][i]);
      EliminateLeft(Round(a, i, j), b, i, j);
      RoundKeepsMultiplies(a, b, i, j);
    }
  }

  /** The determinant of a product is the product of the determinants. */
  lemma ProductOfDeterminants(a: Matrix, b: Matrix)
    requires SquarePair(a, b)
    ensures Det(Product(a, b)) == Det(a) * Det(b)
  {
    EliminateLeft(a, b, 0, 1);
  }
}
