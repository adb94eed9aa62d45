/** Exact complex arithmetic and finite sums: the reference algebra against which
    the emitted butterflies, twiddles and transposes are judged. */
module Complexes {

  datatype Complex = Complex(re: real, im: real)

  const ZERO := Complex(0.0, 0.0)
  const ONE := Complex(1.0, 0.0)

  function Add(a: Complex, b: Complex): Complex {
    Complex(a.re + b.re, a.im + b.im)
  }

  function Sub(a: Complex, b: Complex): Complex {
    Complex(a.re - b.re, a.im - b.im)
  }

  function Mul(a: Complex, b: Complex): Complex {
    Complex(a.re * b.re - a.im * b.im, a.re * b.im + a.im * b.re)
  }

  function Conj(a: Complex): Complex {
    Complex(a.re, -a.im)
  }

  lemma MulAssoc(a: Complex, b: Complex, c: Complex)
    ensures Mul(Mul(a, b), c) == Mul(a, Mul(b, c))
  {
  }

  lemma MulComm(a: Complex, b: Complex)
    ensures Mul(a, b) == Mul(b, a)
  {
  }

  lemma MulAdd(a: Complex, b: Complex, c: Complex)
    ensures Mul(Add(a, b), c) == Add(Mul(a, c), Mul(b, c))
  {
  }

  // Complex numbers have no zero divisors.
  lemma NoZeroDivisors(u: Complex, v: Complex)
    requires Mul(u, v) == ZERO && u != ZERO
    ensures v == ZERO
  {
    if u.re != 0.0 {
      CancelNorm(u.re, u.im, v.re, v.im);
    } else {
      CancelNorm(u.im, -u.re, v.re, v.im);
    }
  }

  lemma CancelNorm(a: real, b: real, x: real, y: real)
    requires a != 0.0
    requires a * x - b * y == 0.0 && a * y + b * x == 0.0
    ensures x == 0.0 && y == 0.0
  {
    var t := b / a;
    assert b == t * a;
    Divide(a, x, t * y);
    Divide(a, y, -(t * x));
    OnlyZero(t, x, y);
  }

  lemma Divide(a: real, x: real, y: real)
    requires a != 0.0 && a * x == a * y
    ensures x == y
  {
  }

  lemma OnlyZero(t: real, x: real, y: real)
    requires x == t * y && y == -(t * x)
    ensures x == 0.0 && y == 0.0
  {
    assert x * x == t * y * x == -(y * y);
  }

  /** f(0) + ... + f(n-1) */
  function Sum(f: int -> Complex, n: nat): Complex {
    if n == 0 then ZERO else Add(Sum(f, n - 1), f(n - 1))
  }

  function Shift(f: int -> Complex, s: int): int -> Complex {
    i => f(s + i)
  }

  function Reverse(f: int -> Complex, n: int): int -> Complex {
    i => f(n - 1 - i)
  }

  function Pointwise(f: int -> Complex, g: int -> Complex): int -> Complex {
    i => Add(f(i), g(i))
  }

  lemma {:induction false} SumExt(f: int -> Complex, g: int -> Complex, n: nat)
    requires forall i :: 0 <= i < n ==> f(i) == g(i)
    ensures Sum(f, n) == Sum(g, n)
  {
    if n > 0 {
      SumExt(f, g, n - 1);
    }
  }

  lemma {:induction false} SumScale(f: int -> Complex, c: Complex, n: nat)
    ensures Mul(Sum(f, n), c) == Sum(i => Mul(f(i), c), n)
  {
    if n > 0 {
      SumScale(f, c, n - 1);
      MulAdd(Sum(f, n - 1), f(n - 1), c);
    }
  }

  lemma {:induction false} SumPointwise(f: int -> Complex, g: int -> Complex, n: nat)
    ensures Sum(Pointwise(f, g), n) == Add(Sum(f, n), Sum(g, n))
  {
    if n > 0 {
      SumPointwise(f, g, n - 1);
    }
  }

  // -------- a sum laid out as a grid: row j starts at place row(j)

  /** Row j + 1 starts a places after row j. */
  predicate RowStep(row: int -> int, a: nat, j: int) {
    row(j + 1) == row(j) + a
  }

  /** The a terms from place s on. */
  function RowSum(f: int -> Complex, s: int, a: nat): Complex {
    if a == 0 then ZERO else Add(RowSum(f, s, a - 1), f(s + (a - 1)))
  }

  function RowByRow(f: int -> Complex, row: int -> int, a: nat, b: nat): Complex {
    if b == 0 then ZERO else Add(RowByRow(f, row, a, b - 1), RowSum(f, row(b - 1), a))
  }

  /** The terms i places into each of b rows. */
  function ColumnSum(f: int -> Complex, row: int -> int, b: nat, i: int): Complex {
    if b == 0 then ZERO else Add(ColumnSum(f, row, b - 1, i), f(row(b - 1) + i))
  }

  function ColumnByColumn(f: int -> Complex, row: int -> int, a: nat, b: nat): Complex {
    if a == 0 then ZERO else Add(ColumnByColumn(f, row, a - 1, b), ColumnSum(f, row, b, a - 1))
  }

  lemma {:induction false} SumAppendRow(f: int -> Complex, s: nat, a: nat)
    ensures Sum(f, s + a) == Add(Sum(f, s), RowSum(f, s, a))
  {
    if a > 0 {
      SumAppendRow(f, s, a - 1);
    }
  }

  lemma {:induction false} SumRowByRow(f: int -> Complex, row: int -> int, a: nat, b: nat)
    requires row(0) == 0 && forall j :: 0 <= j < b ==> RowStep(row, a, j)
    ensures row(b) >= 0 && Sum(f, row(b)) == RowByRow(f, row, a, b)
  {
    if b > 0 {
      SumRowByRow(f, row, a, b - 1);
      assert RowStep(row, a, b - 1);
      SumAppendRow(f, row(b - 1), a);
    }
  }

  lemma {:induction false} ColumnsGrow(f: int -> Complex, row: int -> int, a: nat, b: nat)
    requires b > 0
    ensures ColumnByColumn(f, row, a, b) == Add(ColumnByColumn(f, row, a, b - 1), RowSum(f, row(b - 1), a))
  {
    if a > 0 {
      ColumnsGrow(f, row, a - 1, b);
    }
  }

  lemma {:induction false} NoRows(f: int -> Complex, row: int -> int, a: nat)
    ensures ColumnByColumn(f, row, a, 0) == ZERO
  {
    if a > 0 {
      NoRows(f, row, a - 1);
    }
  }

  lemma {:induction false} RowsEqualColumns(f: int -> Complex, row: int -> int, a: nat, b: nat)
    ensures RowByRow(f, row, a, b) == ColumnByColumn(f, row, a, b)
  {
    if b == 0 {
      NoRows(f, row, a);
    } else {
      RowsEqualColumns(f, row, a, b - 1);
      ColumnsGrow(f, row, a, b);
    }
  }

  lemma {:induction false} ColumnIsSum(f: int -> Complex, row: int -> int, b: nat, i: int, g: int -> Complex)
    requires forall j :: 0 <= j < b ==> g(j) == f(row(j) + i)
    ensures ColumnSum(f, row, b, i) == Sum(g, b)
  {
    if b > 0 {
      ColumnIsSum(f, row, b - 1, i, g);
    }
  }

  lemma {:induction false} ColumnsAreSum(f: int -> Complex, row: int -> int, a: nat, b: nat, column: int -> Complex)
    requires forall i :: 0 <= i < a ==> column(i) == ColumnSum(f, row, b, i)
    ensures ColumnByColumn(f, row, a, b) == Sum(column, a)
  {
    if a > 0 {
      ColumnsAreSum(f, row, a - 1, b, column);
    }
  }

  /** A sum over b rows of a terms each, taken column by column. */
  lemma SumColumns(f: int -> Complex, row: int -> int, a: nat, b: nat, column: int -> Complex)
    requires row(0) == 0 && forall j :: 0 <= j < b ==> RowStep(row, a, j)
    requires forall i :: 0 <= i < a ==> column(i) == ColumnSum(f, row, b, i)
    ensures row(b) >= 0 && Sum(f, row(b)) == Sum(column, a)
  {
    SumRowByRow(f, row, a, b);
    RowsEqualColumns(f, row, a, b);
    ColumnsAreSum(f, row, a, b, column);
  }

  // -------- a sum folded about its first term

  lemma {:induction false} SumAppend(f: int -> Complex, n: nat, m: nat)
    ensures Sum(f, n + m) == Add(Sum(f, n), Sum(Shift(f, n), m))
  {
    if m > 0 {
      SumAppend(f, n, m - 1);
    }
  }

  lemma {:induction false} SumFirst(f: int -> Complex, n: nat)
    ensures Sum(f, n + 1) == Add(f(0), Sum(Shift(f, 1), n))
  {
    if n == 0 {
      assert Sum(f, 0) == ZERO;
    } else {
      SumFirst(f, n - 1);
    }
  }

  lemma {:induction false} SumReverse(f: int -> Complex, n: nat)
    ensures Sum(f, n) == Sum(Reverse(f, n), n)
  {
    if n > 0 {
      SumReverse(f, n - 1);
      SumFirst(Reverse(f, n), n - 1);
      SumExt(Shift(Reverse(f, n), 1), Reverse(f, n - 1), n - 1);
    }
  }

  /** An odd number of terms folded about its first: term j is paired with term n - j. */
  lemma SumFolds(f: int -> Complex, h: nat)
    ensures Sum(f, 2 * h + 1) == Add(f(0), Sum(Pointwise(Shift(f, 1), Reverse(f, 2 * h + 1)), h))
  {
    var g := Shift(f, 1);
    var upper := Shift(g, h);
    SumFirst(f, 2 * h);
    SumAppend(g, h, h);
    SumReverse(upper, h);
    SumExt(Reverse(upper, h), Reverse(f, 2 * h + 1), h);
    SumPointwise(g, Reverse(f, 2 * h + 1), h);
  }
}
