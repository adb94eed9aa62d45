/** What a signal has become after some of the kernels of a chain: sums over the digits already
    transformed, each term carrying the twiddle of its whole index. */
module PartialTransforms {
  import opened Complexes
  import opened Fourier

  /** The q-th of the points m apart, from j on, turned for output k. */
  function PartTerm(t: Turn, inverse: bool, s: seq<Complex>, m: nat, k: int, j: int): int -> Complex {
    q => Mul(At(s, q * m + j), Rot(t, inverse, (q * m + j) * k, |s|))
  }

  /** The sum of a points m apart. */
  function Part(t: Turn, inverse: bool, s: seq<Complex>, a: nat, m: nat, k: int, j: int): Complex {
    Sum(PartTerm(t, inverse, s, m, k, j), a)
  }

  /** Before the first kernel, it is the signal. */
  lemma NothingTransformed(t: Turn, inverse: bool, s: seq<Complex>, j: nat)
    requires IsTurn(t) && j < |s|
    ensures Part(t, inverse, s, 1, |s|, 0, j) == s[j]
  {
    hide IsTurn;
    ClosesAt(t, |s|);
    var f := PartTerm(t, inverse, s, |s|, 0, j);
    assert Sum(f, 0) == ZERO;
    assert 0 * |s| + j == j && (0 * |s| + j) * 0 == 0;
    assert f(0) == s[j];
  }

  /** When no point is left over, it is the transform. */
  lemma AllTransformed(t: Turn, inverse: bool, s: seq<Complex>, k: int)
    ensures Part(t, inverse, s, |s|, 1, k, 0) == Dft(t, inverse, s, k)
  {
    hide At, Rot;
    SumExt(PartTerm(t, inverse, s, 1, k, 0), DftTerm(t, inverse, s, k), |s|);
  }

  /** The inputs of the next kernel: l partial sums r apart. */
  function PartColumn(t: Turn, inverse: bool, s: seq<Complex>, a: nat, l: nat, r: nat, k: int, b: int): (c: seq<Complex>)
    ensures |c| == l
  {
    seq(l, d requires 0 <= d < l => Part(t, inverse, s, a, l * r, k, d * r + b))
  }

  lemma ExponentGrows(t: Turn, inverse: bool, a: nat, l: nat, r: nat, q: int, d: int, b: int, k: int, e: int)
    requires IsTurn(t) && a > 0 && l > 0 && r > 0
    ensures var n, x := a * (l * r), (l * q + d) * r + b;
            n > 0 && Rot(t, inverse, x * (k + a * e), n) == Mul(Rot(t, inverse, x * k, n), Mul(Rot(t, inverse, d * e, l), Rot(t, inverse, b * e * a, n)))
  {
    hide IsTurn, Rot;
    var n, x := a * (l * r), (l * q + d) * r + b;
    SizePositive(a, l, r);
    var whole, mine, rest := n * (q * e), (a * r) * (d * e), b * e * a;
    Split(a, l, r, q, d, b, k, e);
    assert x * (k + a * e) == x * k + (whole + (mine + rest));
    RotAdd(t, inverse, x * k, whole + (mine + rest), n);
    RotAdd(t, inverse, whole, mine + rest, n);
    RotAdd(t, inverse, mine, rest, n);
    RotWraps(t, inverse, q * e, n);
    RotReduce(t, inverse, a * r, d * e, l);
    assert Mul(ONE, Mul(Rot(t, inverse, d * e, l), Rot(t, inverse, rest, n))) == Mul(Rot(t, inverse, d * e, l), Rot(t, inverse, rest, n));
  }

  lemma SizePositive(a: nat, l: nat, r: nat)
    requires a > 0 && l > 0 && r > 0
    ensures a * (l * r) > 0 && a * r > 0 && a * (l * r) == (a * r) * l
  {
    assert l * r > 0;
  }

  lemma Split(a: nat, l: nat, r: nat, q: int, d: int, b: int, k: int, e: int)
    ensures ((l * q + d) * r + b) * (k + a * e)
            == ((l * q + d) * r + b) * k + (a * (l * r) * (q * e) + ((a * r) * (d * e) + b * e * a))
  {
    var x := (l * q + d) * r + b;
    assert x * (k + a * e) == x * k + x * (a * e);
    assert x * (a * e) == l * q * r * (a * e) + d * r * (a * e) + b * (a * e);
    assert l * q * r * (a * e) == a * (l * r) * (q * e);
    assert d * r * (a * e) == (a * r) * (d * e);
    assert b * (a * e) == b * e * a;
  }

  /** A kernel of length l, followed by its twiddle, transforms the next digit. */
  lemma PartGrows(t: Turn, inverse: bool, s: seq<Complex>, a: nat, l: nat, r: nat, k: int, e: int, b: int)
    requires IsTurn(t) && a > 0 && l > 0 && r > 0 && |s| == a * (l * r)
    ensures Part(t, inverse, s, a * l, r, k + a * e, b)
            == Mul(Dft(t, inverse, PartColumn(t, inverse, s, a, l, r, k, b), e), Rot(t, inverse, b * e * a, |s|))
  {
    hide IsTurn, Rot, At, Part;
    var c := PartColumn(t, inverse, s, a, l, r, k, b);
    var w := Rot(t, inverse, b * e * a, |s|);
    var f := PartTerm(t, inverse, s, r, k + a * e, b);
    var g := DftTerm(t, inverse, c, e);
    var column := (d: int) => Mul(g(d), w);
    var row := (q: int) => l * q;
    forall d | 0 <= d < l ensures column(d) == ColumnSum(f, row, a, d) {
      DigitSum(t, inverse, s, a, l, r, k, e, b, d);
    }
    forall q | 0 <= q < a ensures RowStep(row, l, q) {
    }
    SumColumns(f, row, l, a, column);
    SumScale(g, w, l);
    SumExt(column, i => Mul(g(i), w), l);
    WholePart(t, inverse, s, a, l, r, k + a * e, b);
  }

  lemma WholePart(t: Turn, inverse: bool, s: seq<Complex>, a: nat, l: nat, r: nat, k: int, b: int)
    ensures Part(t, inverse, s, a * l, r, k, b) == Sum(PartTerm(t, inverse, s, r, k, b), l * a)
  {
  }

  lemma DigitSum(t: Turn, inverse: bool, s: seq<Complex>, a: nat, l: nat, r: nat, k: int, e: int, b: int, d: int)
    requires IsTurn(t) && a > 0 && l > 0 && r > 0 && |s| == a * (l * r) && 0 <= d < l
    ensures Mul(DftTerm(t, inverse, PartColumn(t, inverse, s, a, l, r, k, b), e)(d), Rot(t, inverse, b * e * a, |s|))
            == ColumnSum(PartTerm(t, inverse, s, r, k + a * e, b), q => l * q, a, d)
  {
    hide IsTurn, Rot, At;
    var row := (q: int) => l * q;
    var f := PartTerm(t, inverse, s, r, k + a * e, b);
    var h := PartTerm(t, inverse, s, l * r, k, d * r + b);
    var w1, w2 := Rot(t, inverse, d * e, l), Rot(t, inverse, b * e * a, |s|);
    var g := (q: int) => Mul(h(q), Mul(w1, w2));
    forall q | 0 <= q < a ensures g(q) == f(row(q) + d) {
      TermGrows(t, inverse, s, a, l, r, k, e, b, d, q);
    }
    ColumnIsSum(f, row, a, d, g);
    SumScale(h, Mul(w1, w2), a);
    MulAssoc(Sum(h, a), w1, w2);
    InColumn(t, inverse, s, a, l, r, k, b, d);
  }

  lemma InColumn(t: Turn, inverse: bool, s: seq<Complex>, a: nat, l: nat, r: nat, k: int, b: int, d: int)
    requires 0 <= d < l
    ensures At(PartColumn(t, inverse, s, a, l, r, k, b), d) == Sum(PartTerm(t, inverse, s, l * r, k, d * r + b), a)
  {
  }

  lemma TermGrows(t: Turn, inverse: bool, s: seq<Complex>, a: nat, l: nat, r: nat, k: int, e: int, b: int, d: int, q: int)
    requires IsTurn(t) && a > 0 && l > 0 && r > 0 && |s| == a * (l * r)
    ensures Mul(PartTerm(t, inverse, s, l * r, k, d * r + b)(q), Mul(Rot(t, inverse, d * e, l), Rot(t, inverse, b * e * a, |s|)))
            == PartTerm(t, inverse, s, r, k + a * e, b)(l * q + d)
  {
    hide IsTurn, Rot, At;
    var x := (l * q + d) * r + b;
    assert q * (l * r) + (d * r + b) == x;
    ExponentGrows(t, inverse, a, l, r, q, d, b, k, e);
    MulAssoc(At(s, x), Rot(t, inverse, x * k, |s|), Mul(Rot(t, inverse, d * e, l), Rot(t, inverse, b * e * a, |s|)));
  }
}
