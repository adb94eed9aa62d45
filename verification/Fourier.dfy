/** The discrete Fourier transform the butterflies must equal, and the facts about
    rotations that make it factor.  A rotation table stands for the cosines and sines
    the generator evaluates: turn(k, n) is the point at k/n of a full turn. */
module Fourier {
  import opened Complexes

  type Turn = (int, nat) -> Complex

  predicate TurnAdds(t: Turn, i: int, j: int, n: nat) {
    t(i + j, n) == Mul(t(i, n), t(j, n))
  }

  predicate TurnMirrors(t: Turn, k: int, n: nat) {
    t(-k, n) == Conj(t(k, n))
  }

  predicate TurnReduces(t: Turn, a: nat, k: int, n: nat) {
    t(a * k, a * n) == t(k, n)
  }

  predicate TurnCloses(t: Turn, n: nat) {
    t(0, n) == ONE && t(n, n) == ONE
  }

  // From a third of a turn down, the first point lies strictly above the real axis.
  predicate TurnRises(t: Turn, n: nat) {
    t(1, n).im > 0.0
  }

  /** What is used of cosine and sine: angles add, a negated angle mirrors, a fraction
      of a turn may be reduced, a whole turn is the identity, and the first point of a
      turn cut into two is not the identity and into three or more lies above the axis. */
  ghost predicate IsTurn(t: Turn) {
    && (forall i, j, n | n > 0 :: TurnAdds(t, i, j, n))
    && (forall k, n | n > 0 :: TurnMirrors(t, k, n))
    && (forall a, k, n | a > 0 && n > 0 :: TurnReduces(t, a, k, n))
    && (forall n | n > 0 :: TurnCloses(t, n))
    && (forall n | n >= 3 :: TurnRises(t, n))
    && t(1, 2) != ONE
  }

  lemma AddsAt(t: Turn, i: int, j: int, n: nat)
    requires IsTurn(t) && n > 0
    ensures TurnAdds(t, i, j, n)
  {
  }

  lemma MirrorsAt(t: Turn, k: int, n: nat)
    requires IsTurn(t) && n > 0
    ensures TurnMirrors(t, k, n)
  {
  }

  lemma ReducesAt(t: Turn, a: nat, k: int, n: nat)
    requires IsTurn(t) && a > 0 && n > 0
    ensures TurnReduces(t, a, k, n)
  {
  }

  lemma ClosesAt(t: Turn, n: nat)
    requires IsTurn(t) && n > 0
    ensures TurnCloses(t, n)
  {
  }

  lemma RisesAt(t: Turn, n: nat)
    requires IsTurn(t) && n >= 3
    ensures TurnRises(t, n)
  {
  }

  lemma HalfIsProper(t: Turn)
    requires IsTurn(t)
    ensures t(1, 2) != ONE
  {
  }

  /** W_n to the power k: clockwise for the forward transform, anticlockwise for the inverse. */
  function Rot(t: Turn, inverse: bool, k: int, n: nat): Complex {
    t(if inverse then k else -k, n)
  }

  lemma RotAdd(t: Turn, inverse: bool, i: int, j: int, n: nat)
    requires IsTurn(t) && n > 0
    ensures Rot(t, inverse, i + j, n) == Mul(Rot(t, inverse, i, n), Rot(t, inverse, j, n))
  {
    hide IsTurn;
    AddsAt(t, i, j, n);
    AddsAt(t, -i, -j, n);
  }

  lemma RotReduce(t: Turn, inverse: bool, a: nat, k: int, n: nat)
    requires IsTurn(t) && n > 0 && a > 0
    ensures Rot(t, inverse, a * k, a * n) == Rot(t, inverse, k, n)
  {
    hide IsTurn;
    ReducesAt(t, a, k, n);
    ReducesAt(t, a, -k, n);
    assert a * -k == -(a * k);
  }

  lemma RotMirror(t: Turn, inverse: bool, k: int, n: nat)
    requires IsTurn(t) && n > 0
    ensures Rot(t, inverse, -k, n) == Conj(Rot(t, inverse, k, n))
  {
    hide IsTurn;
    MirrorsAt(t, k, n);
    MirrorsAt(t, -k, n);
  }

  lemma RotPeriod(t: Turn, inverse: bool, k: int, n: nat)
    requires IsTurn(t) && n > 0
    ensures Rot(t, inverse, k + n, n) == Rot(t, inverse, k, n)
  {
    hide IsTurn;
    ClosesAt(t, n);
    MirrorsAt(t, n, n);
    RotAdd(t, inverse, k, n, n);
  }

  lemma {:induction false} RotWraps(t: Turn, inverse: bool, m: int, n: nat)
    requires IsTurn(t) && n > 0
    ensures Rot(t, inverse, n * m, n) == ONE
    decreases if m < 0 then -m else m
  {
    hide IsTurn;
    if m == 0 {
      ClosesAt(t, n);
    } else if m > 0 {
      RotWraps(t, inverse, m - 1, n);
      RotPeriod(t, inverse, n * (m - 1), n);
    } else {
      RotWraps(t, inverse, m + 1, n);
      RotPeriod(t, inverse, n * m, n);
    }
  }

  function At(x: seq<Complex>, j: int): Complex {
    if 0 <= j < |x| then x[j] else ZERO
  }

  function DftTerm(t: Turn, inverse: bool, x: seq<Complex>, k: int): int -> Complex {
    j => Mul(At(x, j), Rot(t, inverse, j * k, |x|))
  }

  /** Output k of the unnormalised |x|-point transform of x. */
  function Dft(t: Turn, inverse: bool, x: seq<Complex>, k: int): Complex {
    Sum(DftTerm(t, inverse, x, k), |x|)
  }

  // -------- the Cooley-Tukey factorisation

  /** x[n1], x[n1 + a], x[n1 + 2a], ...: the inputs of inner transform n1. */
  function Stride(x: seq<Complex>, a: nat, b: nat, n1: int): (s: seq<Complex>)
    ensures |s| == b
  {
    seq(b, n2 requires 0 <= n2 < b => At(x, n1 + a * n2))
  }

  /** The inner transforms' outputs k2, each turned by its own twiddle. */
  function Across(t: Turn, inverse: bool, x: seq<Complex>, a: nat, b: nat, k2: int): (s: seq<Complex>)
    ensures |s| == a
  {
    seq(a, n1 requires 0 <= n1 < a =>
      Mul(Dft(t, inverse, Stride(x, a, b, n1), k2), Rot(t, inverse, n1 * k2, |x|)))
  }

  lemma ExponentSplits(t: Turn, inverse: bool, a: nat, b: nat, i: int, j: int, k1: int, k2: int)
    requires IsTurn(t) && a > 0 && b > 0
    ensures Rot(t, inverse, (a * j + i) * (k2 + b * k1), a * b)
            == Mul(Rot(t, inverse, j * k2, b), Mul(Rot(t, inverse, i * k2, a * b), Rot(t, inverse, i * k1, a)))
  {
    hide IsTurn;
    var n := a * b;
    var p, q, r, s := a * (j * k2), i * k2, b * (i * k1), n * (j * k1);
    assert (a * j + i) * (k2 + b * k1) == p + (q + (r + s)) by {
      assert (a * j + i) * (k2 + b * k1) == a * j * k2 + i * k2 + i * (b * k1) + a * j * (b * k1);
      assert a * j * (b * k1) == a * b * (j * k1);
      assert i * (b * k1) == b * (i * k1);
    }
    RotAdd(t, inverse, p, q + (r + s), n);
    RotAdd(t, inverse, q, r + s, n);
    RotAdd(t, inverse, r, s, n);
    RotWraps(t, inverse, j * k1, n);
    RotReduce(t, inverse, a, j * k2, b);
    assert b * a == n;
    RotReduce(t, inverse, b, i * k1, a);
  }

  /** The (a*b)-point transform from b-point and a-point ones: the output at k2 + b*k1 is
      output k1 of the a-point transform across the twiddled inner outputs k2. */
  lemma CooleyTukey(t: Turn, inverse: bool, x: seq<Complex>, a: nat, b: nat, k1: int, k2: int)
    requires IsTurn(t) && a > 0 && b > 0 && |x| == a * b
    ensures Dft(t, inverse, Across(t, inverse, x, a, b, k2), k1) == Dft(t, inverse, x, k2 + b * k1)
  {
    hide IsTurn;
    var f := DftTerm(t, inverse, x, k2 + b * k1);
    var row := (j: int) => a * j;
    var column := DftTerm(t, inverse, Across(t, inverse, x, a, b, k2), k1);
    forall j | 0 <= j < b ensures RowStep(row, a, j) {
    }
    forall i | 0 <= i < a ensures column(i) == ColumnSum(f, row, b, i) {
      InnerSum(t, inverse, x, a, b, k1, k2, i);
    }
    SumColumns(f, row, a, b, column);
  }

  lemma InnerSum(t: Turn, inverse: bool, x: seq<Complex>, a: nat, b: nat, k1: int, k2: int, i: int)
    requires IsTurn(t) && a > 0 && b > 0 && |x| == a * b && 0 <= i < a
    ensures ColumnSum(DftTerm(t, inverse, x, k2 + b * k1), j => a * j, b, i)
            == Mul(Across(t, inverse, x, a, b, k2)[i], Rot(t, inverse, i * k1, a))
  {
    hide IsTurn;
    var inner := Stride(x, a, b, i);
    var c1, c2 := Rot(t, inverse, i * k2, a * b), Rot(t, inverse, i * k1, a);
    var h := DftTerm(t, inverse, inner, k2);
    SumScale(h, Mul(c1, c2), b);
    MulAssoc(Sum(h, b), c1, c2);
    var row := (j: int) => a * j;
    var g := (j: int) => Mul(h(j), Mul(c1, c2));
    forall j | 0 <= j < b ensures g(j) == DftTerm(t, inverse, x, k2 + b * k1)(row(j) + i) {
      ExponentSplits(t, inverse, a, b, i, j, k1, k2);
      MulAssoc(At(x, a * j + i), Rot(t, inverse, j * k2, b), Mul(c1, c2));
      assert At(inner, j) == At(x, i + a * j);
    }
    ColumnIsSum(DftTerm(t, inverse, x, k2 + b * k1), row, b, i, g);
  }

  // -------- the symmetric form for odd lengths

  /** What the pair of inputs j and n - j adds to an output, from their sum p and
      difference m and the cosine c and sine s of the angle between them. */
  function PairTerm(anticlockwise: bool, p: Complex, m: Complex, c: real, s: real): Complex {
    if anticlockwise then Complex(p.re * c - m.im * s, p.im * c + m.re * s)
    else Complex(p.re * c + m.im * s, p.im * c - m.re * s)
  }

  lemma PairTermRotates(anticlockwise: bool, x: Complex, y: Complex, w: Complex)
    ensures PairTerm(anticlockwise, Add(x, y), Sub(x, y), w.re, w.im)
            == Add(Mul(x, if anticlockwise then w else Conj(w)), Mul(y, if anticlockwise then Conj(w) else w))
  {
    if anticlockwise {
      RotatesUp(x, y, w);
    } else {
      RotatesDown(x, y, w);
    }
  }

  lemma RotatesUp(x: Complex, y: Complex, w: Complex)
    ensures PairTerm(true, Add(x, y), Sub(x, y), w.re, w.im) == Add(Mul(x, w), Mul(y, Conj(w)))
  {
    Distribute(x.re, y.re, w.re);
    Distribute(x.im, y.im, w.im);
    Distribute(x.im, y.im, w.re);
    Distribute(x.re, y.re, w.im);
  }

  lemma RotatesDown(x: Complex, y: Complex, w: Complex)
    ensures PairTerm(false, Add(x, y), Sub(x, y), w.re, w.im) == Add(Mul(x, Conj(w)), Mul(y, w))
  {
    Distribute(x.re, y.re, w.re);
    Distribute(x.im, y.im, w.im);
    Distribute(x.im, y.im, w.re);
    Distribute(x.re, y.re, w.im);
  }

  lemma Distribute(a: real, b: real, c: real)
    ensures (a + b) * c == a * c + b * c && (a - b) * c == a * c - b * c
    ensures a * -c == -(a * c) && b * -c == -(b * c)
  {
  }

  /** The contribution of pair j to output k. */
  function Pair(t: Turn, anticlockwise: bool, x: seq<Complex>, k: int, j: int): Complex {
    PairTerm(anticlockwise, Add(At(x, j), At(x, |x| - j)), Sub(At(x, j), At(x, |x| - j)),
             t(k * j, |x|).re, t(k * j, |x|).im)
  }

  function Pairs(t: Turn, anticlockwise: bool, x: seq<Complex>, k: int): int -> Complex {
    j => Pair(t, anticlockwise, x, k, j)
  }

  /** a with terms 1..m of f added one after the other. */
  function Accumulate(a: Complex, f: int -> Complex, m: nat): Complex {
    if m == 0 then a else Add(Accumulate(a, f, m - 1), f(m))
  }

  lemma {:induction false} AccumulateIsSum(a: Complex, f: int -> Complex, m: nat)
    ensures Accumulate(a, f, m) == Add(a, Sum(Shift(f, 1), m))
  {
    if m > 0 {
      AccumulateIsSum(a, f, m - 1);
    }
  }

  /** The first input plus the contribution of pairs 1..m to one output. */
  function SymmetricSum(t: Turn, anticlockwise: bool, x: seq<Complex>, k: int, m: nat): Complex {
    Accumulate(At(x, 0), Pairs(t, anticlockwise, x, k), m)
  }

  lemma PairIsTwoTerms(t: Turn, inverse: bool, x: seq<Complex>, k: int, j: int)
    requires IsTurn(t) && |x| > 0
    ensures Pair(t, inverse, x, k, j)
            == Add(DftTerm(t, inverse, x, k)(j), DftTerm(t, inverse, x, k)(|x| - j))
  {
    hide IsTurn;
    var n := |x|;
    PairTermRotates(inverse, At(x, j), At(x, n - j), t(k * j, n));
    assert j * k == k * j;
    MirrorsAt(t, k * j, n);
    RotMirror(t, inverse, j * k, n);
    assert (n - j) * k == n * k + -(j * k);
    RotAdd(t, inverse, n * k, -(j * k), n);
    RotWraps(t, inverse, k, n);
  }

  /** The paired accumulation computes output k of an odd-length transform. */
  lemma SymmetricDft(t: Turn, inverse: bool, x: seq<Complex>, k: int, h: nat)
    requires IsTurn(t) && |x| == 2 * h + 1
    ensures SymmetricSum(t, inverse, x, k, h) == Dft(t, inverse, x, k)
  {
    hide IsTurn;
    var f, pairs := DftTerm(t, inverse, x, k), Pairs(t, inverse, x, k);
    PairsFold(t, inverse, x, k, h);
    AccumulateIsSum(At(x, 0), pairs, h);
    SumFolds(f, h);
    FirstTerm(t, inverse, x, k);
  }

  lemma FirstTerm(t: Turn, inverse: bool, x: seq<Complex>, k: int)
    requires IsTurn(t) && |x| > 0
    ensures DftTerm(t, inverse, x, k)(0) == At(x, 0)
  {
    hide IsTurn;
    ClosesAt(t, |x|);
  }

  lemma {:induction false} PairsFold(t: Turn, inverse: bool, x: seq<Complex>, k: int, h: nat)
    requires IsTurn(t) && |x| > 0
    ensures Sum(Shift(Pairs(t, inverse, x, k), 1), h)
            == Sum(Pointwise(Shift(DftTerm(t, inverse, x, k), 1), Reverse(DftTerm(t, inverse, x, k), |x|)), h)
  {
    hide IsTurn, Rot, At, Pair;
    if h > 0 {
      PairsFold(t, inverse, x, k, h - 1);
      PairIsTwoTerms(t, inverse, x, k, h);
    }
  }

  /** Turning the other way yields the mirrored output, so one set of cosines and sines
      serves outputs k and n - k. */
  lemma {:induction false} SymmetricMirror(t: Turn, anticlockwise: bool, x: seq<Complex>, k: int, m: nat)
    requires IsTurn(t) && |x| > 0
    ensures SymmetricSum(t, !anticlockwise, x, k, m) == SymmetricSum(t, anticlockwise, x, |x| - k, m)
  {
    hide IsTurn;
    if m > 0 {
      SymmetricMirror(t, anticlockwise, x, k, m - 1);
      MirroredPair(t, anticlockwise, x, k, m);
    }
  }

  lemma MirroredPair(t: Turn, anticlockwise: bool, x: seq<Complex>, k: int, j: int)
    requires IsTurn(t) && |x| > 0
    ensures Pair(t, !anticlockwise, x, k, j) == Pair(t, anticlockwise, x, |x| - k, j)
  {
    hide IsTurn;
    MirroredPoint(t, |x|, k, j);
    PairTermMirrors(anticlockwise, Add(At(x, j), At(x, |x| - j)), Sub(At(x, j), At(x, |x| - j)), t(k * j, |x|));
  }

  lemma PairTermMirrors(anticlockwise: bool, p: Complex, m: Complex, w: Complex)
    ensures PairTerm(!anticlockwise, p, m, w.re, w.im) == PairTerm(anticlockwise, p, m, Conj(w).re, Conj(w).im)
  {
    assert m.im * -w.im == -(m.im * w.im) && m.re * -w.im == -(m.re * w.im);
  }

  lemma MirroredPoint(t: Turn, n: nat, k: int, m: int)
    requires IsTurn(t) && n > 0
    ensures t((n - k) * m, n) == Conj(t(k * m, n))
  {
    hide IsTurn;
    assert (n - k) * m == n * m + -(k * m);
    RotAdd(t, true, n * m, -(k * m), n);
    RotWraps(t, true, m, n);
    RotMirror(t, true, k * m, n);
  }

  // -------- the rotations the fixed butterflies fold into constants

  lemma HalfTurn(t: Turn)
    requires IsTurn(t)
    ensures t(1, 2) == Complex(-1.0, 0.0)
  {
    hide IsTurn;
    HalfIsProper(t);
    var w := t(1, 2);
    AddsAt(t, 1, 1, 2);
    ClosesAt(t, 2);
    NoZeroDivisors(Sub(w, ONE), Add(w, ONE));
  }

  lemma QuarterTurn(t: Turn)
    requires IsTurn(t)
    ensures t(1, 4) == Complex(0.0, 1.0)
  {
    hide IsTurn;
    HalfTurn(t);
    ReducesAt(t, 2, 1, 2);
    AddsAt(t, 1, 1, 4);
    RisesAt(t, 4);
    SquareIsMinusOne(t(1, 4).re, t(1, 4).im);
  }

  lemma SquareIsMinusOne(a: real, b: real)
    requires a * a - b * b == -1.0 && a * b + b * a == 0.0 && b > 0.0
    ensures a == 0.0 && b == 1.0
  {
    assert a * b == 0.0;
    assert a == 0.0;
    assert (b - 1.0) * (b + 1.0) == 0.0;
  }

  lemma ThirdTurn(t: Turn)
    requires IsTurn(t)
    ensures t(1, 3).re == -0.5 && t(1, 3).im > 0.0 && t(1, 3).im * t(1, 3).im == 0.75
    ensures t(2, 3) == Conj(t(1, 3))
  {
    hide IsTurn;
    AddsAt(t, 1, 1, 3);
    AddsAt(t, 3, -1, 3);
    ClosesAt(t, 3);
    MirrorsAt(t, 1, 3);
    RisesAt(t, 3);
    SquareIsConjugate(t(1, 3).re, t(1, 3).im);
  }

  lemma SquareIsConjugate(a: real, b: real)
    requires a * a - b * b == a && a * b + b * a == -b && b > 0.0
    ensures a == -0.5 && b * b == 0.75
  {
    assert (2.0 * a + 1.0) * b == 0.0;
  }

  /** The real parts of the first two fifths of a turn sum to minus one half. */
  lemma FifthTurn(t: Turn)
    requires IsTurn(t)
    ensures t(2, 5).re == -0.5 - t(1, 5).re
    ensures t(4, 5) == Conj(t(1, 5)) && t(3, 5) == Conj(t(2, 5))
  {
    hide IsTurn;
    ClosesAt(t, 5);
    TurnComplement(t, 1, 5);
    TurnComplement(t, 2, 5);
    FifthRootsCancel(t);
    SumOfFive(i => t(i, 5));
  }

  lemma TurnComplement(t: Turn, k: int, n: nat)
    requires IsTurn(t) && n > 0
    ensures t(n - k, n) == Conj(t(k, n))
  {
    hide IsTurn;
    AddsAt(t, n, -k, n);
    MirrorsAt(t, k, n);
    ClosesAt(t, n);
  }

  /** The sine of two fifths of a turn is the sine of one tenth. */
  lemma TenthTurn(t: Turn)
    requires IsTurn(t)
    ensures t(2, 5).im == t(1, 10).im
  {
    hide IsTurn;
    HalfTurn(t);
    ReducesAt(t, 5, 1, 2);
    ReducesAt(t, 2, 2, 5);
    AddsAt(t, 5, -1, 10);
    MirrorsAt(t, 1, 10);
  }

  lemma FifthRootsCancel(t: Turn)
    requires IsTurn(t)
    ensures Sum(i => t(i, 5), 5) == ZERO
  {
    hide IsTurn;
    var f := (i: int) => t(i, 5);
    ClosesAt(t, 5);
    RisesAt(t, 5);
    forall i | 0 <= i < 5 ensures Mul(f(i), t(1, 5)) == f(i + 1) {
      AddsAt(t, i, 1, 5);
    }
    RootsCancel(f, t(1, 5), 5);
  }

  /** Points that go round by a factor other than one sum to zero. */
  lemma RootsCancel(f: int -> Complex, w: Complex, n: nat)
    requires n > 0 && w != ONE && f(n) == f(0)
    requires forall i :: 0 <= i < n ==> Mul(f(i), w) == f(i + 1)
    ensures Sum(f, n) == ZERO
  {
    SumScale(f, w, n);
    SumExt(i => Mul(f(i), w), Shift(f, 1), n);
    SumFirst(f, n);
    Fixed(Sum(f, n), w);
  }

  lemma SumOfFive(f: int -> Complex)
    ensures Sum(f, 5).re == f(0).re + f(1).re + f(2).re + f(3).re + f(4).re
  {
    assert Sum(f, 1) == Add(ZERO, f(0));
    assert Sum(f, 3) == Add(Add(Sum(f, 1), f(1)), f(2));
    assert Sum(f, 5) == Add(Add(Sum(f, 3), f(3)), f(4));
  }

  // Only zero is left unchanged by a factor other than one.
  lemma Fixed(s: Complex, w: Complex)
    requires Mul(s, w) == s && w != ONE
    ensures s == ZERO
  {
    MulComm(s, w);
    MulAdd(w, Complex(-1.0, 0.0), s);
    NoZeroDivisors(Add(w, Complex(-1.0, 0.0)), s);
  }
}
