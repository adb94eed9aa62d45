/** The inverse transform undoes the forward one, up to the factor that the scale of the
    last stage removes. */
module Inversion {
  import opened Complexes
  import opened DivMod
  import opened Fourier
  import opened StraightLine
  import opened SmallButterflies
  import opened SymmetricButterflies
  import opened FactorizedButterflies
  import opened Butterflies

  // -------- a proper fraction of a turn is not the identity

  lemma {:induction false} Bezout(d: nat, n: nat) returns (g: nat, u: int, v: int)
    requires d > 0
    ensures 0 < g <= d && g == u * d + v * n
    ensures d % g == 0 && n % g == 0
    decreases d
  {
    if n % d == 0 {
      g, u, v := d, 1, 0;
    } else {
      var r := n % d;
      var q := n / d;
      var g', u', v' := Bezout(r, d);
      g, u, v := g', v' - u' * q, u';
      assert n == d * q + r;
      assert u' * r == u' * n - u' * (d * q);
      assert u' * (d * q) == (u' * q) * d;
      assert (v' - u' * q) * d == v' * d - (u' * q) * d;
      DividesSum(g, d, q, r);
    }
  }

  lemma DividesSum(g: nat, d: nat, q: nat, r: nat)
    requires g > 0 && d % g == 0 && r % g == 0
    ensures (d * q + r) % g == 0
  {
    Recompose(d, g);
    Recompose(r, g);
    var m := (d / g) * q + r / g;
    assert d * q + r == g * m by {
      assert g * (d / g) * q == g * ((d / g) * q);
    }
    Decode(g, m, 0);
  }

  lemma {:induction false} IdentityRepeats(t: Turn, d: int, n: nat, m: nat)
    requires IsTurn(t) && n > 0 && t(d, n) == ONE
    ensures t(m * d, n) == ONE && t(-(m * d), n) == ONE
  {
    hide IsTurn;
    MirrorsAt(t, m * d, n);
    if m == 0 {
      ClosesAt(t, n);
    } else {
      IdentityRepeats(t, d, n, m - 1);
      assert m * d == (m - 1) * d + d;
      AddsAt(t, (m - 1) * d, d, n);
    }
  }

  lemma IdentityMultiple(t: Turn, d: int, n: nat, m: int)
    requires IsTurn(t) && n > 0 && t(d, n) == ONE
    ensures t(m * d, n) == ONE
  {
    hide IsTurn;
    if m >= 0 {
      IdentityRepeats(t, d, n, m);
    } else {
      IdentityRepeats(t, d, n, -m);
      assert -(-m * d) == m * d;
    }
  }

  lemma ProperTurn(t: Turn, d: nat, n: nat)
    requires IsTurn(t) && 0 < d < n
    ensures t(d, n) != ONE
  {
    hide IsTurn;
    if t(d, n) == ONE {
      var g, u, v := Bezout(d, n);
      WholeTurn(t, n);
      IdentityMultiple(t, d, n, u);
      IdentityMultiple(t, n, n, v);
      Product(t, u * d, v * n, n);
      FirstPoint(t, g, n);
    }
  }

  lemma WholeTurn(t: Turn, n: nat)
    requires IsTurn(t) && n > 0
    ensures t(n, n) == ONE
  {
    hide IsTurn;
    ClosesAt(t, n);
  }

  lemma Product(t: Turn, i: int, j: int, n: nat)
    requires IsTurn(t) && n > 0 && t(i, n) == ONE && t(j, n) == ONE
    ensures t(i + j, n) == ONE
  {
    hide IsTurn;
    AddsAt(t, i, j, n);
  }

  lemma FirstPoint(t: Turn, g: nat, n: nat)
    requires IsTurn(t) && 0 < g < n && n % g == 0
    ensures t(g, n) != ONE
  {
    hide IsTurn;
    var q := n / g;
    Recompose(n, g);
    ReducesAt(t, g, 1, q);
    if q >= 3 {
      RisesAt(t, q);
    } else {
      HalfIsProper(t);
    }
  }

  // -------- the sum of the powers of a rotation

  function Powers(t: Turn, d: int, n: nat): int -> Complex {
    j => t(j * d, n)
  }

  lemma PowersCancel(t: Turn, d: int, n: nat)
    requires IsTurn(t) && n > 0 && d != 0 && -(n as int) < d < n
    ensures Sum(Powers(t, d, n), n) == ZERO
  {
    hide IsTurn;
    var f := Powers(t, d, n);
    ClosesAt(t, n);
    if d > 0 {
      ProperTurn(t, d, n);
    } else {
      ProperTurn(t, d + n, n);
      RotPeriod(t, true, d, n);
    }
    forall j | 0 <= j < n ensures Mul(f(j), t(d, n)) == f(j + 1) {
      AddsAt(t, j * d, d, n);
      assert (j + 1) * d == j * d + d;
    }
    RotWraps(t, true, d, n);
    RootsCancel(f, t(d, n), n);
  }

  lemma {:induction false} OnesAdd(t: Turn, n: nat, m: nat)
    requires IsTurn(t) && n > 0
    ensures Sum(Powers(t, 0, n), m) == Complex(m as real, 0.0)
  {
    hide IsTurn;
    ClosesAt(t, n);
    if m > 0 {
      OnesAdd(t, n, m - 1);
      assert (m - 1) * 0 == 0;
    }
  }

  // -------- a double sum taken either way

  type Grid = (int, int) -> Complex

  function AlongRow(g: Grid, i: int): int -> Complex {
    j => g(i, j)
  }

  function AlongColumn(g: Grid, j: int): int -> Complex {
    i => g(i, j)
  }

  function RowTotals(g: Grid, m: nat): int -> Complex {
    i => Sum(AlongRow(g, i), m)
  }

  function ColumnTotals(g: Grid, n: nat): int -> Complex {
    j => Sum(AlongColumn(g, j), n)
  }

  lemma {:induction false} NothingAdds(f: int -> Complex, n: nat)
    requires forall i :: 0 <= i < n ==> f(i) == ZERO
    ensures Sum(f, n) == ZERO
  {
    if n > 0 {
      NothingAdds(f, n - 1);
    }
  }

  lemma {:induction false} SwapSums(g: Grid, n: nat, m: nat)
    ensures Sum(RowTotals(g, m), n) == Sum(ColumnTotals(g, n), m)
  {
    if n == 0 {
      NothingAdds(ColumnTotals(g, 0), m);
    } else {
      SwapSums(g, n - 1, m);
      SumPointwise(ColumnTotals(g, n - 1), AlongRow(g, n - 1), m);
      SumExt(ColumnTotals(g, n), Pointwise(ColumnTotals(g, n - 1), AlongRow(g, n - 1)), m);
    }
  }

  // -------- the round trip

  /** All outputs of the transform of x. */
  function Transform(t: Turn, inverse: bool, x: seq<Complex>): (y: seq<Complex>)
    ensures |y| == |x|
  {
    seq(|x|, k requires 0 <= k < |x| => Dft(t, inverse, x, k))
  }

  // What input i contributes to output k of the round trip by way of frequency j.
  function Contribution(t: Turn, inverse: bool, x: seq<Complex>, k: int): Grid {
    (j, i) => Mul(DftTerm(t, inverse, x, j)(i), Rot(t, !inverse, j * k, |x|))
  }

  lemma FrequencyTotal(t: Turn, inverse: bool, x: seq<Complex>, k: int, j: int)
    requires 0 <= j < |x|
    ensures RowTotals(Contribution(t, inverse, x, k), |x|)(j) == DftTerm(t, !inverse, Transform(t, inverse, x), k)(j)
  {
    var w := Rot(t, !inverse, j * k, |x|);
    var f := DftTerm(t, inverse, x, j);
    SumScale(f, w, |x|);
    SumExt(i => Mul(f(i), w), AlongRow(Contribution(t, inverse, x, k), j), |x|);
  }

  lemma InputTotal(t: Turn, inverse: bool, x: seq<Complex>, k: nat, i: nat)
    requires IsTurn(t) && k < |x| && i < |x|
    ensures ColumnTotals(Contribution(t, inverse, x, k), |x|)(i)
            == if i == k then Mul(x[k], Complex(|x| as real, 0.0)) else ZERO
  {
    hide IsTurn;
    var n := |x|;
    var d := if inverse then i - k else k - i;
    var p := Powers(t, d, n);
    forall j | 0 <= j < n ensures AlongColumn(Contribution(t, inverse, x, k), i)(j) == Mul(p(j), x[i]) {
      ContributionTurns(t, inverse, x, k, j, i);
    }
    SumExt(AlongColumn(Contribution(t, inverse, x, k), i), j => Mul(p(j), x[i]), n);
    SumScale(p, x[i], n);
    if i == k {
      OnesAdd(t, n, n);
      MulComm(Complex(n as real, 0.0), x[i]);
    } else {
      PowersCancel(t, d, n);
      assert Mul(ZERO, x[i]) == ZERO;
    }
  }

  lemma ContributionTurns(t: Turn, inverse: bool, x: seq<Complex>, k: nat, j: nat, i: nat)
    requires IsTurn(t) && i < |x|
    ensures Contribution(t, inverse, x, k)(j, i) == Mul(Powers(t, if inverse then i - k else k - i, |x|)(j), x[i])
  {
    hide IsTurn;
    var n := |x|;
    var d := if inverse then i - k else k - i;
    var a, b := if inverse then i * j else -(i * j), if inverse then -(j * k) else j * k;
    assert a + b == j * d by {
      assert j * (i - k) == i * j - j * k && j * (k - i) == j * k - i * j;
    }
    assert DftTerm(t, inverse, x, j)(i) == Mul(x[i], t(a, n)) && Rot(t, !inverse, j * k, n) == t(b, n);
    assert Contribution(t, inverse, x, k)(j, i) == Mul(Mul(x[i], t(a, n)), t(b, n));
    TurnsCombine(t, x[i], a, b, n);
    assert Powers(t, d, n)(j) == t(a + b, n);
  }

  lemma TurnsCombine(t: Turn, v: Complex, a: int, b: int, n: nat)
    requires IsTurn(t) && n > 0
    ensures Mul(Mul(v, t(a, n)), t(b, n)) == Mul(t(a + b, n), v)
  {
    hide IsTurn;
    MulAssoc(v, t(a, n), t(b, n));
    AddsAt(t, a, b, n);
    MulComm(v, t(a + b, n));
  }

  lemma {:induction false} OnlyTerm(f: int -> Complex, k: nat, n: nat)
    requires k < n && forall i :: 0 <= i < n && i != k ==> f(i) == ZERO
    ensures Sum(f, n) == f(k)
  {
    if k == n - 1 {
      NothingAdds(f, n - 1);
    } else {
      OnlyTerm(f, k, n - 1);
    }
  }

  /** Transforming back multiplies every input by the length, whichever direction came first. */
  lemma InverseUndoes(t: Turn, inverse: bool, x: seq<Complex>, k: nat)
    requires IsTurn(t) && k < |x|
    ensures Dft(t, !inverse, Transform(t, inverse, x), k) == Mul(x[k], Complex(|x| as real, 0.0))
  {
    hide IsTurn;
    var n, g := |x|, Contribution(t, inverse, x, k);
    forall j | 0 <= j < n ensures RowTotals(g, n)(j) == DftTerm(t, !inverse, Transform(t, inverse, x), k)(j) {
      FrequencyTotal(t, inverse, x, k, j);
    }
    SumExt(RowTotals(g, n), DftTerm(t, !inverse, Transform(t, inverse, x), k), n);
    SwapSums(g, n, n);
    forall i | 0 <= i < n ensures ColumnTotals(g, n)(i) == if i == k then Mul(x[k], Complex(n as real, 0.0)) else ZERO {
      InputTotal(t, inverse, x, k, i);
    }
    OnlyTerm(ColumnTotals(g, n), k, n);
  }

  /** The emitted butterfly of one direction fed with the outputs of the other returns every
      operand, multiplied by the radix. */
  lemma ButterfliesInvert(c: Constants, radix: nat, inverse: bool, x: seq<Complex>, st: State, back: State, caller: Caller, k: nat)
    requires !FormOf(radix).Rejected? && c.Valid() && |x| == radix && k < radix && st.ok && back.ok
    requires OperandsOnly(st.env, x)
    requires OperandsOnly(back.env, ResultsOf(Run(Program(c, radix, inverse, false), st, caller).env, radix))
    ensures Holds(Run(Program(c, radix, !inverse, false), back, caller).env, Ref(Result, Out, k), Mul(x[k], Complex(radix as real, 0.0)))
  {
    hide Run, Program, CompletionOrder, Dft;
    var after := Run(Program(c, radix, inverse, false), st, caller);
    ButterflyTransforms(c, radix, inverse, false, x, st, caller);
    assert ResultsOf(after.env, radix) == Transform(c.turn, inverse, x);
    ButterflyTransforms(c, radix, !inverse, false, Transform(c.turn, inverse, x), back, caller);
    InverseUndoes(c.turn, inverse, x, k);
    assert k in CompletionOrder(radix);
  }

  /** The values left in the outputs' variables. */
  function ResultsOf(env: Env, radix: nat): (y: seq<Complex>)
    ensures |y| == radix
  {
    seq(radix, k requires 0 <= k < radix => Get(env, Ref(Result, Out, k)))
  }
}
