/** The fixed radix-2, 3, 4 and 5 emitters. */
module SmallButterflies {
  import opened Complexes
  import opened Fourier
  import opened StraightLine

  /** The constants the generator evaluates: cosines and sines, and half the root of three. */
  datatype Constants = Constants(turn: Turn, halfRoot3: real) {
    ghost predicate Valid() {
      IsTurn(turn) && halfRoot3 == turn(1, 3).im
    }
  }

  /** The positive root of three quarters is the sine of a third of a turn. */
  lemma HalfRootOfThree(t: Turn, r: real)
    requires IsTurn(t)
    ensures r > 0.0 && r * r == 0.75 <==> r == t(1, 3).im
  {
    hide IsTurn;
    ThirdTurn(t);
    if r > 0.0 && r * r == 0.75 {
      SameRoot(r, t(1, 3).im);
    }
  }

  lemma SameRoot(a: real, b: real)
    requires a > 0.0 && b > 0.0 && a * a == b * b
    ensures a == b
  {
    assert (a - b) * (a + b) == 0.0;
  }

  /** From st, running a program leaves st' with the |x|-point transform of x in the outputs
      of prefix p, and has touched no name with another prefix. */
  ghost predicate Transforms(st: State, st': State, p: Prefix, t: Turn, inverse: bool, x: seq<Complex>) {
    && st'.ok
    && st'.outputs == st.outputs
    && OnlyTouches(st.env, st'.env, p)
    && (forall k: nat | k < |x| :: Holds(st'.env, Ref(p, Out, k), Dft(t, inverse, x, k)))
  }

  // Declares the sum, or the difference, of two referenced values.
  function DeclareSum(dst: Ref, a: Ref, b: Ref): Stmt {
    Declare(dst, Plus(Re(a), Re(b)), Plus(Im(a), Im(b)))
  }

  function DeclareDiff(dst: Ref, a: Ref, b: Ref): Stmt {
    Declare(dst, Minus(Re(a), Re(b)), Minus(Im(a), Im(b)))
  }

  // Declares a turned a quarter by b: a + jb for the inverse direction, a - jb for the forward.
  function DeclareQuarter(dst: Ref, a: Ref, b: Ref, plusJ: bool): Stmt {
    if plusJ then Declare(dst, Minus(Re(a), Im(b)), Plus(Im(a), Re(b)))
    else Declare(dst, Plus(Re(a), Im(b)), Minus(Im(a), Re(b)))
  }

  function Quarter(a: Complex, b: Complex, plusJ: bool): Complex {
    if plusJ then Complex(a.re - b.im, a.im + b.re) else Complex(a.re + b.im, a.im - b.re)
  }

  lemma DeclareSumRuns(dst: Ref, a: Ref, b: Ref, u: Complex, v: Complex, st: State, caller: Caller)
    requires st.ok && dst !in st.env && Holds(st.env, a, u) && Holds(st.env, b, v)
    ensures Exec(DeclareSum(dst, a, b), st, caller) == Bind(st, dst, Add(u, v))
    ensures Exec(DeclareDiff(dst, a, b), st, caller) == Bind(st, dst, Sub(u, v))
  {
    DeclareRuns(DeclareSum(dst, a, b), st, Add(u, v), caller);
    DeclareRuns(DeclareDiff(dst, a, b), st, Sub(u, v), caller);
  }

  lemma DeclareQuarterRuns(dst: Ref, a: Ref, b: Ref, plusJ: bool, u: Complex, v: Complex, st: State, caller: Caller)
    requires st.ok && dst !in st.env && Holds(st.env, a, u) && Holds(st.env, b, v)
    ensures Exec(DeclareQuarter(dst, a, b, plusJ), st, caller) == Bind(st, dst, Quarter(u, v, plusJ))
  {
    DeclareRuns(DeclareQuarter(dst, a, b, plusJ), st, Quarter(u, v, plusJ), caller);
  }

  /** Two pairs of sums and differences, or the like: each reads names the ones before it left alone. */
  lemma Run4Binds(program: seq<Stmt>, st: State, caller: Caller, r1: Ref, v1: Complex, r2: Ref, v2: Complex, r3: Ref, v3: Complex, r4: Ref, v4: Complex)
    requires |program| == 4
    requires Exec(program[0], st, caller) == Bind(st, r1, v1)
    requires Exec(program[1], Bind(st, r1, v1), caller) == Bind(Bind(st, r1, v1), r2, v2)
    requires Exec(program[2], Bind(Bind(st, r1, v1), r2, v2), caller) == Bind(Bind(Bind(st, r1, v1), r2, v2), r3, v3)
    requires Exec(program[3], Bind(Bind(Bind(st, r1, v1), r2, v2), r3, v3), caller) == Bind4(st, r1, v1, r2, v2, r3, v3, r4, v4)
    ensures Run(program, st, caller) == Bind4(st, r1, v1, r2, v2, r3, v3, r4, v4)
  {
    hide Exec, Run, Bind;
    assert program == [program[0], program[1], program[2], program[3]];
    Run4(program[0], program[1], program[2], program[3], st, caller);
  }

  // -------- radix 2

  function Radix2(ins: seq<Ref>, p: Prefix): seq<Stmt>
    requires |ins| == 2
  {
    [DeclareSum(Ref(p, Out, 0), ins[0], ins[1]), DeclareDiff(Ref(p, Out, 1), ins[0], ins[1])]
  }

  lemma Radix2Transforms(ins: seq<Ref>, p: Prefix, t: Turn, inverse: bool, x: seq<Complex>, st: State, caller: Caller)
    requires IsTurn(t) && st.ok && |ins| == 2 && Carries(st.env, ins, x) && Unused(st.env, p)
    ensures Transforms(st, Run(Radix2(ins, p), st, caller), p, t, inverse, x)
  {
    hide IsTurn, Run, Exec, Dft, Add, Sub, Bind, DeclareSum, DeclareDiff;
    var a, b := Ref(p, Out, 0), Ref(p, Out, 1);
    Run2(DeclareSum(a, ins[0], ins[1]), DeclareDiff(b, ins[0], ins[1]), st, caller);
    assert Holds(st.env, ins[0], x[0]) && Holds(st.env, ins[1], x[1]);
    DeclareSumRuns(a, ins[0], ins[1], x[0], x[1], st, caller);
    var mid := Bind(st, a, Add(x[0], x[1]));
    BindGrows(st, p, a, Add(x[0], x[1]));
    DeclareSumRuns(b, ins[0], ins[1], x[0], x[1], mid, caller);
    BindGrows(mid, p, b, Sub(x[0], x[1]));
    GrowsTransitive(st, mid, Bind(mid, b, Sub(x[0], x[1])), p);
    TwoPointDft(t, inverse, x);
  }

  lemma TwoPointDft(t: Turn, inverse: bool, x: seq<Complex>)
    requires IsTurn(t) && |x| == 2
    ensures Dft(t, inverse, x, 0) == Add(x[0], x[1]) && Dft(t, inverse, x, 1) == Sub(x[0], x[1])
  {
    hide IsTurn, Dft, Rot;
    HalfTurns(t, inverse);
    TwoTerms(t, inverse, x, 0);
    TwoTerms(t, inverse, x, 1);
  }

  lemma HalfTurns(t: Turn, inverse: bool)
    requires IsTurn(t)
    ensures Rot(t, inverse, 0, 2) == ONE && Rot(t, inverse, 1, 2) == Complex(-1.0, 0.0)
  {
    hide IsTurn;
    HalfTurn(t);
    ClosesAt(t, 2);
    MirrorsAt(t, 1, 2);
  }

  lemma TwoTerms(t: Turn, inverse: bool, x: seq<Complex>, k: int)
    requires |x| == 2
    ensures Dft(t, inverse, x, k) == Add(Mul(x[0], Rot(t, inverse, 0, 2)), Mul(x[1], Rot(t, inverse, k, 2)))
  {
    var f := DftTerm(t, inverse, x, k);
    assert 0 * k == 0 && 1 * k == k;
    assert Sum(f, 1) == f(0);
  }

  // -------- radix 4

  function Radix4Sums(ins: seq<Ref>, p: Prefix): seq<Stmt>
    requires |ins| == 4
  {
    [DeclareSum(Ref(p, SumOf, 0), ins[0], ins[2]), DeclareDiff(Ref(p, DiffOf, 0), ins[0], ins[2]),
     DeclareSum(Ref(p, SumOf, 1), ins[1], ins[3]), DeclareDiff(Ref(p, DiffOf, 1), ins[1], ins[3])]
  }

  function Radix4Outs(p: Prefix, inverse: bool): seq<Stmt> {
    [DeclareSum(Ref(p, Out, 0), Ref(p, SumOf, 0), Ref(p, SumOf, 1)),
     DeclareDiff(Ref(p, Out, 2), Ref(p, SumOf, 0), Ref(p, SumOf, 1)),
     DeclareQuarter(Ref(p, Out, 1), Ref(p, DiffOf, 0), Ref(p, DiffOf, 1), inverse),
     DeclareQuarter(Ref(p, Out, 3), Ref(p, DiffOf, 0), Ref(p, DiffOf, 1), !inverse)]
  }

  function Radix4(ins: seq<Ref>, p: Prefix, inverse: bool): seq<Stmt>
    requires |ins| == 4
  {
    Radix4Sums(ins, p) + Radix4Outs(p, inverse)
  }

  lemma Radix4SumsRun(ins: seq<Ref>, p: Prefix, x: seq<Complex>, st: State, caller: Caller)
    requires st.ok && |ins| == 4 && Carries(st.env, ins, x) && Unused(st.env, p)
    ensures Run(Radix4Sums(ins, p), st, caller)
            == Bind4(st, Ref(p, SumOf, 0), Add(x[0], x[2]), Ref(p, DiffOf, 0), Sub(x[0], x[2]),
                     Ref(p, SumOf, 1), Add(x[1], x[3]), Ref(p, DiffOf, 1), Sub(x[1], x[3]))
  {
    assert Holds(st.env, ins[0], x[0]) && Holds(st.env, ins[1], x[1])
        && Holds(st.env, ins[2], x[2]) && Holds(st.env, ins[3], x[3]);
    Radix4SumsBind(ins, p, x, st, caller);
  }

  lemma Radix4SumsBind(ins: seq<Ref>, p: Prefix, x: seq<Complex>, st: State, caller: Caller)
    requires st.ok && |ins| == |x| == 4
    requires Holds(st.env, ins[0], x[0]) && Holds(st.env, ins[1], x[1]) && Holds(st.env, ins[2], x[2]) && Holds(st.env, ins[3], x[3])
    requires Ref(p, SumOf, 0) !in st.env && Ref(p, DiffOf, 0) !in st.env && Ref(p, SumOf, 1) !in st.env && Ref(p, DiffOf, 1) !in st.env
    ensures Run(Radix4Sums(ins, p), st, caller)
            == Bind4(st, Ref(p, SumOf, 0), Add(x[0], x[2]), Ref(p, DiffOf, 0), Sub(x[0], x[2]),
                     Ref(p, SumOf, 1), Add(x[1], x[3]), Ref(p, DiffOf, 1), Sub(x[1], x[3]))
  {
    hide Run, Exec, DeclareSum, DeclareDiff, Add, Sub;
    var r0, r1, r2, r3 := Ref(p, SumOf, 0), Ref(p, DiffOf, 0), Ref(p, SumOf, 1), Ref(p, DiffOf, 1);
    DeclareSumRuns(r0, ins[0], ins[2], x[0], x[2], st, caller);
    var s1 := Bind(st, r0, Add(x[0], x[2]));
    DeclareSumRuns(r1, ins[0], ins[2], x[0], x[2], s1, caller);
    var s2 := Bind(s1, r1, Sub(x[0], x[2]));
    DeclareSumRuns(r2, ins[1], ins[3], x[1], x[3], s2, caller);
    var s3 := Bind(s2, r2, Add(x[1], x[3]));
    DeclareSumRuns(r3, ins[1], ins[3], x[1], x[3], s3, caller);
    Run4Binds(Radix4Sums(ins, p), st, caller, r0, Add(x[0], x[2]), r1, Sub(x[0], x[2]), r2, Add(x[1], x[3]), r3, Sub(x[1], x[3]));
  }

  lemma Radix4OutsRun(p: Prefix, inverse: bool, st: State, caller: Caller,
                      a0: Complex, a1: Complex, b0: Complex, b1: Complex)
    requires st.ok && (forall k :: Ref(p, Out, k) !in st.env)
    requires Holds(st.env, Ref(p, SumOf, 0), a0) && Holds(st.env, Ref(p, DiffOf, 0), a1)
    requires Holds(st.env, Ref(p, SumOf, 1), b0) && Holds(st.env, Ref(p, DiffOf, 1), b1)
    ensures Run(Radix4Outs(p, inverse), st, caller)
            == Bind4(st, Ref(p, Out, 0), Add(a0, b0), Ref(p, Out, 2), Sub(a0, b0),
                     Ref(p, Out, 1), Quarter(a1, b1, inverse), Ref(p, Out, 3), Quarter(a1, b1, !inverse))
  {
    hide Run, Exec, DeclareSum, DeclareDiff, DeclareQuarter, Add, Sub, Quarter;
    var sa, sb, da, db := Ref(p, SumOf, 0), Ref(p, SumOf, 1), Ref(p, DiffOf, 0), Ref(p, DiffOf, 1);
    DeclareSumRuns(Ref(p, Out, 0), sa, sb, a0, b0, st, caller);
    var s1 := Bind(st, Ref(p, Out, 0), Add(a0, b0));
    DeclareSumRuns(Ref(p, Out, 2), sa, sb, a0, b0, s1, caller);
    var s2 := Bind(s1, Ref(p, Out, 2), Sub(a0, b0));
    DeclareQuarterRuns(Ref(p, Out, 1), da, db, inverse, a1, b1, s2, caller);
    var s3 := Bind(s2, Ref(p, Out, 1), Quarter(a1, b1, inverse));
    DeclareQuarterRuns(Ref(p, Out, 3), da, db, !inverse, a1, b1, s3, caller);
    Run4Binds(Radix4Outs(p, inverse), st, caller, Ref(p, Out, 0), Add(a0, b0), Ref(p, Out, 2), Sub(a0, b0),
              Ref(p, Out, 1), Quarter(a1, b1, inverse), Ref(p, Out, 3), Quarter(a1, b1, !inverse));
  }

  lemma Radix4Runs(ins: seq<Ref>, p: Prefix, inverse: bool, x: seq<Complex>, st: State, caller: Caller)
    requires st.ok && |ins| == 4 && Carries(st.env, ins, x) && Unused(st.env, p)
    ensures var st' := Run(Radix4(ins, p, inverse), st, caller);
            && Grows(st, st', p)
            && Holds(st'.env, Ref(p, Out, 0), Add(Add(x[0], x[2]), Add(x[1], x[3])))
            && Holds(st'.env, Ref(p, Out, 2), Sub(Add(x[0], x[2]), Add(x[1], x[3])))
            && Holds(st'.env, Ref(p, Out, 1), Quarter(Sub(x[0], x[2]), Sub(x[1], x[3]), inverse))
            && Holds(st'.env, Ref(p, Out, 3), Quarter(Sub(x[0], x[2]), Sub(x[1], x[3]), !inverse))
  {
    hide Run, Radix4Sums, Radix4Outs, Add, Sub, Quarter, Bind4;
    var a0, a1, b0, b1 := Add(x[0], x[2]), Sub(x[0], x[2]), Add(x[1], x[3]), Sub(x[1], x[3]);
    var mid := Run(Radix4Sums(ins, p), st, caller);
    RunAppend(Radix4Sums(ins, p), Radix4Outs(p, inverse), st, caller);
    Radix4SumsRun(ins, p, x, st, caller);
    Bind4Grows(st, p, Ref(p, SumOf, 0), a0, Ref(p, DiffOf, 0), a1, Ref(p, SumOf, 1), b0, Ref(p, DiffOf, 1), b1);
    Radix4OutsRun(p, inverse, mid, caller, a0, a1, b0, b1);
    Bind4Grows(mid, p, Ref(p, Out, 0), Add(a0, b0), Ref(p, Out, 2), Sub(a0, b0),
               Ref(p, Out, 1), Quarter(a1, b1, inverse), Ref(p, Out, 3), Quarter(a1, b1, !inverse));
    GrowsTransitive(st, mid, Run(Radix4Outs(p, inverse), mid, caller), p);
  }

  lemma Radix4Transforms(ins: seq<Ref>, p: Prefix, t: Turn, inverse: bool, x: seq<Complex>, st: State, caller: Caller)
    requires IsTurn(t) && st.ok && |ins| == 4 && Carries(st.env, ins, x) && Unused(st.env, p)
    ensures Transforms(st, Run(Radix4(ins, p, inverse), st, caller), p, t, inverse, x)
  {
    hide IsTurn, Run, Radix4, Dft, Add, Sub, Quarter, Unused;
    Radix4Runs(ins, p, inverse, x, st, caller);
    FourPointEven(t, inverse, x);
    FourPointOdd(t, inverse, x);
  }

  lemma FourPointEven(t: Turn, inverse: bool, x: seq<Complex>)
    requires IsTurn(t) && |x| == 4
    ensures Dft(t, inverse, x, 0) == Add(Add(x[0], x[2]), Add(x[1], x[3]))
    ensures Dft(t, inverse, x, 2) == Sub(Add(x[0], x[2]), Add(x[1], x[3]))
  {
    hide IsTurn, Dft, Rot;
    QuarterTurns(t, inverse);
    assert Dft(t, inverse, x, 0) == Add(Add(x[0], x[2]), Add(x[1], x[3])) by {
      FourTerms(t, inverse, x, 0);
    }
    assert Dft(t, inverse, x, 2) == Sub(Add(x[0], x[2]), Add(x[1], x[3])) by {
      QuarterTurnsWrap(t, inverse);
      FourTerms(t, inverse, x, 2);
    }
  }

  lemma FourPointOdd(t: Turn, inverse: bool, x: seq<Complex>)
    requires IsTurn(t) && |x| == 4
    ensures Dft(t, inverse, x, 1) == Quarter(Sub(x[0], x[2]), Sub(x[1], x[3]), inverse)
    ensures Dft(t, inverse, x, 3) == Quarter(Sub(x[0], x[2]), Sub(x[1], x[3]), !inverse)
  {
    hide IsTurn, Dft, Rot;
    FourTerms(t, inverse, x, 1);
    FourTerms(t, inverse, x, 3);
    QuarterTurns(t, inverse);
    QuarterTurnsWrap(t, inverse);
  }

  lemma FourTerms(t: Turn, inverse: bool, x: seq<Complex>, k: int)
    requires |x| == 4
    ensures Dft(t, inverse, x, k)
            == Add(Add(Mul(x[0], Rot(t, inverse, 0 * k, 4)), Mul(x[1], Rot(t, inverse, 1 * k, 4))),
                   Add(Mul(x[2], Rot(t, inverse, 2 * k, 4)), Mul(x[3], Rot(t, inverse, 3 * k, 4))))
  {
    var f := DftTerm(t, inverse, x, k);
    assert Sum(f, 2) == Add(f(0), f(1)) by {
      assert Sum(f, 1) == f(0);
    }
    assert Sum(f, 4) == Add(Add(Sum(f, 2), f(2)), f(3));
  }

  lemma QuarterTurns(t: Turn, inverse: bool)
    requires IsTurn(t)
    ensures Rot(t, inverse, 0, 4) == ONE && Rot(t, inverse, 1, 4) == Complex(0.0, if inverse then 1.0 else -1.0)
    ensures Rot(t, inverse, 2, 4) == Complex(-1.0, 0.0) && Rot(t, inverse, 3, 4) == Conj(Rot(t, inverse, 1, 4))
  {
    hide IsTurn, Mul;
    QuarterTurn(t);
    ClosesAt(t, 4);
    MirrorsAt(t, 1, 4);
    RotAdd(t, inverse, 1, 1, 4);
    RotAdd(t, inverse, 2, 1, 4);
    QuarterProducts(if inverse then 1.0 else -1.0);
  }

  lemma QuarterProducts(s: real)
    requires s == 1.0 || s == -1.0
    ensures Mul(Complex(0.0, s), Complex(0.0, s)) == Complex(-1.0, 0.0)
    ensures Mul(Complex(-1.0, 0.0), Complex(0.0, s)) == Conj(Complex(0.0, s))
  {
  }

  lemma QuarterTurnsWrap(t: Turn, inverse: bool)
    requires IsTurn(t)
    ensures Rot(t, inverse, 4, 4) == Rot(t, inverse, 0, 4) && Rot(t, inverse, 6, 4) == Rot(t, inverse, 2, 4)
    ensures Rot(t, inverse, 9, 4) == Rot(t, inverse, 1, 4)
  {
    hide IsTurn;
    RotPeriod(t, inverse, 0, 4);
    RotPeriod(t, inverse, 2, 4);
    RotPeriod(t, inverse, 5, 4);
    RotPeriod(t, inverse, 1, 4);
  }
}
