/** The fixed radix-3 and radix-5 emitters. */
module OddButterflies {
  import opened Complexes
  import opened Fourier
  import opened StraightLine
  import opened SmallButterflies

  // -------- radix 3

  function DeclareBase3(p: Prefix, x0: Ref): Stmt {
    var sum := Ref(p, SumOf, 1);
    Declare(Ref(p, Base, 1), Minus(Re(x0), Times(Re(sum), Const(0.5))), Minus(Im(x0), Times(Im(sum), Const(0.5))))
  }

  function DeclareOut3(p: Prefix, k: nat, s: real, plusJ: bool): Stmt {
    var base, diff := Ref(p, Base, 1), Ref(p, DiffOf, 1);
    if plusJ then Declare(Ref(p, Out, k), Minus(Re(base), Times(Im(diff), Const(s))), Plus(Im(base), Times(Re(diff), Const(s))))
    else Declare(Ref(p, Out, k), Plus(Re(base), Times(Im(diff), Const(s))), Minus(Im(base), Times(Re(diff), Const(s))))
  }

  function Radix3Head(ins: seq<Ref>, p: Prefix): seq<Stmt>
    requires |ins| == 3
  {
    [DeclareSum(Ref(p, SumOf, 1), ins[1], ins[2]), DeclareDiff(Ref(p, DiffOf, 1), ins[1], ins[2]),
     DeclareBase3(p, ins[0]), DeclareSum(Ref(p, Out, 0), ins[0], Ref(p, SumOf, 1))]
  }

  function Radix3(ins: seq<Ref>, p: Prefix, inverse: bool, s: real): seq<Stmt>
    requires |ins| == 3
  {
    Radix3Head(ins, p) + [DeclareOut3(p, 1, s, inverse), DeclareOut3(p, 2, s, !inverse)]
  }

  function Base3(x0: Complex, sum: Complex): Complex {
    Complex(x0.re - sum.re * 0.5, x0.im - sum.im * 0.5)
  }

  function Turned3(base: Complex, diff: Complex, s: real, plusJ: bool): Complex {
    if plusJ then Complex(base.re - diff.im * s, base.im + diff.re * s)
    else Complex(base.re + diff.im * s, base.im - diff.re * s)
  }

  lemma Radix3HeadRuns(ins: seq<Ref>, p: Prefix, x: seq<Complex>, st: State, caller: Caller)
    requires st.ok && |ins| == 3 && Carries(st.env, ins, x) && Unused(st.env, p)
    ensures Run(Radix3Head(ins, p), st, caller)
            == Bind4(st, Ref(p, SumOf, 1), Add(x[1], x[2]), Ref(p, DiffOf, 1), Sub(x[1], x[2]),
                     Ref(p, Base, 1), Base3(x[0], Add(x[1], x[2])), Ref(p, Out, 0), Add(x[0], Add(x[1], x[2])))
  {
    assert Holds(st.env, ins[0], x[0]) && Holds(st.env, ins[1], x[1]) && Holds(st.env, ins[2], x[2]);
    Radix3HeadBinds(ins, p, x, st, caller);
  }

  lemma Radix3HeadBinds(ins: seq<Ref>, p: Prefix, x: seq<Complex>, st: State, caller: Caller)
    requires st.ok && |ins| == |x| == 3
    requires Holds(st.env, ins[0], x[0]) && Holds(st.env, ins[1], x[1]) && Holds(st.env, ins[2], x[2])
    requires Ref(p, SumOf, 1) !in st.env && Ref(p, DiffOf, 1) !in st.env && Ref(p, Base, 1) !in st.env && Ref(p, Out, 0) !in st.env
    ensures Run(Radix3Head(ins, p), st, caller)
            == Bind4(st, Ref(p, SumOf, 1), Add(x[1], x[2]), Ref(p, DiffOf, 1), Sub(x[1], x[2]),
                     Ref(p, Base, 1), Base3(x[0], Add(x[1], x[2])), Ref(p, Out, 0), Add(x[0], Add(x[1], x[2])))
  {
    hide Run, Exec, DeclareSum, DeclareDiff, DeclareBase3, Add, Sub, Base3;
    var sum, diff, base := Add(x[1], x[2]), Sub(x[1], x[2]), Base3(x[0], Add(x[1], x[2]));
    var r0, r1, r2 := Ref(p, SumOf, 1), Ref(p, DiffOf, 1), Ref(p, Base, 1);
    DeclareSumRuns(r0, ins[1], ins[2], x[1], x[2], st, caller);
    var s1 := Bind(st, r0, sum);
    DeclareSumRuns(r1, ins[1], ins[2], x[1], x[2], s1, caller);
    var s2 := Bind(s1, r1, diff);
    DeclareBase3Runs(p, ins[0], x[0], sum, s2, caller);
    var s3 := Bind(s2, r2, base);
    DeclareSumRuns(Ref(p, Out, 0), ins[0], r0, x[0], sum, s3, caller);
    Run4Binds(Radix3Head(ins, p), st, caller, r0, sum, r1, diff, r2, base, Ref(p, Out, 0), Add(x[0], sum));
  }

  lemma DeclareBase3Runs(p: Prefix, x0: Ref, v: Complex, sum: Complex, st: State, caller: Caller)
    requires st.ok && Ref(p, Base, 1) !in st.env && Holds(st.env, x0, v) && Holds(st.env, Ref(p, SumOf, 1), sum)
    ensures Exec(DeclareBase3(p, x0), st, caller) == Bind(st, Ref(p, Base, 1), Base3(v, sum))
  {
    EvalScaled(Ref(p, SumOf, 1), 0.5, st.env);
    DeclareRuns(DeclareBase3(p, x0), st, Base3(v, sum), caller);
  }

  lemma DeclareOut3Runs(p: Prefix, k: nat, v: real, plusJ: bool, base: Complex, diff: Complex, st: State, caller: Caller)
    requires st.ok && Ref(p, Out, k) !in st.env
    requires Holds(st.env, Ref(p, Base, 1), base) && Holds(st.env, Ref(p, DiffOf, 1), diff)
    ensures Exec(DeclareOut3(p, k, v, plusJ), st, caller) == Bind(st, Ref(p, Out, k), Turned3(base, diff, v, plusJ))
  {
    EvalScaled(Ref(p, DiffOf, 1), v, st.env);
    DeclareRuns(DeclareOut3(p, k, v, plusJ), st, Turned3(base, diff, v, plusJ), caller);
  }

  lemma Radix3OutsRun(p: Prefix, inverse: bool, v: real, base: Complex, diff: Complex, st: State, caller: Caller)
    requires st.ok && Holds(st.env, Ref(p, Base, 1), base) && Holds(st.env, Ref(p, DiffOf, 1), diff)
    requires Ref(p, Out, 1) !in st.env && Ref(p, Out, 2) !in st.env
    ensures Run([DeclareOut3(p, 1, v, inverse), DeclareOut3(p, 2, v, !inverse)], st, caller)
            == Bind(Bind(st, Ref(p, Out, 1), Turned3(base, diff, v, inverse)), Ref(p, Out, 2), Turned3(base, diff, v, !inverse))
  {
    Run2(DeclareOut3(p, 1, v, inverse), DeclareOut3(p, 2, v, !inverse), st, caller);
    DeclareOut3Runs(p, 1, v, inverse, base, diff, st, caller);
    DeclareOut3Runs(p, 2, v, !inverse, base, diff, Bind(st, Ref(p, Out, 1), Turned3(base, diff, v, inverse)), caller);
  }

  lemma Radix3Runs(ins: seq<Ref>, p: Prefix, inverse: bool, s: real, x: seq<Complex>, st: State, caller: Caller)
    requires st.ok && |ins| == 3 && Carries(st.env, ins, x) && Unused(st.env, p)
    ensures var st' := Run(Radix3(ins, p, inverse, s), st, caller);
            var base, diff := Base3(x[0], Add(x[1], x[2])), Sub(x[1], x[2]);
            && Grows(st, st', p)
            && Holds(st'.env, Ref(p, Out, 0), Add(x[0], Add(x[1], x[2])))
            && Holds(st'.env, Ref(p, Out, 1), Turned3(base, diff, s, inverse))
            && Holds(st'.env, Ref(p, Out, 2), Turned3(base, diff, s, !inverse))
  {
    hide Run, Radix3Head, DeclareOut3, Base3, Turned3, Add, Sub, Bind, Bind4, OnlyTouches;
    var sum, diff := Add(x[1], x[2]), Sub(x[1], x[2]);
    var base := Base3(x[0], sum);
    var mid := Run(Radix3Head(ins, p), st, caller);
    RunAppend(Radix3Head(ins, p), [DeclareOut3(p, 1, s, inverse), DeclareOut3(p, 2, s, !inverse)], st, caller);
    Radix3HeadRuns(ins, p, x, st, caller);
    Bind4Grows(st, p, Ref(p, SumOf, 1), sum, Ref(p, DiffOf, 1), diff, Ref(p, Base, 1), base, Ref(p, Out, 0), Add(x[0], sum));
    Radix3OutsRun(p, inverse, s, base, diff, mid, caller);
    var last := Bind(mid, Ref(p, Out, 1), Turned3(base, diff, s, inverse));
    BindGrows(mid, p, Ref(p, Out, 1), Turned3(base, diff, s, inverse));
    BindGrows(last, p, Ref(p, Out, 2), Turned3(base, diff, s, !inverse));
    GrowsTransitive(st, mid, last, p);
    GrowsTransitive(st, last, Bind(last, Ref(p, Out, 2), Turned3(base, diff, s, !inverse)), p);
  }

  lemma Radix3Transforms(ins: seq<Ref>, p: Prefix, c: Constants, inverse: bool, x: seq<Complex>, st: State, caller: Caller)
    requires c.Valid() && st.ok && |ins| == 3 && Carries(st.env, ins, x) && Unused(st.env, p)
    ensures Transforms(st, Run(Radix3(ins, p, inverse, c.halfRoot3), st, caller), p, c.turn, inverse, x)
  {
    hide IsTurn, Run, Radix3, Dft, Base3, Turned3, Add, Sub, Unused;
    Radix3Runs(ins, p, inverse, c.halfRoot3, x, st, caller);
    ThreePointDft(c, inverse, x);
  }

  lemma ThreePointDft(c: Constants, inverse: bool, x: seq<Complex>)
    requires c.Valid() && |x| == 3
    ensures var base, diff := Base3(x[0], Add(x[1], x[2])), Sub(x[1], x[2]);
            && Dft(c.turn, inverse, x, 0) == Add(x[0], Add(x[1], x[2]))
            && Dft(c.turn, inverse, x, 1) == Turned3(base, diff, c.halfRoot3, inverse)
            && Dft(c.turn, inverse, x, 2) == Turned3(base, diff, c.halfRoot3, !inverse)
  {
    hide IsTurn, Dft, PairTerm, Turned3, Base3, Add, Sub;
    ThirdTurn(c.turn);
    forall k | k in {1, 2}
      ensures Dft(c.turn, inverse, x, k)
              == Turned3(Base3(x[0], Add(x[1], x[2])), Sub(x[1], x[2]), c.halfRoot3, if k == 1 then inverse else !inverse)
    {
      ThreeTerms(c.turn, inverse, x, k);
      HalvedPair(inverse, x[0], Add(x[1], x[2]), Sub(x[1], x[2]), c.halfRoot3);
    }
    ClosesAt(c.turn, 3);
    ThreeTerms(c.turn, inverse, x, 0);
    UnturnedPair(inverse, Add(x[1], x[2]), Sub(x[1], x[2]));
  }

  // A pair at angle zero contributes its sum.
  lemma UnturnedPair(inverse: bool, p: Complex, m: Complex)
    ensures PairTerm(inverse, p, m, ONE.re, ONE.im) == p
  {
  }

  lemma HalvedPair(inverse: bool, x0: Complex, p: Complex, m: Complex, s: real)
    ensures Add(x0, PairTerm(inverse, p, m, -0.5, s)) == Turned3(Base3(x0, p), m, s, inverse)
    ensures Add(x0, PairTerm(inverse, p, m, -0.5, -s)) == Turned3(Base3(x0, p), m, s, !inverse)
  {
    assert m.re * -s == -(m.re * s) && m.im * -s == -(m.im * s);
  }

  lemma ThreeTerms(t: Turn, inverse: bool, x: seq<Complex>, k: int)
    requires IsTurn(t) && |x| == 3
    ensures Dft(t, inverse, x, k)
            == Add(x[0], PairTerm(inverse, Add(x[1], x[2]), Sub(x[1], x[2]), t(k, 3).re, t(k, 3).im))
  {
    hide IsTurn;
    SymmetricDft(t, inverse, x, k, 1);
    var f := Pairs(t, inverse, x, k);
    assert Accumulate(x[0], f, 1) == Add(Accumulate(x[0], f, 0), f(1));
    assert k * 1 == k;
  }

  // -------- radix 5

  /** cos(2 pi / 5), sin(2 pi / 5) and sin(pi / 5), as the generator evaluates them. */
  datatype Fifths = Fifths(qa: real, qb: real, qd: real)

  function FifthsOf(t: Turn): Fifths {
    Fifths(t(1, 5).re, t(1, 5).im, t(1, 10).im)
  }

  function Radix5Sums(ins: seq<Ref>, p: Prefix): seq<Stmt>
    requires |ins| == 5
  {
    [DeclareSum(Ref(p, SumOf, 1), ins[1], ins[4]), DeclareSum(Ref(p, SumOf, 2), ins[2], ins[3]),
     DeclareDiff(Ref(p, DiffOf, 1), ins[1], ins[4]), DeclareDiff(Ref(p, DiffOf, 2), ins[2], ins[3])]
  }

  // r0 - far * 0.5 + ((a - b) + (d - c)) * qa, on both components.
  function DeclareBase5(dst: Ref, x0: Ref, far: Ref, a: Ref, b: Ref, c: Ref, d: Ref, qa: real): Stmt {
    Declare(dst,
      Plus(Minus(Re(x0), Times(Re(far), Const(0.5))), Times(Plus(Minus(Re(a), Re(b)), Minus(Re(d), Re(c))), Const(qa))),
      Plus(Minus(Im(x0), Times(Im(far), Const(0.5))), Times(Plus(Minus(Im(a), Im(b)), Minus(Im(d), Im(c))), Const(qa))))
  }

  function Radix5Bases(ins: seq<Ref>, p: Prefix, q: Fifths): seq<Stmt>
    requires |ins| == 5
  {
    var s1, s2, d1, d2 := Ref(p, SumOf, 1), Ref(p, SumOf, 2), Ref(p, DiffOf, 1), Ref(p, DiffOf, 2);
    [Declare(Ref(p, Out, 0), Plus(Plus(Re(ins[0]), Re(s1)), Re(s2)), Plus(Plus(Im(ins[0]), Im(s1)), Im(s2))),
     DeclareBase5(Ref(p, Base, 1), ins[0], s2, ins[1], ins[2], ins[3], ins[4], q.qa),
     DeclareBase5(Ref(p, Base, 2), ins[0], s1, ins[2], ins[1], ins[4], ins[3], q.qa)]
  }

  function Radix5Crosses(p: Prefix, q: Fifths): seq<Stmt> {
    var d1, d2 := Ref(p, DiffOf, 1), Ref(p, DiffOf, 2);
    [Declare(Ref(p, Cross, 1), Plus(Times(Im(d1), Const(q.qb)), Times(Im(d2), Const(q.qd))),
                               Plus(Times(Re(d1), Const(q.qb)), Times(Re(d2), Const(q.qd)))),
     Declare(Ref(p, Cross, 2), Plus(Times(Neg(Im(d2)), Const(q.qb)), Times(Im(d1), Const(q.qd))),
                               Plus(Times(Neg(Re(d2)), Const(q.qb)), Times(Re(d1), Const(q.qd))))]
  }

  // The base plus, or minus, its cross term: the cross's parts are already exchanged.
  function DeclareOut5(p: Prefix, k: nat, j: nat, plusJ: bool): Stmt {
    var b, c := Ref(p, Base, j), Ref(p, Cross, j);
    if plusJ then Declare(Ref(p, Out, k), Minus(Re(b), Re(c)), Plus(Im(b), Im(c)))
    else Declare(Ref(p, Out, k), Plus(Re(b), Re(c)), Minus(Im(b), Im(c)))
  }

  function Radix5Outs(p: Prefix, inverse: bool): seq<Stmt> {
    [DeclareOut5(p, 1, 1, inverse), DeclareOut5(p, 4, 1, !inverse),
     DeclareOut5(p, 2, 2, inverse), DeclareOut5(p, 3, 2, !inverse)]
  }

  function Radix5(ins: seq<Ref>, p: Prefix, inverse: bool, q: Fifths): seq<Stmt>
    requires |ins| == 5
  {
    Radix5Sums(ins, p) + (Radix5Bases(ins, p, q) + (Radix5Crosses(p, q) + Radix5Outs(p, inverse)))
  }

  function Base5(x0: Complex, far: Complex, a: Complex, b: Complex, c: Complex, d: Complex, qa: real): Complex {
    Complex(x0.re - far.re * 0.5 + ((a.re - b.re) + (d.re - c.re)) * qa,
            x0.im - far.im * 0.5 + ((a.im - b.im) + (d.im - c.im)) * qa)
  }

  function Cross1(d1: Complex, d2: Complex, q: Fifths): Complex {
    Complex(d1.im * q.qb + d2.im * q.qd, d1.re * q.qb + d2.re * q.qd)
  }

  function Cross2(d1: Complex, d2: Complex, q: Fifths): Complex {
    Complex(-d2.im * q.qb + d1.im * q.qd, -d2.re * q.qb + d1.re * q.qd)
  }

  function Crossed(b: Complex, c: Complex, plusJ: bool): Complex {
    if plusJ then Complex(b.re - c.re, b.im + c.im) else Complex(b.re + c.re, b.im - c.im)
  }

  lemma Radix5SumsRun(ins: seq<Ref>, p: Prefix, x: seq<Complex>, st: State, caller: Caller)
    requires st.ok && |ins| == 5 && Carries(st.env, ins, x) && Unused(st.env, p)
    ensures Run(Radix5Sums(ins, p), st, caller)
            == Bind4(st, Ref(p, SumOf, 1), Add(x[1], x[4]), Ref(p, SumOf, 2), Add(x[2], x[3]),
                     Ref(p, DiffOf, 1), Sub(x[1], x[4]), Ref(p, DiffOf, 2), Sub(x[2], x[3]))
  {
    assert Holds(st.env, ins[1], x[1]) && Holds(st.env, ins[2], x[2]);
    assert Holds(st.env, ins[3], x[3]) && Holds(st.env, ins[4], x[4]);
    Radix5SumsBind(ins, p, x, st, caller);
  }

  lemma Radix5SumsBind(ins: seq<Ref>, p: Prefix, x: seq<Complex>, st: State, caller: Caller)
    requires st.ok && |ins| == |x| == 5
    requires Holds(st.env, ins[1], x[1]) && Holds(st.env, ins[2], x[2]) && Holds(st.env, ins[3], x[3]) && Holds(st.env, ins[4], x[4])
    requires Ref(p, SumOf, 1) !in st.env && Ref(p, SumOf, 2) !in st.env && Ref(p, DiffOf, 1) !in st.env && Ref(p, DiffOf, 2) !in st.env
    ensures Run(Radix5Sums(ins, p), st, caller)
            == Bind4(st, Ref(p, SumOf, 1), Add(x[1], x[4]), Ref(p, SumOf, 2), Add(x[2], x[3]),
                     Ref(p, DiffOf, 1), Sub(x[1], x[4]), Ref(p, DiffOf, 2), Sub(x[2], x[3]))
  {
    hide Run, Exec, DeclareSum, DeclareDiff, Add, Sub;
    var r0, r1, r2, r3 := Ref(p, SumOf, 1), Ref(p, SumOf, 2), Ref(p, DiffOf, 1), Ref(p, DiffOf, 2);
    DeclareSumRuns(r0, ins[1], ins[4], x[1], x[4], st, caller);
    var s1 := Bind(st, r0, Add(x[1], x[4]));
    DeclareSumRuns(r1, ins[2], ins[3], x[2], x[3], s1, caller);
    var s2 := Bind(s1, r1, Add(x[2], x[3]));
    DeclareSumRuns(r2, ins[1], ins[4], x[1], x[4], s2, caller);
    var s3 := Bind(s2, r2, Sub(x[1], x[4]));
    DeclareSumRuns(r3, ins[2], ins[3], x[2], x[3], s3, caller);
    Run4Binds(Radix5Sums(ins, p), st, caller, r0, Add(x[1], x[4]), r1, Add(x[2], x[3]), r2, Sub(x[1], x[4]), r3, Sub(x[2], x[3]));
  }

  lemma Radix5SumsGrow(p: Prefix, x: seq<Complex>, st: State, st': State)
    requires st.ok && |x| == 5 && Unused(st.env, p)
    requires st' == Bind4(st, Ref(p, SumOf, 1), Add(x[1], x[4]), Ref(p, SumOf, 2), Add(x[2], x[3]),
                          Ref(p, DiffOf, 1), Sub(x[1], x[4]), Ref(p, DiffOf, 2), Sub(x[2], x[3]))
    ensures Grows(st, st', p) && HasSums5(st'.env, p, x)
    ensures forall r :: r in st.env ==> Holds(st'.env, r, st.env[r])
    ensures forall r: Ref :: r in st'.env && r.prefix == p ==> r.tag in {SumOf, DiffOf}
  {
    Bind4Grows(st, p, Ref(p, SumOf, 1), Add(x[1], x[4]), Ref(p, SumOf, 2), Add(x[2], x[3]),
               Ref(p, DiffOf, 1), Sub(x[1], x[4]), Ref(p, DiffOf, 2), Sub(x[2], x[3]));
  }

  ghost predicate HasSums5(env: Env, p: Prefix, x: seq<Complex>)
    requires |x| == 5
  {
    && Holds(env, Ref(p, SumOf, 1), Add(x[1], x[4])) && Holds(env, Ref(p, SumOf, 2), Add(x[2], x[3]))
    && Holds(env, Ref(p, DiffOf, 1), Sub(x[1], x[4])) && Holds(env, Ref(p, DiffOf, 2), Sub(x[2], x[3]))
  }

  lemma DeclareBase5Runs(s: Stmt, dst: Ref, x0: Ref, far: Ref, a: Ref, b: Ref, c: Ref, d: Ref, qa: real,
                         st: State, caller: Caller)
    requires s == DeclareBase5(dst, x0, far, a, b, c, d, qa) && st.ok && dst !in st.env
    requires x0 in st.env && far in st.env && a in st.env && b in st.env && c in st.env && d in st.env
    ensures Exec(s, st, caller)
            == Bind(st, dst, Base5(st.env[x0], st.env[far], st.env[a], st.env[b], st.env[c], st.env[d], qa))
  {
    var env := st.env;
    EvalScaled(far, 0.5, env);
    EvalSpread(a, b, c, d, qa, env);
    assert Eval(Minus(Re(x0), Times(Re(far), Const(0.5))), env) == env[x0].re - env[far].re * 0.5;
    assert Eval(Minus(Im(x0), Times(Im(far), Const(0.5))), env) == env[x0].im - env[far].im * 0.5;
    DeclareRuns(s, st, Base5(env[x0], env[far], env[a], env[b], env[c], env[d], qa), caller);
  }

  lemma EvalSpread(a: Ref, b: Ref, c: Ref, d: Ref, qa: real, env: Env)
    requires a in env && b in env && c in env && d in env
    ensures var er := Times(Plus(Minus(Re(a), Re(b)), Minus(Re(d), Re(c))), Const(qa));
            Defined(er, env) && Eval(er, env) == ((env[a].re - env[b].re) + (env[d].re - env[c].re)) * qa
    ensures var ei := Times(Plus(Minus(Im(a), Im(b)), Minus(Im(d), Im(c))), Const(qa));
            Defined(ei, env) && Eval(ei, env) == ((env[a].im - env[b].im) + (env[d].im - env[c].im)) * qa
  {
    hide Eval, Defined;
    EvalDifference(a, b, env);
    EvalDifference(d, c, env);
    EvalScaledSum(Minus(Re(a), Re(b)), Minus(Re(d), Re(c)), qa, env);
    EvalScaledSum(Minus(Im(a), Im(b)), Minus(Im(d), Im(c)), qa, env);
  }

  lemma EvalDifference(a: Ref, b: Ref, env: Env)
    requires a in env && b in env
    ensures Defined(Minus(Re(a), Re(b)), env) && Eval(Minus(Re(a), Re(b)), env) == env[a].re - env[b].re
    ensures Defined(Minus(Im(a), Im(b)), env) && Eval(Minus(Im(a), Im(b)), env) == env[a].im - env[b].im
  {
  }

  lemma EvalScaledSum(a: Expr, b: Expr, v: real, env: Env)
    requires Defined(a, env) && Defined(b, env)
    ensures Defined(Times(Plus(a, b), Const(v)), env) && Eval(Times(Plus(a, b), Const(v)), env) == (Eval(a, env) + Eval(b, env)) * v
  {
    assert Eval(Plus(a, b), env) == Eval(a, env) + Eval(b, env) && Eval(Const(v), env) == v;
  }

  lemma Radix5BasesRun(ins: seq<Ref>, p: Prefix, q: Fifths, x: seq<Complex>, st: State, caller: Caller)
    requires st.ok && |ins| == 5 && Carries(st.env, ins, x) && HasSums5(st.env, p, x)
    requires Ref(p, Out, 0) !in st.env && Ref(p, Base, 1) !in st.env && Ref(p, Base, 2) !in st.env
    ensures Run(Radix5Bases(ins, p, q), st, caller)
            == Bind(Bind(Bind(st, Ref(p, Out, 0), Add(Add(x[0], Add(x[1], x[4])), Add(x[2], x[3]))),
                         Ref(p, Base, 1), Base5(x[0], Add(x[2], x[3]), x[1], x[2], x[3], x[4], q.qa)),
                    Ref(p, Base, 2), Base5(x[0], Add(x[1], x[4]), x[2], x[1], x[4], x[3], q.qa))
  {
    var s := Radix5Bases(ins, p, q);
    assert s == [s[0], s[1]] + [s[2]];
    RunAppend([s[0], s[1]], [s[2]], st, caller);
    Run2(s[0], s[1], st, caller);
    Run1(s[2], Exec(s[1], Exec(s[0], st, caller), caller), caller);
    assert Holds(st.env, ins[0], x[0]) && Holds(st.env, ins[1], x[1]) && Holds(st.env, ins[2], x[2]);
    assert Holds(st.env, ins[3], x[3]) && Holds(st.env, ins[4], x[4]);
    var s1, s2 := Ref(p, SumOf, 1), Ref(p, SumOf, 2);
    var v := Add(Add(x[0], Add(x[1], x[4])), Add(x[2], x[3]));
    assert Eval(Plus(Re(ins[0]), Re(s1)), st.env) == x[0].re + Add(x[1], x[4]).re;
    assert Eval(Plus(Im(ins[0]), Im(s1)), st.env) == x[0].im + Add(x[1], x[4]).im;
    DeclareRuns(s[0], st, v, caller);
    var st1 := Bind(st, Ref(p, Out, 0), v);
    DeclareBase5Runs(s[1], Ref(p, Base, 1), ins[0], s2, ins[1], ins[2], ins[3], ins[4], q.qa, st1, caller);
    var st2 := Bind(st1, Ref(p, Base, 1), Base5(x[0], Add(x[2], x[3]), x[1], x[2], x[3], x[4], q.qa));
    DeclareBase5Runs(s[2], Ref(p, Base, 2), ins[0], s1, ins[2], ins[1], ins[4], ins[3], q.qa, st2, caller);
  }

  lemma Radix5CrossesRun(p: Prefix, q: Fifths, d1: Complex, d2: Complex, st: State, caller: Caller)
    requires st.ok && Holds(st.env, Ref(p, DiffOf, 1), d1) && Holds(st.env, Ref(p, DiffOf, 2), d2)
    requires Ref(p, Cross, 1) !in st.env && Ref(p, Cross, 2) !in st.env
    ensures Run(Radix5Crosses(p, q), st, caller)
            == Bind(Bind(st, Ref(p, Cross, 1), Cross1(d1, d2, q)), Ref(p, Cross, 2), Cross2(d1, d2, q))
  {
    var s := Radix5Crosses(p, q);
    Run2(s[0], s[1], st, caller);
    EvalScaled(Ref(p, DiffOf, 1), q.qb, st.env);
    EvalScaled(Ref(p, DiffOf, 2), q.qd, st.env);
    DeclareRuns(s[0], st, Cross1(d1, d2, q), caller);
    var st1 := Bind(st, Ref(p, Cross, 1), Cross1(d1, d2, q));
    EvalScaled(Ref(p, DiffOf, 2), q.qb, st1.env);
    EvalScaled(Ref(p, DiffOf, 1), q.qd, st1.env);
    DeclareRuns(s[1], st1, Cross2(d1, d2, q), caller);
  }

  lemma Radix5OutsRun(p: Prefix, inverse: bool, b1: Complex, c1: Complex, b2: Complex, c2: Complex, st: State, caller: Caller)
    requires st.ok && Holds(st.env, Ref(p, Base, 1), b1) && Holds(st.env, Ref(p, Cross, 1), c1)
    requires Holds(st.env, Ref(p, Base, 2), b2) && Holds(st.env, Ref(p, Cross, 2), c2)
    requires forall k :: 1 <= k <= 4 ==> Ref(p, Out, k) !in st.env
    ensures Run(Radix5Outs(p, inverse), st, caller)
            == Bind4(st, Ref(p, Out, 1), Crossed(b1, c1, inverse), Ref(p, Out, 4), Crossed(b1, c1, !inverse),
                     Ref(p, Out, 2), Crossed(b2, c2, inverse), Ref(p, Out, 3), Crossed(b2, c2, !inverse))
  {
    hide Run, Exec, DeclareOut5, Crossed;
    DeclareOut5Runs(p, 1, 1, inverse, b1, c1, st, caller);
    var s1 := Bind(st, Ref(p, Out, 1), Crossed(b1, c1, inverse));
    DeclareOut5Runs(p, 4, 1, !inverse, b1, c1, s1, caller);
    var s2 := Bind(s1, Ref(p, Out, 4), Crossed(b1, c1, !inverse));
    DeclareOut5Runs(p, 2, 2, inverse, b2, c2, s2, caller);
    var s3 := Bind(s2, Ref(p, Out, 2), Crossed(b2, c2, inverse));
    DeclareOut5Runs(p, 3, 2, !inverse, b2, c2, s3, caller);
    Run4Binds(Radix5Outs(p, inverse), st, caller, Ref(p, Out, 1), Crossed(b1, c1, inverse), Ref(p, Out, 4), Crossed(b1, c1, !inverse),
              Ref(p, Out, 2), Crossed(b2, c2, inverse), Ref(p, Out, 3), Crossed(b2, c2, !inverse));
  }

  lemma DeclareOut5Runs(p: Prefix, k: nat, j: nat, plusJ: bool, b: Complex, c: Complex, st: State, caller: Caller)
    requires st.ok && Ref(p, Out, k) !in st.env && Holds(st.env, Ref(p, Base, j), b) && Holds(st.env, Ref(p, Cross, j), c)
    ensures Exec(DeclareOut5(p, k, j, plusJ), st, caller) == Bind(st, Ref(p, Out, k), Crossed(b, c, plusJ))
  {
    DeclareRuns(DeclareOut5(p, k, j, plusJ), st, Crossed(b, c, plusJ), caller);
  }

  /** The values radix 5 forms from its inputs before the outputs. */
  datatype Parts5 = Parts5(b1: Complex, b2: Complex, c1: Complex, c2: Complex)

  function PartsOf(x: seq<Complex>, q: Fifths): Parts5
    requires |x| == 5
  {
    Parts5(Base5(x[0], Add(x[2], x[3]), x[1], x[2], x[3], x[4], q.qa),
           Base5(x[0], Add(x[1], x[4]), x[2], x[1], x[4], x[3], q.qa),
           Cross1(Sub(x[1], x[4]), Sub(x[2], x[3]), q),
           Cross2(Sub(x[1], x[4]), Sub(x[2], x[3]), q))
  }

  ghost predicate HasParts5(env: Env, p: Prefix, x: seq<Complex>, q: Fifths)
    requires |x| == 5
  {
    var v := PartsOf(x, q);
    && Holds(env, Ref(p, Base, 1), v.b1) && Holds(env, Ref(p, Base, 2), v.b2)
    && Holds(env, Ref(p, Cross, 1), v.c1) && Holds(env, Ref(p, Cross, 2), v.c2)
    && Holds(env, Ref(p, Out, 0), Add(Add(x[0], Add(x[1], x[4])), Add(x[2], x[3])))
  }

  lemma Radix5TailBinds(ins: seq<Ref>, p: Prefix, q: Fifths, x: seq<Complex>, st: State, caller: Caller)
    requires st.ok && |ins| == 5 && Carries(st.env, ins, x) && HasSums5(st.env, p, x)
    requires forall r: Ref :: r in st.env && r.prefix == p ==> r.tag in {SumOf, DiffOf}
    ensures var v := PartsOf(x, q);
            Run(Radix5Bases(ins, p, q) + Radix5Crosses(p, q), st, caller)
            == Bind(Bind4(st, Ref(p, Out, 0), Add(Add(x[0], Add(x[1], x[4])), Add(x[2], x[3])),
                          Ref(p, Base, 1), v.b1, Ref(p, Base, 2), v.b2, Ref(p, Cross, 1), v.c1),
                    Ref(p, Cross, 2), v.c2)
  {
    RunAppend(Radix5Bases(ins, p, q), Radix5Crosses(p, q), st, caller);
    Radix5BasesRun(ins, p, q, x, st, caller);
    Radix5CrossesRun(p, q, Sub(x[1], x[4]), Sub(x[2], x[3]), Run(Radix5Bases(ins, p, q), st, caller), caller);
  }

  lemma Radix5TailRuns(ins: seq<Ref>, p: Prefix, q: Fifths, x: seq<Complex>, st: State, caller: Caller)
    requires st.ok && |ins| == 5 && Carries(st.env, ins, x) && HasSums5(st.env, p, x)
    requires forall r: Ref :: r in st.env && r.prefix == p ==> r.tag in {SumOf, DiffOf}
    ensures var st' := Run(Radix5Bases(ins, p, q) + Radix5Crosses(p, q), st, caller);
            && Grows(st, st', p) && HasParts5(st'.env, p, x, q)
            && (forall k :: 1 <= k <= 4 ==> Ref(p, Out, k) !in st'.env)
  {
    hide Run, Radix5Bases, Radix5Crosses, PartsOf, HasSums5, Add, Bind, Bind4, OnlyTouches;
    var v := PartsOf(x, q);
    var out0 := Add(Add(x[0], Add(x[1], x[4])), Add(x[2], x[3]));
    Radix5TailBinds(ins, p, q, x, st, caller);
    Bind4Grows(st, p, Ref(p, Out, 0), out0, Ref(p, Base, 1), v.b1, Ref(p, Base, 2), v.b2, Ref(p, Cross, 1), v.c1);
    var st1 := Bind4(st, Ref(p, Out, 0), out0, Ref(p, Base, 1), v.b1, Ref(p, Base, 2), v.b2, Ref(p, Cross, 1), v.c1);
    BindGrows(st1, p, Ref(p, Cross, 2), v.c2);
    GrowsTransitive(st, st1, Bind(st1, Ref(p, Cross, 2), v.c2), p);
  }

  lemma Radix5Runs(ins: seq<Ref>, p: Prefix, inverse: bool, q: Fifths, x: seq<Complex>, st: State, caller: Caller)
    requires st.ok && |ins| == 5 && Carries(st.env, ins, x) && Unused(st.env, p)
    ensures var st' := Run(Radix5(ins, p, inverse, q), st, caller);
            var v := PartsOf(x, q);
            && Grows(st, st', p)
            && Holds(st'.env, Ref(p, Out, 0), Add(Add(x[0], Add(x[1], x[4])), Add(x[2], x[3])))
            && Holds(st'.env, Ref(p, Out, 1), Crossed(v.b1, v.c1, inverse))
            && Holds(st'.env, Ref(p, Out, 4), Crossed(v.b1, v.c1, !inverse))
            && Holds(st'.env, Ref(p, Out, 2), Crossed(v.b2, v.c2, inverse))
            && Holds(st'.env, Ref(p, Out, 3), Crossed(v.b2, v.c2, !inverse))
  {
    hide Run, Radix5Sums, Radix5Bases, Radix5Crosses, Radix5Outs, PartsOf, Crossed, Bind4, OnlyTouches;
    var v := PartsOf(x, q);
    var head, middle, tail := Radix5Sums(ins, p), Radix5Bases(ins, p, q) + Radix5Crosses(p, q), Radix5Outs(p, inverse);
    assert Radix5(ins, p, inverse, q) == head + (middle + tail);
    var st1 := Run(head, st, caller);
    var st2 := Run(middle, st1, caller);
    RunAppend(head, middle + tail, st, caller);
    RunAppend(middle, tail, st1, caller);
    Radix5SumsRun(ins, p, x, st, caller);
    Radix5SumsGrow(p, x, st, st1);
    Radix5TailRuns(ins, p, q, x, st1, caller);
    Radix5OutsRun(p, inverse, v.b1, v.c1, v.b2, v.c2, st2, caller);
    Bind4Grows(st2, p, Ref(p, Out, 1), Crossed(v.b1, v.c1, inverse), Ref(p, Out, 4), Crossed(v.b1, v.c1, !inverse),
               Ref(p, Out, 2), Crossed(v.b2, v.c2, inverse), Ref(p, Out, 3), Crossed(v.b2, v.c2, !inverse));
    GrowsTransitive(st, st1, st2, p);
    GrowsTransitive(st, st2, Run(tail, st2, caller), p);
  }

  lemma Radix5Transforms(ins: seq<Ref>, p: Prefix, t: Turn, inverse: bool, x: seq<Complex>, st: State, caller: Caller)
    requires IsTurn(t) && st.ok && |ins| == 5 && Carries(st.env, ins, x) && Unused(st.env, p)
    ensures Transforms(st, Run(Radix5(ins, p, inverse, FifthsOf(t)), st, caller), p, t, inverse, x)
  {
    hide IsTurn, Run, Radix5, Dft, FifthsOf, PartsOf, Crossed, Add, Unused;
    Radix5Runs(ins, p, inverse, FifthsOf(t), x, st, caller);
    FivePointDft(t, inverse, x);
  }

  lemma FivePointDft(t: Turn, inverse: bool, x: seq<Complex>)
    requires IsTurn(t) && |x| == 5
    ensures var v := PartsOf(x, FifthsOf(t));
            && Dft(t, inverse, x, 0) == Add(Add(x[0], Add(x[1], x[4])), Add(x[2], x[3]))
            && Dft(t, inverse, x, 1) == Crossed(v.b1, v.c1, inverse)
            && Dft(t, inverse, x, 4) == Crossed(v.b1, v.c1, !inverse)
            && Dft(t, inverse, x, 2) == Crossed(v.b2, v.c2, inverse)
            && Dft(t, inverse, x, 3) == Crossed(v.b2, v.c2, !inverse)
  {
    hide IsTurn, Dft, PairTerm, Crossed, PartsOf, Add, Sub;
    var q := FifthsOf(t);
    FifthTurn(t);
    TenthTurn(t);
    FifthTurnWraps(t);
    FivePointZero(t, inverse, x);
    FiveTerms(t, inverse, x, 1);
    FirstFifths(inverse, x, q);
    FiveTerms(t, inverse, x, 2);
    SecondFifths(inverse, x, q);
    FiveTerms(t, inverse, x, 3);
    SecondFifths(!inverse, x, q);
    FiveTerms(t, inverse, x, 4);
    FirstFifths(!inverse, x, q);
    Flips(inverse, x, q);
  }

  lemma FivePointZero(t: Turn, inverse: bool, x: seq<Complex>)
    requires IsTurn(t) && |x| == 5
    ensures Dft(t, inverse, x, 0) == Add(Add(x[0], Add(x[1], x[4])), Add(x[2], x[3]))
  {
    hide IsTurn, Dft, PairTerm, Add, Sub;
    ClosesAt(t, 5);
    FiveTerms(t, inverse, x, 0);
    UnturnedPair(inverse, Add(x[1], x[4]), Sub(x[1], x[4]));
    UnturnedPair(inverse, Add(x[2], x[3]), Sub(x[2], x[3]));
  }

  // Mirroring both points turns the other way.
  lemma Flips(inverse: bool, x: seq<Complex>, q: Fifths)
    requires |x| == 5
    ensures var p1, p2, d1, d2 := Add(x[1], x[4]), Add(x[2], x[3]), Sub(x[1], x[4]), Sub(x[2], x[3]);
            && PairTerm(inverse, p1, d1, q.qa, -q.qb) == PairTerm(!inverse, p1, d1, q.qa, q.qb)
            && PairTerm(inverse, p2, d2, -0.5 - q.qa, -q.qd) == PairTerm(!inverse, p2, d2, -0.5 - q.qa, q.qd)
            && PairTerm(inverse, p1, d1, -0.5 - q.qa, -q.qd) == PairTerm(!inverse, p1, d1, -0.5 - q.qa, q.qd)
            && PairTerm(inverse, p2, d2, q.qa, q.qb) == PairTerm(!inverse, p2, d2, q.qa, -q.qb)
  {
    var p1, p2, d1, d2 := Add(x[1], x[4]), Add(x[2], x[3]), Sub(x[1], x[4]), Sub(x[2], x[3]);
    FlipPair(inverse, p1, d1, q.qa, q.qb);
    FlipPair(inverse, p2, d2, -0.5 - q.qa, q.qd);
    FlipPair(inverse, p1, d1, -0.5 - q.qa, q.qd);
    FlipPair(!inverse, p2, d2, q.qa, q.qb);
  }

  lemma FiveTerms(t: Turn, inverse: bool, x: seq<Complex>, k: int)
    requires IsTurn(t) && |x| == 5
    ensures Dft(t, inverse, x, k)
            == Add(Add(x[0], PairTerm(inverse, Add(x[1], x[4]), Sub(x[1], x[4]), t(k, 5).re, t(k, 5).im)),
                   PairTerm(inverse, Add(x[2], x[3]), Sub(x[2], x[3]), t(k * 2, 5).re, t(k * 2, 5).im))
  {
    hide IsTurn;
    SymmetricDft(t, inverse, x, k, 2);
    var f := Pairs(t, inverse, x, k);
    assert Accumulate(x[0], f, 2) == Add(Add(Accumulate(x[0], f, 0), f(1)), f(2));
    assert k * 1 == k;
  }

  lemma FifthTurnWraps(t: Turn)
    requires IsTurn(t)
    ensures t(6, 5) == t(1, 5) && t(8, 5) == t(3, 5)
  {
    hide IsTurn;
    RotPeriod(t, true, 1, 5);
    RotPeriod(t, true, 3, 5);
  }

  lemma FlipPair(inverse: bool, p: Complex, m: Complex, c: real, s: real)
    ensures PairTerm(inverse, p, m, c, -s) == PairTerm(!inverse, p, m, c, s)
  {
    assert m.re * -s == -(m.re * s) && m.im * -s == -(m.im * s);
  }

  lemma FirstFifths(inverse: bool, x: seq<Complex>, q: Fifths)
    requires |x| == 5
    ensures Add(Add(x[0], PairTerm(inverse, Add(x[1], x[4]), Sub(x[1], x[4]), q.qa, q.qb)),
                PairTerm(inverse, Add(x[2], x[3]), Sub(x[2], x[3]), -0.5 - q.qa, q.qd))
            == Crossed(PartsOf(x, q).b1, PartsOf(x, q).c1, inverse)
  {
    var p1, p2, d1, d2 := Add(x[1], x[4]), Add(x[2], x[3]), Sub(x[1], x[4]), Sub(x[2], x[3]);
    PairTermCrosses(inverse, p1, d1, q.qa, q.qb);
    PairTermCrosses(inverse, p2, d2, -0.5 - q.qa, q.qd);
    CrossedSum(x[0], Scaled(p1, q.qa), Exchanged(d1, q.qb), Scaled(p2, -0.5 - q.qa), Exchanged(d2, q.qd), inverse);
    SpreadBase(x[0], x[1], x[2], x[3], x[4], q.qa);
    CrossIsSum(d1, d2, q);
  }

  lemma SecondFifths(inverse: bool, x: seq<Complex>, q: Fifths)
    requires |x| == 5
    ensures Add(Add(x[0], PairTerm(inverse, Add(x[1], x[4]), Sub(x[1], x[4]), -0.5 - q.qa, q.qd)),
                PairTerm(inverse, Add(x[2], x[3]), Sub(x[2], x[3]), q.qa, -q.qb))
            == Crossed(PartsOf(x, q).b2, PartsOf(x, q).c2, inverse)
  {
    var p1, p2, d1, d2 := Add(x[1], x[4]), Add(x[2], x[3]), Sub(x[1], x[4]), Sub(x[2], x[3]);
    PairTermCrosses(inverse, p1, d1, -0.5 - q.qa, q.qd);
    PairTermCrosses(inverse, p2, d2, q.qa, -q.qb);
    CrossedSum(x[0], Scaled(p1, -0.5 - q.qa), Exchanged(d1, q.qd), Scaled(p2, q.qa), Exchanged(d2, -q.qb), inverse);
    SpreadBase(x[0], x[2], x[1], x[4], x[3], q.qa);
    AddSwap(x[0], Scaled(p2, q.qa), Scaled(p1, -0.5 - q.qa));
    CrossIsSum(d1, d2, q);
  }

  lemma CrossIsSum(d1: Complex, d2: Complex, q: Fifths)
    ensures Cross1(d1, d2, q) == Add(Exchanged(d1, q.qb), Exchanged(d2, q.qd))
    ensures Cross2(d1, d2, q) == Add(Exchanged(d1, q.qd), Exchanged(d2, -q.qb))
  {
    assert d2.re * -q.qb == -d2.re * q.qb && d2.im * -q.qb == -d2.im * q.qb;
  }

  function Scaled(p: Complex, c: real): Complex {
    Complex(p.re * c, p.im * c)
  }

  function Exchanged(m: Complex, s: real): Complex {
    Complex(m.im * s, m.re * s)
  }

  lemma PairTermCrosses(inverse: bool, p: Complex, m: Complex, c: real, s: real)
    ensures PairTerm(inverse, p, m, c, s) == Crossed(Scaled(p, c), Exchanged(m, s), inverse)
  {
  }

  lemma CrossedSum(x0: Complex, a: Complex, u: Complex, b: Complex, v: Complex, plusJ: bool)
    ensures Add(Add(x0, Crossed(a, u, plusJ)), Crossed(b, v, plusJ)) == Crossed(Add(Add(x0, a), b), Add(u, v), plusJ)
  {
  }

  lemma SpreadBase(x0: Complex, a: Complex, b: Complex, c: Complex, d: Complex, q: real)
    ensures Base5(x0, Add(b, c), a, b, c, d, q) == Add(Add(x0, Scaled(Add(a, d), q)), Scaled(Add(b, c), -0.5 - q))
  {
    SpreadPart(x0.re, a.re, b.re, c.re, d.re, q);
    SpreadPart(x0.im, a.im, b.im, c.im, d.im, q);
    var left, right := Base5(x0, Add(b, c), a, b, c, d, q), Add(Add(x0, Scaled(Add(a, d), q)), Scaled(Add(b, c), -0.5 - q));
    assert left.re == x0.re - (b.re + c.re) * 0.5 + ((a.re - b.re) + (d.re - c.re)) * q;
    assert right.re == x0.re + (a.re + d.re) * q + (b.re + c.re) * (-0.5 - q);
    assert left.im == x0.im - (b.im + c.im) * 0.5 + ((a.im - b.im) + (d.im - c.im)) * q;
    assert right.im == x0.im + (a.im + d.im) * q + (b.im + c.im) * (-0.5 - q);
  }

  lemma AddSwap(x0: Complex, a: Complex, b: Complex)
    ensures Add(Add(x0, a), b) == Add(Add(x0, b), a)
  {
  }

  lemma SpreadPart(x0: real, a: real, b: real, c: real, d: real, q: real)
    ensures x0 - (b + c) * 0.5 + ((a - b) + (d - c)) * q == x0 + (a + d) * q + (b + c) * (-0.5 - q)
  {
    var u, v, w, k := a + d, b + c, (a - b) + (d - c), -0.5 - q;
    assert w == u - v;
    TimesDifference(u, v, w, q);
    DifferenceTimes(v, -0.5, q, k);
  }

  lemma TimesDifference(u: real, v: real, w: real, q: real)
    requires w == u - v
    ensures w * q == u * q - v * q
  {
  }

  lemma DifferenceTimes(v: real, a: real, b: real, k: real)
    requires k == a - b
    ensures v * k == v * a - v * b
  {
  }
}
