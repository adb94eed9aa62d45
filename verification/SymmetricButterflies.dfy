/** The symmetric odd-radix emitter: outputs k and n - k accumulate together from the sums
    and differences of mirrored inputs. */
module SymmetricButterflies {
  import opened Complexes
  import opened Fourier
  import opened StraightLine
  import opened SmallButterflies

  function DeclareCopy(dst: Ref, src: Ref): Stmt {
    Declare(dst, Re(src), Im(src))
  }

  /** The sums and differences of input pairs 1..m. */
  function PairUps(ins: seq<Ref>, p: Prefix, m: nat): seq<Stmt>
    requires m < |ins|
  {
    if m == 0 then []
    else PairUps(ins, p, m - 1)
         + [DeclareSum(Ref(p, SumOf, m), ins[m], ins[|ins| - m]), DeclareDiff(Ref(p, DiffOf, m), ins[m], ins[|ins| - m])]
  }

  /** Output 0: the first input and the sums of pairs 1..m. */
  function ZeroOut(ins: seq<Ref>, p: Prefix, m: nat): seq<Stmt>
    requires |ins| > 0
  {
    if m == 0 then [DeclareCopy(Ref(p, Out, 0), ins[0])]
    else ZeroOut(ins, p, m - 1) + [AddTo(Ref(p, Out, 0), Re(Ref(p, SumOf, m)), Im(Ref(p, SumOf, m)))]
  }

  /** Pair j added into an output, turning one way or the other. */
  function AddPair(dst: Ref, p: Prefix, j: nat, w: Complex, anticlockwise: bool): Stmt {
    var s, d := Ref(p, SumOf, j), Ref(p, DiffOf, j);
    if anticlockwise then
      AddTo(dst, Minus(Times(Re(s), Const(w.re)), Times(Im(d), Const(w.im))),
                 Plus(Times(Im(s), Const(w.re)), Times(Re(d), Const(w.im))))
    else
      AddTo(dst, Plus(Times(Re(s), Const(w.re)), Times(Im(d), Const(w.im))),
                 Minus(Times(Im(s), Const(w.re)), Times(Re(d), Const(w.im))))
  }

  /** Outputs k and n - k: the first input, then pairs 1..m into both. */
  function TwoOuts(t: Turn, inverse: bool, ins: seq<Ref>, p: Prefix, k: nat, m: nat): seq<Stmt>
    requires 0 < k < |ins|
  {
    var low, high := Ref(p, Out, k), Ref(p, Out, |ins| - k);
    if m == 0 then [DeclareCopy(low, ins[0]), DeclareCopy(high, ins[0])]
    else
      TwoOuts(t, inverse, ins, p, k, m - 1)
      + [AddPair(low, p, m, t(k * m, |ins|), inverse), AddPair(high, p, m, t(k * m, |ins|), !inverse)]
  }

  /** Everything after the pairs, up to outputs m and n - m; told marks the outputs as they complete. */
  function Outputs(t: Turn, inverse: bool, ins: seq<Ref>, p: Prefix, h: nat, m: nat, told: bool): seq<Stmt>
    requires |ins| == 2 * h + 1 && m <= h
  {
    if m == 0 then ZeroOut(ins, p, h) + if told then [Output(0)] else []
    else
      Outputs(t, inverse, ins, p, h, m - 1, told)
      + (TwoOuts(t, inverse, ins, p, m, h) + if told then [Output(m), Output(|ins| - m)] else [])
  }

  lemma OutputsGrow(t: Turn, inverse: bool, ins: seq<Ref>, p: Prefix, half: nat, m: nat, told: bool)
    requires |ins| == 2 * half + 1 && m <= half
    ensures m == 0 ==> Outputs(t, inverse, ins, p, half, m, told) == ZeroOut(ins, p, half) + if told then [Output(0)] else []
    ensures m > 0 ==> Outputs(t, inverse, ins, p, half, m, told)
                      == Outputs(t, inverse, ins, p, half, m - 1, told)
                         + (TwoOuts(t, inverse, ins, p, m, half) + if told then [Output(m), Output(|ins| - m)] else [])
  {
    hide ZeroOut, TwoOuts;
  }

  function Symmetric(t: Turn, inverse: bool, ins: seq<Ref>, p: Prefix, h: nat, told: bool): seq<Stmt>
    requires |ins| == 2 * h + 1
  {
    PairUps(ins, p, h) + Outputs(t, inverse, ins, p, h, h, told)
  }

  // -------- the pairs

  predicate PairReady(env: Env, p: Prefix, x: seq<Complex>, j: nat) {
    && Holds(env, Ref(p, SumOf, j), Add(At(x, j), At(x, |x| - j)))
    && Holds(env, Ref(p, DiffOf, j), Sub(At(x, j), At(x, |x| - j)))
  }

  ghost predicate PairsReady(env: Env, p: Prefix, x: seq<Complex>, m: nat) {
    forall j: nat :: 1 <= j <= m ==> PairReady(env, p, x, j)
  }

  ghost predicate PairedUp(st: State, st': State, p: Prefix, x: seq<Complex>, m: nat) {
    && Grows(st, st', p) && PairsReady(st'.env, p, x, m)
    && (forall r: Ref :: r in st'.env && r.prefix == p ==> r.tag in {SumOf, DiffOf} && 1 <= r.k <= m)
  }

  lemma {:induction false} PairUpsRun(ins: seq<Ref>, p: Prefix, x: seq<Complex>, m: nat, st: State, caller: Caller)
    requires st.ok && m < |ins| && Carries(st.env, ins, x) && Unused(st.env, p)
    ensures PairedUp(st, Run(PairUps(ins, p, m), st, caller), p, x, m)
  {
    if m > 0 {
      PairUpsRun(ins, p, x, m - 1, st, caller);
      assert Holds(st.env, ins[m], x[m]) && Holds(st.env, ins[|ins| - m], x[|x| - m]);
      var s1, s2 := DeclareSum(Ref(p, SumOf, m), ins[m], ins[|ins| - m]), DeclareDiff(Ref(p, DiffOf, m), ins[m], ins[|ins| - m]);
      RunAppend(PairUps(ins, p, m - 1), [s1, s2], st, caller);
      OnePairRuns(s1, s2, p, x, m, ins[m], ins[|ins| - m], st, Run(PairUps(ins, p, m - 1), st, caller), caller);
    }
  }

  lemma OnePairRuns(s1: Stmt, s2: Stmt, p: Prefix, x: seq<Complex>, m: nat, a: Ref, b: Ref, st: State, mid: State, caller: Caller)
    requires 0 < m < |x| && PairedUp(st, mid, p, x, m - 1) && Unused(st.env, p)
    requires s1 == DeclareSum(Ref(p, SumOf, m), a, b) && s2 == DeclareDiff(Ref(p, DiffOf, m), a, b)
    requires Holds(st.env, a, x[m]) && Holds(st.env, b, x[|x| - m])
    ensures PairedUp(st, Run([s1, s2], mid, caller), p, x, m)
  {
    var sum, diff := Add(x[m], x[|x| - m]), Sub(x[m], x[|x| - m]);
    Run2(s1, s2, mid, caller);
    DeclareRuns(s1, mid, sum, caller);
    var next := Bind(mid, s1.dst, sum);
    DeclareRuns(s2, next, diff, caller);
    BindGrows(mid, p, s1.dst, sum);
    BindGrows(next, p, s2.dst, diff);
    forall j: nat | 1 <= j <= m ensures PairReady(Bind(next, s2.dst, diff).env, p, x, j) {
      assert j < m ==> PairReady(mid.env, p, x, j);
    }
  }

  // -------- output 0

  function PairSums(x: seq<Complex>): int -> Complex {
    j => Add(At(x, j), At(x, |x| - j))
  }

  /** Adding to a name that is bound. */
  lemma AddToRuns(st: State, base: State, dst: Ref, a: Complex, s: Stmt, v: Complex, caller: Caller)
    requires st == Bind(base, dst, a) && base.ok && s.AddTo? && s.dst == dst && !Mentions(s.im, dst)
    requires Defined(s.re, st.env) && Defined(s.im, st.env)
    requires Eval(s.re, st.env) == v.re && Eval(s.im, st.env) == v.im
    ensures Exec(s, st, caller) == Bind(base, dst, Add(a, v))
  {
    assert st.env[dst := Add(a, v)] == base.env[dst := Add(a, v)];
  }

  lemma {:induction false} ZeroOutRuns(ins: seq<Ref>, p: Prefix, x: seq<Complex>, m: nat, st: State, caller: Caller)
    requires st.ok && |ins| > 0 && Holds(st.env, ins[0], At(x, 0))
    requires PairsReady(st.env, p, x, m) && Ref(p, Out, 0) !in st.env
    ensures Run(ZeroOut(ins, p, m), st, caller) == Bind(st, Ref(p, Out, 0), Accumulate(At(x, 0), PairSums(x), m))
  {
    var out := Ref(p, Out, 0);
    if m == 0 {
      Run1(DeclareCopy(out, ins[0]), st, caller);
      DeclareRuns(DeclareCopy(out, ins[0]), st, At(x, 0), caller);
    } else {
      ZeroOutRuns(ins, p, x, m - 1, st, caller);
      var a := Accumulate(At(x, 0), PairSums(x), m - 1);
      assert PairReady(st.env, p, x, m);
      AddSumRuns(ZeroOut(ins, p, m - 1), p, m, PairSums(x)(m), st, a, caller);
    }
  }

  lemma AddSumRuns(before: seq<Stmt>, p: Prefix, m: nat, v: Complex, st: State, a: Complex, caller: Caller)
    requires st.ok && Holds(st.env, Ref(p, SumOf, m), v)
    requires Run(before, st, caller) == Bind(st, Ref(p, Out, 0), a)
    ensures Run(before + [AddTo(Ref(p, Out, 0), Re(Ref(p, SumOf, m)), Im(Ref(p, SumOf, m)))], st, caller)
            == Bind(st, Ref(p, Out, 0), Add(a, v))
  {
    var s := AddTo(Ref(p, Out, 0), Re(Ref(p, SumOf, m)), Im(Ref(p, SumOf, m)));
    RunAppend(before, [s], st, caller);
    Run1(s, Bind(st, Ref(p, Out, 0), a), caller);
    AddToRuns(Bind(st, Ref(p, Out, 0), a), st, Ref(p, Out, 0), a, s, v, caller);
  }

  lemma ZeroOutIsDft(t: Turn, inverse: bool, x: seq<Complex>, h: nat)
    requires IsTurn(t) && |x| == 2 * h + 1
    ensures Accumulate(At(x, 0), PairSums(x), h) == Dft(t, inverse, x, 0)
  {
    hide IsTurn;
    UnturnedPairs(t, inverse, x, h);
    SymmetricDft(t, inverse, x, 0, h);
  }

  lemma {:induction false} UnturnedPairs(t: Turn, inverse: bool, x: seq<Complex>, m: nat)
    requires IsTurn(t) && |x| > 0
    ensures Accumulate(At(x, 0), PairSums(x), m) == SymmetricSum(t, inverse, x, 0, m)
  {
    hide IsTurn;
    if m > 0 {
      UnturnedPairs(t, inverse, x, m - 1);
      assert 0 * m == 0;
      ClosesAt(t, |x|);
    }
  }

  // -------- outputs k and n - k

  lemma AddPairRuns(base: State, dst: Ref, a: Complex, p: Prefix, j: nat, sum: Complex, diff: Complex, w: Complex,
                    anticlockwise: bool, caller: Caller)
    requires base.ok && dst.tag == Out
    requires Holds(base.env, Ref(p, SumOf, j), sum) && Holds(base.env, Ref(p, DiffOf, j), diff)
    ensures Exec(AddPair(dst, p, j, w, anticlockwise), Bind(base, dst, a), caller)
            == Bind(base, dst, Add(a, PairTerm(anticlockwise, sum, diff, w.re, w.im)))
  {
    var st := Bind(base, dst, a);
    EvalScaled(Ref(p, SumOf, j), w.re, st.env);
    EvalScaled(Ref(p, DiffOf, j), w.im, st.env);
    var s := AddPair(dst, p, j, w, anticlockwise);
    NoMention(s, p, j, w, anticlockwise);
    AddToRuns(st, base, dst, a, s, PairTerm(anticlockwise, sum, diff, w.re, w.im), caller);
  }

  lemma NoMention(s: Stmt, p: Prefix, j: nat, w: Complex, anticlockwise: bool)
    requires s.AddTo? && s.dst.tag == Out && s == AddPair(s.dst, p, j, w, anticlockwise)
    ensures !Mentions(s.im, s.dst)
  {
    assert !Mentions(Times(Im(Ref(p, SumOf, j)), Const(w.re)), s.dst);
    assert !Mentions(Times(Re(Ref(p, DiffOf, j)), Const(w.im)), s.dst);
  }

  lemma BindCommutes(st: State, r: Ref, a: Complex, q: Ref, b: Complex)
    requires r != q
    ensures Bind(Bind(st, r, a), q, b) == Bind(Bind(st, q, b), r, a)
  {
  }

  /** What TwoOuts must leave after pairs 1..m. */
  function TwoSums(t: Turn, inverse: bool, p: Prefix, x: seq<Complex>, k: nat, m: nat, st: State): State
    requires 0 < k < |x|
  {
    Bind(Bind(st, Ref(p, Out, k), SymmetricSum(t, inverse, x, k, m)),
         Ref(p, Out, |x| - k), SymmetricSum(t, !inverse, x, k, m))
  }

  lemma {:induction false} TwoOutsRun(t: Turn, inverse: bool, ins: seq<Ref>, p: Prefix, x: seq<Complex>, k: nat, m: nat,
                                      st: State, caller: Caller)
    requires st.ok && 0 < k < |ins| == |x| && 2 * k != |ins| && Holds(st.env, ins[0], At(x, 0))
    requires PairsReady(st.env, p, x, m)
    requires Ref(p, Out, k) !in st.env && Ref(p, Out, |ins| - k) !in st.env
    ensures Run(TwoOuts(t, inverse, ins, p, k, m), st, caller) == TwoSums(t, inverse, p, x, k, m, st)
  {
    if m == 0 {
      var s1, s2 := DeclareCopy(Ref(p, Out, k), ins[0]), DeclareCopy(Ref(p, Out, |ins| - k), ins[0]);
      Run2(s1, s2, st, caller);
      DeclareRuns(s1, st, At(x, 0), caller);
      DeclareRuns(s2, Bind(st, s1.dst, At(x, 0)), At(x, 0), caller);
    } else {
      TwoOutsRun(t, inverse, ins, p, x, k, m - 1, st, caller);
      TwoOutsStep(t, inverse, TwoOuts(t, inverse, ins, p, k, m - 1), p, x, k, m, st, caller);
    }
  }

  lemma TwoOutsStep(t: Turn, inverse: bool, before: seq<Stmt>, p: Prefix, x: seq<Complex>, k: nat, m: nat,
                    st: State, caller: Caller)
    requires st.ok && 0 < k < |x| && 2 * k != |x| && m > 0 && PairsReady(st.env, p, x, m)
    requires Run(before, st, caller) == TwoSums(t, inverse, p, x, k, m - 1, st)
    ensures var w := t(k * m, |x|);
            Run(before + [AddPair(Ref(p, Out, k), p, m, w, inverse), AddPair(Ref(p, Out, |x| - k), p, m, w, !inverse)], st, caller)
            == TwoSums(t, inverse, p, x, k, m, st)
  {
    var w := t(k * m, |x|);
    var low, high := Ref(p, Out, k), Ref(p, Out, |x| - k);
    var sum, diff := Add(At(x, m), At(x, |x| - m)), Sub(At(x, m), At(x, |x| - m));
    RunAppend(before, [AddPair(low, p, m, w, inverse), AddPair(high, p, m, w, !inverse)], st, caller);
    assert PairReady(st.env, p, x, m);
    SymmetricSumStep(t, inverse, x, k, m);
    SymmetricSumStep(t, !inverse, x, k, m);
    TwoPairsRun(p, m, sum, diff, w, inverse, low, high,
                SymmetricSum(t, inverse, x, k, m - 1), SymmetricSum(t, !inverse, x, k, m - 1),
                SymmetricSum(t, inverse, x, k, m), SymmetricSum(t, !inverse, x, k, m), st, caller);
  }

  lemma SymmetricSumStep(t: Turn, anticlockwise: bool, x: seq<Complex>, k: int, m: nat)
    requires m > 0
    ensures SymmetricSum(t, anticlockwise, x, k, m)
            == Add(SymmetricSum(t, anticlockwise, x, k, m - 1),
                   PairTerm(anticlockwise, Add(At(x, m), At(x, |x| - m)), Sub(At(x, m), At(x, |x| - m)),
                            t(k * m, |x|).re, t(k * m, |x|).im))
  {
  }

  lemma TwoPairsRun(p: Prefix, m: nat, sum: Complex, diff: Complex, w: Complex, inverse: bool, low: Ref, high: Ref,
                    a: Complex, b: Complex, a': Complex, b': Complex, st: State, caller: Caller)
    requires st.ok && low != high && low.tag == high.tag == Out
    requires Holds(st.env, Ref(p, SumOf, m), sum) && Holds(st.env, Ref(p, DiffOf, m), diff)
    requires a' == Add(a, PairTerm(inverse, sum, diff, w.re, w.im))
    requires b' == Add(b, PairTerm(!inverse, sum, diff, w.re, w.im))
    ensures Run([AddPair(low, p, m, w, inverse), AddPair(high, p, m, w, !inverse)], Bind(Bind(st, low, a), high, b), caller)
            == Bind(Bind(st, low, a'), high, b')
  {
    Run2(AddPair(low, p, m, w, inverse), AddPair(high, p, m, w, !inverse), Bind(Bind(st, low, a), high, b), caller);
    BindCommutes(st, low, a, high, b);
    AddPairRuns(Bind(st, high, b), low, a, p, m, sum, diff, w, inverse, caller);
    BindCommutes(st, low, a', high, b);
    AddPairRuns(Bind(st, low, a'), high, b, p, m, sum, diff, w, !inverse, caller);
  }

  // -------- all the outputs

  /** The order in which outputs complete. */
  function Order(n: nat, m: nat): seq<nat>
    requires m < n
  {
    if m == 0 then [0] else Order(n, m - 1) + [m, n - m]
  }

  /** Every output named in order, with its value. */
  function Reports(v: int -> Complex, order: seq<nat>): (r: seq<(nat, Complex)>)
    ensures |r| == |order|
  {
    seq(|order|, i requires 0 <= i < |order| => (order[i], v(order[i])))
  }

  lemma ReportsAppend(v: int -> Complex, a: seq<nat>, b: seq<nat>)
    ensures Reports(v, a + b) == Reports(v, a) + Reports(v, b)
  {
  }

  /** How far the outputs have got: 0, and k and n - k for every k up to m. */
  predicate Reached(n: nat, m: nat, k: nat) {
    k == 0 || k <= m || n - m <= k < n
  }

  lemma ReachedGrows(n: nat, m: nat, k: nat)
    requires 0 < m < n
    ensures Reached(n, m, k) <==> Reached(n, m - 1, k) || k == m || k == n - m
  {
  }

  /** The outputs reached so far, and only those, are bound, and each is held or was told. */
  ghost predicate Progress(st0: State, st: State, p: Prefix, v: int -> Complex, n: nat, m: nat, told: bool)
    requires m < n
  {
    && st.ok
    && (forall k: nat :: Ref(p, Out, k) in st.env <==> Reached(n, m, k))
    && (if told then st.outputs == st0.outputs + Reports(v, Order(n, m))
        else st.outputs == st0.outputs && forall k: nat :: Reached(n, m, k) ==> Holds(st.env, Ref(p, Out, k), v(k)))
  }

  /** Names other than p's outputs are as they were. */
  ghost predicate KeepsRest(env: Env, env': Env, p: Prefix) {
    forall r: Ref :: r.prefix != p || r.tag != Out ==> (r in env' <==> r in env) && (r in env ==> env'[r] == env[r])
  }

  lemma FirstOutput(st0: State, st: State, p: Prefix, v: int -> Complex, n: nat, told: bool, caller: Caller)
    requires st.ok && st.outputs == st0.outputs && n > 0 && (told ==> p == Result)
    requires forall k: nat :: Ref(p, Out, k) !in st.env
    ensures var st' := Run(if told then [Output(0)] else [], Bind(st, Ref(p, Out, 0), v(0)), caller);
            Progress(st0, st', p, v, n, 0, told) && KeepsRest(st.env, st'.env, p)
  {
    var next := Bind(st, Ref(p, Out, 0), v(0));
    if told {
      Run1(Output(0), next, caller);
      assert Reports(v, [0]) == [(0, v(0))];
    }
  }

  lemma NextOutputs(st0: State, mid: State, p: Prefix, v: int -> Complex, n: nat, m: nat, told: bool, caller: Caller)
    requires 0 < m && 2 * m < n && (told ==> p == Result)
    requires Progress(st0, mid, p, v, n, m - 1, told)
    ensures var st := Bind(Bind(mid, Ref(p, Out, m), v(m)), Ref(p, Out, n - m), v(n - m));
            var st' := Run(if told then [Output(m), Output(n - m)] else [], st, caller);
            Progress(st0, st', p, v, n, m, told) && KeepsRest(mid.env, st'.env, p)
  {
    forall k: nat ensures Reached(n, m, k) <==> Reached(n, m - 1, k) || k == m || k == n - m {
      ReachedGrows(n, m, k);
    }
    if told {
      NextTold(st0, mid, v, n, m, caller);
    }
  }

  lemma NextTold(st0: State, mid: State, v: int -> Complex, n: nat, m: nat, caller: Caller)
    requires 0 < m && 2 * m < n && mid.ok
    requires mid.outputs == st0.outputs + Reports(v, Order(n, m - 1))
    ensures var a, b := Ref(Result, Out, m), Ref(Result, Out, n - m);
            var st' := Run([Output(m), Output(n - m)], Bind(Bind(mid, a, v(m)), b, v(n - m)), caller);
            && st'.ok && st'.outputs == st0.outputs + Reports(v, Order(n, m))
            && st'.env == mid.env[a := caller(m, v(m))][b := caller(n - m, v(n - m))]
  {
    var a, b := Ref(Result, Out, m), Ref(Result, Out, n - m);
    var st := Bind(Bind(mid, a, v(m)), b, v(n - m));
    Run2(Output(m), Output(n - m), st, caller);
    ReportsAppend(v, Order(n, m - 1), [m, n - m]);
    assert Reports(v, [m, n - m]) == [(m, v(m)), (n - m, v(n - m))];
    assert mid.env[a := v(m)][b := v(n - m)][a := caller(m, v(m))][b := caller(n - m, v(n - m))]
        == mid.env[a := caller(m, v(m))][b := caller(n - m, v(n - m))];
  }

  function Spectrum(t: Turn, inverse: bool, x: seq<Complex>): int -> Complex {
    k => Dft(t, inverse, x, k)
  }

  lemma TwoOutsAreDft(t: Turn, inverse: bool, ins: seq<Ref>, p: Prefix, x: seq<Complex>, h: nat, k: nat, st: State, caller: Caller)
    requires IsTurn(t) && |ins| == |x| == 2 * h + 1 && 0 < k <= h
    requires st.ok && PairsReady(st.env, p, x, h) && Holds(st.env, ins[0], At(x, 0))
    requires Ref(p, Out, k) !in st.env && Ref(p, Out, |x| - k) !in st.env
    ensures var v := Spectrum(t, inverse, x);
            Run(TwoOuts(t, inverse, ins, p, k, h), st, caller)
            == Bind(Bind(st, Ref(p, Out, k), v(k)), Ref(p, Out, |x| - k), v(|x| - k))
  {
    hide IsTurn;
    TwoOutsRun(t, inverse, ins, p, x, k, h, st, caller);
    SymmetricDft(t, inverse, x, k, h);
    SymmetricMirror(t, inverse, x, k, h);
    SymmetricDft(t, inverse, x, |x| - k, h);
  }

  lemma ZeroOutBinds(t: Turn, inverse: bool, ins: seq<Ref>, p: Prefix, x: seq<Complex>, h: nat, st: State, caller: Caller)
    requires IsTurn(t) && |ins| == |x| == 2 * h + 1
    requires st.ok && PairsReady(st.env, p, x, h) && Holds(st.env, ins[0], At(x, 0)) && Ref(p, Out, 0) !in st.env
    ensures Run(ZeroOut(ins, p, h), st, caller) == Bind(st, Ref(p, Out, 0), Spectrum(t, inverse, x)(0))
  {
    hide IsTurn;
    ZeroOutRuns(ins, p, x, h, st, caller);
    ZeroOutIsDft(t, inverse, x, h);
  }

  // The names the outputs are computed from, and the state they are computed in.
  ghost predicate Ready(env: Env, ins: seq<Ref>, p: Prefix, x: seq<Complex>, h: nat)
    requires |ins| > 0
  {
    PairsReady(env, p, x, h) && ins[0].prefix != p && Holds(env, ins[0], At(x, 0))
  }

  lemma ReadyKept(env: Env, env': Env, ins: seq<Ref>, p: Prefix, x: seq<Complex>, h: nat)
    requires |ins| > 0 && Ready(env, ins, p, x, h) && KeepsRest(env, env', p)
    ensures Ready(env', ins, p, x, h)
  {
    forall j: nat | 1 <= j <= h ensures PairReady(env', p, x, j) {
      assert PairReady(env, p, x, j);
    }
  }

  lemma KeepsRestTransitive(env0: Env, env1: Env, env2: Env, p: Prefix)
    requires KeepsRest(env0, env1, p) && KeepsRest(env1, env2, p)
    ensures KeepsRest(env0, env2, p)
  {
  }

  ghost predicate OutputsDone(st: State, st': State, p: Prefix, v: int -> Complex, n: nat, m: nat, told: bool)
    requires m < n
  {
    Progress(st, st', p, v, n, m, told) && KeepsRest(st.env, st'.env, p)
  }

  lemma {:induction false} OutputsRun(t: Turn, inverse: bool, ins: seq<Ref>, p: Prefix, x: seq<Complex>, h: nat, m: nat, told: bool,
                                      st: State, caller: Caller)
    requires IsTurn(t) && |ins| == |x| == 2 * h + 1 && m <= h && (told ==> p == Result)
    requires st.ok && Ready(st.env, ins, p, x, h) && (forall k: nat :: Ref(p, Out, k) !in st.env)
    ensures OutputsDone(st, Run(Outputs(t, inverse, ins, p, h, m, told), st, caller), p, Spectrum(t, inverse, x), |x|, m, told)
  {
    hide Run, Ready, OutputsDone, ZeroOut, TwoOuts, IsTurn;
    if m == 0 {
      FirstRun(t, inverse, ins, p, x, h, told, st, caller);
    } else {
      var before := Outputs(t, inverse, ins, p, h, m - 1, told);
      assert Outputs(t, inverse, ins, p, h, m, told)
          == before + (TwoOuts(t, inverse, ins, p, m, h) + if told then [Output(m), Output(|x| - m)] else []);
      OutputsRun(t, inverse, ins, p, x, h, m - 1, told, st, caller);
      NextRun(t, inverse, before, ins, p, x, h, m, told, st, caller);
    }
  }

  lemma FirstRun(t: Turn, inverse: bool, ins: seq<Ref>, p: Prefix, x: seq<Complex>, h: nat, told: bool, st: State, caller: Caller)
    requires IsTurn(t) && |ins| == |x| == 2 * h + 1 && (told ==> p == Result)
    requires st.ok && Ready(st.env, ins, p, x, h) && (forall k: nat :: Ref(p, Out, k) !in st.env)
    ensures OutputsDone(st, Run(ZeroOut(ins, p, h) + if told then [Output(0)] else [], st, caller), p, Spectrum(t, inverse, x), |x|, 0, told)
  {
    hide IsTurn;
    RunAppend(ZeroOut(ins, p, h), if told then [Output(0)] else [], st, caller);
    ZeroOutBinds(t, inverse, ins, p, x, h, st, caller);
    FirstOutput(st, st, p, Spectrum(t, inverse, x), |x|, told, caller);
  }

  lemma NextRun(t: Turn, inverse: bool, before: seq<Stmt>, ins: seq<Ref>, p: Prefix, x: seq<Complex>, h: nat, m: nat, told: bool,
                st: State, caller: Caller)
    requires IsTurn(t) && |ins| == |x| == 2 * h + 1 && 0 < m <= h && (told ==> p == Result)
    requires st.ok && Ready(st.env, ins, p, x, h)
    requires OutputsDone(st, Run(before, st, caller), p, Spectrum(t, inverse, x), |x|, m - 1, told)
    ensures var tail := if told then [Output(m), Output(|x| - m)] else [];
            OutputsDone(st, Run(before + (TwoOuts(t, inverse, ins, p, m, h) + tail), st, caller), p, Spectrum(t, inverse, x), |x|, m, told)
  {
    hide Run, Ready, TwoOuts, IsTurn, KeepsRest, Dft;
    var n, v, mid := |x|, Spectrum(t, inverse, x), Run(before, st, caller);
    var tail := if told then [Output(m), Output(n - m)] else [];
    ReadyKept(st.env, mid.env, ins, p, x, h);
    ReachedGrows(n, m, m);
    ReachedGrows(n, m, n - m);
    TwoOutsAreDft(t, inverse, ins, p, x, h, m, mid, caller);
    OutputsStep(before, TwoOuts(t, inverse, ins, p, m, h), tail, st, mid, p, v, n, m, told, caller);
  }

  lemma OutputsStep(before: seq<Stmt>, two: seq<Stmt>, tail: seq<Stmt>, st: State, mid: State, p: Prefix, v: int -> Complex,
                    n: nat, m: nat, told: bool, caller: Caller)
    requires 0 < m && 2 * m < n && (told ==> p == Result)
    requires mid == Run(before, st, caller) && tail == if told then [Output(m), Output(n - m)] else []
    requires Progress(st, mid, p, v, n, m - 1, told) && KeepsRest(st.env, mid.env, p)
    requires Run(two, mid, caller) == Bind(Bind(mid, Ref(p, Out, m), v(m)), Ref(p, Out, n - m), v(n - m))
    ensures var st' := Run(before + (two + tail), st, caller);
            Progress(st, st', p, v, n, m, told) && KeepsRest(st.env, st'.env, p)
  {
    RunAppend(before, two + tail, st, caller);
    RunAppend(two, tail, mid, caller);
    NextOutputs(st, mid, p, v, n, m, told, caller);
    KeepsRestTransitive(st.env, mid.env, Run(tail, Run(two, mid, caller), caller).env, p);
  }

  /** As one part of a larger butterfly, the symmetric emitter computes the transform. */
  lemma SymmetricTransforms(t: Turn, inverse: bool, ins: seq<Ref>, p: Prefix, x: seq<Complex>, h: nat, st: State, caller: Caller)
    requires IsTurn(t) && |ins| == |x| == 2 * h + 1
    requires st.ok && Carries(st.env, ins, x) && Unused(st.env, p)
    ensures Transforms(st, Run(Symmetric(t, inverse, ins, p, h, false), st, caller), p, t, inverse, x)
  {
    hide IsTurn;
    SymmetricRuns(t, inverse, ins, p, x, h, false, st, caller);
  }

  lemma SymmetricRuns(t: Turn, inverse: bool, ins: seq<Ref>, p: Prefix, x: seq<Complex>, h: nat, told: bool, st: State, caller: Caller)
    requires IsTurn(t) && |ins| == |x| == 2 * h + 1 && (told ==> p == Result)
    requires st.ok && Carries(st.env, ins, x) && Unused(st.env, p)
    ensures var st' := Run(Symmetric(t, inverse, ins, p, h, told), st, caller);
            Progress(st, st', p, Spectrum(t, inverse, x), |x|, h, told) && OnlyTouches(st.env, st'.env, p)
  {
    hide IsTurn, Run, PairUps, Outputs, Ready, OutputsDone;
    var mid := Run(PairUps(ins, p, h), st, caller);
    RunAppend(PairUps(ins, p, h), Outputs(t, inverse, ins, p, h, h, told), st, caller);
    PairsAreReady(ins, p, x, h, st, caller);
    OutputsRun(t, inverse, ins, p, x, h, h, told, mid, caller);
    DoneIsProgress(st, mid, Run(Outputs(t, inverse, ins, p, h, h, told), mid, caller), p, Spectrum(t, inverse, x), |x|, h, told);
  }

  /** After the sums and differences, the outputs can be formed and none is yet. */
  lemma PairsAreReady(ins: seq<Ref>, p: Prefix, x: seq<Complex>, h: nat, st: State, caller: Caller)
    requires |ins| == |x| == 2 * h + 1 && st.ok && Carries(st.env, ins, x) && Unused(st.env, p)
    ensures var mid := Run(PairUps(ins, p, h), st, caller);
            && mid.ok && mid.outputs == st.outputs && OnlyTouches(st.env, mid.env, p) && Ready(mid.env, ins, p, x, h)
            && forall k: nat :: Ref(p, Out, k) !in mid.env
  {
    hide Run, PairUps;
    PairUpsRun(ins, p, x, h, st, caller);
    assert Holds(st.env, ins[0], x[0]);
  }

  lemma DoneIsProgress(st: State, mid: State, st': State, p: Prefix, v: int -> Complex, n: nat, m: nat, told: bool)
    requires m < n && mid.outputs == st.outputs && OnlyTouches(st.env, mid.env, p) && OutputsDone(mid, st', p, v, n, m, told)
    ensures Progress(st, st', p, v, n, m, told) && OnlyTouches(st.env, st'.env, p)
  {
  }

  /** The completion order of the symmetric form names every output exactly once. */
  lemma {:induction false} OrderComplete(n: nat, m: nat)
    requires 2 * m < n
    ensures |Order(n, m)| == 2 * m + 1
    ensures forall k: nat :: k in Order(n, m) <==> Reached(n, m, k)
    ensures forall i, j :: 0 <= i < j < 2 * m + 1 ==> Order(n, m)[i] != Order(n, m)[j]
  {
    if m > 0 {
      OrderComplete(n, m - 1);
      var before := Order(n, m - 1);
      forall k: nat ensures k in Order(n, m) <==> Reached(n, m, k) {
        ReachedGrows(n, m, k);
      }
      assert !Reached(n, m - 1, m) && !Reached(n, m - 1, n - m);
    }
  }
}
