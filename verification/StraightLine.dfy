/** The straight-line programs the butterfly emitters produce, and what running one means.
    A reference names the two variables that hold one complex value, and one statement
    stands for the two adjacent source lines that give the real and the imaginary one. */
module StraightLine {
  import opened Complexes

  // The name prefixes: the loaded operands, the outputs, and the temporaries of a
  // factorised butterfly (inner transform n1, the twiddled row k2, outer transform k2).
  datatype Prefix = Operand | Result | Inner(n1: nat) | Twiddled(k2: nat) | Outer(k2: nat)

  datatype Tag = Out | SumOf | DiffOf | Base | Cross

  datatype Ref = Ref(prefix: Prefix, tag: Tag, k: nat)

  datatype Expr =
    | Re(r: Ref)
    | Im(r: Ref)
    | Const(v: real)
    | Neg(e: Expr)
    | Plus(a: Expr, b: Expr)
    | Minus(a: Expr, b: Expr)
    | Times(a: Expr, b: Expr)

  /** Declare introduces a pair of variables, AddTo is a pair of `+=`, and Output marks
      the point where the caller is told that output k is complete. */
  datatype Stmt =
    | Declare(dst: Ref, re: Expr, im: Expr)
    | AddTo(dst: Ref, re: Expr, im: Expr)
    | Output(k: nat)

  type Env = map<Ref, Complex>

  /** ok: no name was declared twice, read before its declaration, or read by the second
      line of a pair after the first had changed it. */
  datatype State = State(env: Env, outputs: seq<(nat, Complex)>, ok: bool)

  /** What the caller leaves in an output's variables: it may scale and twiddle in place. */
  type Caller = (nat, Complex) -> Complex

  function Get(env: Env, r: Ref): Complex {
    if r in env then env[r] else ZERO
  }

  function Eval(e: Expr, env: Env): real {
    match e
    case Re(r) => Get(env, r).re
    case Im(r) => Get(env, r).im
    case Const(v) => v
    case Neg(a) => -Eval(a, env)
    case Plus(a, b) => Eval(a, env) + Eval(b, env)
    case Minus(a, b) => Eval(a, env) - Eval(b, env)
    case Times(a, b) => Eval(a, env) * Eval(b, env)
  }

  predicate Defined(e: Expr, env: Env) {
    match e
    case Re(r) => r in env
    case Im(r) => r in env
    case Const(_) => true
    case Neg(a) => Defined(a, env)
    case Plus(a, b) => Defined(a, env) && Defined(b, env)
    case Minus(a, b) => Defined(a, env) && Defined(b, env)
    case Times(a, b) => Defined(a, env) && Defined(b, env)
  }

  predicate Mentions(e: Expr, r: Ref) {
    match e
    case Re(q) => q == r
    case Im(q) => q == r
    case Const(_) => false
    case Neg(a) => Mentions(a, r)
    case Plus(a, b) => Mentions(a, r) || Mentions(b, r)
    case Minus(a, b) => Mentions(a, r) || Mentions(b, r)
    case Times(a, b) => Mentions(a, r) || Mentions(b, r)
  }

  function Exec(s: Stmt, st: State, caller: Caller): State {
    match s
    case Declare(dst, re, im) =>
      State(st.env[dst := Complex(Eval(re, st.env), Eval(im, st.env))], st.outputs,
            st.ok && dst !in st.env && Defined(re, st.env) && Defined(im, st.env))
    case AddTo(dst, re, im) =>
      State(st.env[dst := Add(Get(st.env, dst), Complex(Eval(re, st.env), Eval(im, st.env)))], st.outputs,
            st.ok && dst in st.env && Defined(re, st.env) && Defined(im, st.env) && !Mentions(im, dst))
    case Output(k) =>
      var r := Ref(Result, Out, k);
      State(st.env[r := caller(k, Get(st.env, r))], st.outputs + [(k, Get(st.env, r))],
            st.ok && r in st.env)
  }

  function Run(program: seq<Stmt>, st: State, caller: Caller): State {
    if program == [] then st else Run(program[1..], Exec(program[0], st, caller), caller)
  }

  lemma {:induction false} RunAppend(p: seq<Stmt>, q: seq<Stmt>, st: State, caller: Caller)
    ensures Run(p + q, st, caller) == Run(q, Run(p, st, caller), caller)
  {
    if p == [] {
      assert p + q == q;
    } else {
      assert (p + q)[1..] == p[1..] + q;
      RunAppend(p[1..], q, Exec(p[0], st, caller), caller);
    }
  }

  lemma RunFirst(s: Stmt, rest: seq<Stmt>, st: State, caller: Caller)
    ensures Run([s] + rest, st, caller) == Run(rest, Exec(s, st, caller), caller)
  {
    assert ([s] + rest)[1..] == rest;
  }

  lemma Run1(s: Stmt, st: State, caller: Caller)
    ensures Run([s], st, caller) == Exec(s, st, caller)
  {
    assert [s][1..] == [];
  }

  lemma Run2(s1: Stmt, s2: Stmt, st: State, caller: Caller)
    ensures Run([s1, s2], st, caller) == Exec(s2, Exec(s1, st, caller), caller)
  {
    var st1 := Exec(s1, st, caller);
    assert [s1, s2] == [s1] + [s2];
    RunFirst(s1, [s2], st, caller);
    Run1(s2, st1, caller);
  }

  lemma Run4(s1: Stmt, s2: Stmt, s3: Stmt, s4: Stmt, st: State, caller: Caller)
    ensures Run([s1, s2, s3, s4], st, caller)
            == Exec(s4, Exec(s3, Exec(s2, Exec(s1, st, caller), caller), caller), caller)
  {
    hide Run, Exec;
    var st2 := Run([s1, s2], st, caller);
    assert [s1, s2, s3, s4] == [s1, s2] + [s3, s4];
    RunAppend([s1, s2], [s3, s4], st, caller);
    Run2(s3, s4, st2, caller);
    Run2(s1, s2, st, caller);
  }

  /** A declaration of a new name from defined ones binds that name and nothing else. */
  lemma DeclareRuns(s: Stmt, st: State, v: Complex, caller: Caller)
    requires s.Declare? && st.ok && s.dst !in st.env
    requires Defined(s.re, st.env) && Defined(s.im, st.env)
    requires Eval(s.re, st.env) == v.re && Eval(s.im, st.env) == v.im
    ensures Exec(s, st, caller) == Bind(st, s.dst, v)
  {
  }

  lemma EvalScaled(r: Ref, v: real, env: Env)
    ensures Eval(Times(Re(r), Const(v)), env) == Get(env, r).re * v
    ensures Eval(Times(Im(r), Const(v)), env) == Get(env, r).im * v
    ensures Eval(Times(Neg(Re(r)), Const(v)), env) == -Get(env, r).re * v
    ensures Eval(Times(Neg(Im(r)), Const(v)), env) == -Get(env, r).im * v
    ensures r in env ==> Defined(Times(Re(r), Const(v)), env) && Defined(Times(Im(r), Const(v)), env)
    ensures r in env ==> Defined(Times(Neg(Re(r)), Const(v)), env) && Defined(Times(Neg(Im(r)), Const(v)), env)
  {
  }

  function Bind(st: State, r: Ref, v: Complex): State {
    State(st.env[r := v], st.outputs, true)
  }

  // -------- describing environments

  /** r holds v. */
  predicate Holds(env: Env, r: Ref, v: Complex) {
    r in env && env[r] == v
  }

  /** The references of rs hold the values of x, in order. */
  ghost predicate Carries(env: Env, rs: seq<Ref>, x: seq<Complex>) {
    |rs| == |x| && forall j :: 0 <= j < |rs| ==> Holds(env, rs[j], x[j])
  }

  /** No name with prefix p is in use. */
  ghost predicate Unused(env: Env, p: Prefix) {
    forall r: Ref :: r in env ==> r.prefix != p
  }

  /** env' differs from env at most in names with prefix p. */
  ghost predicate OnlyTouches(env: Env, env': Env, p: Prefix) {
    forall r: Ref :: r.prefix != p ==> (r in env' <==> r in env) && (r in env ==> env'[r] == env[r])
  }

  /** st' was reached from st without fault, telling the caller nothing, and touching no
      name with a prefix other than p. */
  ghost predicate Grows(st: State, st': State, p: Prefix) {
    st'.ok && st'.outputs == st.outputs && OnlyTouches(st.env, st'.env, p)
  }

  lemma GrowsTransitive(st0: State, st1: State, st2: State, p: Prefix)
    requires Grows(st0, st1, p) && Grows(st1, st2, p)
    ensures Grows(st0, st2, p)
  {
  }

  /** Binding a new name with prefix p. */
  lemma BindGrows(st: State, p: Prefix, r: Ref, v: Complex)
    requires st.ok && r.prefix == p && r !in st.env
    ensures Grows(st, Bind(st, r, v), p) && Keeps(st, Bind(st, r, v), {r}) && Holds(Bind(st, r, v).env, r, v)
  {
  }

  /** st' holds everything st does, and names nothing new but the references in fresh. */
  ghost predicate Keeps(st: State, st': State, names: set<Ref>) {
    && (forall r :: r in st.env ==> Holds(st'.env, r, st.env[r]))
    && (forall r :: r in st'.env ==> r in st.env || r in names)
  }

  function Bind4(st: State, r1: Ref, v1: Complex, r2: Ref, v2: Complex, r3: Ref, v3: Complex, r4: Ref, v4: Complex): State {
    Bind(Bind(Bind(Bind(st, r1, v1), r2, v2), r3, v3), r4, v4)
  }

  lemma Bind4Grows(st: State, p: Prefix, r1: Ref, v1: Complex, r2: Ref, v2: Complex, r3: Ref, v3: Complex, r4: Ref, v4: Complex)
    requires st.ok && r1.prefix == r2.prefix == r3.prefix == r4.prefix == p
    requires r1 !in st.env && r2 !in st.env && r3 !in st.env && r4 !in st.env
    requires r1 != r2 && r1 != r3 && r1 != r4 && r2 != r3 && r2 != r4 && r3 != r4
    ensures var st' := Bind4(st, r1, v1, r2, v2, r3, v3, r4, v4);
            && Grows(st, st', p) && Keeps(st, st', {r1, r2, r3, r4})
            && Holds(st'.env, r1, v1) && Holds(st'.env, r2, v2) && Holds(st'.env, r3, v3) && Holds(st'.env, r4, v4)
  {
  }
}
