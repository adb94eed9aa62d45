/** The Cooley-Tukey emitter: an (a*b)-point butterfly from b-point and a-point ones. */
module FactorizedButterflies {
  import opened Complexes
  import opened DivMod
  import opened Fourier
  import opened StraightLine
  import opened SmallButterflies
  import opened OddButterflies
  import opened SymmetricButterflies

  /** The radices that have an emitter of their own to build larger ones from. */
  predicate IsSmall(radix: nat) {
    radix == 2 || radix == 3 || radix == 4 || radix == 5 || radix == 7
  }

  function Small(c: Constants, inverse: bool, ins: seq<Ref>, p: Prefix): seq<Stmt>
    requires IsSmall(|ins|)
  {
    if |ins| == 2 then Radix2(ins, p)
    else if |ins| == 3 then Radix3(ins, p, inverse, c.halfRoot3)
    else if |ins| == 4 then Radix4(ins, p, inverse)
    else if |ins| == 5 then Radix5(ins, p, inverse, FifthsOf(c.turn))
    else Symmetric(c.turn, inverse, ins, p, 3, false)
  }

  lemma SmallTransforms(c: Constants, inverse: bool, ins: seq<Ref>, p: Prefix, x: seq<Complex>, st: State, caller: Caller)
    requires c.Valid() && IsSmall(|ins|) && st.ok && Carries(st.env, ins, x) && Unused(st.env, p)
    ensures Transforms(st, Run(Small(c, inverse, ins, p), st, caller), p, c.turn, inverse, x)
  {
    if |ins| == 2 {
      Radix2Transforms(ins, p, c.turn, inverse, x, st, caller);
    } else if |ins| == 3 {
      Radix3Transforms(ins, p, c, inverse, x, st, caller);
    } else if |ins| == 4 {
      Radix4Transforms(ins, p, c.turn, inverse, x, st, caller);
    } else if |ins| == 5 {
      Radix5Transforms(ins, p, c.turn, inverse, x, st, caller);
    } else {
      SymmetricTransforms(c.turn, inverse, ins, p, x, 3, st, caller);
    }
  }

  // -------- multiplication by a constant rotation

  /** dst := src * w, with the four quarter turns written without a multiplication. */
  function DeclareRotated(dst: Ref, src: Ref, w: Complex): Stmt {
    if w == ONE then Declare(dst, Re(src), Im(src))
    else if w == Complex(-1.0, 0.0) then Declare(dst, Neg(Re(src)), Neg(Im(src)))
    else if w == Complex(0.0, 1.0) then Declare(dst, Neg(Im(src)), Re(src))
    else if w == Complex(0.0, -1.0) then Declare(dst, Im(src), Neg(Re(src)))
    else Declare(dst, Minus(Times(Re(src), Const(w.re)), Times(Im(src), Const(w.im))),
                      Plus(Times(Re(src), Const(w.im)), Times(Im(src), Const(w.re))))
  }

  lemma DeclareRotatedRuns(dst: Ref, src: Ref, w: Complex, v: Complex, st: State, caller: Caller)
    requires st.ok && Holds(st.env, src, v) && dst !in st.env
    ensures Exec(DeclareRotated(dst, src, w), st, caller) == Bind(st, dst, Mul(v, w))
  {
    EvalScaled(src, w.re, st.env);
    EvalScaled(src, w.im, st.env);
    DeclareRuns(DeclareRotated(dst, src, w), st, Mul(v, w), caller);
  }

  predicate MultipliesIn(e: Expr) {
    match e
    case Re(_) => false
    case Im(_) => false
    case Const(_) => false
    case Neg(a) => MultipliesIn(a)
    case Plus(a, b) => MultipliesIn(a) || MultipliesIn(b)
    case Minus(a, b) => MultipliesIn(a) || MultipliesIn(b)
    case Times(_, _) => true
  }

  /** The four quarter turns, and no other rotation, are written without a multiplication. */
  lemma QuarterTurnsAreFree(dst: Ref, src: Ref, w: Complex)
    ensures var s := DeclareRotated(dst, src, w);
            && s.Declare? && s.dst == dst
            && (MultipliesIn(s.re) || MultipliesIn(s.im) <==>
                !(w == ONE || w == Complex(-1.0, 0.0) || w == Complex(0.0, 1.0) || w == Complex(0.0, -1.0)))
  {
    assert !MultipliesIn(Neg(Re(src))) && !MultipliesIn(Neg(Im(src)));
  }

  // -------- the inner transforms

  function Operands(a: nat, b: nat, n1: nat): (r: seq<Ref>)
    ensures |r| == b
  {
    seq(b, n2 requires 0 <= n2 < b => Ref(Operand, Out, n1 + a * n2))
  }

  /** The first g inner transforms, each over every a-th operand. */
  function Groups(c: Constants, inverse: bool, a: nat, b: nat, g: nat): seq<Stmt>
    requires IsSmall(b)
  {
    if g == 0 then []
    else Groups(c, inverse, a, b, g - 1) + Small(c, inverse, Operands(a, b, g - 1), Inner(g - 1))
  }

  /** inner gives output k2 of inner transform n1. */
  ghost predicate IsInner(inner: (int, int) -> Complex, t: Turn, inverse: bool, x: seq<Complex>, a: nat, b: nat) {
    forall n1, k2 {:trigger Dft(t, inverse, Stride(x, a, b, n1), k2)} :: inner(n1, k2) == Dft(t, inverse, Stride(x, a, b, n1), k2)
  }

  /** v gives every output of the transform of x. */
  ghost predicate IsSpectrum(v: int -> Complex, t: Turn, inverse: bool, x: seq<Complex>) {
    forall k {:trigger Dft(t, inverse, x, k)} :: v(k) == Dft(t, inverse, x, k)
  }

  /** inner and v name the values the factorised program for x must produce. */
  ghost predicate Setting(c: Constants, inverse: bool, x: seq<Complex>, inner: (int, int) -> Complex, v: int -> Complex, a: nat, b: nat) {
    c.Valid() && |x| == a * b && IsInner(inner, c.turn, inverse, x, a, b) && IsSpectrum(v, c.turn, inverse, x)
  }

  /** The operands are bound, and nothing else is. */
  ghost predicate OperandsOnly(env: Env, x: seq<Complex>) {
    && (forall j: nat :: j < |x| ==> Holds(env, Ref(Operand, Out, j), x[j]))
    && (forall r: Ref :: r in env ==> r.prefix == Operand)
  }

  predicate InnerReady(env: Env, inner: (int, int) -> Complex, n1: nat, k2: nat) {
    Holds(env, Ref(Inner(n1), Out, k2), inner(n1, k2))
  }

  /** The operands are untouched, the first g inner transforms are done, and no other name is in use. */
  ghost predicate GroupsDone(st: State, st': State, inner: (int, int) -> Complex, b: nat, g: nat) {
    && st'.ok && st'.outputs == st.outputs
    && (forall r: Ref :: r in st.env && r.prefix == Operand ==> Holds(st'.env, r, st.env[r]))
    && (forall r: Ref :: r in st'.env ==> r.prefix == Operand || (r.prefix.Inner? && r.prefix.n1 < g))
    && (forall n1: nat, k2: nat :: n1 < g && k2 < b ==> InnerReady(st'.env, inner, n1, k2))
  }

  lemma {:induction false} GroupsRun(c: Constants, inverse: bool, x: seq<Complex>, inner: (int, int) -> Complex, v: int -> Complex, a: nat, b: nat, g: nat,
                                     st: State, caller: Caller)
    requires Setting(c, inverse, x, inner, v, a, b) && IsSmall(b) && g <= a && st.ok && OperandsOnly(st.env, x)
    ensures GroupsDone(st, Run(Groups(c, inverse, a, b, g), st, caller), inner, b, g)
    decreases g
  {
    hide *;
    GroupsGrow(c, inverse, a, b, g, st, caller);
    if g == 0 {
      NoGroups(st, x, inner, b);
    } else {
      GroupsRun(c, inverse, x, inner, v, a, b, g - 1, st, caller);
      GroupRuns(c, inverse, x, inner, v, a, b, g, st, Run(Groups(c, inverse, a, b, g - 1), st, caller), caller);
    }
  }

  lemma NoGroups(st: State, x: seq<Complex>, inner: (int, int) -> Complex, b: nat)
    requires st.ok && OperandsOnly(st.env, x)
    ensures GroupsDone(st, st, inner, b, 0)
  {
  }

  lemma GroupsGrow(c: Constants, inverse: bool, a: nat, b: nat, g: nat, st: State, caller: Caller)
    requires IsSmall(b)
    ensures g == 0 ==> Run(Groups(c, inverse, a, b, g), st, caller) == st
    ensures g > 0 ==> Run(Groups(c, inverse, a, b, g), st, caller)
                      == Run(Small(c, inverse, Operands(a, b, g - 1), Inner(g - 1)), Run(Groups(c, inverse, a, b, g - 1), st, caller), caller)
  {
    if g > 0 {
      RunAppend(Groups(c, inverse, a, b, g - 1), Small(c, inverse, Operands(a, b, g - 1), Inner(g - 1)), st, caller);
    }
  }

  lemma GroupRuns(c: Constants, inverse: bool, x: seq<Complex>, inner: (int, int) -> Complex, v: int -> Complex, a: nat, b: nat, g: nat,
                  st: State, mid: State, caller: Caller)
    requires Setting(c, inverse, x, inner, v, a, b) && IsSmall(b) && 0 < g <= a && OperandsOnly(st.env, x)
    requires GroupsDone(st, mid, inner, b, g - 1)
    ensures GroupsDone(st, Run(Small(c, inverse, Operands(a, b, g - 1), Inner(g - 1)), mid, caller), inner, b, g)
  {
    hide Run, Dft, Small, InnerReady;
    var ins := Operands(a, b, g - 1);
    OperandsCarry(x, a, b, g - 1, st.env, mid.env);
    SmallTransforms(c, inverse, ins, Inner(g - 1), Stride(x, a, b, g - 1), mid, caller);
    GroupDone(c.turn, inverse, x, inner, a, b, g, st, mid, Run(Small(c, inverse, ins, Inner(g - 1)), mid, caller));
  }

  lemma OperandsCarry(x: seq<Complex>, a: nat, b: nat, n1: nat, env0: Env, env: Env)
    requires |x| == a * b && n1 < a && OperandsOnly(env0, x)
    requires forall r: Ref :: r in env0 && r.prefix == Operand ==> Holds(env, r, env0[r])
    ensures Carries(env, Operands(a, b, n1), Stride(x, a, b, n1))
  {
    var ins, xs := Operands(a, b, n1), Stride(x, a, b, n1);
    forall n2 | 0 <= n2 < b ensures Holds(env, ins[n2], xs[n2]) {
      InRange(a, b, n1, n2);
      assert Holds(env0, ins[n2], xs[n2]);
    }
  }

  lemma GroupDone(t: Turn, inverse: bool, x: seq<Complex>, inner: (int, int) -> Complex, a: nat, b: nat, g: nat, st: State, mid: State, st': State)
    requires IsInner(inner, t, inverse, x, a, b)
    requires g > 0 && GroupsDone(st, mid, inner, b, g - 1)
    requires Transforms(mid, st', Inner(g - 1), t, inverse, Stride(x, a, b, g - 1))
    ensures GroupsDone(st, st', inner, b, g)
  {
    forall n1: nat, k2: nat | n1 < g && k2 < b ensures InnerReady(st'.env, inner, n1, k2) {
      assert n1 < g - 1 ==> InnerReady(mid.env, inner, n1, k2);
    }
  }

  // -------- the twiddled row k2

  function AcrossRef(k2: nat, n1: nat): Ref {
    if n1 == 0 || k2 == 0 then Ref(Inner(n1), Out, k2) else Ref(Twiddled(k2), Out, n1)
  }

  function AcrossRefs(a: nat, k2: nat): (r: seq<Ref>)
    ensures |r| == a
  {
    seq(a, n1 requires 0 <= n1 < a => AcrossRef(k2, n1))
  }

  /** The twiddles of the first m entries of row k2; entry 0 and row 0 need none. */
  function Twiddles(c: Constants, inverse: bool, n: nat, k2: nat, m: nat): seq<Stmt> {
    if m == 0 then [] else Twiddles(c, inverse, n, k2, m - 1) + Twiddle(c, inverse, n, k2, m - 1)
  }

  ghost predicate RowReady(env: Env, k2: nat, row: seq<Complex>, m: nat)
    requires m <= |row|
  {
    forall n1: nat :: n1 < m ==> Holds(env, AcrossRef(k2, n1), row[n1])
  }

  /** Row k2 after its twiddles: inner output k2 of each transform, turned. */
  function RowOf(t: Turn, inverse: bool, inner: (int, int) -> Complex, a: nat, n: nat, k2: nat): (r: seq<Complex>)
    ensures |r| == a
  {
    seq(a, n1 requires 0 <= n1 < a => Mul(inner(n1, k2), Rot(t, inverse, n1 * k2, n)))
  }

  /** The first m entries of row k2 are in place. */
  ghost predicate RowBegun(st: State, st': State, k2: nat, row: seq<Complex>, m: nat)
    requires m <= |row|
  {
    && Grows(st, st', Twiddled(k2)) && RowReady(st'.env, k2, row, m)
    && (forall r: Ref :: r in st'.env && r.prefix == Twiddled(k2) ==> r.k < m)
  }

  function Twiddle(c: Constants, inverse: bool, n: nat, k2: nat, n1: nat): seq<Stmt> {
    if n1 == 0 || k2 == 0 then []
    else [DeclareRotated(Ref(Twiddled(k2), Out, n1), Ref(Inner(n1), Out, k2), Rot(c.turn, inverse, n1 * k2, n))]
  }

  lemma TwiddleRuns(c: Constants, inverse: bool, n: nat, k2: nat, n1: nat, v: Complex, row: seq<Complex>, st: State, mid: State, caller: Caller)
    requires c.Valid() && n > 0 && n1 < |row| && RowBegun(st, mid, k2, row, n1)
    requires Holds(st.env, Ref(Inner(n1), Out, k2), v) && row[n1] == Mul(v, Rot(c.turn, inverse, n1 * k2, n))
    ensures RowBegun(st, Run(Twiddle(c, inverse, n, k2, n1), mid, caller), k2, row, n1 + 1)
  {
    if n1 == 0 || k2 == 0 {
      Untwiddled(c.turn, inverse, v, n1, k2, n);
    } else {
      var w := Rot(c.turn, inverse, n1 * k2, n);
      var dst := Ref(Twiddled(k2), Out, n1);
      Run1(DeclareRotated(dst, Ref(Inner(n1), Out, k2), w), mid, caller);
      DeclareRotatedRuns(dst, Ref(Inner(n1), Out, k2), w, v, mid, caller);
      BindGrows(mid, Twiddled(k2), dst, row[n1]);
    }
  }

  /** Everything a row's twiddles read is in place. */
  ghost predicate InnersReady(env: Env, inner: (int, int) -> Complex, a: nat, k2: nat) {
    forall n1: nat :: n1 < a ==> InnerReady(env, inner, n1, k2)
  }

  lemma {:induction false} TwiddlesRun(c: Constants, inverse: bool, inner: (int, int) -> Complex, a: nat, n: nat, k2: nat, m: nat,
                                       st: State, caller: Caller)
    requires c.Valid() && n > 0 && m <= a && st.ok && Unused(st.env, Twiddled(k2)) && InnersReady(st.env, inner, a, k2)
    ensures RowBegun(st, Run(Twiddles(c, inverse, n, k2, m), st, caller), k2, RowOf(c.turn, inverse, inner, a, n, k2), m)
    decreases m
  {
    hide *;
    TwiddlesGrow(c, inverse, n, k2, m, st, caller);
    if m == 0 {
      NoTwiddles(st, k2, RowOf(c.turn, inverse, inner, a, n, k2));
    } else {
      TwiddlesRun(c, inverse, inner, a, n, k2, m - 1, st, caller);
      NextTwiddle(c, inverse, inner, a, n, k2, m - 1, st, Run(Twiddles(c, inverse, n, k2, m - 1), st, caller), caller);
    }
  }

  lemma NoTwiddles(st: State, k2: nat, row: seq<Complex>)
    requires st.ok && Unused(st.env, Twiddled(k2))
    ensures RowBegun(st, st, k2, row, 0)
  {
  }

  lemma NextTwiddle(c: Constants, inverse: bool, inner: (int, int) -> Complex, a: nat, n: nat, k2: nat, n1: nat,
                    st: State, mid: State, caller: Caller)
    requires c.Valid() && n > 0 && n1 < a && InnersReady(st.env, inner, a, k2)
    requires RowBegun(st, mid, k2, RowOf(c.turn, inverse, inner, a, n, k2), n1)
    ensures RowBegun(st, Run(Twiddle(c, inverse, n, k2, n1), mid, caller), k2, RowOf(c.turn, inverse, inner, a, n, k2), n1 + 1)
  {
    hide Run, Twiddle, RowBegun, Rot;
    assert InnerReady(st.env, inner, n1, k2);
    TwiddleRuns(c, inverse, n, k2, n1, inner(n1, k2), RowOf(c.turn, inverse, inner, a, n, k2), st, mid, caller);
  }

  lemma TwiddlesGrow(c: Constants, inverse: bool, n: nat, k2: nat, m: nat, st: State, caller: Caller)
    ensures m == 0 ==> Run(Twiddles(c, inverse, n, k2, m), st, caller) == st
    ensures m > 0 ==> Run(Twiddles(c, inverse, n, k2, m), st, caller)
                      == Run(Twiddle(c, inverse, n, k2, m - 1), Run(Twiddles(c, inverse, n, k2, m - 1), st, caller), caller)
  {
    hide Twiddle;
    if m > 0 {
      RunAppend(Twiddles(c, inverse, n, k2, m - 1), Twiddle(c, inverse, n, k2, m - 1), st, caller);
    }
  }

  lemma Untwiddled(t: Turn, inverse: bool, v: Complex, n1: nat, k2: nat, n: nat)
    requires IsTurn(t) && n > 0 && (n1 == 0 || k2 == 0)
    ensures Mul(v, Rot(t, inverse, n1 * k2, n)) == v
  {
    hide IsTurn;
    assert n1 * k2 == 0;
    ClosesAt(t, n);
  }

  // -------- the outputs of row k2

  /** Where output k1 of the outer transform of row k2 goes. */
  function Place(b: nat, k2: nat): nat -> nat {
    (k1: nat) => k2 + b * k1
  }

  /** One output of the outer transform copied to its place and, if the caller asked, told. */
  function Final(place: nat -> nat, k2: nat, k1: nat, told: bool): seq<Stmt> {
    [DeclareCopy(Ref(Result, Out, place(k1)), Ref(Outer(k2), Out, k1))] + if told then [Output(place(k1))] else []
  }

  function Finals(place: nat -> nat, k2: nat, m: nat, told: bool): seq<Stmt> {
    if m == 0 then [] else Finals(place, k2, m - 1, told) + Final(place, k2, m - 1, told)
  }

  function Places(place: nat -> nat, m: nat): seq<nat> {
    if m == 0 then [] else Places(place, m - 1) + [place(m - 1)]
  }

  /** The outputs named in order, and no others, are done: each was told, or is held. */
  ghost predicate ResultsDone(st0: State, st: State, v: int -> Complex, order: seq<nat>, told: bool) {
    && st.ok
    && (forall k: nat :: Ref(Result, Out, k) in st.env ==> k in order)
    && (if told then st.outputs == st0.outputs + Reports(v, order)
        else st.outputs == st0.outputs && forall k: nat :: k in order ==> Holds(st.env, Ref(Result, Out, k), v(k)))
  }

  lemma FinalBinds(mid: State, place: nat -> nat, k2: nat, k1: nat, v: Complex, told: bool, caller: Caller)
    requires mid.ok && Ref(Result, Out, place(k1)) !in mid.env && Holds(mid.env, Ref(Outer(k2), Out, k1), v)
    ensures var k := place(k1);
            Run(Final(place, k2, k1, told), mid, caller)
            == if told then State(mid.env[Ref(Result, Out, k) := caller(k, v)], mid.outputs + [(k, v)], true)
               else Bind(mid, Ref(Result, Out, k), v)
  {
    var k := place(k1);
    var s, tail := DeclareCopy(Ref(Result, Out, k), Ref(Outer(k2), Out, k1)), if told then [Output(k)] else [];
    RunFirst(s, tail, mid, caller);
    DeclareRuns(s, mid, v, caller);
    if told {
      Run1(Output(k), Bind(mid, s.dst, v), caller);
      assert mid.env[s.dst := v][s.dst := caller(k, v)] == mid.env[s.dst := caller(k, v)];
    }
  }

  lemma FinalRuns(st0: State, mid: State, v: int -> Complex, order: seq<nat>, place: nat -> nat, k2: nat, k1: nat, told: bool, caller: Caller)
    requires ResultsDone(st0, mid, v, order, told) && place(k1) !in order
    requires Holds(mid.env, Ref(Outer(k2), Out, k1), v(place(k1)))
    ensures var st' := Run(Final(place, k2, k1, told), mid, caller);
            ResultsDone(st0, st', v, order + [place(k1)], told) && OnlyTouches(mid.env, st'.env, Result)
  {
    var k := place(k1);
    FinalBinds(mid, place, k2, k1, v(k), told, caller);
    ReportsAppend(v, order, [k]);
    assert Reports(v, [k]) == [(k, v(k))];
  }

  /** place sends different outputs to different places, none of them in order. */
  ghost predicate FreshPlaces(place: nat -> nat, order: seq<nat>, a: nat) {
    forall i: nat :: i < a ==> place(i) !in order && forall j: nat :: j < i ==> place(j) != place(i)
  }

  lemma {:induction false} PlacesMembers(place: nat -> nat, m: nat)
    ensures |Places(place, m)| == m && forall i: nat :: i < m ==> Places(place, m)[i] == place(i)
  {
    if m > 0 {
      PlacesMembers(place, m - 1);
    }
  }

  /** The outer transform of row k2 stands, ready to be copied out. */
  ghost predicate OuterReady(env: Env, v: int -> Complex, place: nat -> nat, a: nat, k2: nat) {
    forall k1: nat :: k1 < a ==> Holds(env, Ref(Outer(k2), Out, k1), v(place(k1)))
  }

  /** The first m outputs of the row are copied out, and nothing else is touched. */
  ghost predicate FinalsDone(st0: State, st: State, st': State, v: int -> Complex, order: seq<nat>, place: nat -> nat, m: nat, told: bool) {
    ResultsDone(st0, st', v, order + Places(place, m), told) && OnlyTouches(st.env, st'.env, Result)
  }

  lemma {:induction false} FinalsRun(st0: State, st: State, v: int -> Complex, order: seq<nat>, place: nat -> nat, a: nat, k2: nat, m: nat,
                                     told: bool, caller: Caller)
    requires m <= a && ResultsDone(st0, st, v, order, told) && FreshPlaces(place, order, a)
    requires OuterReady(st.env, v, place, a, k2)
    ensures FinalsDone(st0, st, Run(Finals(place, k2, m, told), st, caller), v, order, place, m, told)
    decreases m
  {
    hide *;
    FinalsGrow(place, k2, m, told, st, caller);
    if m == 0 {
      NoFinals(st0, st, v, order, place, told);
    } else {
      FinalsRun(st0, st, v, order, place, a, k2, m - 1, told, caller);
      NextFinal(st0, st, Run(Finals(place, k2, m - 1, told), st, caller), v, order, place, a, k2, m - 1, told, caller);
    }
  }

  lemma NoFinals(st0: State, st: State, v: int -> Complex, order: seq<nat>, place: nat -> nat, told: bool)
    requires ResultsDone(st0, st, v, order, told)
    ensures FinalsDone(st0, st, st, v, order, place, 0, told)
  {
    assert order + Places(place, 0) == order;
  }

  lemma NextFinal(st0: State, st: State, mid: State, v: int -> Complex, order: seq<nat>, place: nat -> nat, a: nat, k2: nat, k1: nat,
                  told: bool, caller: Caller)
    requires k1 < a && FreshPlaces(place, order, a) && OuterReady(st.env, v, place, a, k2)
    requires FinalsDone(st0, st, mid, v, order, place, k1, told)
    ensures FinalsDone(st0, st, Run(Final(place, k2, k1, told), mid, caller), v, order, place, k1 + 1, told)
  {
    hide Run, Final, ResultsDone;
    PlacesMembers(place, k1);
    assert place(k1) !in Places(place, k1);
    assert Holds(mid.env, Ref(Outer(k2), Out, k1), v(place(k1)));
    FinalRuns(st0, mid, v, order + Places(place, k1), place, k2, k1, told, caller);
    assert order + Places(place, k1 + 1) == order + Places(place, k1) + [place(k1)];
  }

  lemma FinalsGrow(place: nat -> nat, k2: nat, m: nat, told: bool, st: State, caller: Caller)
    ensures m == 0 ==> Run(Finals(place, k2, m, told), st, caller) == st
    ensures m > 0 ==> Run(Finals(place, k2, m, told), st, caller)
                      == Run(Final(place, k2, m - 1, told), Run(Finals(place, k2, m - 1, told), st, caller), caller)
  {
    if m > 0 {
      RunAppend(Finals(place, k2, m - 1, told), Final(place, k2, m - 1, told), st, caller);
    }
  }

  /** The order in which the outputs of the first m rows complete. */
  function RowOrder(a: nat, b: nat, m: nat): seq<nat> {
    if m == 0 then [] else RowOrder(a, b, m - 1) + Places(Place(b, m - 1), a)
  }

  /** The first m rows name exactly the outputs that leave a remainder below m, each once. */
  lemma {:induction false} RowOrderMembers(a: nat, b: nat, m: nat)
    requires m <= b
    ensures |RowOrder(a, b, m)| == a * m
    ensures forall k: nat :: k in RowOrder(a, b, m) ==> k % b < m && k / b < a
    ensures forall k: nat :: b > 0 && k % b < m && k / b < a ==> k in RowOrder(a, b, m)
  {
    if m > 0 {
      RowOrderMembers(a, b, m - 1);
      PlacesMembers(Place(b, m - 1), a);
      assert a * m == a * (m - 1) + a;
      RowMembers(a, b, m - 1);
    }
  }

  lemma RowMembers(a: nat, b: nat, k2: nat)
    requires k2 < b
    ensures forall k: nat :: k in Places(Place(b, k2), a) <==> k % b == k2 && k / b < a
  {
    var row := Places(Place(b, k2), a);
    PlacesMembers(Place(b, k2), a);
    forall k: nat | k in row ensures k % b == k2 && k / b < a {
      var i: nat :| i < a && row[i] == k;
      Decode(b, i, k2);
    }
    forall k: nat | k % b == k2 && k / b < a ensures k in row {
      Recompose(k, b);
      assert row[k / b] == k;
    }
  }

  lemma RowIsFresh(a: nat, b: nat, k2: nat)
    requires k2 < b
    ensures FreshPlaces(Place(b, k2), RowOrder(a, b, k2), a)
  {
    RowOrderMembers(a, b, k2);
    forall i: nat | i < a
      ensures Place(b, k2)(i) !in RowOrder(a, b, k2) && forall j: nat :: j < i ==> Place(b, k2)(j) != Place(b, k2)(i)
    {
      Decode(b, i, k2);
      forall j: nat | j < i ensures Place(b, k2)(j) != Place(b, k2)(i) {
        Decode(b, j, k2);
      }
    }
  }

  // -------- the rows

  /** Row k2: its twiddles, the outer transform across it, and its outputs. */
  function Row(c: Constants, inverse: bool, a: nat, b: nat, k2: nat, told: bool): seq<Stmt>
    requires IsSmall(a)
  {
    Twiddles(c, inverse, a * b, k2, a) + (Small(c, inverse, AcrossRefs(a, k2), Outer(k2)) + Finals(Place(b, k2), k2, a, told))
  }

  function Rows(c: Constants, inverse: bool, a: nat, b: nat, m: nat, told: bool): seq<Stmt>
    requires IsSmall(a)
  {
    if m == 0 then [] else Rows(c, inverse, a, b, m - 1, told) + Row(c, inverse, a, b, m - 1, told)
  }

  function Factorized(c: Constants, inverse: bool, a: nat, b: nat, told: bool): seq<Stmt>
    requires IsSmall(a) && IsSmall(b)
  {
    Groups(c, inverse, a, b, a) + Rows(c, inverse, a, b, b, told)
  }

  /** The first m rows are done, the inner transforms still stand, and no name of a later row is in use. */
  ghost predicate RowsDone(st0: State, st: State, inner: (int, int) -> Complex, v: int -> Complex, a: nat, b: nat, m: nat, told: bool) {
    && ResultsDone(st0, st, v, RowOrder(a, b, m), told)
    && (forall n1: nat, k2: nat :: n1 < a && k2 < b ==> InnerReady(st.env, inner, n1, k2))
    && (forall r: Ref :: r in st.env ==>
          (r.prefix.Twiddled? ==> r.prefix.k2 < m) && (r.prefix.Outer? ==> r.prefix.k2 < m))
  }

  lemma RowCarries(env: Env, a: nat, k2: nat, row: seq<Complex>)
    requires |row| == a && RowReady(env, k2, row, a)
    ensures Carries(env, AcrossRefs(a, k2), row)
  {
  }

  lemma RowIsAcross(t: Turn, inverse: bool, x: seq<Complex>, inner: (int, int) -> Complex, a: nat, b: nat, k2: nat)
    requires IsInner(inner, t, inverse, x, a, b) && |x| == a * b
    ensures RowOf(t, inverse, inner, a, a * b, k2) == Across(t, inverse, x, a, b, k2)
  {
  }

  /** The outer transform of the twiddled row puts the right outputs in the right places. */
  lemma OuterRuns(c: Constants, inverse: bool, x: seq<Complex>, inner: (int, int) -> Complex, v: int -> Complex,
                  a: nat, b: nat, k2: nat, told: bool, st0: State, st: State, st1: State, caller: Caller)
    requires Setting(c, inverse, x, inner, v, a, b) && IsSmall(a) && k2 < b
    requires RowsDone(st0, st, inner, v, a, b, k2, told)
    requires RowBegun(st, st1, k2, RowOf(c.turn, inverse, inner, a, a * b, k2), a)
    ensures OuterDone(st1, Run(Small(c, inverse, AcrossRefs(a, k2), Outer(k2)), st1, caller), v, a, b, k2)
  {
    hide Run, Small, Dft, Across, RowOf, Transforms, OuterDone;
    var row := RowOf(c.turn, inverse, inner, a, a * b, k2);
    RowIsAcross(c.turn, inverse, x, inner, a, b, k2);
    RowCarries(st1.env, a, k2, row);
    SmallTransforms(c, inverse, AcrossRefs(a, k2), Outer(k2), row, st1, caller);
    OuterIsDft(c.turn, inverse, x, v, a, b, k2, st1, Run(Small(c, inverse, AcrossRefs(a, k2), Outer(k2)), st1, caller));
  }

  /** The outer transform of row k2 is done and touched nothing else. */
  ghost predicate OuterDone(st: State, st': State, v: int -> Complex, a: nat, b: nat, k2: nat) {
    Grows(st, st', Outer(k2)) && forall k1: nat :: k1 < a ==> Holds(st'.env, Ref(Outer(k2), Out, k1), v(Place(b, k2)(k1)))
  }

  lemma OuterIsDft(t: Turn, inverse: bool, x: seq<Complex>, v: int -> Complex, a: nat, b: nat, k2: nat, st: State, st': State)
    requires IsTurn(t) && a > 0 && b > 0 && |x| == a * b && IsSpectrum(v, t, inverse, x)
    requires Transforms(st, st', Outer(k2), t, inverse, Across(t, inverse, x, a, b, k2))
    ensures OuterDone(st, st', v, a, b, k2)
  {
    hide IsTurn, Dft, Across;
    forall k1: nat | k1 < a ensures Holds(st'.env, Ref(Outer(k2), Out, k1), v(Place(b, k2)(k1))) {
      CooleyTukey(t, inverse, x, a, b, k1, k2);
    }
  }

  lemma RowRuns(c: Constants, inverse: bool, x: seq<Complex>, inner: (int, int) -> Complex, v: int -> Complex,
                a: nat, b: nat, k2: nat, told: bool, st0: State, st: State, caller: Caller)
    requires Setting(c, inverse, x, inner, v, a, b) && IsSmall(a) && k2 < b
    requires RowsDone(st0, st, inner, v, a, b, k2, told)
    ensures RowsDone(st0, Run(Row(c, inverse, a, b, k2, told), st, caller), inner, v, a, b, k2 + 1, told)
  {
    hide *;
    var p1, p2 := Twiddles(c, inverse, a * b, k2, a), Small(c, inverse, AcrossRefs(a, k2), Outer(k2));
    var p3 := Finals(Place(b, k2), k2, a, told);
    var st1 := Run(p1, st, caller);
    var st2 := Run(p2, st1, caller);
    RowSplits(c, inverse, a, b, k2, told, st, caller);
    RowTwiddled(c, inverse, x, inner, v, a, b, k2, told, st0, st, caller);
    OuterRuns(c, inverse, x, inner, v, a, b, k2, told, st0, st, st1, caller);
    RowEnds(inner, v, RowOf(c.turn, inverse, inner, a, a * b, k2), a, b, k2, told, st0, st, st1, st2, caller);
  }

  lemma RowSplits(c: Constants, inverse: bool, a: nat, b: nat, k2: nat, told: bool, st: State, caller: Caller)
    requires IsSmall(a)
    ensures Run(Row(c, inverse, a, b, k2, told), st, caller)
            == Run(Finals(Place(b, k2), k2, a, told),
                   Run(Small(c, inverse, AcrossRefs(a, k2), Outer(k2)), Run(Twiddles(c, inverse, a * b, k2, a), st, caller), caller), caller)
  {
    hide Run, Twiddles, Small, Finals;
    var p1, p2 := Twiddles(c, inverse, a * b, k2, a), Small(c, inverse, AcrossRefs(a, k2), Outer(k2));
    var p3 := Finals(Place(b, k2), k2, a, told);
    RunAppend(p1, p2 + p3, st, caller);
    RunAppend(p2, p3, Run(p1, st, caller), caller);
  }

  lemma RowTwiddled(c: Constants, inverse: bool, x: seq<Complex>, inner: (int, int) -> Complex, v: int -> Complex,
                    a: nat, b: nat, k2: nat, told: bool, st0: State, st: State, caller: Caller)
    requires Setting(c, inverse, x, inner, v, a, b) && IsSmall(a) && k2 < b
    requires RowsDone(st0, st, inner, v, a, b, k2, told)
    ensures RowBegun(st, Run(Twiddles(c, inverse, a * b, k2, a), st, caller), k2, RowOf(c.turn, inverse, inner, a, a * b, k2), a)
  {
    hide Run, Twiddles, InnerReady, RowBegun;
    assert a * b > 0;
    assert InnersReady(st.env, inner, a, k2);
    TwiddlesRun(c, inverse, inner, a, a * b, k2, a, st, caller);
  }

  lemma RowEnds(inner: (int, int) -> Complex, v: int -> Complex, row: seq<Complex>, a: nat, b: nat, k2: nat, told: bool,
                st0: State, st: State, st1: State, st2: State, caller: Caller)
    requires k2 < b && |row| == a && RowsDone(st0, st, inner, v, a, b, k2, told)
    requires RowBegun(st, st1, k2, row, a) && OuterDone(st1, st2, v, a, b, k2)
    ensures RowsDone(st0, Run(Finals(Place(b, k2), k2, a, told), st2, caller), inner, v, a, b, k2 + 1, told)
  {
    hide *;
    var st3 := Run(Finals(Place(b, k2), k2, a, told), st2, caller);
    RowIsFresh(a, b, k2);
    RowCanEnd(inner, v, row, a, b, k2, told, st0, st, st1, st2);
    FinalsRun(st0, st2, v, RowOrder(a, b, k2), Place(b, k2), a, k2, a, told, caller);
    RowEnded(inner, v, row, a, b, k2, told, st0, st, st1, st2, st3);
  }

  lemma RowCanEnd(inner: (int, int) -> Complex, v: int -> Complex, row: seq<Complex>, a: nat, b: nat, k2: nat, told: bool,
                  st0: State, st: State, st1: State, st2: State)
    requires k2 < b && |row| == a && RowsDone(st0, st, inner, v, a, b, k2, told)
    requires RowBegun(st, st1, k2, row, a) && OuterDone(st1, st2, v, a, b, k2)
    ensures ResultsDone(st0, st2, v, RowOrder(a, b, k2), told) && OuterReady(st2.env, v, Place(b, k2), a, k2)
  {
    hide RowOrder, Place, RowReady;
  }

  lemma RowEnded(inner: (int, int) -> Complex, v: int -> Complex, row: seq<Complex>, a: nat, b: nat, k2: nat, told: bool,
                 st0: State, st: State, st1: State, st2: State, st3: State)
    requires k2 < b && |row| == a && RowsDone(st0, st, inner, v, a, b, k2, told)
    requires RowBegun(st, st1, k2, row, a) && OuterDone(st1, st2, v, a, b, k2)
    requires FinalsDone(st0, st2, st3, v, RowOrder(a, b, k2), Place(b, k2), a, told)
    ensures RowsDone(st0, st3, inner, v, a, b, k2 + 1, told)
  {
    hide Place, RowReady, ResultsDone;
    forall n1: nat, j: nat | n1 < a && j < b ensures InnerReady(st3.env, inner, n1, j) {
      assert InnerReady(st.env, inner, n1, j);
    }
  }

  lemma {:induction false} RowsRun(c: Constants, inverse: bool, x: seq<Complex>, inner: (int, int) -> Complex, v: int -> Complex,
                                   a: nat, b: nat, m: nat, told: bool, st0: State, st: State, caller: Caller)
    requires Setting(c, inverse, x, inner, v, a, b) && IsSmall(a) && m <= b
    requires RowsDone(st0, st, inner, v, a, b, 0, told)
    ensures RowsDone(st0, Run(Rows(c, inverse, a, b, m, told), st, caller), inner, v, a, b, m, told)
    decreases m
  {
    hide *;
    RowsGrow(c, inverse, a, b, m, told, st, caller);
    if m > 0 {
      RowsRun(c, inverse, x, inner, v, a, b, m - 1, told, st0, st, caller);
      RowRuns(c, inverse, x, inner, v, a, b, m - 1, told, st0, Run(Rows(c, inverse, a, b, m - 1, told), st, caller), caller);
    }
  }

  lemma RowsGrow(c: Constants, inverse: bool, a: nat, b: nat, m: nat, told: bool, st: State, caller: Caller)
    requires IsSmall(a)
    ensures m == 0 ==> Run(Rows(c, inverse, a, b, m, told), st, caller) == st
    ensures m > 0 ==> Run(Rows(c, inverse, a, b, m, told), st, caller)
                      == Run(Row(c, inverse, a, b, m - 1, told), Run(Rows(c, inverse, a, b, m - 1, told), st, caller), caller)
  {
    if m > 0 {
      RunAppend(Rows(c, inverse, a, b, m - 1, told), Row(c, inverse, a, b, m - 1, told), st, caller);
    }
  }

  /** The factorised program, from nothing but the operands, completes every output of the
      (a*b)-point transform, each once, in row order. */
  lemma FactorizedRuns(c: Constants, inverse: bool, x: seq<Complex>, v: int -> Complex, a: nat, b: nat, told: bool, st: State, caller: Caller)
    requires c.Valid() && IsSmall(a) && IsSmall(b) && |x| == a * b && IsSpectrum(v, c.turn, inverse, x)
    requires st.ok && OperandsOnly(st.env, x)
    ensures ResultsDone(st, Run(Factorized(c, inverse, a, b, told), st, caller), v, RowOrder(a, b, b), told)
  {
    hide *;
    var inner := InnerValues(c, inverse, x, v, a, b);
    var mid := Run(Groups(c, inverse, a, b, a), st, caller);
    GroupsRun(c, inverse, x, inner, v, a, b, a, st, caller);
    NothingYet(st, mid, inner, v, a, b, told);
    RowsRun(c, inverse, x, inner, v, a, b, b, told, st, mid, caller);
    FactorizedSplits(c, inverse, a, b, told, st, caller);
    AllRowsDone(st, Run(Rows(c, inverse, a, b, b, told), mid, caller), inner, v, a, b, told);
  }

  lemma InnerValues(c: Constants, inverse: bool, x: seq<Complex>, v: int -> Complex, a: nat, b: nat)
    returns (inner: (int, int) -> Complex)
    requires c.Valid() && IsSmall(b) && |x| == a * b && IsSpectrum(v, c.turn, inverse, x)
    ensures Setting(c, inverse, x, inner, v, a, b)
  {
    inner := (n1: int, k2: int) => Dft(c.turn, inverse, Stride(x, a, b, n1), k2);
  }

  lemma FactorizedSplits(c: Constants, inverse: bool, a: nat, b: nat, told: bool, st: State, caller: Caller)
    requires IsSmall(a) && IsSmall(b)
    ensures Run(Factorized(c, inverse, a, b, told), st, caller)
            == Run(Rows(c, inverse, a, b, b, told), Run(Groups(c, inverse, a, b, a), st, caller), caller)
  {
    hide Run, Groups, Rows;
    RunAppend(Groups(c, inverse, a, b, a), Rows(c, inverse, a, b, b, told), st, caller);
  }

  lemma AllRowsDone(st0: State, st: State, inner: (int, int) -> Complex, v: int -> Complex, a: nat, b: nat, told: bool)
    requires RowsDone(st0, st, inner, v, a, b, b, told)
    ensures ResultsDone(st0, st, v, RowOrder(a, b, b), told)
  {
  }

  lemma NothingYet(st: State, mid: State, inner: (int, int) -> Complex, v: int -> Complex, a: nat, b: nat, told: bool)
    requires GroupsDone(st, mid, inner, b, a)
    ensures RowsDone(st, mid, inner, v, a, b, 0, told)
  {
    assert Reports(v, RowOrder(a, b, 0)) == [];
  }
}
