/** The choice of a form for each radix, and the emitter that appends its statements. */
module Butterflies {
  import opened Complexes
  import opened DivMod
  import opened Permutations
  import opened Fourier
  import opened StraightLine
  import opened SmallButterflies
  import opened OddButterflies
  import opened SymmetricButterflies
  import opened FactorizedButterflies

  datatype Form = Fixed | Factored(a: nat, b: nat) | Mirrored(h: nat) | Rejected

  /** Every radix from 2 to 17 has a form of its own size, and no other radix has one. */
  function FormOf(radix: nat): (f: Form)
    ensures f.Rejected? <==> radix < 2 || radix > 17
    ensures f.Fixed? ==> IsSmall(radix)
    ensures f.Factored? ==> IsSmall(f.a) && IsSmall(f.b) && f.a * f.b == radix
    ensures f.Mirrored? ==> radix == 2 * f.h + 1
  {
    if radix == 2 || radix == 3 || radix == 4 || radix == 5 then Fixed
    else if radix == 6 then Factored(2, 3)
    else if radix == 8 then Factored(2, 4)
    else if radix == 9 then Factored(3, 3)
    else if radix == 10 then Factored(2, 5)
    else if radix == 16 then Factored(4, 4)
    else if radix == 12 then Factored(3, 4)
    else if radix == 14 then Factored(2, 7)
    else if radix == 15 then Factored(3, 5)
    else if radix == 7 || radix == 11 || radix == 13 || radix == 17 then Mirrored((radix - 1) / 2)
    else Rejected
  }

  function Loaded(radix: nat): (r: seq<Ref>)
    ensures |r| == radix
  {
    seq(radix, j requires 0 <= j < radix => Ref(Operand, Out, j))
  }

  function Tell(n: nat): seq<Stmt> {
    if n == 0 then [] else Tell(n - 1) + [Output(n - 1)]
  }

  function Ascending(n: nat): seq<nat> {
    if n == 0 then [] else Ascending(n - 1) + [n - 1]
  }

  /** The program for a radix; told marks where the caller is called back. */
  function Program(c: Constants, radix: nat, inverse: bool, told: bool): seq<Stmt>
    requires !FormOf(radix).Rejected?
  {
    match FormOf(radix)
    case Fixed => Small(c, inverse, Loaded(radix), Result) + if told then Tell(radix) else []
    case Factored(a, b) => Factorized(c, inverse, a, b, told)
    case Mirrored(h) => Symmetric(c.turn, inverse, Loaded(radix), Result, h, told)
  }

  /** The order in which the caller is called back. */
  function CompletionOrder(radix: nat): seq<nat>
    requires !FormOf(radix).Rejected?
  {
    match FormOf(radix)
    case Fixed => Ascending(radix)
    case Factored(a, b) => RowOrder(a, b, b)
    case Mirrored(h) => Order(radix, h)
  }

  // -------- the order of the outputs

  /** One row more of a factored radix with rows of up to four outputs. */
  lemma NextRow(a: nat, b: nat, m: nat)
    requires m > 0 && 2 <= a <= 4
    ensures var k := m - 1;
            RowOrder(a, b, m) == RowOrder(a, b, m - 1)
                                 + if a == 2 then [k, k + b] else if a == 3 then [k, k + b, k + 2 * b] else [k, k + b, k + 2 * b, k + 3 * b]
  {
    var place := Place(b, m - 1);
    assert place(0) == m - 1 && place(1) == m - 1 + b && place(2) == m - 1 + 2 * b && place(3) == m - 1 + 3 * b;
    FirstPlaces(place);
  }

  lemma FirstPlaces(place: nat -> nat)
    ensures Places(place, 2) == [place(0), place(1)]
    ensures Places(place, 3) == [place(0), place(1), place(2)]
    ensures Places(place, 4) == [place(0), place(1), place(2), place(3)]
  {
    assert Places(place, 1) == [place(0)];
    assert Places(place, 2) == [place(0), place(1)];
    assert Places(place, 3) == [place(0), place(1), place(2)];
  }

  lemma NoRow(a: nat, b: nat)
    ensures RowOrder(a, b, 0) == []
  {
  }

  lemma NextPair(n: nat, m: nat)
    requires 0 < m < n
    ensures Order(n, m) == Order(n, m - 1) + [m, n - m]
  {
  }

  lemma NoPair(n: nat)
    requires n > 0
    ensures Order(n, 0) == [0]
  {
  }

  lemma Order6()
    ensures CompletionOrder(6) == [0, 3, 1, 4, 2, 5]
  {
    hide RowOrder;
    NoRow(2, 3);
    NextRow(2, 3, 1);
    NextRow(2, 3, 2);
    NextRow(2, 3, 3);
  }

  lemma Order8()
    ensures CompletionOrder(8) == [0, 4, 1, 5, 2, 6, 3, 7]
  {
    hide RowOrder;
    NoRow(2, 4);
    NextRow(2, 4, 1);
    NextRow(2, 4, 2);
    NextRow(2, 4, 3);
    NextRow(2, 4, 4);
  }

  lemma Order9()
    ensures CompletionOrder(9) == [0, 3, 6, 1, 4, 7, 2, 5, 8]
  {
    hide RowOrder;
    NoRow(3, 3);
    NextRow(3, 3, 1);
    NextRow(3, 3, 2);
    NextRow(3, 3, 3);
  }

  lemma Order10()
    ensures CompletionOrder(10) == [0, 5, 1, 6, 2, 7, 3, 8, 4, 9]
  {
    hide RowOrder;
    NoRow(2, 5);
    NextRow(2, 5, 1);
    NextRow(2, 5, 2);
    NextRow(2, 5, 3);
    NextRow(2, 5, 4);
    NextRow(2, 5, 5);
  }

  lemma Order12()
    ensures CompletionOrder(12) == [0, 4, 8, 1, 5, 9, 2, 6, 10, 3, 7, 11]
  {
    hide RowOrder;
    NoRow(3, 4);
    NextRow(3, 4, 1);
    NextRow(3, 4, 2);
    NextRow(3, 4, 3);
    NextRow(3, 4, 4);
  }

  lemma Order14()
    ensures CompletionOrder(14) == [0, 7, 1, 8, 2, 9, 3, 10, 4, 11, 5, 12, 6, 13]
  {
    hide RowOrder;
    NoRow(2, 7);
    NextRow(2, 7, 1);
    NextRow(2, 7, 2);
    NextRow(2, 7, 3);
    NextRow(2, 7, 4);
    NextRow(2, 7, 5);
    NextRow(2, 7, 6);
    NextRow(2, 7, 7);
  }

  lemma Order15()
    ensures CompletionOrder(15) == [0, 5, 10, 1, 6, 11, 2, 7, 12, 3, 8, 13, 4, 9, 14]
  {
    hide RowOrder;
    NoRow(3, 5);
    NextRow(3, 5, 1);
    NextRow(3, 5, 2);
    NextRow(3, 5, 3);
    NextRow(3, 5, 4);
    NextRow(3, 5, 5);
  }

  lemma Order16()
    ensures CompletionOrder(16) == [0, 4, 8, 12, 1, 5, 9, 13, 2, 6, 10, 14, 3, 7, 11, 15]
  {
    hide RowOrder;
    NoRow(4, 4);
    NextRow(4, 4, 1);
    NextRow(4, 4, 2);
    NextRow(4, 4, 3);
    NextRow(4, 4, 4);
  }

  lemma Order7()
    ensures CompletionOrder(7) == [0, 1, 6, 2, 5, 3, 4]
  {
    hide Order;
    NoPair(7);
    NextPair(7, 1);
    NextPair(7, 2);
    NextPair(7, 3);
  }

  lemma Order11()
    ensures CompletionOrder(11) == [0, 1, 10, 2, 9, 3, 8, 4, 7, 5, 6]
  {
    hide Order;
    NoPair(11);
    NextPair(11, 1);
    NextPair(11, 2);
    NextPair(11, 3);
    NextPair(11, 4);
    NextPair(11, 5);
  }

  lemma Order13()
    ensures CompletionOrder(13) == [0, 1, 12, 2, 11, 3, 10, 4, 9, 5, 8, 6, 7]
  {
    hide Order;
    NoPair(13);
    NextPair(13, 1);
    NextPair(13, 2);
    NextPair(13, 3);
    NextPair(13, 4);
    NextPair(13, 5);
    NextPair(13, 6);
  }

  lemma Order17()
    ensures CompletionOrder(17) == [0, 1, 16, 2, 15, 3, 14, 4, 13, 5, 12, 6, 11, 7, 10, 8, 9]
  {
    hide Order;
    NoPair(17);
    NextPair(17, 1);
    NextPair(17, 2);
    NextPair(17, 3);
    NextPair(17, 4);
    NextPair(17, 5);
    NextPair(17, 6);
    NextPair(17, 7);
    NextPair(17, 8);
  }

  /** The outputs of each radix in the order they are completed. */
  lemma CompletionOrders()
    ensures CompletionOrder(2) == [0, 1]
    ensures CompletionOrder(3) == [0, 1, 2]
    ensures CompletionOrder(4) == [0, 1, 2, 3]
    ensures CompletionOrder(5) == [0, 1, 2, 3, 4]
    ensures CompletionOrder(6) == [0, 3, 1, 4, 2, 5]
    ensures CompletionOrder(7) == [0, 1, 6, 2, 5, 3, 4]
    ensures CompletionOrder(8) == [0, 4, 1, 5, 2, 6, 3, 7]
    ensures CompletionOrder(9) == [0, 3, 6, 1, 4, 7, 2, 5, 8]
    ensures CompletionOrder(10) == [0, 5, 1, 6, 2, 7, 3, 8, 4, 9]
    ensures CompletionOrder(11) == [0, 1, 10, 2, 9, 3, 8, 4, 7, 5, 6]
    ensures CompletionOrder(12) == [0, 4, 8, 1, 5, 9, 2, 6, 10, 3, 7, 11]
    ensures CompletionOrder(13) == [0, 1, 12, 2, 11, 3, 10, 4, 9, 5, 8, 6, 7]
    ensures CompletionOrder(14) == [0, 7, 1, 8, 2, 9, 3, 10, 4, 11, 5, 12, 6, 13]
    ensures CompletionOrder(15) == [0, 5, 10, 1, 6, 11, 2, 7, 12, 3, 8, 13, 4, 9, 14]
    ensures CompletionOrder(16) == [0, 4, 8, 12, 1, 5, 9, 13, 2, 6, 10, 14, 3, 7, 11, 15]
    ensures CompletionOrder(17) == [0, 1, 16, 2, 15, 3, 14, 4, 13, 5, 12, 6, 11, 7, 10, 8, 9]
  {
    hide RowOrder, Order;
    assert Ascending(2) == [0, 1];
    assert Ascending(3) == [0, 1, 2];
    assert Ascending(4) == [0, 1, 2, 3];
    assert Ascending(5) == [0, 1, 2, 3, 4];
    Order6();
    Order7();
    Order8();
    Order9();
    Order10();
    Order11();
    Order12();
    Order13();
    Order14();
    Order15();
    Order16();
    Order17();
  }

  // -------- the caller is called back once for each output

  lemma {:induction false} AscendingPermutes(n: nat)
    ensures Permutes(Ascending(n), n)
  {
    if n > 0 {
      AscendingPermutes(n - 1);
    }
  }

  lemma OrderPermutes(radix: nat)
    requires !FormOf(radix).Rejected?
    ensures Permutes(CompletionOrder(radix), radix)
  {
    match FormOf(radix)
    case Fixed => AscendingPermutes(radix);
    case Factored(a, b) =>
      RowOrderMembers(a, b, b);
      forall k: nat ensures k in RowOrder(a, b, b) <==> k < radix {
        assert b * a == radix;
        Below(k, b, a);
      }
    case Mirrored(h) => OrderComplete(radix, h);
  }

  // -------- what the program computes

  /** Every output of the transform has been told to the caller in order, or stands in its variables. */
  ghost predicate Delivered(st: State, st': State, v: int -> Complex, order: seq<nat>, told: bool) {
    && st'.ok
    && (if told then st'.outputs == st.outputs + Reports(v, order)
        else st'.outputs == st.outputs && forall k: nat :: k in order ==> Holds(st'.env, Ref(Result, Out, k), v(k)))
  }

  /** Outputs 0 to m - 1 have been told, and the rest stand. */
  ghost predicate Telling(st: State, st': State, v: int -> Complex, n: nat, m: nat) {
    && st'.ok && st'.outputs == st.outputs + Reports(v, Ascending(m))
    && (forall k: nat :: m <= k < n ==> Holds(st'.env, Ref(Result, Out, k), v(k)))
  }

  lemma {:induction false} TellRuns(v: int -> Complex, n: nat, m: nat, st: State, caller: Caller)
    requires st.ok && m <= n && forall k: nat :: k < n ==> Holds(st.env, Ref(Result, Out, k), v(k))
    ensures Telling(st, Run(Tell(m), st, caller), v, n, m)
  {
    hide Run, Telling, Exec;
    if m == 0 {
      RunNothing(st, caller);
      TellNothing(v, n, st);
    } else {
      TellRuns(v, n, m - 1, st, caller);
      RunAppend(Tell(m - 1), [Output(m - 1)], st, caller);
      Run1(Output(m - 1), Run(Tell(m - 1), st, caller), caller);
      TellNext(v, n, m, st, Run(Tell(m - 1), st, caller), caller);
    }
  }

  lemma TellNothing(v: int -> Complex, n: nat, st: State)
    requires st.ok && forall k: nat :: k < n ==> Holds(st.env, Ref(Result, Out, k), v(k))
    ensures Telling(st, st, v, n, 0)
  {
    assert Reports(v, Ascending(0)) == [];
  }

  lemma TellNext(v: int -> Complex, n: nat, m: nat, st: State, mid: State, caller: Caller)
    requires 0 < m <= n && Telling(st, mid, v, n, m - 1)
    ensures Telling(st, Exec(Output(m - 1), mid, caller), v, n, m)
  {
    hide Reports;
    ReportsAppend(v, Ascending(m - 1), [m - 1]);
    ReportOne(v, m - 1);
  }

  lemma ReportOne(v: int -> Complex, k: nat)
    ensures Reports(v, [k]) == [(k, v(k))]
  {
  }

  lemma FixedDelivers(c: Constants, radix: nat, inverse: bool, told: bool, x: seq<Complex>, st: State, caller: Caller)
    requires FormOf(radix).Fixed? && c.Valid() && |x| == radix && st.ok && OperandsOnly(st.env, x)
    ensures Delivered(st, Run(Program(c, radix, inverse, told), st, caller), Spectrum(c.turn, inverse, x), CompletionOrder(radix), told)
  {
    hide Run, Small, Dft, Tell, Ascending;
    var v := Spectrum(c.turn, inverse, x);
    var mid := Run(Small(c, inverse, Loaded(radix), Result), st, caller);
    RunAppend(Small(c, inverse, Loaded(radix), Result), if told then Tell(radix) else [], st, caller);
    SmallTransforms(c, inverse, Loaded(radix), Result, x, st, caller);
    AscendingPermutes(radix);
    if told {
      TellRuns(v, radix, radix, mid, caller);
      assert Telling(mid, Run(Tell(radix), mid, caller), v, radix, radix);
    } else {
      RunNothing(mid, caller);
    }
  }

  lemma RunNothing(st: State, caller: Caller)
    ensures Run([], st, caller) == st
  {
  }

  lemma FactoredDelivers(c: Constants, radix: nat, inverse: bool, told: bool, x: seq<Complex>, st: State, caller: Caller)
    requires FormOf(radix).Factored? && c.Valid() && |x| == radix && st.ok && OperandsOnly(st.env, x)
    ensures Delivered(st, Run(Program(c, radix, inverse, told), st, caller), Spectrum(c.turn, inverse, x), CompletionOrder(radix), told)
  {
    hide Run, Factorized, Dft, RowOrder;
    var f := FormOf(radix);
    FactorizedRuns(c, inverse, x, Spectrum(c.turn, inverse, x), f.a, f.b, told, st, caller);
  }

  lemma MirroredDelivers(c: Constants, radix: nat, inverse: bool, told: bool, x: seq<Complex>, st: State, caller: Caller)
    requires FormOf(radix).Mirrored? && c.Valid() && |x| == radix && st.ok && OperandsOnly(st.env, x)
    ensures Delivered(st, Run(Program(c, radix, inverse, told), st, caller), Spectrum(c.turn, inverse, x), CompletionOrder(radix), told)
  {
    hide Run, Symmetric, Dft, Order;
    var f := FormOf(radix);
    SymmetricRuns(c.turn, inverse, Loaded(radix), Result, x, f.h, told, st, caller);
    OrderComplete(radix, f.h);
  }

  /** The emitted butterfly, started with nothing but its operands and whatever the caller
      does to the outputs it is told of, declares each name once and before its use, and
      delivers every output of the transform, forward or inverse, exactly once. */
  lemma ButterflyTransforms(c: Constants, radix: nat, inverse: bool, told: bool, x: seq<Complex>, st: State, caller: Caller)
    requires !FormOf(radix).Rejected? && c.Valid() && |x| == radix && st.ok && OperandsOnly(st.env, x)
    ensures Delivered(st, Run(Program(c, radix, inverse, told), st, caller), Spectrum(c.turn, inverse, x), CompletionOrder(radix), told)
    ensures Permutes(CompletionOrder(radix), radix)
  {
    hide Run, Program, CompletionOrder, Delivered, Dft;
    OrderPermutes(radix);
    match FormOf(radix)
    case Fixed => FixedDelivers(c, radix, inverse, told, x, st, caller);
    case Factored(_, _) => FactoredDelivers(c, radix, inverse, told, x, st, caller);
    case Mirrored(_) => MirroredDelivers(c, radix, inverse, told, x, st, caller);
  }

  /** What stands in the outputs' variables, in a given order. */
  function Found(env: Env, order: seq<nat>): seq<(nat, Complex)> {
    seq(|order|, i requires 0 <= i < |order| => (order[i], Get(env, Ref(Result, Out, order[i]))))
  }

  /** What the caller is told half way through is what it would have found in the output's
      variables had it waited for the whole butterfly. */
  lemma InterleavingIsSafe(c: Constants, radix: nat, inverse: bool, x: seq<Complex>, st: State, caller: Caller, other: Caller)
    requires !FormOf(radix).Rejected? && c.Valid() && |x| == radix && st.ok && OperandsOnly(st.env, x)
    ensures var after := Run(Program(c, radix, inverse, false), st, other);
            && (forall k: nat :: k < radix ==> Ref(Result, Out, k) in after.env)
            && Run(Program(c, radix, inverse, true), st, caller).outputs == st.outputs + Found(after.env, CompletionOrder(radix))
  {
    hide Run, Program, CompletionOrder, Dft;
    ButterflyTransforms(c, radix, inverse, true, x, st, caller);
    ButterflyTransforms(c, radix, inverse, false, x, st, other);
    var after := Run(Program(c, radix, inverse, false), st, other);
    WhatIsHeldIsFound(after.env, Spectrum(c.turn, inverse, x), CompletionOrder(radix));
  }

  lemma WhatIsHeldIsFound(env: Env, v: int -> Complex, order: seq<nat>)
    requires forall k: nat :: k in order ==> Holds(env, Ref(Result, Out, k), v(k))
    ensures Reports(v, order) == Found(env, order)
  {
    forall i | 0 <= i < |order| ensures Reports(v, order)[i] == Found(env, order)[i] {
      assert order[i] in order;
    }
  }

  // -------- the emitter

  class Emitter {
    var lines: seq<Stmt>

    constructor ()
      ensures lines == []
    {
      lines := [];
    }

    method Emit(s: Stmt)
      modifies this
      ensures lines == old(lines) + [s]
    {
      lines := lines + [s];
    }

    method EmitPairUps(ins: seq<Ref>, p: Prefix, half: nat)
      requires half < |ins|
      modifies this
      ensures lines == old(lines) + PairUps(ins, p, half)
    {
      var j := 1;
      while j <= half
        invariant 1 <= j <= half + 1
        invariant lines == old(lines) + PairUps(ins, p, j - 1)
      {
        var q := |ins| - j;
        Emit(DeclareSum(Ref(p, SumOf, j), ins[j], ins[q]));
        Emit(DeclareDiff(Ref(p, DiffOf, j), ins[j], ins[q]));
        j := j + 1;
      }
    }

    method EmitZeroOut(ins: seq<Ref>, p: Prefix, half: nat)
      requires half < |ins|
      modifies this
      ensures lines == old(lines) + ZeroOut(ins, p, half)
    {
      Emit(DeclareCopy(Ref(p, Out, 0), ins[0]));
      var j := 1;
      while j <= half
        invariant 1 <= j <= half + 1
        invariant lines == old(lines) + ZeroOut(ins, p, j - 1)
      {
        Emit(AddTo(Ref(p, Out, 0), Re(Ref(p, SumOf, j)), Im(Ref(p, SumOf, j))));
        j := j + 1;
      }
    }

    method EmitTwoOuts(t: Turn, inverse: bool, ins: seq<Ref>, p: Prefix, k: nat, half: nat)
      requires 0 < k < |ins|
      modifies this
      ensures lines == old(lines) + TwoOuts(t, inverse, ins, p, k, half)
    {
      var nk := |ins| - k;
      Emit(DeclareCopy(Ref(p, Out, k), ins[0]));
      Emit(DeclareCopy(Ref(p, Out, nk), ins[0]));
      var j := 1;
      while j <= half
        invariant 1 <= j <= half + 1
        invariant lines == old(lines) + TwoOuts(t, inverse, ins, p, k, j - 1)
      {
        var w := t(k * j, |ins|);
        Emit(AddPair(Ref(p, Out, k), p, j, w, inverse));
        Emit(AddPair(Ref(p, Out, nk), p, j, w, !inverse));
        j := j + 1;
      }
    }

    method EmitOutputs(t: Turn, inverse: bool, ins: seq<Ref>, p: Prefix, half: nat, told: bool)
      requires |ins| == 2 * half + 1
      modifies this
      ensures lines == old(lines) + Outputs(t, inverse, ins, p, half, half, told)
    {
      hide ZeroOut, TwoOuts, Outputs;
      OutputsGrow(t, inverse, ins, p, half, 0, told);
      EmitZeroOut(ins, p, half);
      if told {
        Emit(Output(0));
      }
      var k := 1;
      while k <= half
        invariant 1 <= k <= half + 1
        invariant lines == old(lines) + Outputs(t, inverse, ins, p, half, k - 1, told)
      {
        OutputsGrow(t, inverse, ins, p, half, k, told);
        ghost var before, two := lines, TwoOuts(t, inverse, ins, p, k, half);
        EmitTwoOuts(t, inverse, ins, p, k, half);
        if told {
          Emit(Output(k));
          Emit(Output(|ins| - k));
        }
        assert lines == before + (two + if told then [Output(k), Output(|ins| - k)] else []);
        k := k + 1;
      }
    }

    method EmitSymmetric(t: Turn, inverse: bool, ins: seq<Ref>, p: Prefix, told: bool)
      requires |ins| % 2 == 1
      modifies this
      ensures lines == old(lines) + Symmetric(t, inverse, ins, p, (|ins| - 1) / 2, told)
    {
      hide PairUps, Outputs;
      var half := (|ins| - 1) / 2;
      EmitPairUps(ins, p, half);
      EmitOutputs(t, inverse, ins, p, half, told);
    }

    method EmitSmall(c: Constants, inverse: bool, ins: seq<Ref>, p: Prefix)
      requires IsSmall(|ins|)
      modifies this
      ensures lines == old(lines) + Small(c, inverse, ins, p)
    {
      hide Radix2, Radix3, Radix4, Radix5, Symmetric, FifthsOf;
      if |ins| == 2 {
        lines := lines + Radix2(ins, p);
      } else if |ins| == 3 {
        lines := lines + Radix3(ins, p, inverse, c.halfRoot3);
      } else if |ins| == 4 {
        lines := lines + Radix4(ins, p, inverse);
      } else if |ins| == 5 {
        lines := lines + Radix5(ins, p, inverse, FifthsOf(c.turn));
      } else {
        EmitSymmetric(c.turn, inverse, ins, p, false);
      }
    }

    /** The twiddles of row k2, and the list of names the outer transform reads. */
    method EmitTwiddles(c: Constants, inverse: bool, radix: nat, k2: nat, a: nat) returns (across: seq<Ref>)
      modifies this
      ensures lines == old(lines) + Twiddles(c, inverse, radix, k2, a)
      ensures across == AcrossRefs(a, k2)
    {
      across := [];
      var n1 := 0;
      while n1 < a
        invariant 0 <= n1 <= a && across == AcrossRefs(n1, k2)
        invariant lines == old(lines) + Twiddles(c, inverse, radix, k2, n1)
      {
        if n1 == 0 || k2 == 0 {
          across := across + [Ref(Inner(n1), Out, k2)];
        } else {
          var dst := Ref(Twiddled(k2), Out, n1);
          Emit(DeclareRotated(dst, Ref(Inner(n1), Out, k2), Rot(c.turn, inverse, n1 * k2, radix)));
          across := across + [dst];
        }
        n1 := n1 + 1;
      }
    }

    method EmitFinals(b: nat, k2: nat, a: nat, told: bool)
      modifies this
      ensures lines == old(lines) + Finals(Place(b, k2), k2, a, told)
    {
      var k1 := 0;
      while k1 < a
        invariant 0 <= k1 <= a
        invariant lines == old(lines) + Finals(Place(b, k2), k2, k1, told)
      {
        var k := k2 + b * k1;
        Emit(DeclareCopy(Ref(Result, Out, k), Ref(Outer(k2), Out, k1)));
        if told {
          Emit(Output(k));
        }
        k1 := k1 + 1;
      }
    }

    method EmitGroups(c: Constants, inverse: bool, a: nat, b: nat)
      requires IsSmall(b)
      modifies this
      ensures lines == old(lines) + Groups(c, inverse, a, b, a)
    {
      hide Small;
      var n1 := 0;
      while n1 < a
        invariant 0 <= n1 <= a
        invariant lines == old(lines) + Groups(c, inverse, a, b, n1)
      {
        EmitSmall(c, inverse, Operands(a, b, n1), Inner(n1));
        n1 := n1 + 1;
      }
    }

    method EmitRow(c: Constants, inverse: bool, a: nat, b: nat, k2: nat, told: bool)
      requires IsSmall(a)
      modifies this
      ensures lines == old(lines) + Row(c, inverse, a, b, k2, told)
    {
      hide Small, Twiddles, Finals;
      var across := EmitTwiddles(c, inverse, a * b, k2, a);
      EmitSmall(c, inverse, across, Outer(k2));
      EmitFinals(b, k2, a, told);
    }

    method EmitFactorized(c: Constants, inverse: bool, a: nat, b: nat, told: bool)
      requires IsSmall(a) && IsSmall(b)
      modifies this
      ensures lines == old(lines) + Factorized(c, inverse, a, b, told)
    {
      hide Groups, Row;
      EmitGroups(c, inverse, a, b);
      var k2 := 0;
      while k2 < b
        invariant 0 <= k2 <= b
        invariant lines == old(lines) + Groups(c, inverse, a, b, a) + Rows(c, inverse, a, b, k2, told)
      {
        EmitRow(c, inverse, a, b, k2, told);
        k2 := k2 + 1;
      }
    }

    /** Appends the program for a supported radix; an unsupported one is refused with nothing appended. */
    method EmitButterfly(c: Constants, radix: nat, inverse: bool, told: bool) returns (accepted: bool)
      modifies this
      ensures accepted <==> 2 <= radix <= 17
      ensures lines == old(lines) + if accepted then Program(c, radix, inverse, told) else []
    {
      hide Small, Factorized, Symmetric;
      accepted := true;
      match FormOf(radix) {
        case Fixed =>
          EmitSmall(c, inverse, Loaded(radix), Result);
          if told {
            EmitTell(radix);
          }
        case Factored(a, b) =>
          EmitFactorized(c, inverse, a, b, told);
        case Mirrored(h) =>
          EmitSymmetric(c.turn, inverse, Loaded(radix), Result, told);
        case Rejected =>
          accepted := false;
      }
    }

    method EmitTell(n: nat)
      modifies this
      ensures lines == old(lines) + Tell(n)
    {
      var k := 0;
      while k < n
        invariant 0 <= k <= n && lines == old(lines) + Tell(k)
      {
        Emit(Output(k));
        k := k + 1;
      }
    }
  }
}
