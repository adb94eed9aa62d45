/** Transforms too long for one kernel: a tree of transposes and shorter transforms, flattened
    to a list of steps, computes the whole transform in natural order. */
module RecursiveTrees {
  import opened Complexes
  import opened DivMod
  import opened Fourier
  import opened Stockham
  import opened Transposes

  /** A leaf is one kernel of several radices; a split transforms the near part, then the far one. */
  datatype Node =
    | Leaf(radices: seq<nat>, pingPong: bool)
    | Split(near: Node, far: Node, tileRows: nat, tileCols: nat)

  function Points(node: Node): nat {
    match node
    case Leaf(radices, _) => Product(radices)
    case Split(near, far, _, _) => Points(far) * Points(near)
  }

  predicate Supported(node: Node) {
    match node
    case Leaf(radices, pingPong) =>
      radices != [] && (|radices| <= 2 || pingPong) && forall i :: 0 <= i < |radices| ==> 2 <= radices[i] <= 17
    case Split(near, far, tileRows, tileCols) => Supported(near) && Supported(far) && tileRows > 0 && tileCols > 0
  }

  lemma {:induction false} PointsPositive(node: Node)
    requires Supported(node)
    ensures Points(node) > 0
  {
    match node
    case Leaf(radices, _) => ProductPositive(radices);
    case Split(near, far, _, _) =>
      PointsPositive(near);
      PointsPositive(far);
      Monotone(Points(far), 1, Points(near));
  }

  // -------- steps

  /** One launch of the host: count transforms by one kernel, or one tiled transpose. */
  datatype Step =
    | Fft(radices: seq<nat>, pingPong: bool, count: nat, scaled: bool)
    | Transpose(plan: Plan, modulus: nat)

  /** The launches of count transforms of a node, in order.  The inverse scale is applied once,
      by the root's last step. */
  function Flatten(node: Node, count: nat, scaled: bool): (steps: seq<Step>) {
    match node
    case Leaf(radices, pingPong) => [Fft(radices, pingPong, count, scaled)]
    case Split(near, far, tr, tc) =>
      var a, b := Points(far), Points(near);
      [Transpose(Plan(b, a, tr, tc, count, false, false), 0)]
      + Flatten(near, count * a, false)
      + [Transpose(Plan(a, b, tr, tc, count, true, false), a * b)]
      + Flatten(far, count * b, false)
      + [Transpose(Plan(b, a, tr, tc, count, false, scaled), 0)]
  }

  // -------- what a step does to the buffer

  function Place(q: nat, n: nat, j: nat): nat {
    q * n + j
  }

  /** Block q of the blocks of n of x. */
  function Row(x: seq<Complex>, n: nat, q: nat): (s: seq<Complex>)
    ensures |s| == n
  {
    seq(n, j requires 0 <= j < n => At(x, Place(q, n, j)))
  }

  function Finish(scaled: bool, n: nat, v: Complex): Complex
    requires n > 0
  {
    if scaled then Complex(v.re * (1.0 / (n as real)), v.im * (1.0 / (n as real))) else v
  }

  ghost predicate TransformAt(t: Turn, inverse: bool, n: nat, scaled: bool, x: seq<Complex>, y: seq<Complex>, q: nat, k: nat) {
    n > 0 && Place(q, n, k) < |y| && y[Place(q, n, k)] == Finish(scaled, n, Dft(t, inverse, Row(x, n, q), k))
  }

  /** y holds the n-point transforms of the count blocks of x, block by block in natural order. */
  ghost predicate Transforms(t: Turn, inverse: bool, n: nat, count: nat, scaled: bool, x: seq<Complex>, y: seq<Complex>) {
    && |x| == |y| == count * n
    && forall q: nat, k: nat :: q < count && k < n ==> TransformAt(t, inverse, n, scaled, x, y, q, k)
  }

  /** Element (r, c) of matrix q arrived, turned and scaled as the plan asks. */
  ghost predicate MovedAt(t: Turn, inverse: bool, p: Plan, modulus: nat, x: seq<Complex>, y: seq<Complex>, q: nat, r: nat, c: nat)
    requires p.Valid()
  {
    && SrcIndex(p, q, r, c) < |x| && DstIndex(p, q, r, c) < |y|
    && y[DstIndex(p, q, r, c)] == Scaled(p, Turned(p, x[SrcIndex(p, q, r, c)], Rot(t, inverse, r * c, modulus)))
  }

  ghost predicate Moves(t: Turn, inverse: bool, p: Plan, modulus: nat, x: seq<Complex>, y: seq<Complex>) {
    && p.Valid() && |x| == |y| == p.Size()
    && forall q: nat, r: nat, c: nat :: IsElement(p, q, r, c) ==> MovedAt(t, inverse, p, modulus, x, y, q, r, c)
  }

  ghost predicate StepDone(t: Turn, inverse: bool, s: Step, x: seq<Complex>, y: seq<Complex>) {
    match s
    case Fft(radices, _, count, scaled) => Transforms(t, inverse, Product(radices), count, scaled, x, y)
    case Transpose(p, modulus) => Moves(t, inverse, p, modulus, x, y)
  }

  ghost predicate StepAt(t: Turn, inverse: bool, steps: seq<Step>, trace: seq<seq<Complex>>, i: nat) {
    i < |steps| && i + 1 < |trace| && StepDone(t, inverse, steps[i], trace[i], trace[i + 1])
  }

  /** trace lists what the buffers held before the first step and after each. */
  ghost predicate Runs(t: Turn, inverse: bool, steps: seq<Step>, trace: seq<seq<Complex>>) {
    |trace| == |steps| + 1 && forall i: nat :: i < |steps| ==> StepAt(t, inverse, steps, trace, i)
  }

  // -------- addresses

  lemma Addresses(p: Plan, q: nat, r: nat, c: nat)
    ensures SrcIndex(p, q, r, c) == Place(q * p.rows + r, p.cols, c) == Place(q, p.rows * p.cols, r * p.cols + c)
    ensures DstIndex(p, q, r, c) == Place(q * p.cols + c, p.rows, r) == Place(q, p.rows * p.cols, c * p.rows + r)
  {
    assert q * (p.rows * p.cols) == q * p.rows * p.cols == q * p.cols * p.rows;
  }

  /** Row q * n + i of count * n rows is one of them. */
  lemma RowExists(count: nat, n: nat, q: nat, i: nat)
    requires q < count && i < n
    ensures q * n + i < count * n
  {
    InRange(n, count, i, q);
    assert n * q == q * n && n * count == count * n;
  }

  // -------- one split

  /** Everything the five parts of a split do, from the buffer before to the buffer after. */
  datatype Passage = Passage(start: seq<Complex>, spread: seq<Complex>, near: seq<Complex>, turned: seq<Complex>, far: seq<Complex>, end: seq<Complex>)

  ghost predicate Passes(t: Turn, inverse: bool, a: nat, b: nat, tr: nat, tc: nat, count: nat, scaled: bool, y: Passage) {
    && a > 0 && b > 0
    && Moves(t, inverse, Plan(b, a, tr, tc, count, false, false), 0, y.start, y.spread)
    && Transforms(t, inverse, b, count * a, false, y.spread, y.near)
    && Moves(t, inverse, Plan(a, b, tr, tc, count, true, false), a * b, y.near, y.turned)
    && Transforms(t, inverse, a, count * b, false, y.turned, y.far)
    && Moves(t, inverse, Plan(b, a, tr, tc, count, false, scaled), 0, y.far, y.end)
  }

  /** The first transpose lays out the inputs of each near transform. */
  lemma SpreadRows(t: Turn, inverse: bool, a: nat, b: nat, tr: nat, tc: nat, count: nat, scaled: bool, y: Passage, q: nat, c: nat)
    requires Passes(t, inverse, a, b, tr, tc, count, scaled, y) && q < count && c < a
    ensures Row(y.spread, b, q * a + c) == Stride(Row(y.start, a * b, q), a, b, c)
  {
    hide Transforms, Rot, SrcIndex, DstIndex;
    var p := Plan(b, a, tr, tc, count, false, false);
    forall j: nat | j < b ensures Row(y.spread, b, q * a + c)[j] == Stride(Row(y.start, a * b, q), a, b, c)[j] {
      assert IsElement(p, q, j, c) && MovedAt(t, inverse, p, 0, y.start, y.spread, q, j, c);
      Addresses(p, q, j, c);
      InRange(a, b, c, j);
      assert j * a + c == c + a * j && b * a == a * b;
    }
  }

  /** The second one turns the near outputs and lays out the inputs of each far transform. */
  lemma TurnedRows(t: Turn, inverse: bool, a: nat, b: nat, tr: nat, tc: nat, count: nat, scaled: bool, y: Passage, q: nat, k2: nat)
    requires Passes(t, inverse, a, b, tr, tc, count, scaled, y) && q < count && k2 < b
    ensures Row(y.turned, a, q * b + k2) == Across(t, inverse, Row(y.start, a * b, q), a, b, k2)
  {
    hide Rot, SrcIndex, DstIndex, Dft, Row, Stride;
    var p := Plan(a, b, tr, tc, count, true, false);
    var x := Row(y.start, a * b, q);
    forall c: nat | c < a ensures Row(y.turned, a, q * b + k2)[c] == Across(t, inverse, x, a, b, k2)[c] {
      assert IsElement(p, q, c, k2) && MovedAt(t, inverse, p, a * b, y.near, y.turned, q, c, k2);
      Addresses(p, q, c, k2);
      RowExists(count, a, q, c);
      assert TransformAt(t, inverse, b, false, y.spread, y.near, q * a + c, k2);
      SpreadRows(t, inverse, a, b, tr, tc, count, scaled, y, q, c);
      RowElement(y.turned, a, q * b + k2, c);
    }
  }

  lemma RowElement(x: seq<Complex>, n: nat, q: nat, j: nat)
    requires j < n
    ensures Row(x, n, q)[j] == At(x, Place(q, n, j))
  {
  }

  /** Output k2 + b * k1 of the whole transform ends up where it belongs. */
  lemma OutputLands(t: Turn, inverse: bool, a: nat, b: nat, tr: nat, tc: nat, count: nat, scaled: bool, y: Passage, q: nat, k1: nat, k2: nat)
    requires IsTurn(t) && Passes(t, inverse, a, b, tr, tc, count, scaled, y) && q < count && k1 < a && k2 < b
    ensures TransformAt(t, inverse, a * b, scaled, y.start, y.end, q, k2 + b * k1)
  {
    hide IsTurn, Rot, SrcIndex, DstIndex, Dft, Row, Across;
    var p := Plan(b, a, tr, tc, count, false, scaled);
    assert IsElement(p, q, k2, k1) && MovedAt(t, inverse, p, 0, y.far, y.end, q, k2, k1);
    Addresses(p, q, k2, k1);
    RowExists(count, b, q, k2);
    assert TransformAt(t, inverse, a, false, y.turned, y.far, q * b + k2, k1);
    TurnedRows(t, inverse, a, b, tr, tc, count, scaled, y, q, k2);
    CooleyTukey(t, inverse, Row(y.start, a * b, q), a, b, k1, k2);
    OutputPlace(a, b, k1, k2);
  }

  lemma OutputPlace(a: nat, b: nat, k1: nat, k2: nat)
    ensures k1 * b + k2 == k2 + b * k1 && b * a == a * b
  {
  }

  /** One split computes the long transforms in natural order. */
  lemma SplitTransforms(t: Turn, inverse: bool, a: nat, b: nat, tr: nat, tc: nat, count: nat, scaled: bool, y: Passage)
    requires IsTurn(t) && Passes(t, inverse, a, b, tr, tc, count, scaled, y)
    ensures Transforms(t, inverse, a * b, count, scaled, y.start, y.end)
  {
    hide IsTurn, TransformAt, MovedAt;
    assert count * (b * a) == count * (a * b);
    forall q: nat, k: nat | q < count && k < a * b ensures TransformAt(t, inverse, a * b, scaled, y.start, y.end, q, k) {
      Recompose(k, b);
      assert a * b == b * a;
      Below(k, b, a);
      OutputLands(t, inverse, a, b, tr, tc, count, scaled, y, q, k / b, k % b);
    }
  }

  // -------- the whole tree

  /** A run of steps contains the runs of its parts. */
  lemma PartRuns(t: Turn, inverse: bool, before: seq<Step>, part: seq<Step>, after: seq<Step>, trace: seq<seq<Complex>>)
    requires Runs(t, inverse, before + part + after, trace)
    ensures Runs(t, inverse, part, trace[|before|..|before| + |part| + 1])
  {
    hide StepDone;
    var steps, inner := before + part + after, trace[|before|..|before| + |part| + 1];
    forall i: nat | i < |part| ensures StepAt(t, inverse, part, inner, i) {
      var at := |before| + i;
      assert StepAt(t, inverse, steps, trace, at) && steps[at] == part[i];
    }
  }

  /** The flattened tree, whatever its shape and the tiles of its transposes, computes the
      transform of each of count blocks. */
  lemma {:induction false} TreeTransforms(t: Turn, inverse: bool, node: Node, count: nat, scaled: bool, trace: seq<seq<Complex>>)
    requires IsTurn(t) && Supported(node) && Runs(t, inverse, Flatten(node, count, scaled), trace)
    ensures Transforms(t, inverse, Points(node), count, scaled, trace[0], trace[|trace| - 1])
    decreases node
  {
    hide IsTurn, Moves, Transforms;
    match node
    case Leaf(radices, pingPong) => {
      assert StepAt(t, inverse, Flatten(node, count, scaled), trace, 0);
    }
    case Split(near, far, tr, tc) => {
      PointsPositive(near);
      PointsPositive(far);
      var a, b := Points(far), Points(near);
      var n, f := Flatten(near, count * a, false), Flatten(far, count * b, false);
      var i, j := 1 + |n|, 2 + |n| + |f|;
      SplitSteps(t, inverse, node, count, scaled, trace);
      TreeTransforms(t, inverse, near, count * a, false, trace[1..i + 1]);
      TreeTransforms(t, inverse, far, count * b, false, trace[i + 1..j + 1]);
      SplitTransforms(t, inverse, a, b, tr, tc, count, scaled,
                      Passage(trace[0], trace[1], trace[i], trace[i + 1], trace[j], trace[j + 1]));
    }
  }

  lemma SplitSteps(t: Turn, inverse: bool, node: Node, count: nat, scaled: bool, trace: seq<seq<Complex>>)
    requires node.Split? && Runs(t, inverse, Flatten(node, count, scaled), trace)
    ensures var a, b := Points(node.far), Points(node.near);
            var n, f := Flatten(node.near, count * a, false), Flatten(node.far, count * b, false);
            var i, j := 1 + |n|, 2 + |n| + |f|;
            && |trace| == j + 2
            && Moves(t, inverse, Plan(b, a, node.tileRows, node.tileCols, count, false, false), 0, trace[0], trace[1])
            && Runs(t, inverse, n, trace[1..i + 1])
            && Moves(t, inverse, Plan(a, b, node.tileRows, node.tileCols, count, true, false), a * b, trace[i], trace[i + 1])
            && Runs(t, inverse, f, trace[i + 1..j + 1])
            && Moves(t, inverse, Plan(b, a, node.tileRows, node.tileCols, count, false, scaled), 0, trace[j], trace[j + 1])
  {
    hide Moves, Points, Transforms, Flatten, Runs, StepAt;
    var a, b := Points(node.far), Points(node.near);
    var n, f := Flatten(node.near, count * a, false), Flatten(node.far, count * b, false);
    FlattenSplits(node, count, scaled);
    FiveParts(t, inverse, Transpose(Plan(b, a, node.tileRows, node.tileCols, count, false, false), 0), n,
              Transpose(Plan(a, b, node.tileRows, node.tileCols, count, true, false), a * b), f,
              Transpose(Plan(b, a, node.tileRows, node.tileCols, count, false, scaled), 0), trace);
  }

  lemma FlattenSplits(node: Node, count: nat, scaled: bool)
    requires node.Split?
    ensures var a, b := Points(node.far), Points(node.near);
            Flatten(node, count, scaled)
            == [Transpose(Plan(b, a, node.tileRows, node.tileCols, count, false, false), 0)] + Flatten(node.near, count * a, false)
               + [Transpose(Plan(a, b, node.tileRows, node.tileCols, count, true, false), a * b)] + Flatten(node.far, count * b, false)
               + [Transpose(Plan(b, a, node.tileRows, node.tileCols, count, false, scaled), 0)]
  {
  }

  lemma FiveParts(t: Turn, inverse: bool, first: Step, n: seq<Step>, middle: Step, f: seq<Step>, last: Step, trace: seq<seq<Complex>>)
    requires Runs(t, inverse, [first] + n + [middle] + f + [last], trace)
    ensures var i, j := 1 + |n|, 2 + |n| + |f|;
            && |trace| == j + 2
            && StepDone(t, inverse, first, trace[0], trace[1])
            && Runs(t, inverse, n, trace[1..i + 1])
            && StepDone(t, inverse, middle, trace[i], trace[i + 1])
            && Runs(t, inverse, f, trace[i + 1..j + 1])
            && StepDone(t, inverse, last, trace[j], trace[j + 1])
  {
    hide StepDone;
    var i, j := 1 + |n|, 2 + |n| + |f|;
    var steps := [first] + n + [middle] + f + [last];
    assert StepAt(t, inverse, steps, trace, 0) && StepAt(t, inverse, steps, trace, i) && StepAt(t, inverse, steps, trace, j);
    assert steps == [first] + n + ([middle] + f + [last]);
    PartRuns(t, inverse, [first], n, [middle] + f + [last], trace);
    assert steps == ([first] + n + [middle]) + f + [last];
    PartRuns(t, inverse, [first] + n + [middle], f, [last], trace);
  }
}
