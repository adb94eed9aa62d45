/** The host of a recursive plan: step after step between its DRAM buffers, with every kernel
    run as planned and emitted, the output buffer ends up holding the transforms. */
module RecursiveHosts {
  import opened Complexes
  import opened DivMod
  import opened Fourier
  import opened Memories
  import opened RecursiveTrees
  import opened Stockham
  import SmallButterflies
  import LoopStages
  import StageRuns
  import Inversion
  import K = Kernels
  import T = Transposes
  import S = TransposeStages
  import L = TileLaunches
  import Launches
  import F = FftLaunches

  /** How kernels are emitted: the vector width, the width each stage is cut to, and when and
      how a stage is rolled; and the device's units, the chunk it deals to them, and whether
      launches are spread over the units.  Over a single unit they need not be: a spread round
      may then be smaller than the unit's room, which a host that passes no offsets relies on. */
  datatype Options = Options(constants: SmallButterflies.Constants, simdLanes: nat, width: nat -> nat, minFull: nat, compact: bool,
                             units: nat, chunk: nat, spread: bool)

  ghost predicate ValidOptions(o: Options) {
    && o.constants.Valid() && o.simdLanes > 0 && o.minFull > 0 && o.units > 0 && o.chunk > 0
    && (o.spread ==> o.simdLanes == 8 && o.units >= 2)
    && forall i :: o.width(i) > 0
  }

  lemma DeviceIsReal(o: Options)
    requires ValidOptions(o)
    ensures o.units > 0 && o.chunk > 0
  {
  }

  /** The memory one microthread is mapped to. */
  const UTHREAD_BYTES := 32

  // -------- one kernel, launched once for each block

  function KernelOf(o: Options, inverse: bool, radices: seq<nat>, pingPong: bool, scaled: bool): K.Kernel
    requires Product(radices) > 0
  {
    K.Kernel(o.constants, inverse, radices, o.simdLanes, pingPong, 1, 1, false,
             if scaled then Some(1.0 / (Product(radices) as real)) else None, i => ONE)
  }

  predicate SupportedRadices(radices: seq<nat>, pingPong: bool) {
    radices != [] && (|radices| <= 2 || pingPong) && forall i :: 0 <= i < |radices| ==> 2 <= radices[i] <= 17
  }

  /** What a microthread finds at the addresses of its own block. */
  function Loaded(x: seq<Complex>): (m: Memory)
    ensures forall a: nat :: a < |x| ==> Read(m, Cell(Input, a)) == x[a]
  {
    map a | 0 <= a < |x| :: Cell(Input, a) := x[a]
  }

  /** What a kernel leaves in element k of its block is what the plan asks of that block. */
  lemma KernelOutput(o: Options, inverse: bool, radices: seq<nat>, pingPong: bool, scaled: bool, x: seq<Complex>, m: Memory, k: nat)
    requires Product(radices) > 0 && |x| == Product(radices) && k < |x|
    requires K.Transformed(KernelOf(o, inverse, radices, pingPong, scaled), m, x)
    ensures Read(m, Cell(Output, k)) == Finish(scaled, Product(radices), Dft(o.constants.turn, inverse, x, k))
  {
    hide Dft;
    assert K.TransformedAt(KernelOf(o, inverse, radices, pingPong, scaled), m, x, k);
  }

  ghost predicate RowDone(t: Turn, inverse: bool, n: nat, scaled: bool, x: seq<Complex>, y: seq<Complex>, q: nat) {
    forall k: nat :: k < n ==> TransformAt(t, inverse, n, scaled, x, y, q, k)
  }

  /** Block q of dst becomes the transform of block q of src. */
  method TransformBlock(o: Options, inverse: bool, radices: seq<nat>, pingPong: bool, scaled: bool, q: nat, count: nat,
                        src: array<Complex>, dst: array<Complex>)
    requires ValidOptions(o) && SupportedRadices(radices, pingPong) && q < count
    requires src != dst && src.Length == dst.Length == count * Product(radices)
    modifies dst
    ensures RowDone(o.constants.turn, inverse, Product(radices), scaled, src[..], dst[..], q)
    ensures forall i :: 0 <= i < dst.Length && !(Place(q, Product(radices), 0) <= i < Place(q, Product(radices), Product(radices))) ==> dst[i] == old(dst[i])
  {
    hide Dft, K.Transformed, TransformAt, Row;
    ProductPositive(radices);
    var n := Product(radices);
    BlockFits(count, n, q);
    var x := Row(src[..], n, q);
    var machine := new StageRuns.Machine(Loaded(x));
    var table := new LoopStages.TwiddleTable();
    var kernel := KernelOf(o, inverse, radices, pingPong, scaled);
    var widths := seq(|radices|, i requires 0 <= i < |radices| => o.width(i));
    K.RunKernel(kernel, x, machine, table, widths, o.minFull, o.compact);
    var m := machine.memory;
    var k := 0;
    while k < n
      invariant 0 <= k <= n && Place(q, n, n) <= dst.Length
      invariant forall j: nat :: j < k ==> dst[Place(q, n, j)] == Read(m, Cell(Output, j))
      invariant forall i :: 0 <= i < dst.Length && !(Place(q, n, 0) <= i < Place(q, n, n)) ==> dst[i] == old(dst[i])
    {
      dst[Place(q, n, k)] := Read(m, Cell(Output, k));
      k := k + 1;
    }
    forall j: nat | j < n ensures TransformAt(o.constants.turn, inverse, n, scaled, src[..], dst[..], q, j) {
      KernelOutput(o, inverse, radices, pingPong, scaled, x, m, j);
      Landed(o.constants.turn, inverse, n, scaled, src[..], dst[..], q, j);
    }
  }

  lemma Landed(t: Turn, inverse: bool, n: nat, scaled: bool, x: seq<Complex>, y: seq<Complex>, q: nat, k: nat)
    requires n > 0 && Place(q, n, k) < |y| && y[Place(q, n, k)] == Finish(scaled, n, Dft(t, inverse, Row(x, n, q), k))
    ensures TransformAt(t, inverse, n, scaled, x, y, q, k)
  {
  }

  lemma BlockFits(count: nat, n: nat, q: nat)
    requires q < count
    ensures Place(q, n, n) <= count * n
  {
    Monotone(n, q + 1, count);
    assert n * (q + 1) == q * n + n && n * count == count * n;
  }

  lemma BlocksApart(n: nat, q: nat, q': nat, k: nat)
    requires q != q' && k < n
    ensures !(Place(q, n, 0) <= Place(q', n, k) < Place(q, n, n))
  {
    if q < q' {
      Monotone(n, q + 1, q');
      assert n * (q + 1) == q * n + n && n * q' == q' * n;
    } else {
      Monotone(n, q' + 1, q);
      assert n * (q' + 1) == q' * n + n && n * q == q * n;
    }
  }

  /** All blocks, launched in rounds: whatever room a unit's scratchpad has, spread over the units
      or not, and wherever the aligned pool begins. */
  method TransformBlocks(o: Options, inverse: bool, radices: seq<nat>, pingPong: bool, scaled: bool, count: nat,
                         src: array<Complex>, dst: array<Complex>)
    requires ValidOptions(o) && SupportedRadices(radices, pingPong)
    requires src != dst && src.Length == dst.Length == count * Product(radices)
    modifies dst
    ensures Transforms(o.constants.turn, inverse, Product(radices), count, scaled, src[..], dst[..])
  {
    hide RowDone, ValidOptions, SupportedRadices, F.Resolve, F.DutyOf, F.HadTurn, F.Physical, Launches.RoundAt, Launches.RoundCount;
    var room: nat, start: nat := *, *;
    var p, d, spread, l := ResolveLaunch(o, count, room + 1);
    AlignedStart(o.chunk, start);
    var from := Times(start, o.chunk);
    var launches := Launches.HostRounds(count, l.roundFfts);
    var r := 0;
    NoTurns(l);
    while r < |launches|
      invariant 0 <= r <= |launches|
      invariant forall q: nat :: q < count && F.HadTurn(l, q, 0, r, 0) ==> RowDone(o.constants.turn, inverse, Product(radices), scaled, src[..], dst[..], q)
    {
      RunRound(o, inverse, radices, pingPong, scaled, count, p, d, spread, l, from, r, launches[r], src, dst);
      r := r + 1;
    }
    forall q: nat | q < count ensures RowDone(o.constants.turn, inverse, Product(radices), scaled, src[..], dst[..], q) {
      F.RoundOver(p, d, spread, l, r, q, 0);
    }
    RowsDone(o.constants.turn, inverse, Product(radices), count, scaled, src[..], dst[..]);
  }

  /** One round: every microthread that is not turned away transforms its block. */
  method RunRound(o: Options, inverse: bool, radices: seq<nat>, pingPong: bool, scaled: bool, count: nat,
                  p: F.FftPlan, d: F.Device, spread: bool, l: F.FftLaunch, from: nat, r: nat, launch: Launches.Launch,
                  src: array<Complex>, dst: array<Complex>)
    requires ValidOptions(o) && SupportedRadices(radices, pingPong)
    requires src != dst && src.Length == dst.Length == count * Product(radices)
    requires F.Resolve(p, d, spread) == F.Launchable(l) && l.total == count && l.workers == 1 && l.roundFfts > 0 && l.slotsPerChunk > 0
    requires d.chunk > 0 && from % d.chunk == 0 && r < Launches.RoundCount(count, l.roundFfts) && launch == Launches.RoundAt(count, l.roundFfts, r)
    requires forall q: nat :: q < count && F.HadTurn(l, q, 0, r, 0) ==> RowDone(o.constants.turn, inverse, Product(radices), scaled, src[..], dst[..], q)
    modifies dst
    ensures forall q: nat :: q < count && F.HadTurn(l, q, 0, r + 1, 0) ==> RowDone(o.constants.turn, inverse, Product(radices), scaled, src[..], dst[..], q)
  {
    hide RowDone, ValidOptions, SupportedRadices, F.Resolve, F.DutyOf, F.HadTurn, F.Physical, Launches.RoundAt, Launches.RoundCount;
    ghost var t, n := o.constants.turn, Product(radices);
    F.Numbers(p, d, spread, l);
    var i := 0;
    while i < F.Physical(l, launch.count)
      invariant 0 <= i <= F.Physical(l, launch.count)
      invariant forall q: nat :: q < count && F.HadTurn(l, q, 0, r, i) ==> RowDone(t, inverse, n, scaled, src[..], dst[..], q)
    {
      assert F.Setting(p, d, spread, l, from, r, i);
      F.WorksInside(p, d, spread, l, from, r, i);
      var duty := F.DutyOf(p, d, l, from, launch, i);
      ghost var before := dst[..];
      if duty.Works? {
        TransformBlock(o, inverse, radices, pingPong, scaled, duty.fft, count, src, dst);
      }
      forall q: nat | q < count && F.HadTurn(l, q, 0, r, i + 1) ensures RowDone(t, inverse, n, scaled, src[..], dst[..], q) {
        F.NextTurn(p, d, spread, l, from, r, i, q, 0);
        if duty.Works? && duty.fft != q {
          RowKept(t, inverse, n, scaled, src[..], before, dst[..], q, duty.fft);
        }
      }
      i := i + 1;
    }
    forall q: nat | q < count && F.HadTurn(l, q, 0, r + 1, 0) ensures RowDone(t, inverse, n, scaled, src[..], dst[..], q) {
      F.RoundOver(p, d, spread, l, r, q, 0);
    }
  }

  /** A kernel of one microthread for each block, resolved for the device. */
  method ResolveLaunch(o: Options, count: nat, room: nat) returns (p: F.FftPlan, d: F.Device, spread: bool, l: F.FftLaunch)
    requires ValidOptions(o) && room > 0
    ensures F.Resolve(p, d, spread) == F.Launchable(l) && d.chunk == o.chunk
    ensures l.total == count && l.workers == 1 && l.roundFfts > 0 && l.slotsPerChunk > 0
  {
    p := F.FftPlan(count, room, 1, o.simdLanes);
    d := F.Device(o.units, o.chunk, UTHREAD_BYTES, UTHREAD_BYTES * o.chunk);
    spread := o.spread;
    l := F.Resolve(p, d, spread).launch;
    F.Numbers(p, d, spread, l);
  }

  lemma AlignedStart(chunk: nat, start: nat)
    requires chunk > 0
    ensures Times(start, chunk) % chunk == 0
  {
    assert Times(start, chunk) == chunk * start;
    Decode(chunk, start, 0);
  }

  lemma NoTurns(l: F.FftLaunch)
    requires l.roundFfts > 0 && l.slotsPerChunk > 0
    ensures forall q: nat :: !F.HadTurn(l, q, 0, 0, 0)
  {
  }

  lemma RowKept(t: Turn, inverse: bool, n: nat, scaled: bool, x: seq<Complex>, before: seq<Complex>, after: seq<Complex>, q: nat, other: nat)
    requires RowDone(t, inverse, n, scaled, x, before, q) && q != other && |before| == |after|
    requires forall i :: 0 <= i < |before| && !(Place(other, n, 0) <= i < Place(other, n, n)) ==> after[i] == before[i]
    ensures RowDone(t, inverse, n, scaled, x, after, q)
  {
    hide Dft, Row;
    forall k: nat | k < n ensures TransformAt(t, inverse, n, scaled, x, after, q, k) {
      assert TransformAt(t, inverse, n, scaled, x, before, q, k);
      BlocksApart(n, other, q, k);
    }
  }

  lemma RowsDone(t: Turn, inverse: bool, n: nat, count: nat, scaled: bool, x: seq<Complex>, y: seq<Complex>)
    requires |x| == |y| == count * n && forall q: nat :: q < count ==> RowDone(t, inverse, n, scaled, x, y, q)
    ensures Transforms(t, inverse, n, count, scaled, x, y)
  {
    hide TransformAt;
    forall q: nat, k: nat | q < count && k < n ensures TransformAt(t, inverse, n, scaled, x, y, q, k) {
      assert RowDone(t, inverse, n, scaled, x, y, q);
    }
  }

  // -------- one transpose

  /** One transpose: its tables filled, its tiles launched in rounds of any safe size, whatever
      room its scratchpads have and wherever its pool begins. */
  method TransposeBuffer(o: Options, inverse: bool, p: T.Plan, modulus: nat, src: array<Complex>, dst: array<Complex>)
    requires ValidOptions(o) && p.Valid() && src != dst && src.Length == dst.Length == p.Size()
    modifies dst
    ensures Moves(o.constants.turn, inverse, p, modulus, src[..], dst[..])
  {
    hide Rot, S.Filled, RoundSize, L.HasRoom, S.TransposedAt, Moves, T.Plan.Tiles;
    var t := o.constants.turn;
    var needsQ: bool, needsTr: bool := *, *;
    var tables := S.FillTables(p, needsQ, needsTr);
    var table := new Complex[p.rows * p.cols];
    if p.twiddled {
      S.FillTwiddles(p, t, inverse, modulus, table);
    }
    var room: nat, from: nat := *, *;
    var capacity := room + 1;
    var roundSize := RoundSize(o, capacity);
    var g := L.Target(o.units, o.chunk, capacity, from);
    RoundIsSafe(o, g);
    var spad := new Complex[o.units * capacity * (p.tileRows * p.tileCols)];
    L.RunTransposeRounds(p, tables, g, roundSize, capacity < p.Tiles(), src, table, dst, spad);
    EachMoved(t, inverse, p, modulus, src[..], table[..], dst[..]);
  }

  /** The tiles of a launch. */
  function RoundSize(o: Options, capacity: nat): nat
    requires ValidOptions(o)
  {
    if o.spread then Launches.SafeRoundSize(capacity, o.units, o.chunk) else capacity
  }

  /** Spread over the units or not, a launch keeps to the room of every unit and is no smaller
      than the room of one. */
  lemma RoundIsSafe(o: Options, g: L.Target)
    requires ValidOptions(o) && g.units == o.units && g.chunk == o.chunk && g.capacity > 0
    ensures g.Valid() && RoundSize(o, g.capacity) >= g.capacity && L.HasRoom(g, RoundSize(o, g.capacity))
  {
    if o.spread {
      Launches.SpreadingShrinks(g.capacity, g.units, g.chunk);
      Launches.WithinSafeSize(RoundSize(o, g.capacity), g.capacity, g.units, g.chunk);
    } else {
      Launches.UncappedReachesAll(g.capacity, g.chunk, g.units);
    }
  }

  /** Spread over the units, a launch is the largest safe number of whole rotations over them;
      otherwise it fills the room of one unit. */
  lemma RoundIsLargest(o: Options, capacity: nat, k: nat)
    requires ValidOptions(o)
    ensures !o.spread ==> RoundSize(o, capacity) == capacity
    ensures o.spread && capacity >= o.chunk ==>
              && (exists j: nat :: RoundSize(o, capacity) == Times(j, o.chunk * o.units))
              && (Launches.MostPerUnit(k * (o.chunk * o.units), o.chunk, o.units) <= capacity ==> k * (o.chunk * o.units) <= RoundSize(o, capacity))
  {
    hide Launches.SafeRoundSize, Launches.MostPerUnit;
    Launches.SafeIsLargest(capacity, o.units, o.chunk, k);
  }

  lemma EachMoved(t: Turn, inverse: bool, p: T.Plan, modulus: nat, x: seq<Complex>, table: seq<Complex>, y: seq<Complex>)
    requires p.Valid() && |x| == |y| == p.Size() && |table| == p.rows * p.cols
    requires p.twiddled ==> forall r: nat, c: nat :: r < p.rows && c < p.cols ==> S.TwiddleAt(p, t, inverse, modulus, table, r, c)
    requires forall q: nat, r: nat, c: nat :: T.IsElement(p, q, r, c) ==> S.TransposedAt(p, x, table, y, q, r, c)
    ensures Moves(t, inverse, p, modulus, x, y)
  {
    hide Rot, T.SrcIndex, T.DstIndex, T.TableIndex, T.Scaled;
    forall q: nat, r: nat, c: nat | T.IsElement(p, q, r, c) ensures MovedAt(t, inverse, p, modulus, x, y, q, r, c) {
      T.Inside(p, q, r, c);
      assert S.TransposedAt(p, x, table, y, q, r, c);
      if p.twiddled {
        assert S.TwiddleAt(p, t, inverse, modulus, table, r, c);
      }
    }
  }

  // -------- the host

  /** A step that fills a buffer of the given length. */
  predicate Fills(s: Step, length: nat) {
    match s
    case Fft(radices, pingPong, count, _) => SupportedRadices(radices, pingPong) && count * Product(radices) == length
    case Transpose(p, _) => p.Valid() && p.Size() == length
  }

  lemma Sizes(count: nat, a: nat, b: nat)
    requires count > 0 && a > 0 && b > 0
    ensures count * a > 0 && count * b > 0
    ensures count * a * b == count * b * a == count * (a * b) == count * (b * a)
  {
    Monotone(count, 1, a);
    Monotone(count, 1, b);
  }

  lemma {:induction false} StepsFill(node: Node, count: nat, scaled: bool, i: nat)
    requires Supported(node) && count > 0 && i < |Flatten(node, count, scaled)|
    ensures Fills(Flatten(node, count, scaled)[i], count * Points(node))
    decreases node
  {
    if node.Split? {
      PointsPositive(node.near);
      PointsPositive(node.far);
      var a, b := Points(node.far), Points(node.near);
      Sizes(count, a, b);
      var n, f := Flatten(node.near, count * a, false), Flatten(node.far, count * b, false);
      SplitFills(node, count, scaled, i);
      if 0 < i < 1 + |n| {
        StepsFill(node.near, count * a, false, i - 1);
      } else if 1 + |n| < i < 2 + |n| + |f| {
        StepsFill(node.far, count * b, false, i - |n| - 2);
      }
    }
  }

  lemma SplitFills(node: Node, count: nat, scaled: bool, i: nat)
    requires Supported(node) && node.Split? && count > 0 && Points(node.near) > 0 && Points(node.far) > 0
    requires i < |Flatten(node, count, scaled)|
    ensures var a, b := Points(node.far), Points(node.near);
            var n, f := Flatten(node.near, count * a, false), Flatten(node.far, count * b, false);
            var s := Flatten(node, count, scaled)[i];
            if 0 < i < 1 + |n| then s == n[i - 1]
            else if 1 + |n| < i < 2 + |n| + |f| then s == f[i - |n| - 2]
            else Fills(s, count * Points(node))
  {
    var a, b := Points(node.far), Points(node.near);
    Sizes(count, a, b);
  }

  method RunStep(o: Options, inverse: bool, s: Step, src: array<Complex>, dst: array<Complex>)
    requires ValidOptions(o) && src != dst && src.Length == dst.Length && Fills(s, dst.Length)
    modifies dst
    ensures StepDone(o.constants.turn, inverse, s, src[..], dst[..])
  {
    hide Moves, Transforms, ValidOptions, SupportedRadices, Product;
    match s
    case Fft(radices, pingPong, count, scaled) => TransformBlocks(o, inverse, radices, pingPong, scaled, count, src, dst);
    case Transpose(p, modulus) => TransposeBuffer(o, inverse, p, modulus, src, dst);
  }

  /** Input, two work buffers in turn, output: every step reads what the one before it wrote. */
  method RunPlan(o: Options, node: Node, batch: nat, inverse: bool,
                 input: array<Complex>, work0: array<Complex>, work1: array<Complex>, output: array<Complex>)
    requires ValidOptions(o) && Supported(node) && batch > 0
    requires input.Length == work0.Length == work1.Length == output.Length == batch * Points(node)
    requires input != work0 && input != work1 && input != output && work0 != work1 && work0 != output && work1 != output
    modifies work0, work1, output
    ensures Transforms(o.constants.turn, inverse, Points(node), batch, inverse, input[..], output[..])
  {
    hide StepDone, Fills, ValidOptions, Supported, Transforms, Points, Flatten;
    var steps := Flatten(node, batch, inverse);
    StepsExist(node, batch, inverse);
    ghost var t := o.constants.turn;
    ghost var trace := [input[..]];
    var last := input;
    var i := 0;
    while i < |steps|
      invariant 0 <= i <= |steps| && |trace| == i + 1
      invariant last == Written(|steps|, i - 1, input, work0, work1, output)
      invariant trace[0] == input[..] && trace[i] == last[..]
      invariant forall j: nat :: j < i ==> StepAt(t, inverse, steps, trace, j)
    {
      var dst := Written(|steps|, i, input, work0, work1, output);
      StepsFill(node, batch, inverse, i);
      RunStep(o, inverse, steps[i], last, dst);
      TraceGrows(t, inverse, steps, trace, dst[..], i);
      trace := trace + [dst[..]];
      last := dst;
      i := i + 1;
    }
    TreeHolds(o, node, batch, inverse, trace);
  }

  lemma StepsExist(node: Node, count: nat, scaled: bool)
    ensures |Flatten(node, count, scaled)| > 0
  {
  }

  /** The buffer that step i of n writes; step -1 stands for the host's own filling. */
  function Written(n: nat, i: int, input: array<Complex>, work0: array<Complex>, work1: array<Complex>, output: array<Complex>): array<Complex> {
    if i == -1 then input
    else if i == n - 1 then output
    else if i % 2 == 0 then work0
    else work1
  }

  lemma TraceGrows(t: Turn, inverse: bool, steps: seq<Step>, trace: seq<seq<Complex>>, y: seq<Complex>, i: nat)
    requires |trace| == i + 1 && i < |steps| && StepDone(t, inverse, steps[i], trace[i], y)
    requires forall j: nat :: j < i ==> StepAt(t, inverse, steps, trace, j)
    ensures forall j: nat :: j <= i ==> StepAt(t, inverse, steps, trace + [y], j)
  {
    hide StepDone;
    forall j: nat | j <= i ensures StepAt(t, inverse, steps, trace + [y], j) {
      if j < i {
        assert StepAt(t, inverse, steps, trace, j);
      }
    }
  }

  lemma TreeHolds(o: Options, node: Node, batch: nat, inverse: bool, trace: seq<seq<Complex>>)
    requires ValidOptions(o) && Supported(node) && Runs(o.constants.turn, inverse, Flatten(node, batch, inverse), trace)
    ensures Transforms(o.constants.turn, inverse, Points(node), batch, inverse, trace[0], trace[|trace| - 1])
  {
    hide IsTurn, Runs, Transforms;
    TreeTransforms(o.constants.turn, inverse, node, batch, inverse, trace);
  }

  // -------- there and back

  /** The inverse plan, fed with the output of the forward plan of any other shape for the same
      length, gives every block of the input back. */
  lemma PlansInvert(t: Turn, n: nat, batch: nat, x: seq<Complex>, y: seq<Complex>, z: seq<Complex>, q: nat, k: nat)
    requires IsTurn(t) && n > 0 && q < batch && k < n
    requires Transforms(t, false, n, batch, false, x, y) && Transforms(t, true, n, batch, true, y, z)
    ensures Place(q, n, k) < |z| == |x| && z[Place(q, n, k)] == x[Place(q, n, k)]
  {
    hide IsTurn, Dft;
    assert TransformAt(t, true, n, true, y, z, q, k);
    BlockFits(batch, n, q);
    forall j: nat | j < n ensures Row(y, n, q)[j] == Inversion.Transform(t, false, Row(x, n, q))[j] {
      assert TransformAt(t, false, n, false, x, y, q, j);
    }
    assert Row(y, n, q) == Inversion.Transform(t, false, Row(x, n, q));
    Inversion.InverseUndoes(t, false, Row(x, n, q), k);
    K.ScaleCancels(Row(x, n, q)[k], n);
  }
}
