/** SIMD batches, what running one does to memory, and their split into narrower chunks. */
module Batches {
  import opened Complexes
  import opened DivMod
  import opened Memories

  /** A load of consecutive cells, or of one named cell for each lane; None is padding. */
  datatype Load = VectorLoad(bank: Bank, base: int) | PackedLoad(bank: Bank, lanes: seq<Option<int>>)

  /** A store to consecutive cells, or to one named cell for each stored lane. */
  datatype Store = VectorStore(bank: Bank, base: int) | LaneStore(bank: Bank, lanes: seq<int>)

  datatype OutputPlan = OutputPlan(output: nat, twiddle: Option<seq<Complex>>, scale: Option<real>, large: bool, store: Store)

  datatype Batch = Batch(id: int, valid: nat, loads: seq<Load>, outputs: seq<OutputPlan>)

  /** One lane's butterfly: its operands and an output number give that output. */
  type Lanewise = (seq<Complex>, nat) -> Complex

  /** What all batches of a stage share: the butterfly, the order in which it completes its
      outputs, and the table of runtime twiddles addressed like the stage's output. */
  datatype Stage = Stage(butterfly: Lanewise, order: seq<nat>, table: int -> Complex)

  datatype Piece = Piece(width: nat, batch: Batch)

  // -------- one batch

  function LoadCell(load: Load, lane: nat): Option<Cell> {
    match load
    case VectorLoad(bank, base) => Some(Cell(bank, base + lane))
    case PackedLoad(bank, lanes) =>
      if lane < |lanes| && lanes[lane].Some? then Some(Cell(bank, lanes[lane].value)) else None
  }

  function LaneValue(m: Memory, load: Load, lane: nat): Complex {
    var c := LoadCell(load, lane);
    if c.Some? then Read(m, c.value) else ZERO
  }

  function Operands(m: Memory, loads: seq<Load>, lane: nat): (x: seq<Complex>)
    ensures |x| == |loads|
  {
    seq(|loads|, j requires 0 <= j < |loads| => LaneValue(m, loads[j], lane))
  }

  /** All lanes turn by the same amount. */
  predicate Uniform(factors: seq<Complex>, w: Complex) {
    forall lane :: 0 <= lane < |factors| ==> factors[lane] == w
  }

  /** A twiddle by the same quarter turn in every lane is written without a multiplication. */
  function Twiddled(factors: seq<Complex>, lane: nat, v: Complex): Complex
    requires lane < |factors|
  {
    if Uniform(factors, ONE) then v
    else if Uniform(factors, Complex(-1.0, 0.0)) then Complex(-v.re, -v.im)
    else if Uniform(factors, Complex(0.0, 1.0)) then Complex(-v.im, v.re)
    else if Uniform(factors, Complex(0.0, -1.0)) then Complex(v.im, -v.re)
    else Mul(v, factors[lane])
  }

  /** Whichever way it is written, a twiddle multiplies each lane by its own factor. */
  lemma TwiddledMultiplies(factors: seq<Complex>, lane: nat, v: Complex)
    requires lane < |factors|
    ensures Twiddled(factors, lane, v) == Mul(v, factors[lane])
  {
  }

  function Scaled(scale: Option<real>, v: Complex): Complex {
    match scale
    case None => v
    case Some(s) => Complex(v.re * s, v.im * s)
  }

  /** How many lanes a store writes. */
  function StoredLanes(store: Store, width: nat): nat {
    match store
    case VectorStore(_, _) => width
    case LaneStore(_, lanes) => |lanes|
  }

  function StoreOffset(store: Store, lane: nat): int {
    match store
    case VectorStore(_, base) => base + lane
    case LaneStore(_, lanes) => if lane < |lanes| then lanes[lane] else 0
  }

  function StoreCell(store: Store, lane: nat): Cell {
    Cell(store.bank, StoreOffset(store, lane))
  }

  /** What one lane stores for one output: twiddle, then scale, then runtime twiddle. */
  function Result(stage: Stage, x: seq<Complex>, o: OutputPlan, lane: nat): Complex {
    var v := stage.butterfly(x, o.output);
    var turned := if o.twiddle.Some? && lane < |o.twiddle.value| then Twiddled(o.twiddle.value, lane, v) else v;
    var scaled := Scaled(o.scale, turned);
    if o.large then Mul(scaled, stage.table(StoreOffset(o.store, lane))) else scaled
  }

  function OutputWrites(stage: Stage, m: Memory, loads: seq<Load>, o: OutputPlan, width: nat): (ws: seq<Write>)
    ensures |ws| == StoredLanes(o.store, width)
  {
    seq(StoredLanes(o.store, width), lane requires 0 <= lane < StoredLanes(o.store, width) =>
      Write(StoreCell(o.store, lane), Result(stage, Operands(m, loads, lane), o, lane)))
  }

  /** The plan for output k; of two plans for one output the later counts. */
  function Lookup(outputs: seq<OutputPlan>, k: nat): (o: Option<OutputPlan>)
    ensures o.Some? ==> o.value in outputs && o.value.output == k
  {
    if outputs == [] then None
    else if outputs[|outputs| - 1].output == k then Some(outputs[|outputs| - 1])
    else Lookup(outputs[..|outputs| - 1], k)
  }

  function WritesFor(stage: Stage, m: Memory, batch: Batch, width: nat, k: nat): seq<Write> {
    var o := Lookup(batch.outputs, k);
    if o.Some? then OutputWrites(stage, m, batch.loads, o.value, width) else []
  }

  /** What the first n completed outputs write.  Every load comes before every store. */
  function BatchWrites(stage: Stage, m: Memory, batch: Batch, width: nat, n: nat): seq<Write>
    requires n <= |stage.order|
  {
    if n == 0 then [] else BatchWrites(stage, m, batch, width, n - 1) + WritesFor(stage, m, batch, width, stage.order[n - 1])
  }

  function RunPiece(stage: Stage, m: Memory, p: Piece): Memory {
    Apply(m, BatchWrites(stage, m, p.batch, p.width, |stage.order|))
  }

  function RunPieces(stage: Stage, m: Memory, pieces: seq<Piece>): Memory {
    if pieces == [] then m
    else RunPiece(stage, RunPieces(stage, m, pieces[..|pieces| - 1]), pieces[|pieces| - 1])
  }

  lemma {:induction false} RunPiecesAppend(stage: Stage, m: Memory, a: seq<Piece>, b: seq<Piece>)
    ensures RunPieces(stage, m, a + b) == RunPieces(stage, RunPieces(stage, m, a), b)
  {
    hide RunPiece;
    if b == [] {
      assert a + b == a;
    } else {
      RunPiecesAppend(stage, m, a, b[..|b| - 1]);
      assert (a + b)[..|a + b| - 1] == a + b[..|b| - 1];
    }
  }

  /** The batch as one full-width piece. */
  function RunBatch(stage: Stage, m: Memory, batch: Batch, simdLanes: nat): Memory {
    RunPiece(stage, m, Piece(simdLanes, batch))
  }

  // -------- chunks

  /** s[from : from + width], which like any slice stops at the end. */
  function Slice<T>(s: seq<T>, from: nat, width: nat): (r: seq<T>)
    ensures |r| == if |s| <= from then 0 else if |s| <= from + width then |s| - from else width
    ensures forall i :: 0 <= i < |r| ==> r[i] == s[from + i]
  {
    if |s| <= from then [] else if |s| <= from + width then s[from..] else s[from..from + width]
  }

  /** Every lane of a packed load is present and the cells are consecutive. */
  predicate ConsecutiveLanes(lanes: seq<Option<int>>) {
    && (forall i :: 0 <= i < |lanes| ==> lanes[i].Some?)
    && (forall i :: 0 < i < |lanes| ==> lanes[i].value == lanes[0].value + i)
  }

  predicate Consecutive(offsets: seq<int>) {
    forall i :: 0 < i < |offsets| ==> offsets[i] == offsets[0] + i
  }

  function ChunkLoad(load: Load, from: nat, width: nat): Load
    requires width > 0
  {
    match load
    case VectorLoad(bank, base) => VectorLoad(bank, base + from)
    case PackedLoad(bank, lanes) =>
      var sliced := Slice(lanes, from, width);
      if |sliced| == width && ConsecutiveLanes(sliced) then VectorLoad(bank, sliced[0].value) else PackedLoad(bank, sliced)
  }

  function ChunkTwiddle(twiddle: Option<seq<Complex>>, from: nat, width: nat): Option<seq<Complex>> {
    match twiddle
    case None => None
    case Some(factors) => Some(Slice(factors, from, width))
  }

  function ChunkStore(store: Store, from: nat, width: nat): Store
    requires width > 0
  {
    match store
    case VectorStore(bank, base) => VectorStore(bank, base + from)
    case LaneStore(bank, lanes) =>
      var sliced := Slice(lanes, from, width);
      if |sliced| == width && Consecutive(sliced) then VectorStore(bank, sliced[0]) else LaneStore(bank, sliced)
  }

  function ChunkOutput(o: OutputPlan, from: nat, width: nat): OutputPlan
    requires width > 0
  {
    OutputPlan(o.output, ChunkTwiddle(o.twiddle, from, width), o.scale, o.large, ChunkStore(o.store, from, width))
  }

  function Chunk(batch: Batch, from: nat, width: nat): Batch
    requires width > 0
  {
    Batch(batch.id, Max(0, Min(width, batch.valid - from)),
          seq(|batch.loads|, j requires 0 <= j < |batch.loads| => ChunkLoad(batch.loads[j], from, width)),
          ChunkOutputs(batch.outputs, from, width))
  }

  function ChunkOutputs(outputs: seq<OutputPlan>, from: nat, width: nat): (r: seq<OutputPlan>)
    requires width > 0
    ensures |r| == |outputs|
  {
    seq(|outputs|, i requires 0 <= i < |outputs| => ChunkOutput(outputs[i], from, width))
  }

  /** The first n chunks of at most computeLanes lanes. */
  function FirstChunks(batch: Batch, simdLanes: nat, computeLanes: nat, n: nat): (r: seq<Piece>)
    requires computeLanes > 0 && (n > 0 ==> (n - 1) * computeLanes < simdLanes)
    ensures |r| == n
  {
    if n == 0 then []
    else
      var from := (n - 1) * computeLanes;
      var width := Min(computeLanes, simdLanes - from);
      assert n > 1 ==> (n - 2) * computeLanes <= from;
      FirstChunks(batch, simdLanes, computeLanes, n - 1) + [Piece(width, Chunk(batch, from, width))]
  }

  function ChunkCount(simdLanes: nat, computeLanes: nat): (n: nat)
    requires computeLanes > 0
    ensures n > 0 ==> (n - 1) * computeLanes < simdLanes
    ensures n * computeLanes >= simdLanes
  {
    (simdLanes + computeLanes - 1) / computeLanes
  }

  function ChunkBatch(batch: Batch, simdLanes: nat, computeLanes: nat): seq<Piece>
    requires computeLanes > 0
  {
    if computeLanes >= simdLanes then [Piece(simdLanes, batch)]
    else FirstChunks(batch, simdLanes, computeLanes, ChunkCount(simdLanes, computeLanes))
  }

  /** Pieces without a valid lane are not emitted. */
  function Kept(pieces: seq<Piece>): seq<Piece> {
    if pieces == [] then []
    else
      var last := pieces[|pieces| - 1];
      Kept(pieces[..|pieces| - 1]) + if last.batch.valid > 0 then [last] else []
  }
}
