# A verified model of the FFT code generator

The repository turns decided FFT plans into programs for a near-memory device: straight-line
butterflies, stages of SIMD batches that may be split into narrower chunks and rolled into loops,
kernels of several stages, persistent leaves that run block after block on every unit, tiled
transposes, and the hosts that fill tables and launch all of this in rounds.  This project models
those programs, from the planned batches to the emitted statements and their launches, and proves
that they compute the discrete Fourier transform.

The modules follow the program's own layers:

- `Complexes`, `Fourier`, `DivMod`: exact complex arithmetic, the transform, what is used of
  rotations, and quotients and remainders.
- `StraightLine`, `SmallButterflies`, `OddButterflies`, `SymmetricButterflies`,
  `FactorizedButterflies`, `Butterflies`, `Inversion`: the butterfly emitter, its statements with an
  interpreter, and the transform every emitted program computes.
- `Memories`, `Batches`, `ChunkShapes`, `Chunking`, `Periods`, `LoopStages`, `Residues`, `Reroll`, `StageRuns`,
  `MixedLoads`: batches, their chunks, and the search for a loop that stands for them.
- `Stockham`, `StagePlans`, `StageEffects`, `Kernels`, `Permutations`: planned stages and whole kernels.
- `Phases`, `Workers`, `BulkCopy`, `PieceWrites`, `RolledLanes` and the `Persistent*` and
  `StageLaunches` modules: persistent leaves, whose microthreads take their steps, the loads of a
  job or the store of one cell, in any order.
- `Launches`, `FftLaunches`: which unit and slot a microthread gets, rounds, and cooperative groups.
- `Transposes`, `TransposeStages`, `TileLaunches`, `RecursiveTrees`, `RecursiveHosts`: tiled
  transposes, launched in rounds whose microthreads interleave, and recursive plans.
- `Layouts`, `PartialTransforms`, `Chains`, `ChainTables`, `ChainLaunches`, `ChainHosts`,
  `NearFarTransposes`, `BalancedHosts`: chains of kernels through DRAM and balanced plans.
- `TwiddleTables`: the literals that carry a table to the host.

Where a promise of the code fails, the model keeps the code as it is, gives an input, and proves the
exact condition under which the promise holds:

- `try_build_loop_stage` takes each operand's source from the first batch alone.  A loop reads what
  its batches read if and only if all full batches agree on it (`StageRuns.LoopReadsExactly`);
  `MixedLoads.MixedLoadsGoWrong` is a list of batches that passes every check and goes wrong.  It
  reaches the function only when called directly: planned stages never mix sources
  (`StagePlans.PlannedLoadBank`).
- A host that passes no tile offset reaches every tile if and only if one round holds them all
  (`Launches.UnsplitReachesAll`).  The planner's decision to leave the offset out is right over two
  units or more (`Launches.PlannedSplitSuffices`) and wrong over a single one whose room is not a
  whole number of chunks (`Launches.SingleUnitDropsTiles`, `Launches.SpreadingShrinks`); the
  host's own remark on the matter considers only the converse, an offset passed for a single round.
- The hosts of chains and balanced plans launch each kernel once for all its rows, and a microthread
  beyond its unit's cap returns.  Every row runs, wherever the pool begins, if and only if no unit can
  get more rows than the cap (`Launches.SingleLaunchReachesAll`); plans made without a capacity
  always pass (`Launches.UncappedReachesAll`).
- Flattening workers to physical lanes agrees with the other lowerings if and only if the last worker
  has no batches where there is a tail (`Workers.FlattenAgrees`); the planner's partition sees to that
  (`Workers.PartitionCovers`).
- Workers of one transform share a unit for every launch when their number divides the interleave
  chunk (`Launches.GroupsCoincide`), and otherwise some transform's workers are split over two units
  (`Launches.GroupsCanStraddle`).
- A kernel with one buffer keeps reads and writes apart if and only if it has at most two stages
  (`Kernels.BanksAreSeparate`).

## Model

| member | source | states |
|---|---|---|
| `Butterflies.ButterflyTransforms` | benchmarks/fft/codegen/fft_butterflies.py:422-505 | For every radix from 2 to 17 and both directions, running the emitted program over any operands binds output pair k to point k of the exact discrete Fourier transform, and, when outputs are told, hands every output to the callback once, in the order the emitter completes them; the order is a permutation of all outputs. |
| `Butterflies.InterleavingIsSafe` | benchmarks/fft/codegen/fft_butterflies.py:422-505 | Whatever the callback does with an output pair as soon as it is told, what it was handed, output after output, is what running the butterfly to its end first and collecting the same outputs in that order would have given: no later statement reads or rewrites a finished pair. |
| `Butterflies.Emitter.EmitButterfly` | benchmarks/fft/codegen/fft_butterflies.py:422-505 | The emitter, appending line by line in nested loops, appends exactly the program the other results are about; a radix outside 2 to 17 is refused and leaves the lines as they were. |
| `Butterflies.CompletionOrders` | benchmarks/fft/codegen/fft_butterflies.py:422-505 | The order in which the outputs of each radix from 2 to 17 are completed, output by output: in sequence, row after row of the factored form, or in pairs k and n - k. |
| `FactorizedButterflies.QuarterTurnsAreFree` | benchmarks/fft/codegen/fft_butterflies.py:46-88 | A rotation by one of the four quarter turns, and by no other factor, is emitted without a multiplication. |
| `FactorizedButterflies.FactorizedRuns` | benchmarks/fft/codegen/fft_butterflies.py:285-353 | For all supported small a and b the emitted groups, inner twiddles and final butterflies bind output k2 + b * k1 to that point of the a * b point transform, each told once, row after row; it rests on the Cooley-Tukey identity, proved for all a and b as Fourier.CooleyTukey. |
| `SymmetricButterflies.SymmetricRuns` | benchmarks/fft/codegen/fft_butterflies.py:356-413 | For every odd length, however long, the sums, differences and accumulated cosine and sine terms bind outputs k and n - k together to their points of the transform, in both directions, using only that rotations mirror; every name is declared once and nothing outside the prefix is touched. |
| `SymmetricButterflies.SymmetricTransforms` | benchmarks/fft/codegen/fft_butterflies.py:416-419 | The same form, used inside a larger butterfly under a prefix of its own and without telling, computes the whole transform of its operands. |
| `SymmetricButterflies.OrderComplete` | benchmarks/fft/codegen/fft_butterflies.py:387-413 | Telling output 0 and then the pairs k and n - k names every output exactly once. |
| `SmallButterflies.Radix2Transforms` | benchmarks/fft/codegen/fft_butterflies.py:91-105 | The fixed two-point program binds the two-point transform of whatever its operands hold. |
| `OddButterflies.Radix3Transforms` | benchmarks/fft/codegen/fft_butterflies.py:108-142 | The fixed three-point program, with its one half and half root of three, binds the three-point transform in both directions. |
| `SmallButterflies.Radix4Transforms` | benchmarks/fft/codegen/fft_butterflies.py:145-178 | The fixed four-point program, with its quarter turn as a swap and a sign, binds the four-point transform in both directions. |
| `OddButterflies.Radix5Transforms` | benchmarks/fft/codegen/fft_butterflies.py:181-252 | The fixed five-point program, with its cosines and sines of one and two fifths of a turn, binds the five-point transform in both directions. |
| `Inversion.ButterfliesInvert` | benchmarks/fft/codegen/fft_butterflies.py:422-505 | Running the opposite direction's program on the results of a butterfly gives back each operand times the radix, for every supported radix and whichever direction came first. |
| `Inversion.InverseUndoes` | benchmarks/fft/planning/core/fft_plan_core.py:1300-1301 | Transforming back multiplies every input by the length, whichever direction came first, so the reciprocal of the length is the scale that undoes a transform. |
| `Chunking.ChunkingPreserves` | benchmarks/fft/codegen/lowering.py:140-194 | For any lane counts each chunk holds its stretch of the lanes, valid where the batch is, and loads or stores by a vector exactly when that stretch is complete and its cells consecutive; the chunks kept are, in order, those whose first lane is valid; and running them leaves exactly the memory the unsplit batch leaves. |
| `StageRuns.StageChunkingPreserves` | benchmarks/fft/codegen/fft_codegen.py:837-871 | The pieces a stage emits are the chunks of its batches that have a valid lane, and no others, and they leave the memory of the unsplit stage. |
| `Periods.ArithStride` | benchmarks/fft/codegen/lowering.py:242-253 | The result is none exactly when no difference is common to the whole sequence, and otherwise is the only one that is; short sequences get zero. |
| `Periods.PeriodicStride` | benchmarks/fft/codegen/lowering.py:256-289 | At a period a progression is found exactly when every column steps by one common stride, and it reproduces every entry as base of the residue plus round times stride. |
| `Periods.OneProgression` | benchmarks/fft/codegen/lowering.py:256-289 | Where there are two rows or more at most one progression of that period reproduces the sequence. |
| `LoopStages.FindPeriod` | benchmarks/fft/codegen/lowering.py:443-455 | The search returns the least admissible divisor of the batch count up to 64 that leaves two rounds, and none only when every such divisor fails on some load or store sequence. |
| `LoopStages.TwiddleTable.TryBuildLoopStage` | benchmarks/fft/codegen/lowering.py:330-527 | A plan is returned exactly when the batches share their shape, leave at most one partial batch and are admissible at some period up to 64 that leaves two rounds; it has the least period, at least two rounds, and progressions that reproduce every offset of every batch; the table grows by one row for each lane of each batch of each twiddled output, and by nothing when no plan is returned, and holds each batch's factors where the plan says; the one input that raises is named exactly. |
| `LoopStages.InOrderOf` | benchmarks/fft/codegen/lowering.py:372-377 | The full and the partial batches are each taken in the order of the stage. |
| `LoopStages.TwoRows` | benchmarks/fft/codegen/lowering.py:453-457 | The later rejection of loops of a single round can never fire. |
| `StageRuns.PlanSurvives` | benchmarks/fft/codegen/lowering.py:512-517 | Rows that later stages add to the shared table leave every plan made before them good. |
| `Residues.ResiduePattern` | benchmarks/fft/codegen/fft_codegen.py:446-454 | The pattern returned is the one of least divisor that matches every value; none is returned only when no divisor and no steps match at all. |
| `Residues.CompactIsExact` | benchmarks/fft/codegen/fft_codegen.py:457-465 | The rendered formula addresses, for every residue and offset, exactly what the table of residues does. |
| `Reroll.LoopWritesIs` | benchmarks/fft/codegen/fft_codegen.py:534-571 | In round q, residue r, the looped chunk with its pooled twiddles makes the very writes, in order and value, that the unrolled batch r + period * q makes in that slice, for both renderings of the residue. |
| `Reroll.PromotedExactly` | benchmarks/fft/codegen/fft_codegen.py:468-531 | The lanes of a chunk are stored by one vector exactly when they go side by side in every round, at the residue at hand or, in the runtime residue loop, at every residue. |
| `StageRuns.Machine.RunLoop` | benchmarks/fft/codegen/fft_codegen.py:574-638 | Rounds, residues and chunks, run in that order, leave the memory that all the unrolled full batches, chunk after chunk, leave. |
| `StageRuns.PlanStage` | benchmarks/fft/codegen/fft_codegen.py:695-834 | A stage is never rejected with an exception once at least one full batch is demanded, is looped exactly when it fits and some period up to 64 leaves two rounds, and its outcome holds against the table as it then is. |
| `StageRuns.Machine.RunStage` | benchmarks/fft/codegen/fft_codegen.py:695-834 | Looped or not, whichever way residues are rendered and at whatever width, a stage leaves the memory its unrolled batches leave, tail included; the table may have grown since the stage was planned. |
| `StageRuns.LoopReadsExactly` | benchmarks/fft/codegen/lowering.py:385-400 | The loop reads what every batch reads if and only if all full batches agree on the bank of each operand, which the planner's own check does not look at beyond the first batch. |
| `MixedLoads.MixedLoadsGoWrong` | benchmarks/fft/codegen/lowering.py:385-400 | Three full one-lane batches pass every check, yet the third of them reads another bank than the loop does and its output differs: the concrete input on which the missing comparison matters. No planned stage has this shape (StagePlans.PlannedLoadBank), so it reaches the function only when called directly. |
| `StagePlans.PlannedChunkable` | benchmarks/fft/planning/core/fft_plan_core.py:1121-1224 | Every batch of a planned stage writes each place once, reads no place it writes and has lanes of the right number, so it may be split at any width. |
| `StagePlans.PlannedForms` | benchmarks/fft/planning/core/fft_plan_core.py:927-1118 | A planned load or store is a vector exactly when the batch is full and its neighbouring lanes are neighbouring cells; an output is twiddled exactly when it is not the first and the stage not the last; invalid lanes load nothing and are not turned. |
| `StagePlans.PlannedTail` | benchmarks/fft/planning/core/fft_plan_core.py:1148-1152 | A planned stage has at most one partial batch and it comes last. |
| `StagePlans.PlannedLoadBank` | benchmarks/fft/planning/core/fft_plan_core.py:927-979 | All loads of a planned stage come from the stage's one source bank, so planned stages may always be rolled. |
| `StagePlans.PlannedWritesOnce` | benchmarks/fft/planning/core/fft_plan_core.py:1015-1118 | No two lanes of a planned batch store to one place. |
| `StageEffects.StageEffect` | benchmarks/fft/planning/core/fft_plan_core.py:1121-1224 | Running the planned batches of a stage on a bank that holds x leaves, in the target bank, the whole next Stockham array with its scale and twiddle, and changes nothing outside that bank. |
| `Stockham.StageSorts` | benchmarks/fft/planning/core/fft_plan_core.py:1356-1399 | One stage of radix r takes an array holding the column transforms of length p to the one holding those of length r * p. |
| `Stockham.StagesTransform` | benchmarks/fft/planning/core/fft_plan_core.py:1356-1399 | Stages of any positive radices whose product is the length compute the transform of that length in natural order, with no bit reversal left over. |
| `Kernels.BanksAreSeparate` | benchmarks/fft/planning/core/fft_plan_core.py:856-924 | The stages of a kernel never read the bank they write if and only if there are at most two stages or two buffers. |
| `Kernels.PlanKernel` | benchmarks/fft/codegen/fft_codegen.py:976-993 | Planning all stages in order against one table loops each stage that can be looped, and no other, and leaves every one of the plans good against the table as it finally is. |
| `Kernels.RunKernel` | benchmarks/fft/codegen/fft_codegen.py:996-1066 | A whole kernel, all stages planned first, then each chunked to any width, rolled where it can be and run against the finished table with emitted butterflies, leaves the transform of its input, scaled and twiddled as planned, at the output's stride. |
| `Kernels.KernelsInvert` | benchmarks/fft/planning/core/fft_plan_core.py:1300-1301 | A forward kernel followed by an inverse one with the reciprocal of the length as its scale gives back every input. |
| `Phases.StepKeeps` | benchmarks/fft/verification/verify_fft_persistent.py:126-137 | Whichever microthread steps next, by loading for a job or storing one cell, what every cell, job and thread is promised is kept. |
| `Phases.Device.Launch` | benchmarks/fft/verification/verify_fft_persistent.py:60-192 | A launch, stepping arbitrary unfinished microthreads to the end, leaves every cell a job was to write with the value aimed at and every other cell alone, for every interleaving. |
| `Workers.PartitionCovers` | benchmarks/fft/planning/execution/fft_plan_persistent.py:235-285 | Full batches are dealt round the vector workers: batch i is entry i / v of worker i mod v, no worker has anything else, and no worker has two more than another; the last worker is left out exactly when it is reserved or there is a tail, which is then all it runs; every batch goes to exactly one worker. |
| `Workers.FusedLane` | benchmarks/fft/codegen/fft_persistent_codegen.py:589-605 | The emitted loop ends and runs, for one lane, each of its logical workers' batches in order. |
| `Workers.FlattenAgrees` | benchmarks/fft/codegen/fft_persistent_codegen.py:309-366 | Flattening the workers to physical lanes gives every lane the same list as the fused loop if and only if the last worker has no batches where there is a tail. |
| `Workers.WavesAgree` | benchmarks/fft/codegen/fft_persistent_codegen.py:410-425 | Counting waves up to the rounded-up quotient gives a lane the same list as the fused loop, ragged last wave included. |
| `Workers.WorkerCoverage` | benchmarks/fft/verification/verify_fft_persistent.py:479-512 | Wave and lane name each logical worker exactly once, for any number of workers and lanes. |
| `Workers.LanesCover` | benchmarks/fft/verification/verify_fft_persistent.py:479-512 | The lanes of a group together run each logical worker's batches exactly once. |
| `PersistentLeaf.DealtExactly` | benchmarks/fft/planning/execution/fft_plan_persistent.py:235-285 | The planner can deal out a stage of a leaf exactly when there are two workers or more, or one that need not be reserved for a tail. |
| `PersistentLeaf.LoweringsAgree` | benchmarks/fft/verification/verify_fft_persistent.py:565-608 | Wave, fused and physical lowerings give each lane the same batches in the same order. |
| `RolledLanes.SortSorts` | benchmarks/fft/codegen/fft_persistent_codegen.py:231-247 | The list sorted by batch id is ascending and a permutation of the list that was dealt. |
| `RolledLanes.SortIsStable` | benchmarks/fft/codegen/fft_persistent_codegen.py:231-247 | Batches of one id keep the order they were dealt in. |
| `PersistentLeaf.RolledListsRunSorted` | benchmarks/fft/codegen/fft_persistent_codegen.py:231-247 | A rolled list has three full batches or more, which run in the order of their ids with the partial batch last; a list that is not rolled runs as it is dealt. |
| `RolledLanes.RolledPermutes` | benchmarks/fft/codegen/fft_persistent_codegen.py:231-247 | Rolling a worker's list reorders it and neither loses nor repeats a batch. |
| `RolledLanes.RunDispatch` | benchmarks/fft/codegen/fft_persistent_codegen.py:231-247 | A worker's emitted list, sorted and looped when its plan allows and unrolled otherwise, leaves the memory of the rolled or the given order of its batches. |
| `RolledLanes.LoopChunkWrites` | benchmarks/fft/codegen/fft_codegen.py:534-571 | Every chunk of a rolled worker's loop writes what the piece of the unrolled batch it stands for writes. |
| `PersistentLeaf.StageListsRoll` | benchmarks/fft/codegen/fft_persistent_codegen.py:231-247 | Any list of batches dealt from one stage loads from one bank, so it may always be rolled. |
| `PersistentLeaf.LaneRunsItsBatches` | benchmarks/fft/codegen/fft_persistent_codegen.py:250-306 | Rolled or not, a lane runs each batch it was dealt as often as it was dealt. |
| `BulkCopy.EachCopiedOnce` | benchmarks/fft/codegen/fft_persistent_codegen.py:698-742 | In the strided and in the contiguous mode each element of a block is copied by exactly one lane, no lane copies more than the rounded-up share, and in contiguous mode lane L copies the stretch of c elements from L * c on, c being the least share that covers the block. |
| `BulkCopy.CopyStrided` | benchmarks/fft/codegen/fft_persistent_codegen.py:698-742 | A lane's strided loop copies just its own elements and leaves the rest of the destination. |
| `BulkCopy.CopyContiguous` | benchmarks/fft/codegen/fft_persistent_codegen.py:698-742 | Copied by vectors with a scalar tail at any width, just the lane's stretch of the least share that covers the block, clamped to the block's end, is copied and the rest of the destination kept. |
| `StageLaunches.LaunchCount` | benchmarks/fft/planning/core/fft_plan_core.py:609-624 | A stage is launched once for each wave in wave mode, the waves being as few as reach every logical worker, and once in the other modes. |
| `PersistentRuns.RunStageOfRound` | benchmarks/fft/codegen/fft_persistent_codegen.py:454-609 | With the round and wave counters as the invariant has them and every bank holding signal s, one stage, as one launch or wave after wave, leaves signal s + 1 in the other banks and the counters as they were. |
| `PersistentRuns.RunLeaf` | benchmarks/fft/codegen/fft_persistent_codegen.py:770-933 | For any number of blocks, groups, lanes and logical workers, either copy mode, any of the three lowerings, any choice of rolled lists and any interleaving within a launch, a whole run leaves the scaled transform of every block in the output. |
| `Launches.SafeExactly` | benchmarks/fft/codegen/fft_transpose_codegen.py:633-651 | A round keeps to a unit's capacity at every place of the pool if and only if the worst count, given in closed form, does. |
| `Launches.NoTileIsDropped` | benchmarks/fft/codegen/fft_transpose_codegen.py:479-490 | In a round no larger than the safe size every microthread's local id, being its rank on its unit, is below the capacity, at every place of the pool, so the guard turns none away. |
| `Launches.SafeIsLargest` | benchmarks/fft/codegen/fft_transpose_codegen.py:620-672 | The safe size is a whole number of rotations over the units and no larger number of rotations is safe; with room for less than a chunk not one microthread more would be. |
| `RecursiveHosts.RoundIsLargest` | benchmarks/fft/codegen/fft_transpose_codegen.py:675-693 | A transpose stage is launched in rounds of the room of one unit, or, spread over the units, of the largest safe number of whole rotations. |
| `Launches.SpreadingShrinks` | benchmarks/fft/codegen/fft_transpose_codegen.py:675-693 | The safe size reaches the plain capacity exactly when the capacity is below a chunk, or there are two units, or it is a whole number of chunks. |
| `Launches.HostRounds` | benchmarks/fft/codegen/fft_transpose_codegen.py:1096-1111 | The host's loop issues the rounds in order, each as large as allowed and the last as large as needed. |
| `Launches.EveryTileOnce` | benchmarks/fft/codegen/fft_transpose_codegen.py:1096-1111 | With the offset passed on, every tile is worked on by exactly one microthread of one round. |
| `Launches.UnsplitReachesAll` | benchmarks/fft/codegen/fft_transpose_codegen.py:1096-1111 | Without the offset every tile is reached if and only if a single round holds them all. |
| `Launches.PlannedSplitSuffices` | benchmarks/fft/planning/strategies/fft_plan_recursive.py:545-591 | The planner leaves the offset out only when the tiles fit the capacity; over two units or more one safe round then holds them all. |
| `Launches.SingleUnitDropsTiles` | benchmarks/fft/codegen/fft_transpose_codegen.py:675-693 | Over one unit it need not: the safe size falls below the capacity and the tiles past the first round are never reached. |
| `Launches.SingleLaunchReachesAll` | benchmarks/fft/codegen/fft_codegen.py:1149-1162 | A host that launches a kernel once for all its rows has every row run, wherever its pool begins, if and only if no unit can get more rows than the kernel's cap; past that the guard on the local id silently drops rows. |
| `Launches.UncappedReachesAll` | benchmarks/fft/planning/core/fft_plan_core.py:806-853 | A kernel planned without a capacity, and so capped at its own number of rows, always passes that condition. |
| `FftLaunches.EveryTransformOnce` | benchmarks/fft/planning/execution/launch_plan.py:21-90 | For every plan the resolver accepts, padded or not, spread over the units or not, and wherever the aligned pool begins, each worker of each transform is exactly one microthread of one round that none of the emitted checks turns away. |
| `FftLaunches.EveryTransformRuns` | benchmarks/fft/codegen/common.py:49-58 | No transform goes without: each of its workers is one of the microthreads that some round launches and no check turns away. |
| `FftLaunches.RoundsAreFull` | benchmarks/fft/planning/execution/launch_plan.py:58-90 | A round is as large as it may be: the room of one unit, or, spread, the largest safe size, or, with less room than a chunk, the room of every unit; launches are padded in that last case alone, and bounds are passed exactly when padding or a second round calls for them. |
| `FftLaunches.NoneToSpare` | benchmarks/fft/planning/execution/launch_plan.py:43-55 | A round launches no more microthreads than reach its last worker, and when padded no more chunks. |
| `FftLaunches.SlotsAreShared` | benchmarks/fft/codegen/fft_cooperative_codegen.py:58-111 | Two working microthreads of a round share a unit's scratchpad slot if and only if they work on the same transform; their worker numbers then differ, and the slot is one the unit has. |
| `FftLaunches.AlignedRank` | benchmarks/fft/verification/verify_fft_execution_codegen_fixes.py:65-68 | On a pool that begins with a chunk the dense local ids are those of the formula and the units those of the formula, turned by where the pool begins. |
| `Launches.LocalIdsAreABijection` | benchmarks/fft/verification/verify_fft_execution_codegen_fixes.py:65-68 | On an aligned pool global id and (unit, local id) determine each other. |
| `Launches.LocalIsRank` | benchmarks/fft/verification/verify_fft_execution_codegen_fixes.py:65-68 | The local id formula is the rank among the unit's own microthreads, so local ids are dense. |
| `Launches.GroupsCoincide` | benchmarks/fft/codegen/fft_cooperative_codegen.py:58-111 | With a worker count that divides the interleave chunk, two microthreads share a logical transform exactly when they share a unit and a scratchpad slot, and the worker number is the same by global and by local id. |
| `Launches.GroupsCanStraddle` | benchmarks/fft/codegen/fft_cooperative_codegen.py:134-177 | With one that does not, over two units or more, some transform's workers sit on different units. |
| `TransposeStages.FillTables` | benchmarks/fft/codegen/fft_transpose_codegen.py:957-976 | The coordinate tables, as the host's loops fill them, hold the replica and the tile row of every tile, where they are asked for. |
| `TransposeStages.Locate` | benchmarks/fft/codegen/fft_transpose_codegen.py:479-557 | Whether a coordinate comes from no division, a division or a table, the device finds the replica, row and column of its tile. |
| `TransposeStages.ChooseBranch` | benchmarks/fft/codegen/fft_transpose_codegen.py:479-557 | The emitted branches for the corner, the tail row, the tail column and the inside give each tile its own height and width. |
| `TransposeStages.EachElementInOneTile` | benchmarks/fft/codegen/fft_transpose_codegen.py:407-476 | Every element of every replica lies in the block of exactly one tile, tails and corner included. |
| `TransposeStages.FillTwiddles` | benchmarks/fft/codegen/fft_transpose_codegen.py:575-617 | The host's table holds W to the power r * c at row r and column c, each entry filled. |
| `TileLaunches.Step` | benchmarks/fft/codegen/fft_transpose_codegen.py:407-476 | One step moves one element from the source into the thread's own slot, twiddled, or from there to its transposed place, scaled, and changes nothing else. |
| `TileLaunches.SlotsOfRound` | benchmarks/fft/codegen/fft_transpose_codegen.py:479-490 | In a round that leaves every unit room, no two microthreads share a scratchpad slot, wherever the pool begins. |
| `TileLaunches.StartLaunch` | benchmarks/fft/codegen/fft_transpose_codegen.py:479-557 | In a round that leaves every unit room no microthread is turned away by the guard on its local id; each starts on the block of the tile its global id and offset name, in the slot of its unit and local id. |
| `TileLaunches.RunLaunch` | benchmarks/fft/codegen/fft_transpose_codegen.py:560-572 | Stepped in any order, the microthreads of a launch land every element of their tiles and disturb nothing of other tiles. |
| `TileLaunches.RunTransposeRounds` | benchmarks/fft/codegen/fft_transpose_codegen.py:1096-1111 | For all sides, tile sizes and replica counts, with tails, over any number of units and any round size that leaves each unit room, with offsets or, where one round is enough, without, the rounds leave in the destination every element transposed, times its table entry, scaled when set. |
| `Transposes.DstDistinct` | benchmarks/fft/codegen/fft_transpose_codegen.py:407-476 | Different elements go to different places of the destination. |
| `Transposes.DstReached` | benchmarks/fft/codegen/fft_transpose_codegen.py:407-476 | Every place of the destination receives some element. |
| `RecursiveTrees.SplitTransforms` | benchmarks/fft/planning/strategies/fft_plan_recursive.py:594-886 | Transpose, shorter transforms, twiddled transpose, shorter transforms and transpose compute the long transforms in natural order. |
| `RecursiveTrees.TreeTransforms` | benchmarks/fft/planning/strategies/fft_plan_recursive.py:180-205 | For every tree of splits the flattened list of steps, each doing its own part, computes the transforms of the tree's whole length for every block. |
| `RecursiveHosts.RunPlan` | benchmarks/fft/codegen/fft_transpose_codegen.py:696-1146 | The host of a recursive plan, through two work buffers in turn, with every kernel planned, chunked, rolled and launched in the rounds of its resolved descriptor and every transpose launched in rounds of its own, leaves the transforms of every block in the output. |
| `RecursiveHosts.TransformBlocks` | benchmarks/fft/codegen/common.py:61-89 | Launched in the resolved rounds, with whatever room a unit has, the microthreads that are not turned away transform every block. |
| `RecursiveHosts.PlansInvert` | benchmarks/fft/codegen/fft_transpose_codegen.py:696-1146 | A forward plan followed by an inverse one of the same length gives back every input. |
| `Layouts.StoreInverts` | benchmarks/fft/verification/verify_fft_multikernel.py:19-62 | The address an element is stored at is inside the buffer and is taken back to its row and element by the digits of the address, for all four mappings. |
| `Layouts.StoredApart` | benchmarks/fft/codegen/fft_codegen.py:77-126 | Different elements of different rows are stored in different places. |
| `Layouts.EachPlaceHolds` | benchmarks/fft/verification/verify_fft_multikernel.py:19-62 | Every place of a peeled buffer holds an element of a row, so the peeled store is a bijection. |
| `Layouts.NextDigits` | benchmarks/fft/verification/verify_fft_multikernel.py:65-114 | Where a kernel stores peeled is where the next one reads: same signal, the digits done so far with the new one on top, and the digits left. |
| `PartialTransforms.PartGrows` | benchmarks/fft/planning/strategies/fft_plan_multikernel.py:287-403 | A kernel over one digit, followed by its twiddle, turns transforms over the digits done into those over one digit more. |
| `Chains.ChainStep` | benchmarks/fft/planning/strategies/fft_plan_multikernel.py:287-403 | After a kernel that peels, the next kernel finds every signal transformed over one digit more, packed where it reads. |
| `Chains.ChainEnds` | benchmarks/fft/planning/strategies/fft_plan_multikernel.py:365-372 | The last kernel of a chain, storing at the stride of the lengths before it, leaves every point of the whole transform in natural order, scaled. |
| `ChainTables.FillPeeled` | benchmarks/fft/codegen/common.py:311-357 | The host's nested loops write every address of the large twiddle table exactly once, with the value the device fetches there. |
| `ChainTables.FillCrossed` | benchmarks/fft/codegen/common.py:311-343 | For a store that crosses over, the dense table holds the value each fetch needs. |
| `ChainTables.ReferenceAgrees` | benchmarks/fft/verification/verify_fft_harness.py:283-317 | The reference's own map from address to digits gives, at every address, the value the host filled in. |
| `ChainLaunches.LaunchKernel` | benchmarks/fft/codegen/fft_codegen.py:996-1066 | All rows of a kernel, launched at once and each run as a whole planned kernel, store each row's transform with its large twiddle where the mapping says, and nothing overlaps. |
| `ChainHosts.RunMultiKernel` | benchmarks/fft/codegen/fft_codegen.py:1069-1186 | For any list of kernels of any supported radices whose rows the units have room for, the host's chain of launches, tables and buffers leaves the transform of the whole length, in natural order. |
| `Chains.ChainCrosses` | benchmarks/fft/planning/strategies/fft_plan_balanced.py:359-421 | The near side's last kernel, storing crossed over, leaves each transform in one piece with the twiddle for the far side. |
| `BalancedHosts.RunBalanced` | benchmarks/fft/planning/strategies/fft_plan_balanced.py:359-421 | A balanced plan whose near side stores crossed over leaves the transform of the whole length, when the units have room for the rows of each launch. |
| `NearFarTransposes.NearIsPermutation` | benchmarks/fft/verification/verify_fft_balanced.py:118-135 | Elements and near addresses determine each other: the near map is a permutation of all addresses. |
| `NearFarTransposes.FarIsPermutation` | benchmarks/fft/verification/verify_fft_balanced.py:118-135 | Elements and far addresses determine each other. |
| `NearFarTransposes.FillTurns` | benchmarks/fft/codegen/fft_transpose_codegen.py:190-225 | The host's loops put at each near address the turn of its near row and element. |
| `NearFarTransposes.FetchedTurn` | benchmarks/fft/verification/verify_fft_balanced.py:94-115 | The value fetched at a near address is the power, batch times combined digit, that belongs to the far place the element lands in. |
| `NearFarTransposes.TransferTile` | benchmarks/fft/codegen/fft_transpose_codegen.py:81-149 | One microthread moves its tile by row vectors into the scratchpad and by column vectors out, to exactly the memory the specification of the tile names. |
| `NearFarTransposes.TransferCrosses` | benchmarks/fft/codegen/fft_transpose_codegen.py:81-149 | A tile's specified effect takes each of its elements, turned, to its far place and leaves every other place. |
| `NearFarTransposes.RunBoundary` | benchmarks/fft/codegen/fft_transpose_codegen.py:81-149 | With the tiles of the one launch taken in any order, each in the slot of its unit and local id, every element ends up turned at its far place when no unit gets more tiles than it has room for. |
| `BalancedHosts.RunBalancedTransposed` | benchmarks/fft/codegen/fft_transpose_codegen.py:228-373 | A balanced plan with a transpose of its own between its sides leaves the transform of the whole length, when the units have room for the rows and tiles of each launch. |
| `TwiddleTables.DecodeTable` | benchmarks/fft/codegen/common.py:102-142 | The host's nibble loop rebuilds every word of both components from the emitted literal, for any table. |
| `TwiddleTables.EncodeIsInjective` | benchmarks/fft/codegen/common.py:102-142 | Different tables have different literals. |
| `TwiddleTables.FillRuns` | benchmarks/fft/codegen/common.py:102-142 | The run-length form writes each index exactly once, in order, with its own value, and nothing past the table. |

## Left out

Premises of the results:

- Rotations: cosine and sine enter only as a rotation table that satisfies `Fourier.IsTurn` (angles
  add, a negated angle mirrors, a fraction of a turn may be reduced, a whole turn is the identity, and
  from a third of a turn down the first point lies above the axis).  That such a table exists is
  trigonometry and is not proved here.
- Arithmetic: values are exact reals.  Rounding to 32 bits, the printing of constants, the epsilon
  comparisons that pick a special rotation, and the range in which a float counter is exact are not
  modelled; counters in float cells are integers.
- Names and cells: statement names are structured values rather than strings, and a cell holds a
  complex pair where the device has two arrays of floats.
- Scratchpads: the counters of a persistent leaf are zero when it starts, and one software group of
  microthreads runs on each unit.
- Local ids: the microthreads of a launch that are on one unit have the dense local ids 0, 1, 2 and so on.
- Load sources: a stage is rolled only where all full batches load an operand from one bank, proved
  for every planned stage and every list dealt from one.
- Partial batches: a rolled stage has at most one and it comes last, proved for every planned stage.
- Units: spread launches of recursive plans are over two units or more, and the single launches of
  chains and balanced plans leave every unit room, for the reasons given above.

Coarser than the device in some respects:

- Phases.Device.Launch: an emitted piece of a stage loads all its operands in one step and stores one
  cell at a time; other microthreads step between its stores but not between its loads, which are
  proved to be of cells that nobody writes during the launch.
- PersistentRuns.RunLeaf: a rolled list is represented on the device by the unrolled pieces that its
  loop chunks are proved to write like (RolledLanes.LoopChunkWrites), in the loop's order.  Which of the lists that can be rolled are is left open; the result holds for every choice.
- RecursiveHosts.TransformBlocks: the microthreads of a kernel's round run one after another, each
  with a scratchpad of its own; that their slots differ is FftLaunches.SlotsAreShared.
- ChainLaunches.LaunchKernel: the rows of a kernel run one after another, as above.
- NearFarTransposes.RunBoundary: the tiles of a boundary run one at a time, in any order, each in its
  own slot.
- TwiddleTables.DecodeTable: entries are pairs of 32-bit words; which float a word stands for is not modelled.

Not modelled:

- The bodies of cooperative stages, in which the workers of a transform share its batches; only their
  launch, slots and groups are.
- Intermediate buffers in DRAM in place of scratchpad (`storage_mode "global"`).
- The SPLIT mapping and its table, which no planner produces.
- The hybrid of a persistent leaf with a plain or cooperative tail.
- How planners search for radices, splits, tile sizes, worker counts and lane widths, and the cost
  model: the results hold for every choice.
- The emitted text itself, Mojo syntax, comments, execution records, reference checks and array dumps.
- Toolchain and simulator drivers, log parsing and analysis scripts.
