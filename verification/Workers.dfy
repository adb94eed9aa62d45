/** How a persistent stage deals its batches to logical workers, and how the three lowerings
    deal logical workers to the microthreads of a group. */
module Workers {
  import opened DivMod
  import opened Memories
  import opened Batches
  import opened LoopStages

  /** A stage's batches by logical worker, and the tail that belongs to the last of them. */
  datatype Assignment = Assignment(buckets: seq<seq<Batch>>, tail: seq<Batch>)

  datatype Dealt = Dealt(assignment: Assignment) | TooManyTails | TooFewWorkers

  /** Batches w, w + vectorWorkers, w + 2 * vectorWorkers, ... */
  function Bucket(full: seq<Batch>, vectorWorkers: nat, w: nat): seq<Batch>
    requires vectorWorkers > 0
  {
    if full == [] then []
    else
      var i := |full| - 1;
      Bucket(full[..i], vectorWorkers, w) + if i % vectorWorkers == w then [full[i]] else []
  }

  /** Full batches go round the vector workers; a tail reserves the last worker for itself. */
  function Partition(batches: seq<Batch>, workers: nat, simdLanes: nat, reserved: bool): Dealt {
    var full, tail := Full(batches, simdLanes), Partial(batches, simdLanes);
    if |tail| > 1 then TooManyTails
    else
      var reserve := reserved || tail != [];
      var vectorWorkers := if reserve then workers - 1 else workers;
      if vectorWorkers < 1 then TooFewWorkers
      else Dealt(Assignment(seq(workers, w requires 0 <= w < workers => Bucket(full, vectorWorkers, w)), if reserve then tail else []))
  }

  /** What a logical worker runs: the last one runs the tail alone when there is a tail. */
  function WorkerBody(a: Assignment, w: nat): seq<Batch> {
    if w == |a.buckets| - 1 && a.tail != [] then a.tail
    else if w < |a.buckets| then a.buckets[w] else []
  }

  // -------- the partition deals every batch once

  /** The batches of the first n lists together. */
  function Together(lists: nat -> seq<Batch>, n: nat): multiset<Batch> {
    if n == 0 then multiset{} else Together(lists, n - 1) + multiset(lists(n - 1))
  }

  lemma {:induction false} TogetherSame(f: nat -> seq<Batch>, g: nat -> seq<Batch>, n: nat)
    requires forall w: nat :: w < n ==> f(w) == g(w)
    ensures Together(f, n) == Together(g, n)
  {
    if n > 0 {
      TogetherSame(f, g, n - 1);
    }
  }

  /** One list longer by one batch. */
  lemma {:induction false} TogetherGrows(f: nat -> seq<Batch>, g: nat -> seq<Batch>, n: nat, w: nat, more: seq<Batch>)
    requires w < n && g(w) == f(w) + more && forall v: nat :: v < n && v != w ==> g(v) == f(v)
    ensures Together(g, n) == Together(f, n) + multiset(more)
  {
    if w < n - 1 {
      TogetherGrows(f, g, n - 1, w, more);
    } else {
      TogetherSame(f, g, n - 1);
    }
  }

  lemma {:induction false} TogetherNothing(f: nat -> seq<Batch>, n: nat)
    requires forall w: nat :: w < n ==> f(w) == []
    ensures Together(f, n) == multiset{}
  {
    if n > 0 {
      TogetherNothing(f, n - 1);
    }
  }

  function Buckets(full: seq<Batch>, vectorWorkers: nat): nat -> seq<Batch>
    requires vectorWorkers > 0
  {
    (w: nat) => Bucket(full, vectorWorkers, w)
  }

  lemma {:induction false} BucketsCover(full: seq<Batch>, vectorWorkers: nat)
    requires vectorWorkers > 0
    ensures Together(Buckets(full, vectorWorkers), vectorWorkers) == multiset(full)
  {
    if full == [] {
      TogetherNothing(Buckets(full, vectorWorkers), vectorWorkers);
    } else {
      var i := |full| - 1;
      BucketsCover(full[..i], vectorWorkers);
      TogetherGrows(Buckets(full[..i], vectorWorkers), Buckets(full, vectorWorkers), vectorWorkers, i % vectorWorkers, [full[i]]);
      assert full == full[..i] + [full[i]];
    }
  }

  lemma {:induction false} BeyondIsEmpty(full: seq<Batch>, vectorWorkers: nat, w: nat)
    requires 0 < vectorWorkers <= w
    ensures Bucket(full, vectorWorkers, w) == []
  {
    if full != [] {
      BeyondIsEmpty(full[..|full| - 1], vectorWorkers, w);
    }
  }

  /** The full batches go round the first v lists: batch i is entry i / v of list i % v, no list
      has anything else, the other lists have nothing, and no list is two longer than another. */
  ghost predicate DealsRound(buckets: seq<seq<Batch>>, full: seq<Batch>, v: nat)
    requires v > 0
  {
    && v <= |buckets|
    && (forall i: nat :: i < |full| ==> IsDealt(buckets, full, v, i))
    && (forall w: nat, j: nat :: w < |buckets| && j < |buckets[w]| ==> IsFromRound(buckets, full, v, w, j))
    && (forall w: nat, u: nat :: w < v && u < v ==> |buckets[w]| <= |buckets[u]| + 1)
  }

  ghost predicate IsDealt(buckets: seq<seq<Batch>>, full: seq<Batch>, v: nat, i: nat)
    requires 0 < v <= |buckets| && i < |full|
  {
    i / v < |buckets[i % v]| && buckets[i % v][i / v] == full[i]
  }

  ghost predicate IsFromRound(buckets: seq<seq<Batch>>, full: seq<Batch>, v: nat, w: nat, j: nat)
    requires w < |buckets| && j < |buckets[w]|
  {
    w < v && j * v + w < |full| && buckets[w][j] == full[j * v + w]
  }

  /** The first n batches w, w + v, w + 2 * v, ... when there are n of them. */
  lemma {:induction false} BucketIs(full: seq<Batch>, v: nat, w: nat, n: nat)
    requires w < v && |full| <= n * v + w && (n > 0 ==> (n - 1) * v + w < |full|)
    ensures |Bucket(full, v, w)| == n
    ensures forall j: nat :: j < n ==> IsEntry(full, v, w, j, Bucket(full, v, w)[j])
  {
    hide Bucket, IsEntry;
    if full == [] {
      NoBucket(v, w);
      NoEntries(v, w, n);
    } else {
      var i := |full| - 1;
      BucketGrows(full, v, w);
      if n > 0 && i == (n - 1) * v + w {
        Decode(v, n - 1, w);
        assert v * (n - 1) == (n - 1) * v;
        if n > 1 {
          assert (n - 2) * v == (n - 1) * v - v;
        }
        BucketIs(full[..i], v, w, n - 1);
        EntriesKept(full, v, w, n - 1, Bucket(full[..i], v, w));
        LastEntry(full, v, w, n - 1);
      } else {
        BetweenEntries(i, v, w, n);
        BucketIs(full[..i], v, w, n);
        EntriesKept(full, v, w, n, Bucket(full[..i], v, w));
      }
    }
  }

  lemma NoEntries(v: nat, w: nat, n: nat)
    requires w < v && (n > 0 ==> (n - 1) * v + w < 0)
    ensures n == 0
  {
  }

  lemma NoBucket(v: nat, w: nat)
    requires w < v
    ensures Bucket([], v, w) == []
  {
  }

  lemma BucketGrows(full: seq<Batch>, v: nat, w: nat)
    requires w < v && full != []
    ensures var i := |full| - 1; Bucket(full, v, w) == Bucket(full[..i], v, w) + if i % v == w then [full[i]] else []
  {
  }

  lemma EntriesKept(full: seq<Batch>, v: nat, w: nat, n: nat, entries: seq<Batch>)
    requires full != [] && |entries| == n && forall j: nat :: j < n ==> IsEntry(full[..|full| - 1], v, w, j, entries[j])
    ensures forall j: nat :: j < n ==> IsEntry(full, v, w, j, entries[j])
  {
    forall j: nat | j < n ensures IsEntry(full, v, w, j, entries[j]) {
      assert IsEntry(full[..|full| - 1], v, w, j, entries[j]);
    }
  }

  lemma LastEntry(full: seq<Batch>, v: nat, w: nat, n: nat)
    requires full != [] && |full| - 1 == n * v + w
    ensures IsEntry(full, v, w, n, full[|full| - 1])
  {
  }

  ghost predicate IsEntry(full: seq<Batch>, v: nat, w: nat, j: nat, b: Batch) {
    j * v + w < |full| && b == full[j * v + w]
  }

  lemma BetweenEntries(i: nat, v: nat, w: nat, n: nat)
    requires w < v && i < n * v + w && (n > 0 ==> (n - 1) * v + w < i)
    ensures i % v != w
  {
    Recompose(i, v);
    if i % v == w {
      assert n * v == v * n;
      if n > 0 {
        assert (n - 1) * v == v * (n - 1);
        Smaller(v, n - 1, i / v);
      }
      Smaller(v, i / v, n);
    }
  }

  lemma Smaller(v: nat, a: nat, b: nat)
    requires v * a < v * b
    ensures a < b
  {
    if b <= a {
      Monotone(v, b, a);
    }
  }

  lemma EntryCount(length: nat, v: nat, w: nat) returns (n: nat)
    requires w < v
    ensures length <= n * v + w && (n > 0 ==> (n - 1) * v + w < length)
  {
    if length <= w {
      n := 0;
    } else {
      Recompose(length - 1 - w, v);
      n := (length - 1 - w) / v + 1;
      assert (n - 1) * v == v * ((length - 1 - w) / v) && n * v == (n - 1) * v + v;
    }
  }

  /** List w has an entry for every batch w, w + v, w + 2 * v, ... there is. */
  lemma BucketAt(full: seq<Batch>, v: nat, w: nat, j: nat)
    requires w < v
    ensures j < |Bucket(full, v, w)| <==> j * v + w < |full|
    ensures j < |Bucket(full, v, w)| ==> Bucket(full, v, w)[j] == full[j * v + w]
  {
    hide Bucket;
    var n := EntryCount(|full|, v, w);
    BucketIs(full, v, w, n);
    if j < n {
      assert IsEntry(full, v, w, j, Bucket(full, v, w)[j]);
    } else {
      Monotone(v, n, j);
      assert v * n == n * v && v * j == j * v;
    }
  }

  lemma BucketsEven(full: seq<Batch>, v: nat, w: nat, u: nat)
    requires w < v && u < v
    ensures |Bucket(full, v, w)| <= |Bucket(full, v, u)| + 1
  {
    hide Bucket;
    var n := |Bucket(full, v, u)|;
    BucketAt(full, v, u, n);
    BucketAt(full, v, w, n + 1);
    assert (n + 1) * v == n * v + v;
  }

  lemma BucketsDealRound(buckets: seq<seq<Batch>>, full: seq<Batch>, v: nat)
    requires 0 < v <= |buckets| && forall w: nat :: w < |buckets| ==> buckets[w] == Bucket(full, v, w)
    ensures DealsRound(buckets, full, v)
  {
    hide Bucket;
    forall i: nat | i < |full| ensures IsDealt(buckets, full, v, i) {
      Recompose(i, v);
      assert i / v * v == v * (i / v);
      BucketAt(full, v, i % v, i / v);
    }
    forall w: nat, j: nat | w < |buckets| && j < |buckets[w]| ensures IsFromRound(buckets, full, v, w, j) {
      if w < v {
        BucketAt(full, v, w, j);
      } else {
        BeyondIsEmpty(full, v, w);
      }
    }
    forall w: nat, u: nat | w < v && u < v ensures |buckets[w]| <= |buckets[u]| + 1 {
      BucketsEven(full, v, w, u);
    }
  }

  lemma {:induction false} FullAndPartial(batches: seq<Batch>, simdLanes: nat)
    ensures multiset(Full(batches, simdLanes)) + multiset(Partial(batches, simdLanes)) == multiset(batches)
  {
    hide Full, Partial;
    if batches == [] {
      NoneFull(simdLanes);
    } else {
      var front, last := batches[..|batches| - 1], batches[|batches| - 1];
      FullAndPartial(front, simdLanes);
      assert batches == front + [last];
      FullFirst(front, last, simdLanes);
    }
  }

  function Bodies(a: Assignment): nat -> seq<Batch> {
    (w: nat) => WorkerBody(a, w)
  }

  /** A tail leaves the last worker no full batch. */
  ghost predicate LastIsFree(a: Assignment) {
    a.tail != [] ==> a.buckets != [] && a.buckets[|a.buckets| - 1] == []
  }

  /** The partition deals the full batches round the vector workers, gives every batch of the
      stage to exactly one logical worker, and leaves the worker that runs the tail nothing else. */
  lemma PartitionCovers(batches: seq<Batch>, workers: nat, simdLanes: nat, reserved: bool)
    requires Partition(batches, workers, simdLanes, reserved).Dealt?
    ensures var a := Partition(batches, workers, simdLanes, reserved).assignment;
            && |a.buckets| == workers && LastIsFree(a) && a.tail == Partial(batches, simdLanes)
            && Together(Bodies(a), workers) == multiset(batches)
    ensures var a, full := Partition(batches, workers, simdLanes, reserved).assignment, Full(batches, simdLanes);
            if reserved || Partial(batches, simdLanes) != [] then workers >= 2 && DealsRound(a.buckets, full, workers - 1)
            else workers >= 1 && DealsRound(a.buckets, full, workers)
  {
    hide Full, Partial, Bucket, Together, DealsRound;
    var a := Partition(batches, workers, simdLanes, reserved).assignment;
    var full, tail := Full(batches, simdLanes), Partial(batches, simdLanes);
    FullAndPartial(batches, simdLanes);
    if reserved || tail != [] {
      ReservedCovers(a, full, workers);
      BucketsDealRound(a.buckets, full, workers - 1);
    } else {
      UnreservedCovers(a, full, workers);
      BucketsDealRound(a.buckets, full, workers);
    }
  }

  ghost predicate AreBuckets(a: Assignment, full: seq<Batch>, vectorWorkers: nat)
    requires vectorWorkers > 0
  {
    forall w: nat :: w < |a.buckets| ==> a.buckets[w] == Bucket(full, vectorWorkers, w)
  }

  lemma ReservedCovers(a: Assignment, full: seq<Batch>, workers: nat)
    requires workers > 1 && |a.buckets| == workers && AreBuckets(a, full, workers - 1)
    ensures LastIsFree(a) && Together(Bodies(a), workers) == multiset(full) + multiset(a.tail)
  {
    hide Bucket;
    BeyondIsEmpty(full, workers - 1, workers - 1);
    BucketsCover(full, workers - 1);
    TogetherSame(Bodies(a), Buckets(full, workers - 1), workers - 1);
    assert Bodies(a)(workers - 1) == a.tail;
  }

  lemma UnreservedCovers(a: Assignment, full: seq<Batch>, workers: nat)
    requires workers > 0 && |a.buckets| == workers && AreBuckets(a, full, workers) && a.tail == []
    ensures LastIsFree(a) && Together(Bodies(a), workers) == multiset(full)
  {
    hide Bucket;
    BucketsCover(full, workers);
    TogetherSame(Bodies(a), Buckets(full, workers), workers);
  }

  lemma {:induction false} InTogether(f: nat -> seq<Batch>, n: nat, b: Batch)
    requires b in Together(f, n)
    ensures exists w: nat :: w < n && b in f(w)
  {
    if b in f(n - 1) {
    } else {
      InTogether(f, n - 1, b);
    }
  }

  lemma {:induction false} OfTogether(f: nat -> seq<Batch>, n: nat, w: nat, b: Batch)
    requires w < n && b in f(w)
    ensures b in Together(f, n)
  {
    if w < n - 1 {
      OfTogether(f, n - 1, w, b);
    }
  }

  // -------- the three lowerings

  /** Logical workers lane, lane + lanes, lane + 2 * lanes, ... in turn. */
  function LaneWork(body: nat -> seq<Batch>, workers: nat, lanes: nat, lane: nat): seq<Batch>
    requires lanes > 0
  {
    if workers == 0 then []
    else LaneWork(body, workers - 1, lanes, lane) + if (workers - 1) % lanes == lane then body(workers - 1) else []
  }

  function BucketsOf(a: Assignment): nat -> seq<Batch> {
    (w: nat) => if w < |a.buckets| then a.buckets[w] else []
  }

  /** Collapsed when the kernel is generated: each lane's buckets, and the tail after them. */
  function Flatten(a: Assignment, lanes: nat, lane: nat): seq<Batch>
    requires lanes > 0 && a.buckets != []
  {
    LaneWork(BucketsOf(a), |a.buckets|, lanes, lane)
    + if a.tail != [] && (|a.buckets| - 1) % lanes == lane then a.tail else []
  }

  /** One lane's share of a fused stage, worker after worker until none is left. */
  method FusedLane(a: Assignment, lanes: nat, lane: nat) returns (run: seq<Batch>)
    requires lane < lanes
    ensures run == LaneWork(Bodies(a), |a.buckets|, lanes, lane)
  {
    hide LaneWork;
    run := [];
    var w := lane;
    ghost var visits := 0;
    BeforeFirst(Bodies(a), lanes, lane);
    while w < |a.buckets|
      invariant w == lane + lanes * visits
      invariant visits > 0 ==> w < |a.buckets| + lanes
      invariant run == LaneWork(Bodies(a), w, lanes, lane)
      decreases |a.buckets| - w
    {
      run := run + WorkerBody(a, w);
      Decode(lanes, visits, lane);
      assert lanes * (visits + 1) == lanes * visits + lanes;
      SkipAfter(Bodies(a), w, lanes, lane, visits);
      w := w + lanes;
      visits := visits + 1;
    }
    Overshoot(Bodies(a), |a.buckets|, w, lanes, lane, visits);
  }

  lemma BeforeFirst(body: nat -> seq<Batch>, lanes: nat, lane: nat)
    requires lane < lanes
    ensures LaneWork(body, lane, lanes, lane) == []
  {
    forall w: nat | 0 <= w < lane ensures w % lanes != lane {
      Decode(lanes, 0, w);
    }
    SkipTo(body, 0, lane, lanes, lane);
  }

  // No worker from from to to is the lane's.
  lemma {:induction false} SkipTo(body: nat -> seq<Batch>, from: nat, to: nat, lanes: nat, lane: nat)
    requires lanes > 0 && from <= to && forall w: nat :: from <= w < to ==> w % lanes != lane
    ensures LaneWork(body, to, lanes, lane) == LaneWork(body, from, lanes, lane)
  {
    if from < to {
      SkipTo(body, from, to - 1, lanes, lane);
    }
  }

  lemma NextVisit(w: nat, lanes: nat, lane: nat, visits: nat)
    requires lane < lanes && w == lane + lanes * visits
    ensures forall v: nat :: w < v < w + lanes ==> v % lanes != lane
  {
    forall v: nat | w < v < w + lanes ensures v % lanes != lane {
      if v % lanes == lane {
        Recompose(v, lanes);
        Squeeze(lanes, v / lanes - visits, v - w);
      }
    }
  }

  lemma SkipAfter(body: nat -> seq<Batch>, w: nat, lanes: nat, lane: nat, visits: nat)
    requires lane < lanes && w == lane + lanes * visits
    ensures LaneWork(body, w + lanes, lanes, lane) == LaneWork(body, w, lanes, lane) + body(w)
  {
    Decode(lanes, visits, lane);
    NextVisit(w, lanes, lane, visits);
    SkipTo(body, w + 1, w + lanes, lanes, lane);
  }

  lemma Overshoot(body: nat -> seq<Batch>, workers: nat, w: nat, lanes: nat, lane: nat, visits: nat)
    requires lane < lanes && w == lane + lanes * visits && workers <= w && (visits > 0 ==> w < workers + lanes)
    ensures LaneWork(body, workers, lanes, lane) == LaneWork(body, w, lanes, lane)
  {
    forall v: nat | workers <= v < w ensures v % lanes != lane {
      if visits > 0 {
        assert lanes * visits == lanes * (visits - 1) + lanes;
        NextVisit(w - lanes, lanes, lane, visits - 1);
      } else {
        assert lanes * visits == 0;
        Decode(lanes, 0, v);
      }
    }
    SkipTo(body, workers, w, lanes, lane);
  }

  /** ceil(workers / lanes) */
  function Waves(workers: nat, lanes: nat): (n: nat)
    requires lanes > 0
  {
    (workers + lanes - 1) / lanes
  }

  /** What a lane runs in one wave: the logical worker it stands for, if there is one. */
  function WaveBody(a: Assignment, lanes: nat, lane: nat, wave: nat): seq<Batch> {
    var w := wave * lanes + lane;
    if w < |a.buckets| then WorkerBody(a, w) else []
  }

  /** The first n waves of a lane, one after the other. */
  function FirstWaves(a: Assignment, lanes: nat, lane: nat, n: nat): seq<Batch> {
    if n == 0 then [] else FirstWaves(a, lanes, lane, n - 1) + WaveBody(a, lanes, lane, n - 1)
  }

  lemma {:induction false} WavesAre(a: Assignment, lanes: nat, lane: nat, n: nat)
    requires lane < lanes && (n > 0 ==> (n - 1) * lanes < |a.buckets|)
    ensures FirstWaves(a, lanes, lane, n) == LaneWork(Bodies(a), if n * lanes < |a.buckets| then n * lanes else |a.buckets|, lanes, lane)
  {
    hide LaneWork, WaveBody, Bodies;
    if n == 0 {
      NoWork(Bodies(a), lanes, lane);
    } else {
      var start := (n - 1) * lanes;
      assert n > 1 ==> (n - 2) * lanes <= start;
      WavesAre(a, lanes, lane, n - 1);
      assert n * lanes == start + lanes;
      OneWave(a, lanes, lane, n - 1, start, if n * lanes < |a.buckets| then n * lanes else |a.buckets|);
    }
  }

  lemma NoWork(body: nat -> seq<Batch>, lanes: nat, lane: nat)
    requires lane < lanes
    ensures LaneWork(body, 0, lanes, lane) == []
  {
  }

  lemma OneWave(a: Assignment, lanes: nat, lane: nat, wave: nat, start: nat, end: nat)
    requires lane < lanes && start == wave * lanes && start <= end <= |a.buckets| && end <= start + lanes
    requires end < start + lanes ==> end == |a.buckets|
    ensures LaneWork(Bodies(a), end, lanes, lane) == LaneWork(Bodies(a), start, lanes, lane) + WaveBody(a, lanes, lane, wave)
  {
    var w := start + lane;
    forall v: nat | start <= v < end && v != w ensures v % lanes != lane {
      InWave(v, lanes, wave);
    }
    if w < end {
      InWave(w, lanes, wave);
      SkipTo(Bodies(a), start, w, lanes, lane);
      SkipTo(Bodies(a), w + 1, end, lanes, lane);
    } else {
      SkipTo(Bodies(a), start, end, lanes, lane);
    }
  }

  lemma InWave(v: nat, lanes: nat, wave: nat)
    requires lanes > 0 && wave * lanes <= v < wave * lanes + lanes
    ensures v % lanes == v - wave * lanes && v / lanes == wave
  {
    Decode(lanes, wave, v - wave * lanes);
  }

  lemma WaveCount(workers: nat, lanes: nat)
    requires workers > 0 && lanes > 0
    ensures (Waves(workers, lanes) - 1) * lanes < workers <= Waves(workers, lanes) * lanes && Waves(workers, lanes) > 0
  {
    Recompose(workers + lanes - 1, lanes);
    Below(workers + lanes - 1, lanes, 1);
  }

  /** A lane runs the same batches in the same order whether its logical workers are visited
      by separate waves or by one loop. */
  lemma WavesAgree(a: Assignment, lanes: nat, lane: nat)
    requires lane < lanes && a.buckets != []
    ensures FirstWaves(a, lanes, lane, Waves(|a.buckets|, lanes)) == LaneWork(Bodies(a), |a.buckets|, lanes, lane)
  {
    WaveCount(|a.buckets|, lanes);
    WavesAre(a, lanes, lane, Waves(|a.buckets|, lanes));
  }

  /** (wave, lane) names each logical worker below the count exactly once. */
  lemma WorkerCoverage(workers: nat, lanes: nat, w: nat)
    requires lanes > 0 && w < workers
    ensures w / lanes < Waves(workers, lanes) && w % lanes < lanes && (w / lanes) * lanes + w % lanes == w
    ensures forall wave: nat, lane: nat :: lane < lanes && NamesWorker(wave, lane, lanes, w) ==> wave == w / lanes && lane == w % lanes
  {
    WaveCount(workers, lanes);
    Recompose(w, lanes);
    Below(w, lanes, Waves(workers, lanes));
    forall wave: nat, lane: nat | lane < lanes && NamesWorker(wave, lane, lanes, w) ensures wave == w / lanes && lane == w % lanes {
      InWave(w, lanes, wave);
    }
  }

  predicate NamesWorker(wave: nat, lane: nat, lanes: nat, w: nat) {
    wave * lanes + lane == w
  }

  /** Flattening runs what the loop runs on every lane exactly when the tail's worker has no
      other batch: the loop runs the tail instead of that worker's batches, the flattened
      lane after them. */
  lemma FlattenAgrees(a: Assignment, lanes: nat)
    requires lanes > 0 && a.buckets != []
    ensures (forall lane: nat :: lane < lanes ==> Flatten(a, lanes, lane) == LaneWork(Bodies(a), |a.buckets|, lanes, lane)) <==> LastIsFree(a)
  {
    hide Flatten, LaneWork, LastIsFree;
    var last: nat := (|a.buckets| - 1) % lanes;
    FlattenedLane(a, lanes, last);
    if LastIsFree(a) {
      forall lane: nat | lane < lanes ensures Flatten(a, lanes, lane) == LaneWork(Bodies(a), |a.buckets|, lanes, lane) {
        FlattenedLane(a, lanes, lane);
      }
    } else {
      assert Flatten(a, lanes, last) != LaneWork(Bodies(a), |a.buckets|, lanes, last);
    }
  }

  lemma FlattenedLane(a: Assignment, lanes: nat, lane: nat)
    requires lane < lanes && a.buckets != []
    ensures var n := |a.buckets|;
            && (lane != (n - 1) % lanes ==> Flatten(a, lanes, lane) == LaneWork(Bodies(a), n, lanes, lane))
            && (lane == (n - 1) % lanes ==> (Flatten(a, lanes, lane) == LaneWork(Bodies(a), n, lanes, lane) <==> LastIsFree(a)))
  {
    var n := |a.buckets|;
    var bucket := BucketsOf(a);
    var before := LaneWork(bucket, n - 1, lanes, lane);
    LaneWorkSame(bucket, Bodies(a), n - 1, lanes, lane);
    assert LaneWork(bucket, n, lanes, lane) == before + if (n - 1) % lanes == lane then a.buckets[n - 1] else [];
    assert LaneWork(Bodies(a), n, lanes, lane) == before + if (n - 1) % lanes == lane then WorkerBody(a, n - 1) else [];
    var tail := if a.tail != [] && (n - 1) % lanes == lane then a.tail else [];
    assert Flatten(a, lanes, lane) == LaneWork(bucket, n, lanes, lane) + tail;
    assert lane != (n - 1) % lanes ==> before + [] + [] == before + [];
    if lane == (n - 1) % lanes {
      LastWorkerLane(before, a.buckets[n - 1], a.tail);
    }
  }

  /** Running a tail after a worker's batches is running it instead exactly when there are none. */
  lemma LastWorkerLane(before: seq<Batch>, bucket: seq<Batch>, tail: seq<Batch>)
    ensures before + bucket + tail == before + (if tail != [] then tail else bucket) <==> tail == [] || bucket == []
  {
    if tail == [] {
      assert before + bucket + tail == before + bucket;
    } else if bucket == [] {
      assert before + bucket + tail == before + tail;
    } else {
      assert |before + bucket + tail| != |before + tail|;
    }
  }

  lemma {:induction false} LaneWorkSame(f: nat -> seq<Batch>, g: nat -> seq<Batch>, workers: nat, lanes: nat, lane: nat)
    requires lanes > 0 && forall w: nat :: w < workers ==> f(w) == g(w)
    ensures LaneWork(f, workers, lanes, lane) == LaneWork(g, workers, lanes, lane)
  {
    if workers > 0 {
      LaneWorkSame(f, g, workers - 1, lanes, lane);
    }
  }

  // -------- all lanes together run every worker once

  function Lanes(body: nat -> seq<Batch>, workers: nat, lanes: nat): nat -> seq<Batch>
    requires lanes > 0
  {
    (lane: nat) => LaneWork(body, workers, lanes, lane)
  }

  /** The lanes of a group together run each logical worker's batches exactly once. */
  lemma {:induction false} LanesCover(body: nat -> seq<Batch>, workers: nat, lanes: nat)
    requires lanes > 0
    ensures Together(Lanes(body, workers, lanes), lanes) == Together(body, workers)
  {
    if workers == 0 {
      TogetherNothing(Lanes(body, 0, lanes), lanes);
    } else {
      LanesCover(body, workers - 1, lanes);
      TogetherGrows(Lanes(body, workers - 1, lanes), Lanes(body, workers, lanes), lanes, (workers - 1) % lanes, body(workers - 1));
    }
  }
}
