/** The copies between main memory and a unit's scratchpad: every lane of a group copies its
    share of the block, strided element by element or in one stretch of vectors. */
module BulkCopy {
  import opened DivMod
  import opened Complexes

  datatype CopyMode = Strided | Contiguous

  /** ceil(length / lanes) */
  function ChunkSize(length: nat, lanes: nat): nat
    requires lanes > 0
  {
    (length + lanes - 1) / lanes
  }

  function ChunkEnd(length: nat, lanes: nat, lane: nat): (e: nat)
    requires lanes > 0
    ensures e <= length
  {
    var end := lane * ChunkSize(length, lanes) + ChunkSize(length, lanes);
    if end > length then length else end
  }

  /** The elements a lane copies, in the order it copies them. */
  function CopyIndices(mode: CopyMode, length: nat, lanes: nat, lane: nat): seq<nat>
    requires lanes > 0
  {
    match mode
    case Strided => EveryNth(lane, lanes, length)
    case Contiguous => Range(lane * ChunkSize(length, lanes), ChunkEnd(length, lanes, lane))
  }

  function EveryNth(from: nat, step: nat, length: nat): seq<nat>
    requires step > 0
    decreases if from < length then length - from else 0
  {
    if from >= length then [] else [from] + EveryNth(from + step, step, length)
  }

  function Range(from: nat, to: nat): seq<nat>
    decreases if from < to then to - from else 0
  {
    if from >= to then [] else [from] + Range(from + 1, to)
  }

  /** The lane that copies element i. */
  function CopyOwner(mode: CopyMode, length: nat, lanes: nat, i: nat): nat
    requires lanes > 0 && i < length
  {
    match mode
    case Strided => i % lanes
    case Contiguous =>
      ChunkPositive(length, lanes);
      i / ChunkSize(length, lanes)
  }

  lemma ChunkPositive(length: nat, lanes: nat)
    requires lanes > 0
    ensures length > 0 ==> ChunkSize(length, lanes) > 0
    ensures lanes * ChunkSize(length, lanes) >= length
  {
    Recompose(length + lanes - 1, lanes);
    if length > 0 {
      Below(length + lanes - 1, lanes, 1);
    }
  }

  lemma {:induction false} InEveryNth(from: nat, step: nat, length: nat, i: nat)
    requires step > 0
    ensures i in EveryNth(from, step, length) <==> from <= i < length && (i - from) % step == 0
    decreases if from < length then length - from else 0
  {
    if from < length {
      InEveryNth(from + step, step, length, i);
      if from <= i < from + step {
        Decode(step, 0, i - from);
      } else if from + step <= i {
        OneStep(i - from - step, step);
      }
    }
  }

  lemma OneStep(d: nat, step: nat)
    requires step > 0
    ensures (d + step) % step == d % step
  {
    Recompose(d, step);
    Decode(step, d / step + 1, d % step);
    assert step * (d / step + 1) == step * (d / step) + step;
  }

  lemma {:induction false} InRangeOf(from: nat, to: nat, i: nat)
    ensures i in Range(from, to) <==> from <= i < to
    decreases if from < to then to - from else 0
  {
    if from < to {
      InRangeOf(from + 1, to, i);
    }
  }

  /** In both modes every element of the block is copied by exactly one lane, and no lane copies
      more than the rounded-up share: in contiguous mode it copies the stretch of that length. */
  lemma EachCopiedOnce(mode: CopyMode, length: nat, lanes: nat, lane: nat, i: nat)
    requires lane < lanes
    ensures i in CopyIndices(mode, length, lanes, lane) <==> i < length && CopyOwner(mode, length, lanes, i) == lane
    ensures i < length ==> CopyOwner(mode, length, lanes, i) < lanes
    ensures lanes * (|CopyIndices(mode, length, lanes, lane)| - 1) < length
    ensures mode.Contiguous? ==> forall c: nat :: IsShare(length, lanes, c) ==> (i in CopyIndices(mode, length, lanes, lane) <==> lane * c <= i < lane * c + c && i < length)
  {
    hide IsShare, CopyIndices, CopyOwner;
    OwnerCopies(mode, length, lanes, lane, i);
    SharesAreEven(mode, length, lanes, lane);
    if mode.Contiguous? {
      forall c: nat | IsShare(length, lanes, c) ensures i in CopyIndices(mode, length, lanes, lane) <==> lane * c <= i < lane * c + c && i < length {
        LaneStretch(length, lanes, lane, c, i);
      }
    }
  }

  lemma OwnerCopies(mode: CopyMode, length: nat, lanes: nat, lane: nat, i: nat)
    requires lane < lanes
    ensures i in CopyIndices(mode, length, lanes, lane) <==> i < length && CopyOwner(mode, length, lanes, i) == lane
    ensures i < length ==> CopyOwner(mode, length, lanes, i) < lanes
  {
    match mode
    case Strided =>
      InEveryNth(lane, lanes, length, i);
      if lane <= i < length {
        SameRemainder(i, lane, lanes);
      }
      if i < lane {
        Decode(lanes, 0, i);
      }
    case Contiguous =>
      var chunk := ChunkSize(length, lanes);
      ChunkPositive(length, lanes);
      InRangeOf(lane * chunk, ChunkEnd(length, lanes, lane), i);
      if i < length {
        InChunk(i, chunk, lanes, lane, length);
      }
  }

  lemma SameRemainder(i: nat, lane: nat, lanes: nat)
    requires lane < lanes && lane <= i
    ensures (i - lane) % lanes == 0 <==> i % lanes == lane
  {
    Recompose(i - lane, lanes);
    Recompose(i, lanes);
    if (i - lane) % lanes == 0 {
      Decode(lanes, (i - lane) / lanes, lane);
    }
    if i % lanes == lane {
      Decode(lanes, i / lanes, 0);
    }
  }

  lemma InChunk(i: nat, chunk: nat, lanes: nat, lane: nat, length: nat)
    requires chunk > 0 && lane < lanes && i < length <= lanes * chunk
    ensures i / chunk < lanes
    ensures lane * chunk <= i < lane * chunk + chunk <==> i / chunk == lane
  {
    Below(i, chunk, lanes);
    assert chunk * lanes == lanes * chunk;
    Recompose(i, chunk);
    if lane * chunk <= i < lane * chunk + chunk {
      Squeeze(chunk, i / chunk - lane, i - lane * chunk - i % chunk);
    }
    assert chunk * (i / chunk) == (i / chunk) * chunk;
  }

  /** No lane copies an element twice. */
  lemma {:induction false} Ascending(s: seq<nat>, from: nat, step: nat, length: nat)
    requires step > 0 && s == EveryNth(from, step, length)
    ensures forall k :: 0 <= k < |s| ==> s[k] >= from
    ensures forall j, k :: 0 <= j < k < |s| ==> s[j] < s[k]
    decreases if from < length then length - from else 0
  {
    if from < length {
      Ascending(s[1..], from + step, step, length);
    }
  }

  // -------- how even the shares are

  /** c is the least number of elements that, taken by every lane, make up the block. */
  ghost predicate IsShare(length: nat, lanes: nat, c: nat) {
    lanes * c >= length && (c > 0 ==> lanes * (c - 1) < length)
  }

  lemma ShareIsChunk(length: nat, lanes: nat, c: nat)
    requires lanes > 0
    ensures IsShare(length, lanes, ChunkSize(length, lanes))
    ensures IsShare(length, lanes, c) ==> c == ChunkSize(length, lanes)
  {
    var chunk := ChunkSize(length, lanes);
    ChunkPositive(length, lanes);
    Recompose(length + lanes - 1, lanes);
    if chunk > 0 {
      assert lanes * (chunk - 1) == lanes * chunk - lanes;
    }
    if IsShare(length, lanes, c) {
      if c < chunk {
        Monotone(lanes, c, chunk - 1);
      } else if chunk < c {
        Monotone(lanes, chunk, c - 1);
      }
    }
  }

  lemma {:induction false} RangeSize(from: nat, to: nat)
    ensures |Range(from, to)| == if from < to then to - from else 0
    decreases if from < to then to - from else 0
  {
    if from < to {
      RangeSize(from + 1, to);
    }
  }

  lemma {:induction false} NthSize(from: nat, step: nat, length: nat)
    requires step > 0
    ensures |EveryNth(from, step, length)| > 0 ==> from + step * (|EveryNth(from, step, length)| - 1) < length
    decreases if from < length then length - from else 0
  {
    if from < length {
      NthSize(from + step, step, length);
      var n := |EveryNth(from + step, step, length)|;
      if n > 0 {
        assert step * n == step * (n - 1) + step;
      } else {
        assert step * n == 0;
      }
    }
  }

  /** No lane copies more than the rounded-up share of the block. */
  lemma SharesAreEven(mode: CopyMode, length: nat, lanes: nat, lane: nat)
    requires lane < lanes
    ensures lanes * (|CopyIndices(mode, length, lanes, lane)| - 1) < length
  {
    hide EveryNth, Range;
    var n := |CopyIndices(mode, length, lanes, lane)|;
    if n == 0 {
      assert lanes * -1 < 0;
    } else {
      match mode
      case Strided => NthSize(lane, lanes, length);
      case Contiguous =>
        var chunk := ChunkSize(length, lanes);
        ShareIsChunk(length, lanes, chunk);
        RangeSize(lane * chunk, ChunkEnd(length, lanes, lane));
        Monotone(lanes, n - 1, chunk - 1);
    }
  }

  /** In contiguous mode a lane's elements are the stretch that begins with its share. */
  lemma LaneStretch(length: nat, lanes: nat, lane: nat, c: nat, i: nat)
    requires lanes > 0 && IsShare(length, lanes, c)
    ensures i in CopyIndices(Contiguous, length, lanes, lane) <==> lane * c <= i < lane * c + c && i < length
  {
    hide IsShare;
    ShareIsChunk(length, lanes, c);
    InRangeOf(lane * c, ChunkEnd(length, lanes, lane), i);
  }

  /** Cell k of the destination after lane `lane` of `lanes` has copied its stretch of c elements. */
  function ShareCopied(src: seq<Complex>, before: seq<Complex>, from: nat, to: nat, length: nat, lane: nat, c: nat, k: nat): Complex
    requires k < |before|
  {
    if lane * c <= k - to < lane * c + c && k - to < length && from + (k - to) < |src| then src[from + (k - to)] else before[k]
  }

  // -------- the copies as emitted

  /** Cell k of the destination after a lane has copied the elements named. */
  function CopiedTo(src: seq<Complex>, before: seq<Complex>, from: nat, to: nat, named: seq<nat>, k: nat): Complex
    requires k < |before|
  {
    if k >= to && k - to in named && from + (k - to) < |src| then src[from + (k - to)] else before[k]
  }

  /** One element at a time, every lanes-th from the lane's own number on. */
  method CopyStrided(src: array<Complex>, dst: array<Complex>, from: nat, to: nat, length: nat, lanes: nat, lane: nat)
    requires src != dst && from + length <= src.Length && to + length <= dst.Length && lane < lanes
    modifies dst
    ensures forall k :: 0 <= k < dst.Length ==>
              dst[k] == CopiedTo(src[..], old(dst[..]), from, to, CopyIndices(Strided, length, lanes, lane), k)
  {
    ghost var before, all := dst[..], CopyIndices(Strided, length, lanes, lane);
    var i := lane;
    InOrder(lane, lanes, length);
    LaneFirst(lane, lanes);
    while i < length
      invariant lane <= i && (i - lane) % lanes == 0
      invariant forall k :: 0 <= k < dst.Length ==>
                  dst[k] == if k < to + i then CopiedTo(src[..], before, from, to, all, k) else before[k]
    {
      InEveryNth(lane, lanes, length, i);
      NoneBetween(lane, lanes, length, i);
      dst[to + i] := src[from + i];
      OneStep(i - lane, lanes);
      i := i + lanes;
    }
    forall k | 0 <= k < dst.Length && k >= to + i ensures CopiedTo(src[..], before, from, to, all, k) == before[k] {
      InEveryNth(lane, lanes, length, k - to);
    }
  }

  lemma LaneFirst(lane: nat, lanes: nat)
    requires lane < lanes
    ensures (lane - lane) % lanes == 0
  {
  }

  lemma InOrder(lane: nat, lanes: nat, length: nat)
    requires lane < lanes
    ensures forall j: nat :: j < lane ==> j !in EveryNth(lane, lanes, length)
  {
    forall j: nat | j < lane ensures j !in EveryNth(lane, lanes, length) {
      InEveryNth(lane, lanes, length, j);
    }
  }

  lemma NoneBetween(lane: nat, lanes: nat, length: nat, i: nat)
    requires lanes > 0 && lane <= i && (i - lane) % lanes == 0
    ensures forall j: nat :: i < j < i + lanes ==> j !in EveryNth(lane, lanes, length)
  {
    forall j: nat | i < j < i + lanes ensures j !in EveryNth(lane, lanes, length) {
      InEveryNth(lane, lanes, length, j);
      Recompose(i - lane, lanes);
      Decode(lanes, (i - lane) / lanes, j - i);
    }
  }

  /** The destination with elements start to i - 1 of the block copied. */
  function StretchCopied(src: seq<Complex>, before: seq<Complex>, from: nat, to: nat, start: nat, i: nat, k: nat): Complex
    requires k < |before|
  {
    if to + start <= k < to + i && from + (k - to) < |src| then src[from + (k - to)] else before[k]
  }

  /** One vector: all of it is loaded, then all of it stored. */
  method CopyVector(src: array<Complex>, dst: array<Complex>, from: nat, to: nat, width: nat)
    requires src != dst && from + width <= src.Length && to + width <= dst.Length
    modifies dst
    ensures forall k :: 0 <= k < dst.Length ==> dst[k] == if to <= k < to + width then src[from + (k - to)] else old(dst[k])
  {
    var vector := src[from..from + width];
    var l := 0;
    while l < width
      invariant 0 <= l <= width
      invariant forall k :: 0 <= k < dst.Length ==> dst[k] == if to <= k < to + l then src[from + (k - to)] else old(dst[k])
    {
      dst[to + l] := vector[l];
      l := l + 1;
    }
  }

  /** Elements start to end - 1 of the block: whole vectors first, then what is left one by one. */
  method CopyStretch(src: array<Complex>, dst: array<Complex>, from: nat, to: nat, start: nat, end: nat, width: nat)
    requires src != dst && from + end <= src.Length && to + end <= dst.Length && width > 0
    modifies dst
    ensures forall k :: 0 <= k < dst.Length ==> dst[k] == StretchCopied(src[..], old(dst[..]), from, to, start, end, k)
  {
    var i := start;
    while i + width <= end
      invariant start <= i && (i <= end || i == start)
      invariant forall k :: 0 <= k < dst.Length ==> dst[k] == StretchCopied(src[..], old(dst[..]), from, to, start, i, k)
    {
      CopyVector(src, dst, from + i, to + i, width);
      i := i + width;
    }
    while i < end
      invariant start <= i && (i <= end || i == start)
      invariant forall k :: 0 <= k < dst.Length ==> dst[k] == StretchCopied(src[..], old(dst[..]), from, to, start, i, k)
    {
      CopyVector(src, dst, from + i, to + i, 1);
      i := i + 1;
    }
  }

  /** The lane's own stretch of the block, clamped to the block's end. */
  method CopyContiguous(src: array<Complex>, dst: array<Complex>, from: nat, to: nat, length: nat, lanes: nat, lane: nat, width: nat)
    requires src != dst && from + length <= src.Length && to + length <= dst.Length && lane < lanes && width > 0
    modifies dst
    ensures forall k :: 0 <= k < dst.Length ==>
              dst[k] == CopiedTo(src[..], old(dst[..]), from, to, CopyIndices(Contiguous, length, lanes, lane), k)
    ensures forall c: nat, k :: IsShare(length, lanes, c) && 0 <= k < dst.Length ==>
              dst[k] == ShareCopied(src[..], old(dst[..]), from, to, length, lane, c, k)
  {
    hide ShareCopied, IsShare, CopiedTo, CopyIndices, StretchCopied;
    ghost var before := dst[..];
    var chunk := ChunkSize(length, lanes);
    var start := lane * chunk;
    var end := start + chunk;
    if end > length {
      end := length;
    }
    CopyStretch(src, dst, from, to, start, end, width);
    forall k | 0 <= k < dst.Length ensures dst[k] == CopiedTo(src[..], before, from, to, CopyIndices(Contiguous, length, lanes, lane), k) {
      StretchIsNamed(src[..], before, from, to, length, lanes, lane, end, k);
    }
    forall c: nat, k | IsShare(length, lanes, c) && 0 <= k < dst.Length ensures dst[k] == ShareCopied(src[..], before, from, to, length, lane, c, k) {
      ShareIsNamed(src[..], before, from, to, length, lanes, lane, c, k);
    }
  }

  lemma ShareIsNamed(src: seq<Complex>, before: seq<Complex>, from: nat, to: nat, length: nat, lanes: nat, lane: nat, c: nat, k: nat)
    requires lanes > 0 && k < |before| && IsShare(length, lanes, c)
    ensures CopiedTo(src, before, from, to, CopyIndices(Contiguous, length, lanes, lane), k) == ShareCopied(src, before, from, to, length, lane, c, k)
  {
    hide IsShare, CopyIndices;
    if k >= to {
      LaneStretch(length, lanes, lane, c, k - to);
    }
  }

  lemma StretchIsNamed(src: seq<Complex>, before: seq<Complex>, from: nat, to: nat, length: nat, lanes: nat, lane: nat, i: nat, k: nat)
    requires lanes > 0 && k < |before|
    requires i == ChunkEnd(length, lanes, lane)
    ensures StretchCopied(src, before, from, to, lane * ChunkSize(length, lanes), i, k)
            == CopiedTo(src, before, from, to, CopyIndices(Contiguous, length, lanes, lane), k)
  {
    hide ChunkSize, ChunkEnd;
    if k >= to {
      InRangeOf(lane * ChunkSize(length, lanes), ChunkEnd(length, lanes, lane), k - to);
    }
  }
}
