/** The search for a period at which a list of offsets steps evenly. */
module Periods {
  import opened DivMod
  import opened Memories

  // -------- one progression

  /** Consecutive offsets differ by stride. */
  predicate Steps(s: seq<int>, stride: int) {
    forall i :: 0 < i < |s| ==> StepAt(s, stride, i)
  }

  predicate StepAt(s: seq<int>, stride: int, i: int)
    requires 0 < i < |s|
  {
    s[i] - s[i - 1] == stride
  }

  /** The common difference of s, or none if there is no common difference. */
  method ArithStride(s: seq<int>) returns (r: Option<int>)
    ensures |s| < 2 ==> r == Some(0)
    ensures |s| >= 2 ==> (r.None? <==> forall stride :: !Steps(s, stride))
    ensures |s| >= 2 && r.Some? ==> forall stride :: Steps(s, stride) <==> stride == r.value
  {
    if |s| < 2 {
      return Some(0);
    }
    var stride := s[1] - s[0];
    assert forall other :: Steps(s, other) ==> other == stride by {
      forall other | Steps(s, other) ensures other == stride {
        assert StepAt(s, other, 1);
      }
    }
    assert StepAt(s, stride, 1);
    var i := 1;
    while i < |s| - 1
      invariant 1 <= i <= |s| - 1
      invariant forall j :: 0 < j <= i ==> StepAt(s, stride, j)
    {
      if s[i + 1] - s[i] != stride {
        assert !StepAt(s, stride, i + 1);
        return None;
      }
      i := i + 1;
    }
    assert Steps(s, stride);
    return Some(stride);
  }

  lemma {:induction false} StepsAdd(s: seq<int>, stride: int, i: nat)
    requires Steps(s, stride) && i < |s|
    ensures s[i] == s[0] + i * stride
  {
    if i > 0 {
      StepsAdd(s, stride, i - 1);
      assert StepAt(s, stride, i);
      assert i * stride == (i - 1) * stride + stride;
    }
  }

  // -------- interleaved progressions

  datatype Progression = Progression(bases: seq<int>, stride: int)

  /** The offset a looped stage computes for batch i. */
  function OffsetAt(p: Progression, i: nat): int
    requires |p.bases| > 0
  {
    p.bases[i % |p.bases|] + (i / |p.bases|) * p.stride
  }

  /** s is what the progression reproduces. */
  ghost predicate Reproduces(p: Progression, s: seq<int>) {
    |p.bases| > 0 && forall i: nat :: i < |s| ==> s[i] == OffsetAt(p, i)
  }

  /** Some bases, one for each residue, and one stride reproduce s. */
  ghost predicate Periodic(s: seq<int>, period: nat) {
    exists p: Progression :: |p.bases| == period && Reproduces(p, s)
  }

  /** Every period-th offset from residue on. */
  function Column(s: seq<int>, period: nat, residue: nat, rows: nat): (c: seq<int>)
    requires residue < period && |s| == period * rows
    ensures |c| == rows
  {
    seq(rows, row requires 0 <= row < rows => ColumnEntry(s, period, residue, row))
  }

  function ColumnEntry(s: seq<int>, period: nat, residue: nat, row: nat): int
    requires residue < period
  {
    if residue + period * row < |s| then s[residue + period * row] else 0
  }

  lemma InColumn(s: seq<int>, period: nat, residue: nat, row: nat, rows: nat)
    requires residue < period && |s| == period * rows && row < rows
    ensures residue + period * row < |s|
    ensures Column(s, period, residue, rows)[row] == s[residue + period * row]
  {
    InRange(period, rows, residue, row);
  }

  /** With two rows or more there is one way at most to reproduce s. */
  lemma OneProgression(p: Progression, q: Progression, s: seq<int>)
    requires |p.bases| == |q.bases| && |s| >= 2 * |p.bases|
    requires Reproduces(p, s) && Reproduces(q, s)
    ensures p == q
  {
    var n := |p.bases|;
    forall r: nat | r < n ensures p.bases[r] == q.bases[r] && p.stride == q.stride {
      FirstRow(n, r);
      assert s[r] == OffsetAt(p, r) == OffsetAt(q, r);
      assert s[r + n] == OffsetAt(p, r + n) == OffsetAt(q, r + n);
    }
    assert p.bases == q.bases;
    assert p.bases[0] == q.bases[0];
  }

  lemma FirstRow(n: nat, r: nat)
    requires r < n
    ensures r / n == 0 && r % n == r && (r + n) / n == 1 && (r + n) % n == r
  {
    Decode(n, 0, r);
    Decode(n, 1, r);
  }

  lemma ReproducesColumns(p: Progression, s: seq<int>, rows: nat)
    requires |p.bases| > 0 && |s| == |p.bases| * rows && rows >= 1
    ensures Reproduces(p, s) <==> forall r: nat :: r < |p.bases| ==> StepsFrom(Column(s, |p.bases|, r, rows), p.bases[r], p.stride)
  {
    hide StepsFrom, Column, OffsetAt;
    var n := |p.bases|;
    if Reproduces(p, s) {
      forall r: nat | r < n ensures StepsFrom(Column(s, n, r, rows), p.bases[r], p.stride) {
        ColumnsStep(p, s, rows, r);
      }
    }
    if forall r: nat :: r < n ==> StepsFrom(Column(s, n, r, rows), p.bases[r], p.stride) {
      forall i: nat | i < |s| ensures s[i] == OffsetAt(p, i) {
        EntryAt(p, s, rows, i);
      }
    }
  }

  lemma EntryAt(p: Progression, s: seq<int>, rows: nat, i: nat)
    requires |p.bases| > 0 && |s| == |p.bases| * rows && i < |s|
    requires forall r: nat :: r < |p.bases| ==> StepsFrom(Column(s, |p.bases|, r, rows), p.bases[r], p.stride)
    ensures s[i] == OffsetAt(p, i)
  {
    hide StepsFrom, Column;
    Recompose(i, |p.bases|);
    EntryStepped(p, s, rows, i % |p.bases|, i / |p.bases|);
  }

  lemma EntryStepped(p: Progression, s: seq<int>, rows: nat, r: nat, row: nat)
    requires r < |p.bases| && |s| == |p.bases| * rows && r + |p.bases| * row < |s|
    requires StepsFrom(Column(s, |p.bases|, r, rows), p.bases[r], p.stride)
    ensures s[r + |p.bases| * row] == p.bases[r] + row * p.stride
  {
    var n := |p.bases|;
    Decode(n, row, r);
    Below(r + n * row, n, rows);
    StepsAdd(Column(s, n, r, rows), p.stride, row);
    InColumn(s, n, r, row, rows);
    InColumn(s, n, r, 0, rows);
  }

  /** c starts at base and steps by stride. */
  ghost predicate StepsFrom(c: seq<int>, base: int, stride: int) {
    Steps(c, stride) && (|c| > 0 ==> c[0] == base)
  }

  lemma ColumnsStep(p: Progression, s: seq<int>, rows: nat, r: nat)
    requires |s| == |p.bases| * rows && rows >= 1 && Reproduces(p, s) && r < |p.bases|
    ensures StepsFrom(Column(s, |p.bases|, r, rows), p.bases[r], p.stride)
  {
    var n := |p.bases|;
    var c := Column(s, n, r, rows);
    forall row: nat | row < rows ensures c[row] == p.bases[r] + row * p.stride {
      InColumn(s, n, r, row, rows);
      Decode(n, row, r);
      assert s[r + n * row] == OffsetAt(p, r + n * row);
    }
    forall i | 0 < i < |c| ensures StepAt(c, p.stride, i) {
      assert c[i - 1] == p.bases[r] + (i - 1) * p.stride;
      assert i * p.stride == (i - 1) * p.stride + p.stride;
    }
  }

  /** The progression that reproduces s at this period, exactly when there is one. */
  method PeriodicStride(s: seq<int>, period: nat) returns (r: Option<Progression>)
    requires period > 0 && |s| % period == 0 && |s| >= 2 * period
    ensures r.Some? <==> Periodic(s, period)
    ensures r.Some? ==> |r.value.bases| == period && Reproduces(r.value, s)
  {
    var n := |s|;
    var rows := n / period;
    Recompose(n, period);
    assert rows >= 2 by {
      Below(n, period, 2);
    }
    var bases: seq<int> := [];
    var stride: Option<int> := None;
    var k := 0;
    while k < period
      invariant 0 <= k <= period == period && |bases| == k
      invariant stride.Some? <==> k > 0
      invariant forall j: nat :: j < k ==> StepsFrom(Column(s, period, j, rows), bases[j], stride.value)
    {
      var vals := Column(s, period, k, rows);
      var st := ArithStride(vals);
      if st.None? {
        NoProgression(s, period, rows, k, None);
        return None;
      }
      if stride.None? {
        stride := st;
      } else if st != stride {
        NoProgression(s, period, rows, k, st);
        TwoStrides(s, period, rows, 0, bases[0], stride.value);
        return None;
      }
      assert StepsFrom(vals, vals[0], stride.value);
      bases := bases + [vals[0]];
      k := k + 1;
    }
    var p := Progression(bases, stride.value);
    ReproducesColumns(p, s, rows);
    return Some(p);
  }

  /** Whatever reproduces s must step along column k as the column does. */
  lemma NoProgression(s: seq<int>, period: nat, rows: nat, k: nat, st: Option<int>)
    requires k < period && |s| == period * rows && rows >= 2
    requires st.None? ==> forall stride :: !Steps(Column(s, period, k, rows), stride)
    requires st.Some? ==> forall stride :: Steps(Column(s, period, k, rows), stride) <==> stride == st.value
    ensures forall p: Progression :: |p.bases| == period && Reproduces(p, s) ==> st == Some(p.stride)
  {
    forall p: Progression | |p.bases| == period && Reproduces(p, s) ensures st == Some(p.stride) {
      ColumnsStep(p, s, rows, k);
    }
  }

  lemma TwoStrides(s: seq<int>, period: nat, rows: nat, k: nat, base: int, stride: int)
    requires k < period && |s| == period * rows && rows >= 2
    requires StepsFrom(Column(s, period, k, rows), base, stride)
    ensures forall p: Progression :: |p.bases| == period && Reproduces(p, s) ==> p.stride == stride
  {
    var c := Column(s, period, k, rows);
    forall p: Progression | |p.bases| == period && Reproduces(p, s) ensures p.stride == stride {
      ColumnsStep(p, s, rows, k);
      assert StepAt(c, stride, 1) && StepAt(c, p.stride, 1);
    }
  }
}
