/** Where the microthreads of a launch land, how many may be launched at once, and that the
    launches of a stage reach every tile once. */
module Launches {
  import opened DivMod

  /** Consecutive microthreads stay on a unit for a chunk, then move to the next unit. */
  function UnitOf(place: nat, chunk: nat, units: nat): (u: nat)
    requires chunk > 0 && units > 0
    ensures u < units
  {
    (place / chunk) % units
  }

  /** How many of the places from, ..., from + count - 1 are on a unit. */
  function OnUnit(from: nat, count: nat, chunk: nat, units: nat, unit: nat): nat
    requires chunk > 0 && units > 0
  {
    if count == 0 then 0
    else OnUnit(from, count - 1, chunk, units, unit) + if UnitOf(from + count - 1, chunk, units) == unit then 1 else 0
  }

  lemma {:induction false} OnUnitSplits(from: nat, a: nat, b: nat, chunk: nat, units: nat, unit: nat)
    requires chunk > 0 && units > 0
    ensures OnUnit(from, a + b, chunk, units, unit) == OnUnit(from, a, chunk, units, unit) + OnUnit(from + a, b, chunk, units, unit)
  {
    if b > 0 {
      OnUnitSplits(from, a, b - 1, chunk, units, unit);
    }
  }

  lemma {:induction false} OnUnitBounded(from: nat, count: nat, chunk: nat, units: nat, unit: nat)
    requires chunk > 0 && units > 0
    ensures OnUnit(from, count, chunk, units, unit) <= count
  {
    if count > 0 {
      OnUnitBounded(from, count - 1, chunk, units, unit);
    }
  }

  // -------- one full rotation over the units

  lemma Rotation(place: nat, chunk: nat, units: nat)
    requires chunk > 0 && units > 0
    ensures UnitOf(place + chunk * units, chunk, units) == UnitOf(place, chunk, units)
  {
    Recompose(place, chunk);
    Decode(chunk, place / chunk + units, place % chunk);
    assert chunk * (place / chunk + units) == chunk * (place / chunk) + chunk * units;
    Recompose(place / chunk, units);
    Decode(units, place / chunk / units + 1, place / chunk % units);
    assert units * (place / chunk / units + 1) == units * (place / chunk / units) + units;
  }

  lemma UnitInRotation(place: nat, chunk: nat, units: nat, unit: nat)
    requires chunk > 0 && unit < units && place < chunk * units
    ensures UnitOf(place, chunk, units) == unit <==> chunk * unit <= place < chunk * unit + chunk
  {
    Recompose(place, chunk);
    Below(place, chunk, units);
    Decode(units, 0, place / chunk);
    if chunk * unit <= place < chunk * unit + chunk {
      Squeeze(chunk, place / chunk - unit, place - chunk * unit - place % chunk);
    }
  }

  /** Of the first places of a rotation a unit has those past its start, up to one chunk. */
  lemma {:induction false} StartOfRotation(count: nat, chunk: nat, units: nat, unit: nat)
    requires chunk > 0 && unit < units && count <= chunk * units
    ensures OnUnit(0, count, chunk, units, unit) == Max(0, Min(chunk, count - chunk * unit))
  {
    if count > 0 {
      StartOfRotation(count - 1, chunk, units, unit);
      UnitInRotation(count - 1, chunk, units, unit);
    } else {
      assert chunk * unit >= 0;
    }
  }

  /** Wherever it starts, a full rotation puts exactly one chunk on each unit. */
  lemma {:induction false} FullRotation(from: nat, chunk: nat, units: nat, unit: nat)
    requires chunk > 0 && unit < units
    ensures OnUnit(from, chunk * units, chunk, units, unit) == chunk
  {
    var n := chunk * units;
    if from == 0 {
      StartOfRotation(n, chunk, units, unit);
      Monotone(chunk, unit + 1, units);
      assert chunk * (unit + 1) == chunk * unit + chunk;
    } else {
      FullRotation(from - 1, chunk, units, unit);
      OnUnitSplits(from - 1, 1, n, chunk, units, unit);
      OnUnitSplits(from - 1, n, 1, chunk, units, unit);
      Rotation(from - 1, chunk, units);
      OnePlace(from - 1, chunk, units, unit);
      OnePlace(from - 1 + n, chunk, units, unit);
    }
  }

  lemma OnePlace(place: nat, chunk: nat, units: nat, unit: nat)
    requires chunk > 0 && units > 0
    ensures OnUnit(place, 1, chunk, units, unit) == if UnitOf(place, chunk, units) == unit then 1 else 0
  {
    assert OnUnit(place, 0, chunk, units, unit) == 0;
  }

  lemma {:induction false} FullRotations(from: nat, k: nat, total: nat, chunk: nat, units: nat, unit: nat)
    requires chunk > 0 && unit < units && total == (chunk * units) * k
    ensures OnUnit(from, total, chunk, units, unit) == k * chunk
  {
    hide OnUnit, UnitOf;
    var n := chunk * units;
    if k == 0 {
      NoPlaces(from, chunk, units, unit);
    } else {
      OneLess(n, k);
      FullRotations(from, k - 1, total - n, chunk, units, unit);
      OnUnitSplits(from, total - n, n, chunk, units, unit);
      FullRotation(from + (total - n), chunk, units, unit);
      OneLess(chunk, k);
    }
  }

  lemma NoPlaces(from: nat, chunk: nat, units: nat, unit: nat)
    requires chunk > 0 && units > 0
    ensures OnUnit(from, 0, chunk, units, unit) == 0
  {
  }

  lemma OneLess(n: nat, k: nat)
    requires k > 0
    ensures n * (k - 1) == n * k - n && n * k >= n
  {
    Monotone(n, 1, k);
  }

  // -------- the most one unit can get

  /** The most microthreads of a round that can land on one unit. */
  function MostPerUnit(round: nat, chunk: nat, units: nat): nat
    requires chunk > 0 && units > 0
  {
    (round / (chunk * units)) * chunk + Min(round % (chunk * units), chunk)
  }

  lemma PartialRotation(from: nat, count: nat, chunk: nat, units: nat, unit: nat)
    requires chunk > 0 && unit < units && count <= chunk * units
    ensures OnUnit(from, count, chunk, units, unit) <= Min(count, chunk)
  {
    OnUnitBounded(from, count, chunk, units, unit);
    OnUnitSplits(from, count, chunk * units - count, chunk, units, unit);
    FullRotation(from, chunk, units, unit);
  }

  /** Whatever the pool's place, no unit gets more. */
  lemma NoUnitGetsMore(from: nat, round: nat, chunk: nat, units: nat, unit: nat)
    requires chunk > 0 && unit < units
    ensures OnUnit(from, round, chunk, units, unit) <= MostPerUnit(round, chunk, units)
  {
    hide OnUnit, UnitOf;
    var n := chunk * units;
    Recompose(round, n);
    OnUnitSplits(from, n * (round / n), round % n, chunk, units, unit);
    FullRotations(from, round / n, n * (round / n), chunk, units, unit);
    PartialRotation(from + n * (round / n), round % n, chunk, units, unit);
  }

  /** A pool that starts with a chunk gives its first unit exactly that many. */
  lemma SomeUnitGetsThatMany(round: nat, chunk: nat, units: nat)
    requires chunk > 0 && units > 0
    ensures OnUnit(0, round, chunk, units, 0) == MostPerUnit(round, chunk, units)
  {
    hide OnUnit, UnitOf;
    var n := chunk * units;
    Recompose(round, n);
    OnUnitSplits(0, n * (round / n), round % n, chunk, units, 0);
    FullRotations(0, round / n, n * (round / n), chunk, units, 0);
    SameRotation(n * (round / n), round % n, round / n, chunk, units, 0);
    StartOfRotation(round % n, chunk, units, 0);
  }

  lemma {:induction false} SameRotation(from: nat, count: nat, k: nat, chunk: nat, units: nat, unit: nat)
    requires chunk > 0 && units > 0 && from == (chunk * units) * k
    ensures OnUnit(from, count, chunk, units, unit) == OnUnit(0, count, chunk, units, unit)
  {
    if count > 0 {
      SameRotation(from, count - 1, k, chunk, units, unit);
      ManyRotations(count - 1, k, chunk, units);
    }
  }

  lemma {:induction false} ManyRotations(place: nat, k: nat, chunk: nat, units: nat)
    requires chunk > 0 && units > 0
    ensures UnitOf(place + (chunk * units) * k, chunk, units) == UnitOf(place, chunk, units)
  {
    if k == 0 {
      assert (chunk * units) * k == 0;
    } else {
      ManyRotations(place, k - 1, chunk, units);
      Rotation(place + (chunk * units) * (k - 1), chunk, units);
      assert (chunk * units) * k == (chunk * units) * (k - 1) + chunk * units;
    }
  }

  /** A round respects a unit's capacity at every pool place exactly when this number does. */
  lemma SafeExactly(round: nat, chunk: nat, units: nat, capacity: nat)
    requires chunk > 0 && units > 0
    ensures (forall from: nat, unit: nat :: unit < units ==> OnUnit(from, round, chunk, units, unit) <= capacity)
            <==> MostPerUnit(round, chunk, units) <= capacity
  {
    SomeUnitGetsThatMany(round, chunk, units);
    forall from: nat, unit: nat | unit < units ensures OnUnit(from, round, chunk, units, unit) <= MostPerUnit(round, chunk, units) {
      NoUnitGetsMore(from, round, chunk, units, unit);
    }
  }

  // -------- the size of a round

  /** How many microthreads one launch may ask for when it spreads over the units. */
  function SafeRoundSize(capacity: nat, units: nat, chunk: nat): nat
    requires chunk > 0
  {
    if capacity < chunk then capacity else (capacity / chunk) * chunk * units
  }

  lemma WithinSafeSize(round: nat, capacity: nat, units: nat, chunk: nat)
    requires chunk > 0 && units > 0 && round <= SafeRoundSize(capacity, units, chunk)
    ensures MostPerUnit(round, chunk, units) <= capacity
  {
    var n := chunk * units;
    Monotone(chunk, 1, units);
    if capacity < chunk {
      Decode(n, 0, round);
    } else {
      Recompose(capacity, chunk);
      Regroup(capacity / chunk, chunk, units);
      QuotientBound(round, n, capacity / chunk, chunk, capacity);
    }
  }

  lemma WholeRotations(k: nat, chunk: nat, units: nat)
    requires chunk > 0 && units > 0
    ensures MostPerUnit(k * (chunk * units), chunk, units) == k * chunk
  {
    var n := chunk * units;
    assert k * n == n * k;
    Decode(n, k, 0);
  }

  /** Nothing larger would do: the safe size is a whole number of rotations over the units and no
      larger number of them is safe; below a chunk's room not one microthread more is. */
  lemma SafeIsLargest(capacity: nat, units: nat, chunk: nat, k: nat)
    requires chunk > 0 && units > 0
    ensures capacity >= chunk ==> exists j: nat :: SafeRoundSize(capacity, units, chunk) == Times(j, chunk * units)
    ensures capacity >= chunk && MostPerUnit(k * (chunk * units), chunk, units) <= capacity ==> k * (chunk * units) <= SafeRoundSize(capacity, units, chunk)
    ensures capacity < chunk ==> MostPerUnit(SafeRoundSize(capacity, units, chunk) + 1, chunk, units) > capacity
  {
    hide MostPerUnit, SafeRoundSize;
    if capacity >= chunk {
      WideIsLargest(capacity, units, chunk, k);
    } else {
      NarrowIsLargest(capacity, units, chunk);
    }
  }

  lemma WideIsLargest(capacity: nat, units: nat, chunk: nat, k: nat)
    requires 0 < chunk <= capacity && units > 0
    ensures exists j: nat :: SafeRoundSize(capacity, units, chunk) == Times(j, chunk * units)
    ensures MostPerUnit(k * (chunk * units), chunk, units) <= capacity ==> k * (chunk * units) <= SafeRoundSize(capacity, units, chunk)
  {
    hide MostPerUnit;
    var n, j := chunk * units, capacity / chunk;
    Regroup(j, chunk, units);
    assert SafeRoundSize(capacity, units, chunk) == Times(j, n);
    WholeRotations(k, chunk, units);
    if k * chunk <= capacity {
      Quotient(capacity, chunk, k);
      Monotone(n, k, j);
    }
  }

  lemma Quotient(n: nat, d: nat, k: nat)
    requires d > 0 && k * d <= n
    ensures k <= n / d
  {
    Recompose(n, d);
    Below(n, d, k);
    assert k * d == d * k;
  }

  lemma NarrowIsLargest(capacity: nat, units: nat, chunk: nat)
    requires capacity < chunk && units > 0
    ensures MostPerUnit(SafeRoundSize(capacity, units, chunk) + 1, chunk, units) > capacity
  {
    var n := chunk * units;
    Monotone(chunk, 1, units);
    if capacity + 1 == n {
      WholeRotations(1, chunk, units);
    } else {
      Decode(n, 0, capacity + 1);
    }
  }

  lemma Regroup(k: nat, chunk: nat, units: nat)
    ensures k * chunk * units == (chunk * units) * k && k * chunk == chunk * k
  {
  }

  lemma QuotientBound(round: nat, n: nat, k: nat, chunk: nat, capacity: nat)
    requires n > 0 && round <= n * k && chunk * k <= capacity
    ensures (round / n) * chunk + Min(round % n, chunk) <= capacity
  {
    if round == n * k {
      Decode(n, k, 0);
    } else {
      Below(round, n, k);
      Monotone(chunk, round / n + 1, k);
      assert chunk * (round / n + 1) == chunk * (round / n) + chunk;
    }
  }

  /** The microthread at a place has this index on its own unit: local ids are dense. */
  function LocalRank(from: nat, i: nat, chunk: nat, units: nat): nat
    requires chunk > 0 && units > 0
  {
    OnUnit(from, i, chunk, units, UnitOf(from + i, chunk, units))
  }

  lemma RankBelow(from: nat, round: nat, i: nat, chunk: nat, units: nat)
    requires chunk > 0 && units > 0 && i < round
    ensures LocalRank(from, i, chunk, units) < MostPerUnit(round, chunk, units)
  {
    hide MostPerUnit;
    var unit := UnitOf(from + i, chunk, units);
    NoUnitGetsMore(from, round, chunk, units, unit);
    OnUnitSplits(from, i + 1, round - i - 1, chunk, units, unit);
    OnUnitSplits(from, i, 1, chunk, units, unit);
    OnePlace(from + i, chunk, units, unit);
  }

  /** In a round within the safe size no microthread is turned away by the check of its local id. */
  lemma NoTileIsDropped(from: nat, round: nat, i: nat, capacity: nat, units: nat, chunk: nat)
    requires chunk > 0 && units > 0 && round <= SafeRoundSize(capacity, units, chunk) && i < round
    ensures LocalRank(from, i, chunk, units) < capacity
  {
    hide LocalRank, MostPerUnit;
    WithinSafeSize(round, capacity, units, chunk);
    RankBelow(from, round, i, chunk, units);
  }

  // -------- a single launch

  /** The last microthread on a unit has all the others before it. */
  lemma {:induction false} LastOnUnit(from: nat, count: nat, chunk: nat, units: nat, unit: nat) returns (i: nat)
    requires chunk > 0 && units > 0 && OnUnit(from, count, chunk, units, unit) > 0
    ensures i < count && UnitOf(from + i, chunk, units) == unit
    ensures LocalRank(from, i, chunk, units) + 1 == OnUnit(from, count, chunk, units, unit)
  {
    hide UnitOf;
    if UnitOf(from + (count - 1), chunk, units) == unit {
      i := count - 1;
    } else {
      i := LastOnUnit(from, count - 1, chunk, units, unit);
    }
  }

  /** A host that launches a whole kernel at once, from wherever its pool begins, has every
      microthread run exactly when no unit can get more than it has room for. */
  lemma SingleLaunchReachesAll(total: nat, capacity: nat, chunk: nat, units: nat)
    requires chunk > 0 && units > 0
    ensures (forall from: nat, i: nat :: i < total ==> LocalRank(from, i, chunk, units) < capacity)
            <==> MostPerUnit(total, chunk, units) <= capacity
  {
    hide LocalRank, MostPerUnit;
    if MostPerUnit(total, chunk, units) <= capacity {
      forall from: nat, i: nat | i < total ensures LocalRank(from, i, chunk, units) < capacity {
        RankBelow(from, total, i, chunk, units);
      }
    } else {
      SomeUnitGetsThatMany(total, chunk, units);
      var i := LastOnUnit(0, total, chunk, units, 0);
      assert LocalRank(0, i, chunk, units) >= capacity;
    }
  }

  /** Room for all of them on one unit is always enough. */
  lemma UncappedReachesAll(total: nat, chunk: nat, units: nat)
    requires chunk > 0 && units > 0
    ensures MostPerUnit(total, chunk, units) <= total
  {
    SomeUnitGetsThatMany(total, chunk, units);
    OnUnitBounded(0, total, chunk, units, 0);
  }

  /** Spreading never shrinks a round below a unit's capacity, except over a single unit whose
      capacity is not a whole number of chunks. */
  lemma SpreadingShrinks(capacity: nat, units: nat, chunk: nat)
    requires chunk > 0 && units > 0
    ensures SafeRoundSize(capacity, units, chunk) >= capacity <==> capacity < chunk || units >= 2 || capacity % chunk == 0
  {
    if capacity >= chunk {
      var k := capacity / chunk;
      Recompose(capacity, chunk);
      Below(capacity, chunk, 1);
      assert k * chunk == chunk * k;
      if units == 1 {
        assert k * chunk * 1 == k * chunk;
      } else {
        Monotone(k * chunk, 2, units);
        Monotone(chunk, 1, k);
      }
    }
  }

  // -------- the rounds of a stage

  datatype Launch = Launch(offset: nat, count: nat)

  function RoundCount(total: nat, roundSize: nat): nat
    requires roundSize > 0
  {
    (total + roundSize - 1) / roundSize
  }

  function RoundAt(total: nat, roundSize: nat, r: nat): Launch
  {
    Launch(r * roundSize, if total < r * roundSize then 0 else Min(roundSize, total - r * roundSize))
  }

  /** The launches the host issues for a stage, in order. */
  method HostRounds(total: nat, roundSize: nat) returns (launches: seq<Launch>)
    requires roundSize > 0
    ensures |launches| == RoundCount(total, roundSize)
    ensures forall r :: 0 <= r < |launches| ==> launches[r] == RoundAt(total, roundSize, r)
  {
    launches := [];
    var r := 0;
    while r < RoundCount(total, roundSize)
      invariant 0 <= r <= RoundCount(total, roundSize) && |launches| == r
      invariant forall q :: 0 <= q < r ==> launches[q] == RoundAt(total, roundSize, q)
    {
      StartsInside(total, roundSize, r);
      launches := launches + [Launch(r * roundSize, Min(roundSize, total - r * roundSize))];
      r := r + 1;
    }
  }

  lemma StartsInside(total: nat, roundSize: nat, r: nat)
    requires roundSize > 0
    ensures r < RoundCount(total, roundSize) <==> r * roundSize < total
  {
    var n := RoundCount(total, roundSize);
    Recompose(total + roundSize - 1, roundSize);
    assert n * roundSize == roundSize * n;
    if r < n {
      Monotone(roundSize, r, n - 1);
      assert roundSize * (n - 1) == roundSize * n - roundSize;
    } else {
      Monotone(roundSize, n, r);
    }
  }

  /** Microthread i of round r works on this tile; without the split the offset is not passed on. */
  predicate WorksOn(total: nat, roundSize: nat, split: bool, r: nat, i: nat, tile: nat) {
    i < RoundAt(total, roundSize, r).count && tile == i + if split then RoundAt(total, roundSize, r).offset else 0
  }

  /** With the offset passed on, every tile is worked on by exactly one microthread of one round. */
  lemma EveryTileOnce(total: nat, roundSize: nat, r: nat, i: nat, tile: nat)
    requires roundSize > 0 && tile < total
    ensures tile / roundSize < RoundCount(total, roundSize)
    ensures WorksOn(total, roundSize, true, r, i, tile) <==> r == tile / roundSize && i == tile % roundSize
  {
    var q, k := tile / roundSize, tile % roundSize;
    Recompose(tile, roundSize);
    assert q * roundSize == roundSize * q;
    StartsInside(total, roundSize, q);
    if WorksOn(total, roundSize, true, r, i, tile) {
      Decode(roundSize, r, i);
      assert r * roundSize == roundSize * r;
    }
  }

  ghost predicate IsReached(total: nat, roundSize: nat, split: bool, tile: nat) {
    exists r: nat, i: nat :: WorksOn(total, roundSize, split, r, i, tile)
  }

  /** A stage planned without the split reaches every tile exactly when one round holds it all. */
  lemma UnsplitReachesAll(total: nat, roundSize: nat)
    requires roundSize > 0
    ensures (forall tile: nat :: tile < total ==> IsReached(total, roundSize, false, tile)) <==> total <= roundSize
  {
    if total <= roundSize {
      forall tile: nat | tile < total ensures IsReached(total, roundSize, false, tile) {
        assert 0 * roundSize == 0;
        assert WorksOn(total, roundSize, false, 0, tile, tile);
      }
    } else {
      assert !IsReached(total, roundSize, false, roundSize);
    }
  }

  /** The planner asks for the split when the tiles exceed one unit's capacity.  With two units
      or more a spread stage it did not split is then launched in a single round. */
  lemma PlannedSplitSuffices(total: nat, capacity: nat, units: nat, chunk: nat, tile: nat)
    requires chunk > 0 && units >= 2 && total <= capacity && tile < total
    ensures IsReached(total, SafeRoundSize(capacity, units, chunk), false, tile)
  {
    SpreadingShrinks(capacity, units, chunk);
    UnsplitReachesAll(total, SafeRoundSize(capacity, units, chunk));
  }

  /** Over a single unit it is not: the tiles past the first round are never reached. */
  lemma SingleUnitDropsTiles(total: nat, capacity: nat, chunk: nat)
    requires 0 < chunk <= capacity && capacity % chunk != 0 && total <= capacity
    ensures var roundSize := SafeRoundSize(capacity, 1, chunk);
            roundSize < capacity && (roundSize < total ==> !IsReached(total, roundSize, false, roundSize))
  {
    SpreadingShrinks(capacity, 1, chunk);
  }

  // -------- cooperative groups

  /** The index of a microthread of an aligned pool on its own unit. */
  function LocalOf(id: nat, chunk: nat, units: nat): nat
    requires chunk > 0 && units > 0
  {
    (id / (chunk * units)) * chunk + id % chunk
  }

  function IdOf(unit: nat, local: nat, chunk: nat, units: nat): nat
    requires chunk > 0 && units > 0
  {
    (local / chunk) * (chunk * units) + unit * chunk + local % chunk
  }

  /** An id written out: turn t, unit u, place p in the chunk. */
  lemma Digits(t: nat, u: nat, p: nat, chunk: nat, units: nat, id: nat)
    requires p < chunk && u < units && id == p + chunk * (u + units * t)
    ensures id % chunk == p && id / chunk == u + units * t && id / (chunk * units) == t && UnitOf(id, chunk, units) == u
    ensures id == p + chunk * u + (chunk * units) * t && p + chunk * u < chunk * units
  {
    Decode(chunk, u + units * t, p);
    Decode(units, t, u);
    InRange(chunk, units, p, u);
    Spread(chunk, units, u, t);
    Decode(chunk * units, t, p + chunk * u);
  }

  lemma Spread(chunk: nat, units: nat, u: nat, t: nat)
    ensures chunk * (u + units * t) == chunk * u + (chunk * units) * t
  {
    assert chunk * (u + units * t) == chunk * u + chunk * (units * t);
    assert chunk * (units * t) == (chunk * units) * t;
  }

  lemma IdDigits(id: nat, chunk: nat, units: nat) returns (t: nat, u: nat, p: nat)
    requires chunk > 0 && units > 0
    ensures p < chunk && u < units && id == p + chunk * (u + units * t)
  {
    Recompose(id, chunk);
    Recompose(id / chunk, units);
    t, u, p := id / chunk / units, id / chunk % units, id % chunk;
  }

  /** The same digits give the local id. */
  lemma LocalDigits(t: nat, u: nat, p: nat, chunk: nat, units: nat, id: nat, local: nat)
    requires p < chunk && u < units && id == p + chunk * (u + units * t) && local == p + chunk * t
    ensures UnitOf(id, chunk, units) == u && LocalOf(id, chunk, units) == local && IdOf(u, local, chunk, units) == id
  {
    Digits(t, u, p, chunk, units, id);
    Decode(chunk, t, p);
    assert t * chunk == chunk * t && u * chunk == chunk * u && t * (chunk * units) == (chunk * units) * t;
  }

  /** On an aligned pool (unit, local id) and global id determine each other. */
  lemma LocalIdsAreABijection(id: nat, unit: nat, local: nat, chunk: nat, units: nat)
    requires chunk > 0 && unit < units
    ensures IdOf(UnitOf(id, chunk, units), LocalOf(id, chunk, units), chunk, units) == id
    ensures UnitOf(IdOf(unit, local, chunk, units), chunk, units) == unit && LocalOf(IdOf(unit, local, chunk, units), chunk, units) == local
  {
    hide UnitOf, LocalOf, IdOf;
    var t, u, p := IdDigits(id, chunk, units);
    LocalDigits(t, u, p, chunk, units, id, p + chunk * t);
    Recompose(local, chunk);
    LocalDigits(local / chunk, unit, local % chunk, chunk, units, local % chunk + chunk * (unit + units * (local / chunk)), local);
  }

  /** The local ids of one unit are dense: the formula is the rank among the unit's own. */
  lemma LocalIsRank(id: nat, chunk: nat, units: nat)
    requires chunk > 0 && units > 0
    ensures LocalOf(id, chunk, units) == LocalRank(0, id, chunk, units)
  {
    hide OnUnit, UnitOf, LocalOf;
    var n := chunk * units;
    var t, u, p := IdDigits(id, chunk, units);
    Digits(t, u, p, chunk, units, id);
    LocalDigits(t, u, p, chunk, units, id, p + chunk * t);
    var rest := p + chunk * u;
    OnUnitSplits(0, n * t, rest, chunk, units, u);
    FullRotations(0, t, n * t, chunk, units, u);
    SameRotation(n * t, rest, t, chunk, units, u);
    StartOfRotation(rest, chunk, units, u);
  }

  // -------- groups of cooperating workers

  /** A chunk holds k groups of workers: group p of a chunk, worker w of the group. */
  lemma GroupDigits(t: nat, u: nat, p: nat, w: nat, workers: nat, k: nat, units: nat, id: nat)
    requires w < workers && p < k && u < units && id == w + workers * (p + k * (u + units * t))
    ensures var chunk := workers * k;
            && chunk > 0 && UnitOf(id, chunk, units) == u
            && id / workers == p + k * (u + units * t) && id % workers == w
            && LocalOf(id, chunk, units) / workers == p + k * t && LocalOf(id, chunk, units) % workers == w
  {
    hide UnitOf, LocalOf;
    var v := u + units * t;
    Decode(workers, p + k * v, w);
    Decode(workers, p + k * t, w);
    InRange(workers, k, w, p);
    Spread(workers, k, p, v);
    Spread(workers, k, p, t);
    LocalDigits(t, u, w + workers * p, workers * k, units, id, w + workers * (p + k * t));
  }

  lemma IdGroupDigits(id: nat, workers: nat, k: nat, units: nat) returns (t: nat, u: nat, p: nat, w: nat)
    requires workers > 0 && k > 0 && units > 0
    ensures w < workers && p < k && u < units && id == w + workers * (p + k * (u + units * t))
  {
    Recompose(id, workers);
    w := id % workers;
    t, u, p := IdDigits(id / workers, k, units);
  }

  lemma SameDigits(d: nat, r: nat, q: nat, r': nat, q': nat)
    requires r < d && r' < d
    ensures r + d * q == r' + d * q' <==> r == r' && q == q'
  {
    Decode(d, q, r);
    Decode(d, q', r');
  }

  /** With a number of workers that divides the chunk, the groups that share a scratchpad slot
      are the groups that share a transform, and both number their workers alike. */
  lemma GroupsCoincide(id: nat, id': nat, workers: nat, chunk: nat, units: nat)
    requires workers > 0 && chunk > 0 && units > 0 && chunk % workers == 0
    ensures id / workers == id' / workers
            <==> UnitOf(id, chunk, units) == UnitOf(id', chunk, units)
                 && LocalOf(id, chunk, units) / workers == LocalOf(id', chunk, units) / workers
    ensures id % workers == LocalOf(id, chunk, units) % workers
  {
    hide UnitOf, LocalOf;
    var k := chunk / workers;
    Recompose(chunk, workers);
    var t, u, p, w := IdGroupDigits(id, workers, k, units);
    var t', u', p', w' := IdGroupDigits(id', workers, k, units);
    GroupDigits(t, u, p, w, workers, k, units, id);
    GroupDigits(t', u', p', w', workers, k, units, id');
    SameDigits(k, p, u + units * t, p', u' + units * t');
    SameDigits(units, u, t, u', t');
    SameDigits(k, p, t, p', t');
  }

  /** With one that does not, some transform's workers sit on two units. */
  lemma GroupsCanStraddle(workers: nat, chunk: nat, units: nat)
    requires workers > 0 && chunk > 0 && units >= 2 && chunk % workers != 0
    ensures exists id, id' :: Straddle(id, id', workers, chunk, units)
  {
    Recompose(chunk, workers);
    var id, id' := chunk - 1, chunk;
    Recompose(id, workers);
    SameGroup(chunk, workers);
    Digits(0, 0, chunk - 1, chunk, units, id);
    Digits(0, 1, 0, chunk, units, id');
    assert Straddle(id, id', workers, chunk, units);
  }

  predicate Straddle(id: nat, id': nat, workers: nat, chunk: nat, units: nat)
    requires workers > 0 && chunk > 0 && units > 0
  {
    id / workers == id' / workers && UnitOf(id, chunk, units) != UnitOf(id', chunk, units)
  }

  lemma SameGroup(n: nat, workers: nat)
    requires workers > 0 && n > 0 && n % workers != 0
    ensures (n - 1) / workers == n / workers
  {
    Recompose(n, workers);
    Decode(workers, n / workers, n % workers - 1);
  }
}
