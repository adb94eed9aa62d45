/** How transforms are launched: in rounds that spread over the units, some of them padded so that
    the workers of a transform stay together.  Each worker of each transform runs exactly once,
    and the workers of a transform, and no others, share a scratchpad slot. */
module FftLaunches {
  import opened DivMod
  import opened Launches

  /** A planned kernel: its microthreads, how many of them a unit has room for, and how many work
      on one transform. */
  datatype FftPlan = FftPlan(threads: nat, maxUthread: nat, workers: nat, simdLanes: nat)

  datatype Device = Device(units: nat, chunk: nat, threadBytes: nat, strideBytes: nat)

  datatype FftLaunch = FftLaunch(total: nat, workers: nat, chunk: nat, slotsPerChunk: nat, roundFfts: nat, padded: bool)

  datatype Resolved = Launchable(launch: FftLaunch) | Refused

  predicate Accepted(p: FftPlan, d: Device, spread: bool) {
    && p.workers > 0 && d.chunk > 0 && d.units > 0 && p.maxUthread > 0
    && d.chunk % p.workers == 0 && p.maxUthread % p.workers == 0 && p.threads % p.workers == 0
    && d.strideBytes == d.chunk * d.threadBytes
    && p.simdLanes > 0 && (spread ==> p.simdLanes == 8)
  }

  /** The transforms a unit's scratchpad has room for. */
  function Slots(p: FftPlan): nat
    requires p.workers > 0
  {
    p.maxUthread / p.workers
  }

  function Resolve(p: FftPlan, d: Device, spread: bool): (r: Resolved)
    ensures r.Launchable? <==> Accepted(p, d, spread)
  {
    if !Accepted(p, d, spread) then
      Refused
    else
      var perChunk := d.chunk / p.workers;
      var slotsPerChunk := if spread then Min(Slots(p), perChunk) else perChunk;
      var stripes := Max(1, p.maxUthread / d.chunk);
      Launchable(FftLaunch(p.threads / p.workers, p.workers, d.chunk, slotsPerChunk,
                           if spread then slotsPerChunk * stripes * d.units else Slots(p),
                           spread && Slots(p) < perChunk))
  }

  predicate UsesBounds(l: FftLaunch) {
    l.padded || l.total > l.roundFfts
  }

  /** The microthreads launched for so many transforms. */
  function Physical(l: FftLaunch, ffts: nat): nat
    requires l.slotsPerChunk > 0
  {
    if l.padded then Times((ffts + l.slotsPerChunk - 1) / l.slotsPerChunk, l.chunk) else Times(ffts, l.workers)
  }

  /** The slot of a padded microthread within its chunk. */
  function SlotInChunk(i: nat, chunk: nat, workers: nat): nat
    requires chunk > 0 && workers > 0
  {
    (i % chunk) / workers
  }

  /** The transform of the round a microthread takes itself to work on. */
  function LaunchFft(l: FftLaunch, i: nat): nat
    requires l.workers > 0 && l.chunk > 0
  {
    if l.padded then Times(i / l.chunk, l.slotsPerChunk) + SlotInChunk(i, l.chunk, l.workers) else i / l.workers
  }

  datatype Duty = Away | Works(fft: nat, worker: nat, unit: nat, slot: nat)

  /** What a microthread does that is this one of its round and this one of its unit: it returns
      when its unit has no slot for it or the round no transform, and works on one otherwise. */
  function DutyAt(p: FftPlan, l: FftLaunch, round: Launch, i: nat, unit: nat, local: nat): Duty
    requires p.workers > 0 && l.workers > 0 && l.chunk > 0
  {
    if local / p.workers >= Slots(p) then
      Away
    else if UsesBounds(l) && LaunchFft(l, i) >= round.count then
      Away
    else
      Works(if UsesBounds(l) then round.offset + LaunchFft(l, i) else i / p.workers, local % p.workers, unit, local / p.workers)
  }

  /** The same, for microthread i of a pool that begins at a place of the memory. */
  function DutyOf(p: FftPlan, d: Device, l: FftLaunch, from: nat, round: Launch, i: nat): Duty
    requires p.workers > 0 && d.chunk > 0 && d.units > 0 && l.workers > 0 && l.chunk > 0
  {
    DutyAt(p, l, round, i, UnitOf(from + i, d.chunk, d.units), LocalRank(from, i, d.chunk, d.units))
  }

  // -------- aligned pools

  lemma ShiftedUnit(s: nat, i: nat, chunk: nat, units: nat)
    requires chunk > 0 && units > 0
    ensures UnitOf(chunk * s + i, chunk, units) == (UnitOf(i, chunk, units) + s) % units
  {
    Recompose(i, chunk);
    assert chunk * (s + i / chunk) == chunk * s + chunk * (i / chunk);
    Decode(chunk, s + i / chunk, i % chunk);
    AddedRemainder(i / chunk, s, units);
  }

  lemma AddedRemainder(a: nat, s: nat, units: nat)
    requires units > 0
    ensures (s + a) % units == (a % units + s) % units
  {
    Recompose(a, units);
    Recompose(a % units + s, units);
    var q := a / units + (a % units + s) / units;
    assert units * q == units * (a / units) + units * ((a % units + s) / units);
    Decode(units, q, (a % units + s) % units);
  }

  lemma ShiftsApart(u: nat, v: nat, s: nat, units: nat)
    requires u < units && v < units
    ensures (u + s) % units == (v + s) % units <==> u == v
  {
    Recompose(u + s, units);
    Recompose(v + s, units);
    if (u + s) % units == (v + s) % units {
      var gap := (u + s) / units - (v + s) / units;
      assert units * gap == u - v;
      Squeeze(units, gap, u - v);
    }
  }

  lemma {:induction false} ShiftedCount(s: nat, count: nat, chunk: nat, units: nat, unit: nat)
    requires chunk > 0 && unit < units
    ensures OnUnit(chunk * s, count, chunk, units, (unit + s) % units) == OnUnit(0, count, chunk, units, unit)
  {
    hide UnitOf;
    if count > 0 {
      ShiftedCount(s, count - 1, chunk, units, unit);
      ShiftedUnit(s, count - 1, chunk, units);
      ShiftsApart(UnitOf(count - 1, chunk, units), unit, s, units);
      assert chunk * s + count - 1 == chunk * s + (count - 1);
    }
  }

  /** On an aligned pool the local ids are those of a pool that begins with the first unit. */
  lemma AlignedRank(from: nat, i: nat, chunk: nat, units: nat)
    requires chunk > 0 && units > 0 && from % chunk == 0
    ensures LocalRank(from, i, chunk, units) == LocalOf(i, chunk, units)
    ensures UnitOf(from + i, chunk, units) == (UnitOf(i, chunk, units) + from / chunk) % units
  {
    hide OnUnit, UnitOf, LocalOf;
    Recompose(from, chunk);
    var s := from / chunk;
    assert from == chunk * s;
    ShiftedUnit(s, i, chunk, units);
    ShiftedCount(s, i, chunk, units, UnitOf(i, chunk, units));
    LocalIsRank(i, chunk, units);
    assert 0 + i == i;
  }

  // -------- what the resolved numbers are

  lemma WholeGroups(p: FftPlan, d: Device, spread: bool)
    requires Accepted(p, d, spread)
    ensures p.maxUthread == p.workers * Slots(p) && Slots(p) > 0
    ensures d.chunk == p.workers * (d.chunk / p.workers) && d.chunk / p.workers > 0
    ensures p.threads == p.workers * (p.threads / p.workers)
  {
    Recompose(p.maxUthread, p.workers);
    Recompose(d.chunk, p.workers);
    Recompose(p.threads, p.workers);
  }

  lemma Numbers(p: FftPlan, d: Device, spread: bool, l: FftLaunch)
    requires Resolve(p, d, spread) == Launchable(l)
    ensures p.workers > 0 && d.chunk > 0 && d.units > 0 && d.chunk % p.workers == 0
    ensures l.workers == p.workers && l.chunk == d.chunk && l.total == p.threads / p.workers
    ensures l.slotsPerChunk > 0 && l.roundFfts > 0
    ensures l.padded ==> l.slotsPerChunk == Slots(p) < d.chunk / p.workers && l.roundFfts == Slots(p) * d.units
    ensures !l.padded && !spread ==> l.roundFfts == Slots(p)
    ensures !l.padded && spread ==> l.roundFfts == (d.chunk / p.workers) * (p.maxUthread / d.chunk) * d.units && p.maxUthread >= d.chunk
  {
    WholeGroups(p, d, spread);
    var perChunk, stripes := d.chunk / p.workers, Max(1, p.maxUthread / d.chunk);
    if Slots(p) < perChunk {
      Monotone(p.workers, Slots(p) + 1, perChunk);
      Decode(d.chunk, 0, p.maxUthread);
    } else {
      Monotone(p.workers, perChunk, Slots(p));
      Below(p.maxUthread, d.chunk, 1);
    }
    if spread {
      Monotone(l.slotsPerChunk, 1, stripes);
      Monotone(l.slotsPerChunk * stripes, 1, d.units);
    }
  }

  /** A full round leaves no room unused: spread over the units it is as large as is safe, or, with
      less room on a unit than a chunk, fills the room of every unit; otherwise it fills one unit's.
      Its bounds are passed exactly when the device has to check them. */
  lemma RoundsAreFull(p: FftPlan, d: Device, spread: bool, l: FftLaunch)
    requires Resolve(p, d, spread) == Launchable(l)
    ensures p.workers > 0 && d.chunk > 0 && d.units > 0 && l.roundFfts > 0 && l.workers == p.workers && l.workers * l.total == p.threads
    ensures !spread ==> !l.padded && l.workers * l.roundFfts == p.maxUthread
    ensures spread && p.maxUthread >= d.chunk ==> !l.padded && l.workers * l.roundFfts == SafeRoundSize(p.maxUthread, d.units, d.chunk)
    ensures spread && p.maxUthread < d.chunk ==> l.padded && l.workers * l.roundFfts == d.units * p.maxUthread
    ensures UsesBounds(l) <==> l.padded || RoundCount(l.total, l.roundFfts) > 1
  {
    hide RoundCount, Resolve, Accepted, SafeRoundSize, Slots, UsesBounds;
    Numbers(p, d, spread, l);
    ResolvedIsAccepted(p, d, spread);
    WholeGroups(p, d, spread);
    SecondRound(l);
    PaddedIsNarrow(p, d, spread, l);
    if spread && l.padded {
      RoomOfAll(p.workers, Slots(p), d.units, p.maxUthread);
    } else if spread {
      SpreadIsSafe(p.workers, d.chunk / p.workers, p.maxUthread / d.chunk, d.units, d.chunk, p.maxUthread);
    }
  }

  lemma ResolvedIsAccepted(p: FftPlan, d: Device, spread: bool)
    requires Resolve(p, d, spread).Launchable?
    ensures Accepted(p, d, spread)
  {
  }

  lemma SecondRound(l: FftLaunch)
    requires l.roundFfts > 0
    ensures UsesBounds(l) <==> l.padded || RoundCount(l.total, l.roundFfts) > 1
  {
    hide RoundCount;
    StartsInside(l.total, l.roundFfts, 1);
  }

  lemma RoomOfAll(workers: nat, slots: nat, units: nat, max: nat)
    requires max == workers * slots
    ensures workers * (slots * units) == units * max
  {
  }

  lemma SpreadIsSafe(workers: nat, perChunk: nat, stripes: nat, units: nat, chunk: nat, max: nat)
    requires 0 < chunk <= max && chunk == workers * perChunk && stripes == max / chunk
    ensures workers * (perChunk * stripes * units) == SafeRoundSize(max, units, chunk)
  {
    Regrouped(workers, perChunk, stripes, units);
    Regroup(stripes, chunk, units);
  }

  lemma PaddedIsNarrow(p: FftPlan, d: Device, spread: bool, l: FftLaunch)
    requires Resolve(p, d, spread) == Launchable(l)
    ensures d.chunk > 0 && (l.padded <==> spread && p.maxUthread < d.chunk)
  {
    WholeGroups(p, d, spread);
    var perChunk := d.chunk / p.workers;
    if Slots(p) < perChunk {
      Monotone(p.workers, Slots(p) + 1, perChunk);
    } else {
      Monotone(p.workers, perChunk, Slots(p));
    }
  }

  // -------- who is turned away

  ghost predicate Setting(p: FftPlan, d: Device, spread: bool, l: FftLaunch, from: nat, r: nat, i: nat) {
    && Resolve(p, d, spread) == Launchable(l) && l.roundFfts > 0 && l.slotsPerChunk > 0 && from % d.chunk == 0
    && r < RoundCount(l.total, l.roundFfts) && i < Physical(l, RoundAt(l.total, l.roundFfts, r).count)
  }

  /** No unpadded microthread is beyond its unit's room. */
  lemma UnpaddedFits(p: FftPlan, d: Device, spread: bool, l: FftLaunch, count: nat, i: nat)
    requires Resolve(p, d, spread) == Launchable(l) && !l.padded && count <= l.roundFfts && i < count * l.workers
    ensures LocalOf(i, d.chunk, d.units) < p.maxUthread
  {
    hide Resolve, LocalOf, Accepted;
    Numbers(p, d, spread, l);
    WholeGroups(p, d, spread);
    Monotone(l.workers, count, l.roundFfts);
    assert l.workers * count == count * l.workers;
    if spread {
      StripesFit(i, p.workers, d.chunk / p.workers, p.maxUthread / d.chunk, d.units, d.chunk, p.maxUthread);
    } else {
      LocalIsRank(i, d.chunk, d.units);
      OnUnitBounded(0, i, d.chunk, d.units, UnitOf(0 + i, d.chunk, d.units));
    }
  }

  lemma StripesFit(i: nat, workers: nat, perChunk: nat, stripes: nat, units: nat, chunk: nat, max: nat)
    requires chunk > 0 && units > 0 && chunk == workers * perChunk && stripes == max / chunk && i < workers * (perChunk * stripes * units)
    ensures LocalOf(i, chunk, units) < max
  {
    assert workers * (perChunk * stripes * units) == (chunk * units) * stripes by {
      Regrouped(workers, perChunk, stripes, units);
    }
    Below(i, chunk * units, stripes);
    var t := i / (chunk * units);
    Recompose(max, chunk);
    Monotone(chunk, t + 1, stripes);
    assert chunk * (t + 1) == t * chunk + chunk;
  }

  lemma Regrouped(workers: nat, perChunk: nat, stripes: nat, units: nat)
    ensures workers * (perChunk * stripes * units) == ((workers * perChunk) * units) * stripes
  {
    assert perChunk * stripes * units == perChunk * (units * stripes);
    assert workers * (perChunk * (units * stripes)) == (workers * perChunk) * (units * stripes);
  }

  lemma RoundsOf(l: FftLaunch, r: nat)
    requires l.roundFfts > 0 && r < RoundCount(l.total, l.roundFfts)
    ensures var round := RoundAt(l.total, l.roundFfts, r);
            && round.offset == r * l.roundFfts < l.total && 0 < round.count <= l.roundFfts && round.offset + round.count <= l.total
            && (round.count == l.roundFfts || round.offset + round.count == l.total)
            && (l.total <= l.roundFfts ==> r == 0 && round.offset == 0 && round.count == l.total)
  {
    StartsInside(l.total, l.roundFfts, r);
    if r > 0 {
      Monotone(l.roundFfts, 1, r);
    }
  }

  /** Without padding every microthread works. */
  lemma UnpaddedDuty(p: FftPlan, d: Device, spread: bool, l: FftLaunch, from: nat, r: nat, i: nat)
    requires Setting(p, d, spread, l, from, r, i) && !l.padded
    ensures p.workers > 0 && d.chunk > 0 && d.units > 0 && l.workers == p.workers && l.chunk == d.chunk
    ensures var round := RoundAt(l.total, l.roundFfts, r);
            && i / p.workers < round.count
            && DutyOf(p, d, l, from, round, i)
               == Works(round.offset + i / p.workers, i % p.workers, UnitOf(from + i, d.chunk, d.units), LocalOf(i, d.chunk, d.units) / p.workers)
  {
    hide Resolve, LocalOf, Accepted, LocalRank, UnitOf, RoundAt, RoundCount;
    var round := RoundAt(l.total, l.roundFfts, r);
    Numbers(p, d, spread, l);
    WholeGroups(p, d, spread);
    RoundsOf(l, r);
    UnpaddedFits(p, d, spread, l, round.count, i);
    AlignedRank(from, i, d.chunk, d.units);
    GroupsCoincide(i, i, p.workers, d.chunk, d.units);
    Below(LocalOf(i, d.chunk, d.units), p.workers, Slots(p));
    assert p.workers * round.count == round.count * p.workers;
    Below(i, p.workers, round.count);
  }

  /** A padded microthread works when it is one of the first of its chunk and there is a transform for it. */
  lemma PaddedDuty(p: FftPlan, d: Device, spread: bool, l: FftLaunch, from: nat, r: nat, i: nat)
    requires Setting(p, d, spread, l, from, r, i) && l.padded
    ensures p.workers > 0 && d.chunk > 0 && d.units > 0 && l.workers == p.workers && l.chunk == d.chunk
    ensures LocalOf(i, d.chunk, d.units) == i % d.chunk
    ensures var round := RoundAt(l.total, l.roundFfts, r);
            DutyOf(p, d, l, from, round, i)
            == if SlotInChunk(i, d.chunk, p.workers) < Slots(p) && LaunchFft(l, i) < round.count then
                 Works(round.offset + LaunchFft(l, i), i % p.workers, UnitOf(from + i, d.chunk, d.units), SlotInChunk(i, d.chunk, p.workers))
               else Away
  {
    hide Resolve, Accepted, LocalRank, UnitOf, RoundAt, RoundCount;
    var round := RoundAt(l.total, l.roundFfts, r);
    Numbers(p, d, spread, l);
    RoundsOf(l, r);
    PaddedRotation(round.count, l.slotsPerChunk, d.units, d.chunk, i);
    AlignedRank(from, i, d.chunk, d.units);
    GroupsCoincide(i, i, p.workers, d.chunk, d.units);
  }

  /** A padded round is at most one chunk for each unit. */
  lemma PaddedRotation(count: nat, slots: nat, units: nat, chunk: nat, i: nat)
    requires slots > 0 && chunk > 0 && units > 0 && count <= slots * units && i < (count + slots - 1) / slots * chunk
    ensures i < chunk * units && i / (chunk * units) == 0 && LocalOf(i, chunk, units) == i % chunk
  {
    var stripes := (count + slots - 1) / slots;
    Decode(slots, units, slots - 1);
    Below(count + slots - 1, slots, units + 1);
    assert slots * (units + 1) == slots * units + slots;
    Monotone(chunk, stripes, units);
    assert chunk * stripes == stripes * chunk;
    Decode(chunk * units, 0, i);
  }

  // -------- every worker of every transform, once

  /** Where in its round worker w of transform x of the round is. */
  function PlaceOf(l: FftLaunch, x: nat, w: nat): nat
    requires l.slotsPerChunk > 0
  {
    if l.padded then Times(x / l.slotsPerChunk, l.chunk) + (Times(x % l.slotsPerChunk, l.workers) + w) else Times(x, l.workers) + w
  }

  /** Microthread i of round r works on this transform as this worker. */
  ghost predicate Does(p: FftPlan, d: Device, l: FftLaunch, from: nat, r: nat, i: nat, f: nat, w: nat)
    requires p.workers > 0 && d.chunk > 0 && d.units > 0 && l.workers > 0 && l.chunk > 0
  {
    var duty := DutyOf(p, d, l, from, RoundAt(l.total, l.roundFfts, r), i);
    duty.Works? && duty.fft == f && duty.worker == w
  }

  lemma PlaceFits(l: FftLaunch, perChunk: nat, count: nat, x: nat, w: nat)
    requires l.slotsPerChunk > 0 && l.chunk == l.workers * perChunk && (l.padded ==> l.slotsPerChunk < perChunk)
    requires x < count && w < l.workers
    ensures PlaceOf(l, x, w) < Physical(l, count)
  {
    if l.padded {
      var s := l.slotsPerChunk;
      Recompose(x, s);
      InChunk(l, perChunk, x % s, w);
      Recompose(count + s - 1, s);
      var stripes := (count + s - 1) / s;
      Below(x, s, stripes);
      Monotone(l.chunk, x / s + 1, stripes);
      assert l.chunk * (x / s + 1) == (x / s) * l.chunk + l.chunk && l.chunk * stripes == stripes * l.chunk;
    } else {
      Monotone(l.workers, x + 1, count);
      assert l.workers * (x + 1) == x * l.workers + l.workers && l.workers * count == count * l.workers;
    }
  }

  /** No more microthreads are launched than it takes: up to the last worker of the last transform,
      and in a padded round to the end of its chunk. */
  lemma NoneToSpare(l: FftLaunch, perChunk: nat, count: nat)
    requires l.slotsPerChunk > 0 && l.chunk == l.workers * perChunk && (l.padded ==> l.slotsPerChunk < perChunk) && count > 0 && l.workers > 0
    ensures var last := PlaceOf(l, count - 1, l.workers - 1);
            if l.padded then Physical(l, count) - l.chunk <= last < Physical(l, count) && l.chunk > 0 && Physical(l, count) % l.chunk == 0
            else Physical(l, count) == last + 1
  {
    PlaceFits(l, perChunk, count, count - 1, l.workers - 1);
    if l.padded {
      var s := l.slotsPerChunk;
      var stripes := (count + s - 1) / s;
      OneStripeLess(count, s);
      Monotone(l.workers, 1, perChunk);
      Decode(l.chunk, stripes, 0);
      assert stripes * l.chunk == l.chunk * stripes && (stripes - 1) * l.chunk == stripes * l.chunk - l.chunk;
    } else {
      assert count * l.workers == (count - 1) * l.workers + l.workers;
    }
  }

  lemma OneStripeLess(count: nat, s: nat)
    requires count > 0 && s > 0
    ensures (count - 1) / s == (count + s - 1) / s - 1
  {
    Recompose(count - 1, s);
    assert s * ((count - 1) / s + 1) == s * ((count - 1) / s) + s;
    Decode(s, (count - 1) / s + 1, (count - 1) % s);
  }

  lemma InChunk(l: FftLaunch, perChunk: nat, v: nat, w: nat)
    requires l.chunk == l.workers * perChunk && v < perChunk && w < l.workers
    ensures v * l.workers + w < l.chunk
    ensures (v * l.workers + w) / l.workers == v && (v * l.workers + w) % l.workers == w
  {
    InRange(l.workers, perChunk, w, v);
    assert l.workers * v == v * l.workers;
    Decode(l.workers, v, w);
  }

  /** The round and place of a worker of a transform exist. */
  lemma PlaceExists(p: FftPlan, d: Device, spread: bool, l: FftLaunch, f: nat, r: nat, x: nat, w: nat)
    requires Resolve(p, d, spread) == Launchable(l) && f < l.total && w < l.workers
    requires l.roundFfts > 0 && l.slotsPerChunk > 0 && r == f / l.roundFfts && x == f % l.roundFfts
    ensures r < RoundCount(l.total, l.roundFfts) && x < RoundAt(l.total, l.roundFfts, r).count
    ensures PlaceOf(l, x, w) < Physical(l, RoundAt(l.total, l.roundFfts, r).count)
  {
    hide Resolve, Accepted, PlaceOf, Physical;
    Numbers(p, d, spread, l);
    WholeGroups(p, d, spread);
    Recompose(f, l.roundFfts);
    assert l.roundFfts * r == r * l.roundFfts;
    StartsInside(l.total, l.roundFfts, r);
    PlaceFits(l, d.chunk / p.workers, RoundAt(l.total, l.roundFfts, r).count, x, w);
  }

  lemma RoundDigits(l: FftLaunch, r: nat, x: nat, f: nat)
    requires l.roundFfts > 0 && r < RoundCount(l.total, l.roundFfts) && x < RoundAt(l.total, l.roundFfts, r).count
    ensures f == RoundAt(l.total, l.roundFfts, r).offset + x <==> r == f / l.roundFfts && x == f % l.roundFfts
  {
    hide RoundAt, RoundCount;
    RoundsOf(l, r);
    assert r * l.roundFfts == l.roundFfts * r;
    Decode(l.roundFfts, r, x);
    Recompose(f, l.roundFfts);
  }

  lemma SettingIs(p: FftPlan, d: Device, spread: bool, l: FftLaunch, from: nat, r: nat, i: nat)
    requires Setting(p, d, spread, l, from, r, i)
    ensures Resolve(p, d, spread) == Launchable(l) && Accepted(p, d, spread) && l.roundFfts > 0 && l.slotsPerChunk > 0
    ensures d.chunk > 0 && from % d.chunk == 0 && r < RoundCount(l.total, l.roundFfts)
  {
  }

  /** A place of a padded round, by its unit's turn, its slot and its worker. */
  lemma PaddedDigits(l: FftLaunch, perChunk: nat, i: nat, x: nat, w: nat)
    requires l.padded && l.chunk == l.workers * perChunk && 0 < l.slotsPerChunk < perChunk && w < l.workers
    ensures l.chunk > 0
    ensures SlotInChunk(i, l.chunk, l.workers) < l.slotsPerChunk && LaunchFft(l, i) == x && i % l.workers == w <==> i == PlaceOf(l, x, w)
  {
    var s := l.slotsPerChunk;
    Monotone(l.workers, 1, perChunk);
    SameRemainder(i, l.workers, perChunk);
    if SlotInChunk(i, l.chunk, l.workers) < s && LaunchFft(l, i) == x && i % l.workers == w {
      PlaceFromDigits(i, x, l.chunk, l.workers, s);
    }
    if i == PlaceOf(l, x, w) {
      DigitsFromPlace(l, perChunk, i, x, w);
    }
  }

  lemma PlaceFromDigits(i: nat, x: nat, chunk: nat, workers: nat, s: nat)
    requires chunk > 0 && workers > 0 && SlotInChunk(i, chunk, workers) < s && Times(i / chunk, s) + SlotInChunk(i, chunk, workers) == x
    ensures i == Times(x / s, chunk) + (Times(x % s, workers) + (i % chunk) % workers)
  {
    assert Times(i / chunk, s) == s * (i / chunk);
    Decode(s, i / chunk, SlotInChunk(i, chunk, workers));
    Recompose(i, chunk);
    Recompose(i % chunk, workers);
  }

  lemma DigitsFromPlace(l: FftLaunch, perChunk: nat, i: nat, x: nat, w: nat)
    requires l.padded && l.chunk == l.workers * perChunk > 0 && 0 < l.slotsPerChunk < perChunk && w < l.workers && i == PlaceOf(l, x, w)
    ensures SlotInChunk(i, l.chunk, l.workers) == x % l.slotsPerChunk && (i % l.chunk) % l.workers == w && LaunchFft(l, i) == x
  {
    var s := l.slotsPerChunk;
    Recompose(x, s);
    InChunk(l, perChunk, x % s, w);
    assert Times(x / s, l.chunk) == l.chunk * (x / s);
    Decode(l.chunk, x / s, (x % s) * l.workers + w);
    assert Times(x / s, s) == s * (x / s);
  }

  lemma SameRemainder(i: nat, workers: nat, perChunk: nat)
    requires workers > 0 && perChunk > 0
    ensures workers * perChunk > 0 && (i % (workers * perChunk)) % workers == i % workers
  {
    Monotone(workers, 1, perChunk);
    var n := workers * perChunk;
    Recompose(i, n);
    Recompose(i % n, workers);
    var q := (i % n) / workers + perChunk * (i / n);
    assert workers * q == workers * ((i % n) / workers) + n * (i / n);
    Decode(workers, q, (i % n) % workers);
  }

  lemma PaddedOnce(p: FftPlan, d: Device, spread: bool, l: FftLaunch, from: nat, r: nat, i: nat, f: nat, w: nat)
    requires Setting(p, d, spread, l, from, r, i) && l.padded && f < l.total && w < l.workers
    ensures p.workers > 0 && d.chunk > 0 && d.units > 0 && l.chunk > 0
    ensures Does(p, d, l, from, r, i, f, w) <==> r == f / l.roundFfts && i == PlaceOf(l, f % l.roundFfts, w)
  {
    hide Resolve, Accepted, Setting, DutyOf, LocalOf, UnitOf, LaunchFft, PlaceOf, RoundAt;
    SettingIs(p, d, spread, l, from, r, i);
    Numbers(p, d, spread, l);
    WholeGroups(p, d, spread);
    PaddedDuty(p, d, spread, l, from, r, i);
    PaddedDigits(l, d.chunk / p.workers, i, f % l.roundFfts, w);
    var count := RoundAt(l.total, l.roundFfts, r).count;
    if LaunchFft(l, i) < count {
      RoundDigits(l, r, LaunchFft(l, i), f);
    }
    if r == f / l.roundFfts {
      PlaceExists(p, d, spread, l, f, r, f % l.roundFfts, w);
      RoundDigits(l, r, f % l.roundFfts, f);
    }
  }

  lemma UnpaddedOnce(p: FftPlan, d: Device, spread: bool, l: FftLaunch, from: nat, r: nat, i: nat, f: nat, w: nat)
    requires Setting(p, d, spread, l, from, r, i) && !l.padded && f < l.total && w < l.workers
    ensures p.workers > 0 && d.chunk > 0 && d.units > 0 && l.chunk > 0
    ensures Does(p, d, l, from, r, i, f, w) <==> r == f / l.roundFfts && i == PlaceOf(l, f % l.roundFfts, w)
  {
    hide Resolve, Accepted, Setting, DutyOf, LocalOf, UnitOf, RoundAt, PlaceOf;
    SettingIs(p, d, spread, l, from, r, i);
    UnpaddedDuty(p, d, spread, l, from, r, i);
    RoundDigits(l, r, i / p.workers, f);
    UnpaddedPlace(l, i, f % l.roundFfts, w);
  }

  lemma UnpaddedPlace(l: FftLaunch, i: nat, x: nat, w: nat)
    requires !l.padded && w < l.workers && l.slotsPerChunk > 0
    ensures i / l.workers == x && i % l.workers == w <==> i == PlaceOf(l, x, w)
  {
    Recompose(i, l.workers);
    assert Times(x, l.workers) == l.workers * x;
    Decode(l.workers, x, w);
  }

  /** Every worker of every transform is exactly one microthread of one round, none of whose
      checks turns it away: padded or not, spread over the units or not, and wherever the
      aligned pool begins. */
  lemma EveryTransformOnce(p: FftPlan, d: Device, spread: bool, l: FftLaunch, from: nat, r: nat, i: nat, f: nat, w: nat)
    requires Setting(p, d, spread, l, from, r, i) && f < l.total && w < l.workers
    ensures p.workers > 0 && d.chunk > 0 && d.units > 0 && l.chunk > 0
    ensures Does(p, d, l, from, r, i, f, w) <==> r == f / l.roundFfts && i == PlaceOf(l, f % l.roundFfts, w)
  {
    hide Resolve, Accepted, DutyOf, LocalOf, UnitOf, PlaceOf, RoundAt, Does, RoundCount, Physical;
    if l.padded {
      PaddedOnce(p, d, spread, l, from, r, i, f, w);
    } else {
      UnpaddedOnce(p, d, spread, l, from, r, i, f, w);
    }
  }

  /** No transform goes without: each of its workers is one of the microthreads launched. */
  lemma EveryTransformRuns(p: FftPlan, d: Device, spread: bool, l: FftLaunch, from: nat, f: nat, w: nat) returns (r: nat, i: nat)
    requires Resolve(p, d, spread) == Launchable(l) && d.chunk > 0 && from % d.chunk == 0 && f < l.total && w < l.workers
    ensures p.workers > 0 && d.units > 0 && l.chunk > 0
    ensures Setting(p, d, spread, l, from, r, i) && Does(p, d, l, from, r, i, f, w)
  {
    hide Resolve, Accepted, Does, PlaceOf, Physical, RoundAt, RoundCount;
    Numbers(p, d, spread, l);
    r := f / l.roundFfts;
    i := PlaceOf(l, f % l.roundFfts, w);
    PlaceExists(p, d, spread, l, f, r, f % l.roundFfts, w);
    EveryTransformOnce(p, d, spread, l, from, r, i, f, w);
  }

  // -------- the slots

  ghost predicate SameSlot(a: Duty, b: Duty) {
    a.Works? && b.Works? && a.unit == b.unit && a.slot == b.slot
  }

  /** The workers of a group share a unit and a slot, wherever the aligned pool begins. */
  lemma SameSlotIsSameGroup(d: Device, from: nat, i: nat, j: nat, workers: nat)
    requires workers > 0 && d.chunk > 0 && d.units > 0 && d.chunk % workers == 0 && from % d.chunk == 0
    ensures UnitOf(from + i, d.chunk, d.units) == UnitOf(from + j, d.chunk, d.units)
            && LocalOf(i, d.chunk, d.units) / workers == LocalOf(j, d.chunk, d.units) / workers
            <==> i / workers == j / workers
  {
    hide LocalOf, LocalRank;
    AlignedRank(from, i, d.chunk, d.units);
    AlignedRank(from, j, d.chunk, d.units);
    ShiftsApart(UnitOf(i, d.chunk, d.units), UnitOf(j, d.chunk, d.units), from / d.chunk, d.units);
    GroupsCoincide(i, j, workers, d.chunk, d.units);
  }

  /** Of the groups of a padded round those that work are numbered without gaps. */
  lemma PaddedGroups(l: FftLaunch, perChunk: nat, i: nat, j: nat)
    requires l.padded && l.workers > 0 && l.chunk == l.workers * perChunk > 0 && 0 < l.slotsPerChunk < perChunk
    requires SlotInChunk(i, l.chunk, l.workers) < l.slotsPerChunk && SlotInChunk(j, l.chunk, l.workers) < l.slotsPerChunk
    ensures LaunchFft(l, i) == LaunchFft(l, j) <==> i / l.workers == j / l.workers
  {
    hide LaunchFft, SlotInChunk;
    var v, u := DigitsOfBoth(l, perChunk, i);
    var v', u' := DigitsOfBoth(l, perChunk, j);
    SameNumbers(l.slotsPerChunk, perChunk, v, u, v', u');
  }

  lemma DigitsOfBoth(l: FftLaunch, perChunk: nat, i: nat) returns (v: nat, u: nat)
    requires l.padded && l.workers > 0 && l.chunk == l.workers * perChunk > 0 && SlotInChunk(i, l.chunk, l.workers) < l.slotsPerChunk
    ensures v < l.slotsPerChunk && LaunchFft(l, i) == v + l.slotsPerChunk * u && i / l.workers == v + perChunk * u
  {
    DigitsOfGroup(i, l.workers, perChunk, l.chunk);
    DigitsOfFft(l, i);
    v, u := SlotInChunk(i, l.chunk, l.workers), i / l.chunk;
  }

  lemma SameNumbers(s: nat, n: nat, v: nat, u: nat, v': nat, u': nat)
    requires v < s <= n && v' < s
    ensures v + s * u == v' + s * u' <==> v + n * u == v' + n * u'
  {
    SameDigits(s, v, u, v', u');
    SameDigits(n, v, u, v', u');
  }

  lemma DigitsOfFft(l: FftLaunch, i: nat)
    requires l.padded && l.workers > 0 && l.chunk > 0
    ensures LaunchFft(l, i) == SlotInChunk(i, l.chunk, l.workers) + l.slotsPerChunk * (i / l.chunk)
  {
    assert Times(i / l.chunk, l.slotsPerChunk) == l.slotsPerChunk * (i / l.chunk);
  }

  lemma DigitsOfGroup(i: nat, workers: nat, perChunk: nat, chunk: nat)
    requires workers > 0 && chunk == workers * perChunk > 0
    ensures i / workers == SlotInChunk(i, chunk, workers) + perChunk * (i / chunk) && SlotInChunk(i, chunk, workers) < perChunk
  {
    Recompose(i, chunk);
    Recompose(i % chunk, workers);
    Below(i % chunk, workers, perChunk);
    var q := SlotInChunk(i, chunk, workers) + perChunk * (i / chunk);
    assert workers * q == workers * (SlotInChunk(i, chunk, workers)) + chunk * (i / chunk);
    Decode(workers, q, (i % chunk) % workers);
  }

  lemma SlotExists(p: FftPlan, d: Device, l: FftLaunch, from: nat, round: Launch, i: nat)
    requires p.workers > 0 && d.chunk > 0 && d.units > 0 && l.workers > 0 && l.chunk > 0
    ensures var duty := DutyOf(p, d, l, from, round, i); duty.Works? ==> duty.slot < Slots(p) && duty.unit < d.units
  {
  }

  /** Two working microthreads of a round share a scratchpad slot exactly when they work on the
      same transform, and then their worker numbers tell them apart; every slot they use exists. */
  lemma SlotsAreShared(p: FftPlan, d: Device, spread: bool, l: FftLaunch, from: nat, r: nat, i: nat, j: nat)
    requires Setting(p, d, spread, l, from, r, i) && Setting(p, d, spread, l, from, r, j)
    ensures p.workers > 0 && d.chunk > 0 && d.units > 0 && l.workers > 0 && l.chunk > 0
    ensures var round := RoundAt(l.total, l.roundFfts, r);
            var a, b := DutyOf(p, d, l, from, round, i), DutyOf(p, d, l, from, round, j);
            a.Works? && b.Works? ==>
              && (SameSlot(a, b) <==> a.fft == b.fft)
              && (a.fft == b.fft && a.worker == b.worker ==> i == j)
              && a.slot < Slots(p) && a.unit < d.units
  {
    hide Resolve, Accepted, Setting, LocalOf, UnitOf, RoundAt, RoundCount, LaunchFft, DutyOf, SlotInChunk;
    SettingIs(p, d, spread, l, from, r, i);
    Numbers(p, d, spread, l);
    SlotExists(p, d, l, from, RoundAt(l.total, l.roundFfts, r), i);
    SameSlotIsSameGroup(d, from, i, j, p.workers);
    WorkingDuty(p, d, spread, l, from, r, i);
    WorkingDuty(p, d, spread, l, from, r, j);
    SameFftIsSameGroup(p, d, spread, l, from, r, i, j);
    if i / p.workers == j / p.workers && i % p.workers == j % p.workers {
      GroupsDiffer(i, j, p.workers);
    }
  }

  lemma WorkingDuty(p: FftPlan, d: Device, spread: bool, l: FftLaunch, from: nat, r: nat, i: nat)
    requires Setting(p, d, spread, l, from, r, i)
    ensures p.workers > 0 && d.chunk > 0 && d.units > 0 && l.workers > 0 && l.chunk > 0
    ensures var duty := DutyOf(p, d, l, from, RoundAt(l.total, l.roundFfts, r), i);
            duty.Works? ==>
              && duty.worker == i % p.workers && duty.unit == UnitOf(from + i, d.chunk, d.units)
              && duty.slot == LocalOf(i, d.chunk, d.units) / p.workers
  {
    hide Resolve, Accepted, Setting, LocalOf, UnitOf, RoundAt, RoundCount, LaunchFft, DutyOf;
    SettingIs(p, d, spread, l, from, r, i);
    if l.padded {
      PaddedDuty(p, d, spread, l, from, r, i);
    } else {
      UnpaddedDuty(p, d, spread, l, from, r, i);
    }
  }

  lemma SameFftIsSameGroup(p: FftPlan, d: Device, spread: bool, l: FftLaunch, from: nat, r: nat, i: nat, j: nat)
    requires Setting(p, d, spread, l, from, r, i) && Setting(p, d, spread, l, from, r, j)
    ensures p.workers > 0 && d.chunk > 0 && d.units > 0 && l.workers > 0 && l.chunk > 0
    ensures var round := RoundAt(l.total, l.roundFfts, r);
            var a, b := DutyOf(p, d, l, from, round, i), DutyOf(p, d, l, from, round, j);
            a.Works? && b.Works? ==> (a.fft == b.fft <==> i / p.workers == j / p.workers)
  {
    hide Resolve, Accepted, Setting, LocalOf, UnitOf, RoundAt, RoundCount, LaunchFft, DutyOf, SlotInChunk;
    SettingIs(p, d, spread, l, from, r, i);
    Numbers(p, d, spread, l);
    WholeGroups(p, d, spread);
    if l.padded {
      PaddedDuty(p, d, spread, l, from, r, i);
      PaddedDuty(p, d, spread, l, from, r, j);
      var round := RoundAt(l.total, l.roundFfts, r);
      if DutyOf(p, d, l, from, round, i).Works? && DutyOf(p, d, l, from, round, j).Works? {
        PaddedGroups(l, d.chunk / p.workers, i, j);
      }
    } else {
      UnpaddedDuty(p, d, spread, l, from, r, i);
      UnpaddedDuty(p, d, spread, l, from, r, j);
    }
  }

  lemma GroupsDiffer(i: nat, j: nat, workers: nat)
    requires workers > 0 && i / workers == j / workers && i % workers == j % workers
    ensures i == j
  {
    Recompose(i, workers);
    Recompose(j, workers);
  }

  // -------- a host that runs its rounds one after another

  /** Before microthread i of round r the worker has had its turn. */
  ghost predicate HadTurn(l: FftLaunch, f: nat, w: nat, r: nat, i: nat)
    requires l.roundFfts > 0 && l.slotsPerChunk > 0
  {
    f / l.roundFfts < r || (f / l.roundFfts == r && PlaceOf(l, f % l.roundFfts, w) < i)
  }

  lemma WorksInside(p: FftPlan, d: Device, spread: bool, l: FftLaunch, from: nat, r: nat, i: nat)
    requires Setting(p, d, spread, l, from, r, i)
    ensures p.workers > 0 && d.chunk > 0 && d.units > 0 && l.workers == p.workers && l.chunk > 0
    ensures var duty := DutyOf(p, d, l, from, RoundAt(l.total, l.roundFfts, r), i);
            duty.Works? ==> duty.fft < l.total && duty.worker < l.workers
  {
    hide Resolve, Accepted, Setting, LocalOf, UnitOf, DutyOf, RoundAt, RoundCount, LaunchFft, SlotInChunk;
    SettingIs(p, d, spread, l, from, r, i);
    RoundsOf(l, r);
    if l.padded {
      PaddedDuty(p, d, spread, l, from, r, i);
    } else {
      UnpaddedDuty(p, d, spread, l, from, r, i);
    }
    Recompose(i, p.workers);
  }

  /** A microthread gives its turn to the one worker it works as. */
  lemma NextTurn(p: FftPlan, d: Device, spread: bool, l: FftLaunch, from: nat, r: nat, i: nat, f: nat, w: nat)
    requires Setting(p, d, spread, l, from, r, i) && f < l.total && w < l.workers
    ensures p.workers > 0 && d.chunk > 0 && d.units > 0 && l.chunk > 0
    ensures HadTurn(l, f, w, r, i + 1) <==> HadTurn(l, f, w, r, i) || Does(p, d, l, from, r, i, f, w)
  {
    hide Resolve, Accepted, PlaceOf, Does, RoundAt, RoundCount, Physical;
    EveryTransformOnce(p, d, spread, l, from, r, i, f, w);
  }

  /** When a round is over, all of its workers have had their turn. */
  lemma RoundOver(p: FftPlan, d: Device, spread: bool, l: FftLaunch, r: nat, f: nat, w: nat)
    requires Resolve(p, d, spread) == Launchable(l) && l.roundFfts > 0 && l.slotsPerChunk > 0 && f < l.total && w < l.workers
    ensures HadTurn(l, f, w, r + 1, 0) <==> HadTurn(l, f, w, r, Physical(l, RoundAt(l.total, l.roundFfts, r).count))
    ensures r == RoundCount(l.total, l.roundFfts) ==> HadTurn(l, f, w, r, 0)
  {
    hide Resolve, Accepted, PlaceOf, Physical;
    PlaceExists(p, d, spread, l, f, f / l.roundFfts, f % l.roundFfts, w);
  }
}
