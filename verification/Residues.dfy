/** The compression of a looped stage's residues into a formula evaluated at run time. */
module Residues {
  import opened DivMod
  import opened Memories

  /** values[r] is the first value, plus inner for each step within a group of divisor
      residues, plus outer for each group. */
  datatype Pattern = Pattern(divisor: nat, inner: int, outer: int)

  function Along(first: int, p: Pattern, r: nat): int
    requires p.divisor > 0
  {
    first + (r % p.divisor) * p.inner + (r / p.divisor) * p.outer
  }

  /** The pattern reproduces every value. */
  predicate Matches(values: seq<int>, p: Pattern) {
    p.divisor > 0 && forall r: nat :: r < |values| ==> values[r] == Along(values[0], p, r)
  }

  /** The only steps that can work for a divisor are read off the values. */
  function StepsFor(values: seq<int>, divisor: nat): Pattern
    requires 0 < divisor <= |values|
  {
    Pattern(divisor, if divisor > 1 then values[1] - values[0] else 0, if divisor < |values| then values[divisor] - values[0] else 0)
  }

  lemma FirstSteps(divisor: nat)
    requires divisor > 0
    ensures divisor > 1 ==> 1 % divisor == 1 && 1 / divisor == 0
    ensures divisor % divisor == 0 && divisor / divisor == 1
  {
    if divisor > 1 {
      Decode(divisor, 0, 1);
    }
    Decode(divisor, 1, 0);
  }

  /** Some steps match at a divisor exactly when those read off the values do. */
  lemma StepsAreForced(values: seq<int>, p: Pattern)
    requires 0 < p.divisor <= |values| && Matches(values, p)
    ensures Matches(values, StepsFor(values, p.divisor))
  {
    var d := p.divisor;
    var q := StepsFor(values, d);
    FirstSteps(d);
    if d > 1 {
      assert values[1] == Along(values[0], p, 1);
    }
    if d < |values| {
      assert values[d] == Along(values[0], p, d);
    }
    forall r: nat | r < |values| ensures values[r] == Along(values[0], q, r) {
      Recompose(r, d);
      assert values[r] == Along(values[0], p, r);
      if d == 1 {
        assert r % 1 == 0;
      }
      if d == |values| {
        Below(r, d, 1);
      }
    }
  }

  /** A divisor beyond the number of residues says no more than that number does. */
  lemma LargeDivisors(values: seq<int>, p: Pattern)
    requires p.divisor > |values| > 0 && Matches(values, p)
    ensures Matches(values, Pattern(|values|, p.inner, p.outer))
  {
    forall r: nat | r < |values| ensures values[r] == Along(values[0], Pattern(|values|, p.inner, p.outer), r) {
      Decode(p.divisor, 0, r);
      Decode(|values|, 0, r);
      assert values[r] == Along(values[0], p, r);
    }
  }

  method Fits(values: seq<int>, p: Pattern) returns (ok: bool)
    requires p.divisor > 0
    ensures ok <==> Matches(values, p)
  {
    var r := 0;
    while r < |values|
      invariant 0 <= r <= |values|
      invariant forall i: nat :: i < r ==> values[i] == Along(values[0], p, i)
    {
      if values[r] != Along(values[0], p, r) {
        return false;
      }
      r := r + 1;
    }
    return true;
  }

  /** The pattern of least divisor, or none when no divisor and no steps match. */
  method ResiduePattern(values: seq<int>) returns (r: Option<Pattern>)
    ensures r.Some? ==> r.value.divisor <= |values| && Matches(values, r.value)
    ensures r.Some? ==> forall p: Pattern :: p.divisor < r.value.divisor ==> !Matches(values, p)
    ensures r.None? ==> values == [] || forall p: Pattern :: !Matches(values, p)
    ensures r == FirstPattern(values, 1)
  {
    var divisor := 1;
    while divisor <= |values|
      invariant 1 <= divisor <= |values| + 1
      invariant forall p: Pattern :: p.divisor < divisor ==> !Matches(values, p)
      invariant FirstPattern(values, 1) == FirstPattern(values, divisor)
    {
      var steps := StepsFor(values, divisor);
      var ok := Fits(values, steps);
      if ok {
        return Some(steps);
      }
      forall p: Pattern | p.divisor == divisor ensures !Matches(values, p) {
        if Matches(values, p) {
          StepsAreForced(values, p);
        }
      }
      divisor := divisor + 1;
    }
    if values != [] {
      forall p: Pattern ensures !Matches(values, p) {
        if Matches(values, p) && p.divisor > |values| {
          LargeDivisors(values, p);
        }
      }
    }
    return None;
  }

  /** The first divisor from d on whose steps match, with those steps. */
  function FirstPattern(values: seq<int>, d: nat): (r: Option<Pattern>)
    requires d > 0
    ensures r.Some? ==> Matches(values, r.value)
    decreases |values| - d
  {
    if d > |values| then None
    else if Matches(values, StepsFor(values, d)) then Some(StepsFor(values, d))
    else FirstPattern(values, d + 1)
  }

  /** The runtime formula for a residue, with the chunk's offset folded into the constant. */
  function CompactBase(first: int, p: Pattern, residue: nat, offset: int): int
    requires p.divisor > 0
  {
    if p.divisor == 1 then first + offset + residue * p.outer
    else first + offset + (residue % p.divisor) * p.inner + (residue / p.divisor) * p.outer
  }

  /** The formula gives each residue the base it has in the table of residues. */
  lemma CompactIsExact(values: seq<int>, p: Pattern, residue: nat, offset: int)
    requires Matches(values, p) && residue < |values|
    ensures CompactBase(values[0], p, residue, offset) == values[residue] + offset
  {
    assert values[residue] == Along(values[0], p, residue);
    if p.divisor == 1 {
      assert residue % 1 == 0 && residue / 1 == residue;
    }
  }
}
