/**
 The PRACH noise floor of the eNB: `prach_procedures_ocp` and `prach_eNB_fromsplit` filter the average
 preamble energy in fixed point whenever they do not detect a preamble, and initiate random access
 only after 100 such updates.
 */
module PrachNoise {

  const WARM_UP := 100
  const MAX_ENERGY := 0xFFFF

  /** The filter: both products are shifted right by 10, which rounds towards minus infinity. */
  function Filter(i0: int, avg: int): int { i0 * 900 / 1024 + avg * 124 / 1024 }

  /** One call: the br_flag branch never updates; the other one initiates random access or updates. */
  datatype Call = Call(br: bool, levelEnabled: bool, energy: int, avg: int, threshold: int)

  datatype Noise = Noise(i0: int, counter: nat)

  predicate Initiates(s: Noise, c: Call) {
    (c.br ==> c.levelEnabled) && s.counter == WARM_UP && c.energy > s.i0 + c.threshold
  }

  predicate Updates(s: Noise, c: Call) { !c.br && !Initiates(s, c) }

  function Next(s: Noise, c: Call): Noise {
    if Updates(s, c) then Noise(Filter(s.i0, c.avg), if s.counter < WARM_UP then s.counter + 1 else s.counter) else s
  }

  class PrachDetector {
    var prachI0: int
    var prachEnergyCounter: nat

    constructor ()
      ensures State() == Noise(0, 0)
    {
      prachI0, prachEnergyCounter := 0, 0;
    }

    function State(): Noise
      reads this
    {
      Noise(prachI0, prachEnergyCounter)
    }

    /** The decision at the end of `prach_procedures_ocp`. */
    method PrachProcedures(c: Call) returns (initiated: bool)
      modifies this
      ensures State() == Next(old(State()), c)
      ensures initiated <==> Initiates(old(State()), c)
      ensures initiated || c.br ==> State() == old(State())
    {
      initiated := false;
      if c.br {
        if c.levelEnabled {
          if prachEnergyCounter == WARM_UP && c.energy > prachI0 + c.threshold {
            initiated := true;
          }
        }
      } else if prachEnergyCounter == WARM_UP && c.energy > prachI0 + c.threshold {
        initiated := true;
      } else {
        prachI0 := prachI0 * 900 / 1024 + c.avg * 124 / 1024;
        if prachEnergyCounter < WARM_UP {
          prachEnergyCounter := prachEnergyCounter + 1;
        }
      }
    }
  }

  // ---- Whole runs ----

  function Run(s: Noise, calls: seq<Call>): Noise {
    if calls == [] then s else Next(Run(s, calls[..|calls| - 1]), calls[|calls| - 1])
  }

  /** Number of calls that updated the filter. */
  function UpdateCount(s: Noise, calls: seq<Call>): nat {
    if calls == [] then 0
    else
      var init := calls[..|calls| - 1];
      UpdateCount(s, init) + if Updates(Run(s, init), calls[|calls| - 1]) then 1 else 0
  }

  /** The counter is the number of updates, stopping at 100. */
  lemma {:induction false} CounterCounts(calls: seq<Call>)
    ensures var n := UpdateCount(Noise(0, 0), calls);
            Run(Noise(0, 0), calls).counter == if n < WARM_UP then n else WARM_UP
  {
    if calls != [] { CounterCounts(calls[..|calls| - 1]); }
  }

  /** Number of calls outside the br_flag branch. */
  function OrdinaryCount(calls: seq<Call>): nat {
    if calls == [] then 0
    else OrdinaryCount(calls[..|calls| - 1]) + if calls[|calls| - 1].br then 0 else 1
  }

  /** Whatever the energies, the first 100 ordinary calls are the warm-up: each of them updates the filter, and calls
      with br_flag count for nothing. */
  lemma {:induction false} WarmUpLength(calls: seq<Call>)
    ensures var n := OrdinaryCount(calls);
            && Run(Noise(0, 0), calls).counter == (if n < WARM_UP then n else WARM_UP)
            && (n <= WARM_UP ==> UpdateCount(Noise(0, 0), calls) == n)
  {
    if calls != [] { WarmUpLength(calls[..|calls| - 1]); }
  }

  /** No random access is initiated before 100 updates, whatever the energies. */
  lemma WarmUpFirst(calls: seq<Call>, c: Call)
    requires Initiates(Run(Noise(0, 0), calls), c)
    ensures UpdateCount(Noise(0, 0), calls) >= WARM_UP
  {
    CounterCounts(calls);
  }

  // ---- Bounds ----

  /** The filter stays between 0 and the larger of its two inputs, so no product overflows 32 bits. */
  lemma FilterBounded(i0: int, avg: int, bound: int)
    requires 0 <= i0 <= bound && 0 <= avg <= bound
    ensures 0 <= Filter(i0, avg) <= bound
    ensures bound <= MAX_ENERGY ==> i0 * 900 < 0x8000_0000 && avg * 124 < 0x8000_0000
  {
  }

  ghost predicate AveragesBelow(calls: seq<Call>, bound: int) {
    forall k :: 0 <= k < |calls| ==> 0 <= calls[k].avg <= bound
  }

  /** The noise floor never exceeds the maximum of its start value and all averages fed to it. */
  lemma {:induction false} NeverAboveAverages(s: Noise, calls: seq<Call>, bound: int)
    requires 0 <= s.i0 <= bound && AveragesBelow(calls, bound)
    ensures 0 <= Run(s, calls).i0 <= bound
  {
    if calls != [] {
      var n := |calls| - 1;
      NeverAboveAverages(s, calls[..n], bound);
      FilterBounded(Run(s, calls[..n]).i0, calls[n].avg, bound);
    }
  }

  // ---- Convergence for a constant average ----

  function Iterate(x: int, a: int, n: nat): int {
    if n == 0 then x else Filter(Iterate(x, a, n - 1), a)
  }

  /** One update shrinks the distance to the average by the factor 900/1024, up to rounding. */
  lemma Contracts(x: int, a: int)
    ensures var y, y' := x - a, Filter(x, a) - a; 900 * y - 2046 <= 1024 * y' <= 900 * y
  {
  }

  /** Bound on the distance after 6 k updates: up is the one from above, down the one from below. */
  function Up(k: nat): nat { if k == 0 then MAX_ENERGY else Up(k - 1) / 2 }

  function Down(k: nat): nat { if k == 0 then MAX_ENERGY else Down(k - 1) / 2 + 9 }

  lemma {:induction false} AfterSixTimes(x: int, a: int, k: nat)
    requires -MAX_ENERGY <= x - a <= MAX_ENERGY
    ensures -(Down(k) as int) <= Iterate(x, a, 6 * k) - a <= Up(k)
  {
    if k > 0 {
      AfterSixTimes(x, a, k - 1);
      SixUpdates(x, a, 6 * (k - 1), Up(k - 1), Down(k - 1));
    }
  }

  ghost predicate Shrinks(y: int, y': int) { 900 * y - 2046 <= 1024 * y' <= 900 * y }

  lemma SixShrinks(y0: int, y1: int, y2: int, y3: int, y4: int, y5: int, y6: int, b: nat)
    requires Shrinks(y0, y1) && Shrinks(y1, y2) && Shrinks(y2, y3)
    requires Shrinks(y3, y4) && Shrinks(y4, y5) && Shrinks(y5, y6)
    ensures y0 <= b ==> y6 <= b / 2
    ensures y0 >= -(b as int) ==> y6 >= -(b as int / 2) - 9
  {
  }

  function Distance(x: int, a: int, n: nat): int { Iterate(x, a, n) - a }

  lemma UpdateShrinks(x: int, a: int, n: nat)
    ensures Shrinks(Distance(x, a, n), Distance(x, a, n + 1))
  {
    Contracts(Iterate(x, a, n), a);
  }

  /** Six updates halve the distance: exactly from above, up to 9 from below. */
  lemma SixUpdates(x: int, a: int, n: nat, up: nat, down: nat)
    requires -(down as int) <= Distance(x, a, n) <= up
    ensures -(down as int / 2) - 9 <= Distance(x, a, n + 6) <= up / 2
  {
    var y0, y1, y2, y3 := Distance(x, a, n), Distance(x, a, n + 1), Distance(x, a, n + 2), Distance(x, a, n + 3);
    var y4, y5, y6 := Distance(x, a, n + 4), Distance(x, a, n + 5), Distance(x, a, n + 6);
    UpdateShrinks(x, a, n);
    UpdateShrinks(x, a, n + 1);
    UpdateShrinks(x, a, n + 2);
    UpdateShrinks(x, a, n + 3);
    UpdateShrinks(x, a, n + 4);
    UpdateShrinks(x, a, n + 5);
    SixShrinks(y0, y1, y2, y3, y4, y5, y6, up);
    SixShrinks(y0, y1, y2, y3, y4, y5, y6, down);
  }

  /** The interval [a - 16, a] is never left again. */
  lemma {:induction false} StaysConverged(x: int, a: int, m: nat, n: nat)
    requires m <= n && a - 16 <= Iterate(x, a, m) <= a
    ensures a - 16 <= Iterate(x, a, n) <= a
    decreases n - m
  {
    if m < n {
      StaysConverged(x, a, m, n - 1);
      Contracts(Iterate(x, a, n - 1), a);
    }
  }

  /** Main result: from any 16-bit start value, 100 updates with a constant 16-bit average bring the
      noise floor into [a - 16, a], where it stays.  So it has settled when random access may first be
      initiated. */
  lemma ConvergesDuringWarmUp(x: int, a: int, n: nat)
    requires 0 <= x <= MAX_ENERGY && 0 <= a <= MAX_ENERGY && n >= WARM_UP
    ensures a - 16 <= Iterate(x, a, n) <= a
  {
    AfterSixTimes(x, a, 16);
    SixteenHalvings();
    LastUpdates(x, a, 96);
    StaysConverged(x, a, WARM_UP, n);
  }

  lemma LastUpdates(x: int, a: int, n: nat)
    requires -18 <= Iterate(x, a, n) - a <= 0
    ensures -16 <= Iterate(x, a, n + 4) - a <= 0
  {
    OneCloser(x, a, n, 18);
    OneCloser(x, a, n + 1, 17);
    StaysConverged(x, a, n + 2, n + 4);
  }

  lemma OneCloser(x: int, a: int, n: nat, d: int)
    requires 17 <= d <= 18 && -d <= Iterate(x, a, n) - a <= 0
    ensures -(d - 1) <= Iterate(x, a, n + 1) - a <= 0
  {
    Contracts(Iterate(x, a, n), a);
  }

  lemma SixteenHalvings()
    ensures Up(16) == 0 && Down(16) <= 18
  {
    assert Up(4) == 4095 && Down(4) == 4112;
    assert Up(8) == 255 && Down(8) == 273;
    assert Up(12) == 15 && Down(12) == 33;
  }

  /** Runs with a constant average iterate the filter. */
  lemma {:induction false} RunIterates(x: int, calls: seq<Call>, a: int)
    requires forall k :: 0 <= k < |calls| ==> calls[k].avg == a
    ensures Run(Noise(x, 0), calls).i0 == Iterate(x, a, UpdateCount(Noise(x, 0), calls))
  {
    if calls != [] { RunIterates(x, calls[..|calls| - 1], a); }
  }

  /** Whoever initiates random access under a constant average has an energy above that average by more
      than the threshold less 16. */
  lemma DetectionAboveNoise(calls: seq<Call>, c: Call, a: int)
    requires 0 <= a <= MAX_ENERGY && forall k :: 0 <= k < |calls| ==> calls[k].avg == a
    requires Initiates(Run(Noise(0, 0), calls), c)
    ensures c.energy > a - 16 + c.threshold
  {
    WarmUpFirst(calls, c);
    RunIterates(0, calls, a);
    ConvergesDuringWarmUp(0, a, UpdateCount(Noise(0, 0), calls));
  }

  /** Conversely, after 100 ordinary calls with a constant average, every energy above that average by more than the
      threshold initiates random access, in the br_flag branch provided that level 0 is enabled. */
  lemma DetectsAboveAverage(calls: seq<Call>, c: Call, a: int)
    requires 0 <= a <= MAX_ENERGY && forall k :: 0 <= k < |calls| ==> calls[k].avg == a
    requires OrdinaryCount(calls) >= WARM_UP
    requires c.energy > a + c.threshold && (c.br ==> c.levelEnabled)
    ensures Initiates(Run(Noise(0, 0), calls), c)
  {
    WarmUpLength(calls);
    CounterCounts(calls);
    RunIterates(0, calls, a);
    ConvergesDuringWarmUp(0, a, UpdateCount(Noise(0, 0), calls));
  }

  // ---- The band is no wider than it must be ----

  lemma {:induction false} BelowFixedPoint(x: int, a: int, p: int, n: nat)
    requires x <= p && Filter(p, a) == p
    ensures Iterate(x, a, n) <= p
  {
    if n > 0 {
      BelowFixedPoint(x, a, p, n - 1);
      FilterGrows(Iterate(x, a, n - 1), p, a);
    }
  }

  lemma FilterGrows(x: int, y: int, a: int)
    requires x <= y
    ensures Filter(x, a) <= Filter(y, a)
  {
  }

  /** Averages that leave the noise floor at the lower end of the band: each of the two products is rounded down on its
      own.  33 is one. */
  predicate LowerEnd(a: int) { 16 <= a <= MAX_ENERGY && Filter(a - 16, a) == a - 16 }

  lemma SomeLowerEnd()
    ensures LowerEnd(33)
  {
  }

  lemma BandAttained(a: int, n: nat)
    requires LowerEnd(a) && n >= WARM_UP
    ensures Iterate(0, a, n) == a - 16
  {
    ConvergesDuringWarmUp(0, a, n);
    BelowFixedPoint(0, a, a - 16, n);
  }

  /** There the bound of `DetectionAboveNoise` is exact: what is more than the threshold less 16 above the average is
      taken for a preamble. */
  lemma DetectsAtLowerEnd(calls: seq<Call>, c: Call, a: int)
    requires LowerEnd(a) && forall k :: 0 <= k < |calls| ==> calls[k].avg == a
    requires OrdinaryCount(calls) >= WARM_UP && (c.br ==> c.levelEnabled)
    ensures Initiates(Run(Noise(0, 0), calls), c) <==> c.energy > a - 16 + c.threshold
  {
    WarmUpLength(calls);
    CounterCounts(calls);
    RunIterates(0, calls, a);
    BandAttained(a, UpdateCount(Noise(0, 0), calls));
  }
}
