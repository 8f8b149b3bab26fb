/**
 The eMTC repetition counters of `ocp_rx_prach`: each coverage-enhancement (CE) level counts the receptions of
 a preamble attempt and remembers the frame that opened the attempt, from which the RA-RNTI is computed.
 */
module PrachRepetition {
  import Arith

  const LEVELS := 4

  /** One CE level: whether it is enabled, and the number of repetitions of an attempt (8 bits). */
  datatype Level = Level(enabled: bool, repetitions: nat)

  /** One eMTC call: the frame, and for each level its bit in the PRACH mask. */
  datatype Call = Call(frame: nat, active: seq<bool>)

  datatype Counter = Counter(number: nat, first: nat)

  predicate Shaped(levels: seq<Level>, calls: seq<Call>) {
    |levels| == LEVELS && forall k :: 0 <= k < |calls| ==> |calls[k].active| == LEVELS
  }

  class Repetitions {
    const levels: seq<Level>
    var repetitionNumber: array<nat>
    var firstFrame: array<nat>

    ghost predicate Valid()
      reads this
    {
      && |levels| == LEVELS && repetitionNumber.Length == LEVELS && firstFrame.Length == LEVELS
      && repetitionNumber != firstFrame
    }

    ghost function At(i: nat): Counter
      requires Valid() && i < LEVELS
      reads this, repetitionNumber, firstFrame
    {
      Counter(repetitionNumber[i], firstFrame[i])
    }

    constructor (levels: seq<Level>)
      requires |levels| == LEVELS
      ensures Valid() && fresh(repetitionNumber) && fresh(firstFrame) && this.levels == levels
      ensures forall i :: 0 <= i < LEVELS ==> At(i) == Counter(0, 0)
    {
      this.levels := levels;
      repetitionNumber := new nat[LEVELS](_ => 0);
      firstFrame := new nat[LEVELS](_ => 0);
    }

    /** The br_flag branch of `ocp_rx_prach`. */
    method OcpRxPrach(c: Call)
      requires Valid() && |c.active| == LEVELS
      modifies repetitionNumber, firstFrame
      ensures forall i :: 0 <= i < LEVELS ==> At(i) == AfterCall(levels[i], old(At(i)), c, i)
      ensures forall i :: 0 <= i < LEVELS && !(levels[i].enabled && c.active[i]) ==> At(i) == old(At(i))
    {
      for i := 0 to LEVELS
        invariant forall j :: 0 <= j < i ==> At(j) == AfterCall(levels[j], old(At(j)), c, j)
        invariant forall j :: i <= j < LEVELS ==> At(j) == old(At(j))
      {
        if levels[i].enabled && c.active[i] {
          if repetitionNumber[i] == 0 {
            firstFrame[i] := c.frame;
          }
          repetitionNumber[i] := repetitionNumber[i] + 1;
          if repetitionNumber[i] == levels[i].repetitions {
            repetitionNumber[i] := 0;
          }
        }
      }
    }
  }

  // ---- The history a counter stands for ----

  predicate Receives(l: Level, c: Call, i: nat)
    requires i < |c.active|
  {
    l.enabled && c.active[i]
  }

  function AfterCall(l: Level, s: Counter, c: Call, i: nat): Counter
    requires i < |c.active|
  {
    if !Receives(l, c, i) then s
    else Counter(if s.number + 1 == l.repetitions then 0 else s.number + 1, if s.number == 0 then c.frame else s.first)
  }

  function AfterCalls(levels: seq<Level>, calls: seq<Call>, i: nat): Counter
    requires Shaped(levels, calls) && i < LEVELS
  {
    if calls == [] then Counter(0, 0)
    else AfterCall(levels[i], AfterCalls(levels, calls[..|calls| - 1], i), calls[|calls| - 1], i)
  }

  /** The frames in which level i received, in order. */
  function Frames(levels: seq<Level>, calls: seq<Call>, i: nat): seq<nat>
    requires Shaped(levels, calls) && i < LEVELS
  {
    if calls == [] then []
    else
      var last := calls[|calls| - 1];
      Frames(levels, calls[..|calls| - 1], i) + if levels[i].enabled && last.active[i] then [last.frame] else []
  }

  /** Index of the reception that opened the attempt of reception k, for attempts of n receptions. */
  function Opening(k: nat, n: nat): nat
    requires n >= 1
  {
    Arith.DivMod(k, n);
    k - k % n
  }

  ghost predicate Counts(s: Counter, n: nat, frames: seq<nat>)
    requires n >= 1
  {
    && s.number == |frames| % n
    && (frames != [] ==> s.first == frames[Opening(|frames| - 1, n)])
  }

  /** Main result: whatever the calls, the counter of a level with n repetitions is the number of
      receptions modulo n, and the stored frame is the one of the reception that opened the current attempt
      (the last one, if none is open).  So attempts hold exactly n receptions. */
  lemma {:induction false} AttemptsHaveEqualLength(levels: seq<Level>, calls: seq<Call>, i: nat)
    requires Shaped(levels, calls) && i < LEVELS && levels[i].repetitions >= 1
    ensures Counts(AfterCalls(levels, calls, i), levels[i].repetitions, Frames(levels, calls, i))
    ensures AfterCalls(levels, calls, i).number < levels[i].repetitions
  {
    var n := levels[i].repetitions;
    if calls == [] {
      Arith.DivModUnique(0, n, 0, 0);
    } else {
      var before := calls[..|calls| - 1];
      AttemptsHaveEqualLength(levels, before, i);
      var fs := Frames(levels, before, i);
      if Receives(levels[i], calls[|calls| - 1], i) {
        OneMore(AfterCalls(levels, before, i), n, fs, calls[|calls| - 1].frame);
      }
    }
  }

  lemma OneMore(s: Counter, n: nat, fs: seq<nat>, frame: nat)
    requires n >= 1 && Counts(s, n, fs) && s.number < n
    ensures var s' := Counter(if s.number + 1 == n then 0 else s.number + 1, if s.number == 0 then frame else s.first);
            Counts(s', n, fs + [frame]) && s'.number < n
  {
    NextMod(|fs|, n);
    if |fs| % n != 0 {
      NextMod(|fs| - 1, n);
    }
  }

  lemma NextMod(k: nat, n: nat)
    requires n >= 1
    ensures (k + 1) % n == if k % n + 1 == n then 0 else k % n + 1
    ensures Opening(k, n) <= k && k % n < n
  {
    Arith.DivMod(k, n);
    if k % n + 1 == n {
      Arith.DivModUnique(k + 1, n, k / n + 1, 0);
    } else {
      Arith.DivModUnique(k + 1, n, k / n, k % n + 1);
    }
  }

  /** With a configured count of zero the attempt never closes: the counter grows for ever and the frame
      stays that of the very first reception. */
  lemma {:induction false} ZeroRepetitionsNeverClose(levels: seq<Level>, calls: seq<Call>, i: nat)
    requires Shaped(levels, calls) && i < LEVELS && levels[i].repetitions == 0
    ensures var s, fs := AfterCalls(levels, calls, i), Frames(levels, calls, i);
            s.number == |fs| && (fs != [] ==> s.first == fs[0])
  {
    if calls != [] { ZeroRepetitionsNeverClose(levels, calls[..|calls| - 1], i); }
  }

  // ---- RA-RNTI of section 5.1.4 of 3GPP TS 36.321 ----

  function RaRnti(subframe: nat, firstFrame: nat): nat { 1 + subframe + 60 * (firstFrame % 40) }

  /** Within an attempt the RA-RNTI does not change: it is the same after any two receptions of one attempt. */
  lemma RntiConstantInAttempt(levels: seq<Level>, calls: seq<Call>, k: nat, i: nat, subframe: nat)
    requires Shaped(levels, calls) && i < LEVELS && levels[i].repetitions >= 1 && k <= |calls|
    requires |Frames(levels, calls[..k], i)| >= 1
    requires var n, a, b := levels[i].repetitions, |Frames(levels, calls[..k], i)|, |Frames(levels, calls, i)|;
             (a - 1) / n == (b - 1) / n
    ensures var before, after := AfterCalls(levels, calls[..k], i).first, AfterCalls(levels, calls, i).first;
            RaRnti(subframe, before) == RaRnti(subframe, after)
  {
    var n := levels[i].repetitions;
    AttemptsHaveEqualLength(levels, calls, i);
    AttemptsHaveEqualLength(levels, calls[..k], i);
    FramesGrow(levels, calls, k, i);
    var a, b := |Frames(levels, calls[..k], i)|, |Frames(levels, calls, i)|;
    SameOpening(a - 1, b - 1, n);
  }

  lemma SameOpening(a: nat, b: nat, n: nat)
    requires n >= 1 && a / n == b / n
    ensures Opening(a, n) == Opening(b, n)
  {
    Arith.DivMod(a, n);
    Arith.DivMod(b, n);
  }

  lemma {:induction false} FramesGrow(levels: seq<Level>, calls: seq<Call>, k: nat, i: nat)
    requires Shaped(levels, calls) && i < LEVELS && k <= |calls|
    ensures Frames(levels, calls[..k], i) <= Frames(levels, calls, i)
  {
    if k < |calls| {
      FramesGrow(levels, calls[..|calls| - 1], k, i);
      assert calls[..|calls| - 1][..k] == calls[..k];
    } else {
      assert calls[..k] == calls;
    }
  }

  /** Two attempts share an RA-RNTI exactly when their subframes agree and their opening frames agree modulo
      40; every value fits 16 bits. */
  lemma RntiInjective(sf1: nat, first1: nat, sf2: nat, first2: nat)
    requires sf1 < 10 && sf2 < 10
    ensures RaRnti(sf1, first1) == RaRnti(sf2, first2) <==> sf1 == sf2 && first1 % 40 == first2 % 40
    ensures 1 <= RaRnti(sf1, first1) <= 2350
  {
  }

  /** It starts at 1 and grows by 1 with the subframe and by 60 with the opening frame, which it counts modulo 40. */
  lemma RntiGrows(subframe: nat, first: nat)
    ensures RaRnti(0, 0) == 1
    ensures RaRnti(subframe + 1, first) == RaRnti(subframe, first) + 1
    ensures RaRnti(subframe, first + 1)
      == if first % 40 == 39 then RaRnti(subframe, 0) else RaRnti(subframe, first) + 60
  {
  }
}
