/**
 `ru_thread` driven by a local RF device: `rx_rf` turns whatever timestamps the device delivers into a
 gap-free slot clock, and the loop derives from it the frame, slot and timestamp to transmit on.
 */
module RuThread {
  import opened Arith
  import opened SlotClock

  /** Samples of the a slots from slot s on. */
  function Window(fp: FrameParms, s: nat, a: nat): nat
    requires Valid(fp)
  {
    if a == 0 then 0 else Window(fp, s, a - 1) + SamplesPerSlot(fp, (s + a - 1) % fp.slotsPerFrame)
  }

  /** The slot from which iteration n sums the lengths: `tti_tx` as the iteration before left it. */
  function SumStart(fp: FrameParms, slAhead: nat, n: nat): nat
    requires Valid(fp)
  {
    if n == 0 then 0 else (n - 1 + slAhead) % fp.slotsPerFrame
  }

  /** Frame and slot of a receive timestamp that starts slot n. */
  method Locate(fp: FrameParms, timestamp: nat, ghost n: nat) returns (frame: nat, slot: nat)
    requires Valid(fp) && timestamp == Elapsed(fp, n)
    ensures frame == n / fp.slotsPerFrame % 1024 && slot == n % fp.slotsPerFrame
  {
    FrameLength(fp, 0);
    ElapsedSplit(fp, n);
    frame := timestamp / (fp.samplesPerSubframe * 10) % 1024;
    slot := GetSlotFromTimestamp(fp, timestamp);
    SlotFromBoundary(fp, n, timestamp % fp.samplesPerFrame, slot);
  }

  class RadioUnit {
    const fp: FrameParms
    const slAhead: nat
    // RU_proc_t
    var timestampRx: int
    var firstRx: bool
    var frameRx: nat
    var ttiRx: nat
    var timestampTx: int
    var frameTx: nat
    var ttiTx: nat
    // RU_t
    var tsOffset: int
    // locals of ru_thread
    var frame: nat
    var slot: nat

    constructor (fp: FrameParms, slAhead: nat)
      requires Valid(fp)
      ensures this.fp == fp && this.slAhead == slAhead
      ensures AfterIterations(0) && tsOffset == 0
    {
      this.fp, this.slAhead := fp, slAhead;
      timestampRx, timestampTx, tsOffset, firstRx := 0, 0, 0, true;
      frameRx, ttiRx, frameTx, ttiTx := 0, 0, 0, 0;
      frame, slot := 1023, fp.slotsPerFrame - 1;
    }

    /** n slots were received; the loop variables stand on the last one. */
    ghost predicate AfterIterations(n: nat)
      reads this
    {
      && Valid(fp)
      && firstRx == (n == 0)
      && timestampRx == (if n == 0 then 0 else Elapsed(fp, n - 1))
      && slot == (if n == 0 then fp.slotsPerFrame - 1 else (n - 1) % fp.slotsPerFrame)
      && frame == (if n == 0 then 1023 else (n - 1) / fp.slotsPerFrame % 1024)
      && ttiTx == SumStart(fp, slAhead, n)
    }

    /** The slot in the frame and the frame that iteration n is about. */
    ghost predicate AtSlot(n: nat)
      reads this
      requires Valid(fp)
    {
      slot == n % fp.slotsPerFrame && frame == n / fp.slotsPerFrame % 1024
    }

    /** `rx_rf`, called for the n-th time with ts as the timestamp read from the device.  Neither of
        the two `exit_fun` branches is taken. */
    method RxRf(ts: int, ghost n: nat) returns (exited: bool)
      requires Valid(fp) && AtSlot(n)
      requires firstRx == (n == 0) && timestampRx == (if n == 0 then 0 else Elapsed(fp, n - 1))
      modifies this`timestampRx, this`tsOffset, this`firstRx, this`frameRx, this`ttiRx, this`frame, this`slot
      ensures !exited && !firstRx && AtSlot(n)
      ensures timestampRx == Elapsed(fp, n) && ttiRx == slot && frameRx == frame
      ensures n > 0 || old(tsOffset) == 0 ==> tsOffset == ts - timestampRx
      ensures n == 0 ==> tsOffset == ts - old(tsOffset)
    {
      exited := false;
      var oldTs := timestampRx;
      timestampRx := ts - tsOffset;
      if firstRx {
        tsOffset := timestampRx;
        timestampRx := 0;
      } else {
        PreviousLength(fp, n);
        var samplesPerSlotPrev := SamplesPerSlot(fp, CMod(slot - 1, fp.slotsPerFrame));
        if timestampRx - oldTs != samplesPerSlotPrev {
          tsOffset := tsOffset + (timestampRx - oldTs - samplesPerSlotPrev);
          timestampRx := ts - tsOffset;
        }
      }
      assert timestampRx == Elapsed(fp, n);
      frameRx, ttiRx := Locate(fp, timestampRx, n);
      if !firstRx {
        if ttiRx != slot { exited := true; }
        if frameRx != frame { exited := true; }
      } else {
        firstRx := false;
        frame := frameRx;
        slot := ttiRx;
      }
    }

    /** The sum of slot lengths that moves the receive timestamp to the transmit timestamp. */
    method LookAhead()
      requires Valid(fp)
      modifies this`timestampTx, this`frameTx, this`ttiTx
      ensures timestampTx == timestampRx + Window(fp, old(ttiTx), slAhead)
      ensures frameTx == TxFrame(fp, slAhead, frameRx, ttiRx)
      ensures ttiTx == (ttiRx + slAhead) % fp.slotsPerFrame
    {
      timestampTx := timestampRx;
      var sl := ttiTx;
      for slidx := 0 to slAhead
        invariant timestampTx == timestampRx + Window(fp, sl, slidx)
        invariant sl == old(ttiTx) && ttiTx == sl
      {
        timestampTx := timestampTx + SamplesPerSlot(fp, (sl + slidx) % fp.slotsPerFrame);
      }
      frameTx := TxFrame(fp, slAhead, frameRx, ttiRx);
      ttiTx := (ttiRx + slAhead) % fp.slotsPerFrame;
    }

    /** One round of the loop of `ru_thread`, the n-th one, with the timestamp the device delivers. */
    method Iterate(ts: int, ghost n: nat) returns (exited: bool)
      requires AfterIterations(n)
      modifies this
      ensures !exited && AfterIterations(n + 1)
      ensures timestampRx == Elapsed(fp, n) && ttiRx == n % fp.slotsPerFrame && frameRx == n / fp.slotsPerFrame % 1024
      ensures n > 0 || old(tsOffset) == 0 ==> tsOffset == ts - timestampRx
      ensures timestampTx == timestampRx + Window(fp, SumStart(fp, slAhead, n), slAhead)
      ensures frameTx == TxFrame(fp, slAhead, frameRx, ttiRx) && ttiTx == (n + slAhead) % fp.slotsPerFrame
    {
      CountersStep(n, fp.slotsPerFrame);
      if slot == fp.slotsPerFrame - 1 {
        slot := 0;
        frame := (frame + 1) % 1024;
      } else {
        slot := slot + 1;
      }
      exited := RxRf(ts, n);
      LookAhead();
      ShiftMod(n, slAhead, fp.slotsPerFrame);
    }

    /** Any number of rounds on any timestamps: the loop never exits, and its clock is the slot clock. */
    method Run(stamps: seq<int>) returns (exited: bool)
      requires AfterIterations(0) && tsOffset == 0
      modifies this
      ensures !exited && AfterIterations(|stamps|)
      ensures stamps != [] ==>
                var n := |stamps| - 1;
                && timestampRx == Elapsed(fp, n) && tsOffset == stamps[n] - Elapsed(fp, n)
                && ttiRx == slot == n % fp.slotsPerFrame && frameRx == frame == n / fp.slotsPerFrame % 1024
    {
      exited := false;
      for n := 0 to |stamps|
        invariant !exited && AfterIterations(n)
        invariant n == 0 ==> tsOffset == 0
        invariant n > 0 ==>
                    && timestampRx == Elapsed(fp, n - 1) && tsOffset == stamps[n - 1] - Elapsed(fp, n - 1)
                    && ttiRx == slot && frameRx == frame
      {
        exited := Iterate(stamps[n], n);
      }
    }
  }

  /** The counters of ru_thread, starting on the last slot of frame 1023, count slots. */
  lemma CountersStep(n: nat, m: nat)
    requires 0 < m
    ensures n > 0 ==> n % m == (if (n - 1) % m == m - 1 then 0 else (n - 1) % m + 1)
    ensures n > 0 ==> n / m == (n - 1) / m + (if (n - 1) % m == m - 1 then 1 else 0)
    ensures n == 0 ==> n % m == 0 && n / m == 0
  {
    if n > 0 {
      DivMod(n - 1, m);
      ShiftMod(n - 1, 1, m);
      ModOnce((n - 1) % m + 1, m);
    } else {
      ModOnce(0, m);
    }
  }

  // ---- Frame and slot to transmit on ----

  function TxFrame(fp: FrameParms, slAhead: nat, frameRx: nat, ttiRx: nat): nat {
    if ttiRx > fp.slotsPerFrame - 1 - slAhead then (frameRx + 1) % 1024 else frameRx
  }

  /** With a look-ahead of at most one frame, iteration n transmits on slot n + slAhead. */
  lemma TxSlotAdvances(fp: FrameParms, a: nat, n: nat)
    requires Valid(fp) && a <= fp.slotsPerFrame
    ensures var m := fp.slotsPerFrame;
            TxFrame(fp, a, n / m % 1024, n % m) == (n + a) / m % 1024
  {
    var m := fp.slotsPerFrame;
    DivMod(n, m);
    ShiftMod(n, a, m);
    ModOnce(n % m + a, m);
    assert (n / m % 1024 + 1) % 1024 == (n / m + 1) % 1024;
  }

  /** Beyond one frame (and below the 1024 frames after which numbers repeat) it does not: the bound
      is exact. */
  lemma TxSlotExactly(fp: FrameParms, a: nat)
    requires Valid(fp) && a < 1024 * fp.slotsPerFrame
    ensures a <= fp.slotsPerFrame <==>
            forall n: nat :: var m := fp.slotsPerFrame; TxFrame(fp, a, n / m % 1024, n % m) == (n + a) / m % 1024
  {
    var m := fp.slotsPerFrame;
    if a <= m {
      forall n: nat ensures TxFrame(fp, a, n / m % 1024, n % m) == (n + a) / m % 1024 { TxSlotAdvances(fp, a, n); }
    } else {
      var n := m - 1;
      ModOnce(n, m);
      assert 2 <= (n + a) / m <= 1024;
      assert TxFrame(fp, a, n / m % 1024, n % m) != (n + a) / m % 1024;
    }
  }

  // ---- Timestamp to transmit on ----

  lemma {:induction false} WindowIsDifference(fp: FrameParms, s: nat, a: nat)
    requires Valid(fp)
    ensures Window(fp, s, a) == Elapsed(fp, s + a) - Elapsed(fp, s)
  {
    if a > 0 { WindowIsDifference(fp, s, a - 1); }
  }

  lemma {:induction false} WindowByResidue(fp: FrameParms, s: nat, a: nat)
    requires Valid(fp)
    ensures Window(fp, s % fp.slotsPerFrame, a) == Window(fp, s, a)
  {
    if a > 0 {
      WindowByResidue(fp, s, a - 1);
      ShiftMod(s, a - 1, fp.slotsPerFrame);
    }
  }

  /** The timestamp iteration n computes, and the one at which slot n + slAhead really starts. */
  function ComputedTxTimestamp(fp: FrameParms, a: nat, n: nat): nat
    requires Valid(fp)
  {
    Elapsed(fp, n) + Window(fp, SumStart(fp, a, n), a)
  }

  function CeilDiv(x: nat, p: nat): nat
    requires 0 < p
  {
    (x + p - 1) / p
  }

  /** Long slots among the a slots from s on, every p-th slot being long. */
  function LongIn(p: nat, s: nat, a: nat): int
    requires 0 < p
  {
    CeilDiv(s + a, p) - CeilDiv(s, p)
  }

  lemma MulDifference(u: int, x: int, y: int)
    ensures u * x - u * y == u * (x - y)
  {
  }

  lemma WindowUnits(fp: FrameParms, s: nat, a: nat)
    requires Valid(fp)
    ensures Window(fp, s, a) == fp.unit * (1918 * a + 2 * Stride(fp.mu) * LongIn(Stride(fp.mu), s, a))
  {
    WindowIsDifference(fp, s, a);
    ElapsedClosed(fp, s);
    ElapsedClosed(fp, s + a);
    MulDifference(fp.unit, ElapsedUnits(fp.mu, s + a), ElapsedUnits(fp.mu, s));
    UnitsDifference(fp.mu, s, a);
  }

  lemma UnitsDifference(mu: nat, s: nat, a: nat)
    requires mu <= 4
    ensures ElapsedUnits(mu, s + a) - ElapsedUnits(mu, s) == 1918 * a + 2 * Stride(mu) * LongIn(Stride(mu), s, a)
  {
    MulDifference(2 * Stride(mu), CeilDiv(s + a, Stride(mu)), CeilDiv(s, Stride(mu)));
  }

  /** Two windows of the same size have the same length exactly when they hold as many long slots. */
  lemma SameWindow(fp: FrameParms, s: nat, t: nat, a: nat)
    requires Valid(fp)
    ensures Window(fp, s, a) == Window(fp, t, a) <==> LongIn(Stride(fp.mu), s, a) == LongIn(Stride(fp.mu), t, a)
  {
    WindowUnits(fp, s, a);
    WindowUnits(fp, t, a);
    AffineInjective(fp.unit, 1918 * a, 2 * Stride(fp.mu), LongIn(Stride(fp.mu), s, a), LongIn(Stride(fp.mu), t, a));
  }

  lemma AffineInjective(u: nat, c: int, p: nat, x: int, y: int)
    requires 0 < u && 0 < p
    ensures u * (c + p * x) == u * (c + p * y) <==> x == y
  {
    MulDifference(u, c + p * x, c + p * y);
    MulDifference(p, x, y);
    var d := p * (x - y);
    assert u * (c + p * x) - u * (c + p * y) == d * u;
    if x != y {
      MulAtLeast(x - y, p);
      MulAtLeast(d, u);
    }
  }

  lemma CeilShift(x: nat, q: nat, p: nat)
    requires 0 < p
    ensures CeilDiv(q * p + x, p) == q + CeilDiv(x, p)
  {
    DivMod(x + p - 1, p);
    Distribute(q, CeilDiv(x, p), p);
    DivModUnique(q * p + x + p - 1, p, q + CeilDiv(x, p), (x + p - 1) % p);
  }

  lemma CeilSmall(x: nat, p: nat)
    requires 1 <= x <= 2 * p
    ensures CeilDiv(x, p) == if x <= p then 1 else 2
  {
    if x <= p { DivModUnique(x + p - 1, p, 1, x - 1); } else { DivModUnique(x + p - 1, p, 2, x - p - 1); }
  }

  /** A window of q full periods and r slots holds q long slots and those among the r slots. */
  lemma LongByRemainder(p: nat, s: nat, k: nat, q: nat, r: nat)
    requires 0 < p
    ensures LongIn(p, k * p + s, q * p + r) == q + CeilDiv(s + r, p) - CeilDiv(s, p)
  {
    Distribute(k, q, p);
    CeilShift(s + r, k + q, p);
    CeilShift(s, k, p);
  }

  lemma SameLongCount(p: nat, a: nat, n: nat)
    requires 0 < p && n > 0 && a % p <= 1
    ensures LongIn(p, n - 1 + a, a) == LongIn(p, n, a)
  {
    DivMod(a, p);
    var q, r := a / p, a % p;
    LongByRemainder(p, n, 0, q, r);
    LongByRemainder(p, n - 1 + r, q, q, r);
  }

  lemma DifferentLongCount(p: nat, a: nat) returns (n: nat)
    requires 0 < p && a % p > 1
    ensures n > 0 && LongIn(p, n - 1 + a, a) != LongIn(p, n, a)
  {
    DivMod(a, p);
    var q, r := a / p, a % p;
    if 2 * r - 1 >= p {
      n := 1;
      CeilSmall(2 * r, p); CeilSmall(r, p); CeilSmall(1 + r, p); CeilSmall(1, p);
    } else {
      n := p;
      CeilSmall(p - 1 + 2 * r, p); CeilSmall(p - 1 + r, p); CeilSmall(p + r, p); CeilSmall(p, p);
    }
    LongByRemainder(p, n, 0, q, r);
    LongByRemainder(p, n - 1 + r, q, q, r);
  }

  /** The transmit timestamp is right in every iteration exactly when slAhead leaves remainder 0 or 1
      by the distance of the long slots.  For 15 and 30 kHz spacing (distance 1) and 60 kHz (distance
      2) that is always so; for 120 and 240 kHz it is not (a look-ahead of 6, for instance). */
  lemma TxTimestampExactly(fp: FrameParms, a: nat)
    requires Valid(fp)
    ensures a % Stride(fp.mu) <= 1 <==>
            forall n: nat :: ComputedTxTimestamp(fp, a, n) == Elapsed(fp, n + a)
  {
    if a % Stride(fp.mu) <= 1 {
      forall n: nat ensures ComputedTxTimestamp(fp, a, n) == Elapsed(fp, n + a) {
        WindowIsDifference(fp, n, a);
        if n > 0 {
          WindowByResidue(fp, n - 1 + a, a);
          SameWindow(fp, n - 1 + a, n, a);
          SameLongCount(Stride(fp.mu), a, n);
        }
      }
    } else {
      var n := DifferentLongCount(Stride(fp.mu), a);
      WindowIsDifference(fp, n, a);
      WindowByResidue(fp, n - 1 + a, a);
      SameWindow(fp, n - 1 + a, n, a);
      assert ComputedTxTimestamp(fp, a, n) != Elapsed(fp, n + a);
    }
  }
}
