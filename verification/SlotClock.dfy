/**
 Slot lengths of an NR carrier and the sample clock built from them: `nr_init_frame_parms`,
 `get_samples_per_slot`, `get_slot_from_timestamp`, and the receive side of `ru_thread` with the drift
 compensation of `rx_rf`.
 */
module SlotClock {
  import opened Arith

  /** The frame parameters that `nr_init_frame_parms` derives; `unit` is the OFDM symbol size in units
      of 128 samples. */
  datatype FrameParms = FrameParms(
    mu: nat, unit: nat, slotsPerSubframe: nat, slotsPerFrame: nat,
    samplesPerSlotN0: nat, samplesPerSlot0: nat, samplesPerSubframe: nat, samplesPerFrame: nat)

  /** `set_scs_parameters` and `nr_init_frame_parms`, with 14 symbols per slot. */
  function InitFrameParms(mu: nat, unit: nat): (fp: FrameParms)
    requires mu <= 4 && 1 <= unit
    ensures Valid(fp)
  {
    var slotsPerSubframe := [1, 2, 4, 8, 16][mu];
    var ofdm := 128 * unit;
    var prefix := ofdm / 128 * 9;
    var prefix0 := ofdm / 128 * (9 + slotsPerSubframe);
    var slotN0 := (prefix + ofdm) * 14;
    var slot0 := prefix0 + 13 * prefix + 14 * ofdm;
    var subframe := (prefix0 + ofdm) * 2 + (prefix + ofdm) * (14 * slotsPerSubframe - 2);
    assert ofdm / 128 == unit;
    SubframeProduct(unit, slotsPerSubframe);
    FrameParms(mu, unit, slotsPerSubframe, 10 * slotsPerSubframe, slotN0, slot0, subframe, 10 * subframe)
  }

  /** What the derived parameters satisfy: every slot has 1918 units, the long ones 2 to the mu more,
      and a subframe 1920 units per slot. */
  ghost predicate Valid(fp: FrameParms) {
    && fp.mu <= 4 && 1 <= fp.unit
    && fp.slotsPerSubframe == [1, 2, 4, 8, 16][fp.mu]
    && fp.slotsPerFrame == 10 * fp.slotsPerSubframe
    && fp.samplesPerSlotN0 == fp.unit * 1918
    && fp.samplesPerSlot0 == fp.unit * (1918 + fp.slotsPerSubframe)
    && fp.samplesPerSubframe == fp.unit * (1920 * fp.slotsPerSubframe)
    && fp.samplesPerFrame == 10 * fp.samplesPerSubframe
  }

  lemma SubframeProduct(u: nat, k: nat)
    ensures (u * (9 + k) + 128 * u) * 2 + (u * 9 + 128 * u) * (14 * k - 2) == u * (1920 * k)
    ensures u * (9 + k) + 13 * (u * 9) + 14 * (128 * u) == u * (1918 + k)
  {
    assert u * (9 + k) == 9 * u + k * u;
    assert (137 * u) * (14 * k - 2) == 1918 * (k * u) - 274 * u;
    assert u * (1920 * k) == 1920 * (k * u);
  }

  /** C's `%`, which truncates towards zero. */
  function CMod(a: int, b: int): int
    requires 0 < b
  {
    if a >= 0 then a % b else -((-a) % b)
  }

  /** `get_samples_per_slot`; the argument may be -1. */
  function SamplesPerSlot(fp: FrameParms, slot: int): nat
    requires Valid(fp)
  {
    if fp.mu == 0 then fp.samplesPerSubframe
    else if CMod(slot, fp.slotsPerSubframe / 2) != 0 then fp.samplesPerSlotN0 else fp.samplesPerSlot0
  }

  /** Samples elapsed before the n-th slot since the start, slots being numbered within frames. */
  function Elapsed(fp: FrameParms, n: nat): nat
    requires Valid(fp)
  {
    if n == 0 then 0 else Elapsed(fp, n - 1) + SamplesPerSlot(fp, (n - 1) % fp.slotsPerFrame)
  }

  // ---- Closed form ----

  /** Every Stride-th slot is the long one. */
  function Stride(mu: nat): (p: nat)
    requires mu <= 4
    ensures 1 <= p
  {
    [1, 1, 2, 4, 8][mu]
  }

  /** Length of slot i in units of unit samples. */
  function Units(mu: nat, i: nat): nat
    requires mu <= 4
  {
    1918 + if i % Stride(mu) == 0 then 2 * Stride(mu) else 0
  }

  function ElapsedUnits(mu: nat, n: nat): nat
    requires mu <= 4
  {
    1918 * n + 2 * Stride(mu) * ((n + Stride(mu) - 1) / Stride(mu))
  }

  /** Numbering slots within a frame does not disturb the position of the long slots. */
  lemma LongSlots(mu: nat, i: nat, k: nat)
    requires 1 <= mu <= 4 && k == [1, 2, 4, 8, 16][mu]
    ensures CMod(i % (10 * k), k / 2) == 0 <==> i % Stride(mu) == 0
  {
    assert k / 2 == Stride(mu) && 10 * k == 20 * Stride(mu);
    ModMultiple(i, 20, Stride(mu), 10 * k);
  }

  lemma SlotLength(fp: FrameParms, i: nat)
    requires Valid(fp)
    ensures SamplesPerSlot(fp, i % fp.slotsPerFrame) == fp.unit * Units(fp.mu, i)
  {
    if fp.mu > 0 {
      LongSlots(fp.mu, i, fp.slotsPerSubframe);
      assert 2 * Stride(fp.mu) == fp.slotsPerSubframe;
    } else {
      assert i % Stride(0) == 0;
    }
  }

  /** The last slot and the "slot -1" that C computes before slot 0 have the same length. */
  lemma PreviousSlot(fp: FrameParms, slot: nat)
    requires Valid(fp) && slot < fp.slotsPerFrame
    ensures SamplesPerSlot(fp, CMod(slot - 1, fp.slotsPerFrame))
            == SamplesPerSlot(fp, (slot + fp.slotsPerFrame - 1) % fp.slotsPerFrame)
  {
    if slot > 0 {
      ModOnce(slot + fp.slotsPerFrame - 1, fp.slotsPerFrame);
      ModOnce(slot - 1, fp.slotsPerFrame);
    } else {
      ModOnce(fp.slotsPerFrame - 1, fp.slotsPerFrame);
      ModOnce(1, fp.slotsPerFrame);
    }
  }

  /** The length that `rx_rf` expects between slot n - 1 and slot n. */
  lemma PreviousLength(fp: FrameParms, n: nat)
    requires Valid(fp) && n > 0
    ensures SamplesPerSlot(fp, CMod(n % fp.slotsPerFrame - 1, fp.slotsPerFrame)) == Elapsed(fp, n) - Elapsed(fp, n - 1)
  {
    var m := fp.slotsPerFrame;
    DivMod(n - 1, m);
    ShiftMod(n - 1, 1, m);
    var r := (n - 1) % m;
    ModOnce(r + 1, m);
    PreviousSlot(fp, n % m);
    ModOnce(n % m + m - 1, m);
  }

  lemma UnitsStep(mu: nat, n: nat)
    requires mu <= 4
    ensures ElapsedUnits(mu, n + 1) == ElapsedUnits(mu, n) + Units(mu, n)
  {
  }

  lemma {:induction false} ElapsedClosed(fp: FrameParms, n: nat)
    requires Valid(fp)
    ensures Elapsed(fp, n) == fp.unit * ElapsedUnits(fp.mu, n)
  {
    if n > 0 {
      ElapsedClosed(fp, n - 1);
      SlotLength(fp, n - 1);
      UnitsStep(fp.mu, n - 1);
      Times(fp.unit, ElapsedUnits(fp.mu, n - 1), Units(fp.mu, n - 1), ElapsedUnits(fp.mu, n));
    } else {
      assert ElapsedUnits(fp.mu, 0) == 0;
    }
  }

  lemma TenTimes(u: nat, x: nat, y: nat)
    requires y == 10 * x && 1 <= u && 1 <= x
    ensures u * y == 10 * (u * x) && 0 < u * x
  {
    MulAtLeast(u, x);
  }

  lemma Times(u: nat, a: nat, b: nat, c: nat)
    requires c == a + b
    ensures u * c == u * a + u * b
  {
  }

  lemma FrameUnits(mu: nat, n: nat, slotsPerFrame: nat)
    requires mu <= 4 && slotsPerFrame == [10, 20, 40, 80, 160][mu]
    ensures ElapsedUnits(mu, n + slotsPerFrame) == ElapsedUnits(mu, n) + 1920 * slotsPerFrame
  {
  }

  /** The slots of one frame fill `samples_per_frame`, starting anywhere. */
  lemma FrameLength(fp: FrameParms, n: nat)
    requires Valid(fp)
    ensures Elapsed(fp, n + fp.slotsPerFrame) == Elapsed(fp, n) + fp.samplesPerFrame
    ensures 0 < fp.samplesPerFrame
  {
    ElapsedClosed(fp, n);
    ElapsedClosed(fp, n + fp.slotsPerFrame);
    FrameUnits(fp.mu, n, fp.slotsPerFrame);
    Times(fp.unit, ElapsedUnits(fp.mu, n), 1920 * fp.slotsPerFrame, ElapsedUnits(fp.mu, n + fp.slotsPerFrame));
    TenTimes(fp.unit, 1920 * fp.slotsPerSubframe, 1920 * fp.slotsPerFrame);
  }

  lemma {:induction false} ElapsedIncreases(fp: FrameParms, m: nat, n: nat)
    requires Valid(fp) && m < n
    ensures Elapsed(fp, m) < Elapsed(fp, n)
    decreases n
  {
    SlotLength(fp, n - 1);
    MulAtLeast(Units(fp.mu, n - 1), fp.unit);
    if m < n - 1 { ElapsedIncreases(fp, m, n - 1); }
  }

  /** Splitting the elapsed samples by frames splits the slot count by frames. */
  lemma {:induction false} ElapsedSplit(fp: FrameParms, n: nat)
    requires Valid(fp)
    ensures Elapsed(fp, n) / fp.samplesPerFrame == n / fp.slotsPerFrame
    ensures Elapsed(fp, n) % fp.samplesPerFrame == Elapsed(fp, n % fp.slotsPerFrame)
    decreases n
  {
    var m, f := fp.slotsPerFrame, fp.samplesPerFrame;
    FrameLength(fp, 0);
    if n < m {
      ElapsedIncreases(fp, n, m);
      ModOnce(n, m);
      DivModUnique(Elapsed(fp, n), f, 0, Elapsed(fp, n));
    } else {
      ElapsedSplit(fp, n - m);
      FrameLength(fp, n - m);
      ShiftMod(n - m, m, m);
      DivMod(n - m, m);
      ModOnce((n - m) % m + m - 1, m);
      var q := Elapsed(fp, n - m) / f;
      DivMod(Elapsed(fp, n - m), f);
      Distribute(q, 1, f);
      DivModUnique(Elapsed(fp, n), f, q + 1, Elapsed(fp, n - m) % f);
      DivMod(n - m, m);
      Distribute((n - m) / m, 1, m);
      DivModUnique(n, m, (n - m) / m + 1, (n - m) % m);
    }
  }

  /** `get_slot_from_timestamp`: the first slot starting at or after the position within the frame. */
  method GetSlotFromTimestamp(fp: FrameParms, timestamp: nat) returns (slot: nat)
    requires Valid(fp)
    ensures timestamp % fp.samplesPerFrame <= Elapsed(fp, slot) && slot <= fp.slotsPerFrame
    ensures forall i :: 0 <= i < slot ==> Elapsed(fp, i) < timestamp % fp.samplesPerFrame
  {
    FrameLength(fp, 0);
    slot := 0;
    var samplesTillTheSlot := 0;
    var position := timestamp % fp.samplesPerFrame;
    while position > samplesTillTheSlot
      invariant slot <= fp.slotsPerFrame && samplesTillTheSlot == Elapsed(fp, slot)
      invariant forall i :: 0 <= i < slot ==> Elapsed(fp, i) < position
      decreases fp.slotsPerFrame - slot
    {
      assert slot % fp.slotsPerFrame == slot by { ModOnce(slot, fp.slotsPerFrame); }
      samplesTillTheSlot := samplesTillTheSlot + SamplesPerSlot(fp, slot);
      slot := slot + 1;
    }
  }

  /** What the loop returns when the timestamp is the start of slot number n. */
  lemma SlotFromBoundary(fp: FrameParms, n: nat, position: nat, slot: nat)
    requires Valid(fp) && position == Elapsed(fp, n) % fp.samplesPerFrame
    requires position <= Elapsed(fp, slot) && forall i :: 0 <= i < slot ==> Elapsed(fp, i) < position
    ensures slot == n % fp.slotsPerFrame
  {
    ElapsedSplit(fp, n);
    DivMod(n, fp.slotsPerFrame);
    FirstAtLeast(fp, n % fp.slotsPerFrame, slot);
  }

  lemma FirstAtLeast(fp: FrameParms, r: nat, slot: nat)
    requires Valid(fp) && Elapsed(fp, r) <= Elapsed(fp, slot)
    requires forall i :: 0 <= i < slot ==> Elapsed(fp, i) < Elapsed(fp, r)
    ensures slot == r
  {
    if slot < r { ElapsedIncreases(fp, slot, r); }
  }
}
