/**
 The order in which the gNB is supposed to transmit slots.

 `ru_thread` hands slot after slot to `rx_func`; every slot that is downlink or mixed (and, with
 continuous TX, every slot) yields one L1 TX job.  `get_next_downlink_slot` predicts the number of
 the next such slot.  This module relates the two: the predicted number is the number of the next
 job of the schedule, for every frame-periodic slot pattern.
 */
module TxSchedule {
  import opened Arith
  import P = TxPipeline

  /** `downlink[s]` tells whether slot s of every frame is downlink or mixed; `stamps(t)` is the
      `timestamp_tx` that `ru_thread` attached to absolute TX slot t. */
  datatype Config = Config(slotsPerFrame: nat, downlink: seq<bool>, continuous: bool, slAhead: nat, stamps: nat -> int)

  ghost predicate Valid(c: Config) {
    && 0 < c.slotsPerFrame == |c.downlink|
    && exists i :: 0 <= i < c.slotsPerFrame && Sends(c, i)
  }

  /** At least two slots of a frame are transmitted. */
  ghost predicate TwoSlots(c: Config) {
    && 0 < c.slotsPerFrame == |c.downlink|
    && exists i, j :: 0 <= i < j < c.slotsPerFrame && Sends(c, i) && Sends(c, j)
  }

  predicate IsDownlink(c: Config, t: nat)
    requires 0 < c.slotsPerFrame == |c.downlink|
  {
    c.downlink[t % c.slotsPerFrame]
  }

  predicate Sends(c: Config, t: nat)
    requires 0 < c.slotsPerFrame == |c.downlink|
  {
    c.continuous || IsDownlink(c, t)
  }

  function JobAt(c: Config, t: nat): P.Job
    requires 0 < c.slotsPerFrame
  {
    P.Job((t / c.slotsPerFrame) % 1024, t % c.slotsPerFrame, c.stamps(t))
  }

  /** The slot number expected after slot s: the first transmitted one at distance 1, 2, ... */
  function NextSlot(c: Config, s: nat): nat
    requires 0 < c.slotsPerFrame == |c.downlink|
  {
    NextSlotFrom(c, s, 1)
  }

  function NextSlotFrom(c: Config, s: nat, d: nat): nat
    requires 0 < c.slotsPerFrame == |c.downlink|
    decreases c.slotsPerFrame - d
  {
    if d >= c.slotsPerFrame || Sends(c, s + d) then (s + d) % c.slotsPerFrame else NextSlotFrom(c, s, d + 1)
  }

  /** The first transmitted slot after t is d later. */
  ghost predicate FirstAfter(c: Config, t: nat, d: nat)
    requires 0 < c.slotsPerFrame == |c.downlink|
  {
    1 <= d <= c.slotsPerFrame && Sends(c, t + d) && forall x :: t < x < t + d ==> !Sends(c, x)
  }

  lemma SendsByResidue(c: Config, t: nat, u: nat)
    requires 0 < c.slotsPerFrame == |c.downlink| && t % c.slotsPerFrame == u % c.slotsPerFrame
    ensures Sends(c, t) == Sends(c, u)
  {
  }

  /** Every window of one frame contains a transmitted slot. */
  lemma WithinFrame(c: Config, t: nat, w: nat) returns (e: nat)
    requires 0 < c.slotsPerFrame == |c.downlink| && w < c.slotsPerFrame && Sends(c, w)
    ensures 1 <= e <= c.slotsPerFrame && Sends(c, t + e) && (t + e) % c.slotsPerFrame == w
    ensures t % c.slotsPerFrame != w ==> e < c.slotsPerFrame
  {
    var m := c.slotsPerFrame;
    DivMod(t, m);
    var r := t % m;
    e := if r < w then w - r else w - r + m;
    ShiftMod(t, e, m);
    ModOnce(r + e, m);
    ModOnce(w, m);
    SendsByResidue(c, t + e, w);
  }

  /** `NextSlot` of the number of t is the number of the first transmitted slot after t. */
  lemma {:induction false} NextSlotIsFirst(c: Config, t: nat, e: nat, d: nat)
    requires 0 < c.slotsPerFrame == |c.downlink| && FirstAfter(c, t, d) && 1 <= e <= d
    ensures NextSlotFrom(c, t % c.slotsPerFrame, e) == (t + d) % c.slotsPerFrame
    decreases d - e
  {
    var m := c.slotsPerFrame;
    DivMod(t, m);
    ShiftMod(t, e, m);
    SendsByResidue(c, t % m + e, t + e);
    if e < d {
      assert !Sends(c, t + e);
      NextSlotIsFirst(c, t, e + 1, d);
    }
  }

  lemma NextCounters(t: nat, m: nat)
    requires 0 < m
    ensures (t + 1) % m == (t % m + 1) % m < m && (t + 1) / m == t / m + (t % m + 1) / m
    ensures (t % m + 1) / m == if t % m + 1 < m then 0 else 1
  {
    DivMod(t, m);
    ShiftMod(t, 1, m);
    ModOnce(t % m + 1, m);
  }

  /** `get_next_downlink_slot`, with the frame counter whose bound the source asserts. */
  method GetNextDownlinkSlot(c: Config, nrFrame: nat, nrSlot: nat) returns (slot: nat)
    requires Valid(c) && !c.continuous && nrSlot < c.slotsPerFrame
    ensures slot == NextSlot(c, nrSlot)
    ensures exists d :: FirstAfter(c, nrSlot, d) && slot == (nrSlot + d) % c.slotsPerFrame
  {
    slot := nrSlot;
    var frame := nrFrame;
    ghost var m := c.slotsPerFrame;
    ghost var d := 0;
    ghost var w :| 0 <= w < m && Sends(c, w);
    ghost var bound := WithinFrame(c, nrSlot, w);
    ModOnce(nrSlot, m);
    while true
      invariant d < bound && slot < m
      invariant slot == (nrSlot + d) % m && frame == nrFrame + (nrSlot + d) / m
      invariant forall x :: nrSlot < x <= nrSlot + d ==> !Sends(c, x)
      decreases m - d
    {
      NextCounters(nrSlot + d, m);
      d := d + 1;
      slot := slot + 1;
      if slot / c.slotsPerFrame != 0 { frame := frame + 1; }
      slot := slot % c.slotsPerFrame;
      ModOnce(slot, m);
      SendsByResidue(c, nrSlot + d, slot);
      if IsDownlink(c, slot) {
        assert FirstAfter(c, nrSlot, d);
        NextSlotIsFirst(c, nrSlot, 1, d);
        return;
      }
      ModOnce(nrSlot + d, m);
      assert frame < nrFrame + 2;  // the AssertFatal of the source
    }
  }

  /** The predicted slot number differs from the current one exactly when a frame has a second
      transmitted slot. */
  lemma NextSlotDiffers(c: Config, s: nat)
    requires Valid(c) && s < c.slotsPerFrame && Sends(c, s)
    ensures NextSlot(c, s) != s <==> TwoSlots(c)
  {
    var m := c.slotsPerFrame;
    var d := WithinFrame(c, s, s);
    ghost var f := First(c, s, 1, d);
    NextSlotIsFirst(c, s, 1, f);
    ModOnce(s, m);
    ModOnce(s + f, m);
    if f < m {
      var o := (s + f) % m;
      ModOnce(o, m);
      SendsByResidue(c, s + f, o);
      assert Sends(c, if o < s then o else s) && Sends(c, if o < s then s else o);
    }
    if TwoSlots(c) {
      var i, j :| 0 <= i < j < m && Sends(c, i) && Sends(c, j);
      var e := WithinFrame(c, s, if i == s then j else i);
      assert f <= e < m;
    }
  }

  /** The first transmitted slot after t, found from distance e on. */
  lemma {:induction false} First(c: Config, t: nat, e: nat, d: nat) returns (f: nat)
    requires 0 < c.slotsPerFrame == |c.downlink| && 1 <= e <= d <= c.slotsPerFrame && Sends(c, t + d)
    requires forall x :: t < x < t + e ==> !Sends(c, x)
    ensures FirstAfter(c, t, f)
    decreases d - e
  {
    if Sends(c, t + e) { f := e; } else { f := First(c, t, e + 1, d); }
  }

  // ---- The pipeline fed with this schedule ----

  /** What the pipeline sees of a configuration: slot n of `ru_thread` is TX slot n + slAhead. */
  function EnvOf(c: Config): P.Env
    requires 0 < c.slotsPerFrame == |c.downlink|
  {
    P.Env((n: nat) => IsDownlink(c, c.slAhead + n), c.continuous,
          (n: nat) => JobAt(c, c.slAhead + n),
          (s: nat) => NextSlot(c, s))
  }

  /** Position of the last transmitted slot among the first n handed over. */
  lemma {:induction false} LastOfSchedule(c: Config, n: nat) returns (t: nat)
    requires Valid(c) && P.Schedule(EnvOf(c), n) != []
    ensures c.slAhead <= t < c.slAhead + n && Sends(c, t)
    ensures P.Schedule(EnvOf(c), n)[|P.Schedule(EnvOf(c), n)| - 1] == JobAt(c, t)
    ensures forall x :: t < x < c.slAhead + n ==> !Sends(c, x)
  {
    t := c.slAhead + n - 1;
    if !Sends(c, t) { t := LastOfSchedule(c, n - 1); }
  }

  /** Whatever job the schedule appends next, its slot number is the one `NextSlot` predicts from the
      job before it; it is a different number exactly when a frame has two transmitted slots. */
  lemma NextOfSchedule(c: Config, n: nat)
    requires Valid(c) && P.Schedule(EnvOf(c), n) != [] && Sends(c, c.slAhead + n)
    ensures var s := P.Schedule(EnvOf(c), n);
            && JobAt(c, c.slAhead + n).slot == NextSlot(c, s[|s| - 1].slot)
            && (NextSlot(c, s[|s| - 1].slot) != s[|s| - 1].slot <==> TwoSlots(c))
  {
    var t := LastOfSchedule(c, n);
    var w :| 0 <= w < c.slotsPerFrame && Sends(c, w);
    var bound := WithinFrame(c, t, w);
    var d := c.slAhead + n - t;
    assert FirstAfter(c, t, d);
    NextSlotIsFirst(c, t, 1, d);
    DivMod(t, c.slotsPerFrame);
    ModOnce(t % c.slotsPerFrame, c.slotsPerFrame);
    SendsByResidue(c, t % c.slotsPerFrame, t);
    NextSlotDiffers(c, t % c.slotsPerFrame);
  }

  /** `get_next_downlink_slot` predicts every job of the schedule by a slot number different from the
      one before, if and only if at least two slots of a frame are transmitted. */
  lemma PredictableExactly(c: Config)
    requires Valid(c)
    ensures P.Predictable(EnvOf(c)) <==> TwoSlots(c)
  {
    var e := EnvOf(c);
    if TwoSlots(c) {
      forall n: nat | P.Sends(e, n) && P.Schedule(e, n) != []
        ensures P.PredictedAt(e, n)
      {
        NextOfSchedule(c, n);
      }
    } else {
      var n := SecondJob(c);
      NextOfSchedule(c, n);
      assert !P.PredictedAt(e, n);
    }
  }

  /** Some job follows another one. */
  lemma SecondJob(c: Config) returns (n: nat)
    requires Valid(c)
    ensures P.Sends(EnvOf(c), n) && Sends(c, c.slAhead + n) && P.Schedule(EnvOf(c), n) != []
  {
    var w :| 0 <= w < c.slotsPerFrame && Sends(c, w);
    var d := WithinFrame(c, c.slAhead, w);
    var d' := WithinFrame(c, c.slAhead + d, w);
    n := d + d';
    assert P.Schedule(EnvOf(c), d + 1) != [];
    ScheduleGrows(EnvOf(c), d + 1, n);
  }

  lemma {:induction false} ScheduleGrows(e: P.Env, m: nat, n: nat)
    requires m <= n && P.Schedule(e, m) != []
    ensures P.Schedule(e, n) != []
    decreases n - m
  {
    if m < n { ScheduleGrows(e, m, n - 1); }
  }

  /** The main result for a slot pattern: with two transmitted slots per frame, and the first pull
      finding the job issued first, the RU receives the transmitted slots in order. */
  lemma TransmitsInOrder(c: Config, e: P.Env, acts: seq<P.Action>, s: P.State)
    requires TwoSlots(c) && e == EnvOf(c) && P.Reaches(e, acts, s) && P.StartedInOrder(s)
    ensures P.Orderly(e, s)
  {
    assert P.Predictable(e) by { assert Valid(c); PredictableExactly(c); }
    P.TransmitsInOrder(e, acts, s);
  }
}
