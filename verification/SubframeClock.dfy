/**
 The LTE subframe clock: `setAllfromTS` derives frames and subframes from a sample timestamp, and the CU hands
 its transmit timestamp to the DU, which derives its own clock from it.
 */
module SubframeClock {
  import Arith

  const TWO_32 := 0x1_0000_0000
  const TWO_64 := 0x1_0000_0000_0000_0000

  /** Number of subframes in a hyperframe of 1024 frames. */
  const SUBFRAMES := 10240

  datatype Clock = Clock(
    timestampRx: nat, timestampTx: nat,
    frameRx: nat, subframeRx: nat,
    framePrach: nat, subframePrach: nat,
    framePrachBr: nat, subframePrachBr: nat,
    frameTx: nat, subframeTx: nat)

  /** The look-ahead in samples, an unsigned 32-bit product. */
  function Ahead(sfAhead: nat, samplesPerTti: nat): nat { sfAhead * samplesPerTti % TWO_32 }

  function Subframe(ts: nat, samplesPerTti: nat): nat
    requires samplesPerTti > 0
  {
    ts / samplesPerTti % 10
  }

  /** The divisor is an unsigned 32-bit product; `& 1023` is the remainder by 1024. */
  function Frame(ts: nat, samplesPerTti: nat): nat
    requires samplesPerTti * 10 % TWO_32 > 0
  {
    ts / (samplesPerTti * 10 % TWO_32) % 1024
  }

  /** What the source asks of the configuration, in order not to divide by zero. */
  predicate Divides(samplesPerTti: nat) { samplesPerTti > 0 && samplesPerTti * 10 % TWO_32 > 0 }

  function FromTs(ts: nat, sfAhead: nat, samplesPerTti: nat): Clock
    requires Divides(samplesPerTti)
  {
    var tx := (ts + Ahead(sfAhead, samplesPerTti)) % TWO_64;
    var frame, subframe := Frame(ts, samplesPerTti), Subframe(ts, samplesPerTti);
    var frameTx, subframeTx := Frame(tx, samplesPerTti), Subframe(tx, samplesPerTti);
    Clock(ts, tx, frame, subframe, frame, subframe, frame, subframe, frameTx, subframeTx)
  }

  /** The samples per subframe of the last carrier of the last instance that has one: every carrier overwrites
      the same fields. */
  function Last(carriers: seq<seq<nat>>, none: nat): nat {
    if carriers == [] then none
    else
      var n := |carriers| - 1;
      if carriers[n] == [] then Last(carriers[..n], none) else carriers[n][|carriers[n]| - 1]
  }

  class L1Proc {
    var timestampRx: nat
    var timestampTx: nat
    var frameRx: nat
    var subframeRx: nat
    var framePrach: nat
    var subframePrach: nat
    var framePrachBr: nat
    var subframePrachBr: nat
    var frameTx: nat
    var subframeTx: nat

    function Now(): Clock
      reads this
    {
      Clock(timestampRx, timestampTx, frameRx, subframeRx, framePrach, subframePrach,
            framePrachBr, subframePrachBr, frameTx, subframeTx)
    }

    constructor ()
      ensures Now() == Clock(0, 0, 0, 0, 0, 0, 0, 0, 0, 0)
    {
      timestampRx, timestampTx, frameRx, subframeRx := 0, 0, 0, 0;
      framePrach, subframePrach, framePrachBr, subframePrachBr, frameTx, subframeTx := 0, 0, 0, 0, 0, 0;
    }

    /** The body of the inner loop of `setAllfromTS`. */
    method SetFromCarrier(ts: nat, sfAhead: nat, samplesPerTti: nat)
      requires Divides(samplesPerTti)
      modifies this
      ensures Now() == FromTs(ts, sfAhead, samplesPerTti)
    {
      var tsTx := (ts + Ahead(sfAhead, samplesPerTti)) % TWO_64;
      var tsRach := ts;
      timestampRx := ts;
      timestampTx := tsTx;
      subframeRx := ts / samplesPerTti % 10;
      subframePrach := tsRach / samplesPerTti % 10;
      subframePrachBr := tsRach / samplesPerTti % 10;
      frameRx := ts / (samplesPerTti * 10 % TWO_32) % 1024;
      framePrach := tsRach / (samplesPerTti * 10 % TWO_32) % 1024;
      framePrachBr := tsRach / (samplesPerTti * 10 % TWO_32) % 1024;
      frameTx := tsTx / (samplesPerTti * 10 % TWO_32) % 1024;
      subframeTx := tsTx / samplesPerTti % 10;
    }

    /** `setAllfromTS`: both loops. */
    method SetAllFromTs(ts: nat, sfAhead: nat, carriers: seq<seq<nat>>)
      requires forall i, j :: 0 <= i < |carriers| && 0 <= j < |carriers[i]| ==> Divides(carriers[i][j])
      modifies this
      ensures Last(carriers, 0) == 0 ==> Now() == old(Now())
      ensures Last(carriers, 0) != 0 ==> Divides(Last(carriers, 0)) && Now() == FromTs(ts, sfAhead, Last(carriers, 0))
    {
      ghost var last := 0;
      for i := 0 to |carriers|
        invariant last == Last(carriers[..i], 0)
        invariant last == 0 ==> Now() == old(Now())
        invariant last != 0 ==> Divides(last) && Now() == FromTs(ts, sfAhead, last)
      {
        assert carriers[..i + 1][..i] == carriers[..i];
        for j := 0 to |carriers[i]|
          invariant last == if j == 0 then Last(carriers[..i], 0) else carriers[i][j - 1]
          invariant last == 0 ==> Now() == old(Now())
          invariant last != 0 ==> Divides(last) && Now() == FromTs(ts, sfAhead, last)
        {
          SetFromCarrier(ts, sfAhead, carriers[i][j]);
          last := carriers[i][j];
        }
      }
      assert carriers[..|carriers|] == carriers;
    }
  }

  // ---- The clock counts subframes ----

  /** Frame and subframe together are the subframe number modulo 1024 frames. */
  lemma Position(ts: nat, s: nat)
    requires 0 < s && s * 10 < TWO_32
    ensures Divides(s) && Frame(ts, s) * 10 + Subframe(ts, s) == ts / s % SUBFRAMES
  {
    NoWrap(s);
    FrameIs(ts, s);
    FrameAndSubframe(ts / s);
  }

  lemma NoWrap(s: nat)
    requires 0 < s && s * 10 < TWO_32
    ensures s * 10 % TWO_32 == s * 10 && Divides(s)
  {
    Arith.ModOnce(s * 10, TWO_32);
  }

  lemma FrameIs(ts: nat, s: nat)
    requires 0 < s && s * 10 % TWO_32 == s * 10
    ensures Frame(ts, s) == ts / s / 10 % 1024
  {
    DivTen(ts, s);
  }

  lemma FrameAndSubframe(q: nat)
    ensures q / 10 % 1024 * 10 + q % 10 == q % SUBFRAMES
  {
  }

  /** The receive position and both PRACH positions are that of the timestamp itself. */
  lemma ReceivePositions(ts: nat, sfAhead: nat, s: nat)
    requires 0 < s && s * 10 < TWO_32
    ensures Divides(s)
    ensures var c := FromTs(ts, sfAhead, s);
            && c.timestampRx == ts && c.subframeRx < 10
            && c.frameRx * 10 + c.subframeRx == ts / s % SUBFRAMES
            && c.framePrach == c.framePrachBr == c.frameRx && c.subframePrach == c.subframePrachBr == c.subframeRx
  {
    Position(ts, s);
  }

  lemma DivTen(ts: nat, s: nat)
    requires s > 0
    ensures ts / (s * 10) == ts / s / 10
  {
    Arith.DivMod(ts, s);
    var q := ts / s;
    Regroup(q / 10, q % 10, ts % s, s);
    Arith.DivModUnique(ts, s * 10, q / 10, q % 10 * s + ts % s);
  }

  lemma Regroup(a: nat, m: nat, r: nat, s: nat)
    requires m < 10 && r < s
    ensures (a * 10 + m) * s + r == a * (s * 10) + (m * s + r) && 0 <= m * s + r < s * 10
  {
    Arith.Distribute(a * 10, m, s);
    assert a * 10 * s == a * (s * 10);
    assert (9 - m) * s >= 0;
    Arith.Distribute(9 - m, m, s);
  }

  /** Main result: without overflow the transmit position is the receive position advanced by the look-ahead,
      modulo 1024 frames. */
  lemma TxIsAhead(ts: nat, sfAhead: nat, s: nat)
    requires 0 < s && s * 10 < TWO_32 && sfAhead * s < TWO_32 && ts + sfAhead * s < TWO_64
    ensures Divides(s)
    ensures var c := FromTs(ts, sfAhead, s);
            c.frameTx * 10 + c.subframeTx == (c.frameRx * 10 + c.subframeRx + sfAhead) % SUBFRAMES
  {
    var tx := ts + sfAhead * s;
    assert Ahead(sfAhead, s) == sfAhead * s;
    assert tx % TWO_64 == tx;
    Position(ts, s);
    Position(tx, s);
    Arith.DivMod(ts, s);
    Arith.Distribute(ts / s, sfAhead, s);
    Arith.DivModUnique(tx, s, ts / s + sfAhead, ts % s);
    Arith.ShiftMod(ts / s, sfAhead, SUBFRAMES);
  }

  /** Consecutive subframes: one subframe later every position is one further, modulo 1024 frames. */
  lemma ClockTicks(ts: nat, sfAhead: nat, s: nat)
    requires 0 < s && s * 10 < TWO_32 && ts + s < TWO_64
    ensures Divides(s)
    ensures var c, d := FromTs(ts, sfAhead, s), FromTs(ts + s, sfAhead, s);
            d.frameRx * 10 + d.subframeRx == (c.frameRx * 10 + c.subframeRx + 1) % SUBFRAMES
  {
    Position(ts, s);
    Position(ts + s, s);
    Arith.DivMod(ts, s);
    Arith.Distribute(ts / s, 1, s);
    Arith.DivModUnique(ts + s, s, ts / s + 1, ts % s);
    Arith.ShiftMod(ts / s, 1, SUBFRAMES);
  }

  // ---- CU and DU ----

  /** The DU derives its clock from the timestamp in the header by an unsigned 64-bit subtraction. */
  function DuClock(headerTimestamp: nat, sfAhead: nat, samplesPerTti: nat): Clock
    requires Divides(samplesPerTti)
  {
    FromTs((headerTimestamp - Ahead(sfAhead, samplesPerTti)) % TWO_64, sfAhead, samplesPerTti)
  }

  /** The DU rebuilds every field of the CU's clock, for every 64-bit timestamp, even where the sums wrap. */
  lemma DuAgrees(ts: nat, sfAhead: nat, s: nat)
    requires ts < TWO_64 && Divides(s)
    ensures DuClock(FromTs(ts, sfAhead, s).timestampTx, sfAhead, s) == FromTs(ts, sfAhead, s)
  {
    var d := Ahead(sfAhead, s);
    var c := FromTs(ts, sfAhead, s);
    assert c.timestampTx == (ts + d) % TWO_64;
    WrapBack(ts, d);
    assert (c.timestampTx - d) % TWO_64 == ts;
  }

  lemma WrapBack(ts: nat, d: nat)
    requires ts < TWO_64
    ensures ((ts + d) % TWO_64 - d) % TWO_64 == ts
  {
  }
}
