/**
 The two IF4p5 fronthaul receivers that assemble the OFDM symbols of a slot from packets:
 `fh_if4p5_north_in` sets one mask bit per packet until the mask is full, `fh_if4p5_south_asynch_in`
 clears one bit per uplink packet until none is left.
 */
module SymbolMask {

  datatype PacketType = Pulfft | Prach | Other

  /** What `recv_IF4p5` reports of one packet. */
  datatype Packet = Packet(frame: nat, slot: nat, kind: PacketType, symbol: bv32)

  /** How a receive loop ends on a finite stream: after the first n packets, by leaving the program at the
      packet with index n, still waiting for a packet, or at the packet with index n in a shift by 32 or more,
      which C leaves undefined. */
  datatype Outcome = Done(n: nat) | Exit(n: nat) | Waiting | Undefined(n: nat)

  // ---- Bits of a mask ----

  predicate Bit(m: bv32, i: bv32)
    requires i < 32
  {
    (m >> i) & 1 == 1
  }

  function Full(symbols: bv32): bv32
    requires symbols < 32
  {
    (1 << symbols) - 1
  }

  lemma BitOfFull(symbols: bv32, i: bv32)
    requires symbols < 32 && i < 32
    ensures Bit(Full(symbols), i) <==> i < symbols
  {
  }

  lemma BitOfSet(m: bv32, s: bv32, i: bv32)
    requires s < 32 && i < 32
    ensures Bit(m | (1 << s), i) <==> Bit(m, i) || i == s
  {
  }

  lemma BitOfClear(m: bv32, s: bv32, i: bv32)
    requires s < 32 && i < 32
    ensures Bit(m & !(1 << s), i) <==> Bit(m, i) && i != s
  {
  }

  /** The lowest bits of d, below i, are clear. */
  predicate ClearBelow(d: bv32, i: bv32)
    requires i < 32
  {
    d & ((1 << i) - 1) == 0
  }

  lemma ClearOneMore(d: bv32, i: bv32)
    requires i < 31 && ClearBelow(d, i) && !Bit(d, i)
    ensures ClearBelow(d, i + 1)
  {
  }

  lemma TopBit(d: bv32)
    requires d != 0 && ClearBelow(d, 31)
    ensures Bit(d, 31)
  {
  }

  lemma {:induction false} SomeBit(d: bv32, from: bv32) returns (i: bv32)
    requires d != 0 && from < 32 && ClearBelow(d, from)
    ensures i < 32 && Bit(d, i)
    decreases 31 - from
  {
    if Bit(d, from) {
      i := from;
    } else if from < 31 {
      ClearOneMore(d, from);
      i := SomeBit(d, from + 1);
    } else {
      TopBit(d);
    }
  }

  lemma BitOfXor(m: bv32, m': bv32, i: bv32)
    requires i < 32 && Bit(m ^ m', i)
    ensures Bit(m, i) != Bit(m', i)
  {
  }

  /** Different masks differ in some bit. */
  lemma DiffersInSomeBit(m: bv32, m': bv32) returns (i: bv32)
    requires m != m'
    ensures i < 32 && Bit(m, i) != Bit(m', i)
  {
    i := SomeBit(m ^ m', 0);
    BitOfXor(m, m', i);
  }

  // ---- Coverage ----

  ghost predicate Seen(p: seq<Packet>, onlyUplink: bool, i: bv32) {
    exists k :: 0 <= k < |p| && p[k].symbol == i && (onlyUplink ==> p[k].kind == Pulfft)
  }

  /** Every symbol of the slot has arrived. */
  ghost predicate Covers(p: seq<Packet>, onlyUplink: bool, symbols: bv32) {
    forall i: bv32 :: i < symbols ==> Seen(p, onlyUplink, i)
  }

  ghost predicate Fit(p: seq<Packet>, symbols: bv32) { forall k :: 0 <= k < |p| ==> p[k].symbol < symbols }

  ghost predicate For(p: seq<Packet>, frame: nat, slot: nat) {
    forall k :: 0 <= k < |p| ==> p[k].frame == frame && p[k].slot == slot
  }

  /** mask has bit i set exactly when symbol i was seen. */
  ghost predicate Records(mask: bv32, p: seq<Packet>) {
    forall i: bv32 :: i < 32 ==> (Bit(mask, i) <==> Seen(p, false, i))
  }

  /** mask has bit i set exactly when symbol i is still missing. */
  ghost predicate Misses(mask: bv32, p: seq<Packet>, symbols: bv32) {
    forall i: bv32 :: i < 32 ==> (Bit(mask, i) <==> i < symbols && !Seen(p, true, i))
  }

  lemma SeenOneMore(p: seq<Packet>, n: nat, onlyUplink: bool, i: bv32)
    requires n < |p|
    ensures Seen(p[..n + 1], onlyUplink, i)
      <==> Seen(p[..n], onlyUplink, i) || (p[n].symbol == i && (onlyUplink ==> p[n].kind == Pulfft))
  {
    var q, r := p[..n], p[..n + 1];
    assert r[n] == p[n];
    if Seen(q, onlyUplink, i) {
      var k :| 0 <= k < |q| && q[k].symbol == i && (onlyUplink ==> q[k].kind == Pulfft);
      assert r[k] == q[k];
    }
    if Seen(r, onlyUplink, i) {
      var k :| 0 <= k < |r| && r[k].symbol == i && (onlyUplink ==> r[k].kind == Pulfft);
      if k < n { assert q[k] == r[k]; }
    }
  }

  lemma RecordsOneMore(mask: bv32, p: seq<Packet>, n: nat)
    requires n < |p| && p[n].symbol < 32 && Records(mask, p[..n])
    ensures Records(mask | (1 << p[n].symbol), p[..n + 1])
  {
    var mask' := mask | (1 << p[n].symbol);
    forall i: bv32 | i < 32 ensures Bit(mask', i) <==> Seen(p[..n + 1], false, i) {
      RecordsAt(mask, p, n, i);
    }
  }

  lemma RecordsAt(mask: bv32, p: seq<Packet>, n: nat, i: bv32)
    requires n < |p| && p[n].symbol < 32 && i < 32 && (Bit(mask, i) <==> Seen(p[..n], false, i))
    ensures Bit(mask | (1 << p[n].symbol), i) <==> Seen(p[..n + 1], false, i)
  {
    BitOfSet(mask, p[n].symbol, i);
    SeenOneMore(p, n, false, i);
  }

  lemma MissesOneMore(mask: bv32, mask': bv32, p: seq<Packet>, n: nat, symbols: bv32)
    requires n < |p| && (p[n].kind == Pulfft ==> p[n].symbol < 32) && Misses(mask, p[..n], symbols)
    requires mask' == ClearedMask(mask, p[n])
    ensures Misses(mask', p[..n + 1], symbols)
  {
    if p[n].kind == Pulfft {
      forall i: bv32 | i < 32 ensures Bit(mask', i) <==> i < symbols && !Seen(p[..n + 1], true, i) {
        ClearsAt(mask, mask', p, n, symbols, i);
      }
    } else {
      forall i: bv32 | i < 32 ensures Bit(mask', i) <==> i < symbols && !Seen(p[..n + 1], true, i) {
        SeenOneMore(p, n, true, i);
      }
    }
  }

  lemma ClearsAt(mask: bv32, mask': bv32, p: seq<Packet>, n: nat, symbols: bv32, i: bv32)
    requires n < |p| && p[n].symbol < 32 && p[n].kind == Pulfft && mask' == mask & !(1 << p[n].symbol)
    requires i < 32 && (Bit(mask, i) <==> i < symbols && !Seen(p[..n], true, i))
    ensures Bit(mask', i) <==> i < symbols && !Seen(p[..n + 1], true, i)
  {
    BitOfClear(mask, p[n].symbol, i);
    SeenOneMore(p, n, true, i);
  }

  /** The setting loop may stop: every symbol was seen and none out of range. */
  ghost predicate AllSet(p: seq<Packet>, symbols: bv32) { Covers(p, false, symbols) && Fit(p, symbols) }

  /** The clearing loop may stop: every symbol was seen in an uplink packet. */
  ghost predicate AllCleared(p: seq<Packet>, symbols: bv32) { Covers(p, true, symbols) }

  lemma FullExactly(mask: bv32, p: seq<Packet>, symbols: bv32)
    requires symbols < 32 && Fit(p, 32) && Records(mask, p)
    ensures mask == Full(symbols) <==> AllSet(p, symbols)
  {
    if mask == Full(symbols) {
      forall i: bv32 | i < symbols ensures Seen(p, false, i) { BitOfFull(symbols, i); }
      forall k | 0 <= k < |p| ensures p[k].symbol < symbols {
        BitOfFull(symbols, p[k].symbol);
        assert Seen(p, false, p[k].symbol);
      }
    } else {
      var i := DiffersInSomeBit(mask, Full(symbols));
      BitOfFull(symbols, i);
    }
  }

  lemma EmptyExactly(mask: bv32, p: seq<Packet>, symbols: bv32)
    requires symbols < 32 && Misses(mask, p, symbols)
    ensures mask == 0 <==> AllCleared(p, symbols)
  {
    if mask == 0 {
      forall i: bv32 | i < symbols ensures Seen(p, true, i) { assert !Bit(mask, i); }
    } else {
      var i := DiffersInSomeBit(mask, 0);
      assert !Bit(0, i);
    }
  }

  lemma AllMissing(p: seq<Packet>, symbols: bv32)
    requires symbols < 32 && p == []
    ensures Misses(Full(symbols), p, symbols)
  {
    forall i: bv32 | i < 32 { BitOfFull(symbols, i); }
  }

  /** One round of the clearing loop. */
  lemma ClearStep(mask: bv32, mask': bv32, p: seq<Packet>, n: nat, symbols: bv32)
    requires n < |p| && (p[n].kind == Pulfft ==> p[n].symbol < 32) && symbols < 32 && Misses(mask, p[..n], symbols)
    requires mask' == ClearedMask(mask, p[n])
    ensures Misses(mask', p[..n + 1], symbols)
    ensures mask' == 0 <==> AllCleared(p[..n + 1], symbols)
  {
    MissesOneMore(mask, mask', p, n, symbols);
    EmptyExactly(mask', p[..n + 1], symbols);
  }

  // ---- The two loops ----

  /** The setting loop ends after the shortest non-empty prefix at which it may stop. */
  ghost predicate NorthEnds(stream: seq<Packet>, symbols: bv32, o: Outcome) {
    match o
    case Done(n) =>
      && 0 < n <= |stream| && AllSet(stream[..n], symbols)
      && forall m :: 0 < m < n ==> !AllSet(stream[..m], symbols)
    case Exit(n) => false
    case Waiting => Fit(stream, 32) && forall m :: 0 < m <= |stream| ==> !AllSet(stream[..m], symbols)
    case Undefined(n) =>
      && n < |stream| && stream[n].symbol >= 32 && Fit(stream[..n], 32)
      && forall m :: 0 < m <= n ==> !AllSet(stream[..m], symbols)
  }

  /** `fh_if4p5_north_in`: packets of any type, frame and slot count. */
  method FhIf4p5NorthIn(stream: seq<Packet>, symbols: bv32) returns (o: Outcome)
    requires 0 < symbols < 32
    ensures NorthEnds(stream, symbols, o)
  {
    var mask: bv32 := 0;
    var n := 0;
    assert Records(mask, stream[..0]);
    while n < |stream|
      invariant n <= |stream| && Fit(stream[..n], 32) && Records(mask, stream[..n])
      invariant forall m :: 0 < m <= n ==> !AllSet(stream[..m], symbols)
    {
      if stream[n].symbol >= 32 { return Undefined(n); }
      RecordsOneMore(mask, stream, n);
      mask := mask | (1 << stream[n].symbol);
      n := n + 1;
      FullExactly(mask, stream[..n], symbols);
      if mask == Full(symbols) { return Done(n); }
    }
    assert stream[..n] == stream;
    return Waiting;
  }

  /** How the clearing loop ends, when it expects the given frame and slot. */
  ghost predicate SouthEnds(stream: seq<Packet>, symbols: bv32, frame: nat, slot: nat, o: Outcome) {
    match o
    case Done(n) =>
      && 0 < n <= |stream| && For(stream[..n], frame, slot)
      && AllCleared(stream[..n], symbols) && forall m :: 0 < m < n ==> !AllCleared(stream[..m], symbols)
    case Exit(n) =>
      && n < |stream| && For(stream[..n], frame, slot) && !(stream[n].frame == frame && stream[n].slot == slot)
      && forall m :: 0 < m <= n ==> !AllCleared(stream[..m], symbols)
    case Waiting =>
      For(stream, frame, slot) && forall m :: 0 < m <= |stream| ==> !AllCleared(stream[..m], symbols)
    case Undefined(n) =>
      && n < |stream| && For(stream[..n + 1], frame, slot) && stream[n].kind == Pulfft && stream[n].symbol >= 32
      && forall m :: 0 < m <= n ==> !AllCleared(stream[..m], symbols)
  }

  /** `fh_if4p5_south_asynch_in`: the first packet ever received sets the expected frame and slot; later a packet of
      another frame or slot leaves the program. */
  method FhIf4p5SouthAsynchIn(stream: seq<Packet>, symbols: bv32, firstRx: bool, frame: nat, slot: nat)
    returns (o: Outcome, frame': nat, slot': nat)
    requires 0 < symbols < 32
    ensures (frame', slot') == if firstRx && stream != [] then (stream[0].frame, stream[0].slot) else (frame, slot)
    ensures SouthEnds(stream, symbols, frame', slot', o)
  {
    frame', slot' := frame, slot;
    var mask, first := Full(symbols), firstRx;
    var n := 0;
    StartsClearing(stream, symbols, mask, frame', slot');
    while n < |stream|
      invariant ClearingAt(stream, symbols, frame', slot', mask, n)
      invariant first == (firstRx && n == 0) && (n == 0 ==> mask == Full(symbols))
      invariant (frame', slot') == if firstRx && n > 0 then (stream[0].frame, stream[0].slot) else (frame, slot)
    {
      if first {
        frame', slot', first := stream[n].frame, stream[n].slot, false;
        StartsClearing(stream, symbols, mask, frame', slot');
      } else if stream[n].frame != frame' || stream[n].slot != slot' {
        return Exit(n), frame', slot';
      }
      var end: Outcome;
      mask, end := ClearSymbol(stream, symbols, frame', slot', mask, n);
      if !end.Waiting? { return end, frame', slot'; }
      n := n + 1;
    }
    assert stream[..n] == stream;
    return Waiting, frame', slot';
  }

  /** The mask after a packet. */
  function ClearedMask(mask: bv32, p: Packet): bv32
    requires p.kind == Pulfft ==> p.symbol < 32
  {
    if p.kind == Pulfft then mask & !(1 << p.symbol) else mask
  }

  /** The rest of a round of the clearing loop: clear the symbol of an uplink packet, and see whether this was the
      last. */
  method ClearSymbol(stream: seq<Packet>, symbols: bv32, ghost frame: nat, ghost slot: nat, mask: bv32, n: nat)
    returns (mask': bv32, end: Outcome)
    requires n < |stream| && symbols < 32 && ClearingAt(stream, symbols, frame, slot, mask, n)
    requires stream[n].frame == frame && stream[n].slot == slot
    ensures end.Waiting? ==> ClearingAt(stream, symbols, frame, slot, mask', n + 1)
    ensures !end.Waiting? ==> SouthEnds(stream, symbols, frame, slot, end)
  {
    if stream[n].kind == Pulfft && stream[n].symbol >= 32 {
      UndefinedHere(stream, symbols, frame, slot, mask, n);
      return mask, Undefined(n);
    }
    mask' := ClearedMask(mask, stream[n]);
    end := if mask' == 0 then Done(n + 1) else Waiting;
    ClearsOn(stream, symbols, frame, slot, mask, mask', n, end);
  }

  lemma UndefinedHere(stream: seq<Packet>, symbols: bv32, frame: nat, slot: nat, mask: bv32, n: nat)
    requires ClearingAt(stream, symbols, frame, slot, mask, n) && n < |stream|
    requires stream[n].frame == frame && stream[n].slot == slot && stream[n].kind == Pulfft && stream[n].symbol >= 32
    ensures SouthEnds(stream, symbols, frame, slot, Undefined(n))
  {
    ForOneMore(stream, n, frame, slot);
  }

  /** The clearing loop has read n packets and is not done. */
  ghost predicate ClearingAt(stream: seq<Packet>, symbols: bv32, frame: nat, slot: nat, mask: bv32, n: nat) {
    && n <= |stream| && Misses(mask, stream[..n], symbols) && For(stream[..n], frame, slot)
    && forall m :: 0 < m <= n ==> !AllCleared(stream[..m], symbols)
  }

  lemma StartsClearing(stream: seq<Packet>, symbols: bv32, mask: bv32, frame: nat, slot: nat)
    requires symbols < 32 && mask == Full(symbols)
    ensures ClearingAt(stream, symbols, frame, slot, mask, 0)
  {
    AllMissing(stream[..0], symbols);
  }

  lemma ForOneMore(stream: seq<Packet>, n: nat, frame: nat, slot: nat)
    requires n < |stream| && For(stream[..n], frame, slot) && stream[n].frame == frame && stream[n].slot == slot
    ensures For(stream[..n + 1], frame, slot)
  {
    var p := stream[..n];
    assert forall k :: 0 <= k < n ==> p[k] == stream[k];
  }

  /** One round: the loop is done exactly when the mask is empty. */
  lemma ClearsOn(stream: seq<Packet>, symbols: bv32, frame: nat, slot: nat, mask: bv32, mask': bv32,
                 n: nat, end: Outcome)
    requires ClearingAt(stream, symbols, frame, slot, mask, n) && n < |stream| && symbols < 32
    requires stream[n].frame == frame && stream[n].slot == slot && (stream[n].kind == Pulfft ==> stream[n].symbol < 32)
    requires mask' == ClearedMask(mask, stream[n]) && end == if mask' == 0 then Done(n + 1) else Waiting
    ensures end.Waiting? ==> ClearingAt(stream, symbols, frame, slot, mask', n + 1)
    ensures !end.Waiting? ==> SouthEnds(stream, symbols, frame, slot, end)
  {
    ForOneMore(stream, n, frame, slot);
    ClearStep(mask, mask', stream, n, symbols);
  }

  // ---- Agreement ----

  /** Main result: on uplink packets of the expected frame and slot with symbols in range, duplicated and
      reordered at will, both loops end alike: after the shortest prefix that holds every symbol. */
  lemma LoopsAgree(stream: seq<Packet>, symbols: bv32, frame: nat, slot: nat, north: Outcome, south: Outcome)
    requires symbols < 32 && Fit(stream, symbols) && For(stream, frame, slot)
    requires forall k :: 0 <= k < |stream| ==> stream[k].kind == Pulfft
    requires NorthEnds(stream, symbols, north) && SouthEnds(stream, symbols, frame, slot, south)
    ensures north == south
  {
    forall m | 0 < m <= |stream| ensures AllSet(stream[..m], symbols) <==> AllCleared(stream[..m], symbols) {
      SeenAlike(stream[..m], symbols);
    }
  }

  lemma SeenAlike(p: seq<Packet>, symbols: bv32)
    requires Fit(p, symbols) && forall k :: 0 <= k < |p| ==> p[k].kind == Pulfft
    ensures AllSet(p, symbols) <==> AllCleared(p, symbols)
  {
    forall i: bv32 ensures Seen(p, true, i) <==> Seen(p, false, i) {}
  }

  /** Outside that range they differ: once a symbol beyond the slot arrived before the slot was complete, the
      setting loop never completes, however the stream goes on. */
  lemma StrayBlocksSetting(stream: seq<Packet>, symbols: bv32, k: nat, o: Outcome)
    requires k < |stream| && stream[k].symbol >= symbols
    requires NorthEnds(stream, symbols, o) && forall m :: 0 < m <= k ==> !AllSet(stream[..m], symbols)
    ensures !o.Done?
  {
    forall m | k < m <= |stream| ensures !AllSet(stream[..m], symbols) {
      assert stream[..m][k] == stream[k];
    }
  }
}
