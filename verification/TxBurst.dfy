/**
 Burst flags of `tx_rf` under TDD: the radio is told where a transmission burst starts, continues and
 ends, from the types of the previous, the current and the next slot only.  `set_tdd_config_nr` lays
 out the slot pattern and `nr_slot_select` classifies its slots.
 */
module TxBurst {
  import opened Arith

  /** A mixed slot comes with the number of its downlink symbols, which `tx_rf` counts. */
  datatype SlotType = Downlink | Uplink | Mixed(txSymbols: nat)

  // ---- Flags from a slot pattern ----

  function At(pattern: seq<SlotType>, t: nat): SlotType
    requires pattern != []
  {
    pattern[t % |pattern|]
  }

  function Next(pattern: seq<SlotType>, t: nat): SlotType
    requires pattern != []
  {
    At(pattern, t + 1)
  }

  function Prev(pattern: seq<SlotType>, t: nat): SlotType
    requires pattern != []
  {
    At(pattern, t + |pattern| - 1)
  }

  /** What one call of `tx_rf` does: pass flags to the radio, or stop the program in an assertion. */
  datatype Outcome = Flag(value: nat) | Abort

  /** `tx_rf` with TDD and without continuous TX: 0 no write, 1 middle, 2 start, 3 end of burst; a mixed
      slot without downlink symbols fails the assertion. */
  function Flags(pattern: seq<SlotType>, slot: nat): Outcome
    requires pattern != []
  {
    match At(pattern, slot)
    case Mixed(txSymbols) => if txSymbols > 0 then Flag(3) else Abort
    case Uplink => Flag(0)
    case Downlink =>
      if Prev(pattern, slot) == Uplink then Flag(2)
      else if Next(pattern, slot) == Uplink then Flag(3)
      else Flag(1)
  }

  // ---- What the radio expects ----

  datatype Radio = Off | On | Confused | Stopped

  /** Start only while off; middle and end only while on; no write only while off. */
  function Receive(r: Radio, o: Outcome): Radio {
    match r
    case Off => if o == Flag(2) then On else if o == Flag(0) then Off else if o == Abort then Stopped else Confused
    case On => if o == Flag(1) then On else if o == Flag(3) then Off else if o == Abort then Stopped else Confused
    case Confused => Confused
    case Stopped => Stopped
  }

  predicate Fine(r: Radio) { r == Off || r == On }

  /** The radio after n slots from slot u on, having been off before. */
  function After(pattern: seq<SlotType>, u: nat, n: nat): Radio
    requires pattern != []
  {
    if n == 0 then Off else Receive(After(pattern, u, n - 1), Flags(pattern, u + n - 1))
  }

  /** Every burst is bracketed: start, middles, end, then silence, for ever, and no assertion fails. */
  ghost predicate Bracketed(pattern: seq<SlotType>, u: nat)
    requires pattern != []
  {
    forall n: nat :: Fine(After(pattern, u, n))
  }

  /** No burst is a single downlink slot, and every mixed slot has downlink symbols and closes a burst opened
      before it. */
  ghost predicate WellGrouped(pattern: seq<SlotType>)
    requires pattern != []
  {
    forall t: nat :: GroupedAt(pattern, t)
  }

  ghost predicate GroupedAt(pattern: seq<SlotType>, t: nat)
    requires pattern != []
  {
    && (At(pattern, t).Mixed? ==>
          At(pattern, t).txSymbols > 0 && Prev(pattern, t) == Downlink && Next(pattern, t) == Uplink)
    && (At(pattern, t) == Downlink && Prev(pattern, t) == Uplink ==> Next(pattern, t) != Uplink)
  }

  lemma PrevOfNext(pattern: seq<SlotType>, t: nat)
    requires pattern != []
    ensures Prev(pattern, t + 1) == At(pattern, t)
  {
    ShiftMod(t, |pattern|, |pattern|);
    DivMod(t, |pattern|);
    ModOnce(t % |pattern| + |pattern| - 1, |pattern|);
    DivModUnique(t % |pattern| + |pattern|, |pattern|, 1, t % |pattern|);
  }

  /** After slot t the radio is on exactly when t was a downlink slot not followed by uplink. */
  lemma {:induction false} StateAfter(pattern: seq<SlotType>, u: nat, n: nat)
    requires pattern != [] && At(pattern, u) == Uplink && WellGrouped(pattern) && n > 0
    ensures var t := u + n - 1;
            After(pattern, u, n) == if At(pattern, t) == Downlink && Next(pattern, t) != Uplink then On else Off
  {
    var t := u + n - 1;
    assert GroupedAt(pattern, t);
    if n > 1 {
      StateAfter(pattern, u, n - 1);
      assert GroupedAt(pattern, t - 1);
      PrevOfNext(pattern, t - 1);
      assert Next(pattern, t - 1) == At(pattern, t);
    }
  }

  /** While the radio is not confused, its state is the last flag's doing. */
  lemma LastFlag(pattern: seq<SlotType>, u: nat, n: nat)
    requires pattern != [] && n > 0 && Fine(After(pattern, u, n))
    ensures After(pattern, u, n) == On <==> Flags(pattern, u + n - 1) == Flag(1) || Flags(pattern, u + n - 1) == Flag(2)
  {
  }

  /** A slot that breaks the grouping confuses the radio within two slots. */
  lemma Breaks(pattern: seq<SlotType>, u: nat, t: nat)
    requires pattern != [] && u < t && Bracketed(pattern, u)
    ensures GroupedAt(pattern, t)
  {
    var n := t - u;
    assert Fine(After(pattern, u, n)) && Fine(After(pattern, u, n + 1)) && Fine(After(pattern, u, n + 2));
    LastFlag(pattern, u, n);
    LastFlag(pattern, u, n + 1);
    PrevOfNext(pattern, t - 1);
    PrevOfNext(pattern, t);
    assert After(pattern, u, n + 1) == Receive(After(pattern, u, n), Flags(pattern, t));
    assert After(pattern, u, n + 2) == Receive(After(pattern, u, n + 1), Flags(pattern, t + 1));
  }

  lemma SameSlot(pattern: seq<SlotType>, t: nat, t': nat)
    requires pattern != [] && t % |pattern| == t' % |pattern|
    ensures GroupedAt(pattern, t) <==> GroupedAt(pattern, t')
  {
    ShiftMod(t, 1, |pattern|);
    ShiftMod(t', 1, |pattern|);
    ShiftMod(t, |pattern| - 1, |pattern|);
    ShiftMod(t', |pattern| - 1, |pattern|);
  }

  /** Main result, for every frame-periodic pattern: started on an uplink slot, the flags bracket all
      bursts if and only if the pattern is well grouped. */
  lemma BracketedExactly(pattern: seq<SlotType>, u: nat)
    requires pattern != [] && At(pattern, u) == Uplink
    ensures Bracketed(pattern, u) <==> WellGrouped(pattern)
  {
    if WellGrouped(pattern) {
      forall n: nat ensures Fine(After(pattern, u, n)) {
        if n > 0 { StateAfter(pattern, u, n); }
      }
    }
    if Bracketed(pattern, u) {
      forall t: nat ensures GroupedAt(pattern, t) {
        var t' := LaterCopy(|pattern|, u, t);
        Breaks(pattern, u, t');
        SameSlot(pattern, t, t');
      }
    }
  }

  /** The same slot of a later frame. */
  lemma LaterCopy(m: nat, u: nat, t: nat) returns (t': nat)
    requires 0 < m
    ensures u < t' && t % m == t' % m
  {
    t' := t + (u + 1) * m;
    MulAtLeast(u + 1, m);
    MulAtLeast(m, u + 1);
    DivMod(t, m);
    Distribute(t / m, u + 1, m);
    DivModUnique(t', m, t / m + u + 1, t % m);
  }

  // ---- The pattern of a TDD configuration ----

  const SYMBOLS := 14

  /** Parameters of `set_tdd_config_nr`: the period in slots and its downlink and uplink share. */
  datatype Tdd = Tdd(
    slotsPerPeriod: nat, downlinkSlots: nat, downlinkSymbols: nat, uplinkSlots: nat, uplinkSymbols: nat)

  predicate HasMixed(c: Tdd) { c.downlinkSymbols + c.uplinkSymbols != 0 }

  /** The assertions at the head of `set_tdd_config_nr`, for a period that is not empty. */
  ghost predicate Accepted(c: Tdd) {
    && 0 < c.slotsPerPeriod
    && c.downlinkSymbols + c.uplinkSymbols < SYMBOLS
    && c.slotsPerPeriod == c.downlinkSlots + c.uplinkSlots + if HasMixed(c) then 1 else 0
  }

  /** Symbol kinds of the i-th slot of a period: 0 downlink, 1 uplink, 2 flexible. */
  function SlotSymbols(c: Tdd, i: nat): seq<nat> {
    if i < c.downlinkSlots then seq(SYMBOLS, _ => 0)
    else if HasMixed(c) && i == c.downlinkSlots then
      seq(SYMBOLS, k => if k < c.downlinkSymbols then 0 else if k < SYMBOLS - c.uplinkSymbols then 2 else 1)
    else seq(SYMBOLS, _ => 1)
  }

  /** The table filled slot by slot; the source fills two frames. */
  method SetTddConfig(c: Tdd, slotsToSet: nat) returns (table: seq<seq<nat>>)
    requires Accepted(c) && slotsToSet % c.slotsPerPeriod == 0
    ensures |table| == slotsToSet
    ensures forall i :: 0 <= i < slotsToSet ==> table[i] == SlotSymbols(c, i % c.slotsPerPeriod)
  {
    table := [];
    ghost var periods := 0;
    ghost var m := c.slotsPerPeriod;
    while |table| != slotsToSet
      invariant |table| == periods * m && |table| <= slotsToSet
      invariant forall i :: 0 <= i < |table| ==> table[i] == SlotSymbols(c, i % m)
      decreases slotsToSet - |table|
    {
      ghost var start := |table|;
      assert start + m <= slotsToSet by {
        DivMod(slotsToSet, m);
        MulAtLeast(slotsToSet / m - periods, m);
        Distribute(slotsToSet / m - periods, periods, m);
      }
      var k := 0;
      while k < c.slotsPerPeriod
        invariant k <= m && |table| == start + k
        invariant forall i :: 0 <= i < |table| ==> table[i] == SlotSymbols(c, i % m)
      {
        DivModUnique(start + k, m, periods, k);
        var symbols: seq<nat>;
        if k < c.downlinkSlots {
          symbols := seq(SYMBOLS, _ => 0);
        } else if k == c.downlinkSlots && HasMixed(c) {
          symbols := seq(c.downlinkSymbols, _ => 0)
                     + seq(SYMBOLS - c.uplinkSymbols - c.downlinkSymbols, _ => 2)
                     + seq(c.uplinkSymbols, _ => 1);
        } else {
          symbols := seq(SYMBOLS, _ => 1);
        }
        assert symbols == SlotSymbols(c, k);
        table := table + [symbols];
        k := k + 1;
      }
      Distribute(periods, 1, m);
      periods := periods + 1;
    }
  }

  function Count(symbols: seq<nat>, kind: nat): nat {
    if symbols == [] then 0 else Count(symbols[1..], kind) + if symbols[0] == kind then 1 else 0
  }

  /** `nr_slot_select` on the symbols of a slot (TDD), with the downlink symbols that `tx_rf` counts. */
  function SlotSelect(symbols: seq<nat>): SlotType {
    if Count(symbols, 1) == SYMBOLS then Uplink
    else if Count(symbols, 0) == SYMBOLS then Downlink
    else Mixed(Count(symbols, 0))
  }

  lemma {:induction false} CountAll(symbols: seq<nat>, kind: nat)
    ensures Count(symbols, kind) <= |symbols|
    ensures Count(symbols, kind) == |symbols| <==> forall k :: 0 <= k < |symbols| ==> symbols[k] == kind
  {
    if symbols != [] {
      CountAll(symbols[1..], kind);
      assert forall k :: 0 < k < |symbols| ==> symbols[k] == symbols[1..][k - 1];
    }
  }

  /** The type of the i-th slot of a period. */
  function TypeInPeriod(c: Tdd, i: nat): SlotType {
    if i < c.downlinkSlots then Downlink
    else if HasMixed(c) && i == c.downlinkSlots then Mixed(c.downlinkSymbols)
    else Uplink
  }

  /** Symbols of one kind in front of others. */
  lemma {:induction false} CountPrefix(symbols: seq<nat>, kind: nat, n: nat)
    requires n <= |symbols| && forall k :: 0 <= k < |symbols| ==> (symbols[k] == kind <==> k < n)
    ensures Count(symbols, kind) == n
  {
    if symbols != [] { CountPrefix(symbols[1..], kind, if n > 0 then n - 1 else 0); }
  }

  lemma SlotSelectIsType(c: Tdd, i: nat)
    requires Accepted(c) && i < c.slotsPerPeriod
    ensures SlotSelect(SlotSymbols(c, i)) == TypeInPeriod(c, i)
  {
    var s := SlotSymbols(c, i);
    CountAll(s, 1);
    CountAll(s, 0);
    if HasMixed(c) && i == c.downlinkSlots {
      CountPrefix(s, 0, c.downlinkSymbols);
      if c.uplinkSymbols > 0 { assert s[13] != 0; } else { assert s[0] == 0; }
      assert s[c.downlinkSymbols] != 0;
      assert s[SYMBOLS - c.uplinkSymbols - 1] != 1;
    } else {
      assert s[0] == if i < c.downlinkSlots then 0 else 1;
    }
  }

  // ---- The symbols of a period ----

  /** Symbols of one kind behind others. */
  lemma {:induction false} CountSuffix(symbols: seq<nat>, kind: nat, n: nat)
    requires n <= |symbols| && forall k :: 0 <= k < |symbols| ==> (symbols[k] == kind <==> n <= k)
    ensures Count(symbols, kind) == |symbols| - n
  {
    if symbols != [] { CountSuffix(symbols[1..], kind, if n > 0 then n - 1 else 0); }
  }

  /** Symbols of a kind in the first n slots of a period. */
  function CountInPeriod(c: Tdd, kind: nat, n: nat): nat {
    if n == 0 then 0 else CountInPeriod(c, kind, n - 1) + Count(SlotSymbols(c, n - 1), kind)
  }

  lemma SlotShares(c: Tdd, i: nat)
    requires Accepted(c) && i < c.slotsPerPeriod
    ensures var s, mixed := SlotSymbols(c, i), HasMixed(c) && i == c.downlinkSlots;
            && Count(s, 0) == (if i < c.downlinkSlots then SYMBOLS else if mixed then c.downlinkSymbols else 0)
            && Count(s, 1) == (if i < c.downlinkSlots then 0 else if mixed then c.uplinkSymbols else SYMBOLS)
  {
    var s := SlotSymbols(c, i);
    if i < c.downlinkSlots {
      CountPrefix(s, 0, SYMBOLS);
      CountSuffix(s, 1, SYMBOLS);
    } else if HasMixed(c) && i == c.downlinkSlots {
      CountPrefix(s, 0, c.downlinkSymbols);
      CountSuffix(s, 1, SYMBOLS - c.uplinkSymbols);
    } else {
      CountPrefix(s, 0, 0);
      CountSuffix(s, 1, 0);
    }
  }

  lemma {:induction false} SharesUpTo(c: Tdd, n: nat)
    requires Accepted(c) && n <= c.slotsPerPeriod
    ensures var d := c.downlinkSlots;
            && CountInPeriod(c, 0, n) == (if n <= d then SYMBOLS * n else SYMBOLS * d + c.downlinkSymbols)
            && CountInPeriod(c, 1, n) ==
               (if n <= d then 0 else c.uplinkSymbols + SYMBOLS * (n - d - if HasMixed(c) then 1 else 0))
  {
    if n > 0 {
      SharesUpTo(c, n - 1);
      SlotShares(c, n - 1);
    }
  }

  /** The place of a symbol kind in the period: downlink, flexible, uplink. */
  function Phase(kind: nat): nat { if kind == 0 then 0 else if kind == 2 then 1 else 2 }

  /** A period holds the symbols that were configured, downlink ones first, then flexible ones, uplink ones last. */
  lemma PeriodShares(c: Tdd)
    requires Accepted(c)
    ensures CountInPeriod(c, 0, c.slotsPerPeriod) == SYMBOLS * c.downlinkSlots + c.downlinkSymbols
    ensures CountInPeriod(c, 1, c.slotsPerPeriod) == SYMBOLS * c.uplinkSlots + c.uplinkSymbols
    ensures forall i: nat, j: nat, k: nat, l: nat ::
              i < c.slotsPerPeriod && j < c.slotsPerPeriod && k < SYMBOLS && l < SYMBOLS ==>
                && SlotSymbols(c, i)[k] <= 2
                && (i < j || (i == j && k <= l) ==> Phase(SlotSymbols(c, i)[k]) <= Phase(SlotSymbols(c, j)[l]))
  {
    SharesUpTo(c, c.slotsPerPeriod);
  }

  /** One period of slot types. */
  function PeriodPattern(c: Tdd): seq<SlotType> {
    seq(c.slotsPerPeriod, (i: nat) => TypeInPeriod(c, i))
  }

  lemma Neighbours(c: Tdd, t: nat)
    requires Accepted(c)
    ensures var p, m := PeriodPattern(c), c.slotsPerPeriod;
            var r := t % m;
            && At(p, t) == TypeInPeriod(c, r)
            && Next(p, t) == TypeInPeriod(c, if r == m - 1 then 0 else r + 1)
            && Prev(p, t) == TypeInPeriod(c, if r == 0 then m - 1 else r - 1)
  {
    var m := c.slotsPerPeriod;
    DivMod(t, m);
    ShiftMod(t, 1, m);
    ShiftMod(t, m - 1, m);
    ModOnce(t % m + 1, m);
    ModOnce(t % m + m - 1, m);
  }

  /** The slots of a period that transmit come first and are at least two, the first one pure, and a mixed one
      has downlink symbols. */
  predicate GoodShare(c: Tdd) {
    && (0 < c.downlinkSlots || HasMixed(c) ==> 0 < c.downlinkSlots && 2 <= c.slotsPerPeriod - c.uplinkSlots)
    && (HasMixed(c) ==> 0 < c.downlinkSymbols)
  }

  lemma GroupedConfiguration(c: Tdd)
    requires Accepted(c) && 0 < c.uplinkSlots
    ensures WellGrouped(PeriodPattern(c)) <==> GoodShare(c)
  {
    var p := PeriodPattern(c);
    Neighbours(c, 0);
    ModOnce(0, c.slotsPerPeriod);
    if HasMixed(c) {
      Neighbours(c, c.downlinkSlots);
      ModOnce(c.downlinkSlots, c.slotsPerPeriod);
      assert GroupedAt(p, c.downlinkSlots) ==> 0 < c.downlinkSymbols;
    }
    assert WellGrouped(p) ==> GroupedAt(p, 0) && GoodShare(c);
    if GoodShare(c) {
      forall t: nat ensures GroupedAt(p, t) {
        DivMod(t, c.slotsPerPeriod);
        Neighbours(c, t);
      }
    }
  }

  lemma NoUplinkConfuses(c: Tdd)
    requires Accepted(c) && c.uplinkSlots == 0
    ensures !Fine(After(PeriodPattern(c), c.slotsPerPeriod - 1, 1))
  {
    var p, u := PeriodPattern(c), c.slotsPerPeriod - 1;
    Neighbours(c, u);
    ModOnce(u, c.slotsPerPeriod);
    assert After(p, u, 0) == Off;
    assert Flags(p, u) == Flag(1) || Flags(p, u) == Flag(3) || Flags(p, u) == Abort;
  }

  /** Main result for configurations.  Of all accepted ones, exactly those bracket their bursts that
      have an uplink slot and either transmit nothing or open each period with at least two transmitted
      slots, the first one purely downlink, and have downlink symbols in a mixed slot. */
  lemma ConfigurationBracketsExactly(c: Tdd)
    requires Accepted(c)
    ensures Bracketed(PeriodPattern(c), c.slotsPerPeriod - 1) <==> 0 < c.uplinkSlots && GoodShare(c)
  {
    if c.uplinkSlots == 0 {
      NoUplinkConfuses(c);
    } else {
      var u := c.slotsPerPeriod - 1;
      Neighbours(c, u);
      ModOnce(u, c.slotsPerPeriod);
      BracketedExactly(PeriodPattern(c), u);
      GroupedConfiguration(c);
    }
  }

  /** `tx_rf` looks at the neighbours within the frame; for a period dividing the frame that yields the
      same flags as the bare period. */
  lemma FlagsByFrame(c: Tdd, periods: nat, slot: nat)
    requires Accepted(c) && 0 < periods
    ensures var n := periods * c.slotsPerPeriod;
            var frame := seq(n, (i: nat) => TypeInPeriod(c, i % c.slotsPerPeriod));
            frame != [] && Flags(frame, slot) == Flags(PeriodPattern(c), slot)
  {
    var m := c.slotsPerPeriod;
    var n := periods * m;
    MulAtLeast(periods, m);
    var frame := seq(n, (i: nat) => TypeInPeriod(c, i % m));
    FrameAt(c, periods, slot);
    FrameAt(c, periods, slot + 1);
    FrameAt(c, periods, slot + n - 1);
    assert Prev(frame, slot) == At(PeriodPattern(c), slot + n - 1);
    DivMod(slot + m - 1, m);
    Distribute(periods - 1, (slot + m - 1) / m, m);
    Distribute(periods - 1, 1, m);
    DivModUnique(slot + n - 1, m, periods - 1 + (slot + m - 1) / m, (slot + m - 1) % m);
  }

  lemma FrameAt(c: Tdd, periods: nat, t: nat)
    requires Accepted(c) && 0 < periods
    ensures var n := periods * c.slotsPerPeriod;
            var frame := seq(n, (i: nat) => TypeInPeriod(c, i % c.slotsPerPeriod));
            frame != [] && At(frame, t) == At(PeriodPattern(c), t)
  {
    var m := c.slotsPerPeriod;
    var n := periods * m;
    ModMultiple(t, periods, m, n);
    DivMod(t, n);
    DivMod(t, m);
  }

  // ---- The table that `set_tdd_config_nr` fills ----

  /** The slot types read from a table of symbols. */
  function TablePattern(table: seq<seq<nat>>): seq<SlotType> {
    seq(|table|, (i: nat) requires i < |table| => SlotSelect(table[i]))
  }

  /** The table of a number of periods, as `SetTddConfig` leaves it. */
  ghost predicate IsTable(c: Tdd, periods: nat, table: seq<seq<nat>>)
    requires 0 < c.slotsPerPeriod
  {
    && |table| == periods * c.slotsPerPeriod
    && forall i :: 0 <= i < |table| ==> table[i] == SlotSymbols(c, i % c.slotsPerPeriod)
  }

  lemma TableFlags(c: Tdd, periods: nat, table: seq<seq<nat>>, slot: nat)
    requires Accepted(c) && 0 < periods && IsTable(c, periods, table)
    ensures table != [] && Flags(TablePattern(table), slot) == Flags(PeriodPattern(c), slot)
  {
    var m := c.slotsPerPeriod;
    var n := periods * m;
    MulAtLeast(periods, m);
    var frame := seq(n, (i: nat) => TypeInPeriod(c, i % m));
    forall i | 0 <= i < n ensures TablePattern(table)[i] == frame[i] {
      DivMod(i, m);
      SlotSelectIsType(c, i % m);
    }
    assert TablePattern(table) == frame;
    FlagsByFrame(c, periods, slot);
  }

  lemma {:induction false} SameFlagsSameState(p: seq<SlotType>, q: seq<SlotType>, u: nat, n: nat)
    requires p != [] && q != [] && forall t: nat :: Flags(p, t) == Flags(q, t)
    ensures After(p, u, n) == After(q, u, n)
  {
    if n > 0 { SameFlagsSameState(p, q, u, n - 1); }
  }

  /** Main result for tables: the flags that `tx_rf` derives from the symbols laid out by
      `set_tdd_config_nr` bracket all bursts, without a failed assertion, exactly for these configurations. */
  lemma TableBracketsExactly(c: Tdd, periods: nat, table: seq<seq<nat>>)
    requires Accepted(c) && 0 < periods && IsTable(c, periods, table)
    ensures table != []
    ensures Bracketed(TablePattern(table), c.slotsPerPeriod - 1) <==> 0 < c.uplinkSlots && GoodShare(c)
  {
    TableFlags(c, periods, table, 0);
    var p, q, u := TablePattern(table), PeriodPattern(c), c.slotsPerPeriod - 1;
    forall t: nat ensures Flags(p, t) == Flags(q, t) { TableFlags(c, periods, table, t); }
    forall n: nat ensures After(p, u, n) == After(q, u, n) { SameFlagsSameState(p, q, u, n); }
    ConfigurationBracketsExactly(c);
  }

  /** Every accepted configuration whose mixed slot has no downlink symbol stops the program in that slot. */
  lemma MixedWithoutDownlinkStops(c: Tdd)
    requires Accepted(c) && HasMixed(c) && c.downlinkSymbols == 0
    ensures Flags(PeriodPattern(c), c.downlinkSlots) == Abort
  {
    Neighbours(c, c.downlinkSlots);
    ModOnce(c.downlinkSlots, c.slotsPerPeriod);
  }

  // ---- How the flags fail ----

  /** A burst of one slot is started and not ended: the radio is still on in the uplink slot behind it. */
  lemma SingleSlotNeverEnded(pattern: seq<SlotType>, u: nat, n: nat)
    requires pattern != [] && After(pattern, u, n) == Off && At(pattern, u + n) == Downlink
    requires Prev(pattern, u + n) == Uplink && Next(pattern, u + n) == Uplink
    ensures After(pattern, u, n + 1) == On && After(pattern, u, n + 2) == Confused
  {
    assert After(pattern, u, n + 2) == Receive(After(pattern, u, n + 1), Flags(pattern, u + n + 1));
  }

  /** A mixed slot that opens a burst ends what was not started; one in the middle ends it too early. */
  lemma MixedEndsBurst(pattern: seq<SlotType>, u: nat, n: nat)
    requires pattern != [] && At(pattern, u + n).Mixed? && At(pattern, u + n).txSymbols > 0
    ensures After(pattern, u, n) == Off ==> After(pattern, u, n + 1) == Confused
    ensures After(pattern, u, n) == On && Next(pattern, u + n) == Downlink ==>
              After(pattern, u, n + 1) == Off && After(pattern, u, n + 2) == Confused
  {
    PrevOfNext(pattern, u + n);
    assert After(pattern, u, n + 2) == Receive(After(pattern, u, n + 1), Flags(pattern, u + n + 1));
  }
}
