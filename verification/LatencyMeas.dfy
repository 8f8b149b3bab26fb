/**
 The latency statistics of the FS6 split: a `Meas` keeps ten extreme samples by writing each new sample over
 the entry that the previous sort pushed to index 0, and sorting the eleven entries again with a
 comparator that truncates a 64-bit difference to 32 bits.
 */
module LatencyMeas {
  import Arith

  const TWO_31 := 0x8000_0000
  const TWO_32 := 0x1_0000_0000
  const TWO_64 := 0x1_0000_0000_0000_0000
  const INT_MAX := 0x7FFF_FFFF
  const ENTRIES := 11
  const KEPT := 10

  // ---- The comparators ----

  /** Conversion of a 64-bit unsigned value to a 32-bit signed one. */
  function ToInt(x: int): int {
    var low := x % TWO_32;
    if low < TWO_31 then low else low - TWO_32
  }

  /** `cmpint` (maximum mode) and `cmpintRev` (minimum mode). */
  function Compare(maxMode: bool, a: nat, b: nat): int {
    if maxMode then ToInt((a - b) % TWO_64) else ToInt((b - a) % TWO_64)
  }

  /** The order the comparator is meant to be. */
  predicate Ordered(maxMode: bool, a: nat, b: nat) { if maxMode then a <= b else b <= a }

  /** The truncated difference is the true one exactly when the latter fits 32 signed bits. */
  lemma CompareExactly(a: nat, b: nat)
    requires a < TWO_64 && b < TWO_64
    ensures Compare(true, a, b) == a - b <==> -TWO_31 <= a - b < TWO_31
    ensures Compare(false, a, b) == b - a <==> -TWO_31 <= b - a < TWO_31
  {
    ToIntExactly(a - b);
    ToIntExactly(b - a);
  }

  lemma ToIntExactly(x: int)
    ensures ToInt(x % TWO_64) == x <==> -TWO_31 <= x < TWO_31
  {
    LowBits(x);
    Arith.DivMod(x, TWO_32);
    if -TWO_31 <= x < 0 { Arith.DivModUnique(x, TWO_32, -1, x + TWO_32); }
  }

  /** The comparator orders a pair correctly exactly when the low 32 bits of the distance say so. */
  predicate WellOrdered(a: nat, b: nat) {
    if a <= b then (b - a) % TWO_32 <= TWO_31 else 0 < (a - b) % TWO_32 < TWO_31
  }

  lemma LowBits(x: int)
    ensures x % TWO_64 % TWO_32 == x % TWO_32
  {
    Arith.ModMultiple(x, TWO_32, TWO_32, TWO_64);
  }

  lemma CompareOrdersExactly(maxMode: bool, a: nat, b: nat)
    requires a < TWO_64 && b < TWO_64
    ensures (Compare(maxMode, a, b) <= 0 <==> Ordered(maxMode, a, b))
       <==> if maxMode then WellOrdered(a, b) else WellOrdered(b, a)
  {
    if maxMode { DifferenceOrders(a, b); } else { DifferenceOrders(b, a); }
  }

  lemma DifferenceOrders(a: nat, b: nat)
    ensures (ToInt((a - b) % TWO_64) <= 0 <==> a <= b) <==> WellOrdered(a, b)
  {
    LowBits(a - b);
    if a <= b { NegatedLowBits(b - a); }
  }

  /** Low bits of a number and of its negative. */
  lemma NegatedLowBits(d: int)
    requires 0 <= d
    ensures (-d) % TWO_32 == if d % TWO_32 == 0 then 0 else TWO_32 - d % TWO_32
  {
    Arith.DivMod(d, TWO_32);
    if d % TWO_32 == 0 {
      Arith.DivModUnique(-d, TWO_32, -(d / TWO_32), 0);
    } else {
      Arith.DivModUnique(-d, TWO_32, -(d / TWO_32) - 1, TWO_32 - d % TWO_32);
    }
  }

  /** Below 2^31 both comparators order correctly. */
  lemma CompareOrders(maxMode: bool, a: nat, b: nat)
    requires a < TWO_31 && b < TWO_31
    ensures Compare(maxMode, a, b) <= 0 <==> Ordered(maxMode, a, b)
  {
    CompareExactly(a, b);
  }

  /** The comparator as `qsort` uses it, and the order it is meant to be. */
  function Comparator(maxMode: bool): (nat, nat) -> bool { (a: nat, b: nat) => Compare(maxMode, a, b) <= 0 }

  function Meant(maxMode: bool): (nat, nat) -> bool { (a: nat, b: nat) => Ordered(maxMode, a, b) }

  // ---- Sorting ----

  type Order = (nat, nat) -> bool

  function Insert(le: Order, x: nat, s: seq<nat>): (r: seq<nat>)
    ensures |r| == |s| + 1
  {
    if s == [] || le(x, s[0]) then [x] + s else [s[0]] + Insert(le, x, s[1..])
  }

  function Sort(le: Order, s: seq<nat>): (r: seq<nat>)
    ensures |r| == |s|
  {
    if s == [] then [] else Insert(le, s[0], Sort(le, s[1..]))
  }

  ghost predicate Linear(le: Order) {
    && (forall a: nat, b: nat :: le(a, b) || le(b, a))
    && (forall a: nat, b: nat :: le(a, b) && le(b, a) ==> a == b)
    && (forall a: nat, b: nat, c: nat :: le(a, b) && le(b, c) ==> le(a, c))
  }

  ghost predicate Sorted(le: Order, s: seq<nat>) {
    forall i, j :: 0 <= i < j < |s| ==> le(s[i], s[j])
  }

  lemma {:induction false} InsertAdds(le: Order, x: nat, s: seq<nat>)
    ensures multiset(Insert(le, x, s)) == multiset(s) + multiset{x}
  {
    if s != [] {
      assert s == [s[0]] + s[1..];
      InsertAdds(le, x, s[1..]);
    }
  }

  lemma {:induction false} InsertSorts(le: Order, x: nat, s: seq<nat>)
    requires Linear(le) && Sorted(le, s)
    ensures Sorted(le, Insert(le, x, s))
  {
    if s != [] && !le(x, s[0]) {
      InsertSorts(le, x, s[1..]);
      InsertAbove(le, s[0], x, s[1..]);
    }
  }

  lemma {:induction false} InsertAbove(le: Order, low: nat, x: nat, s: seq<nat>)
    requires le(low, x) && forall k :: 0 <= k < |s| ==> le(low, s[k])
    ensures forall k :: 0 <= k < |s| + 1 ==> le(low, Insert(le, x, s)[k])
  {
    if s != [] { InsertAbove(le, low, x, s[1..]); }
  }

  /** The sort orders its input and only rearranges it. */
  lemma {:induction false} SortSorts(le: Order, s: seq<nat>)
    requires Linear(le)
    ensures Sorted(le, Sort(le, s))
    ensures multiset(Sort(le, s)) == multiset(s)
  {
    if s != [] {
      SortSorts(le, s[1..]);
      InsertSorts(le, s[0], Sort(le, s[1..]));
      InsertAdds(le, s[0], Sort(le, s[1..]));
      assert s == [s[0]] + s[1..];
    }
  }

  /** An ordered rearrangement is unique, so any algorithm that meets the contract of `qsort` computes Sort. */
  lemma {:induction false} SortUnique(le: Order, s: seq<nat>, t: seq<nat>)
    requires Linear(le) && Sorted(le, s) && Sorted(le, t) && multiset(s) == multiset(t)
    ensures s == t
  {
    assert |s| == |multiset(s)| && |t| == |multiset(t)|;
    if s != [] {
      assert s[0] in multiset(s) && t[0] in multiset(t);
      FirstIsLeast(le, s, t[0]);
      FirstIsLeast(le, t, s[0]);
      assert multiset(s[1..]) == multiset(s) - multiset{s[0]} by { assert s == [s[0]] + s[1..]; }
      assert multiset(t[1..]) == multiset(t) - multiset{t[0]} by { assert t == [t[0]] + t[1..]; }
      SortUnique(le, s[1..], t[1..]);
      assert s == [s[0]] + s[1..] && t == [t[0]] + t[1..];
    }
  }

  lemma FirstIsLeast(le: Order, s: seq<nat>, x: nat)
    requires s != [] && Linear(le) && Sorted(le, s)
    ensures x in multiset(s) ==> le(s[0], x)
  {
  }

  lemma {:induction false} SortOfSorted(le: Order, s: seq<nat>)
    requires Sorted(le, s)
    ensures Sort(le, s) == s
  {
    if s != [] { SortOfSorted(le, s[1..]); }
  }

  ghost predicate Small(s: seq<nat>) { forall k :: 0 <= k < |s| ==> s[k] < TWO_31 }

  /** Two orders that agree below 2^31 sort such samples alike. */
  ghost predicate AgreeBelow(le: Order, le': Order) {
    forall a: nat, b: nat :: a < TWO_31 && b < TWO_31 ==> le(a, b) == le'(a, b)
  }

  lemma {:induction false} InsertAgrees(le: Order, le': Order, x: nat, s: seq<nat>)
    requires AgreeBelow(le, le') && x < TWO_31 && Small(s)
    ensures Insert(le, x, s) == Insert(le', x, s) && Small(Insert(le, x, s))
  {
    if s != [] { InsertAgrees(le, le', x, s[1..]); }
  }

  lemma {:induction false} SortAgrees(le: Order, le': Order, s: seq<nat>)
    requires AgreeBelow(le, le') && Small(s)
    ensures Sort(le, s) == Sort(le', s) && Small(Sort(le, s))
  {
    if s != [] {
      SortAgrees(le, le', s[1..]);
      InsertAgrees(le, le', s[0], Sort(le, s[1..]));
    }
  }

  /** Below 2^31 the truncating comparators sort as they are meant to. */
  lemma ComparatorSorts(maxMode: bool, s: seq<nat>)
    requires Small(s)
    ensures Sort(Comparator(maxMode), s) == Sort(Meant(maxMode), s) && Small(Sort(Meant(maxMode), s))
  {
    forall a: nat, b: nat | a < TWO_31 && b < TWO_31
      ensures Comparator(maxMode)(a, b) == Meant(maxMode)(a, b)
    {
      CompareOrders(maxMode, a, b);
    }
    SortAgrees(Comparator(maxMode), Meant(maxMode), s);
  }

  lemma MeantIsLinear(maxMode: bool)
    ensures Linear(Meant(maxMode))
  {
  }

  // ---- The table ----

  datatype Values = Values(iterations: nat, sum: nat, table: seq<nat>)

  /** The three assignments and the sort shared by both update functions. */
  function Add(v: Values, diff: nat, maxMode: bool): (r: Values)
    requires |v.table| == ENTRIES
    ensures |r.table| == ENTRIES
  {
    Values((v.iterations + 1) % TWO_64, (v.sum + diff) % TWO_64, Sort(Comparator(maxMode), v.table[0 := diff]))
  }

  /** What a reset fills the table with. */
  function ResetPad(maxMode: bool): nat { if maxMode then 0 else INT_MAX }

  function Cleared(maxMode: bool): Values {
    Values(0, 0, Padding(ResetPad(maxMode), ENTRIES))
  }

  function Padding(p: nat, n: nat): seq<nat> { seq(n, _ => p) }

  function AddReset(v: Values, diff: nat, period: nat, maxMode: bool): (r: Values)
    requires |v.table| == ENTRIES && period > 0
    ensures |r.table| == ENTRIES
  {
    var w := Add(v, diff, maxMode);
    if w.iterations % period == 0 then Cleared(maxMode) else w
  }

  class Meas {
    var iterations: nat
    var sum: nat
    const maxArray: array<nat>

    ghost predicate Valid()
      reads this
    {
      maxArray.Length == ENTRIES
    }

    ghost function Contents(): Values
      reads this, maxArray
    {
      Values(iterations, sum, maxArray[..])
    }

    /** `initRefTimes`: a zeroed structure. */
    constructor ()
      ensures Valid() && fresh(maxArray) && Contents() == Values(0, 0, Padding(0, ENTRIES))
    {
      iterations, sum := 0, 0;
      maxArray := new nat[ENTRIES](_ => 0);
      new;
      assert maxArray[..] == Padding(0, ENTRIES);
    }

    method Qsort(maxMode: bool)
      requires Valid()
      modifies maxArray
      ensures maxArray[..] == Sort(Comparator(maxMode), old(maxArray[..]))
    {
      var s := Sort(Comparator(maxMode), maxArray[..]);
      forall i | 0 <= i < ENTRIES { maxArray[i] := s[i]; }
      assert maxArray[..] == s;
    }

    /** `updateTimes`; diff stands for the elapsed microseconds. */
    method UpdateTimes(start: nat, diff: nat)
      requires Valid()
      modifies this, maxArray
      ensures Contents() == if start == 0 then old(Contents()) else Add(old(Contents()), diff, true)
    {
      if start != 0 {
        maxArray[0] := diff;
        sum := (sum + diff) % TWO_64;
        iterations := (iterations + 1) % TWO_64;
        Qsort(true);
      }
    }

    /** `updateTimesReset`. */
    method UpdateTimesReset(start: nat, diff: nat, period: nat, maxMode: bool)
      requires Valid() && period > 0
      modifies this, maxArray
      ensures Contents() == if start == 0 then old(Contents()) else AddReset(old(Contents()), diff, period, maxMode)
    {
      if start != 0 {
        maxArray[0] := diff;
        sum := (sum + diff) % TWO_64;
        iterations := (iterations + 1) % TWO_64;
        Qsort(maxMode);
        if iterations % period == 0 {
          Clear(maxMode);
        }
      }
    }

    /** The reset: zero everything, then in minimum mode fill the table with INT_MAX. */
    method Clear(maxMode: bool)
      requires Valid()
      modifies this, maxArray
      ensures Contents() == Cleared(maxMode)
    {
      iterations, sum := 0, 0;
      forall i | 0 <= i < ENTRIES { maxArray[i] := 0; }
      if !maxMode {
        for i := 0 to ENTRIES
          invariant iterations == sum == 0
          invariant forall j :: 0 <= j < i ==> maxArray[j] == INT_MAX
        {
          maxArray[i] := INT_MAX;
        }
      }
      assert maxArray[..] == Padding(ResetPad(maxMode), ENTRIES);
    }
  }

  // ---- What the table stands for ----

  function Sum(s: seq<nat>): nat { if s == [] then 0 else s[0] + Sum(s[1..]) }

  /** The last ten entries of a sequence. */
  function LastTen(s: seq<nat>): seq<nat>
    requires |s| >= KEPT
  {
    s[|s| - KEPT..]
  }

  /** Reference: sort the whole history with ten padding entries, and keep ten: in maximum mode the ten
      largest in ascending order, in minimum mode the ten smallest in descending order. */
  function Extremes(maxMode: bool, history: seq<nat>, pad: nat): seq<nat> {
    LastTen(Sort(Meant(maxMode), history + Padding(pad, KEPT)))
  }

  /** v summarises the history, newest sample first. */
  ghost predicate Summarises(v: Values, maxMode: bool, history: seq<nat>, pad: nat) {
    && |v.table| == ENTRIES
    && v.iterations == |history| % TWO_64
    && v.sum == Sum(history) % TWO_64
    && v.table[1..] == Extremes(maxMode, history, pad)
  }

  lemma {:induction false} InsertLastTen(le: Order, x: nat, s: seq<nat>)
    requires |s| >= KEPT && Linear(le) && Sorted(le, s)
    ensures LastTen(Insert(le, x, s)) == Insert(le, x, LastTen(s))[1..]
  {
    if |s| > KEPT {
      if le(x, s[0]) {
        InsertBefore(le, x, s);
      } else {
        InsertLastTen(le, x, s[1..]);
        LastTenOfRest(s);
        LastTenOfRest(Insert(le, x, s));
      }
    }
  }

  lemma LastTenOfRest(s: seq<nat>)
    requires |s| > KEPT
    ensures LastTen(s[1..]) == LastTen(s)
  {
  }

  lemma InsertBefore(le: Order, x: nat, s: seq<nat>)
    requires |s| > KEPT && Linear(le) && Sorted(le, s) && le(x, s[0])
    ensures LastTen(Insert(le, x, s)) == Insert(le, x, LastTen(s))[1..]
  {
    var ten := LastTen(s);
    assert le(s[0], s[|s| - KEPT]) && ten[0] == s[|s| - KEPT];
    assert Insert(le, x, ten) == [x] + ten;
    LastTenOfRest([x] + s);
  }

  lemma PaddingSorted(maxMode: bool, pad: nat)
    ensures Extremes(maxMode, [], pad) == Padding(pad, KEPT)
  {
    assert [] + Padding(pad, KEPT) == Padding(pad, KEPT);
    SortOfSorted(Meant(maxMode), Padding(pad, KEPT));
  }

  /** Overwriting the dropped entry and sorting again keeps the ten extremes. */
  lemma ExtremesStep(le: Order, history: seq<nat>, pad: nat, diff: nat)
    requires Linear(le)
    ensures Sort(le, [diff] + LastTen(Sort(le, history + Padding(pad, KEPT))))[1..]
         == LastTen(Sort(le, [diff] + history + Padding(pad, KEPT)))
  {
    var padded := history + Padding(pad, KEPT);
    var s := Sort(le, padded);
    SortSorts(le, padded);
    InsertLastTen(le, diff, s);
    assert [diff] + history + Padding(pad, KEPT) == [diff] + padded;
    assert ([diff] + padded)[1..] == padded;
    SortOfSorted(le, LastTen(s));
    assert ([diff] + LastTen(s))[1..] == LastTen(s);
  }

  lemma SmallExtremes(maxMode: bool, history: seq<nat>, pad: nat)
    requires Small(history) && pad < TWO_31
    ensures Small(Extremes(maxMode, history, pad))
  {
    ComparatorSorts(maxMode, history + Padding(pad, KEPT));
  }

  /** One update keeps the correspondence. */
  lemma AddSummarises(v: Values, maxMode: bool, history: seq<nat>, pad: nat, diff: nat)
    requires Summarises(v, maxMode, history, pad) && Small(history) && pad < TWO_31 && diff < TWO_31
    ensures Summarises(Add(v, diff, maxMode), maxMode, [diff] + history, pad)
  {
    AddExtremes(v.table, maxMode, history, pad, diff);
    Arith.ShiftMod(|history|, 1, TWO_64);
    Arith.ShiftMod(Sum(history), diff, TWO_64);
    assert ([diff] + history)[1..] == history;
  }

  lemma AddExtremes(table: seq<nat>, maxMode: bool, history: seq<nat>, pad: nat, diff: nat)
    requires |table| == ENTRIES && table[1..] == Extremes(maxMode, history, pad)
    requires Small(history) && pad < TWO_31 && diff < TWO_31
    ensures Sort(Comparator(maxMode), table[0 := diff])[1..] == Extremes(maxMode, [diff] + history, pad)
  {
    var ten := Extremes(maxMode, history, pad);
    assert table[0 := diff] == [diff] + ten;
    SmallExtremes(maxMode, history, pad);
    ComparatorSorts(maxMode, [diff] + ten);
    MeantIsLinear(maxMode);
    ExtremesStep(Meant(maxMode), history, pad, diff);
  }

  /** The samples added since the last reset, newest first. */
  function SinceReset(samples: seq<nat>, period: nat): seq<nat>
    requires period > 0
  {
    if samples == [] then []
    else
      var before := SinceReset(samples[1..], period);
      if |before| + 1 == period then [] else [samples[0]] + before
  }

  function AddAllReset(samples: seq<nat>, period: nat, maxMode: bool): (r: Values)
    requires period > 0
    ensures |r.table| == ENTRIES
  {
    if samples == [] then Values(0, 0, Padding(0, ENTRIES))
    else AddReset(AddAllReset(samples[1..], period, maxMode), samples[0], period, maxMode)
  }

  /** SinceReset holds the newest |samples| % period samples. */
  lemma {:induction false} SinceResetIsRecent(samples: seq<nat>, period: nat)
    requires period > 0
    ensures |SinceReset(samples, period)| == |samples| % period && SinceReset(samples, period) <= samples
  {
    if samples == [] {
      Arith.DivModUnique(0, period, 0, 0);
    } else {
      SinceResetIsRecent(samples[1..], period);
      var k := |samples| - 1;
      Arith.DivMod(k, period);
      if k % period + 1 == period {
        Arith.DivModUnique(k + 1, period, k / period + 1, 0);
      } else {
        Arith.DivModUnique(k + 1, period, k / period, k % period + 1);
      }
      assert samples == [samples[0]] + samples[1..];
    }
  }

  /** The padding: zero until the first reset, then the one the reset writes. */
  function PadOf(samples: seq<nat>, period: nat, maxMode: bool): nat {
    if maxMode || |samples| < period then 0 else INT_MAX
  }

  /** Table, sum and count are those of the samples since the last reset. */
  ghost predicate TableRight(samples: seq<nat>, period: nat, maxMode: bool)
    requires period > 0
  {
    Summarises(
      AddAllReset(samples, period, maxMode), maxMode, SinceReset(samples, period), PadOf(samples, period, maxMode))
  }

  /** Main result: after any samples below 2^31 the table, the sum and the count of `updateTimesReset` are
      those of the samples since the last reset. */
  lemma {:induction false} TableIsExtremes(samples: seq<nat>, period: nat, maxMode: bool)
    requires 0 < period < TWO_31 && Small(samples)
    ensures TableRight(samples, period, maxMode)
    decreases |samples|
  {
    if samples == [] {
      PaddingSorted(maxMode, 0);
      assert Padding(0, ENTRIES)[1..] == Padding(0, KEPT);
    } else {
      TableIsExtremes(samples[1..], period, maxMode);
      TableStep(samples, period, maxMode);
    }
  }

  lemma TableStep(samples: seq<nat>, period: nat, maxMode: bool)
    requires 0 < period < TWO_31 && Small(samples) && samples != [] && TableRight(samples[1..], period, maxMode)
    ensures TableRight(samples, period, maxMode)
  {
    var before := samples[1..];
    var v, since := AddAllReset(before, period, maxMode), SinceReset(before, period);
    SinceSmall(before, period);
    ResetStep(v, since, PadOf(before, period, maxMode), samples[0], period, maxMode);
    PadStep(samples, period, maxMode);
  }

  lemma SinceSmall(samples: seq<nat>, period: nat)
    requires 0 < period && Small(samples)
    ensures Small(SinceReset(samples, period)) && |SinceReset(samples, period)| == |samples| % period < period
  {
    SinceResetIsRecent(samples, period);
    Arith.DivMod(|samples|, period);
  }

  lemma PadStep(samples: seq<nat>, period: nat, maxMode: bool)
    requires period > 0 && samples != []
    requires |SinceReset(samples[1..], period)| == (|samples| - 1) % period < period
    ensures var n := |SinceReset(samples[1..], period)| + 1;
            && (n == period ==> PadOf(samples, period, maxMode) == ResetPad(maxMode))
            && (n < period ==> PadOf(samples, period, maxMode) == PadOf(samples[1..], period, maxMode))
  {
    if |SinceReset(samples[1..], period)| + 1 == period {
      FullPeriod(|samples|, period);
    } else {
      PartPeriod(|samples|, period);
    }
  }

  /** One step, with h the samples since the last reset before it. */
  lemma ResetStep(v: Values, h: seq<nat>, pad: nat, diff: nat, period: nat, maxMode: bool)
    requires 0 < period < TWO_31 && Small(h) && |h| < period && diff < TWO_31 && pad < TWO_31
    requires Summarises(v, maxMode, h, pad)
    ensures |h| + 1 < period ==> Summarises(AddReset(v, diff, period, maxMode), maxMode, [diff] + h, pad)
    ensures |h| + 1 == period ==> Summarises(AddReset(v, diff, period, maxMode), maxMode, [], ResetPad(maxMode))
  {
    AddSummarises(v, maxMode, h, pad, diff);
    assert |[diff] + h| == |h| + 1;
    assert Add(v, diff, maxMode).iterations == |h| + 1;
    if |h| + 1 == period {
      Arith.DivModUnique(period, period, 1, 0);
      ClearedSummarises(maxMode);
    } else {
      Arith.DivModUnique(|h| + 1, period, 0, |h| + 1);
    }
  }

  lemma ClearedSummarises(maxMode: bool)
    ensures Summarises(Cleared(maxMode), maxMode, [], ResetPad(maxMode))
  {
    var pad := ResetPad(maxMode);
    PaddingSorted(maxMode, pad);
    assert Cleared(maxMode).table[1..] == Padding(pad, KEPT);
  }

  lemma FullPeriod(n: nat, period: nat)
    requires n > 0 && period > 0 && (n - 1) % period + 1 == period
    ensures n >= period
  {
    Arith.DivMod(n - 1, period);
    if n - 1 < period { Arith.DivModUnique(n - 1, period, 0, n - 1); }
  }

  lemma PartPeriod(n: nat, period: nat)
    requires n > 0 && period > 0 && (n - 1) % period + 1 < period
    ensures n - 1 < period <==> n < period
  {
    if n == period { Arith.DivModUnique(n - 1, period, 0, n - 1); }
  }

  function AddAll(samples: seq<nat>): (r: Values)
    ensures |r.table| == ENTRIES
  {
    if samples == [] then Values(0, 0, Padding(0, ENTRIES)) else Add(AddAll(samples[1..]), samples[0], true)
  }

  /** The same for `updateTimes`, which never resets. */
  lemma {:induction false} TopTenOfAll(samples: seq<nat>)
    requires Small(samples)
    ensures Summarises(AddAll(samples), true, samples, 0)
  {
    if samples == [] {
      PaddingSorted(true, 0);
    } else {
      TopTenOfAll(samples[1..]);
      AddSummarises(AddAll(samples[1..]), true, samples[1..], 0, samples[0]);
      assert samples == [samples[0]] + samples[1..];
    }
  }

  // ---- Larger samples ----

  /** The comparator takes x for zero or less. */
  predicate LooksSmall(x: nat) { x % TWO_32 == 0 || x % TWO_32 >= TWO_31 }

  lemma FirstSample(x: nat)
    ensures AddAll([x]).table == Sort(Comparator(true), [x] + Padding(0, KEPT)) && AddAll([x]).sum == x % TWO_64
  {
    assert [x][1..] == [];
    assert AddAll([]) == Values(0, 0, Padding(0, ENTRIES));
    assert Padding(0, ENTRIES)[0 := x] == [x] + Padding(0, KEPT);
  }

  lemma ComparedWithZero(x: nat)
    requires x < TWO_64
    ensures Compare(true, x, 0) <= 0 <==> LooksSmall(x)
  {
    LowBits(x);
  }

  /** Without the bound of 2^31 the claim fails: a first sample, which is the largest so far, is missing from the
      table of maxima exactly when its low 32 bits are zero or at least 2^31. */
  lemma FirstSampleForgottenExactly(x: nat)
    requires 0 < x < TWO_64
    ensures AddAll([x]).table[1..] == Padding(0, KEPT) <==> LooksSmall(x)
  {
    var zeros, le := Padding(0, KEPT), Comparator(true);
    FirstSample(x);
    ComparedWithZero(x);
    assert ([x] + zeros)[1..] == zeros;
    SortOfSorted(le, zeros);
    if LooksSmall(x) {
      assert Insert(le, x, zeros) == [x] + zeros;
    } else {
      InsertKeepsLarge(x, zeros);
      var t := zeros + [x];
      assert t[KEPT] == x && t[1..][KEPT - 1] == t[KEPT];
    }
  }

  /** A sample that does not look small ends up behind the zeros. */
  lemma {:induction false} InsertKeepsLarge(x: nat, zeros: seq<nat>)
    requires x < TWO_64 && !LooksSmall(x) && forall k :: 0 <= k < |zeros| ==> zeros[k] == 0
    ensures Insert(Comparator(true), x, zeros) == zeros + [x]
  {
    if zeros != [] {
      ComparedWithZero(x);
      InsertKeepsLarge(x, zeros[1..]);
      assert zeros == [zeros[0]] + zeros[1..];
    }
  }

  /** For example, 2^31 + 1 is summed but forgotten, while 2^32 + 5 is kept. */
  lemma LargeSamples()
    ensures AddAll([TWO_31 + 1]).sum == TWO_31 + 1 && AddAll([TWO_31 + 1]).table[1..] == Padding(0, KEPT)
    ensures AddAll([TWO_32 + 5]).table[1..] != Padding(0, KEPT)
  {
    var x, y := TWO_31 + 1, TWO_32 + 5;
    FirstSample(x);
    Arith.DivModUnique(x, TWO_32, 0, x);
    Arith.DivModUnique(y, TWO_32, 1, 5);
    FirstSampleForgottenExactly(x);
    FirstSampleForgottenExactly(y);
  }
}
