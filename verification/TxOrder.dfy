/**
 The conditions of the transmit pipeline, stated for slot patterns and numbers of pool threads: when all runs start in
 order, when they send in order, and when an element can be lost.
 */
module TxOrder {
  import opened Arith
  import opened TxSchedule
  import P = TxPipeline
  import R = TxThreads
  import L = TxPipelineLimits
  import T = TxElements
  import O = TxOneThread
  import B = TxBypass
  import V = TxRecovery

  // ---- What the pipeline sees of a pattern ----

  lemma EnvJob(c: Config, n: nat)
    requires 0 < c.slotsPerFrame == |c.downlink|
    ensures EnvOf(c).job(n) == JobAt(c, c.slAhead + n)
    ensures P.Sends(EnvOf(c), n) == Sends(c, c.slAhead + n) && EnvOf(c).downlink(n) == IsDownlink(c, c.slAhead + n)
  {
  }

  lemma EnvNext(c: Config, x: nat)
    requires 0 < c.slotsPerFrame == |c.downlink|
    ensures EnvOf(c).nextSlot(x) == NextSlot(c, x)
  {
  }

  /** Slot n' is the first transmitted one after slot n (both as numbered by `ru_thread`). */
  ghost predicate Follows(c: Config, n: nat, n': nat)
    requires 0 < c.slotsPerFrame == |c.downlink|
  {
    n < n' && FirstAfter(c, c.slAhead + n, n' - n)
  }

  lemma NextIndex(c: Config, n: nat) returns (n': nat)
    requires Valid(c)
    ensures Follows(c, n, n')
  {
    var w :| 0 <= w < c.slotsPerFrame && Sends(c, w);
    var bound := WithinFrame(c, c.slAhead + n, w);
    var d := First(c, c.slAhead + n, 1, bound);
    n' := n + d;
  }

  lemma IdleBetween(c: Config, n: nat, n': nat)
    requires 0 < c.slotsPerFrame == |c.downlink| && Follows(c, n, n')
    ensures L.Idle(EnvOf(c), n + 1, n') && Sends(c, c.slAhead + n') && P.Sends(EnvOf(c), n')
  {
    forall k | n + 1 <= k < n' ensures !P.Sends(EnvOf(c), k) {
      EnvJob(c, k);
      assert !Sends(c, c.slAhead + k);
    }
    EnvJob(c, n');
  }

  /** The first transmitted slot of all. */
  lemma FirstIndex(c: Config) returns (n: nat)
    requires Valid(c)
    ensures Sends(c, c.slAhead + n) && P.Sends(EnvOf(c), n) && L.Idle(EnvOf(c), 0, n)
    ensures c.continuous ==> n == 0
  {
    EnvJob(c, 0);
    if Sends(c, c.slAhead) {
      n := 0;
    } else {
      n := NextIndex(c, 0);
      IdleBetween(c, 0, n);
    }
  }

  /** The next job has the slot number predicted from the one before. */
  lemma Predicted(c: Config, n: nat, n': nat)
    requires 0 < c.slotsPerFrame == |c.downlink| && Follows(c, n, n')
    ensures var e := EnvOf(c); e.job(n').slot == e.nextSlot(e.job(n).slot)
  {
    var t, d := c.slAhead + n, n' - n;
    EnvJob(c, n);
    EnvJob(c, n');
    EnvNext(c, EnvOf(c).job(n).slot);
    NextSlotIsFirst(c, t, 1, d);
    assert t + d == c.slAhead + n';
  }

  /** The first three transmitted slots. */
  lemma FirstThree(c: Config) returns (n0: nat, n1: nat, n2: nat)
    requires Valid(c)
    ensures Sends(c, c.slAhead + n0) && Follows(c, n0, n1) && Follows(c, n1, n2) && (c.continuous ==> n0 == 0)
    ensures L.FirstTwo(EnvOf(c), n0, n1) && L.ThenThird(EnvOf(c), n1, n2)
  {
    n0 := FirstIndex(c);
    n1 := NextIndex(c, n0);
    n2 := NextIndex(c, n1);
    IdleBetween(c, n0, n1);
    IdleBetween(c, n1, n2);
  }

  /** Slot numbers a frame period or less apart: equal exactly after a full period, and then in another frame. */
  lemma SlotsApart(c: Config, n: nat, n': nat)
    requires 0 < c.slotsPerFrame == |c.downlink| && n < n' <= n + c.slotsPerFrame
    ensures var e := EnvOf(c);
            && (e.job(n').slot == e.job(n).slot <==> n' == n + c.slotsPerFrame)
            && (n' == n + c.slotsPerFrame ==> e.job(n').frame != e.job(n).frame)
  {
    var t, d, m := c.slAhead + n, n' - n, c.slotsPerFrame;
    EnvJob(c, n);
    EnvJob(c, n');
    assert t + d == c.slAhead + n';
    Apart(t, d, m);
  }

  lemma Apart(t: nat, d: nat, m: nat)
    requires 0 < d <= m
    ensures (t + d) % m == t % m <==> d == m
    ensures d == m ==> (t + d) / m == t / m + 1
  {
    DivMod(t, m);
    if d < m {
      ShiftMod(t, d, m);
      ModOnce(t % m + d, m);
    } else {
      Distribute(t / m, 1, m);
      DivModUnique(t + m, m, t / m + 1, t % m);
    }
  }

  /** Jobs of successive transmitted slots differ in slot or in frame. */
  lemma JobsDiffer(c: Config, n: nat, n': nat)
    requires 0 < c.slotsPerFrame == |c.downlink| && Follows(c, n, n')
    ensures EnvOf(c).job(n) != EnvOf(c).job(n')
  {
    SlotsApart(c, n, n');
  }

  /** The slot number of a transmitted slot is transmitted. */
  lemma SendsSlot(c: Config, n: nat)
    requires 0 < c.slotsPerFrame == |c.downlink| && Sends(c, c.slAhead + n)
    ensures EnvOf(c).job(n).slot < c.slotsPerFrame && Sends(c, EnvOf(c).job(n).slot)
  {
    var t, m := c.slAhead + n, c.slotsPerFrame;
    EnvJob(c, n);
    DivMod(t, m);
    ModOnce(t % m, m);
    SendsByResidue(c, t, t % m);
  }

  // ---- Two transmitted slots per frame: exactly what the order needs, once it has begun well ----

  /** With one transmitted slot per frame the next one has the same number. */
  lemma SameNumber(c: Config, n: nat, n': nat)
    requires Valid(c) && !TwoSlots(c) && Sends(c, c.slAhead + n) && Follows(c, n, n')
    ensures EnvOf(c).job(n').slot == EnvOf(c).job(n).slot
  {
    Predicted(c, n, n');
    SendsSlot(c, n);
    EnvNext(c, EnvOf(c).job(n).slot);
    NextSlotDiffers(c, EnvOf(c).job(n).slot);
  }

  lemma SingleSlotMisorders(c: Config, threads: nat)
    requires Valid(c) && !c.continuous && !TwoSlots(c) && 2 <= threads
    ensures exists s :: R.Reachable(EnvOf(c), threads, s) && L.Misordered(s)
  {
    var n0, n1, n2 := FirstThree(c);
    EnvJob(c, n1);
    IdleBetween(c, n0, n1);
    SameNumber(c, n0, n1);
    SameNumber(c, n1, n2);
    JobsDiffer(c, n1, n2);
    Predicted(c, n0, n1);
    L.SingleSlotMisorders(EnvOf(c), threads, n0, n1, n2);
  }

  /** Every pattern is predicted, number by number. */
  lemma PatternChains(c: Config)
    requires Valid(c)
    ensures O.Chains(EnvOf(c))
  {
    var e := EnvOf(c);
    forall n: nat ensures O.ChainsAt(e, n) {
      EnvJob(c, n);
      if P.Sends(e, n) && P.Schedule(e, n) != [] {
        NextOfSchedule(c, n);
        EnvNext(c, P.Schedule(e, n)[|P.Schedule(e, n)| - 1].slot);
      }
    }
  }

  /** In every run that starts in order, sending keeps the order of issue. */
  ghost predicate KeepsOrder(e: P.Env, threads: nat) {
    forall acts, s :: R.Runs(e, threads, acts, s) && P.StartedInOrder(s) ==> s.sent <= s.issued
  }

  lemma ContinuousSends(c: Config)
    requires Valid(c) && c.continuous && 2 <= c.slotsPerFrame
    ensures TwoSlots(c)
  {
    assert Sends(c, 0) && Sends(c, 1);
  }

  /** Main result.  Frames having more than one slot (they have 10, 20, 40, 80 or 160), all runs that start
      in order send in order if and only if at least two slots of a frame are transmitted or the pool has one thread. */
  lemma InOrderExactly(c: Config, threads: nat)
    requires Valid(c) && 2 <= c.slotsPerFrame && 1 <= threads
    ensures KeepsOrder(EnvOf(c), threads) <==> TwoSlots(c) || threads == 1
  {
    var e := EnvOf(c);
    if TwoSlots(c) {
      forall acts, s | R.Runs(e, threads, acts, s) && P.StartedInOrder(s) ensures s.sent <= s.issued {
        R.RunsAreRuns(e, threads, acts, s);
        TransmitsInOrder(c, e, acts, s);
      }
    } else if threads == 1 {
      PatternChains(c);
      forall acts, s | R.Runs(e, threads, acts, s) ensures s.sent <= s.issued { O.InOrder(e, acts, s); }
    } else {
      if c.continuous { ContinuousSends(c); }
      SingleSlotMisorders(c, threads);
      var s :| R.Reachable(e, threads, s) && L.Misordered(s);
      var acts :| R.Runs(e, threads, acts, s);
    }
  }

  // ---- A start-up in the wrong order ----

  /** The first job goes straight to L1_tx_out. */
  predicate BypassFirst(c: Config)
    requires 0 < c.slotsPerFrame == |c.downlink|
  {
    c.continuous && !IsDownlink(c, c.slAhead)
  }

  lemma BypassStarts(c: Config, acts: seq<P.Action>, s: P.State)
    requires Valid(c) && BypassFirst(c) && P.Reaches(EnvOf(c), acts, s)
    ensures P.StartedInOrder(s)
  {
    EnvJob(c, 0);
    B.StartsInOrder(EnvOf(c), acts, s);
  }

  /** Unless the first job bypasses the pool, or the pool has one thread, the second job can be sent before it. */
  lemma StartCanBeSwapped(c: Config, threads: nat) returns (s: P.State)
    requires Valid(c) && !BypassFirst(c) && 2 <= threads
    ensures R.Reachable(EnvOf(c), threads, s) && !P.StartedInOrder(s) && !(s.sent <= s.issued)
  {
    var e := EnvOf(c);
    var n0, n1, n2 := FirstThree(c);
    EnvJob(c, n0);
    L.ReachSwappedStart(e, threads, n0, n1);
    JobsDiffer(c, n0, n1);
    s := L.SwappedStart(e, n0, n1);
    assert s.sent[0] != s.issued[0];
  }

  ghost predicate StartsInOrder(e: P.Env, threads: nat) {
    forall acts, s :: R.Runs(e, threads, acts, s) ==> P.StartedInOrder(s)
  }

  /** Main result.  All runs start in order if and only if the pool has one thread, or transmission is continuous and
      the first slot is not downlink. */
  lemma StartsInOrderExactly(c: Config, threads: nat)
    requires Valid(c) && 1 <= threads
    ensures StartsInOrder(EnvOf(c), threads) <==> threads == 1 || BypassFirst(c)
  {
    var e := EnvOf(c);
    if threads == 1 {
      PatternChains(c);
      forall acts, s | R.Runs(e, threads, acts, s) ensures P.StartedInOrder(s) { O.InOrder(e, acts, s); }
    } else if BypassFirst(c) {
      forall acts, s | R.Runs(e, threads, acts, s) ensures P.StartedInOrder(s) {
        R.RunsAreRuns(e, threads, acts, s);
        BypassStarts(c, acts, s);
      }
    } else {
      var s := StartCanBeSwapped(c, threads);
      var acts :| R.Runs(e, threads, acts, s);
    }
  }

  ghost predicate SendsInOrder(e: P.Env, threads: nat) {
    forall acts, s :: R.Runs(e, threads, acts, s) ==> s.sent <= s.issued
  }

  lemma BypassOrderly(c: Config, acts: seq<P.Action>, s: P.State)
    requires Valid(c) && BypassFirst(c) && 2 <= c.slotsPerFrame && P.Reaches(EnvOf(c), acts, s)
    ensures P.Orderly(EnvOf(c), s)
  {
    BypassStarts(c, acts, s);
    ContinuousSends(c);
    TransmitsInOrder(c, EnvOf(c), acts, s);
  }

  /** Main result.  All runs, without any condition on how they start, send in order if and only if the pool has one
      thread, or transmission is continuous and the first slot is not downlink. */
  lemma SendsInOrderExactly(c: Config, threads: nat)
    requires Valid(c) && 2 <= c.slotsPerFrame && 1 <= threads
    ensures SendsInOrder(EnvOf(c), threads) <==> threads == 1 || BypassFirst(c)
  {
    var e := EnvOf(c);
    if threads == 1 {
      PatternChains(c);
      forall acts, s | R.Runs(e, threads, acts, s) ensures s.sent <= s.issued { O.InOrder(e, acts, s); }
    } else if BypassFirst(c) {
      forall acts, s | R.Runs(e, threads, acts, s) ensures s.sent <= s.issued {
        R.RunsAreRuns(e, threads, acts, s);
        BypassOrderly(c, acts, s);
      }
    } else {
      var s := StartCanBeSwapped(c, threads);
      var acts :| R.Runs(e, threads, acts, s);
    }
  }

  // ---- Three transmitted slots per frame: exactly when an element can be lost ----

  /** At least three slots of a frame are transmitted. */
  ghost predicate ThreeSlots(c: Config) { exists i, j, k :: ThreeAt(c, i, j, k) }

  ghost predicate ThreeAt(c: Config, i: nat, j: nat, k: nat) {
    && 0 < c.slotsPerFrame == |c.downlink| && i < c.slotsPerFrame && j < c.slotsPerFrame && k < c.slotsPerFrame
    && i != j && j != k && i != k && Sends(c, i) && Sends(c, j) && Sends(c, k)
  }

  /** The slot behind t at which slot number w comes up next. */
  lemma OneBehind(c: Config, t: nat, w: nat) returns (x: nat)
    requires 0 < c.slotsPerFrame == |c.downlink| && w < c.slotsPerFrame && Sends(c, w) && w != t % c.slotsPerFrame
    ensures t < x < t + c.slotsPerFrame && Sends(c, x) && x % c.slotsPerFrame == w
  {
    var e := WithinFrame(c, t, w);
    x := t + e;
  }

  /** Two slots of a frame period behind slot t are transmitted. */
  lemma TwoBehind(c: Config, t: nat, i: nat, j: nat, k: nat) returns (x: nat, y: nat)
    requires ThreeAt(c, i, j, k)
    ensures x != y && t < x < t + c.slotsPerFrame && t < y < t + c.slotsPerFrame && Sends(c, x) && Sends(c, y)
  {
    var r := t % c.slotsPerFrame;
    x := OneBehind(c, t, if i == r then k else i);
    y := OneBehind(c, t, if j == r then k else j);
  }

  /** Two transmitted slots behind n0 hold back the second follower. */
  lemma WithinTwo(c: Config, n0: nat, n1: nat, n2: nat, x: nat, y: nat)
    requires 0 < c.slotsPerFrame == |c.downlink| && Follows(c, n0, n1) && Follows(c, n1, n2)
    requires x != y && Sends(c, x) && Sends(c, y)
    requires var t, m := c.slAhead + n0, c.slotsPerFrame; t < x < t + m && t < y < t + m
    ensures n1 < n2 < n0 + c.slotsPerFrame
  {
    var a := c.slAhead;
    assert x >= a + n1 && y >= a + n1;
    assert x > a + n1 ==> x >= a + n2;
    assert y > a + n1 ==> y >= a + n2;
  }

  /** Some element can be lost. */
  ghost predicate CanLose(e: P.Env, threads: nat) {
    exists s, k: P.Token :: R.Reachable(e, threads, s) && L.Lost(s, k)
  }

  /** With three transmitted slots per frame a bad start-up can cost one of the two elements for good. */
  lemma SwappedStartLosesElement(c: Config, threads: nat)
    requires Valid(c) && ThreeSlots(c) && !BypassFirst(c) && 2 <= threads
    ensures CanLose(EnvOf(c), threads)
  {
    var i, j, k :| ThreeAt(c, i, j, k);
    var n0, n1, n2 := FirstThree(c);
    var x, y := TwoBehind(c, c.slAhead + n0, i, j, k);
    WithinTwo(c, n0, n1, n2, x, y);
    EnvJob(c, n0);
    SlotsApart(c, n0, n1);
    SlotsApart(c, n0, n2);
    Predicted(c, n0, n1);
    Predicted(c, n1, n2);
    LosesAfter(c, threads, n0, n1, n2);
  }

  lemma LosesAfter(c: Config, threads: nat, n0: nat, n1: nat, n2: nat)
    requires Valid(c) && 2 <= threads && L.FirstTwo(EnvOf(c), n0, n1) && L.ThenThird(EnvOf(c), n1, n2)
    requires EnvOf(c).downlink(n0)
    requires var e := EnvOf(c); var s0, s1, s2 := e.job(n0).slot, e.job(n1).slot, e.job(n2).slot;
             s0 != s1 && s0 != s2 && e.nextSlot(s0) == s1 && e.nextSlot(s1) == s2
    ensures CanLose(EnvOf(c), threads)
  {
    var e := EnvOf(c);
    var n3 := NextIndex(c, n2);
    Predicted(c, n2, n3);
    if e.job(n3).slot != e.job(n0).slot {
      L.SwappedStartLosesToken(e, threads, n0, n1, n2);
    } else {
      var n4 := NextIndex(c, n3);
      Predicted(c, n3, n4);
      IdleBetween(c, n2, n3);
      IdleBetween(c, n3, n4);
      L.SwappedStartLosesLater(e, threads, n0, n1, n2, n3, n4);
    }
  }

  // ---- At most two transmitted slots per frame ----

  /** With at most two transmitted slots the prediction goes back and forth. */
  lemma BackAndForth(c: Config, n: nat)
    requires Valid(c) && !ThreeSlots(c) && Sends(c, c.slAhead + n)
    ensures var e := EnvOf(c); e.nextSlot(e.nextSlot(e.job(n).slot)) == e.job(n).slot
  {
    var e := EnvOf(c);
    var n1 := NextIndex(c, n);
    var n2 := NextIndex(c, n1);
    Predicted(c, n, n1);
    Predicted(c, n1, n2);
    if TwoSlots(c) {
      NumberChanges(c, n, n1);
      NumberChanges(c, n1, n2);
      SendsSlot(c, n);
      SendsSlot(c, n1);
      SendsSlot(c, n2);
      if e.job(n2).slot != e.job(n).slot { ThreeFound(c, e.job(n).slot, e.job(n1).slot, e.job(n2).slot); }
    } else {
      SameNumber(c, n, n1);
      SameNumber(c, n1, n2);
    }
  }

  lemma NumberChanges(c: Config, n: nat, n': nat)
    requires TwoSlots(c) && Valid(c) && Sends(c, c.slAhead + n) && Follows(c, n, n')
    ensures EnvOf(c).job(n').slot != EnvOf(c).job(n).slot
  {
    Predicted(c, n, n');
    SendsSlot(c, n);
    EnvNext(c, EnvOf(c).job(n).slot);
    NextSlotDiffers(c, EnvOf(c).job(n).slot);
  }

  lemma ThreeFound(c: Config, i: nat, j: nat, k: nat)
    requires ThreeAt(c, i, j, k)
    ensures ThreeSlots(c)
  {
  }

  /** The first n jobs alternate between the numbers a and b. */
  ghost predicate AlternatesUpTo(e: P.Env, a: nat, b: nat, n: nat) {
    forall i :: 0 <= i < |P.Schedule(e, n)| ==> P.Schedule(e, n)[i].slot == T.SlotAt(a, b, i)
  }

  lemma OneFurther(e: P.Env, a: nat, b: nat, first: nat, n: nat)
    requires O.Chains(e) && e.nextSlot(a) == b && e.nextSlot(b) == a && e.job(first).slot == a
    requires P.Sends(e, first) && L.Idle(e, 0, first) && P.Sends(e, n) && AlternatesUpTo(e, a, b, n)
    ensures T.JobAlternates(e, a, b, n)
  {
    var jobs := P.Schedule(e, n);
    if jobs == [] {
      FirstJob(e, first, n);
    } else {
      assert O.ChainsAt(e, n);
      assert jobs[|jobs| - 1].slot == T.SlotAt(a, b, |jobs| - 1);
    }
  }

  /** Nothing is scheduled before a slot only if it is the first transmitted one. */
  lemma FirstJob(e: P.Env, first: nat, n: nat)
    requires P.Sends(e, first) && L.Idle(e, 0, first) && P.Sends(e, n) && P.Schedule(e, n) == []
    ensures n == first
  {
    if first < n {
      assert P.Schedule(e, first + 1) != [];
      ScheduleGrows(e, first + 1, n);
    }
  }

  lemma {:induction false} ScheduleAlternates(e: P.Env, a: nat, b: nat, first: nat, n: nat)
    requires O.Chains(e) && e.nextSlot(a) == b && e.nextSlot(b) == a && e.job(first).slot == a
    requires P.Sends(e, first) && L.Idle(e, 0, first)
    ensures AlternatesUpTo(e, a, b, n)
  {
    if n > 0 {
      ScheduleAlternates(e, a, b, first, n - 1);
      if P.Sends(e, n - 1) { OneFurther(e, a, b, first, n - 1); }
    }
  }

  /** So jobs alternate between at most two numbers. */
  lemma PatternAlternates(c: Config) returns (a: nat, b: nat)
    requires Valid(c) && !ThreeSlots(c)
    ensures T.Alternates(EnvOf(c), a, b)
  {
    var e := EnvOf(c);
    var first := FirstIndex(c);
    a := e.job(first).slot;
    b := e.nextSlot(a);
    BackAndForth(c, first);
    PatternChains(c);
    forall n: nat ensures T.JobAlternates(e, a, b, n) {
      ScheduleAlternates(e, a, b, first, n);
      if P.Sends(e, n) { OneFurther(e, a, b, first, n); }
    }
  }

  /** Each of these three keeps both elements in every run. */
  lemma NeverLost(c: Config, threads: nat, acts: seq<P.Action>, s: P.State, k: P.Token)
    requires Valid(c) && R.Runs(EnvOf(c), threads, acts, s)
    requires threads == 1 || !ThreeSlots(c) || BypassFirst(c)
    ensures !L.Lost(s, k)
  {
    var e := EnvOf(c);
    if threads == 1 {
      PatternChains(c);
      O.InOrder(e, acts, s);
    } else {
      R.RunsAreRuns(e, threads, acts, s);
      if !ThreeSlots(c) {
        var a, b := PatternAlternates(c);
        T.RunKeepsElements(e, a, b, acts, s);
      } else {
        ThreeAreMany(c);
        BypassOrderly(c, acts, s);
      }
    }
  }

  lemma ThreeAreMany(c: Config)
    requires ThreeSlots(c)
    ensures 2 <= c.slotsPerFrame
  {
    var i, j, k :| ThreeAt(c, i, j, k);
  }

  /** Main result.  Some run loses an element if and only if the pool has two threads or more, at least three slots of
      a frame are transmitted, and the first job does not bypass the pool. */
  lemma CanLoseExactly(c: Config, threads: nat)
    requires Valid(c) && 1 <= threads
    ensures CanLose(EnvOf(c), threads) <==> 2 <= threads && ThreeSlots(c) && !BypassFirst(c)
  {
    var e := EnvOf(c);
    if 2 <= threads && ThreeSlots(c) && !BypassFirst(c) {
      SwappedStartLosesElement(c, threads);
    } else {
      forall s, k: P.Token | R.Reachable(e, threads, s) ensures !L.Lost(s, k) {
        var acts :| R.Runs(e, threads, acts, s);
        NeverLost(c, threads, acts, s, k);
      }
    }
  }

  // ---- What every pattern keeps ----

  lemma ThreeAreTwo(c: Config)
    requires ThreeSlots(c)
    ensures TwoSlots(c)
  {
    var i, j, k :| ThreeAt(c, i, j, k);
  }

  /** Main result.  For every pattern, in every run: at most one element is lost and at most one error message printed,
      and each tells of the other. */
  lemma ErrorsTellLoss(c: Config, acts: seq<P.Action>, s: P.State)
    requires Valid(c) && P.Reaches(EnvOf(c), acts, s)
    ensures s.errors == 0 ==> V.Once(s, 0) && V.Once(s, 1)
    ensures s.errors == 1 ==> (L.Lost(s, 0) && V.Once(s, 1)) || (V.Once(s, 0) && L.Lost(s, 1))
    ensures s.errors <= 1
  {
    if TwoSlots(c) {
      PredictableExactly(c);
      V.ErrorsTellLoss(EnvOf(c), acts, s);
    } else {
      if ThreeSlots(c) { ThreeAreTwo(c); }
      var a, b := PatternAlternates(c);
      T.RunKeepsElements(EnvOf(c), a, b, acts, s);
    }
  }

  /** The other error message of the reorder thread is never printed: with the reserve taken, the element pulled next
      has the expected slot number, in every run of every pattern. */
  lemma SecondAlwaysExpected(c: Config, acts: seq<P.Action>, s: P.State)
    requires Valid(c) && P.Reaches(EnvOf(c), acts, s) && s.reorder.PullSecond? && P.Enabled(s, P.ReorderStep)
    ensures s.data[s.out[0]].slot == s.next
  {
    if TwoSlots(c) {
      PredictableExactly(c);
      V.SecondAlwaysExpected(EnvOf(c), acts, s);
    } else {
      if ThreeSlots(c) { ThreeAreTwo(c); }
      var a, b := PatternAlternates(c);
      T.RunKeepsElements(EnvOf(c), a, b, acts, s);
      T.SecondFits(EnvOf(c), a, b, s);
    }
  }

  lemma PatternServed(c: Config, acts: seq<P.Action>, s: P.State)
    requires Valid(c) && P.Reaches(EnvOf(c), acts, s)
    ensures P.RxInv(EnvOf(c), s) && V.Served(s)
  {
    if TwoSlots(c) {
      PredictableExactly(c);
      V.AlwaysServed(EnvOf(c), acts, s);
    } else {
      if ThreeSlots(c) { ThreeAreTwo(c); }
      var a, b := PatternAlternates(c);
      T.RunKeepsElements(EnvOf(c), a, b, acts, s);
      V.KeptServed(s);
    }
  }

  /** Main result.  For every pattern, no run gets stuck if and only if the pool has a thread. */
  lemma NeverStuckExactly(c: Config, threads: nat)
    requires Valid(c)
    ensures V.NeverStuck(EnvOf(c), threads) <==> 1 <= threads
  {
    var e := EnvOf(c);
    if threads == 0 {
      V.NoThreadNoProgress(e);
    } else {
      forall acts, s | R.Runs(e, threads, acts, s) ensures exists a :: R.Possible(threads, s, a) {
        if threads == 1 {
          PatternChains(c);
          V.OneThreadPossible(e, acts, s);
        } else {
          R.RunsAreRuns(e, threads, acts, s);
          PatternServed(c, acts, s);
          V.StillPossible(e, threads, s);
        }
      }
    }
  }
}
