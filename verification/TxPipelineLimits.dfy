/**
 Runs that show why the conditions of `TxPipeline` are needed, on a pool of two or more threads: a start-up in the
 wrong order makes the reorder thread drop an element for good, and with a single transmitted slot per frame jobs can
 overtake each other unnoticed.  The runs work with any number of slots that are not transmitted between those that are.
 */
module TxPipelineLimits {
  import opened TxPipeline
  import opened TxThreads

  /** A quiet receive side: nothing in progress, an element to fill, and a thread to do it. */
  ghost predicate Quiet(s: State) {
    |s.data| == 2 && s.resp == 1 && s.rx == [] && s.filled == [] && s.free != [] && |s.pool| <= 1
  }

  // ---- Slots that are not transmitted ----

  /** None of the slots from number a to b - 1 is transmitted. */
  ghost predicate Idle(e: Env, a: nat, b: nat) {
    forall n :: a <= n < b ==> !Sends(e, n)
  }

  lemma IdleOne(e: Env, threads: nat, s: State)
    requires 2 <= threads && Reachable(e, threads, s) && Quiet(s) && !Sends(e, s.handed)
    ensures Reachable(e, threads, s.(handed := s.handed + 1))
  {
    var s1 := s.(resp := 0, handed := s.handed + 1, rx := [RxJob(s.handed, Start)]);
    DispatchMove(e, threads, s, s1);
    var s2 := s1.(rx := [RxJob(s.handed, Finish)]);
    RxMove(e, threads, s1, s2);
    var s3 := s.(handed := s.handed + 1);
    assert s2.rx[..0] + s2.rx[1..] == [];
    RxMove(e, threads, s2, s3);
  }

  lemma {:induction false} IdleUntil(e: Env, threads: nat, s: State, n: nat)
    requires 2 <= threads && Reachable(e, threads, s) && Quiet(s) && s.handed <= n && Idle(e, s.handed, n)
    ensures Reachable(e, threads, s.(handed := n))
    decreases n - s.handed
  {
    if s.handed < n {
      IdleOne(e, threads, s);
      var s' := s.(handed := s.handed + 1);
      IdleUntil(e, threads, s', n);
      assert s'.(handed := n) == s.(handed := n);
    } else {
      assert s.(handed := n) == s;
    }
  }

  // ---- Issuing a job ----

  /** The state after one complete `rx_func` call on a downlink slot. */
  function Issued(e: Env, s: State): State
    requires |s.data| == 2 && s.free != []
  {
    var j := e.job(s.handed);
    s.(handed := s.handed + 1, free := s.free[1..], data := s.data[s.free[0] := j],
       pool := s.pool + [s.free[0]], issued := s.issued + [j])
  }

  lemma IssueOne(e: Env, threads: nat, s: State)
    requires 2 <= threads && Reachable(e, threads, s) && Quiet(s) && e.downlink(s.handed)
    ensures Reachable(e, threads, Issued(e, s))
  {
    var s1 := s.(resp := 0, handed := s.handed + 1, rx := [RxJob(s.handed, Start)]);
    DispatchMove(e, threads, s, s1);
    var s2 := s1.(rx := [RxJob(s.handed, MacPull)]);
    RxMove(e, threads, s1, s2);
    var s3 := s2.(free := s.free[1..], rx := [RxJob(s.handed, MacFill(s.free[0]))]);
    RxMove(e, threads, s2, s3);
    IssueRest(e, threads, s, s3);
  }

  lemma IssueRest(e: Env, threads: nat, s: State, s3: State)
    requires Reachable(e, threads, s3) && Quiet(s)
    requires s3 == s.(resp := 0, handed := s.handed + 1, free := s.free[1..],
                      rx := [RxJob(s.handed, MacFill(s.free[0]))])
    ensures Reachable(e, threads, Issued(e, s))
  {
    var k, j := s.free[0], e.job(s.handed);
    var d := s.data[k].(frame := j.frame, slot := j.slot);
    var s4 := s3.(data := s.data[k := d], filled := [k], rx := [RxJob(s.handed, PullFilled)]);
    RxMove(e, threads, s3, s4);
    var s5 := s4.(filled := [], rx := [RxJob(s.handed, Issue(k))]);
    RxMove(e, threads, s4, s5);
    PushAndFinish(e, threads, s, s5, d);
  }

  lemma PushAndFinish(e: Env, threads: nat, s: State, s5: State, d: Job)
    requires Reachable(e, threads, s5) && Quiet(s)
    requires d.(stamp := e.job(s.handed).stamp) == e.job(s.handed)
    requires s5 == s.(resp := 0, handed := s.handed + 1, free := s.free[1..], data := s.data[s.free[0] := d],
                      rx := [RxJob(s.handed, Issue(s.free[0]))])
    ensures Reachable(e, threads, Issued(e, s))
  {
    var s6 := Issued(e, s).(resp := 0, rx := [RxJob(s.handed, Finish)]);
    assert s.data[s.free[0] := d][s.free[0] := e.job(s.handed)] == s.data[s.free[0] := e.job(s.handed)];
    RxMove(e, threads, s5, s6);
    assert s6.rx[..0] + s6.rx[1..] == [];
    RxMove(e, threads, s6, Issued(e, s));
  }

  /** The state after slot number n was issued to the pool, the slots before it being idle. */
  lemma IssueTo(e: Env, threads: nat, s: State, n: nat, s': State)
    requires 2 <= threads && Reachable(e, threads, s) && Quiet(s) && s.handed <= n && Idle(e, s.handed, n)
    requires e.downlink(n) && s' == Issued(e, s.(handed := n))
    ensures Reachable(e, threads, s')
  {
    IdleUntil(e, threads, s, n);
    IssueOne(e, threads, s.(handed := n));
  }

  // ---- Issuing a job and bringing it to L1_tx_out ----

  /** The state after a job was issued and, if it went through the pool, finished there. */
  function Finished(e: Env, s: State): State
    requires |s.data| == 2 && s.free != []
  {
    Issued(e, s).(pool := s.pool, out := s.out + [s.free[0]])
  }

  /** With continuous transmission a slot that is not downlink bypasses the pool. */
  lemma FreeOne(e: Env, threads: nat, s: State)
    requires 2 <= threads && Reachable(e, threads, s) && Quiet(s) && e.continuous && !e.downlink(s.handed)
    ensures Reachable(e, threads, Finished(e, s))
  {
    var s1 := s.(resp := 0, handed := s.handed + 1, rx := [RxJob(s.handed, Start)]);
    DispatchMove(e, threads, s, s1);
    var s2 := s1.(rx := [RxJob(s.handed, FreePull)]);
    RxMove(e, threads, s1, s2);
    var s3 := s2.(free := s.free[1..], rx := [RxJob(s.handed, FreeIssue(s.free[0]))]);
    RxMove(e, threads, s2, s3);
    var s4 := Finished(e, s).(resp := 0, rx := [RxJob(s.handed, Finish)]);
    RxMove(e, threads, s3, s4);
    assert s4.rx[..0] + s4.rx[1..] == [];
    RxMove(e, threads, s4, Finished(e, s));
  }

  lemma FinishOne(e: Env, threads: nat, s: State)
    requires 2 <= threads && Reachable(e, threads, s) && Quiet(s) && Sends(e, s.handed)
    ensures Reachable(e, threads, Finished(e, s))
  {
    if e.downlink(s.handed) {
      IssueOne(e, threads, s);
      var s1, p := Issued(e, s), |s.pool|;
      assert s1.pool[..p] + s1.pool[p + 1..] == s.pool && s1.pool[p] == s.free[0];
      Move(e, threads, s1, PoolDone(p), Finished(e, s));
    } else {
      FreeOne(e, threads, s);
    }
  }

  lemma FinishTo(e: Env, threads: nat, s: State, n: nat, s': State)
    requires 2 <= threads && Reachable(e, threads, s) && Quiet(s) && s.handed <= n && Idle(e, s.handed, n)
    requires Sends(e, n) && s' == Finished(e, s.(handed := n))
    ensures Reachable(e, threads, s')
  {
    IdleUntil(e, threads, s, n);
    FinishOne(e, threads, s.(handed := n));
  }

  // ---- Sending a job ----

  /** The state after the reorder thread sent element k. */
  function Delivered(e: Env, s: State, k: Token): State
    requires |s.data| == 2
  {
    s.(reorder := Top, next := e.nextSlot(s.data[k].slot), free := s.free + [k], sent := s.sent + [s.data[k]])
  }

  /** The expected job is found in L1_tx_out. */
  lemma DeliverFront(e: Env, threads: nat, s: State, k: Token, s': State)
    requires Reachable(e, threads, s) && |s.data| == 2 && s.out == [k] && s.data[k].slot == s.next
    requires (s.reorder == Top && s.reserve == None) || (s.reorder == PullSecond && s.reserve != Some(k))
    requires s' == Delivered(e, s, k).(out := [])
    ensures Reachable(e, threads, s')
  {
    var s1 := s.(out := [], reorder := Send(k));
    ReorderMove(e, threads, s, s1);
    EmitNow(e, threads, s1, k, s');
  }

  /** The expected job is in the reserve. */
  lemma DeliverReserve(e: Env, threads: nat, s: State, k: Token, s': State)
    requires Reachable(e, threads, s) && |s.data| == 2 && s.reorder == Top && s.reserve == Some(k)
    requires s.data[k].slot == s.next && s' == Delivered(e, s, k).(reserve := None)
    ensures Reachable(e, threads, s')
  {
    var s1 := s.(reorder := Send(k));
    ReorderMove(e, threads, s, s1);
    EmitNow(e, threads, s1, k, s');
  }

  lemma EmitNow(e: Env, threads: nat, s: State, k: Token, s': State)
    requires Reachable(e, threads, s) && |s.data| == 2 && s.reorder == Send(k)
    requires s' == Delivered(e, s, k).(reserve := if s.reserve == Some(k) then None else s.reserve)
    ensures Reachable(e, threads, s')
  {
    var s1 := s'.(reorder := Emit(s.data[k]), sent := s.sent);
    ReorderMove(e, threads, s, s1);
    ReorderMove(e, threads, s1, s');
  }

  /** Slots n0 and n1 are the first two transmitted ones. */
  ghost predicate FirstTwo(e: Env, n0: nat, n1: nat) {
    n0 < n1 && Idle(e, 0, n0) && Idle(e, n0 + 1, n1) && Sends(e, n0) && Sends(e, n1)
  }

  /** Slot n2 is the next one after n1. */
  ghost predicate ThenThird(e: Env, n1: nat, n2: nat) {
    n1 < n2 && Idle(e, n1 + 1, n2) && Sends(e, n2)
  }

  // ---- A start-up in the wrong order ----

  /** The first job is in the pool, the second one has reached L1_tx_out before it. */
  function SecondOut(e: Env, n0: nat, n1: nat): State {
    var j0, j1 := e.job(n0), e.job(n1);
    State([], [], [0], [1], [j0, j1], 1, n1 + 1, [], PullFirst, None, 0, 0, None, [j0, j1], [])
  }

  lemma ReachSecondOut(e: Env, threads: nat, n0: nat, n1: nat)
    requires 2 <= threads && FirstTwo(e, n0, n1) && e.downlink(n0)
    ensures Reachable(e, threads, SecondOut(e, n0, n1))
  {
    var s := Init();
    AtInit(e, threads);
    var s1 := s.(handed := n0 + 1, free := [1], data := [e.job(n0), s.data[1]], pool := [0], issued := [e.job(n0)]);
    IssueTo(e, threads, s, n0, s1);
    FinishTo(e, threads, s1, n1, SecondOut(e, n0, n1));
  }

  /** The second job was found first and sent; the first one is still in the pool. */
  function SwappedStart(e: Env, n0: nat, n1: nat): State {
    var j0, j1 := e.job(n0), e.job(n1);
    State([1], [], [0], [], [j0, j1], 1, n1 + 1, [], Top, None, e.nextSlot(j1.slot), 0, Some(j1), [j0, j1], [j1])
  }

  /** If the first transmitted slot is downlink, the second job can be sent before the first. */
  lemma ReachSwappedStart(e: Env, threads: nat, n0: nat, n1: nat)
    requires 2 <= threads && FirstTwo(e, n0, n1) && e.downlink(n0)
    ensures Reachable(e, threads, SwappedStart(e, n0, n1))
  {
    var j1 := e.job(n1);
    ReachSecondOut(e, threads, n0, n1);
    var a1 := SecondOut(e, n0, n1);
    var a2 := a1.(out := [], reorder := Top, reserve := Some(1), next := j1.slot, first := Some(j1));
    ReorderMove(e, threads, a1, a2);
    DeliverReserve(e, threads, a2, 1, SwappedStart(e, n0, n1));
  }

  /** The first job has taken the reserve, since the third one is expected. */
  function FirstInReserve(e: Env, n0: nat, n1: nat, n2: nat): State {
    var j0, j1 := e.job(n0), e.job(n1);
    State([1], [], [], [], [j0, j1], 1, n1 + 1, [], PullSecond, Some(0), e.job(n2).slot, 0, Some(j1), [j0, j1], [j1])
  }

  lemma ReachFirstInReserve(e: Env, threads: nat, n0: nat, n1: nat, n2: nat)
    requires 2 <= threads && FirstTwo(e, n0, n1) && e.downlink(n0)
    requires e.job(n2).slot == e.nextSlot(e.job(n1).slot) && e.job(n0).slot != e.job(n2).slot
    ensures Reachable(e, threads, FirstInReserve(e, n0, n1, n2))
  {
    ReachSwappedStart(e, threads, n0, n1);
    var a5 := SwappedStart(e, n0, n1);
    var b1 := a5.(pool := [], out := [0]);
    Move(e, threads, a5, PoolDone(0), b1);
    ReorderMove(e, threads, b1, FirstInReserve(e, n0, n1, n2));
  }

  /** And the third job was sent. */
  function ThirdSent(e: Env, n0: nat, n1: nat, n2: nat): State {
    var j0, j1, j2 := e.job(n0), e.job(n1), e.job(n2);
    State([1], [], [], [], [j0, j2], 1, n2 + 1, [], Top, Some(0), e.nextSlot(j2.slot), 0,
          Some(j1), [j0, j1, j2], [j1, j2])
  }

  lemma ReachThirdSent(e: Env, threads: nat, n0: nat, n1: nat, n2: nat)
    requires 2 <= threads && ThenThird(e, n1, n2) && Reachable(e, threads, FirstInReserve(e, n0, n1, n2))
    ensures Reachable(e, threads, ThirdSent(e, n0, n1, n2))
  {
    var j0, j1, j2 := e.job(n0), e.job(n1), e.job(n2);
    var b2 := FirstInReserve(e, n0, n1, n2);
    var c2 := b2.(handed := n2 + 1, free := [], data := [j0, j2], out := [1], issued := [j0, j1, j2]);
    FinishTo(e, threads, b2, n2, c2);
    DeliverFront(e, threads, c2, 1, ThirdSent(e, n0, n1, n2));
  }

  /** An element left the pipeline for good: it is in no queue and in nobody's hand. */
  ghost predicate Lost(s: State, k: Token) { Waiting(s, k) + Flight(s, k) == 0 }

  /** After such a start the first job waits in the reserve, the third one is sent, the reserve does not fit
      the fourth slot either, and its element leaves the pipeline for good. */
  lemma SwappedStartLosesToken(e: Env, threads: nat, n0: nat, n1: nat, n2: nat)
    requires 2 <= threads && FirstTwo(e, n0, n1) && ThenThird(e, n1, n2) && e.downlink(n0)
    requires e.job(n2).slot == e.nextSlot(e.job(n1).slot) && e.job(n0).slot != e.job(n2).slot
    requires e.job(n0).slot != e.nextSlot(e.job(n2).slot)
    ensures exists s :: Reachable(e, threads, s) && s.errors == 1 && Lost(s, 0)
  {
    ReachFirstInReserve(e, threads, n0, n1, n2);
    ReachThirdSent(e, threads, n0, n1, n2);
    var c5 := ThirdSent(e, n0, n1, n2);
    var c6 := c5.(reorder := PullAfterMistake, reserve := None, errors := 1);
    ReorderMove(e, threads, c5, c6);
    assert Lost(c6, 0);
  }

  /** Three slot numbers in turn. */
  ghost predicate ThreeNumbers(e: Env, n0: nat, n1: nat, n2: nat, n3: nat, n4: nat) {
    var s0, s1, s2 := e.job(n0).slot, e.job(n1).slot, e.job(n2).slot;
    && s0 != s1 && s0 != s2 && e.job(n3).slot == s0 && e.job(n4).slot == s1
    && e.nextSlot(s0) == s1 && e.nextSlot(s1) == s2 && e.nextSlot(s2) == s0
  }

  /** The same with only three numbers: the first job leaves the reserve again, out of order, but the next time
      round the fourth one is dropped. */
  lemma SwappedStartLosesLater(e: Env, threads: nat, n0: nat, n1: nat, n2: nat, n3: nat, n4: nat)
    requires 2 <= threads && FirstTwo(e, n0, n1) && e.downlink(n0)
    requires ThenThird(e, n1, n2) && ThenThird(e, n2, n3) && ThenThird(e, n3, n4)
    requires ThreeNumbers(e, n0, n1, n2, n3, n4)
    ensures exists s :: Reachable(e, threads, s) && s.errors == 1 && Lost(s, 1)
  {
    var j0, j1, j2 := e.job(n0), e.job(n1), e.job(n2);
    ReachFirstInReserve(e, threads, n0, n1, n2);
    ReachThirdSent(e, threads, n0, n1, n2);
    var c5 := ThirdSent(e, n0, n1, n2);
    var c8 := c5.(next := j1.slot, free := [1, 0], reserve := None, sent := [j1, j2, j0]);
    DeliverReserve(e, threads, c5, 0, c8);
    FourthInReserve(e, threads, n0, n1, n2, n3, n4, c8);
  }

  lemma FourthInReserve(e: Env, threads: nat, n0: nat, n1: nat, n2: nat, n3: nat, n4: nat, c8: State)
    requires 2 <= threads && Reachable(e, threads, c8) && ThreeNumbers(e, n0, n1, n2, n3, n4)
    requires ThenThird(e, n2, n3) && ThenThird(e, n3, n4)
    requires Quiet(c8) && c8.handed == n2 + 1 && c8.free == [1, 0] && c8.pool == [] && c8.out == []
    requires c8.reorder == Top && c8.reserve == None && c8.next == e.job(n1).slot && c8.errors == 0
    ensures exists s :: Reachable(e, threads, s) && s.errors == 1 && Lost(s, 1)
  {
    var j3 := e.job(n3);
    var d1 := c8.(handed := n3 + 1, free := [0], data := [c8.data[0], j3], out := [1], issued := c8.issued + [j3]);
    FinishTo(e, threads, c8, n3, d1);
    var d2 := d1.(out := [], reorder := PullSecond, reserve := Some(1));
    ReorderMove(e, threads, d1, d2);
    FifthSent(e, threads, n3, n4, d2, e.job(n2).slot);
  }

  lemma FifthSent(e: Env, threads: nat, n3: nat, n4: nat, d2: State, third: nat)
    requires 2 <= threads && Reachable(e, threads, d2) && ThenThird(e, n3, n4)
    requires e.nextSlot(e.job(n4).slot) == third && e.job(n3).slot != third
    requires Quiet(d2) && d2.handed == n3 + 1 && d2.free == [0] && d2.pool == [] && d2.out == []
    requires d2.data[1] == e.job(n3) && d2.reorder == PullSecond && d2.reserve == Some(1)
    requires d2.next == e.job(n4).slot && d2.errors == 0
    ensures exists s :: Reachable(e, threads, s) && s.errors == 1 && Lost(s, 1)
  {
    var j3, j4 := e.job(n3), e.job(n4);
    var d3 := d2.(handed := n4 + 1, free := [], data := [j4, j3], out := [0], issued := d2.issued + [j4]);
    FinishTo(e, threads, d2, n4, d3);
    DropReserve(e, threads, d3, j3, j4, third);
  }

  lemma DropReserve(e: Env, threads: nat, d3: State, j3: Job, j4: Job, third: nat)
    requires Reachable(e, threads, d3) && e.nextSlot(j4.slot) == third && j3.slot != third
    requires d3.free == [] && d3.filled == [] && d3.rx == [] && d3.pool == [] && d3.out == [0] && d3.data == [j4, j3]
    requires d3.reorder == PullSecond && d3.reserve == Some(1) && d3.next == j4.slot && d3.errors == 0
    ensures exists s :: Reachable(e, threads, s) && s.errors == 1 && Lost(s, 1)
  {
    var d8 := d3.(out := [], reorder := Top, next := third, free := [0], sent := d3.sent + [j4]);
    DeliverFront(e, threads, d3, 0, d8);
    var d9 := d8.(reorder := PullAfterMistake, reserve := None, errors := 1);
    ReorderMove(e, threads, d8, d9);
    assert Lost(d9, 1);
  }

  // ---- A single slot number ----

  /** What goes wrong unnoticed: the start-up was in order, no error is reported, the order is wrong. */
  ghost predicate Misordered(s: State) {
    s.errors == 0 && StartedInOrder(s) && !(s.sent <= s.issued)
  }

  /** Jobs with one slot number: the third one overtakes the second one. */
  lemma SingleSlotMisorders(e: Env, threads: nat, n0: nat, n1: nat, n2: nat)
    requires 2 <= threads && FirstTwo(e, n0, n1) && ThenThird(e, n1, n2) && e.downlink(n1) && e.job(n1) != e.job(n2)
    requires e.job(n0).slot == e.job(n1).slot == e.job(n2).slot == e.nextSlot(e.job(n0).slot)
    ensures exists s :: Reachable(e, threads, s) && Misordered(s)
  {
    var j0, j1 := e.job(n0), e.job(n1);
    AtInit(e, threads);
    var s := Init();
    var s1 := s.(handed := n0 + 1, free := [1], data := [j0, s.data[1]], out := [0], issued := [j0]);
    FinishTo(e, threads, s, n0, s1);
    var a1 := s1.(handed := n1 + 1, free := [], data := [j0, j1], pool := [1], issued := [j0, j1]);
    IssueTo(e, threads, s1, n1, a1);
    var a2 := a1.(out := [], reorder := Top, reserve := Some(0), next := j0.slot, first := Some(j0));
    ReorderMove(e, threads, a1, a2);
    var a5 := a2.(free := [0], reserve := None, sent := [j0]);
    DeliverReserve(e, threads, a2, 0, a5);
    Overtake(e, threads, n0, n1, n2, a5);
  }

  lemma Overtake(e: Env, threads: nat, n0: nat, n1: nat, n2: nat, a5: State)
    requires 2 <= threads && Reachable(e, threads, a5) && ThenThird(e, n1, n2) && e.job(n1) != e.job(n2)
    requires e.job(n2).slot == e.nextSlot(e.job(n2).slot)
    requires Quiet(a5) && a5.handed == n1 + 1 && a5.free == [0] && a5.pool == [1] && a5.out == []
    requires a5.data == [e.job(n0), e.job(n1)] && a5.issued == [e.job(n0), e.job(n1)] && a5.sent == [e.job(n0)]
    requires a5.reorder == Top && a5.reserve == None && a5.next == e.job(n2).slot
    requires a5.errors == 0 && a5.first == Some(e.job(n0))
    ensures exists s :: Reachable(e, threads, s) && Misordered(s)
  {
    var j0, j1, j2 := e.job(n0), e.job(n1), e.job(n2);
    var c2 := a5.(handed := n2 + 1, free := [], data := [j2, j1], out := [0], issued := [j0, j1, j2]);
    FinishTo(e, threads, a5, n2, c2);
    var c5 := c2.(out := [], next := e.nextSlot(j2.slot), free := [0], sent := [j0, j2]);
    DeliverFront(e, threads, c2, 0, c5);
    assert c5.sent[1] != c5.issued[1];
  }
}
