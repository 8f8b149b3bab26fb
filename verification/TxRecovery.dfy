/**
 What becomes of a start-up in the wrong order.  Until an element is lost the reorder thread sends jobs with the slot
 numbers that follow that of the first one found, and the elements in flight hold the rest.  At most one element is
 ever lost; then the other one carries all further jobs, in the order of issue.
 */
module TxRecovery {
  import opened TxPipeline
  import opened TxThreads
  import L = TxPipelineLimits
  import O = TxOneThread

  /** The slot number i predictions after x. */
  function ChainSlot(e: Env, x: nat, i: nat): nat {
    if i == 0 then x else e.nextSlot(ChainSlot(e, x, i - 1))
  }

  lemma {:induction false} ChainOfJobs(e: Env, jobs: seq<Job>, i: nat)
    requires Chained(e, jobs) && i < |jobs|
    ensures jobs[i].slot == ChainSlot(e, jobs[0].slot, i)
  {
    if i > 0 { ChainOfJobs(e, jobs, i - 1); }
  }

  lemma IssuedSlot(e: Env, s: State, i: nat)
    requires Predictable(e) && RxInv(e, s) && i < |s.issued|
    ensures s.issued[i].slot == ChainSlot(e, s.issued[0].slot, i)
  {
    ScheduleChained(e, Passed(s));
    ChainOfJobs(e, s.issued, i);
  }

  function Other(k: Token): Token { 1 - k }

  // ---- After a swapped start: jobs 1 to n + 1 by number are sent, job 0 waits ----

  /** The numbers held in flight: those of the jobs issued less those released, the latter being numbers 1 to n of the
      chain that starts with x. */
  ghost predicate HoldsRest(e: Env, s: State, x: nat, n: nat)
    requires |s.data| == 2
  {
    var f0, f1 := Flight(s, 0), Flight(s, 1);
    && f0 <= 1 && f1 <= 1
    && |s.issued| == n + f0 + f1
    && (f0 == 0 && f1 == 0 ==> ChainSlot(e, x, n) == x)
    && (f0 == 1 && f1 == 0 ==> s.data[0].slot == x)
    && (f0 == 0 && f1 == 1 ==> s.data[1].slot == x)
    && (f0 == 1 && f1 == 1 ==>
          || (s.data[0].slot == x && s.data[1].slot == ChainSlot(e, x, n + 1))
          || (s.data[1].slot == x && s.data[0].slot == ChainSlot(e, x, n + 1)))
  }

  ghost predicate SwappedInv(e: Env, s: State) {
    && |s.data| == 2 && TokenInv(s) && s.errors == 0 && s.issued != []
    && HoldsRest(e, s, s.issued[0].slot, |Released(s)|)
    && s.next == ChainSlot(e, s.issued[0].slot, |Released(s)| + 1)
    && Newest(s)
    && match s.reorder
       case PullFirst => false
       case PullAfterMistake => false
       case PullSecond => s.reserve.Some? && s.data[s.reserve.value].slot != s.next
       case Send(k) => s.data[k].slot == s.next
       case _ => true
  }

  /** Behind a reserve that was passed over, the other element can only hold the last job issued. */
  ghost predicate Newest(s: State)
    requires |s.data| == 2
  {
    s.reserve.Some? && Released(s) != [] && (s.reorder.Top? || s.reorder.Emit?) ==> HoldsLast(s, Other(s.reserve.value))
  }

  ghost predicate HoldsLast(s: State, r: Token)
    requires |s.data| == 2
  {
    Flight(s, r) == 1 ==> s.issued != [] && s.data[r] == s.issued[|s.issued| - 1]
  }

  lemma SwappedFrame(e: Env, s: State, s': State)
    requires SwappedInv(e, s) && TokenInv(s') && SameReorder(s, s') && s'.issued == s.issued && |s'.data| == 2
    requires forall k: Token :: Flight(s', k) == Flight(s, k) && (Flight(s, k) >= 1 ==> s'.data[k] == s.data[k])
    ensures SwappedInv(e, s')
  {
    assert Released(s') == Released(s);
    assert Flight(s', 0) == Flight(s, 0) && Flight(s', 1) == Flight(s, 1);
    if s.reserve.Some? { assert Flight(s, s.reserve.value) >= 1; }
    if s.reorder.Send? { assert Flight(s, s.reorder.hand) >= 1; }
  }

  lemma SwappedAdd(e: Env, s: State, s': State, k: Token, o: Token)
    requires SwappedInv(e, s) && TokenInv(s') && SameReorder(s, s') && |s'.data| == 2 && o != k
    requires Flight(s, k) == 0 && Flight(s', k) == 1 && Flight(s', o) == Flight(s, o) <= 1 && s'.data[o] == s.data[o]
    requires s'.issued == s.issued + [s'.data[k]]
    requires s'.data[k].slot == ChainSlot(e, s.issued[0].slot, |s.issued|)
    ensures SwappedInv(e, s')
  {
    assert Released(s') == Released(s);
    if s.reserve.Some? { assert s.reserve.value == o; }
    if s.reorder.Send? { assert s.reorder.hand == o; }
  }

  lemma SwappedRx(e: Env, s: State)
    requires Predictable(e) && RxInv(e, s) && SwappedInv(e, s) && Enabled(s, RxStep(0)) && TokenInv(ExecRx(e, s, 0))
    ensures SwappedInv(e, ExecRx(e, s, 0))
  {
    match s.rx[0].stage
    case MacFill(k) => SwappedFill(e, s, k);
    case Issue(k) => SwappedIssue(e, s, k);
    case FreeIssue(k) => SwappedIssue(e, s, k);
    case _ => SwappedOtherwise(e, s);
  }

  lemma SwappedFill(e: Env, s: State, k: Token)
    requires SwappedInv(e, s) && Enabled(s, RxStep(0)) && TokenInv(ExecRx(e, s, 0)) && s.rx[0].stage == MacFill(k)
    ensures SwappedInv(e, ExecRx(e, s, 0))
  {
    assert Waiting(s, k) >= 1 && Waiting(s, k) + Flight(s, k) == 1;
    SwappedFrame(e, s, ExecRx(e, s, 0));
  }

  lemma SwappedOtherwise(e: Env, s: State)
    requires SwappedInv(e, s) && Enabled(s, RxStep(0)) && TokenInv(ExecRx(e, s, 0))
    requires !s.rx[0].stage.MacFill? && !s.rx[0].stage.Issue? && !s.rx[0].stage.FreeIssue?
    ensures SwappedInv(e, ExecRx(e, s, 0))
  {
    SwappedFrame(e, s, ExecRx(e, s, 0));
  }

  lemma SwappedIssue(e: Env, s: State, k: Token)
    requires Predictable(e) && RxInv(e, s) && SwappedInv(e, s) && Enabled(s, RxStep(0)) && TokenInv(ExecRx(e, s, 0))
    requires s.rx[0].stage == Issue(k) || s.rx[0].stage == FreeIssue(k)
    ensures SwappedInv(e, ExecRx(e, s, 0))
  {
    var s' := ExecRx(e, s, 0);
    IssueFlights(e, s, k, Other(k));
    IssueFollowsSchedule(e, s);
    IssuedSlot(e, s', |s.issued|);
    SwappedAdd(e, s, s', k, Other(k));
  }

  lemma SwappedPool(e: Env, s: State, p: nat)
    requires SwappedInv(e, s) && Enabled(s, PoolDone(p)) && TokenInv(Exec(e, s, PoolDone(p)))
    ensures SwappedInv(e, Exec(e, s, PoolDone(p)))
  {
    var s' := Exec(e, s, PoolDone(p));
    SameFlightPool(e, s, p);
    SwappedFrame(e, s, s');
  }

  lemma SameFlightPool(e: Env, s: State, p: nat)
    requires Enabled(s, PoolDone(p))
    ensures forall k: Token :: Flight(Exec(e, s, PoolDone(p)), k) == Flight(s, k)
  {
    forall k: Token ensures Flight(Exec(e, s, PoolDone(p)), k) == Flight(s, k) {
      OccRemove(s.pool, p, k);
      OccPush(s.out, s.pool[p], k);
    }
  }

  /** The start: the second job is found first. */
  lemma SwapsStart(e: Env, s: State)
    requires Predictable(e) && RxInv(e, s) && TokenInv(s) && OrderInv(e, s) && Enabled(s, ReorderStep)
    requires s.reorder.PullFirst? && !StartedInOrder(ExecReorder(e, s))
    ensures SwappedInv(e, ExecReorder(e, s))
  {
    var s' := ExecReorder(e, s);
    SameFlight(s, s');
    assert Flight(s, s.out[0]) == 1 by {
      assert Occ(s.out, s.out[0]) >= 1 && Waiting(s, s.out[0]) + Flight(s, s.out[0]) == 1;
    }
    assert Flight(s', 0) == Flight(s, 0) && Flight(s', 1) == Flight(s, 1);
    assert Released(s) == [] && Released(s') == [];
    assert s.data[s.out[0]] == s.issued[1];
    IssuedSlot(e, s, 1);
    TokensConserved(e, s, ReorderStep);
  }

  /** With the reserve passed over, the element pulled next has the expected number. */
  lemma SecondExpected(e: Env, s: State)
    requires SwappedInv(e, s) && Enabled(s, ReorderStep) && s.reorder.PullSecond?
    ensures s.out[0] != s.reserve.value && s.data[s.out[0]].slot == s.next
  {
    var r, o := s.reserve.value, s.out[0];
    assert Waiting(s, o) + Flight(s, o) == 1 && Waiting(s, r) + Flight(s, r) == 1;
    assert Occ(s.out, o) >= 1;
    assert Flight(s, 0) == 1 && Flight(s, 1) == 1;
  }

  lemma SwappedPull(e: Env, s: State)
    requires SwappedInv(e, s) && Enabled(s, ReorderStep) && TokenInv(ExecReorder(e, s))
    requires (s.reorder.Top? && s.reserve == None) || s.reorder.PullSecond?
    ensures SwappedInv(e, ExecReorder(e, s))
  {
    var s' := ExecReorder(e, s);
    if s.reorder.PullSecond? { SecondExpected(e, s); }
    SameFlight(s, s');
    assert Released(s') == Released(s);
    assert Flight(s', 0) == Flight(s, 0) && Flight(s', 1) == Flight(s, 1);
  }

  lemma SwappedStay(e: Env, s: State)
    requires SwappedInv(e, s) && Enabled(s, ReorderStep) && TokenInv(ExecReorder(e, s)) && !DropsReserve(s, ReorderStep)
    requires (s.reorder.Top? && s.reserve.Some?) || s.reorder.Emit?
    ensures SwappedInv(e, ExecReorder(e, s))
  {
    var s' := ExecReorder(e, s);
    assert Released(s') == Released(s);
    assert Flight(s', 0) == Flight(s, 0) && Flight(s', 1) == Flight(s, 1);
  }

  lemma SwappedSend(e: Env, s: State, k: Token, o: Token)
    requires SwappedInv(e, s) && s.reorder == Send(k) && o != k && TokenInv(ExecReorder(e, s))
    ensures SwappedInv(e, ExecReorder(e, s))
  {
    var s' := ExecReorder(e, s);
    assert Waiting(s, k) + Flight(s, k) == 1 && Waiting(s, o) + Flight(s, o) == 1;
    assert Flight(s, k) == 1 && Flight(s', k) == 0 && Flight(s', o) == Flight(s, o);
    assert Released(s') == Released(s) + [s.data[k]];
    if s'.reserve.Some? { assert s'.reserve.value == o; }
  }

  // ---- After a loss: one element does it all ----

  /** Element k is gone and the other one is in one place.  Of the jobs issued all but one are released, or are held by
      the element left, which then holds the last one. */
  ghost predicate AloneInv(e: Env, s: State, k: Token) {
    var r, n := Other(k), |Released(s)|;
    && |s.data| == 2 && Waiting(s, k) + Flight(s, k) == 0 && Waiting(s, r) + Flight(s, r) == 1
    && s.reserve == None && s.errors == 1
    && |s.issued| == n + 1 + Flight(s, r) && HoldsLast(s, r)
    && !s.reorder.PullFirst? && !s.reorder.PullSecond?
    && (s.reorder.Top? || s.reorder.Emit? ==> s.next == e.nextSlot(s.issued[n].slot))
  }

  /** From the loss on, what is released is what was issued, one place later. */
  ghost predicate Resumes(s: State, m: nat) {
    && m <= |Released(s)| < |s.issued|
    && forall i :: m <= i < |Released(s)| ==> Released(s)[i] == s.issued[i + 1]
  }

  /** The loss itself. */
  lemma Loses(e: Env, s: State)
    requires SwappedInv(e, s) && StartInv(s) && DropsReserve(s, ReorderStep)
    ensures AloneInv(e, ExecReorder(e, s), s.reserve.value)
  {
    var s' := ExecReorder(e, s);
    var k := s.reserve.value;
    var r := Other(k);
    assert Released(s') == Released(s) != [];
    assert Waiting(s, k) + Flight(s, k) == 1 && Waiting(s, r) + Flight(s, r) == 1;
    assert Flight(s', r) == Flight(s, r);
  }

  ghost predicate AloneKept(e: Env, s: State, s': State, k: Token) {
    AloneInv(e, s', k) && s.issued <= s'.issued && s.sent <= s'.sent && forall m :: Resumes(s, m) ==> Resumes(s', m)
  }

  lemma AloneFrame(e: Env, s: State, s': State, k: Token)
    requires AloneInv(e, s, k) && SameReorder(s, s') && s'.issued == s.issued && |s'.data| == 2
    requires forall x: Token :: Waiting(s', x) + Flight(s', x) == Waiting(s, x) + Flight(s, x)
    requires Flight(s', Other(k)) == Flight(s, Other(k))
    requires Flight(s, Other(k)) >= 1 ==> s'.data[Other(k)] == s.data[Other(k)]
    ensures AloneKept(e, s, s', k)
  {
    assert Released(s') == Released(s);
  }

  lemma AloneRx(e: Env, s: State, k: Token)
    requires Predictable(e) && RxInv(e, s) && AloneInv(e, s, k) && Enabled(s, RxStep(0))
    ensures AloneKept(e, s, ExecRx(e, s, 0), k)
  {
    var s' := ExecRx(e, s, 0);
    forall x: Token ensures Waiting(s', x) + Flight(s', x) == Waiting(s, x) + Flight(s, x) {
      RxTokenConserved(e, s, 0, x);
    }
    match s.rx[0].stage
    case MacFill(x) => assert Waiting(s, x) >= 1; AloneFrame(e, s, s', k);
    case Issue(x) => AloneIssue(e, s, k, x);
    case FreeIssue(x) => AloneIssue(e, s, k, x);
    case _ => AloneFrame(e, s, s', k);
  }

  lemma AloneIssue(e: Env, s: State, k: Token, x: Token)
    requires AloneInv(e, s, k) && Enabled(s, RxStep(0))
    requires s.rx[0].stage == Issue(x) || s.rx[0].stage == FreeIssue(x)
    requires forall y: Token :: Waiting(ExecRx(e, s, 0), y) + Flight(ExecRx(e, s, 0), y) == Waiting(s, y) + Flight(s, y)
    ensures AloneKept(e, s, ExecRx(e, s, 0), k)
  {
    var s' := ExecRx(e, s, 0);
    assert Waiting(s, x) >= 1;
    assert x == Other(k);
    OccPush(s.pool, x, x);
    OccPush(s.out, x, x);
    assert Flight(s, x) == 0 && Flight(s', x) == 1;
    assert Released(s') == Released(s);
  }

  lemma AlonePool(e: Env, s: State, k: Token, p: nat)
    requires AloneInv(e, s, k) && Enabled(s, PoolDone(p))
    ensures AloneKept(e, s, Exec(e, s, PoolDone(p)), k)
  {
    SameFlightPool(e, s, p);
    AloneFrame(e, s, Exec(e, s, PoolDone(p)), k);
  }

  /** The element pulled holds the expected job, whichever pull it is. */
  lemma AlonePull(e: Env, s: State, k: Token)
    requires Predictable(e) && RxInv(e, s) && AloneInv(e, s, k) && Enabled(s, ReorderStep)
    requires s.reorder.Top? || s.reorder.PullAfterMistake?
    ensures AloneKept(e, s, ExecReorder(e, s), k)
  {
    var s', r := ExecReorder(e, s), Other(k);
    assert Occ(s.out, s.out[0]) >= 1;
    assert s.out[0] == r && Flight(s, r) == 1;
    ScheduleChained(e, Passed(s));
    assert s.reorder.Top? ==> s.data[r].slot == s.next;
    assert s'.reorder == Send(r) && s'.reserve == None;
    assert Released(s') == Released(s);
    assert Occ(s.out, r) == 1 + Occ(s'.out, r);
    assert Flight(s', r) == Flight(s, r) && Flight(s', k) == 0;
  }

  lemma AloneSend(e: Env, s: State, k: Token, x: Token)
    requires AloneInv(e, s, k) && s.reorder == Send(x)
    ensures AloneKept(e, s, ExecReorder(e, s), k)
  {
    var s', r := ExecReorder(e, s), Other(k);
    assert Flight(s, x) >= 1 && x == r;
    OccPush(s.free, r, r);
    OccPush(s.free, r, k);
    assert Flight(s', r) == 0 && Flight(s, r) == 1;
    assert Released(s') == Released(s) + [s.data[r]];
  }

  lemma AloneEmit(e: Env, s: State, k: Token)
    requires AloneInv(e, s, k) && s.reorder.Emit?
    ensures AloneKept(e, s, ExecReorder(e, s), k)
  {
    var s' := ExecReorder(e, s);
    assert Released(s') == Released(s);
    assert Flight(s', 0) == Flight(s, 0) && Flight(s', 1) == Flight(s, 1);
  }

  lemma AloneStep(e: Env, s: State, a: Action, k: Token)
    requires Predictable(e) && RxInv(e, s) && AloneInv(e, s, k) && Enabled(s, a)
    ensures AloneKept(e, s, Exec(e, s, a), k)
  {
    match a
    case Dispatch => AloneDispatch(e, s, k);
    case PoolDone(p) => AlonePool(e, s, k, p);
    case RxStep(i) => AloneRx(e, s, k);
    case ReorderStep =>
      match s.reorder
      case Send(x) => AloneSend(e, s, k, x);
      case Emit(_) => AloneEmit(e, s, k);
      case _ => AlonePull(e, s, k);
  }

  lemma AloneDispatch(e: Env, s: State, k: Token)
    requires AloneInv(e, s, k) && Enabled(s, Dispatch)
    ensures AloneKept(e, s, Exec(e, s, Dispatch), k)
  {
    RxOccPush(s.rx, RxJob(s.handed, Start), 0);
    RxOccPush(s.rx, RxJob(s.handed, Start), 1);
    AloneFrame(e, s, Exec(e, s, Dispatch), k);
  }

  // ---- Whole runs ----

  /** The three ways a run can be. */
  ghost predicate Phase(e: Env, s: State) {
    StartedInOrder(s) || SwappedInv(e, s) || exists k: Token :: AloneInv(e, s, k)
  }

  lemma SwappedStep(e: Env, s: State, a: Action)
    requires Predictable(e) && RxInv(e, s) && StartInv(s) && SwappedInv(e, s) && Enabled(s, a)
    ensures Phase(e, Exec(e, s, a))
  {
    if DropsReserve(s, a) {
      Loses(e, s);
    } else {
      TokensConserved(e, s, a);
      match a
      case Dispatch => SwappedFrame(e, s, Exec(e, s, a));
      case PoolDone(p) => SwappedPool(e, s, p);
      case RxStep(i) => SwappedRx(e, s);
      case ReorderStep => SwappedReorder(e, s);
    }
  }

  lemma SwappedReorder(e: Env, s: State)
    requires SwappedInv(e, s) && Enabled(s, ReorderStep) && !DropsReserve(s, ReorderStep) && TokenInv(ExecReorder(e, s))
    ensures SwappedInv(e, ExecReorder(e, s))
  {
    match s.reorder
    case Top => if s.reserve.Some? { SwappedStay(e, s); } else { SwappedPull(e, s); }
    case PullSecond => SwappedPull(e, s);
    case Send(k) => SwappedSend(e, s, k, Other(k));
    case Emit(_) => SwappedStay(e, s);
  }

  lemma PhaseStep(e: Env, s: State, a: Action)
    requires Predictable(e) && RunInv(e, s) && Phase(e, s) && Enabled(s, a)
    ensures Phase(e, Exec(e, s, a))
  {
    if StartedInOrder(s) {
      StartStep(e, s, a);
    } else if SwappedInv(e, s) {
      SwappedStep(e, s, a);
    } else {
      var k: Token :| AloneInv(e, s, k);
      AloneStep(e, s, a, k);
    }
  }

  lemma StartStep(e: Env, s: State, a: Action)
    requires Predictable(e) && RunInv(e, s) && StartedInOrder(s) && Enabled(s, a)
    ensures Phase(e, Exec(e, s, a))
  {
    if a.ReorderStep? && s.reorder.PullFirst? {
      if !StartedInOrder(ExecReorder(e, s)) { SwapsStart(e, s); }
    } else {
      StaysStarted(e, s, a);
    }
  }

  lemma StaysStarted(e: Env, s: State, a: Action)
    requires StartedInOrder(s) && Enabled(s, a) && !(a.ReorderStep? && s.reorder.PullFirst?)
    ensures StartedInOrder(Exec(e, s, a))
  {
    match a
    case RxStep(i) => assert s.issued <= ExecRx(e, s, i).issued;
    case _ =>
  }

  lemma {:induction false} RunPhase(e: Env, acts: seq<Action>, s: State)
    requires Predictable(e) && Reaches(e, acts, s)
    ensures RunInv(e, s) && Phase(e, s)
    decreases |acts|
  {
    RunKeeps(e, acts, s);
    if acts == [] {
      InitAtStart(s);
    } else {
      var s0 := Predecessor(e, acts, s);
      RunPhase(e, acts[..|acts| - 1], s0);
      PhaseStep(e, s0, acts[|acts| - 1]);
    }
  }

  ghost predicate Once(s: State, k: Token) { Waiting(s, k) + Flight(s, k) == 1 }

  /** Main result: in every run at most one element is ever lost and at most one error message printed, and the message
      tells of the loss.  Every job issued was released, is in flight, or was lost with its element. */
  lemma ErrorsTellLoss(e: Env, acts: seq<Action>, s: State)
    requires Predictable(e) && Reaches(e, acts, s)
    ensures s.errors <= 1
    ensures s.errors == 0 ==> Once(s, 0) && Once(s, 1)
    ensures s.errors == 1 ==> (L.Lost(s, 0) && Once(s, 1)) || (Once(s, 0) && L.Lost(s, 1))
    ensures |s.issued| == |Released(s)| + Flight(s, 0) + Flight(s, 1) + s.errors
  {
    RunPhase(e, acts, s);
    if !StartedInOrder(s) && !SwappedInv(e, s) {
      var k: Token :| AloneInv(e, s, k);
      assert k == 0 || k == 1;
    }
  }

  /** Whatever the start, an element pulled while the reserve is taken has the expected slot number. */
  lemma SecondAlwaysExpected(e: Env, acts: seq<Action>, s: State)
    requires Predictable(e) && Reaches(e, acts, s) && s.reorder.PullSecond? && Enabled(s, ReorderStep)
    ensures s.data[s.out[0]].slot == s.next
  {
    RunPhase(e, acts, s);
    if StartedInOrder(s) {
      Outstanding(e, s);
      PullKeeps(e, s);
    } else if SwappedInv(e, s) {
      SecondExpected(e, s);
    }
  }

  /** The run goes on from s0 to s. */
  ghost predicate Continues(e: Env, s0: State, acts: seq<Action>, s: State)
    decreases |acts|
  {
    if acts == [] then s == s0
    else
      var init, a := acts[..|acts| - 1], acts[|acts| - 1];
      exists t :: Continues(e, s0, init, t) && Step(e, t, a, s)
  }

  ghost predicate GoesOn(e: Env, s0: State, s: State, k: Token) {
    RxInv(e, s) && AloneInv(e, s, k) && Resumes(s, |s0.sent|) && s0.issued <= s.issued && s0.sent <= s.sent
  }

  lemma {:induction false} RunGoesOn(e: Env, s0: State, acts: seq<Action>, s: State, k: Token)
    requires Predictable(e) && RxInv(e, s0) && AloneInv(e, s0, k) && s0.reorder.PullAfterMistake?
    requires Continues(e, s0, acts, s)
    ensures GoesOn(e, s0, s, k)
    decreases |acts|
  {
    if acts != [] {
      var init, a := acts[..|acts| - 1], acts[|acts| - 1];
      var t :| Continues(e, s0, init, t) && Step(e, t, a, s);
      RunGoesOn(e, s0, init, t, k);
      RxSerialised(e, t, a);
      AloneStep(e, t, a, k);
    }
  }

  /** Main result: an order mistake is followed by regular service.  If s0 is the state right after it, and s any later
      one, then what was sent in between is what was issued from there on, in order of issue and without a gap, up to
      at most one job under way; of the jobs issued before, one is missing. */
  lemma ResumesInOrder(e: Env, before: seq<Action>, s0: State, acts: seq<Action>, s: State)
    requires Predictable(e) && Reaches(e, before, s0) && s0.reorder.PullAfterMistake? && Continues(e, s0, acts, s)
    ensures |s0.sent| + 1 <= |s0.issued| <= |s0.sent| + 2 && s0.issued <= s.issued
    ensures s0.sent <= s.sent && s.sent[|s0.sent|..] <= s.issued[|s0.sent| + 1..]
    ensures |s.issued| <= |Released(s)| + 2 && s.errors == 1
  {
    RunPhase(e, before, s0);
    var k: Token :| AloneInv(e, s0, k);
    RunGoesOn(e, s0, acts, s, k);
    SentGoesOn(e, s0, s, k);
  }

  lemma SentGoesOn(e: Env, s0: State, s: State, k: Token)
    requires AloneInv(e, s0, k) && s0.reorder.PullAfterMistake? && GoesOn(e, s0, s, k)
    ensures |s0.sent| + 1 <= |s0.issued| <= |s0.sent| + 2
    ensures s.sent[|s0.sent|..] <= s.issued[|s0.sent| + 1..] && |s.issued| <= |Released(s)| + 2
  {
    assert Released(s0) == s0.sent;
    assert s.sent <= Released(s);
    var m, gained, later := |s0.sent|, s.sent[|s0.sent|..], s.issued[|s0.sent| + 1..];
    forall i | 0 <= i < |gained| ensures gained[i] == later[i] {
      assert Released(s)[m + i] == s.sent[m + i] == gained[i];
      assert Released(s)[m + i] == s.issued[m + i + 1] == later[i];
    }
  }

  // ---- Nobody waits for ever ----

  /** If no element waits for a job and the pool is idle, the reorder thread can go on. */
  ghost predicate Served(s: State) {
    s.pool == [] && (forall k: Token :: Waiting(s, k) == 0) ==> Enabled(s, ReorderStep)
  }

  lemma KeptServed(s: State)
    requires |s.data| == 2 && TokenInv(s)
    ensures Served(s)
  {
    OccEmpty(s.out);
    assert Waiting(s, 0) + Flight(s, 0) == 1 && Waiting(s, 1) + Flight(s, 1) == 1;
  }

  lemma AloneServed(e: Env, s: State, k: Token)
    requires AloneInv(e, s, k)
    ensures Served(s)
  {
    OccEmpty(s.out);
    if forall x: Token :: Waiting(s, x) == 0 { assert Waiting(s, Other(k)) == 0; }
  }

  lemma AlwaysServed(e: Env, acts: seq<Action>, s: State)
    requires Predictable(e) && Reaches(e, acts, s)
    ensures RxInv(e, s) && Served(s)
  {
    RunPhase(e, acts, s);
    if StartedInOrder(s) || SwappedInv(e, s) {
      KeptServed(s);
    } else {
      var k: Token :| AloneInv(e, s, k);
      AloneServed(e, s, k);
    }
  }

  lemma StillPossible(e: Env, threads: nat, s: State)
    requires RxInv(e, s) && Served(s) && 1 <= threads && (threads == 1 ==> O.Alone(s))
    ensures exists a :: Possible(threads, s, a)
  {
    if s.resp > 0 {
      assert Possible(threads, s, Dispatch);
    } else if s.rx[0].stage.Start? && |s.pool| >= threads {
      assert Possible(threads, s, PoolDone(0));
    } else if RxEnabled(s, s.rx[0].stage) {
      assert Possible(threads, s, RxStep(0));
    } else if s.pool != [] {
      assert Possible(threads, s, PoolDone(0));
    } else {
      WaitingForFree(e, s);
      assert Possible(threads, s, ReorderStep);
    }
  }

  ghost predicate NeverStuck(e: Env, threads: nat) {
    forall acts, s :: Runs(e, threads, acts, s) ==> exists a :: Possible(threads, s, a)
  }

  lemma OneThreadPossible(e: Env, acts: seq<Action>, s: State)
    requires O.Chains(e) && Runs(e, 1, acts, s)
    ensures exists a :: Possible(1, s, a)
  {
    O.RunKeepsLine(e, acts, s);
    KeptServed(s);
    StillPossible(e, 1, s);
  }

  /** Main result: on any number of threads but zero no run ever gets stuck, however it started and whatever was lost;
      on none, the first slot handed over waits for ever (`initNamedTpool` exits when an active pool has no thread). */
  lemma NeverStuckExactly(e: Env, threads: nat)
    requires Predictable(e)
    ensures NeverStuck(e, threads) <==> 1 <= threads
  {
    if threads == 0 {
      NoThreadNoProgress(e);
    } else {
      forall acts, s | Runs(e, threads, acts, s) ensures exists a :: Possible(threads, s, a) {
        if threads == 1 {
          assert O.Chains(e) by { forall n: nat ensures O.ChainsAt(e, n) { assert PredictedAt(e, n); } }
          OneThreadPossible(e, acts, s);
        } else {
          RunsAreRuns(e, threads, acts, s);
          AlwaysServed(e, acts, s);
          StillPossible(e, threads, s);
        }
      }
    }
  }

  lemma NoThreadNoProgress(e: Env)
    ensures exists acts, s :: Runs(e, 0, acts, s) && !exists a :: Possible(0, s, a)
  {
    var s := Init();
    var s1 := s.(resp := 0, handed := 1, rx := [RxJob(0, Start)]);
    AtInit(e, 0);
    DispatchMove(e, 0, s, s1);
    var acts :| Runs(e, 0, acts, s1);
    forall a ensures !Possible(0, s1, a) {
      match a
      case Dispatch =>
      case PoolDone(p) =>
      case RxStep(i) =>
      case ReorderStep =>
    }
  }
}
