/**
 The gNB L1 pipeline as a step relation: `ru_thread` hands slots to `rx_func` jobs through the
 single element of `resp_L1`; `rx_func` lets the MAC fill one of two TX elements and issues it to the
 thread pool; pool threads finish in any order; `tx_reorder_thread`, with its one-place reserve, must
 hand the jobs to `ru_tx_func` in the order of issue.

 Every action below is one access to a shared queue together with the thread-local work around it.
 The history fields `first`, `issued` and `sent` record what was pulled first at start-up, what
 `rx_func` issued and what reached `ru_tx_func`.
 */
module TxPipeline {

  datatype Option<T> = None | Some(value: T)

  /** What a TX job carries when it is issued (frame, slot, timestamp_tx). */
  datatype Job = Job(frame: nat, slot: nat, stamp: int)

  /** What the pipeline consults: the kind of the n-th slot handed over by `ru_thread`, the job that
      belongs to it, and the reorder thread's prediction of the slot number after a given one. */
  datatype Env = Env(downlink: nat -> bool, continuous: bool, job: nat -> Job, nextSlot: nat -> nat)

  /** The two elements created by `init_gNB_Tpool`. */
  type Token = t: nat | t < 2

  /** Where an `rx_func` job stands: `MacPull`/`MacFill` are inside `nr_schedule_response`. */
  datatype RxStage =
    | Start
    | MacPull
    | MacFill(tok: Token)
    | PullFilled
    | Issue(tok: Token)
    | FreePull
    | FreeIssue(tok: Token)
    | Finish

  datatype RxJob = RxJob(index: nat, stage: RxStage)

  /** Where `tx_reorder_thread` stands: the `pullTpool` calls, the loop top, the hand-over to the free
      queue and the call of `ru_tx_func`. */
  datatype Reorder =
    | PullFirst
    | Top
    | PullAfterMistake
    | PullSecond
    | Send(hand: Token)
    | Emit(job: Job)

  datatype State = State(
    free: seq<Token>, filled: seq<Token>, pool: seq<Token>, out: seq<Token>,
    data: seq<Job>,
    resp: nat, handed: nat, rx: seq<RxJob>,
    reorder: Reorder, reserve: Option<Token>, next: nat, errors: nat,
    first: Option<Job>, issued: seq<Job>, sent: seq<Job>)

  datatype Action = Dispatch | RxStep(job: nat) | PoolDone(pos: nat) | ReorderStep

  function Init(): State {
    var blank := Job(0, 0, 0);
    State([0, 1], [], [], [], [blank, blank], 1, 0, [], PullFirst, None, 0, 0, None, [], [])
  }

  predicate Enabled(s: State, a: Action) {
    && |s.data| == 2
    && match a
       case Dispatch => s.resp > 0
       case PoolDone(p) => p < |s.pool|
       case RxStep(i) => i < |s.rx| && RxEnabled(s, s.rx[i].stage)
       case ReorderStep => ReorderEnabled(s)
  }

  predicate RxEnabled(s: State, stage: RxStage) {
    (stage.MacPull? || stage.FreePull? ==> s.free != []) && (stage.PullFilled? ==> s.filled != [])
  }

  predicate ReorderEnabled(s: State) {
    match s.reorder
    case Top => s.reserve.Some? || s.out != []
    case Send(_) => true
    case Emit(_) => true
    case _ => s.out != []
  }

  function Exec(e: Env, s: State, a: Action): State
    requires Enabled(s, a)
  {
    match a
    case Dispatch => s.(resp := s.resp - 1, handed := s.handed + 1, rx := s.rx + [RxJob(s.handed, Start)])
    case PoolDone(p) => s.(pool := s.pool[..p] + s.pool[p + 1..], out := s.out + [s.pool[p]])
    case RxStep(i) => ExecRx(e, s, i)
    case ReorderStep => ExecReorder(e, s)
  }

  function ExecRx(e: Env, s: State, i: nat): State
    requires Enabled(s, RxStep(i))
  {
    var n := s.rx[i].index;
    var job := e.job(n);
    match s.rx[i].stage
    case Start => Goto(s, i, if e.downlink(n) then MacPull else if e.continuous then FreePull else Finish)
    case MacPull => Goto(s.(free := s.free[1..]), i, MacFill(s.free[0]))
    case MacFill(k) =>
      var d := s.data[k].(frame := job.frame, slot := job.slot);
      Goto(s.(data := s.data[k := d], filled := s.filled + [k]), i, PullFilled)
    case PullFilled => Goto(s.(filled := s.filled[1..]), i, Issue(s.filled[0]))
    case Issue(k) =>
      var d := s.data[k].(stamp := job.stamp);
      Goto(s.(data := s.data[k := d], pool := s.pool + [k], issued := s.issued + [d]), i, Finish)
    case FreePull => Goto(s.(free := s.free[1..]), i, FreeIssue(s.free[0]))
    case FreeIssue(k) =>
      Goto(s.(data := s.data[k := job], out := s.out + [k], issued := s.issued + [job]), i, Finish)
    case Finish => s.(rx := s.rx[..i] + s.rx[i + 1..], resp := s.resp + 1)
  }

  function Goto(s: State, i: nat, stage: RxStage): State
    requires i < |s.rx|
  {
    s.(rx := s.rx[i := s.rx[i].(stage := stage)])
  }

  function ExecReorder(e: Env, s: State): State
    requires Enabled(s, ReorderStep)
  {
    match s.reorder
    case PullFirst =>
      var j := s.data[s.out[0]];
      s.(reorder := Top, reserve := Some(s.out[0]), out := s.out[1..], next := j.slot, first := Some(j))
    case Top =>
      if s.reserve.Some? then
        if s.data[s.reserve.value].slot == s.next then s.(reorder := Send(s.reserve.value))
        else s.(reorder := PullAfterMistake, reserve := None, errors := s.errors + 1)
      else if s.data[s.out[0]].slot == s.next then s.(reorder := Send(s.out[0]), out := s.out[1..])
      else s.(reorder := PullSecond, reserve := Some(s.out[0]), out := s.out[1..])
    case PullAfterMistake => s.(reorder := Send(s.out[0]), out := s.out[1..])
    case PullSecond =>
      s.(reorder := Send(s.out[0]), out := s.out[1..],
         errors := if s.data[s.out[0]].slot == s.next then s.errors else s.errors + 1)
    case Send(k) =>
      s.(reorder := Emit(s.data[k]), next := e.nextSlot(s.data[k].slot), free := s.free + [k],
         reserve := if s.reserve == Some(k) then None else s.reserve)
    case Emit(j) => s.(reorder := Top, sent := s.sent + [j])
  }

  ghost predicate Step(e: Env, s: State, a: Action, s': State) {
    Enabled(s, a) && s' == Exec(e, s, a)
  }

  /** s is the state after the given actions, all of them enabled when taken. */
  ghost predicate Reaches(e: Env, acts: seq<Action>, s: State)
    decreases |acts|
  {
    if acts == [] then s == Init()
    else
      var init, a := acts[..|acts| - 1], acts[|acts| - 1];
      exists s0 :: Reaches(e, init, s0) && Step(e, s0, a, s)
  }

  // ---- The intended order ----

  predicate Sends(e: Env, n: nat) {
    e.continuous || e.downlink(n)
  }

  /** The jobs of the first n slots, in the order `ru_thread` handed the slots over. */
  function Schedule(e: Env, n: nat): seq<Job> {
    if n == 0 then [] else Schedule(e, n - 1) + if Sends(e, n - 1) then [e.job(n - 1)] else []
  }

  /** A job's slot number is the one predicted from the job before it, and a different one. */
  ghost predicate PredictedAt(e: Env, n: nat) {
    Sends(e, n) && Schedule(e, n) != [] ==>
      var last := Schedule(e, n)[|Schedule(e, n)| - 1];
      e.job(n).slot == e.nextSlot(last.slot) != last.slot
  }

  ghost predicate Predictable(e: Env) {
    forall n: nat :: PredictedAt(e, n)
  }

  ghost predicate Chained(e: Env, jobs: seq<Job>) {
    forall i :: 0 <= i < |jobs| - 1 ==> jobs[i + 1].slot == e.nextSlot(jobs[i].slot) != jobs[i].slot
  }

  lemma {:induction false} ScheduleChained(e: Env, n: nat)
    requires Predictable(e)
    ensures Chained(e, Schedule(e, n))
  {
    if n > 0 {
      ScheduleChained(e, n - 1);
      assert PredictedAt(e, n - 1);
    }
  }

  lemma {:induction false} SchedulePrefix(e: Env, m: nat, n: nat)
    requires m <= n
    ensures Schedule(e, m) <= Schedule(e, n)
    decreases n - m
  {
    if m < n { SchedulePrefix(e, m, n - 1); }
  }

  // ---- Where the tokens are ----

  /** How often token k occurs in a queue. */
  function Occ(q: seq<Token>, k: Token): nat {
    if q == [] then 0 else (if q[0] == k then 1 else 0) + Occ(q[1..], k)
  }

  predicate RxHolds(j: RxJob, k: Token) {
    j.stage == MacFill(k) || j.stage == Issue(k) || j.stage == FreeIssue(k)
  }

  function RxOcc(rx: seq<RxJob>, k: Token): nat {
    if rx == [] then 0 else (if RxHolds(rx[0], k) then 1 else 0) + RxOcc(rx[1..], k)
  }

  /** Occurrences of k as a job waiting for the pool or the reorder thread, or held by the latter (the
      hand may be the reserve itself). */
  function Flight(s: State, k: Token): nat {
    Occ(s.pool, k) + Occ(s.out, k)
    + if s.reserve == Some(k) || s.reorder == Send(k) then 1 else 0
  }

  /** Occurrences of k waiting for a job or being filled. */
  function Waiting(s: State, k: Token): nat {
    Occ(s.free, k) + Occ(s.filled, k) + RxOcc(s.rx, k)
  }

  /** Each of the two tokens is in exactly one place (and the reserve starts empty). */
  ghost predicate TokenInv(s: State) {
    && (forall k: Token :: Waiting(s, k) + Flight(s, k) == 1)
    && (s.reorder.PullFirst? ==> s.reserve == None)
  }

  lemma {:induction false} OccPush(q: seq<Token>, x: Token, k: Token)
    ensures Occ(q + [x], k) == Occ(q, k) + if x == k then 1 else 0
  {
    if q == [] {
      assert q + [x] == [x] && [x][1..] == [];
    } else {
      assert (q + [x])[1..] == q[1..] + [x];
      OccPush(q[1..], x, k);
    }
  }

  lemma {:induction false} OccRemove(q: seq<Token>, i: nat, k: Token)
    requires i < |q|
    ensures Occ(q[..i] + q[i + 1..], k) + (if q[i] == k then 1 else 0) == Occ(q, k)
  {
    if i == 0 {
      assert q[..0] + q[1..] == q[1..];
    } else {
      OccRemove(q[1..], i - 1, k);
      assert (q[..i] + q[i + 1..])[1..] == q[1..][..i - 1] + q[1..][i - 1 + 1..];
    }
  }

  lemma {:induction false} RxOccPush(rx: seq<RxJob>, j: RxJob, k: Token)
    ensures RxOcc(rx + [j], k) == RxOcc(rx, k) + if RxHolds(j, k) then 1 else 0
  {
    if rx == [] {
      assert rx + [j] == [j] && [j][1..] == [];
    } else {
      assert (rx + [j])[1..] == rx[1..] + [j];
      RxOccPush(rx[1..], j, k);
    }
  }

  lemma {:induction false} RxOccRemove(rx: seq<RxJob>, i: nat, k: Token)
    requires i < |rx|
    ensures RxOcc(rx[..i] + rx[i + 1..], k) + (if RxHolds(rx[i], k) then 1 else 0) == RxOcc(rx, k)
  {
    if i == 0 {
      assert rx[..0] + rx[1..] == rx[1..];
    } else {
      RxOccRemove(rx[1..], i - 1, k);
      assert (rx[..i] + rx[i + 1..])[1..] == rx[1..][..i - 1] + rx[1..][i - 1 + 1..];
    }
  }

  lemma RxOccUpdate(rx: seq<RxJob>, i: nat, j: RxJob, k: Token)
    requires i < |rx|
    ensures RxOcc(rx[i := j], k) + (if RxHolds(rx[i], k) then 1 else 0) == RxOcc(rx, k) + if RxHolds(j, k) then 1 else 0
  {
    RxOccRemove(rx, i, k);
    RxOccRemove(rx[i := j], i, k);
    assert rx[i := j][..i] + rx[i := j][i + 1..] == rx[..i] + rx[i + 1..];
  }

  // ---- The invariant of the receive side ----

  /** Slots past the point of issue. */
  function Passed(s: State): nat {
    if |s.rx| == 1 && !s.rx[0].stage.Finish? && s.handed > 0 then s.handed - 1 else s.handed
  }

  /** One `rx_func` at a time, working on the last slot handed over; the filled queue is its own. */
  ghost predicate RxInv(e: Env, s: State) {
    && |s.data| == 2
    && s.resp + |s.rx| == 1
    && s.issued == Schedule(e, Passed(s))
    && (|s.rx| == 1 ==> s.rx[0].index + 1 == s.handed && StageInv(e, s, s.rx[0]))
    && (|s.rx| == 0 || !s.rx[0].stage.PullFilled? ==> s.filled == [])
  }

  ghost predicate StageInv(e: Env, s: State, j: RxJob)
    requires |s.data| == 2
  {
    var job := e.job(j.index);
    match j.stage
    case Start => true
    case MacPull => e.downlink(j.index)
    case MacFill(_) => e.downlink(j.index)
    case PullFilled => e.downlink(j.index) && |s.filled| == 1 && s.data[s.filled[0]].(stamp := job.stamp) == job
    case Issue(k) => e.downlink(j.index) && s.data[k].(stamp := job.stamp) == job
    case FreePull => e.continuous
    case FreeIssue(_) => e.continuous
    case Finish => true
  }

  // ---- The invariant of the reorder thread ----

  /** Jobs released by the reorder thread: sent, or about to be sent. */
  function Released(s: State): seq<Job> {
    s.sent + if s.reorder.Emit? then [s.reorder.job] else []
  }

  /** The tokens in flight hold exactly the jobs from number d on: one token the d-th job, or the two
      tokens the d-th and the next one, in either order. */
  ghost predicate HoldsFrom(s: State, d: nat)
    requires |s.data| == 2
  {
    var f0, f1 := Flight(s, 0), Flight(s, 1);
    && f0 <= 1 && f1 <= 1
    && |s.issued| == d + f0 + f1
    && (f0 == 1 && f1 == 0 ==> s.data[0] == s.issued[d])
    && (f0 == 0 && f1 == 1 ==> s.data[1] == s.issued[d])
    && (f0 == 1 && f1 == 1 ==>
          || (s.data[0] == s.issued[d] && s.data[1] == s.issued[d + 1])
          || (s.data[1] == s.issued[d] && s.data[0] == s.issued[d + 1]))
  }

  ghost predicate OrderInv(e: Env, s: State) {
    && |s.data| == 2
    && Released(s) <= s.issued
    && HoldsFrom(s, |Released(s)|)
    && s.errors == 0
    && ReorderInv(e, s)
  }

  ghost predicate ReorderInv(e: Env, s: State)
    requires |s.data| == 2
  {
    && (s.reorder.PullFirst? ==> s.sent == [] && s.reserve == None && s.first == None)
    && (!s.reorder.PullFirst? ==>
          && s.issued != []
          && s.next == if Released(s) == [] then s.issued[0].slot else e.nextSlot(Released(s)[|Released(s)| - 1].slot))
    && match s.reorder
       case PullFirst => true
       case PullAfterMistake => false
       case PullSecond => s.reserve.Some? && s.data[s.reserve.value].slot != s.next
       case Send(k) => s.data[k].slot == s.next
       case _ => s.reserve.Some? ==> s.data[s.reserve.value].slot == s.next
  }

  // ---- Token conservation ----

  /** The one branch that loses an element: a reserve that does not hold the expected slot. */
  predicate DropsReserve(s: State, a: Action)
    requires |s.data| == 2
  {
    a.ReorderStep? && s.reorder.Top? && s.reserve.Some? && s.data[s.reserve.value].slot != s.next
  }

  /** Every step moves tokens around without losing or duplicating one, unless it drops the reserve. */
  lemma TokensConserved(e: Env, s: State, a: Action)
    requires TokenInv(s) && Enabled(s, a) && !DropsReserve(s, a)
    ensures TokenInv(Exec(e, s, a))
  {
    var s' := Exec(e, s, a);
    forall k: Token ensures Waiting(s', k) + Flight(s', k) == 1 {
      assert Waiting(s, k) + Flight(s, k) == 1;
      match a
      case Dispatch => RxOccPush(s.rx, RxJob(s.handed, Start), k);
      case PoolDone(p) => OccRemove(s.pool, p, k); OccPush(s.out, s.pool[p], k);
      case RxStep(i) => RxTokenConserved(e, s, i, k);
      case ReorderStep => ReorderTokenConserved(e, s, k);
    }
  }

  lemma RxTokenConserved(e: Env, s: State, i: nat, k: Token)
    requires Enabled(s, RxStep(i))
    ensures var s' := ExecRx(e, s, i); Waiting(s', k) + Flight(s', k) == Waiting(s, k) + Flight(s, k)
  {
    if s.rx[i].stage.Finish? {
      RxOccRemove(s.rx, i, k);
    } else {
      RxOccUpdate(s.rx, i, ExecRx(e, s, i).rx[i], k);
      match s.rx[i].stage
      case MacFill(x) => RxPushConserved(e, s, i, k, x);
      case Issue(x) => RxPushConserved(e, s, i, k, x);
      case FreeIssue(x) => RxPushConserved(e, s, i, k, x);
      case _ =>
    }
  }

  /** The stages that put an element into a queue. */
  lemma RxPushConserved(e: Env, s: State, i: nat, k: Token, x: Token)
    requires Enabled(s, RxStep(i))
    requires s.rx[i].stage == MacFill(x) || s.rx[i].stage == Issue(x) || s.rx[i].stage == FreeIssue(x)
    requires RxOcc(ExecRx(e, s, i).rx, k) + (if x == k then 1 else 0) == RxOcc(s.rx, k)
    ensures var s' := ExecRx(e, s, i); Waiting(s', k) + Flight(s', k) == Waiting(s, k) + Flight(s, k)
  {
    OccPush(s.filled, x, k);
    OccPush(s.pool, x, k);
    OccPush(s.out, x, k);
  }

  lemma ReorderTokenConserved(e: Env, s: State, k: Token)
    requires Enabled(s, ReorderStep) && !DropsReserve(s, ReorderStep) && TokenInv(s)
    ensures var s' := ExecReorder(e, s); Waiting(s', k) + Flight(s', k) == 1
  {
    assert Waiting(s, k) + Flight(s, k) == 1;
    match s.reorder
    case Send(x) => OccPush(s.free, x, k);
    case _ =>
  }

  // ---- One rx_func at a time ----

  lemma RxSerialised(e: Env, s: State, a: Action)
    requires RxInv(e, s) && Enabled(s, a)
    ensures RxInv(e, Exec(e, s, a))
  {
    match a
    case RxStep(i) => RxSerialisedStep(e, s);
    case _ =>
  }

  lemma RxSerialisedStep(e: Env, s: State)
    requires RxInv(e, s) && Enabled(s, RxStep(0))
    ensures RxInv(e, ExecRx(e, s, 0))
  {
    match s.rx[0].stage
    case Issue(k) => IssueFollowsSchedule(e, s);
    case FreeIssue(k) => IssueFollowsSchedule(e, s);
    case Finish => FinishKeepsSchedule(e, s);
    case _ =>
  }

  lemma IssueFollowsSchedule(e: Env, s: State)
    requires RxInv(e, s) && Enabled(s, RxStep(0)) && (s.rx[0].stage.Issue? || s.rx[0].stage.FreeIssue?)
    ensures RxInv(e, ExecRx(e, s, 0))
  {
    assert Passed(ExecRx(e, s, 0)) == Passed(s) + 1 == s.handed;
  }

  lemma FinishKeepsSchedule(e: Env, s: State)
    requires RxInv(e, s) && Enabled(s, RxStep(0)) && s.rx[0].stage.Finish?
    ensures RxInv(e, ExecRx(e, s, 0))
  {
    assert s.rx[..0] + s.rx[1..] == [];
  }

  // ---- The reorder thread restores the order of issue ----

  /** The oldest job in flight is the expected one; the other one, if any, is not. */
  ghost predicate OldestExpected(e: Env, s: State) {
    var d := |Released(s)|;
    && (d < |s.issued| && !s.reorder.PullFirst? ==> s.issued[d].slot == s.next)
    && (d + 1 < |s.issued| ==> s.issued[d + 1].slot == e.nextSlot(s.issued[d].slot) != s.issued[d].slot)
  }

  lemma Outstanding(e: Env, s: State)
    requires Predictable(e) && RxInv(e, s) && OrderInv(e, s)
    ensures OldestExpected(e, s)
  {
    var d := |Released(s)|;
    ScheduleChained(e, Passed(s));
    if 0 < d < |s.issued| { assert s.issued[d - 1] == Released(s)[d - 1]; }
  }

  /** The fields the reorder thread owns are the same in both states. */
  ghost predicate SameReorder(s: State, s': State) {
    && s'.reorder == s.reorder && s'.reserve == s.reserve && s'.next == s.next
    && s'.errors == s.errors && s'.first == s.first && s'.sent == s.sent
  }

  lemma OrderFrame(e: Env, s: State, s': State)
    requires OrderInv(e, s) && SameReorder(s, s') && s'.issued == s.issued && |s'.data| == 2
    requires forall k: Token :: Flight(s', k) == Flight(s, k) && (Flight(s, k) >= 1 ==> s'.data[k] == s.data[k])
    ensures OrderInv(e, s')
  {
    assert Flight(s', 0) == Flight(s, 0) && Flight(s', 1) == Flight(s, 1);
    if s.reserve.Some? { assert Flight(s, s.reserve.value) >= 1; }
    if s.reorder.Send? { assert Flight(s, s.reorder.hand) >= 1; }
  }

  lemma OrderAdd(e: Env, s: State, s': State, k: Token, o: Token)
    requires OrderInv(e, s) && SameReorder(s, s') && |s'.data| == 2 && o != k
    requires Flight(s, k) == 0 && Flight(s', k) == 1 && Flight(s', o) == Flight(s, o) <= 1 && s'.data[o] == s.data[o]
    requires s'.issued == s.issued + [s'.data[k]]
    ensures OrderInv(e, s')
  {
    assert Released(s') == Released(s);
    if s.reserve.Some? { assert s.reserve.value == o; }
    if s.reorder.Send? { assert s.reorder.hand == o; }
  }

  lemma OrderKeptByRx(e: Env, s: State)
    requires TokenInv(s) && OrderInv(e, s) && Enabled(s, RxStep(0)) && StageInv(e, s, s.rx[0])
    ensures OrderInv(e, ExecRx(e, s, 0))
  {
    match s.rx[0].stage
    case MacFill(k) => OrderKeptByFill(e, s, k);
    case Issue(k) => OrderKeptByIssue(e, s, k);
    case FreeIssue(k) => OrderKeptByIssue(e, s, k);
    case _ => OrderKeptOtherwise(e, s);
  }

  lemma OrderKeptOtherwise(e: Env, s: State)
    requires OrderInv(e, s) && Enabled(s, RxStep(0))
    requires !s.rx[0].stage.MacFill? && !s.rx[0].stage.Issue? && !s.rx[0].stage.FreeIssue?
    ensures OrderInv(e, ExecRx(e, s, 0))
  {
    OrderFrame(e, s, ExecRx(e, s, 0));
  }

  lemma OrderKeptByFill(e: Env, s: State, k: Token)
    requires TokenInv(s) && OrderInv(e, s) && Enabled(s, RxStep(0)) && s.rx[0].stage == MacFill(k)
    ensures OrderInv(e, ExecRx(e, s, 0))
  {
    assert Waiting(s, k) >= 1 && Waiting(s, k) + Flight(s, k) == 1;
    OrderFrame(e, s, ExecRx(e, s, 0));
  }

  lemma OrderKeptByIssue(e: Env, s: State, k: Token)
    requires TokenInv(s) && OrderInv(e, s) && Enabled(s, RxStep(0))
    requires s.rx[0].stage == Issue(k) || s.rx[0].stage == FreeIssue(k)
    ensures OrderInv(e, ExecRx(e, s, 0))
  {
    var o: Token := 1 - k;
    IssueFlights(e, s, k, o);
    OrderAdd(e, s, ExecRx(e, s, 0), k, o);
  }

  /** Issuing puts element k in flight and leaves the other one alone. */
  lemma IssueFlights(e: Env, s: State, k: Token, o: Token)
    requires TokenInv(s) && Enabled(s, RxStep(0)) && o != k
    requires s.rx[0].stage == Issue(k) || s.rx[0].stage == FreeIssue(k)
    ensures var s' := ExecRx(e, s, 0);
            && Flight(s, k) == 0 && Flight(s', k) == 1 && Flight(s', o) == Flight(s, o) <= 1
            && s'.data[o] == s.data[o]
  {
    assert Waiting(s, k) >= 1 && Waiting(s, k) + Flight(s, k) == 1 && Waiting(s, o) + Flight(s, o) == 1;
    OccPush(s.pool, k, k);
    OccPush(s.pool, k, o);
    OccPush(s.out, k, k);
    OccPush(s.out, k, o);
  }

  lemma SameFlight(s: State, s': State)
    requires TokenInv(s) && |s.data| == 2 && s.out != []
    requires s'.pool == s.pool && s'.out == s.out[1..] && !s.reorder.Send?
    requires || (s'.reserve == Some(s.out[0]) && s.reserve == None && !s'.reorder.Send?)
             || (s'.reserve == s.reserve && s'.reorder == Send(s.out[0]))
    ensures forall k: Token :: Flight(s', k) == Flight(s, k)
  {
    forall k: Token ensures Flight(s', k) == Flight(s, k) {
      assert Waiting(s, k) + Flight(s, k) == 1;
    }
  }

  /** A pull of the reorder thread keeps the order: an unexpected job goes to the empty reserve, and
      with the reserve taken the job pulled is the expected one. */
  lemma PullKeeps(e: Env, s: State)
    requires TokenInv(s) && OrderInv(e, s) && OldestExpected(e, s) && Enabled(s, ReorderStep)
    requires (s.reorder.Top? && s.reserve == None) || s.reorder.PullSecond?
    ensures OrderInv(e, ExecReorder(e, s))
  {
    var s' := ExecReorder(e, s);
    SameFlight(s, s');
    assert Flight(s, s.out[0]) == 1 by { assert Occ(s.out, s.out[0]) >= 1; }
    if s.reorder.PullSecond? {
      assert Waiting(s, s.out[0]) + Flight(s, s.out[0]) == 1;
      assert s.out[0] != s.reserve.value;
      assert Flight(s, 0) == 1 && Flight(s, 1) == 1;
    }
  }

  lemma FirstPullKeeps(e: Env, s: State)
    requires TokenInv(s) && OrderInv(e, s) && Enabled(s, ReorderStep) && s.reorder.PullFirst?
    requires s.issued != [] && s.data[s.out[0]] == s.issued[0]
    ensures OrderInv(e, ExecReorder(e, s))
  {
    SameFlight(s, ExecReorder(e, s));
  }

  lemma SendKeeps(e: Env, s: State, k: Token, o: Token)
    requires TokenInv(s) && OrderInv(e, s) && OldestExpected(e, s) && s.reorder == Send(k) && o != k
    ensures OrderInv(e, ExecReorder(e, s))
  {
    var s' := ExecReorder(e, s);
    var d := |Released(s)|;
    assert Waiting(s, k) + Flight(s, k) == 1 && Waiting(s, o) + Flight(s, o) == 1;
    assert Flight(s', k) == 0 && Flight(s', o) == Flight(s, o);
    assert s.data[k] == s.issued[d];
    assert Released(s') == Released(s) + [s.issued[d]];
    if s'.reserve.Some? { assert s'.reserve.value == o && Flight(s, o) == 1; }
  }

  lemma EmitKeeps(e: Env, s: State)
    requires OrderInv(e, s) && s.reorder.Emit?
    ensures OrderInv(e, ExecReorder(e, s))
  {
    var s' := ExecReorder(e, s);
    assert Released(s') == Released(s);
    assert Flight(s', 0) == Flight(s, 0) && Flight(s', 1) == Flight(s, 1);
  }

  lemma TakeReserveKeeps(e: Env, s: State)
    requires OrderInv(e, s) && s.reorder.Top? && s.reserve.Some?
    ensures OrderInv(e, ExecReorder(e, s))
  {
    var s' := ExecReorder(e, s);
    assert Released(s') == Released(s);
    assert Flight(s', 0) == Flight(s, 0) && Flight(s', 1) == Flight(s, 1);
  }

  /** The steps of the reorder thread.  The very first pull is the only one that needs help: the
      element found in `L1_tx_out` has to be the job issued first. */
  lemma OrderKeptByReorder(e: Env, s: State)
    requires TokenInv(s) && OrderInv(e, s) && OldestExpected(e, s) && Enabled(s, ReorderStep)
    requires s.reorder.PullFirst? ==> s.issued != [] && s.data[s.out[0]] == s.issued[0]
    ensures OrderInv(e, ExecReorder(e, s)) && !DropsReserve(s, ReorderStep)
  {
    match s.reorder
    case PullFirst => FirstPullKeeps(e, s);
    case Top => if s.reserve.Some? { TakeReserveKeeps(e, s); } else { PullKeeps(e, s); }
    case PullSecond => PullKeeps(e, s);
    case Send(k) => SendKeeps(e, s, k, 1 - k);
    case Emit(j) => EmitKeeps(e, s);
  }

  // ---- Whole runs ----

  /** The first element the reorder thread found in `L1_tx_out` was the job issued first. */
  predicate StartedInOrder(s: State) {
    s.first.Some? ==> s.issued != [] && s.first.value == s.issued[0]
  }

  /** Before anything is released: the element pulled first is still in hand, as it was pulled. */
  ghost predicate StartInv(s: State) {
    && |s.data| == 2
    && (s.first == None <==> s.reorder.PullFirst?)
    && (s.first.Some? ==> s.issued != [])
    && (Released(s) == [] ==>
          && TokenInv(s)
          && (s.first.Some? ==>
                && s.reserve.Some? && s.data[s.reserve.value] == s.first.value && s.next == s.first.value.slot
                && (s.reorder == Top || s.reorder == Send(s.reserve.value))))
    && (Released(s) != [] ==> s.first == Some(Released(s)[0]))
  }

  ghost predicate RunInv(e: Env, s: State) {
    && RxInv(e, s) && StartInv(s)
    && (StartedInOrder(s) ==> TokenInv(s) && OrderInv(e, s))
  }

  lemma StartKept(e: Env, s: State, a: Action)
    requires StartInv(s) && RxInv(e, s) && Enabled(s, a)
    requires s.first == None ==> OrderInv(e, s)
    ensures StartInv(Exec(e, s, a))
  {
    if Released(s) == [] { TokensConserved(e, s, a); }
    match a
    case Dispatch =>
    case PoolDone(p) =>
    case RxStep(i) => if Released(s) == [] { StartKeptByRx(e, s); }
    case ReorderStep => StartKeptByReorder(e, s);
  }

  lemma StartKeptByRx(e: Env, s: State)
    requires StartInv(s) && Enabled(s, RxStep(0)) && Released(s) == []
    requires TokenInv(ExecRx(e, s, 0))
    ensures StartInv(ExecRx(e, s, 0))
  {
    if s.first.Some? {
      var r := s.reserve.value;
      assert Waiting(s, r) + Flight(s, r) == 1;
      assert RxHolds(s.rx[0], r) ==> RxOcc(s.rx, r) >= 1;
    }
  }

  lemma StartKeptByReorder(e: Env, s: State)
    requires StartInv(s) && Enabled(s, ReorderStep)
    requires s.first == None ==> OrderInv(e, s)
    requires Released(s) == [] ==> TokenInv(ExecReorder(e, s))
    ensures StartInv(ExecReorder(e, s))
  {
    match s.reorder
    case PullFirst => assert Flight(s, s.out[0]) >= 1 by { assert Occ(s.out, s.out[0]) >= 1; }
    case Send(k) => assert Released(ExecReorder(e, s))[0] == if s.sent == [] then s.data[k] else s.sent[0];
    case Emit(j) => assert Released(ExecReorder(e, s)) == Released(s);
    case _ => assert Released(ExecReorder(e, s)) == Released(s);
  }

  lemma OrderKept(e: Env, s: State, a: Action)
    requires Predictable(e) && TokenInv(s) && RxInv(e, s) && OrderInv(e, s) && Enabled(s, a)
    requires StartedInOrder(Exec(e, s, a))
    ensures TokenInv(Exec(e, s, a)) && OrderInv(e, Exec(e, s, a))
  {
    match a
    case Dispatch => OrderFrame(e, s, Exec(e, s, a)); TokensConserved(e, s, a);
    case PoolDone(p) => PoolDoneKeeps(e, s, p); TokensConserved(e, s, a);
    case RxStep(i) => OrderKeptByRx(e, s); TokensConserved(e, s, a);
    case ReorderStep => Outstanding(e, s); OrderKeptByReorder(e, s); TokensConserved(e, s, a);
  }

  lemma PoolDoneKeeps(e: Env, s: State, p: nat)
    requires OrderInv(e, s) && Enabled(s, PoolDone(p))
    ensures OrderInv(e, Exec(e, s, PoolDone(p)))
  {
    var s' := Exec(e, s, PoolDone(p));
    forall k: Token ensures Flight(s', k) == Flight(s, k) {
      OccRemove(s.pool, p, k);
      OccPush(s.out, s.pool[p], k);
    }
    OrderFrame(e, s, s');
  }

  lemma Predecessor(e: Env, acts: seq<Action>, s: State) returns (s0: State)
    requires acts != [] && Reaches(e, acts, s)
    ensures Reaches(e, acts[..|acts| - 1], s0) && Step(e, s0, acts[|acts| - 1], s)
  {
    s0 :| Reaches(e, acts[..|acts| - 1], s0) && Step(e, s0, acts[|acts| - 1], s);
  }

  /** What matters of the initial state. */
  ghost predicate AtStart(s: State) {
    && s.free == [0] + [1] && s.filled == [] && s.pool == [] && s.out == [] && |s.data| == 2
    && s.resp == 1 && s.handed == 0 && s.rx == []
    && s.reorder == PullFirst && s.reserve == None && s.errors == 0
    && s.first == None && s.issued == [] && s.sent == []
  }

  lemma InitAtStart(s: State)
    requires s == Init()
    ensures AtStart(s)
  {
  }

  lemma InitKeeps(e: Env, s: State)
    requires AtStart(s)
    ensures RunInv(e, s)
  {
    InitTokens(s);
    InitOrder(e, s);
  }

  lemma InitTokens(s: State)
    requires AtStart(s)
    ensures TokenInv(s)
  {
    forall k: Token ensures Waiting(s, k) + Flight(s, k) == 1 {
      OccPush([], 0, k);
      OccPush([0], 1, k);
      assert [] + [0] == [0];
    }
  }

  lemma InitOrder(e: Env, s: State)
    requires AtStart(s) && TokenInv(s)
    ensures RxInv(e, s) && StartInv(s) && OrderInv(e, s)
  {
    assert Schedule(e, 0) == [] && Released(s) == [];
    assert Flight(s, 0) == 0 && Flight(s, 1) == 0;
  }

  lemma {:induction false} RunKeeps(e: Env, acts: seq<Action>, s: State)
    requires Predictable(e) && Reaches(e, acts, s)
    ensures RunInv(e, s)
    decreases |acts|
  {
    if acts == [] {
      InitAtStart(s);
      InitKeeps(e, s);
    } else {
      var s0 := Predecessor(e, acts, s);
      RunKeeps(e, acts[..|acts| - 1], s0);
      StepTo(e, s0, acts[|acts| - 1], s);
    }
  }

  lemma StepTo(e: Env, s: State, a: Action, s': State)
    requires Predictable(e) && RunInv(e, s) && Step(e, s, a, s')
    ensures RunInv(e, s')
  {
    StepKeeps(e, s, a);
  }

  lemma HistoryGrows(e: Env, s: State, a: Action)
    requires StartInv(s) && Enabled(s, a) && StartedInOrder(Exec(e, s, a))
    ensures StartedInOrder(s)
  {
    match a
    case RxStep(i) => assert s.issued <= ExecRx(e, s, i).issued;
    case ReorderStep => assert s.first.Some? ==> ExecReorder(e, s).first == s.first;
    case _ =>
  }

  lemma StepKeeps(e: Env, s: State, a: Action)
    requires Predictable(e) && RunInv(e, s) && Enabled(s, a)
    ensures RunInv(e, Exec(e, s, a))
  {
    var s' := Exec(e, s, a);
    RxSerialised(e, s, a);
    StartKept(e, s, a);
    if StartedInOrder(s') {
      HistoryGrows(e, s, a);
      OrderKept(e, s, a);
    }
  }

  /** What holds in a state of a run that started in order. */
  ghost predicate Orderly(e: Env, s: State) {
    && s.sent <= s.issued == Schedule(e, Passed(s)) <= Schedule(e, s.handed)
    && s.errors == 0 && !s.reorder.PullAfterMistake?
    && (forall k: Token :: Waiting(s, k) + Flight(s, k) == 1)
    && (s.reorder.Top? && s.reserve.Some? ==> |s.data| == 2 && s.data[s.reserve.value].slot == s.next)
    && s.resp + |s.rx| == 1 && (forall i :: 0 <= i < |s.rx| ==> s.rx[i].index == s.handed - 1)
  }

  lemma InvOrderly(e: Env, s: State)
    requires RxInv(e, s) && TokenInv(s) && OrderInv(e, s)
    ensures Orderly(e, s)
  {
    SchedulePrefix(e, Passed(s), s.handed);
    assert s.sent <= Released(s);
  }

  /** Main result.  In every state of every run whose first pull found the job issued first: what
      reached `ru_tx_func` is a prefix of what `rx_func` issued, which is the schedule itself, every
      job with the frame, slot and timestamp it was issued with; no error branch was ever taken; each
      token is in one place; an occupied reserve at the loop top holds the expected slot; and at most
      one `rx_func` job exists, working on the last slot handed over. */
  lemma TransmitsInOrder(e: Env, acts: seq<Action>, s: State)
    requires Predictable(e) && Reaches(e, acts, s) && StartedInOrder(s)
    ensures Orderly(e, s)
  {
    RunKeeps(e, acts, s);
    InvOrderly(e, s);
  }

  /** The condition on the first pull is exact: once something was sent, the order of sending agrees
      with the order of issue if and only if the element pulled first was the one issued first. */
  lemma InOrderExactly(e: Env, acts: seq<Action>, s: State)
    requires Predictable(e) && Reaches(e, acts, s) && s.sent != []
    ensures s.issued != [] && s.first.Some?
    ensures s.sent <= s.issued <==> s.first.value == s.issued[0]
  {
    RunKeeps(e, acts, s);
    FirstSent(e, s);
  }

  lemma FirstSent(e: Env, s: State)
    requires RunInv(e, s) && s.sent != []
    ensures s.issued != [] && s.first.Some?
    ensures s.sent <= s.issued <==> s.first.value == s.issued[0]
  {
    assert Released(s)[0] == s.sent[0];
    if s.first.value == s.issued[0] { InvOrderly(e, s); }
  }

  // ---- Nobody waits for ever ----

  lemma {:induction false} OccEmpty(q: seq<Token>)
    ensures q == [] <==> forall k: Token :: Occ(q, k) == 0
  {
    if q != [] { assert Occ(q, q[0]) >= 1; }
  }

  /** An `rx_func` call that cannot go on waits for a free element, and there is none. */
  lemma WaitingForFree(e: Env, s: State)
    requires RxInv(e, s) && s.resp == 0 && !RxEnabled(s, s.rx[0].stage)
    ensures forall k: Token :: Waiting(s, k) == 0
  {
    assert StageInv(e, s, s.rx[0]) && !s.rx[0].stage.PullFilled?;
    assert s.free == [] && s.filled == [] && s.rx[1..] == [];
    forall k: Token ensures Waiting(s, k) == 0 {
      assert RxOcc(s.rx, k) == RxOcc(s.rx[1..], k) == 0;
    }
  }

  /** The job the reorder thread waits for is in the pool or in `L1_tx_out`. */
  ghost predicate ExpectedUnderWay(s: State, k: Token) {
    && |s.data| == 2 && |Released(s)| < |s.issued|
    && Occ(s.pool, k) + Occ(s.out, k) == 1 && s.data[k].slot == s.next && s.data[k] == s.issued[|Released(s)|]
  }

  lemma ExpectedComes(e: Env, s: State)
    requires TokenInv(s) && OrderInv(e, s) && OldestExpected(e, s) && s.reorder.PullSecond?
    ensures exists k: Token :: ExpectedUnderWay(s, k)
  {
    var r := s.reserve.value;
    var o: Token := 1 - r;
    assert Waiting(s, r) + Flight(s, r) == 1 && Waiting(s, o) + Flight(s, o) == 1;
    assert Flight(s, 0) + Flight(s, 1) >= 1;
    assert ExpectedUnderWay(s, o);
  }

  /** While the reorder thread waits with its reserve taken, the expected job is on its way. */
  lemma ExpectedAlwaysComes(e: Env, acts: seq<Action>, s: State)
    requires Predictable(e) && Reaches(e, acts, s) && StartedInOrder(s) && s.reorder.PullSecond?
    ensures exists k: Token :: ExpectedUnderWay(s, k)
  {
    RunKeeps(e, acts, s);
    Outstanding(e, s);
    ExpectedComes(e, s);
  }
}
