/**
 Jobs are conserved by the transmit pipeline whatever happens: for any slot pattern and prediction, any start-up and
 any loss, nothing is sent that was not issued, and nothing twice.
 */
module TxJobs {
  import opened TxPipeline

  ghost predicate AtMostOnce(s: State) {
    && (forall k: Token :: Waiting(s, k) + Flight(s, k) <= 1)
    && (s.reorder.PullFirst? ==> s.reserve == None)
  }

  function One(b: bool): nat { if b then 1 else 0 }

  /** How often job j occurs in a sequence, and whether element k carries it in flight. */
  function Times(jobs: seq<Job>, j: Job): nat {
    if jobs == [] then 0 else Times(jobs[..|jobs| - 1], j) + One(jobs[|jobs| - 1] == j)
  }

  function Carries(s: State, k: Token, j: Job): nat
    requires |s.data| == 2
  {
    One(Flight(s, k) >= 1 && s.data[k] == j)
  }

  /** What was released and what is in flight was issued, job by job. */
  ghost predicate Accounted(s: State, j: Job) {
    |s.data| == 2 && Times(Released(s), j) + Carries(s, 0, j) + Carries(s, 1, j) <= Times(s.issued, j)
  }

  lemma TimesPush(jobs: seq<Job>, x: Job, j: Job)
    ensures Times(jobs + [x], j) == Times(jobs, j) + One(x == j)
  {
    assert (jobs + [x])[..|jobs|] == jobs;
  }

  // ---- Elements ----

  lemma ReorderMoves(e: Env, s: State, k: Token)
    requires AtMostOnce(s) && Enabled(s, ReorderStep)
    ensures var s' := ExecReorder(e, s); Waiting(s', k) + Flight(s', k) <= 1
  {
    assert Waiting(s, k) + Flight(s, k) <= 1;
    match s.reorder
    case Send(x) => OccPush(s.free, x, k);
    case _ =>
  }

  lemma StaysAtMostOnce(e: Env, s: State, a: Action)
    requires AtMostOnce(s) && Enabled(s, a)
    ensures AtMostOnce(Exec(e, s, a))
  {
    var s' := Exec(e, s, a);
    forall k: Token ensures Waiting(s', k) + Flight(s', k) <= 1 {
      assert Waiting(s, k) + Flight(s, k) <= 1;
      match a
      case Dispatch => RxOccPush(s.rx, RxJob(s.handed, Start), k);
      case PoolDone(p) => OccRemove(s.pool, p, k); OccPush(s.out, s.pool[p], k);
      case RxStep(i) => RxTokenConserved(e, s, i, k);
      case ReorderStep => ReorderMoves(e, s, k);
    }
  }

  // ---- Jobs ----

  /** Nothing new is released or issued, and no element enters flight or changes its job there. */
  lemma AccountedFrame(s: State, s': State, j: Job)
    requires Accounted(s, j) && Released(s') == Released(s) && s'.issued == s.issued && |s'.data| == 2
    requires Flight(s', 0) <= Flight(s, 0) && (Flight(s', 0) >= 1 ==> s'.data[0] == s.data[0])
    requires Flight(s', 1) <= Flight(s, 1) && (Flight(s', 1) >= 1 ==> s'.data[1] == s.data[1])
    ensures Accounted(s', j)
  {
  }

  lemma RxFill(e: Env, s: State, k: Token, j: Job)
    requires AtMostOnce(s) && Accounted(s, j) && Enabled(s, RxStep(0)) && s.rx[0].stage == MacFill(k)
    ensures Accounted(ExecRx(e, s, 0), j)
  {
    assert RxOcc(s.rx, k) >= 1 && Waiting(s, k) + Flight(s, k) <= 1;
    AccountedFrame(s, ExecRx(e, s, 0), j);
  }

  lemma IssueMoves(e: Env, s: State, k: Token, o: Token)
    requires AtMostOnce(s) && Enabled(s, RxStep(0)) && o != k
    requires s.rx[0].stage == Issue(k) || s.rx[0].stage == FreeIssue(k)
    ensures var s' := ExecRx(e, s, 0);
            && Flight(s, k) == 0 && Flight(s', k) == 1 && Flight(s', o) == Flight(s, o) && s'.data[o] == s.data[o]
            && s'.issued == s.issued + [s'.data[k]] && Released(s') == Released(s)
  {
    assert RxOcc(s.rx, k) >= 1 && Waiting(s, k) + Flight(s, k) <= 1;
    OccPush(s.pool, k, k);
    OccPush(s.pool, k, o);
    OccPush(s.out, k, k);
    OccPush(s.out, k, o);
  }

  lemma RxIssue(e: Env, s: State, k: Token, o: Token, j: Job)
    requires AtMostOnce(s) && Accounted(s, j) && Enabled(s, RxStep(0)) && o != k
    requires s.rx[0].stage == Issue(k) || s.rx[0].stage == FreeIssue(k)
    ensures Accounted(ExecRx(e, s, 0), j)
  {
    IssueMoves(e, s, k, o);
    IssueAccounts(s, ExecRx(e, s, 0), k, o, j);
  }

  lemma IssueAccounts(s: State, s': State, k: Token, o: Token, j: Job)
    requires Accounted(s, j) && o != k && |s'.data| == 2 && Released(s') == Released(s)
    requires Flight(s, k) == 0 && Flight(s', k) == 1 && Flight(s', o) == Flight(s, o) && s'.data[o] == s.data[o]
    requires s'.issued == s.issued + [s'.data[k]]
    ensures Accounted(s', j)
  {
    TimesPush(s.issued, s'.data[k], j);
    assert Carries(s, k, j) == 0 && Carries(s', o, j) == Carries(s, o, j);
    BothCarry(s, k, o, j);
    BothCarry(s', k, o, j);
  }

  lemma RxAccounts(e: Env, s: State, j: Job)
    requires AtMostOnce(s) && Accounted(s, j) && Enabled(s, RxStep(0))
    ensures Accounted(ExecRx(e, s, 0), j)
  {
    match s.rx[0].stage
    case MacFill(k) => RxFill(e, s, k, j);
    case Issue(k) => RxIssue(e, s, k, 1 - k, j);
    case FreeIssue(k) => RxIssue(e, s, k, 1 - k, j);
    case _ => RxOtherwise(e, s, j);
  }

  lemma RxOtherwise(e: Env, s: State, j: Job)
    requires Accounted(s, j) && Enabled(s, RxStep(0))
    requires !s.rx[0].stage.MacFill? && !s.rx[0].stage.Issue? && !s.rx[0].stage.FreeIssue?
    ensures Accounted(ExecRx(e, s, 0), j)
  {
    AccountedFrame(s, ExecRx(e, s, 0), j);
  }

  lemma SendAccounts(e: Env, s: State, k: Token, o: Token, j: Job)
    requires AtMostOnce(s) && Accounted(s, j) && s.reorder == Send(k) && o != k
    ensures Accounted(ExecReorder(e, s), j)
  {
    SendMoves(e, s, k, o);
    ReleaseAccounts(s, ExecReorder(e, s), k, o, j);
  }

  lemma SendMoves(e: Env, s: State, k: Token, o: Token)
    requires AtMostOnce(s) && |s.data| == 2 && s.reorder == Send(k) && o != k
    ensures var s' := ExecReorder(e, s);
            && Flight(s, k) == 1 && Flight(s', k) == 0 && Flight(s', o) == Flight(s, o)
            && s'.data == s.data && s'.issued == s.issued && Released(s') == Released(s) + [s.data[k]]
  {
    assert Waiting(s, k) + Flight(s, k) <= 1 && Waiting(s, o) + Flight(s, o) <= 1;
  }

  lemma ReleaseAccounts(s: State, s': State, k: Token, o: Token, j: Job)
    requires Accounted(s, j) && o != k && s'.data == s.data && s'.issued == s.issued
    requires Flight(s, k) == 1 && Flight(s', k) == 0 && Flight(s', o) == Flight(s, o)
    requires Released(s') == Released(s) + [s.data[k]]
    ensures Accounted(s', j)
  {
    TimesPush(Released(s), s.data[k], j);
    assert Carries(s', k, j) == 0 && Carries(s', o, j) == Carries(s, o, j);
    BothCarry(s, k, o, j);
    BothCarry(s', k, o, j);
  }

  lemma BothCarry(s: State, k: Token, o: Token, j: Job)
    requires |s.data| == 2 && o != k
    ensures Carries(s, 0, j) + Carries(s, 1, j) == Carries(s, k, j) + Carries(s, o, j)
  {
    assert (k == 0 && o == 1) || (k == 1 && o == 0);
  }

  lemma ReorderAccounts(e: Env, s: State, j: Job)
    requires AtMostOnce(s) && Accounted(s, j) && Enabled(s, ReorderStep)
    ensures Accounted(ExecReorder(e, s), j)
  {
    if s.reorder.Send? {
      SendAccounts(e, s, s.reorder.hand, 1 - s.reorder.hand, j);
    } else {
      PullFlight(e, s, 0);
      PullFlight(e, s, 1);
      AccountedFrame(s, ExecReorder(e, s), j);
    }
  }

  lemma PullFlight(e: Env, s: State, k: Token)
    requires AtMostOnce(s) && Enabled(s, ReorderStep) && !s.reorder.Send?
    ensures var s' := ExecReorder(e, s);
            Flight(s', k) <= Flight(s, k) && Released(s') == Released(s) && s'.issued == s.issued && s'.data == s.data
  {
    assert Waiting(s, k) + Flight(s, k) <= 1;
  }

  lemma PoolAccounts(e: Env, s: State, p: nat, j: Job)
    requires Accounted(s, j) && Enabled(s, PoolDone(p))
    ensures Accounted(Exec(e, s, PoolDone(p)), j)
  {
    OccRemove(s.pool, p, 0);
    OccRemove(s.pool, p, 1);
    OccPush(s.out, s.pool[p], 0);
    OccPush(s.out, s.pool[p], 1);
    AccountedFrame(s, Exec(e, s, PoolDone(p)), j);
  }

  lemma StepAccounts(e: Env, s: State, a: Action, j: Job)
    requires RxInv(e, s) && AtMostOnce(s) && Accounted(s, j) && Enabled(s, a)
    ensures Accounted(Exec(e, s, a), j)
  {
    match a
    case Dispatch => AccountedFrame(s, Exec(e, s, a), j);
    case PoolDone(p) => PoolAccounts(e, s, p, j);
    case RxStep(i) => RxAccounts(e, s, j);
    case ReorderStep => ReorderAccounts(e, s, j);
  }

  lemma {:induction false} RunAccounts(e: Env, acts: seq<Action>, s: State, j: Job)
    requires Reaches(e, acts, s)
    ensures RxInv(e, s) && AtMostOnce(s) && Accounted(s, j)
    decreases |acts|
  {
    if acts == [] {
      InitAtStart(s);
      InitTokens(s);
      InitOrder(e, s);
      NothingYet(s, j);
    } else {
      var s0 := Predecessor(e, acts, s);
      var a := acts[|acts| - 1];
      RunAccounts(e, acts[..|acts| - 1], s0, j);
      RxSerialised(e, s0, a);
      StaysAtMostOnce(e, s0, a);
      StepAccounts(e, s0, a, j);
    }
  }

  lemma NothingYet(s: State, j: Job)
    requires AtStart(s)
    ensures Accounted(s, j)
  {
    assert Released(s) == [] && Flight(s, 0) == 0 && Flight(s, 1) == 0;
  }

  lemma {:induction false} TimesIsMultiplicity(jobs: seq<Job>, j: Job)
    ensures multiset(jobs)[j] == Times(jobs, j)
  {
    if jobs != [] {
      var n := |jobs| - 1;
      TimesIsMultiplicity(jobs[..n], j);
      assert jobs == jobs[..n] + [jobs[n]];
    }
  }

  /** Main result: in every run, however it started and whatever was lost, each job is sent at most as often as it was
      issued, with the frame, slot and timestamp it was issued with. */
  lemma NothingSentTwice(e: Env, acts: seq<Action>, s: State)
    requires Reaches(e, acts, s)
    ensures multiset(s.sent) <= multiset(s.issued)
  {
    forall j: Job ensures multiset(s.sent)[j] <= multiset(s.issued)[j] {
      RunAccounts(e, acts, s, j);
      TimesIsMultiplicity(s.sent, j);
      TimesIsMultiplicity(s.issued, j);
      if s.reorder.Emit? { TimesPush(s.sent, s.reorder.job, j); } else { assert Released(s) == s.sent; }
    }
  }
}
