/**
 Continuous transmission that begins with a slot that is not downlink: the first job bypasses the pool, so the
 reorder thread finds it first, whatever the pool does with the others.
 */
module TxBypass {
  import opened TxPipeline

  ghost predicate Bypasses(e: Env) { e.continuous && !e.downlink(0) }

  /** Until the first pull the job issued first stands first in L1_tx_out; from then on it is the one that was
      pulled. */
  ghost predicate FrontInv(s: State) {
    && |s.data| == 2 && (s.reorder.PullFirst? <==> s.first == None)
    && (s.reorder.PullFirst? && s.issued == [] ==> s.pool == [] && s.out == [])
    && (s.reorder.PullFirst? && s.issued != [] ==> s.out != [] && s.data[s.out[0]] == s.issued[0])
    && (s.first.Some? ==> s.issued != [] && s.first.value == s.issued[0])
  }

  ghost predicate StartInOrderInv(e: Env, s: State) {
    RxInv(e, s) && FrontInv(s) && (s.reorder.PullFirst? ==> TokenInv(s))
  }

  lemma FrontInFlight(s: State, k: Token)
    requires TokenInv(s) && s.out != [] && Waiting(s, k) >= 1
    ensures s.out[0] != k
  {
    assert Waiting(s, k) + Flight(s, k) == 1;
    assert Occ(s.out, s.out[0]) >= 1;
  }

  /** With continuous transmission nothing is issued before slot 0 only at slot 0. */
  lemma NothingIssued(e: Env, n: nat)
    requires e.continuous && Schedule(e, n) == []
    ensures n == 0
  {
  }

  lemma RxKeepsFront(e: Env, s: State)
    requires Bypasses(e) && StartInOrderInv(e, s) && Enabled(s, RxStep(0))
    ensures FrontInv(ExecRx(e, s, 0))
  {
    match s.rx[0].stage
    case MacFill(k) => if s.reorder.PullFirst? && s.out != [] { FrontInFlight(s, k); }
    case Issue(k) => IssueKeepsFront(e, s, k);
    case FreeIssue(k) => if s.reorder.PullFirst? && s.out != [] { FrontInFlight(s, k); }
    case _ =>
  }

  lemma IssueKeepsFront(e: Env, s: State, k: Token)
    requires Bypasses(e) && StartInOrderInv(e, s) && Enabled(s, RxStep(0)) && s.rx[0].stage == Issue(k)
    ensures FrontInv(ExecRx(e, s, 0))
  {
    assert s.issued != [] by {
      if s.issued == [] { NothingIssued(e, Passed(s)); }
    }
    if s.reorder.PullFirst? && s.out != [] { FrontInFlight(s, k); }
  }

  lemma PoolKeepsFront(e: Env, s: State, p: nat)
    requires FrontInv(s) && Enabled(s, PoolDone(p))
    ensures FrontInv(Exec(e, s, PoolDone(p)))
  {
  }

  lemma ReorderKeepsFront(e: Env, s: State)
    requires FrontInv(s) && Enabled(s, ReorderStep)
    ensures FrontInv(ExecReorder(e, s))
  {
  }

  lemma StepKeepsFront(e: Env, s: State, a: Action)
    requires Bypasses(e) && StartInOrderInv(e, s) && Enabled(s, a)
    ensures FrontInv(Exec(e, s, a))
  {
    match a
    case Dispatch =>
    case PoolDone(p) => PoolKeepsFront(e, s, p);
    case RxStep(i) => RxKeepsFront(e, s);
    case ReorderStep => ReorderKeepsFront(e, s);
  }

  lemma StillStarting(e: Env, s: State, a: Action)
    requires Enabled(s, a) && Exec(e, s, a).reorder.PullFirst?
    ensures s.reorder.PullFirst?
  {
  }

  lemma StepKeepsStart(e: Env, s: State, a: Action)
    requires Bypasses(e) && StartInOrderInv(e, s) && Enabled(s, a)
    ensures StartInOrderInv(e, Exec(e, s, a))
  {
    RxSerialised(e, s, a);
    StepKeepsFront(e, s, a);
    if Exec(e, s, a).reorder.PullFirst? {
      StillStarting(e, s, a);
      TokensConserved(e, s, a);
    }
  }

  /** Main result: every run starts in order. */
  lemma {:induction false} StartsInOrder(e: Env, acts: seq<Action>, s: State)
    requires Bypasses(e) && Reaches(e, acts, s)
    ensures StartInOrderInv(e, s) && StartedInOrder(s)
    decreases |acts|
  {
    if acts == [] {
      InitAtStart(s);
      InitTokens(s);
      InitOrder(e, s);
    } else {
      var s0 := Predecessor(e, acts, s);
      StartsInOrder(e, acts[..|acts| - 1], s0);
      StepKeepsStart(e, s0, acts[|acts| - 1]);
    }
  }
}
