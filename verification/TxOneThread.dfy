/**
 The transmit pipeline on a pool with a single thread: TX jobs finish in the order in which they were issued, so
 that the reorder thread always finds the job it expects, whatever the slot pattern.
 */
module TxOneThread {
  import opened TxPipeline
  import opened TxThreads

  /** Each job has the slot number predicted from the job before it, be it a different one or not. */
  ghost predicate Chains(e: Env) { forall n: nat :: ChainsAt(e, n) }

  ghost predicate ChainsAt(e: Env, n: nat) {
    Sends(e, n) && Schedule(e, n) != [] ==>
      e.job(n).slot == e.nextSlot(Schedule(e, n)[|Schedule(e, n)| - 1].slot)
  }

  ghost predicate Linked(e: Env, jobs: seq<Job>) {
    forall i :: 0 <= i < |jobs| - 1 ==> jobs[i + 1].slot == e.nextSlot(jobs[i].slot)
  }

  lemma {:induction false} ScheduleChains(e: Env, n: nat)
    requires Chains(e)
    ensures Linked(e, Schedule(e, n))
  {
    if n > 0 {
      ScheduleChains(e, n - 1);
      assert ChainsAt(e, n - 1);
    }
  }

  // ---- The elements in flight stand in line ----

  function Held(s: State): seq<Token> {
    match s.reorder
    case Top => if s.reserve.Some? then [s.reserve.value] else []
    case Send(k) => [k]
    case _ => []
  }

  function Line(s: State): seq<Token> { Held(s) + s.out + s.pool }

  /** The line holds the jobs issued and not yet released, in their order. */
  ghost predicate InLine(s: State) {
    && |s.data| == 2 && Released(s) <= s.issued && |s.issued| == |Released(s)| + |Line(s)|
    && forall i :: 0 <= i < |Line(s)| ==> s.data[Line(s)[i]] == s.issued[|Released(s)| + i]
  }

  /** The reorder thread expects the job after the last one released, and needs its reserve only to begin. */
  ghost predicate Expects(e: Env, s: State) {
    && s.errors == 0 && !s.reorder.PullSecond? && !s.reorder.PullAfterMistake?
    && (s.reserve.Some? ==> s.reorder.Top? || s.reorder == Send(s.reserve.value))
    && (s.reorder.PullFirst? ==> Released(s) == [] && s.first == None)
    && (!s.reorder.PullFirst? ==> s.issued != [] && s.first == Some(s.issued[0]) && s.next == Expected(e, s))
  }

  function Expected(e: Env, s: State): nat
    requires s.issued != []
  {
    var r := Released(s);
    if r == [] then s.issued[0].slot else e.nextSlot(r[|r| - 1].slot)
  }

  /** While `rx_func` has the thread, and until it issues its own job, no other job is in the pool. */
  ghost predicate Alone(s: State) {
    |s.rx| == 1 && !s.rx[0].stage.Start? && !s.rx[0].stage.Finish? ==> s.pool == []
  }

  ghost predicate LineInv(e: Env, s: State) {
    TokenInv(s) && RxInv(e, s) && InLine(s) && Expects(e, s) && Alone(s)
  }

  lemma {:induction false} OccOfPart(a: seq<Token>, b: seq<Token>, k: Token)
    ensures Occ(a + b, k) == Occ(a, k) + Occ(b, k)
  {
    if a == [] {
      assert a + b == b;
    } else {
      assert (a + b)[1..] == a[1..] + b;
      OccOfPart(a[1..], b, k);
    }
  }

  lemma {:induction false} OccAt(q: seq<Token>, i: nat)
    requires i < |q|
    ensures Occ(q, q[i]) >= 1
  {
    if i > 0 { OccAt(q[1..], i - 1); }
  }

  /** Whoever stands in line is in flight. */
  lemma LineInFlight(s: State, i: nat)
    requires i < |Line(s)|
    ensures Flight(s, Line(s)[i]) >= 1
  {
    var k := Line(s)[i];
    OccAt(Line(s), i);
    OccOfPart(Held(s) + s.out, s.pool, k);
    OccOfPart(Held(s), s.out, k);
    assert Occ(Held(s), k) >= 1 ==> s.reserve == Some(k) || s.reorder == Send(k);
  }

  // ---- Steps that do not concern the reorder thread ----

  lemma SameLine(e: Env, s: State, s': State)
    requires InLine(s) && Expects(e, s) && SameReorder(s, s') && s'.issued == s.issued && |s'.data| == 2
    requires Line(s') == Line(s)
    requires forall k: Token :: Flight(s, k) >= 1 ==> s'.data[k] == s.data[k]
    ensures InLine(s') && Expects(e, s')
  {
    forall i | 0 <= i < |Line(s)| ensures s'.data[Line(s)[i]] == s.data[Line(s)[i]] { LineInFlight(s, i); }
  }

  lemma LongerLine(e: Env, s: State, s': State, k: Token)
    requires InLine(s) && Expects(e, s) && SameReorder(s, s') && |s'.data| == 2 && Flight(s, k) == 0
    requires Line(s') == Line(s) + [k] && s'.issued == s.issued + [s'.data[k]]
    requires forall o: Token :: o != k ==> s'.data[o] == s.data[o]
    ensures InLine(s') && Expects(e, s')
  {
    assert Released(s') == Released(s);
    forall i | 0 <= i < |Line(s)| ensures s'.data[Line(s)[i]] == s.data[Line(s)[i]] { LineInFlight(s, i); }
  }

  lemma RxKeepsLine(e: Env, s: State)
    requires LineInv(e, s) && Possible(1, s, RxStep(0))
    ensures InLine(ExecRx(e, s, 0)) && Expects(e, ExecRx(e, s, 0)) && Alone(ExecRx(e, s, 0))
  {
    match s.rx[0].stage
    case MacFill(k) => FillKeepsLine(e, s, k);
    case Issue(k) => IssueKeepsLine(e, s, k);
    case FreeIssue(k) => IssueKeepsLine(e, s, k);
    case _ => OthersKeepLine(e, s);
  }

  lemma FillKeepsLine(e: Env, s: State, k: Token)
    requires LineInv(e, s) && Enabled(s, RxStep(0)) && s.rx[0].stage == MacFill(k)
    ensures InLine(ExecRx(e, s, 0)) && Expects(e, ExecRx(e, s, 0)) && Alone(ExecRx(e, s, 0))
  {
    assert Waiting(s, k) >= 1 && Waiting(s, k) + Flight(s, k) == 1;
    SameLine(e, s, ExecRx(e, s, 0));
  }

  lemma OthersKeepLine(e: Env, s: State)
    requires LineInv(e, s) && Possible(1, s, RxStep(0))
    requires !s.rx[0].stage.MacFill? && !s.rx[0].stage.Issue? && !s.rx[0].stage.FreeIssue?
    ensures InLine(ExecRx(e, s, 0)) && Expects(e, ExecRx(e, s, 0)) && Alone(ExecRx(e, s, 0))
  {
    SameLine(e, s, ExecRx(e, s, 0));
  }

  lemma IssueKeepsLine(e: Env, s: State, k: Token)
    requires LineInv(e, s) && Enabled(s, RxStep(0)) && (s.rx[0].stage == Issue(k) || s.rx[0].stage == FreeIssue(k))
    ensures InLine(ExecRx(e, s, 0)) && Expects(e, ExecRx(e, s, 0)) && Alone(ExecRx(e, s, 0))
  {
    var s' := ExecRx(e, s, 0);
    assert Waiting(s, k) >= 1 && Waiting(s, k) + Flight(s, k) == 1;
    assert Line(s') == Line(s) + [k];
    LongerLine(e, s, s', k);
  }

  lemma PoolKeepsLine(e: Env, s: State, p: nat)
    requires LineInv(e, s) && Possible(1, s, PoolDone(p))
    ensures var s' := Exec(e, s, PoolDone(p)); InLine(s') && Expects(e, s') && Alone(s')
  {
    var s' := Exec(e, s, PoolDone(p));
    assert p == 0 && s'.pool == s.pool[1..];
    MoveUp(Held(s), s.out, s.pool);
    SameLine(e, s, s');
  }

  /** Moving an element from the head of one queue to the end of the one before it does not change the line. */
  lemma MoveUp(a: seq<Token>, b: seq<Token>, q: seq<Token>)
    requires q != []
    ensures a + (b + [q[0]]) + q[1..] == a + b + q
  {
  }

  // ---- Steps of the reorder thread ----

  /** The head of the line has the expected slot number. */
  lemma HeadExpected(e: Env, s: State)
    requires Chains(e) && LineInv(e, s) && Line(s) != [] && !s.reorder.PullFirst?
    ensures s.data[Line(s)[0]].slot == s.next
  {
    var d := |Released(s)|;
    ScheduleChains(e, Passed(s));
    if d > 0 { assert s.issued[d - 1] == Released(s)[d - 1]; }
  }

  /** Taking the head of the queue in hand does not change the line. */
  lemma TakeHead(q: seq<Token>, r: seq<Token>)
    requires q != []
    ensures [q[0]] + q[1..] + r == [] + q + r && ([] + q + r)[0] == q[0]
  {
  }

  lemma SameHeadInLine(s: State, s': State)
    requires InLine(s) && s'.data == s.data && s'.issued == s.issued
    requires Released(s') == Released(s) && Line(s') == Line(s)
    ensures InLine(s')
  {
  }

  lemma FirstPullKeepsLine(e: Env, s: State)
    requires LineInv(e, s) && Enabled(s, ReorderStep) && s.reorder.PullFirst?
    ensures var s' := ExecReorder(e, s); InLine(s') && Expects(e, s') && Alone(s')
  {
    var s' := ExecReorder(e, s);
    TakeHead(s.out, s.pool);
    SameHeadInLine(s, s');
  }

  lemma PullKeepsLine(e: Env, s: State)
    requires Chains(e) && LineInv(e, s) && Enabled(s, ReorderStep) && s.reorder.Top? && s.reserve == None
    ensures var s' := ExecReorder(e, s); InLine(s') && Expects(e, s') && Alone(s')
  {
    var s' := ExecReorder(e, s);
    TakeHead(s.out, s.pool);
    HeadExpected(e, s);
    SameHeadInLine(s, s');
  }

  lemma TakeReserveKeepsLine(e: Env, s: State)
    requires Chains(e) && LineInv(e, s) && s.reorder.Top? && s.reserve.Some?
    ensures var s' := ExecReorder(e, s); InLine(s') && Expects(e, s') && Alone(s')
  {
    HeadExpected(e, s);
    SameHeadInLine(s, ExecReorder(e, s));
  }

  lemma SendKeepsLine(e: Env, s: State, k: Token)
    requires Chains(e) && LineInv(e, s) && s.reorder == Send(k)
    ensures var s' := ExecReorder(e, s); InLine(s') && Expects(e, s') && Alone(s')
  {
    var s' := ExecReorder(e, s);
    assert Line(s)[0] == k && Line(s') == Line(s)[1..];
    assert Released(s') == Released(s) + [s.issued[|Released(s)|]];
  }

  lemma EmitKeepsLine(e: Env, s: State)
    requires LineInv(e, s) && s.reorder.Emit?
    ensures var s' := ExecReorder(e, s); InLine(s') && Expects(e, s') && Alone(s')
  {
    var s' := ExecReorder(e, s);
    assert Line(s') == Line(s) && Released(s') == Released(s);
  }

  lemma NothingDropped(e: Env, s: State, a: Action)
    requires Chains(e) && LineInv(e, s) && Enabled(s, a)
    ensures !DropsReserve(s, a)
  {
    if s.reorder.Top? && s.reserve.Some? { HeadExpected(e, s); }
  }

  lemma StepKeepsLine(e: Env, s: State, a: Action)
    requires Chains(e) && LineInv(e, s) && Possible(1, s, a)
    ensures var s' := Exec(e, s, a); InLine(s') && Expects(e, s') && Alone(s')
  {
    match a
    case Dispatch => SameLine(e, s, Exec(e, s, a));
    case PoolDone(p) => PoolKeepsLine(e, s, p);
    case RxStep(i) => RxKeepsLine(e, s);
    case ReorderStep =>
      match s.reorder
      case PullFirst => FirstPullKeepsLine(e, s);
      case Top => if s.reserve.Some? { TakeReserveKeepsLine(e, s); } else { PullKeepsLine(e, s); }
      case Send(k) => SendKeepsLine(e, s, k);
      case Emit(j) => EmitKeepsLine(e, s);
  }

  // ---- Whole runs ----

  lemma StartsInLine(e: Env, s: State)
    requires AtStart(s)
    ensures LineInv(e, s)
  {
    InitTokens(s);
    InitOrder(e, s);
    assert Released(s) == [] && Line(s) == [];
  }

  lemma StepKeepsInv(e: Env, s: State, a: Action)
    requires Chains(e) && LineInv(e, s) && Possible(1, s, a)
    ensures LineInv(e, Exec(e, s, a))
  {
    RxSerialised(e, s, a);
    NothingDropped(e, s, a);
    TokensConserved(e, s, a);
    StepKeepsLine(e, s, a);
  }

  lemma {:induction false} RunKeepsLine(e: Env, acts: seq<Action>, s: State)
    requires Chains(e) && Runs(e, 1, acts, s)
    ensures LineInv(e, s)
    decreases |acts|
  {
    if acts == [] {
      InitAtStart(s);
      StartsInLine(e, s);
    } else {
      var s0 := Before(e, 1, acts, s);
      RunKeepsLine(e, acts[..|acts| - 1], s0);
      StepKeepsInv(e, s0, acts[|acts| - 1]);
    }
  }

  /** Main result: on one thread every run starts in order, sends in order, reports no error and keeps both elements. */
  lemma InOrder(e: Env, acts: seq<Action>, s: State)
    requires Chains(e) && Runs(e, 1, acts, s)
    ensures StartedInOrder(s) && s.sent <= s.issued && s.errors == 0
    ensures forall k: Token :: Waiting(s, k) + Flight(s, k) == 1
  {
    RunKeepsLine(e, acts, s);
    assert s.sent <= Released(s);
  }
}
