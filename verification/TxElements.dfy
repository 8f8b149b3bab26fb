/**
 When the two elements of the transmit pipeline are kept whatever happens, even after a start-up in the
 wrong order: as long as the slot numbers of the jobs alternate between at most two values.  The proof counts
 the numbers in flight by parity instead of relying on the order of the jobs.
 */
module TxElements {
  import opened TxPipeline

  /** The number of the i-th job, starting with i = 0. */
  function SlotAt(a: nat, b: nat, i: nat): nat { if i % 2 == 0 then a else b }

  /** Jobs alternate between the numbers a and b, and so does the prediction. */
  ghost predicate Alternates(e: Env, a: nat, b: nat) {
    && e.nextSlot(a) == b && e.nextSlot(b) == a
    && forall n: nat :: JobAlternates(e, a, b, n)
  }

  ghost predicate JobAlternates(e: Env, a: nat, b: nat, n: nat) {
    Sends(e, n) ==> e.job(n).slot == SlotAt(a, b, |Schedule(e, n)|)
  }

  function Other(a: nat, b: nat, x: nat): nat { if x == a then b else a }

  /** 1 for number a, -1 for number b. */
  function Sign(a: nat, x: nat): int { if x == a then 1 else -1 }

  /** Token k counted by its number, if it is in flight. */
  function Counted(s: State, a: nat, k: Token): int
    requires |s.data| == 2
  {
    if Flight(s, k) == 1 then Sign(a, s.data[k].slot) else 0
  }

  /** Jobs released so far, counted by their numbers: they alternate, starting with the first one found. */
  function ReleasedCount(s: State, a: nat): int {
    if |Released(s)| % 2 == 0 || s.first == None then 0 else Sign(a, s.first.value.slot)
  }

  ghost predicate InFlight(s: State, a: nat, b: nat, k: Token)
    requires |s.data| == 2
  {
    Flight(s, k) <= 1 && (Flight(s, k) == 1 ==> s.data[k].slot == a || s.data[k].slot == b)
  }

  /** What is in flight is what was issued less what was released, counted by numbers. */
  ghost predicate CountInv(s: State, a: nat, b: nat) {
    && |s.data| == 2 && InFlight(s, a, b, 0) && InFlight(s, a, b, 1)
    && |s.issued| == |Released(s)| + Flight(s, 0) + Flight(s, 1)
    && (a != b ==> Counted(s, a, 0) + Counted(s, a, 1) == |s.issued| % 2 - ReleasedCount(s, a))
  }

  ghost predicate WaitInv(s: State, a: nat, b: nat)
    requires |s.data| == 2
  {
    && (s.reorder.PullFirst? ==> Released(s) == [] && s.reserve == None && s.first == None)
    && (!s.reorder.PullFirst? ==>
          && s.first.Some? && (s.first.value.slot == a || s.first.value.slot == b)
          && s.next == SlotAt(s.first.value.slot, Other(a, b, s.first.value.slot), |Released(s)|))
    && match s.reorder
       case PullFirst => true
       case PullAfterMistake => false
       case PullSecond => s.reserve.Some? && s.data[s.reserve.value].slot != s.next
       case Send(k) =>
         && s.data[k].slot == s.next
         && (s.reserve.Some? && s.reserve.value != k ==> s.data[s.reserve.value].slot != s.next)
       case _ => s.reserve.Some? ==> s.data[s.reserve.value].slot == s.next
  }

  ghost predicate KeptInv(e: Env, a: nat, b: nat, s: State) {
    TokenInv(s) && RxInv(e, s) && CountInv(s, a, b) && WaitInv(s, a, b)
  }

  // ---- Steps of the other threads ----

  lemma CountFrame(s: State, s': State, a: nat, b: nat)
    requires CountInv(s, a, b) && WaitInv(s, a, b) && SameReorder(s, s') && s'.issued == s.issued && |s'.data| == 2
    requires forall k: Token :: Flight(s', k) == Flight(s, k) && (Flight(s, k) >= 1 ==> s'.data[k] == s.data[k])
    ensures CountInv(s', a, b) && WaitInv(s', a, b)
  {
    assert Released(s') == Released(s);
    assert Flight(s', 0) == Flight(s, 0) && Flight(s', 1) == Flight(s, 1);
    if s.reserve.Some? { assert Flight(s, s.reserve.value) >= 1; }
    if s.reorder.Send? { assert Flight(s, s.reorder.hand) >= 1; }
  }

  lemma CountAdd(s: State, s': State, a: nat, b: nat, k: Token, o: Token)
    requires CountInv(s, a, b) && WaitInv(s, a, b) && SameReorder(s, s') && |s'.data| == 2 && o != k
    requires Flight(s, k) == 0 && Flight(s', k) == 1 && Flight(s', o) == Flight(s, o) && s'.data[o] == s.data[o]
    requires |s'.issued| == |s.issued| + 1 && s'.data[k].slot == SlotAt(a, b, |s.issued|)
    ensures CountInv(s', a, b) && WaitInv(s', a, b)
  {
    assert Released(s') == Released(s);
    CountAddCounts(s, s', a, b, k, o);
    if s.reserve.Some? { assert s.reserve.value == o; }
    if s.reorder.Send? { assert s.reorder.hand == o; }
    assert WaitInv(s', a, b);
  }

  lemma CountAddCounts(s: State, s': State, a: nat, b: nat, k: Token, o: Token)
    requires CountInv(s, a, b) && |s'.data| == 2 && o != k && Released(s') == Released(s) && s'.first == s.first
    requires Flight(s, k) == 0 && Flight(s', k) == 1 && Flight(s', o) == Flight(s, o) && s'.data[o] == s.data[o]
    requires |s'.issued| == |s.issued| + 1 && s'.data[k].slot == SlotAt(a, b, |s.issued|)
    ensures CountInv(s', a, b)
  {
    assert Counted(s', a, o) == Counted(s, a, o) && Counted(s, a, k) == 0;
    assert Counted(s, a, 0) + Counted(s, a, 1) == Counted(s, a, k) + Counted(s, a, o);
    assert Counted(s', a, 0) + Counted(s', a, 1) == Counted(s', a, k) + Counted(s', a, o);
    assert InFlight(s', a, b, k) && InFlight(s', a, b, o);
    assert ReleasedCount(s', a) == ReleasedCount(s, a);
  }

  lemma RxKeepsCount(e: Env, a: nat, b: nat, s: State)
    requires Alternates(e, a, b) && KeptInv(e, a, b, s) && Enabled(s, RxStep(0))
    ensures CountInv(ExecRx(e, s, 0), a, b) && WaitInv(ExecRx(e, s, 0), a, b)
  {
    match s.rx[0].stage
    case MacFill(k) => FillKeepsCount(e, a, b, s, k);
    case Issue(k) => IssueKeepsCount(e, a, b, s, k);
    case FreeIssue(k) => IssueKeepsCount(e, a, b, s, k);
    case _ => OthersKeepCount(e, a, b, s);
  }

  lemma FillKeepsCount(e: Env, a: nat, b: nat, s: State, k: Token)
    requires TokenInv(s) && CountInv(s, a, b) && WaitInv(s, a, b)
    requires Enabled(s, RxStep(0)) && s.rx[0].stage == MacFill(k)
    ensures CountInv(ExecRx(e, s, 0), a, b) && WaitInv(ExecRx(e, s, 0), a, b)
  {
    assert Waiting(s, k) >= 1 && Waiting(s, k) + Flight(s, k) == 1;
    CountFrame(s, ExecRx(e, s, 0), a, b);
  }

  lemma OthersKeepCount(e: Env, a: nat, b: nat, s: State)
    requires CountInv(s, a, b) && WaitInv(s, a, b) && Enabled(s, RxStep(0))
    requires !s.rx[0].stage.MacFill? && !s.rx[0].stage.Issue? && !s.rx[0].stage.FreeIssue?
    ensures CountInv(ExecRx(e, s, 0), a, b) && WaitInv(ExecRx(e, s, 0), a, b)
  {
    CountFrame(s, ExecRx(e, s, 0), a, b);
  }

  lemma IssueKeepsCount(e: Env, a: nat, b: nat, s: State, k: Token)
    requires Alternates(e, a, b) && KeptInv(e, a, b, s) && Enabled(s, RxStep(0))
    requires s.rx[0].stage == Issue(k) || s.rx[0].stage == FreeIssue(k)
    ensures CountInv(ExecRx(e, s, 0), a, b) && WaitInv(ExecRx(e, s, 0), a, b)
  {
    var o: Token := 1 - k;
    IssueFlights(e, s, k, o);
    assert JobAlternates(e, a, b, s.rx[0].index);
    CountAdd(s, ExecRx(e, s, 0), a, b, k, o);
  }

  lemma PoolKeepsCount(e: Env, a: nat, b: nat, s: State, p: nat)
    requires CountInv(s, a, b) && WaitInv(s, a, b) && Enabled(s, PoolDone(p))
    ensures CountInv(Exec(e, s, PoolDone(p)), a, b) && WaitInv(Exec(e, s, PoolDone(p)), a, b)
  {
    var s' := Exec(e, s, PoolDone(p));
    forall k: Token ensures Flight(s', k) == Flight(s, k) {
      OccRemove(s.pool, p, k);
      OccPush(s.out, s.pool[p], k);
    }
    CountFrame(s, s', a, b);
  }

  // ---- Steps of the reorder thread ----

  lemma SameCount(s: State, s': State, a: nat, b: nat)
    requires CountInv(s, a, b) && Released(s') == Released(s) && s'.issued == s.issued && s'.data == s.data
    requires s.first != None ==> s'.first == s.first
    requires s.first == None ==> Released(s) == []
    requires forall k: Token :: Flight(s', k) == Flight(s, k)
    ensures CountInv(s', a, b)
  {
    assert Flight(s', 0) == Flight(s, 0) && Flight(s', 1) == Flight(s, 1);
  }

  lemma FirstPullKeepsCount(e: Env, a: nat, b: nat, s: State)
    requires KeptInv(e, a, b, s) && Enabled(s, ReorderStep) && s.reorder.PullFirst?
    ensures CountInv(ExecReorder(e, s), a, b) && WaitInv(ExecReorder(e, s), a, b)
  {
    var s' := ExecReorder(e, s);
    SameFlight(s, s');
    FrontInFlight(s);
    assert Released(s') == Released(s);
    SameCount(s, s', a, b);
  }

  lemma FrontInFlight(s: State)
    requires TokenInv(s) && s.out != []
    ensures Flight(s, s.out[0]) == 1
  {
    assert Occ(s.out, s.out[0]) >= 1 && Waiting(s, s.out[0]) + Flight(s, s.out[0]) == 1;
  }

  lemma PullKeepsCount(e: Env, a: nat, b: nat, s: State)
    requires KeptInv(e, a, b, s) && Enabled(s, ReorderStep) && s.reorder.Top? && s.reserve == None
    ensures CountInv(ExecReorder(e, s), a, b) && WaitInv(ExecReorder(e, s), a, b)
  {
    var s' := ExecReorder(e, s);
    SameFlight(s, s');
    assert Released(s') == Released(s);
    SameCount(s, s', a, b);
  }

  /** With the reserve taken and not fitting, the element pulled next fits: both numbers in flight cannot be the wrong
      one. */
  lemma SecondFits(e: Env, a: nat, b: nat, s: State)
    requires KeptInv(e, a, b, s) && Enabled(s, ReorderStep) && s.reorder.PullSecond?
    ensures s.out[0] != s.reserve.value && s.data[s.out[0]].slot == s.next
  {
    var r, o := s.reserve.value, s.out[0];
    assert Waiting(s, o) + Flight(s, o) == 1 && Waiting(s, r) + Flight(s, r) == 1;
    assert Occ(s.out, o) >= 1;
    assert Flight(s, 0) == 1 && Flight(s, 1) == 1;
    assert a != b;
    assert Counted(s, a, 0) + Counted(s, a, 1) == Counted(s, a, o) + Counted(s, a, r);
  }

  lemma PullSecondKeepsCount(e: Env, a: nat, b: nat, s: State)
    requires KeptInv(e, a, b, s) && Enabled(s, ReorderStep) && s.reorder.PullSecond?
    ensures CountInv(ExecReorder(e, s), a, b) && WaitInv(ExecReorder(e, s), a, b)
  {
    SecondFits(e, a, b, s);
    SameFlight(s, ExecReorder(e, s));
    SameCount(s, ExecReorder(e, s), a, b);
  }

  lemma TakeReserveKeepsCount(e: Env, a: nat, b: nat, s: State)
    requires KeptInv(e, a, b, s) && s.reorder.Top? && s.reserve.Some?
    ensures CountInv(ExecReorder(e, s), a, b) && WaitInv(ExecReorder(e, s), a, b)
  {
    SameCount(s, ExecReorder(e, s), a, b);
  }

  lemma EmitKeepsCount(e: Env, a: nat, b: nat, s: State)
    requires KeptInv(e, a, b, s) && s.reorder.Emit?
    ensures CountInv(ExecReorder(e, s), a, b) && WaitInv(ExecReorder(e, s), a, b)
  {
    assert Released(ExecReorder(e, s)) == Released(s);
    SameCount(s, ExecReorder(e, s), a, b);
  }

  lemma SendKeepsCount(e: Env, a: nat, b: nat, s: State, k: Token, o: Token)
    requires Alternates(e, a, b) && KeptInv(e, a, b, s) && s.reorder == Send(k) && o != k
    ensures CountInv(ExecReorder(e, s), a, b) && WaitInv(ExecReorder(e, s), a, b)
  {
    var s' := ExecReorder(e, s);
    assert Waiting(s, k) + Flight(s, k) == 1 && Waiting(s, o) + Flight(s, o) == 1;
    assert Flight(s, k) == 1 && Flight(s', k) == 0 && Flight(s', o) == Flight(s, o);
    assert |Released(s')| == |Released(s)| + 1;
    CountRemove(s, s', a, b, k, o);
    assert s'.next == Other(a, b, s.next);
    if s'.reserve.Some? { assert s'.reserve.value == o && Flight(s, o) == 1; }
    assert WaitInv(s', a, b);
  }

  lemma CountRemove(s: State, s': State, a: nat, b: nat, k: Token, o: Token)
    requires CountInv(s, a, b) && s'.data == s.data && o != k && s'.issued == s.issued
    requires |Released(s')| == |Released(s)| + 1 && s'.first == s.first && s.first.Some?
    requires s.first.value.slot == a || s.first.value.slot == b
    requires Flight(s, k) == 1 && Flight(s', k) == 0 && Flight(s', o) == Flight(s, o)
    requires s.data[k].slot == SlotAt(s.first.value.slot, Other(a, b, s.first.value.slot), |Released(s)|)
    ensures CountInv(s', a, b)
  {
    assert Counted(s', a, o) == Counted(s, a, o) && Counted(s', a, k) == 0;
    assert Counted(s, a, 0) + Counted(s, a, 1) == Counted(s, a, k) + Counted(s, a, o);
    assert Counted(s', a, 0) + Counted(s', a, 1) == Counted(s', a, k) + Counted(s', a, o);
    assert InFlight(s', a, b, k) && InFlight(s', a, b, o);
  }

  lemma ReorderKeepsCount(e: Env, a: nat, b: nat, s: State)
    requires Alternates(e, a, b) && KeptInv(e, a, b, s) && Enabled(s, ReorderStep)
    ensures CountInv(ExecReorder(e, s), a, b) && WaitInv(ExecReorder(e, s), a, b)
  {
    match s.reorder
    case PullFirst => FirstPullKeepsCount(e, a, b, s);
    case Top => if s.reserve.Some? { TakeReserveKeepsCount(e, a, b, s); } else { PullKeepsCount(e, a, b, s); }
    case PullSecond => PullSecondKeepsCount(e, a, b, s);
    case Send(k) => SendKeepsCount(e, a, b, s, k, 1 - k);
    case Emit(j) => EmitKeepsCount(e, a, b, s);
  }

  // ---- Whole runs ----

  /** What a step keeps, apart from the invariants of the receive side. */
  ghost predicate CountKept(s: State, act: Action, s': State, a: nat, b: nat)
    requires |s.data| == 2
  {
    CountInv(s', a, b) && WaitInv(s', a, b) && !DropsReserve(s, act) && s'.errors == s.errors
  }

  lemma DispatchCounts(e: Env, a: nat, b: nat, s: State)
    requires KeptInv(e, a, b, s) && Enabled(s, Dispatch)
    ensures CountKept(s, Dispatch, Exec(e, s, Dispatch), a, b)
  {
    CountFrame(s, Exec(e, s, Dispatch), a, b);
  }

  lemma PoolCounts(e: Env, a: nat, b: nat, s: State, p: nat)
    requires KeptInv(e, a, b, s) && Enabled(s, PoolDone(p))
    ensures CountKept(s, PoolDone(p), Exec(e, s, PoolDone(p)), a, b)
  {
    PoolKeepsCount(e, a, b, s, p);
  }

  lemma RxCounts(e: Env, a: nat, b: nat, s: State)
    requires Alternates(e, a, b) && KeptInv(e, a, b, s) && Enabled(s, RxStep(0))
    ensures CountKept(s, RxStep(0), ExecRx(e, s, 0), a, b)
  {
    RxKeepsCount(e, a, b, s);
    RxKeepsErrors(e, s);
  }

  lemma RxKeepsErrors(e: Env, s: State)
    requires Enabled(s, RxStep(0))
    ensures ExecRx(e, s, 0).errors == s.errors
  {
  }

  lemma ReorderCounts(e: Env, a: nat, b: nat, s: State)
    requires Alternates(e, a, b) && KeptInv(e, a, b, s) && Enabled(s, ReorderStep)
    ensures CountKept(s, ReorderStep, Exec(e, s, ReorderStep), a, b)
  {
    ReorderKeepsCount(e, a, b, s);
    ReorderKeepsErrors(e, a, b, s);
  }

  lemma ReorderKeepsErrors(e: Env, a: nat, b: nat, s: State)
    requires KeptInv(e, a, b, s) && Enabled(s, ReorderStep)
    ensures ExecReorder(e, s).errors == s.errors && !DropsReserve(s, ReorderStep)
  {
    if s.reorder.PullSecond? { SecondFits(e, a, b, s); }
  }

  lemma StepKeepsCount(e: Env, a: nat, b: nat, s: State, act: Action)
    requires Alternates(e, a, b) && KeptInv(e, a, b, s) && Enabled(s, act)
    ensures CountKept(s, act, Exec(e, s, act), a, b)
  {
    match act
    case Dispatch => DispatchCounts(e, a, b, s);
    case PoolDone(p) => PoolCounts(e, a, b, s, p);
    case RxStep(i) => RxCounts(e, a, b, s);
    case ReorderStep => ReorderCounts(e, a, b, s);
  }

  lemma StepKeepsElements(e: Env, a: nat, b: nat, s: State, act: Action)
    requires Alternates(e, a, b) && KeptInv(e, a, b, s) && Enabled(s, act)
    ensures KeptInv(e, a, b, Exec(e, s, act)) && Exec(e, s, act).errors == s.errors
  {
    RxSerialised(e, s, act);
    StepKeepsCount(e, a, b, s, act);
    TokensConserved(e, s, act);
  }

  lemma StartKeepsElements(e: Env, a: nat, b: nat, s: State)
    requires AtStart(s)
    ensures KeptInv(e, a, b, s)
  {
    InitTokens(s);
    InitOrder(e, s);
    EmptyCount(s, a, b);
  }

  lemma EmptyCount(s: State, a: nat, b: nat)
    requires AtStart(s)
    ensures CountInv(s, a, b) && WaitInv(s, a, b)
  {
    assert Released(s) == [] && Flight(s, 0) == 0 && Flight(s, 1) == 0;
  }

  /** Main result: whatever the start-up, every run keeps both elements, and no error branch is taken. */
  lemma {:induction false} RunKeepsElements(e: Env, a: nat, b: nat, acts: seq<Action>, s: State)
    requires Alternates(e, a, b) && Reaches(e, acts, s)
    ensures KeptInv(e, a, b, s) && s.errors == 0
    decreases |acts|
  {
    if acts == [] {
      InitAtStart(s);
      StartKeepsElements(e, a, b, s);
    } else {
      var s0 := Predecessor(e, acts, s);
      RunKeepsElements(e, a, b, acts[..|acts| - 1], s0);
      StepKeepsElements(e, a, b, s0, acts[|acts| - 1]);
    }
  }
}
