/**
 The transmit pipeline on a thread pool with a given number of threads.  The pool serves its jobs, `rx_func` calls
 and TX jobs alike, in the order in which they were pushed; a job that waits inside a pool thread keeps it.  So the
 jobs that run are the oldest unfinished ones, as many as there are threads.
 */
module TxThreads {
  import opened TxPipeline

  /** Threads taken by `rx_func` calls that have begun. */
  function Occupied(s: State): nat {
    if |s.rx| > 0 && !s.rx[0].stage.Start? then 1 else 0
  }

  /** An `rx_func` call begins only when all TX jobs pushed before it have a thread and one is left; a TX job finishes
      only if it has a thread. */
  predicate Scheduled(threads: nat, s: State, a: Action) {
    match a
    case PoolDone(p) => p + Occupied(s) < threads
    case RxStep(i) => i < |s.rx| && s.rx[i].stage.Start? ==> |s.pool| < threads
    case _ => true
  }

  predicate Possible(threads: nat, s: State, a: Action) { Enabled(s, a) && Scheduled(threads, s, a) }

  /** The actions lead to s on a pool with that many threads. */
  ghost predicate Runs(e: Env, threads: nat, acts: seq<Action>, s: State)
    decreases |acts|
  {
    if acts == [] then s == Init()
    else
      var init, a := acts[..|acts| - 1], acts[|acts| - 1];
      exists s0 :: Runs(e, threads, init, s0) && Possible(threads, s0, a) && s == Exec(e, s0, a)
  }

  ghost predicate Reachable(e: Env, threads: nat, s: State) {
    exists acts :: Runs(e, threads, acts, s)
  }

  lemma Before(e: Env, threads: nat, acts: seq<Action>, s: State) returns (s0: State)
    requires acts != [] && Runs(e, threads, acts, s)
    ensures Runs(e, threads, acts[..|acts| - 1], s0)
    ensures Possible(threads, s0, acts[|acts| - 1]) && s == Exec(e, s0, acts[|acts| - 1])
  {
    var init, a := acts[..|acts| - 1], acts[|acts| - 1];
    s0 :| Runs(e, threads, init, s0) && Possible(threads, s0, a) && s == Exec(e, s0, a);
  }

  /** Whatever holds in all runs holds in those of a limited pool. */
  lemma {:induction false} RunsAreRuns(e: Env, threads: nat, acts: seq<Action>, s: State)
    requires Runs(e, threads, acts, s)
    ensures Reaches(e, acts, s)
    decreases |acts|
  {
    if acts != [] {
      var s0 := Before(e, threads, acts, s);
      RunsAreRuns(e, threads, acts[..|acts| - 1], s0);
      assert Step(e, s0, acts[|acts| - 1], s);
    }
  }

  lemma Then(e: Env, threads: nat, acts: seq<Action>, s: State, a: Action)
    requires Runs(e, threads, acts, s) && Possible(threads, s, a)
    ensures Runs(e, threads, acts + [a], Exec(e, s, a))
  {
    var all := acts + [a];
    assert all[|all| - 1] == a && all[..|all| - 1] == acts;
  }

  /** Take one possible step and name the result. */
  lemma Move(e: Env, threads: nat, s: State, a: Action, s': State)
    requires Reachable(e, threads, s) && Possible(threads, s, a) && Exec(e, s, a) == s'
    ensures Reachable(e, threads, s')
  {
    var acts :| Runs(e, threads, acts, s);
    Then(e, threads, acts, s, a);
  }

  // The same, one kind of step each.

  lemma ReorderMove(e: Env, threads: nat, s: State, s': State)
    requires Reachable(e, threads, s) && |s.data| == 2 && ReorderEnabled(s) && ExecReorder(e, s) == s'
    ensures Reachable(e, threads, s')
  {
    Move(e, threads, s, ReorderStep, s');
  }

  lemma RxMove(e: Env, threads: nat, s: State, s': State)
    requires Reachable(e, threads, s) && |s.data| == 2 && |s.rx| == 1 && RxEnabled(s, s.rx[0].stage)
    requires s.rx[0].stage.Start? ==> |s.pool| < threads
    requires ExecRx(e, s, 0) == s'
    ensures Reachable(e, threads, s')
  {
    Move(e, threads, s, RxStep(0), s');
  }

  lemma DispatchMove(e: Env, threads: nat, s: State, s': State)
    requires Reachable(e, threads, s) && |s.data| == 2 && s.resp == 1 && s.rx == []
    requires s' == s.(resp := 0, handed := s.handed + 1, rx := [RxJob(s.handed, Start)])
    ensures Reachable(e, threads, s')
  {
    Move(e, threads, s, Dispatch, s');
  }

  lemma AtInit(e: Env, threads: nat)
    ensures Reachable(e, threads, Init())
  {
    assert Runs(e, threads, [], Init());
  }
}
