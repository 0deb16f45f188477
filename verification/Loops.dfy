/** Which way the worker goes in its two loops (src/client.rs:373-454): after shutdown, and after a
    failure. */
module Loops {
  import opened Accounting
  import opened Control
  import opened Options
  import opened Protocol
  import opened Runs

  // ---- The heads of the two loops after shutdown ----------------------------------------------

  /** Whether no time is left, or none would be if the deadline were set now. */
  predicate NoTime(cfg: Config, s: State) {
    if s.deadline.Some? then s.now >= s.deadline.value else cfg.flushTimeout == 0
  }

  /** Points after shutdown from which the worker leaves without connecting or sending. */
  predicate Leaving(cfg: Config, s: State) {
    s.q.shutdown && match s.pc
      case Top => !cfg.flushOnClose || s.q.items == [] || NoTime(cfg, s)
      case TopEmpty => s.q.items == [] || NoTime(cfg, s)
      case TopArm => NoTime(cfg, s)
      case TopExpired => Expired(s)
      case Inner => !cfg.flushOnClose || NoTime(cfg, s)
      case InnerArm => NoTime(cfg, s)
      case InnerExpired => Expired(s)
      case Exited(_) => true
      case _ => false
  }

  lemma LeavingWorker(cfg: Config, s: State, o: Outcome)
    requires Leaving(cfg, s) && Possible(cfg, s, o)
    ensures Leaving(cfg, StepWorker(cfg, s, o))
  {}

  lemma LeavingOthers(cfg: Config, s: State, a: Action)
    requires Leaving(cfg, s) && Enabled(cfg, s, a) && !a.WorkerStep?
    ensures Leaving(cfg, Step(cfg, s, a))
  {
    OthersKeepPoint(cfg, s, a);
  }

  lemma {:induction false} LeavesAtOnce(cfg: Config, s: State, run: seq<Action>)
    requires Leaving(cfg, s) && Legal(cfg, s, run)
    ensures StartsAt(cfg, s, run, ConnectStart) == StartsAt(cfg, s, run, PopCall) == 0
    ensures Leaving(cfg, Exec(cfg, s, run))
    decreases |run|
  {
    if run != [] {
      if run[0].WorkerStep? {
        LeavingWorker(cfg, s, run[0].outcome);
      } else {
        LeavingOthers(cfg, s, run[0]);
      }
      LeavesAtOnce(cfg, Step(cfg, s, run[0]), run[1..]);
    }
  }

  /** A run may start a step at a program point. */
  ghost predicate MayStart(cfg: Config, s: State, pc: WorkerPc) {
    exists run: seq<Action> :: Legal(cfg, s, run) && StartsAt(cfg, s, run, pc) > 0
  }

  lemma StartsHere(cfg: Config, s: State)
    requires Possible(cfg, s, Proceed)
    ensures MayStart(cfg, s, s.pc)
  {
    var run := [WorkerStep(Proceed)];
    assert run[1..] == [];
    assert Legal(cfg, s, run) && StartsAt(cfg, s, run, s.pc) == 1;
  }

  lemma StartsLater(cfg: Config, s: State, pc: WorkerPc)
    requires Possible(cfg, s, Proceed) && MayStart(cfg, StepWorker(cfg, s, Proceed), pc)
    ensures MayStart(cfg, s, pc)
  {
    var a, s' := WorkerStep(Proceed), StepWorker(cfg, s, Proceed);
    var rest: seq<Action> :| Legal(cfg, s', rest) && StartsAt(cfg, s', rest, pc) > 0;
    ExecCons(cfg, s, a, rest);
    assert ([a] + rest)[1..] == rest;
    assert StartsAt(cfg, s, [a] + rest, pc) > 0;
  }

  /** At the head of the reconnect loop after shutdown another connect may start exactly if draining
      is wanted, something is queued and time is left; otherwise the worker leaves straight away. */
  lemma ConnectsAfterShutdownIff(cfg: Config, s: State)
    requires s.pc == Top && s.q.shutdown
    ensures MayStart(cfg, s, ConnectStart)
      <==> cfg.flushOnClose && s.q.items != [] && !NoTime(cfg, s)
  {
    if cfg.flushOnClose && s.q.items != [] && !NoTime(cfg, s) {
      var s1 := StepWorker(cfg, s, Proceed);
      var s2 := StepWorker(cfg, s1, Proceed);
      var s3 := StepWorker(cfg, s2, Proceed);
      var s4 := StepWorker(cfg, s3, Proceed);
      assert s4.pc == ConnectStart;
      StartsHere(cfg, s4);
      StartsLater(cfg, s3, ConnectStart);
      StartsLater(cfg, s2, ConnectStart);
      StartsLater(cfg, s1, ConnectStart);
      StartsLater(cfg, s, ConnectStart);
    } else if MayStart(cfg, s, ConnectStart) {
      var run: seq<Action> :| Legal(cfg, s, run) && StartsAt(cfg, s, run, ConnectStart) > 0;
      LeavesAtOnce(cfg, s, run);
    }
  }

  /** On a connection after shutdown another `pop` may start exactly if draining is wanted and time is
      left. */
  lemma PopsAfterShutdownIff(cfg: Config, s: State)
    requires s.pc == Inner && s.q.shutdown
    ensures MayStart(cfg, s, PopCall) <==> cfg.flushOnClose && !NoTime(cfg, s)
  {
    if cfg.flushOnClose && !NoTime(cfg, s) {
      var s1 := StepWorker(cfg, s, Proceed);
      var s2 := StepWorker(cfg, s1, Proceed);
      var s3 := StepWorker(cfg, s2, Proceed);
      assert s3.pc == PopCall;
      StartsHere(cfg, s3);
      StartsLater(cfg, s2, PopCall);
      StartsLater(cfg, s1, PopCall);
      StartsLater(cfg, s, PopCall);
    } else if MayStart(cfg, s, PopCall) {
      var run: seq<Action> :| Legal(cfg, s, run) && StartsAt(cfg, s, run, PopCall) > 0;
      LeavesAtOnce(cfg, s, run);
    }
  }

  /** While shutdown is not set the worker always goes on. */
  lemma GoesOn(cfg: Config, s: State)
    requires !s.q.shutdown && (s.pc == Top || s.pc == Inner)
    ensures StepWorker(cfg, s, Proceed).pc == if s.pc == Top then ConnectStart else PopCall
  {}

  // ---- The reconnect delay --------------------------------------------------------------------

  /** The steps of a run that end a reconnect delay by its timeout. */
  function DelaysEnded(cfg: Config, s: State, run: seq<Action>): nat
    requires Legal(cfg, s, run)
    decreases |run|
  {
    if run == [] then 0
    else
      (if s.pc == SleepCheck && run[0] == WorkerStep(TimedOut) then 1 else 0)
      + DelaysEnded(cfg, Step(cfg, s, run[0]), run[1..])
  }

  /** Every failure of the network leads to the delay, ... */
  lemma FailureDelays(cfg: Config, s: State, o: Outcome)
    requires Possible(cfg, s, o) && (o.Fails? || o == Resolved(0))
    requires s.pc.Connecting? ==> s.pc.left == 0
    ensures AfterFailure(StepWorker(cfg, s, o).pc)
  {}

  lemma DelayWorker(cfg: Config, s: State, o: Outcome)
    requires Possible(cfg, s, o) && AfterFailure(s.pc)
    ensures AfterFailure(StepWorker(cfg, s, o).pc) || (s.pc == SleepCheck && o == TimedOut)
  {}

  /** ... and whatever happens then, the worker goes on to a connection only when the delay is over. */
  lemma {:induction false} DelayBeforeReconnect(cfg: Config, s: State, run: seq<Action>)
    requires AfterFailure(s.pc) && Legal(cfg, s, run)
    ensures !AfterFailure(Exec(cfg, s, run).pc) ==> DelaysEnded(cfg, s, run) > 0
    decreases |run|
  {
    if run != [] {
      var s' := Step(cfg, s, run[0]);
      if run[0].WorkerStep? {
        DelayWorker(cfg, s, run[0].outcome);
      } else {
        OthersKeepPoint(cfg, s, run[0]);
      }
      if AfterFailure(s'.pc) {
        DelayBeforeReconnect(cfg, s', run[1..]);
      }
    }
  }

  // ---- Waits end by themselves ----------------------------------------------------------------

  /** A `pop` that finds nothing ends by its timeout, whatever the other threads do or leave undone. */
  lemma PopTimesOut(cfg: Config, s: State) returns (run: seq<Action>)
    requires s.pc == PopCall || s.pc == PopAsleep || s.pc == PopWoken
    requires s.q.items == [] && !s.q.shutdown
    ensures Legal(cfg, s, run) && Exec(cfg, s, run) == s.(pc := Inner)
    ensures forall a <- run :: a.WorkerStep? || a.WorkerWake?
  {
    run := WakeFirst(cfg, s, WorkerStep(TimedOut));
  }

  /** So does the reconnect delay. */
  lemma DelayTimesOut(cfg: Config, s: State) returns (run: seq<Action>)
    requires s.pc == SleepCheck || s.pc == SleepAsleep
    requires !s.q.shutdown
    ensures Legal(cfg, s, run) && Exec(cfg, s, run) == s.(pc := Top)
    ensures forall a <- run :: a.WorkerStep? || a.WorkerWake?
  {
    run := WakeFirst(cfg, s, WorkerStep(TimedOut));
  }

  /** A step of the worker, after waking up if need be. */
  lemma WakeFirst(cfg: Config, s: State, a: Action) returns (run: seq<Action>)
    requires Enabled(cfg, s.(pc := WakeWorker(s.pc)), a) && a.WorkerStep?
    ensures Legal(cfg, s, run) && Exec(cfg, s, run) == Step(cfg, s.(pc := WakeWorker(s.pc)), a)
    ensures forall b <- run :: b.WorkerStep? || b.WorkerWake?
  {
    var awake := s.(pc := WakeWorker(s.pc));
    assert [a][1..] == [] && Legal(cfg, awake, [a]);
    run := [a];
    if s.pc != awake.pc {
      ExecCons(cfg, s, WorkerWake, [a]);
      run := [WorkerWake] + [a];
    }
  }
}
