/** After shutdown the worker runs out of steps. */
module Termination {
  import opened Closers
  import opened Flush
  import opened Protocol
  import R = Runs

  /** An upper bound on the worker's remaining steps once shutdown is set. Before a failure every
      queued entry costs one round of the inner loop; after one the way out is fixed. */
  function Remaining(cfg: Config, s: State): nat {
    var rounds := 20 + 16 * |s.q.items|;
    var attempts := Addresses(cfg);
    match s.pc
    case Top => rounds + attempts + 16
    case TopEmpty => rounds + attempts + 15
    case TopArm => rounds + attempts + 14
    case TopExpired => rounds + attempts + 13
    case ConnectStart => rounds + attempts + 12
    case Resolving(_, _) => rounds + attempts + 11
    case Connecting(_, _, _, _, left) => rounds + left + 10
    case WriteBanner => rounds + 9
    case Inner => rounds + 8
    case InnerArm => rounds + 7
    case InnerExpired => rounds + 6
    case PopCall => rounds + 5
    case PopAsleep => rounds + 5
    case PopWoken => rounds + 4
    case WriteEntry(_) => rounds + 12
    case Finish(NextEntry) => rounds + 11
    case FinishNotify(NextEntry) => rounds + 10
    case Requeue(_) => 7
    case RequeueNotify => 6
    case Finish(Reconnect(_)) => 5
    case FinishNotify(Reconnect(_)) => 4
    case ReportRefused(_) => 3
    case SleepAsleep => 2
    case SleepCheck => 1
    case Exited(_) => 0
  }

  lemma ConnectRemaining(cfg: Config, s: State, o: Outcome)
    requires s.q.shutdown && Possible(cfg, s, o) && (R.BeforeConnect(s.pc) || R.UnderWay(s.pc))
    ensures Remaining(cfg, StepWorker(cfg, s, o)) < Remaining(cfg, s)
  {}

  lemma SendRemaining(cfg: Config, s: State, o: Outcome)
    requires s.q.shutdown && Possible(cfg, s, o)
    requires !R.BeforeConnect(s.pc) && !R.UnderWay(s.pc)
    ensures Remaining(cfg, StepWorker(cfg, s, o)) < Remaining(cfg, s)
  {}

  lemma WorkerStepRemaining(cfg: Config, s: State, o: Outcome)
    requires s.q.shutdown && Possible(cfg, s, o)
    ensures Remaining(cfg, StepWorker(cfg, s, o)) < Remaining(cfg, s)
  {
    if R.BeforeConnect(s.pc) || R.UnderWay(s.pc) {
      ConnectRemaining(cfg, s, o);
    } else {
      SendRemaining(cfg, s, o);
    }
  }

  /** After shutdown every step of the worker, a wakeup included, brings it closer to its exit, and
      no step of another thread sets it back. */
  lemma StepRemaining(cfg: Config, s: State, a: Action)
    requires s.q.shutdown && Enabled(cfg, s, a)
    ensures Step(cfg, s, a).q.shutdown
    ensures Remaining(cfg, Step(cfg, s, a)) <= Remaining(cfg, s)
    ensures a.WorkerStep? || a.WorkerWake? ==> Remaining(cfg, Step(cfg, s, a)) < Remaining(cfg, s)
  {
    if a.WorkerStep? {
      WorkerStepRemaining(cfg, s, a.outcome);
      R.ShutdownStays(cfg, s, a);
    }
  }

  /** In every run after shutdown, however the other threads interleave and whatever the network
      does, the worker takes at most `Remaining` steps. */
  lemma {:induction false} ShutdownBounded(cfg: Config, s: State, run: seq<Action>)
    requires s.q.shutdown && Legal(cfg, s, run)
    ensures R.WorkerSteps(run) + Remaining(cfg, Exec(cfg, s, run)) <= Remaining(cfg, s)
    decreases |run|
  {
    if run != [] {
      StepRemaining(cfg, s, run[0]);
      ShutdownBounded(cfg, Step(cfg, s, run[0]), run[1..]);
    }
  }

  /** An outcome with which the worker can always go on, unless it is asleep. */
  function Chosen(s: State): Outcome {
    if s.pc.Resolving? then Resolved(1) else Proceed
  }

  /** The worker is never stuck: until it exits it has a step to take, or it is asleep; and asleep
      after shutdown it has a wakeup coming. */
  lemma NeverStuck(cfg: Config, s: State)
    requires Reachable(cfg, s) && !s.pc.Exited?
    ensures Possible(cfg, s, Chosen(s)) || s.pc == PopAsleep || s.pc == SleepAsleep
    ensures s.q.shutdown && !Possible(cfg, s, Chosen(s)) ==>
      exists t <- s.threads :: s.threads[t].CloseNotifyWork?
  {
    R.InvReachable(cfg, s);
  }

  lemma Onward(cfg: Config, s: State) returns (a: Action)
    requires Reachable(cfg, s) && s.q.shutdown && !s.pc.Exited?
    ensures Enabled(cfg, s, a) && (a.WorkerStep? || a.WorkerWake?)
    ensures Reachable(cfg, Step(cfg, s, a)) && Step(cfg, s, a).q.shutdown
    ensures Remaining(cfg, Step(cfg, s, a)) < Remaining(cfg, s)
  {
    a := if s.pc == PopAsleep || s.pc == SleepAsleep then WorkerWake else WorkerStep(Chosen(s));
    NeverStuck(cfg, s);
    StepRemaining(cfg, s, a);
    R.ReachableStep(cfg, s, a);
  }

  /** A closer stays where it is while the worker goes on. */
  lemma CloserWaits(cfg: Config, s: State, a: Action, t: nat)
    requires Enabled(cfg, s, a) && (a.WorkerStep? || a.WorkerWake?) && Closing(s.Thread(t))
    ensures Step(cfg, s, a).Thread(t) == s.Thread(t)
  {
    OtherThreads(cfg, s, a, t);
  }

  lemma {:induction false} ExitFrom(cfg: Config, s: State, t: nat) returns (run: seq<Action>)
    requires Reachable(cfg, s) && s.q.shutdown
    ensures Legal(cfg, s, run) && Exec(cfg, s, run).pc.Exited?
    ensures Closing(s.Thread(t)) ==> Exec(cfg, s, run).Thread(t) == s.Thread(t)
    decreases Remaining(cfg, s)
  {
    if s.pc.Exited? {
      run := [];
    } else {
      var a := Onward(cfg, s);
      if Closing(s.Thread(t)) {
        CloserWaits(cfg, s, a, t);
      }
      var rest := ExitFrom(cfg, Step(cfg, s, a), t);
      R.ExecCons(cfg, s, a, rest);
      run := [a] + rest;
    }
  }

  /** From any reachable state after shutdown the worker can be brought to its exit. */
  lemma CanExit(cfg: Config, s: State)
    requires Reachable(cfg, s) && s.q.shutdown
    ensures exists run: seq<Action> :: Legal(cfg, s, run) && Exec(cfg, s, run).pc.Exited?
  {
    var run := ExitFrom(cfg, s, 0);
  }

  /** The steps that a closer has before it. */
  function StepsToReturn(pc: ThreadPc): nat {
    match pc
    case CloseNotifyWork => 4
    case CloseNotifyDrained => 3
    case CloseTake => 2
    case CloseJoin => 1
    case _ => 0
  }

  lemma CloserStep(cfg: Config, s: State, t: nat)
    requires s.pc.Exited? && Closing(s.Thread(t)) && !s.Thread(t).CloseReturned?
    ensures Enabled(cfg, s, CloseStep(t))
    ensures var s' := Step(cfg, s, CloseStep(t));
      s'.pc.Exited? && Closing(s'.Thread(t)) && StepsToReturn(s'.Thread(t)) < StepsToReturn(s.Thread(t))
  {}

  lemma {:induction false} ReturnFrom(cfg: Config, s: State, t: nat) returns (run: seq<Action>)
    requires s.pc.Exited? && Closing(s.Thread(t))
    ensures Legal(cfg, s, run) && Exec(cfg, s, run).Thread(t).CloseReturned?
    decreases StepsToReturn(s.Thread(t))
  {
    if s.Thread(t).CloseReturned? {
      run := [];
    } else {
      CloserStep(cfg, s, t);
      var rest := ReturnFrom(cfg, Step(cfg, s, CloseStep(t)), t);
      R.ExecCons(cfg, s, CloseStep(t), rest);
      run := [CloseStep(t)] + rest;
    }
  }

  /** No call of `close` is ever stuck: from any reachable state it can be brought to its return. */
  lemma CloseCanReturn(cfg: Config, s: State, t: nat)
    requires Reachable(cfg, s) && Closing(s.Thread(t))
    ensures exists run: seq<Action> :: Legal(cfg, s, run) && Exec(cfg, s, run).Thread(t).CloseReturned?
  {
    R.CloseCallsSet(cfg, s, t);
    var exit := ExitFrom(cfg, s, t);
    var rest := ReturnFrom(cfg, Exec(cfg, s, exit), t);
    R.ExecAppend(cfg, s, exit, rest);
  }
}
