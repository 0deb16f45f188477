/** What holds at each program point of the worker, about shutdown, the deadline and failures. */
module Control {
  import opened Options
  import opened Protocol

  /** The points that are passed only after shutdown was seen with draining wanted. */
  predicate Draining(pc: WorkerPc) {
    pc.TopEmpty? || pc.TopArm? || pc.TopExpired? || pc.InnerArm? || pc.InnerExpired?
  }

  /** The points between a failure and the end of the reconnect delay. */
  predicate AfterFailure(pc: WorkerPc) {
    || pc.Requeue? || pc.RequeueNotify? || pc.ReportRefused? || pc.SleepCheck? || pc.SleepAsleep?
    || (pc.Finish? && pc.after.Reconnect?) || (pc.FinishNotify? && pc.after.Reconnect?)
    || pc == Exited(SleepInterrupted)
  }

  predicate Failed(attempt: Attempt) {
    attempt.ConnectFailed? || attempt.BannerFailed? || attempt.WriteFailed?
  }

  predicate ShutdownSeen(cfg: Config, s: State) {
    && (Draining(s.pc) ==> s.q.shutdown && cfg.flushOnClose)
    && (s.deadline.Some? ==> s.q.shutdown && cfg.flushOnClose)
    && (s.pc.TopExpired? || s.pc.InnerExpired? ==> s.deadline.Some?)
  }

  /** Why the worker left. */
  predicate ExitJustified(cfg: Config, s: State) {
    s.pc.Exited? ==>
      s.q.shutdown && match s.pc.why
        case NoDrain => !cfg.flushOnClose
        case DeadlinePassed => cfg.flushOnClose && Expired(s)
        case SleepInterrupted => Failed(s.h.attempt)
        case NothingQueued => s.q.items == []
        case QueueShutdown => s.q.items == []
  }

  predicate FailureKnown(s: State) {
    AfterFailure(s.pc) ==> Failed(s.h.attempt)
  }

  /** A connect that is under way has the timeout chosen at its start, which ends each attempt. */
  predicate TimeoutKnown(cfg: Config, s: State) {
    match s.pc
    case Resolving(timeout, chosen) =>
      && chosen <= s.now && (cfg.address.Literal? ==> chosen == s.now)
      && timeout == ConnectTimeout(cfg, s.deadline, chosen)
    case Connecting(timeout, chosen, resolved, started, left) =>
      && chosen <= resolved <= started <= s.now <= started + timeout
      && (cfg.address.Literal? ==> chosen == resolved)
      && timeout == ConnectTimeout(cfg, s.deadline, chosen)
      && left < Addresses(cfg) && (left == Addresses(cfg) - 1 ==> started == resolved)
    case _ => true
  }

  /** The points between a check of the deadline and the end of a connect. */
  predicate ToConnect(pc: WorkerPc) {
    pc.ConnectStart? || pc.Resolving? || pc.Connecting?
  }

  /** The deadline is at most the flush timeout away, and no connect begins when that is zero. */
  predicate DeadlineNear(cfg: Config, s: State) {
    s.deadline.Some? ==>
      s.deadline.value <= s.now + cfg.flushTimeout && (ToConnect(s.pc) ==> cfg.flushTimeout > 0)
  }

  lemma DeadlineNearWorker(cfg: Config, s: State, o: Outcome)
    requires DeadlineNear(cfg, s) && ShutdownSeen(cfg, s) && Possible(cfg, s, o)
    ensures DeadlineNear(cfg, StepWorker(cfg, s, o))
  {}

  lemma TimeoutKnownWorker(cfg: Config, s: State, o: Outcome)
    requires TimeoutKnown(cfg, s) && Possible(cfg, s, o)
    ensures TimeoutKnown(cfg, StepWorker(cfg, s, o))
  {}

  lemma KeepsShutdown(cfg: Config, s: State, o: Outcome)
    requires Possible(cfg, s, o)
    ensures StepWorker(cfg, s, o).q.shutdown == s.q.shutdown
  {}

  lemma ShutdownSeenWorker(cfg: Config, s: State, o: Outcome)
    requires ShutdownSeen(cfg, s) && Possible(cfg, s, o)
    ensures ShutdownSeen(cfg, StepWorker(cfg, s, o))
  {}

  lemma ArmedByWorker(cfg: Config, s: State, o: Outcome)
    requires ShutdownSeen(cfg, s) && Possible(cfg, s, o) && s.deadline.None?
    ensures StepWorker(cfg, s, o).deadline.Some? ==>
      s.q.shutdown && cfg.flushOnClose
      && StepWorker(cfg, s, o).deadline == Some(s.now + cfg.flushTimeout)
  {}

  lemma ExitJustifiedWorker(cfg: Config, s: State, o: Outcome)
    requires ExitJustified(cfg, s) && ShutdownSeen(cfg, s) && FailureKnown(s) && Possible(cfg, s, o)
    ensures ExitJustified(cfg, StepWorker(cfg, s, o))
  {}

  lemma FailureKnownWorker(cfg: Config, s: State, o: Outcome)
    requires FailureKnown(s) && Possible(cfg, s, o)
    ensures FailureKnown(StepWorker(cfg, s, o))
  {}

  lemma ControlledInit(cfg: Config)
    ensures Controlled(cfg, Init(cfg))
  {}

  predicate Controlled(cfg: Config, s: State) {
    && ShutdownSeen(cfg, s) && ExitJustified(cfg, s) && FailureKnown(s)
    && TimeoutKnown(cfg, s) && DeadlineNear(cfg, s)
  }

  lemma ControlledWorker(cfg: Config, s: State, o: Outcome)
    requires Controlled(cfg, s) && Possible(cfg, s, o)
    ensures Controlled(cfg, StepWorker(cfg, s, o))
  {
    ShutdownSeenWorker(cfg, s, o);
    ExitJustifiedWorker(cfg, s, o);
    FailureKnownWorker(cfg, s, o);
    TimeoutKnownWorker(cfg, s, o);
    DeadlineNearWorker(cfg, s, o);
  }

  /** What the other threads leave alone. */
  lemma OthersKeep(cfg: Config, s: State, a: Action)
    requires Enabled(cfg, s, a) && !a.WorkerStep?
    ensures var s' := Step(cfg, s, a);
      && (s'.pc == s.pc || s'.pc == WakeWorker(s.pc))
      && s'.deadline == s.deadline && s'.h.attempt == s.h.attempt && s'.now >= s.now
      && (s.q.shutdown ==> s'.q.shutdown) && (s.pc.Exited? && s.q.shutdown ==> s'.q.items == s.q.items)
      && (!a.Tick? ==> s'.now == s.now)
  {}

  lemma ControlledOthers(cfg: Config, s: State, a: Action)
    requires Controlled(cfg, s) && Enabled(cfg, s, a) && !a.WorkerStep?
    ensures Controlled(cfg, Step(cfg, s, a))
  {
    OthersKeep(cfg, s, a);
  }

  lemma ControlledStep(cfg: Config, s: State, a: Action)
    requires Controlled(cfg, s) && Enabled(cfg, s, a)
    ensures Controlled(cfg, Step(cfg, s, a))
  {
    if a.WorkerStep? {
      ControlledWorker(cfg, s, a.outcome);
    } else {
      ControlledOthers(cfg, s, a);
    }
  }
}
