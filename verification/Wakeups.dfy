/** No wakeup is lost on either condition variable. */
module Wakeups {
  import opened Protocol
  import opened QueueInvariants
  import Q = QueueSpec

  /** A flusher asleep on `drained` although what it waits for holds will be notified: the worker
      is between the end of `finish`'s lock section and its notification. */
  predicate DrainedHeard(s: State) {
    Q.Drained(s.q) && !s.pc.FinishNotify? ==>
      forall t <- s.threads :: !s.threads[t].FlushAsleep?
  }

  predicate PushPending(s: State) {
    exists t <- s.threads :: s.threads[t].PushNotify?
  }

  predicate ClosePending(s: State) {
    exists t <- s.threads :: s.threads[t].CloseNotifyWork?
  }

  /** The worker asleep in `pop` with an entry queued, or in either wait after shutdown, will be
      notified. */
  predicate WorkHeard(s: State) {
    && (s.pc.PopAsleep? && s.q.items != [] ==> PushPending(s))
    && ((s.pc.PopAsleep? || s.pc.SleepAsleep?) && s.q.shutdown ==> ClosePending(s))
  }

  lemma HeardInit(cfg: Config)
    ensures DrainedHeard(Init(cfg)) && WorkHeard(Init(cfg))
  {}

  lemma WakeFlushersThreads(s: State)
    ensures WakeFlushers(s).threads.Keys == s.threads.Keys
    ensures forall t <- s.threads :: WakeFlushers(s).threads[t] == WakeFlusher(s.threads[t])
  {}

  lemma DrainedHeardWorker(cfg: Config, s: State, o: Outcome)
    requires DrainedHeard(s) && Tail(cfg, s) && Possible(cfg, s, o)
    ensures DrainedHeard(StepWorker(cfg, s, o))
  {
    match s.pc
    case FinishNotify(after) => WakeFlushersThreads(s);
    case _ =>
  }

  lemma DrainedHeardStep(cfg: Config, s: State, a: Action)
    requires DrainedHeard(s) && Tail(cfg, s) && Enabled(cfg, s, a)
    ensures DrainedHeard(Step(cfg, s, a))
  {
    match a
    case WorkerStep(o) => DrainedHeardWorker(cfg, s, o);
    case CloseStep(t) => WakeFlushersThreads(s);
    case _ =>
  }

  /** A `close` wakes the worker and then every flusher. */
  lemma CloseWakes(cfg: Config, s: State, t: nat)
    requires s.Thread(t) == CloseNotifyWork || s.Thread(t) == CloseNotifyDrained
    ensures var s' := Step(cfg, s, CloseStep(t));
      && (s.Thread(t) == CloseNotifyWork ==> !s'.pc.PopAsleep? && !s'.pc.SleepAsleep?)
      && (s.Thread(t) == CloseNotifyDrained ==> forall u <- s'.threads :: !s'.threads[u].FlushAsleep?)
      && s'.Thread(t) == if s.Thread(t) == CloseNotifyWork then CloseNotifyDrained else CloseTake
  {
    WakeFlushersThreads(s);
  }

  lemma WorkHeardWorker(cfg: Config, s: State, o: Outcome)
    requires WorkHeard(s) && Possible(cfg, s, o)
    ensures WorkHeard(StepWorker(cfg, s, o))
  {
  }

  /** A thread's own step leaves what others have pending. */
  lemma PendingKept(s: State, t: nat, pc: ThreadPc)
    ensures PushPending(s) && !s.Thread(t).PushNotify? ==> PushPending(s.Set(t, pc))
    ensures ClosePending(s) && !s.Thread(t).CloseNotifyWork? ==> ClosePending(s.Set(t, pc))
    ensures pc.PushNotify? ==> PushPending(s.Set(t, pc))
    ensures pc.CloseNotifyWork? ==> ClosePending(s.Set(t, pc))
  {
    var s' := s.Set(t, pc);
    assert t in s'.threads && s'.threads[t] == pc;
    if PushPending(s) && !s.Thread(t).PushNotify? {
      var u :| u in s.threads && s.threads[u].PushNotify?;
      assert u in s'.threads && s'.threads[u].PushNotify?;
    }
    if ClosePending(s) && !s.Thread(t).CloseNotifyWork? {
      var u :| u in s.threads && s.threads[u].CloseNotifyWork?;
      assert u in s'.threads && s'.threads[u].CloseNotifyWork?;
    }
  }

  lemma PendingAwake(s: State)
    ensures PushPending(s) ==> PushPending(WakeFlushers(s))
    ensures ClosePending(s) ==> ClosePending(WakeFlushers(s))
  {
    WakeFlushersThreads(s);
    var s' := WakeFlushers(s);
    if PushPending(s) {
      var u :| u in s.threads && s.threads[u].PushNotify?;
      assert u in s'.threads && s'.threads[u].PushNotify?;
    }
    if ClosePending(s) {
      var u :| u in s.threads && s.threads[u].CloseNotifyWork?;
      assert u in s'.threads && s'.threads[u].CloseNotifyWork?;
    }
  }

  lemma WorkHeardStep(cfg: Config, s: State, a: Action)
    requires WorkHeard(s) && Enabled(cfg, s, a)
    ensures WorkHeard(Step(cfg, s, a))
  {
    var s' := Step(cfg, s, a);
    match a
    case Tick(_) =>
    case WorkerWake =>
    case WorkerStep(o) => WorkHeardWorker(cfg, s, o);
    case CloseStep(t) =>
      if s.Thread(t).CloseNotifyDrained? {
        PendingAwake(s);
        PendingKept(WakeFlushers(s), t, s'.Thread(t));
      } else {
        PendingKept(s, t, s'.Thread(t));
      }
    case _ => PendingKept(s, a.thread, s'.Thread(a.thread));
  }
}
