/** What holds between the calls of `close`: the first of them, and only that one, waits for the
    worker (src/client.rs:204-212). */
module Closers {
  import opened Accounting
  import opened Control
  import opened Flush
  import opened Protocol

  predicate Closing(pc: ThreadPc) {
    || pc.CloseNotifyWork? || pc.CloseNotifyDrained? || pc.CloseTake? || pc.CloseJoin?
    || pc.CloseReturned?
  }

  /** Past taking the handle. */
  predicate Took(pc: ThreadPc) {
    pc.CloseJoin? || pc.CloseReturned?
  }

  predicate Joining(s: State) {
    exists t <- s.threads :: s.threads[t].CloseJoin?
  }

  /** The handle is taken once, after shutdown, and whoever took it waits until the worker is gone. */
  predicate JoinKept(s: State) {
    && (forall t <- s.threads :: Closing(s.threads[t]) ==> s.q.shutdown)
    && (forall t <- s.threads :: Took(s.threads[t]) ==> s.handleTaken)
    && (forall t <- s.threads, u <- s.threads ::
          s.threads[t].CloseJoin? && s.threads[u].CloseJoin? ==> t == u)
    && (s.handleTaken ==> s.q.shutdown)
    && (s.handleTaken && !s.pc.Exited? ==> Joining(s))
  }

  lemma JoinInit(cfg: Config)
    ensures JoinKept(Init(cfg))
  {}

  lemma HandleWorker(cfg: Config, s: State, o: Outcome)
    requires Possible(cfg, s, o)
    ensures StepWorker(cfg, s, o).handleTaken == s.handleTaken
  {}

  /** Notifying flushers, or no thread at all, changes nothing for the closers. */
  lemma CloserThreads(s: State, s': State)
    requires JoinKept(s)
    requires s'.threads == s.threads || s'.threads == WakeFlushers(s).threads
    requires s'.handleTaken == s.handleTaken && (s.q.shutdown ==> s'.q.shutdown)
    requires s.pc.Exited? ==> s'.pc.Exited?
    ensures JoinKept(s')
  {
    if s.handleTaken && !s'.pc.Exited? {
      var t :| t in s.threads && s.threads[t].CloseJoin?;
      assert t in s'.threads && s'.threads[t].CloseJoin?;
    }
  }

  lemma WorkerThreads(cfg: Config, s: State, o: Outcome)
    requires Possible(cfg, s, o)
    ensures var s' := StepWorker(cfg, s, o);
      s'.threads == s.threads || s'.threads == WakeFlushers(s).threads
  {}

  /** One thread going on, the others at most notified. */
  lemma CloserMoves(s: State, s': State, t: nat, pc: ThreadPc)
    requires JoinKept(s)
    requires s'.threads == s.threads[t := pc] || s'.threads == WakeFlushers(s).threads[t := pc]
    requires s.q.shutdown ==> s'.q.shutdown
    requires s'.pc == s.pc || s'.pc == WakeWorker(s.pc)
    requires Closing(pc) ==> s'.q.shutdown
    requires s'.handleTaken == (s.handleTaken || pc.CloseJoin?)
    requires pc.CloseJoin? ==> !s.handleTaken
    requires pc.CloseReturned? ==> s.handleTaken
    requires s.Thread(t).CloseJoin? ==> s.pc.Exited?
    ensures JoinKept(s')
  {
    if pc.CloseJoin? {
      assert s'.threads[t].CloseJoin?;
    } else if s.handleTaken && !s'.pc.Exited? {
      var u :| u in s.threads && s.threads[u].CloseJoin?;
      assert s.Thread(u).CloseJoin? && u != t;
      assert s'.threads[u].CloseJoin?;
    }
  }

  lemma JoinStep(cfg: Config, s: State, a: Action)
    requires JoinKept(s) && Enabled(cfg, s, a)
    ensures JoinKept(Step(cfg, s, a))
  {
    var s' := Step(cfg, s, a);
    match a
    case WorkerStep(o) =>
      WorkerThreads(cfg, s, o);
      HandleWorker(cfg, s, o);
      KeepsShutdown(cfg, s, o);
      CloserThreads(s, s');
    case Tick(_) => CloserThreads(s, s');
    case WorkerWake => CloserThreads(s, s');
    case _ =>
      ThreadStep(cfg, s, a);
      CloserMoves(s, s', a.thread, s'.Thread(a.thread));
  }

  /** A step of a thread, seen from the closers. */
  lemma ThreadStep(cfg: Config, s: State, a: Action)
    requires JoinKept(s) && Enabled(cfg, s, a) && !a.Tick? && !a.WorkerWake? && !a.WorkerStep?
    ensures var s', t := Step(cfg, s, a), a.thread;
      var pc := s'.Thread(t);
      && (s'.threads == s.threads[t := pc] || s'.threads == WakeFlushers(s).threads[t := pc])
      && (s.q.shutdown ==> s'.q.shutdown)
      && (s'.pc == s.pc || s'.pc == WakeWorker(s.pc))
      && (Closing(pc) ==> s'.q.shutdown)
      && s'.handleTaken == (s.handleTaken || pc.CloseJoin?)
      && (pc.CloseJoin? ==> !s.handleTaken)
      && (pc.CloseReturned? ==> s.handleTaken)
      && (s.Thread(t).CloseJoin? ==> s.pc.Exited?)
  {}
}
