/** What a returned `flush` or `close` promises. */
module Flush {
  import opened Accounting
  import opened Protocol
  import opened QueueInvariants
  import Q = QueueSpec

  /** The client is done with the first `mark` entries that it accepted. */
  predicate SettledUpTo(h: History, mark: nat) {
    && mark <= |h.accepted|
    && forall i :: 0 <= i < mark ==> h.accepted[i] in Settled(h)
  }

  predicate Kept(s: State, pc: ThreadPc) {
    match pc
    case FlushCheck(mark) => mark <= |s.h.accepted|
    case FlushAsleep(mark) => mark <= |s.h.accepted|
    case FlushReturned(mark, drained) =>
      mark <= |s.h.accepted| && (drained ==> SettledUpTo(s.h, mark))
    case CloseReturned(joined) => joined ==> s.pc.Exited?
    case _ => true
  }

  predicate PromisesKept(s: State) {
    forall t <- s.threads :: Kept(s, s.threads[t])
  }

  /** In a drained state everything accepted is settled: with `busy` clear, no entry is in hand. */
  lemma DrainedSettles(cfg: Config, s: State)
    requires Tail(cfg, s) && Partition(s) && Q.Drained(s.q)
    ensures SettledUpTo(s.h, |s.h.accepted|)
  {
    assert Hand(s.pc) == [];
    assert multiset(s.h.accepted) == Settled(s.h);
    forall i | 0 <= i < |s.h.accepted|
      ensures s.h.accepted[i] in Settled(s.h)
    {
      assert s.h.accepted[i] in multiset(s.h.accepted);
    }
  }

  /** Histories only grow. */
  predicate Extends(h: History, h': History) {
    && h.accepted <= h'.accepted
    && h.written <= h'.written && h.discarded <= h'.discarded
    && h.evicted <= h'.evicted && h.refused <= h'.refused
  }

  lemma ExtendsSettled(h: History, h': History, mark: nat)
    requires Extends(h, h') && SettledUpTo(h, mark)
    ensures SettledUpTo(h', mark)
  {
    forall i | 0 <= i < mark
      ensures h'.accepted[i] in Settled(h')
    {
      InSettled(h, h.accepted[i]);
      InSettled(h', h.accepted[i]);
    }
  }

  lemma InSettled(h: History, e: Entry)
    ensures e in Settled(h) <==> e in h.written || e in h.discarded || e in h.evicted || e in h.refused
  {}

  lemma ExtendsWorker(cfg: Config, s: State, o: Outcome)
    requires Possible(cfg, s, o)
    ensures Extends(s.h, StepWorker(cfg, s, o).h)
  {
    if MovesEntries(s.pc) {
      QuietSent(cfg, s, o);
    } else if !s.pc.WriteEntry? {
      QuietSent(cfg, s, o);
      QuietHistory(cfg, s, o);
    }
  }

  lemma ExtendsStep(cfg: Config, s: State, a: Action)
    requires Enabled(cfg, s, a)
    ensures Extends(s.h, Step(cfg, s, a).h)
  {
    if a.WorkerStep? {
      ExtendsWorker(cfg, s, a.outcome);
    }
  }

  lemma StaysExited(cfg: Config, s: State, a: Action)
    requires Enabled(cfg, s, a) && s.pc.Exited?
    ensures Step(cfg, s, a).pc == s.pc
  {}

  lemma KeptStays(s: State, s': State, pc: ThreadPc)
    requires Kept(s, pc) && Extends(s.h, s'.h) && (s.pc.Exited? ==> s'.pc.Exited?)
    ensures Kept(s', pc) && Kept(s', WakeFlusher(pc))
  {
    if pc.FlushReturned? && pc.drained {
      ExtendsSettled(s.h, s'.h, pc.mark);
    }
  }

  /** What a step does to a thread other than the one it belongs to. */
  lemma OtherThreads(cfg: Config, s: State, a: Action, t: nat)
    requires Enabled(cfg, s, a)
    requires a.Tick? || a.WorkerWake? || a.WorkerStep? || t != a.thread
    ensures var s' := Step(cfg, s, a);
      s'.Thread(t) == s.Thread(t) || s'.Thread(t) == WakeFlusher(s.Thread(t))
  {}

  lemma OwnThread(cfg: Config, s: State, a: Action)
    requires Tail(cfg, s) && Partition(s) && PromisesKept(s) && Enabled(cfg, s, a)
    requires !a.Tick? && !a.WorkerWake? && !a.WorkerStep?
    ensures Kept(Step(cfg, s, a), Step(cfg, s, a).Thread(a.thread))
  {
    if a.FlushLook? && Q.Drained(s.q) {
      DrainedSettles(cfg, s);
    }
  }

  lemma PromisesStep(cfg: Config, s: State, a: Action)
    requires Tail(cfg, s) && Partition(s) && PromisesKept(s) && Enabled(cfg, s, a)
    ensures PromisesKept(Step(cfg, s, a))
  {
    var s' := Step(cfg, s, a);
    ExtendsStep(cfg, s, a);
    if s.pc.Exited? {
      StaysExited(cfg, s, a);
    }
    forall t | t in s'.threads
      ensures Kept(s', s'.threads[t])
    {
      assert s'.threads[t] == s'.Thread(t);
      if a.Tick? || a.WorkerWake? || a.WorkerStep? || t != a.thread {
        OtherThreads(cfg, s, a, t);
        KeptStays(s, s', s.Thread(t));
      } else {
        OwnThread(cfg, s, a);
      }
    }
  }
}
