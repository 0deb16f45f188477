/** Where every entry is accounted for, in every step. */
module Accounting {
  import opened Options
  import opened Proto
  import opened Protocol
  import opened QueueInvariants

  /** Entries that the client is done with: written, discarded as unsendable, evicted from a full
      queue, or refused by one on requeue. */
  function Settled(h: History): multiset<Entry> {
    multiset(h.written) + multiset(h.discarded) + multiset(h.evicted) + multiset(h.refused)
  }

  /** Every accepted entry is in exactly one place: settled one way, in hand, or queued. */
  predicate PartitionOf(h: History, hand: seq<Entry>, items: seq<Entry>) {
    multiset(h.accepted) == Settled(h) + multiset(hand) + multiset(items)
  }

  predicate Partition(s: State) {
    PartitionOf(s.h, Hand(s.pc), s.q.items)
  }

  predicate Counted(s: State) {
    s.q.dropped == |s.h.evicted| + |s.h.refused| + s.h.late == |s.h.owners|
  }

  lemma Uncons<T>(items: seq<T>)
    requires items != []
    ensures multiset(items) == multiset{items[0]} + multiset(items[1..])
  {
    assert items == [items[0]] + items[1..];
  }

  lemma SettledGrows(h: History, e: Entry)
    ensures Settled(h.(written := h.written + [e])) == Settled(h) + multiset{e}
    ensures Settled(h.(discarded := h.discarded + [e])) == Settled(h) + multiset{e}
    ensures Settled(h.(evicted := h.evicted + [e])) == Settled(h) + multiset{e}
    ensures Settled(h.(refused := h.refused + [e])) == Settled(h) + multiset{e}
  {}

  lemma PartitionSame(h: History, h': History, hand: seq<Entry>, items: seq<Entry>)
    requires PartitionOf(h, hand, items)
    requires h'.accepted == h.accepted && h'.written == h.written && h'.discarded == h.discarded
    requires h'.evicted == h.evicted && h'.refused == h.refused
    ensures PartitionOf(h', hand, items)
  {}

  lemma PartitionPush(h: History, h': History, hand: seq<Entry>, items: seq<Entry>, e: Entry)
    requires PartitionOf(h, hand, items)
    requires h'.accepted == h.accepted + [e] && Settled(h') == Settled(h)
    ensures PartitionOf(h', hand, items + [e])
  {
    assert multiset(items + [e]) == multiset(items) + multiset{e};
  }

  lemma PartitionOverflow(h: History, h': History, hand: seq<Entry>, items: seq<Entry>, e: Entry)
    requires PartitionOf(h, hand, items) && items != []
    requires h'.accepted == h.accepted + [e] && Settled(h') == Settled(h) + multiset{items[0]}
    ensures PartitionOf(h', hand, items[1..] + [e])
  {
    Uncons(items);
    assert multiset(items[1..] + [e]) == multiset(items[1..]) + multiset{e};
  }

  lemma PartitionLogPush(s: State, t: nat, r: Record)
    requires Partition(s) && |s.q.items| <= s.q.capacity
    ensures Partition(LogPush(s, t, r))
  {
    var s' := LogPush(s, t, r);
    if s.q.shutdown {
      PartitionSame(s.h, s'.h, Hand(s.pc), s.q.items);
    } else if |s.q.items| >= s.q.capacity {
      SettledGrows(s.h, s.q.items[0]);
      PartitionOverflow(s.h, s'.h, Hand(s.pc), s.q.items, Entry(|s.h.accepted|, r));
    } else {
      PartitionPush(s.h, s'.h, Hand(s.pc), s.q.items, Entry(|s.h.accepted|, r));
    }
  }

  lemma PartitionTake(h: History, items: seq<Entry>)
    requires PartitionOf(h, [], items) && items != []
    ensures PartitionOf(h, [items[0]], items[1..])
  {
    Uncons(items);
  }

  lemma PartitionPutBack(h: History, e: Entry, items: seq<Entry>)
    requires PartitionOf(h, [e], items)
    ensures PartitionOf(h, [], [e] + items)
  {
    Uncons([e] + items);
    assert ([e] + items)[1..] == items;
  }

  lemma PartitionSettle(h: History, h': History, e: Entry, items: seq<Entry>)
    requires PartitionOf(h, [e], items)
    requires h'.accepted == h.accepted && Settled(h') == Settled(h) + multiset{e}
    ensures PartitionOf(h', [], items)
  {}

  lemma PartitionPop(s: State, timedOut: bool)
    requires Partition(s) && Hand(s.pc) == []
    ensures Partition(PopLocked(s, timedOut))
  {
    var s' := PopLocked(s, timedOut);
    if s.q.items != [] {
      PartitionTake(s.h, s.q.items);
      assert s'.h == s.h && Hand(s'.pc) == [s.q.items[0]] && s'.q.items == s.q.items[1..];
    } else {
      assert s'.h == s.h && Hand(s'.pc) == [] && s'.q == s.q;
    }
  }

  lemma PartitionRefused(s: State, e: Entry)
    requires Partition(s) && s.pc == Requeue(e) && |s.q.items| >= s.q.capacity
    ensures Partition(RequeueStep(s, e))
  {
    var s' := RequeueStep(s, e);
    var h' := s.h.(refused := s.h.refused + [e]);
    SettledGrows(s.h, e);
    PartitionSettle(s.h, h', e, s.q.items);
    assert s'.q.items == s.q.items && Hand(s'.pc) == [];
    PartitionSame(h', s'.h, [], s.q.items);
  }

  lemma PartitionRetaken(s: State, e: Entry)
    requires Partition(s) && s.pc == Requeue(e) && |s.q.items| < s.q.capacity
    ensures Partition(RequeueStep(s, e))
  {
    var s' := RequeueStep(s, e);
    assert s'.h == s.h && Hand(s'.pc) == [] && s'.q.items == [e] + s.q.items;
    PartitionPutBack(s.h, e, s.q.items);
  }

  lemma PartitionRequeue(s: State, e: Entry)
    requires Partition(s) && s.pc == Requeue(e)
    ensures Partition(RequeueStep(s, e))
  {
    if |s.q.items| >= s.q.capacity {
      PartitionRefused(s, e);
    } else {
      PartitionRetaken(s, e);
    }
  }

  lemma PartitionWrite(cfg: Config, s: State, e: Entry, o: Outcome)
    requires Partition(s) && s.pc == WriteEntry(e) && Possible(cfg, s, o)
    ensures Partition(WriteStep(cfg, s, e, o))
  {
    var s' := WriteStep(cfg, s, e, o);
    WriteHistory(cfg, s, e, o);
    if s'.pc.Requeue? {
      PartitionSame(s.h, s'.h, [e], s.q.items);
    } else {
      PartitionDone(s.h, e, s.q.items);
    }
  }

  lemma PartitionDone(h: History, e: Entry, items: seq<Entry>)
    requires PartitionOf(h, [e], items)
    ensures PartitionOf(h.(written := h.written + [e]), [], items)
    ensures PartitionOf(h.(discarded := h.discarded + [e]), [], items)
  {
    SettledGrows(h, e);
    PartitionSettle(h, h.(written := h.written + [e]), e, items);
    PartitionSettle(h, h.(discarded := h.discarded + [e]), e, items);
  }

  lemma WriteHistory(cfg: Config, s: State, e: Entry, o: Outcome)
    requires s.pc == WriteEntry(e) && Possible(cfg, s, o)
    ensures var s' := WriteStep(cfg, s, e, o);
      && s'.q == s.q
      && (s'.pc == Requeue(e) ==> s'.h == s.h.(attempt := s'.h.attempt))
      && (s'.pc != Requeue(e) ==>
            && s'.pc == Finish(NextEntry)
            && (s'.h == s.h.(discarded := s.h.discarded + [e]) || s'.h == s.h.(written := s.h.written + [e])))
  {}

  /** The program points at which an entry changes its place. */
  predicate HandlesEntries(pc: WorkerPc) {
    MovesEntries(pc) || pc.WriteEntry?
  }

  lemma QuietHands(cfg: Config, s: State, o: Outcome)
    requires Possible(cfg, s, o) && !HandlesEntries(s.pc)
    ensures Hand(StepWorker(cfg, s, o).pc) == Hand(s.pc)
  {}

  lemma OthersKeepPoint(cfg: Config, s: State, a: Action)
    requires Enabled(cfg, s, a) && !a.WorkerStep?
    ensures Step(cfg, s, a).pc == s.pc || Step(cfg, s, a).pc == WakeWorker(s.pc)
  {}

  lemma QuietSent(cfg: Config, s: State, o: Outcome)
    requires Possible(cfg, s, o) && !s.pc.WriteEntry?
    ensures var s' := StepWorker(cfg, s, o);
      s'.h.written == s.h.written && s'.h.discarded == s.h.discarded
  {}

  lemma PartitionQuiet(cfg: Config, s: State, o: Outcome)
    requires Partition(s) && Possible(cfg, s, o) && !HandlesEntries(s.pc)
    ensures Partition(StepWorker(cfg, s, o))
  {
    QuietQueue(cfg, s, o);
    QuietHands(cfg, s, o);
    QuietHistory(cfg, s, o);
    QuietSent(cfg, s, o);
    PartitionSame(s.h, StepWorker(cfg, s, o).h, Hand(s.pc), s.q.items);
  }

  lemma PartitionStep(cfg: Config, s: State, a: Action)
    requires Partition(s) && Tail(cfg, s) && Enabled(cfg, s, a)
    ensures Partition(Step(cfg, s, a))
  {
    if a.LogCall? {
      PartitionLogPush(s, a.thread, a.record);
    } else if a.WorkerStep? {
      match s.pc
      case PopCall => PartitionPop(s, a.outcome == TimedOut);
      case PopWoken => PartitionPop(s, a.outcome == TimedOut);
      case Requeue(e) => PartitionRequeue(s, e);
      case WriteEntry(e) => PartitionWrite(cfg, s, e, a.outcome);
      case _ => PartitionQuiet(cfg, s, a.outcome);
    } else {
      PartitionOthers(cfg, s, a);
    }
  }

  lemma PartitionOthers(cfg: Config, s: State, a: Action)
    requires Partition(s) && Enabled(cfg, s, a) && !a.LogCall? && !a.WorkerStep?
    ensures Partition(Step(cfg, s, a))
  {
    var s' := Step(cfg, s, a);
    assert Hand(s'.pc) == Hand(s.pc) && s'.q.items == s.q.items;
    PartitionSame(s.h, s'.h, Hand(s.pc), s.q.items);
  }

  lemma CountedWorker(cfg: Config, s: State, o: Outcome)
    requires Counted(s) && Possible(cfg, s, o)
    ensures Counted(StepWorker(cfg, s, o))
  {
    match s.pc
    case PopCall => CountedPop(s, o == TimedOut);
    case PopWoken => CountedPop(s, o == TimedOut);
    case Requeue(e) => CountedRequeue(s, e);
    case _ => CountedQuiet(cfg, s, o);
  }

  lemma CountedPop(s: State, timedOut: bool)
    requires Counted(s)
    ensures Counted(PopLocked(s, timedOut))
  {}

  lemma CountedRequeue(s: State, e: Entry)
    requires Counted(s)
    ensures Counted(RequeueStep(s, e))
  {}

  lemma CountedQuiet(cfg: Config, s: State, o: Outcome)
    requires Counted(s) && Possible(cfg, s, o) && !MovesEntries(s.pc)
    ensures Counted(StepWorker(cfg, s, o))
  {
    QuietQueue(cfg, s, o);
    QuietHistory(cfg, s, o);
  }

  lemma AccountingInit(cfg: Config)
    ensures Partition(Init(cfg)) && Counted(Init(cfg)) && Sorted(cfg, Init(cfg)) && Overrun(Init(cfg))
  {}

  lemma CountedStep(cfg: Config, s: State, a: Action)
    requires Counted(s) && Enabled(cfg, s, a)
    ensures Counted(Step(cfg, s, a))
  {
    match a
    case WorkerStep(o) => CountedWorker(cfg, s, o);
    case _ =>
  }

  /** Nothing is lost before more entries have come than the queue holds. */
  predicate Overrun(s: State) {
    s.h.evicted + s.h.refused != [] ==> |s.h.accepted| > s.q.capacity
  }

  lemma OverrunQuiet(s: State, s': State)
    requires Overrun(s)
    requires s'.h.evicted == s.h.evicted && s'.h.refused == s.h.refused
    requires |s'.h.accepted| >= |s.h.accepted| && s'.q.capacity == s.q.capacity
    ensures Overrun(s')
  {}

  lemma OverrunWorker(cfg: Config, s: State, o: Outcome)
    requires Overrun(s) && Tail(cfg, s) && Possible(cfg, s, o)
    ensures Overrun(StepWorker(cfg, s, o))
  {
    if !MovesEntries(s.pc) {
      QuietQueue(cfg, s, o);
      QuietHistory(cfg, s, o);
      OverrunQuiet(s, StepWorker(cfg, s, o));
    }
  }

  lemma OverrunStep(cfg: Config, s: State, a: Action)
    requires Overrun(s) && Tail(cfg, s) && Enabled(cfg, s, a)
    ensures Overrun(Step(cfg, s, a))
  {
    if a.WorkerStep? {
      OverrunWorker(cfg, s, a.outcome);
    } else if !a.LogCall? {
      OverrunQuiet(s, Step(cfg, s, a));
    }
  }

  /** Only what cannot be sent is discarded, and only what can is written. */
  predicate Sorted(cfg: Config, s: State) {
    && (forall e <- s.h.written :: cfg.frame(e.record).Some?)
    && (forall e <- s.h.discarded :: cfg.frame(e.record).None?)
  }

  lemma SortedStep(cfg: Config, s: State, a: Action)
    requires Sorted(cfg, s) && Enabled(cfg, s, a)
    ensures Sorted(cfg, Step(cfg, s, a))
  {
    if a.WorkerStep? && !s.pc.WriteEntry? {
      QuietSent(cfg, s, a.outcome);
    }
  }
}
