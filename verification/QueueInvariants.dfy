/** What every step keeps of the queue's contents. */
module QueueInvariants {
  import opened Proto
  import opened Protocol
  import Q = QueueSpec

  predicate Numbered(entries: seq<Entry>) {
    forall i :: 0 <= i < |entries| ==> entries[i].id == i
  }

  /** The queue is the last stretch of what was accepted. */
  predicate Newest(q: Q.State<Entry>, accepted: seq<Entry>) {
    && |q.items| <= q.capacity
    && |q.items| <= |accepted|
    && q.items == accepted[|accepted| - |q.items|..]
  }

  /** The number of accepted entries that have left the queue at its head. */
  function Head(q: Q.State<Entry>, accepted: seq<Entry>): int {
    |accepted| - |q.items|
  }

  /** The entry in hand precedes the queue, directly so while there is room to take it back. */
  predicate Precedes(q: Q.State<Entry>, accepted: seq<Entry>, x: Entry) {
    && x.id < Head(q, accepted) <= |accepted|
    && accepted[x.id] == x
    && (|q.items| < q.capacity ==> x.id == Head(q, accepted) - 1)
  }

  /** Nothing queued, or to be put back, is older than anything lost. */
  predicate LostAreOlder(q: Q.State<Entry>, accepted: seq<Entry>, hand: seq<Entry>, lost: seq<Entry>) {
    forall e <- lost ::
      && e.id < Head(q, accepted)
      && (hand != [] && |q.items| < q.capacity ==> e.id < hand[0].id)
  }

  /** `busy` covers the worker from `pop` to `finish`. */
  predicate HoldsQueue(pc: WorkerPc) {
    pc.WriteEntry? || pc.Requeue? || pc.RequeueNotify? || pc.Finish?
  }

  function Lost(s: State): seq<Entry> {
    s.h.evicted + s.h.refused
  }

  predicate TailOf(q: Q.State<Entry>, hand: seq<Entry>, accepted: seq<Entry>, lost: seq<Entry>) {
    && Numbered(accepted)
    && Newest(q, accepted)
    && (hand != [] ==> Precedes(q, accepted, hand[0]))
    && LostAreOlder(q, accepted, hand, lost)
  }

  predicate Tail(cfg: Config, s: State) {
    && s.q.capacity == Q.New<Entry>(cfg.capacity).capacity
    && (s.q.busy <==> HoldsQueue(s.pc))
    && TailOf(s.q, Hand(s.pc), s.h.accepted, Lost(s))
  }

  lemma TailInit(cfg: Config)
    ensures Tail(cfg, Init(cfg))
  {}

  lemma SuffixGrows(accepted: seq<Entry>, head: nat, e: Entry)
    requires head <= |accepted|
    ensures (accepted + [e])[head..] == accepted[head..] + [e]
    ensures head < |accepted| ==> (accepted + [e])[head + 1..] == accepted[head..][1..] + [e]
  {}

  lemma TailPush(q: Q.State<Entry>, hand: seq<Entry>, accepted: seq<Entry>, lost: seq<Entry>, e: Entry)
    requires TailOf(q, hand, accepted, lost) && !q.shutdown && e.id == |accepted|
    ensures var lost' := if |q.items| >= q.capacity then lost + [q.items[0]] else lost;
      TailOf(Q.Push(q, e).0, hand, accepted + [e], lost')
  {
    SuffixGrows(accepted, Head(q, accepted), e);
    if |q.items| >= q.capacity {
      TailOverflow(q, hand, accepted, lost, e);
    }
  }

  lemma TailOverflow(q: Q.State<Entry>, hand: seq<Entry>, accepted: seq<Entry>, lost: seq<Entry>, e: Entry)
    requires TailOf(q, hand, accepted, lost) && !q.shutdown && e.id == |accepted|
    requires |q.items| >= q.capacity
    ensures TailOf(Q.Push(q, e).0, hand, accepted + [e], lost + [q.items[0]])
  {
    SuffixGrows(accepted, Head(q, accepted), e);
    assert q.items[0] == accepted[Head(q, accepted)];
  }

  lemma TailTake(q: Q.State<Entry>, accepted: seq<Entry>, lost: seq<Entry>)
    requires TailOf(q, [], accepted, lost) && q.items != []
    ensures TailOf(Q.Take(q).0, [q.items[0]], accepted, lost)
  {}

  lemma TailPutBack(q: Q.State<Entry>, e: Entry, accepted: seq<Entry>, lost: seq<Entry>)
    requires TailOf(q, [e], accepted, lost)
    ensures |q.items| < q.capacity ==> TailOf(Q.PushFront(q, e).0, [], accepted, lost)
    ensures |q.items| >= q.capacity ==> TailOf(Q.PushFront(q, e).0, [], accepted, lost + [e])
  {
    if |q.items| < q.capacity {
      var head := Head(q, accepted);
      assert accepted[head - 1..] == [accepted[head - 1]] + accepted[head..];
    }
  }

  lemma TailFrame(q: Q.State<Entry>, q': Q.State<Entry>, hand: seq<Entry>, hand': seq<Entry>,
                  accepted: seq<Entry>, lost: seq<Entry>)
    requires TailOf(q, hand, accepted, lost)
    requires q'.items == q.items && q'.capacity == q.capacity && (hand' == hand || hand' == [])
    ensures TailOf(q', hand', accepted, lost)
  {}

  lemma TailPermuted(q: Q.State<Entry>, hand: seq<Entry>, accepted: seq<Entry>,
                     lost: seq<Entry>, lost': seq<Entry>)
    requires TailOf(q, hand, accepted, lost)
    requires forall e <- lost' :: e in lost
    ensures TailOf(q, hand, accepted, lost')
  {}

  lemma TailLogPush(cfg: Config, s: State, t: nat, r: Record)
    requires Tail(cfg, s)
    ensures Tail(cfg, LogPush(s, t, r))
  {
    var s' := LogPush(s, t, r);
    var hand, lost := Hand(s.pc), Lost(s);
    if s.q.shutdown {
      TailFrame(s.q, s'.q, hand, hand, s.h.accepted, lost);
    } else {
      var e := Entry(|s.h.accepted|, r);
      TailPush(s.q, hand, s.h.accepted, lost, e);
      var more := if |s.q.items| >= s.q.capacity then lost + [s.q.items[0]] else lost;
      TailPermuted(s'.q, hand, s'.h.accepted, more, Lost(s'));
    }
  }

  lemma TailPop(cfg: Config, s: State, timedOut: bool)
    requires Tail(cfg, s) && Hand(s.pc) == [] && !s.q.busy
    ensures Tail(cfg, PopLocked(s, timedOut))
  {
    if s.q.items != [] {
      TailTake(s.q, s.h.accepted, Lost(s));
    }
  }

  lemma TailRequeue(cfg: Config, s: State, e: Entry)
    requires Tail(cfg, s) && s.pc == Requeue(e)
    ensures Tail(cfg, RequeueStep(s, e))
  {
    var s' := RequeueStep(s, e);
    TailPutBack(s.q, e, s.h.accepted, Lost(s));
    if |s.q.items| >= s.q.capacity {
      TailPermuted(s'.q, [], s.h.accepted, Lost(s) + [e], Lost(s'));
    }
  }

  /** The program points at which the worker moves entries between its hand and the queue. */
  predicate MovesEntries(pc: WorkerPc) {
    pc == PopCall || pc == PopWoken || pc.Requeue?
  }

  /** Everywhere else the queued entries stay ... */
  lemma QuietQueue(cfg: Config, s: State, o: Outcome)
    requires Possible(cfg, s, o) && !MovesEntries(s.pc)
    ensures StepWorker(cfg, s, o).q == s.q.(busy := s.q.busy && !s.pc.Finish?)
  {}

  /** ... a hand is at most emptied, and the queue is given up by `finish` only ... */
  lemma QuietHand(cfg: Config, s: State, o: Outcome)
    requires Possible(cfg, s, o) && !MovesEntries(s.pc)
    ensures var s' := StepWorker(cfg, s, o);
      && (HoldsQueue(s'.pc) <==> HoldsQueue(s.pc) && !s.pc.Finish?)
      && (Hand(s'.pc) == Hand(s.pc) || Hand(s'.pc) == [])
  {}

  /** ... and nothing is accepted or dropped. */
  lemma QuietHistory(cfg: Config, s: State, o: Outcome)
    requires Possible(cfg, s, o) && !MovesEntries(s.pc)
    ensures var s' := StepWorker(cfg, s, o);
      && s'.h.accepted == s.h.accepted && s'.h.evicted == s.h.evicted && s'.h.refused == s.h.refused
      && s'.h.owners == s.h.owners && s'.h.late == s.h.late
  {}

  lemma TailQuiet(cfg: Config, s: State, s': State)
    requires Tail(cfg, s)
    requires s'.q == s.q.(busy := s'.q.busy, shutdown := s'.q.shutdown) && (s'.q.busy <==> HoldsQueue(s'.pc))
    requires Hand(s'.pc) == Hand(s.pc) || Hand(s'.pc) == []
    requires s'.h.accepted == s.h.accepted && s'.h.evicted == s.h.evicted && s'.h.refused == s.h.refused
    ensures Tail(cfg, s')
  {
    TailFrame(s.q, s'.q, Hand(s.pc), Hand(s'.pc), s.h.accepted, Lost(s));
  }

  lemma TailWorker(cfg: Config, s: State, o: Outcome)
    requires Tail(cfg, s) && Possible(cfg, s, o)
    ensures Tail(cfg, StepWorker(cfg, s, o))
  {
    match s.pc
    case PopCall => TailPop(cfg, s, o == TimedOut);
    case PopWoken => TailPop(cfg, s, o == TimedOut);
    case Requeue(e) => TailRequeue(cfg, s, e);
    case _ => TailElsewhere(cfg, s, o);
  }

  lemma TailElsewhere(cfg: Config, s: State, o: Outcome)
    requires Tail(cfg, s) && Possible(cfg, s, o) && !MovesEntries(s.pc)
    ensures Tail(cfg, StepWorker(cfg, s, o))
  {
    QuietQueue(cfg, s, o);
    QuietHand(cfg, s, o);
    QuietHistory(cfg, s, o);
    TailQuiet(cfg, s, StepWorker(cfg, s, o));
  }

  lemma TailStep(cfg: Config, s: State, a: Action)
    requires Tail(cfg, s) && Enabled(cfg, s, a)
    ensures Tail(cfg, Step(cfg, s, a))
  {
    match a
    case LogCall(t, r) => TailLogPush(cfg, s, t, r);
    case WorkerStep(o) => TailWorker(cfg, s, o);
    case _ =>
      TailQuiet(cfg, s, Step(cfg, s, a));
  }
}
